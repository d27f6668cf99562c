/** Which versions a describe-versions request returns: an explicit list of
    selectors resolved one by one in the order requested, or, without a
    list, every version in ascending order cut to an inclusive
    [MinVersion, MaxVersion] range. */
module VersionSelection {
  import opened LaunchTemplateTypes

  /** A version selector: a literal number, `$Latest` or `$Default`. */
  datatype Selector = Num(n: nat) | Latest | Default

  /** The version number a selector stands for in template `t`. */
  function Resolve(t: Template, sel: Selector): nat {
    match sel
    case Num(n) => n
    case Latest => t.latestVersion
    case Default => t.defaultVersion
  }

  /** The version of `t` with number `n`, if there is one. */
  function VersionNumbered(t: Template, n: nat): (r: Option<Version>)
    requires TemplateOk(t)
    ensures r.Some? <==> exists i | 0 <= i < |t.versions| :: t.versions[i].number == n
    ensures r.Some? ==> r.value in t.versions && r.value.number == n
  {
    if 1 <= n <= |t.versions| then Some(t.versions[n - 1]) else None
  }

  /** The versions named by an explicit selector list, in the order of the
      list; a selector that names no version is left out silently. */
  function SelectListed(t: Template, sels: seq<Selector>): (r: seq<Version>)
    requires TemplateOk(t)
    ensures |r| <= |sels|
  {
    if sels == [] then []
    else
      var first := VersionNumbered(t, Resolve(t, sels[0]));
      (if first.Some? then [first.value] else []) + SelectListed(t, sels[1..])
  }

  /** A version is listed exactly when it is a version of the template and
      some selector names its number. */
  lemma {:induction false} SelectListedMembers(t: Template, sels: seq<Selector>, v: Version)
    requires TemplateOk(t)
    ensures v in SelectListed(t, sels) <==> v in t.versions && exists i | 0 <= i < |sels| :: v.number == Resolve(t, sels[i])
  {
    if sels != [] {
      var rest := sels[1..];
      SelectListedMembers(t, rest, v);
      var first := VersionNumbered(t, Resolve(t, sels[0]));
      assert SelectListed(t, sels) == (if first.Some? then [first.value] else []) + SelectListed(t, rest);
      if v in SelectListed(t, rest) {
        var i :| 0 <= i < |rest| && v.number == Resolve(t, rest[i]);
        assert rest[i] == sels[i + 1];
      }
      if v in t.versions && exists i | 0 <= i < |sels| :: v.number == Resolve(t, sels[i]) {
        var i :| 0 <= i < |sels| && v.number == Resolve(t, sels[i]);
        if i > 0 {
          assert rest[i - 1] == sels[i];
        } else {
          var j :| 0 <= j < |t.versions| && t.versions[j] == v;
          assert first == Some(v);
        }
      }
    }
  }

  /** The versions listed for `a + b` are those for `a` followed by those
      for `b`; with SelectListedOne this fixes the result of every list,
      including one where some selectors name no version. */
  lemma {:induction false} SelectListedAppend(t: Template, a: seq<Selector>, b: seq<Selector>)
    requires TemplateOk(t)
    ensures SelectListed(t, a + b) == SelectListed(t, a) + SelectListed(t, b)
  {
    if a != [] {
      assert (a + b)[0] == a[0] && (a + b)[1..] == a[1..] + b;
      SelectListedAppend(t, a[1..], b);
      assert a + b == [a[0]] + (a[1..] + b);
    } else {
      assert a + b == b;
    }
  }

  /** One selector gives its version when it names one, and nothing
      otherwise. */
  lemma SelectListedOne(t: Template, sel: Selector)
    requires TemplateOk(t)
    ensures SelectListed(t, [sel])
         == if 1 <= Resolve(t, sel) <= t.latestVersion then [t.versions[Resolve(t, sel) - 1]] else []
  {
    assert [sel][1..] == [];
  }

  /** `$Latest` names the last version and `$Default` the default version,
      both of which exist; a number names a version exactly when it lies in
      1..latest. */
  lemma SpecialSelectorsResolve(t: Template)
    requires TemplateOk(t)
    ensures VersionNumbered(t, Resolve(t, Latest)) == Some(t.versions[|t.versions| - 1])
    ensures VersionNumbered(t, Resolve(t, Default)).Some?
    ensures VersionNumbered(t, Resolve(t, Default)).value.number == t.defaultVersion
    ensures forall n: nat :: VersionNumbered(t, Resolve(t, Num(n))).Some? <==> 1 <= n <= t.latestVersion
  {
  }

  /** When every selector names an existing version, the result has one
      version per selector, in the order requested. */
  lemma {:induction false} SelectListedInOrder(t: Template, sels: seq<Selector>)
    requires TemplateOk(t)
    requires forall i | 0 <= i < |sels| :: 1 <= Resolve(t, sels[i]) <= t.latestVersion
    ensures |SelectListed(t, sels)| == |sels|
    ensures forall i | 0 <= i < |sels| :: SelectListed(t, sels)[i] == t.versions[Resolve(t, sels[i]) - 1]
  {
    if sels != [] {
      var rest := sels[1..];
      assert forall i | 0 <= i < |rest| :: rest[i] == sels[i + 1];
      SelectListedInOrder(t, rest);
      var first := VersionNumbered(t, Resolve(t, sels[0]));
      assert first == Some(t.versions[Resolve(t, sels[0]) - 1]);
      assert SelectListed(t, sels) == [first.value] + SelectListed(t, rest);
    }
  }

  /** The inclusive range test of MinVersion / MaxVersion; an absent bound
      does not restrict. */
  predicate InRange(v: Version, lo: Option<nat>, hi: Option<nat>) {
    (lo.None? || lo.value <= v.number) && (hi.None? || v.number <= hi.value)
  }

  /** The versions of `vs` inside the range, in their original order. */
  function SelectRange(vs: seq<Version>, lo: Option<nat>, hi: Option<nat>): (r: seq<Version>)
    ensures |r| <= |vs|
  {
    if vs == [] then []
    else (if InRange(vs[0], lo, hi) then [vs[0]] else []) + SelectRange(vs[1..], lo, hi)
  }

  /** A version survives the range filter exactly when it is in the range. */
  lemma {:induction false} SelectRangeMembers(vs: seq<Version>, lo: Option<nat>, hi: Option<nat>, v: Version)
    ensures v in SelectRange(vs, lo, hi) <==> v in vs && InRange(v, lo, hi)
  {
    if vs != [] {
      SelectRangeMembers(vs[1..], lo, hi, v);
      assert vs == [vs[0]] + vs[1..];
    }
  }

  function Clamp(x: int, lo: int, hi: int): int {
    if x < lo then lo else if x > hi then hi else x
  }

  /** Index of the first version in the range, over versions 1..n. */
  function RangeStart(lo: Option<nat>, n: nat): (i: nat)
    ensures i <= n
  {
    if lo.None? then 0 else Clamp(lo.value - 1, 0, n)
  }

  /** Index one past the last version in the range, over versions 1..n. */
  function RangeEnd(lo: Option<nat>, hi: Option<nat>, n: nat): (j: nat)
    ensures RangeStart(lo, n) <= j <= n
  {
    if hi.None? then n else Clamp(hi.value, RangeStart(lo, n), n)
  }

  /** When the versions in the range are exactly those at indexes i..j-1,
      the range filter returns that slice. */
  lemma {:induction false} RangeFilterIsSlice(vs: seq<Version>, lo: Option<nat>, hi: Option<nat>, i: nat, j: nat)
    requires i <= j <= |vs|
    requires forall m | 0 <= m < |vs| :: InRange(vs[m], lo, hi) <==> i <= m < j
    ensures SelectRange(vs, lo, hi) == vs[i..j]
  {
    if vs != [] {
      var rest := vs[1..];
      var i', j' := if i > 0 then i - 1 else 0, if j > 0 then j - 1 else 0;
      forall m | 0 <= m < |rest| ensures InRange(rest[m], lo, hi) <==> i' <= m < j' {
        assert rest[m] == vs[m + 1];
      }
      RangeFilterIsSlice(rest, lo, hi, i', j');
      if i > 0 {
        assert rest[i'..j'] == vs[i..j];
      } else if j > 0 {
        assert InRange(vs[0], lo, hi);
        assert vs[i..j] == [vs[0]] + rest[i'..j'];
      }
    }
  }

  /** Over a well-formed template, MinVersion / MaxVersion select the slice
      of versions whose numbers lie in the inclusive range. */
  lemma RangeIsSlice(t: Template, lo: Option<nat>, hi: Option<nat>)
    requires TemplateOk(t)
    ensures SelectRange(t.versions, lo, hi)
         == t.versions[RangeStart(lo, |t.versions|)..RangeEnd(lo, hi, |t.versions|)]
  {
    var n := |t.versions|;
    var i, j := RangeStart(lo, n), RangeEnd(lo, hi, n);
    forall m | 0 <= m < n ensures InRange(t.versions[m], lo, hi) <==> i <= m < j {
      assert t.versions[m].number == m + 1;
    }
    RangeFilterIsSlice(t.versions, lo, hi, i, j);
  }

  /** The versions a describe-versions request returns. */
  function SelectVersions(t: Template, sels: seq<Selector>, lo: Option<nat>, hi: Option<nat>): (r: seq<Version>)
    requires TemplateOk(t)
    ensures forall v | v in r :: v in t.versions && (sels == [] ==> InRange(v, lo, hi))
    ensures sels == [] ==> forall i, j | 0 <= i < j < |r| :: r[i].number < r[j].number
    ensures sels == [] && lo.None? && hi.None? ==> r == t.versions
  {
    if sels != [] then
      var r := SelectListed(t, sels);
      assert forall v | v in r :: v in t.versions by {
        forall v | v in r ensures v in t.versions {
          SelectListedMembers(t, sels, v);
        }
      }
      r
    else
      var r := SelectRange(t.versions, lo, hi);
      RangeIsSlice(t, lo, hi);
      assert forall v | v in r :: v in t.versions && InRange(v, lo, hi) by {
        forall v | v in r ensures v in t.versions && InRange(v, lo, hi) {
          SelectRangeMembers(t.versions, lo, hi, v);
        }
      }
      r
  }
}
