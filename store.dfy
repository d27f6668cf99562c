/** The launch-template store: live templates keyed by id, an index from
    name to id, the creation order, and a counter for fresh ids. The read
    operations (DescribeLaunchTemplateVersions, DescribeLaunchTemplates)
    are functions of the store's state; the mutating ones (create,
    create-version, delete, tagging) are methods of the class Store. */
module TemplateStore {
  import opened LaunchTemplateTypes
  import opened VersionSelection
  import opened TemplateFilters
  import opened Pagination
  import Tags

  /** The state of a store as its readers see it. */
  datatype StoreView = StoreView(
    templates: map<nat, Template>,
    nameIndex: map<string, nat>,
    order: seq<nat>)

  ghost predicate Ascending(xs: seq<nat>) {
    forall i, j | 0 <= i < j < |xs| :: xs[i] < xs[j]
  }

  /** The store invariant: every record is well formed and filed under its
      own id; the name index maps each live name to the one template that
      has it, and nothing else; the creation order lists each live id once,
      in ascending order. */
  ghost predicate Inv(s: StoreView) {
    && (forall id | id in s.templates :: TemplateOk(s.templates[id]) && s.templates[id].id == id)
    && (forall n | n in s.nameIndex :: s.nameIndex[n] in s.templates && s.templates[s.nameIndex[n]].name == n)
    && (forall id | id in s.templates :: s.templates[id].name in s.nameIndex && s.nameIndex[s.templates[id].name] == id)
    && (forall i | 0 <= i < |s.order| :: s.order[i] in s.templates)
    && (forall id | id in s.templates :: id in s.order)
    && Ascending(s.order)
  }

  /** Names are unique among live templates. */
  lemma NamesUnique(s: StoreView, a: nat, b: nat)
    requires Inv(s) && a in s.templates && b in s.templates
    requires s.templates[a].name == s.templates[b].name
    ensures a == b
  {
  }

  /** The templates filed under `ids`, in that order; unknown ids are skipped. */
  function Pick(m: map<nat, Template>, ids: seq<nat>): (r: seq<Template>)
    ensures |r| <= |ids|
    ensures forall t | t in r :: exists i | 0 <= i < |ids| :: ids[i] in m && m[ids[i]] == t
  {
    if ids == [] then []
    else
      var rest := Pick(m, ids[1..]);
      assert forall t | t in rest :: exists i | 1 <= i < |ids| :: ids[i] in m && m[ids[i]] == t by {
        forall t | t in rest ensures exists i | 1 <= i < |ids| :: ids[i] in m && m[ids[i]] == t {
          var i :| 0 <= i < |ids[1..]| && ids[1..][i] in m && m[ids[1..][i]] == t;
          assert ids[i + 1] == ids[1..][i];
        }
      }
      (if ids[0] in m then [m[ids[0]]] else []) + rest
  }

  /** The templates picked for `a + b` are those for `a` followed by those
      for `b`; with PickOne this fixes the result of every id list,
      including one where some ids are unknown. */
  lemma {:induction false} PickAppend(m: map<nat, Template>, a: seq<nat>, b: seq<nat>)
    ensures Pick(m, a + b) == Pick(m, a) + Pick(m, b)
  {
    if a != [] {
      var head := if a[0] in m then [m[a[0]]] else [];
      assert (a + b)[0] == a[0] && (a + b)[1..] == a[1..] + b;
      assert Pick(m, a + b) == head + Pick(m, a[1..] + b);
      PickAppend(m, a[1..], b);
      AppendAssoc(head, Pick(m, a[1..]), Pick(m, b));
    } else {
      assert a + b == b;
    }
  }

  /** One id gives its template when it is known, and nothing otherwise. */
  lemma PickOne(m: map<nat, Template>, id: nat)
    ensures Pick(m, [id]) == if id in m then [m[id]] else []
  {
    assert [id][1..] == [];
  }

  /** When every id is known, one template per id, in the order given. */
  lemma {:induction false} PickAllKnown(m: map<nat, Template>, ids: seq<nat>)
    requires forall i | 0 <= i < |ids| :: ids[i] in m
    ensures |Pick(m, ids)| == |ids|
    ensures forall i | 0 <= i < |ids| :: Pick(m, ids)[i] == m[ids[i]]
  {
    if ids != [] {
      var rest := ids[1..];
      assert forall i | 0 <= i < |rest| :: rest[i] == ids[i + 1];
      PickAllKnown(m, rest);
      assert Pick(m, ids) == [m[ids[0]]] + Pick(m, rest);
    }
  }

  /** Every live template, in creation order. */
  function Listing(s: StoreView): (r: seq<Template>)
    requires Inv(s)
    ensures |r| == |s.order|
  {
    PickAllKnown(s.templates, s.order);
    Pick(s.templates, s.order)
  }

  /** The listing holds the live templates in creation order, so with
      ascending ids. */
  lemma ListingInOrder(s: StoreView)
    requires Inv(s)
    ensures forall i | 0 <= i < |s.order| :: Listing(s)[i] == s.templates[s.order[i]]
    ensures AscendingIds(Listing(s))
  {
    PickAllKnown(s.templates, s.order);
  }

  /** The listing holds exactly the live templates. */
  lemma ListingExact(s: StoreView)
    requires Inv(s)
    ensures forall t :: t in Listing(s) <==> t.id in s.templates && s.templates[t.id] == t
  {
    var r := Listing(s);
    ListingInOrder(s);
    forall t ensures t in r <==> t.id in s.templates && s.templates[t.id] == t {
      if t.id in s.templates && s.templates[t.id] == t {
        var i :| 0 <= i < |s.order| && s.order[i] == t.id;
        assert r[i] == t;
      }
    }
  }

  /** The ids the name index gives for `names`, in that order. */
  function IdsOfNames(nameIndex: map<string, nat>, names: seq<string>): (r: seq<nat>)
    requires forall i | 0 <= i < |names| :: names[i] in nameIndex
    ensures |r| == |names| && forall i | 0 <= i < |names| :: r[i] == nameIndex[names[i]]
  {
    if names == [] then []
    else
      assert forall i | 0 <= i < |names[1..]| :: names[1..][i] == names[i + 1];
      [nameIndex[names[0]]] + IdsOfNames(nameIndex, names[1..])
  }

  /** Finds the template a request addresses: by name when a name is given,
      otherwise by id; a request with neither is missing a parameter. */
  function ResolveKey(s: StoreView, id: Option<nat>, name: Option<string>): (r: Result<nat>)
    requires Inv(s)
    ensures r.Ok? ==> r.value in s.templates
    ensures name.Some? ==> (r.Ok? <==> name.value in s.nameIndex)
    ensures name.Some? && r.Ok? ==> s.templates[r.value].name == name.value
    ensures name.Some? && r.Err? ==> r.error == NotFoundByName(name.value)
    ensures name.None? && id.Some? ==> (r.Ok? <==> id.value in s.templates)
    ensures name.None? && id.Some? && r.Ok? ==> r.value == id.value
    ensures name.None? && id.Some? && r.Err? ==> r.error == NotFoundById(id.value)
    ensures name.None? && id.None? ==> r == Err(MissingParameter)
  {
    if name.Some? then
      if name.value in s.nameIndex then Ok(s.nameIndex[name.value]) else Err(NotFoundByName(name.value))
    else if id.Some? then
      if id.value in s.templates then Ok(id.value) else Err(NotFoundById(id.value))
    else Err(MissingParameter)
  }

  /** DescribeLaunchTemplateVersions. */
  function DescribeVersions(s: StoreView, id: Option<nat>, name: Option<string>,
                            sels: seq<Selector>, lo: Option<nat>, hi: Option<nat>): (r: Result<seq<Version>>)
    requires Inv(s)
    ensures name.Some? && name.value !in s.nameIndex ==> r == Err(NotFoundByName(name.value))
    ensures name.None? && id.Some? && id.value !in s.templates ==> r == Err(NotFoundById(id.value))
    ensures name.None? && id.None? ==> r == Err(MissingParameter)
    ensures r.Ok? ==> exists k | k in s.templates :: forall v | v in r.value :: v in s.templates[k].versions
  {
    match ResolveKey(s, id, name)
    case Err(e) => Err(e)
    case Ok(k) => Ok(SelectVersions(s.templates[k], sels, lo, hi))
  }

  /** A live template answers the same whether it is addressed by its name
      or by its id, and the answer is its version selection. */
  lemma DescribeVersionsByNameOrId(s: StoreView, k: nat, sels: seq<Selector>, lo: Option<nat>, hi: Option<nat>)
    requires Inv(s) && k in s.templates
    ensures DescribeVersions(s, None, Some(s.templates[k].name), sels, lo, hi)
         == DescribeVersions(s, Some(k), None, sels, lo, hi)
         == Ok(SelectVersions(s.templates[k], sels, lo, hi))
  {
  }

  /** A single selector naming an existing version returns exactly that
      version, whether the template is addressed by name or by id. */
  lemma DescribeOneVersion(s: StoreView, k: nat, sel: Selector)
    requires Inv(s) && k in s.templates
    requires 1 <= Resolve(s.templates[k], sel) <= s.templates[k].latestVersion
    ensures var t := s.templates[k];
            var want := Ok([t.versions[Resolve(t, sel) - 1]]);
            DescribeVersions(s, None, Some(t.name), [sel], None, None) == want
            && DescribeVersions(s, Some(k), None, [sel], None, None) == want
  {
    var t := s.templates[k];
    DescribeVersionsByNameOrId(s, k, [sel], None, None);
    assert SelectVersions(t, [sel], None, None) == SelectListed(t, [sel]);
    SelectListedInOrder(t, [sel]);
    assert SelectListed(t, [sel]) == [t.versions[Resolve(t, sel) - 1]];
  }

  /** A just-created template, which has one version, answers "1",
      `$Latest` and `$Default` with that version, by name and by id. */
  lemma DescribeFreshTemplate(s: StoreView, k: nat)
    requires Inv(s) && k in s.templates && |s.templates[k].versions| == 1
    ensures var t := s.templates[k];
      && DescribeVersions(s, None, Some(t.name), [Num(1)], None, None) == Ok(t.versions)
      && DescribeVersions(s, Some(k), None, [Num(1)], None, None) == Ok(t.versions)
      && DescribeVersions(s, None, Some(t.name), [Latest], None, None) == Ok(t.versions)
      && DescribeVersions(s, Some(k), None, [Latest], None, None) == Ok(t.versions)
      && DescribeVersions(s, None, Some(t.name), [Default], None, None) == Ok(t.versions)
      && DescribeVersions(s, Some(k), None, [Default], None, None) == Ok(t.versions)
  {
    var t := s.templates[k];
    assert t.versions == [t.versions[0]];
    DescribeOneVersion(s, k, Num(1));
    DescribeOneVersion(s, k, Latest);
    DescribeOneVersion(s, k, Default);
  }

  /** An explicit selector list whose entries all name existing versions
      returns one version per entry, in the order of the list. */
  lemma DescribeListedVersions(s: StoreView, k: nat, sels: seq<Selector>)
    requires Inv(s) && k in s.templates && sels != []
    requires forall i | 0 <= i < |sels| :: 1 <= Resolve(s.templates[k], sels[i]) <= s.templates[k].latestVersion
    ensures var t := s.templates[k];
      var r := DescribeVersions(s, None, Some(t.name), sels, None, None);
      && r.Ok? && |r.value| == |sels|
      && forall i | 0 <= i < |sels| :: r.value[i] == t.versions[Resolve(t, sels[i]) - 1]
  {
    var t := s.templates[k];
    DescribeVersionsByNameOrId(s, k, sels, None, None);
    assert SelectVersions(t, sels, None, None) == SelectListed(t, sels);
    SelectListedInOrder(t, sels);
  }

  /** Without a selector list, MinVersion / MaxVersion return the slice of
      versions whose numbers lie in the inclusive range. */
  lemma DescribeVersionRange(s: StoreView, k: nat, lo: Option<nat>, hi: Option<nat>)
    requires Inv(s) && k in s.templates
    ensures var t := s.templates[k];
      var n := |t.versions|;
      DescribeVersions(s, None, Some(t.name), [], lo, hi) == Ok(t.versions[RangeStart(lo, n)..RangeEnd(lo, hi, n)])
  {
    var t := s.templates[k];
    DescribeVersionsByNameOrId(s, k, [], lo, hi);
    assert SelectVersions(t, [], lo, hi) == SelectRange(t.versions, lo, hi);
    RangeIsSlice(t, lo, hi);
  }

  /** The base set of a describe-templates request: the templates with the
      given ids if any (unknown ids skipped), else those with the given
      names (all of which must exist), else every live template. */
  function Candidates(s: StoreView, ids: seq<nat>, names: seq<string>): (r: Result<seq<Template>>)
    requires Inv(s)
    ensures r.Err? <==> ids == [] && names != [] && exists i | 0 <= i < |names| :: names[i] !in s.nameIndex
    ensures r.Err? ==> r.error == NotFoundSome
    ensures r.Ok? ==> forall t | t in r.value :: t.id in s.templates && s.templates[t.id] == t
  {
    if ids != [] then Ok(Pick(s.templates, ids))
    else if names != [] then
      if forall i | 0 <= i < |names| :: names[i] in s.nameIndex
      then Ok(Pick(s.templates, IdsOfNames(s.nameIndex, names)))
      else Err(NotFoundSome)
    else
      ListingExact(s);
      Ok(Listing(s))
  }

  /** DescribeLaunchTemplates: the candidates that pass every filter, one
      page of them starting at `token`. */
  function DescribeTemplates(s: StoreView, ids: seq<nat>, names: seq<string>, filters: seq<Filter>,
                             token: nat, size: nat): (r: Result<Page<Template>>)
    requires Inv(s) && size > 0
    ensures ids == [] && names != [] ==> (r.Err? <==> exists i | 0 <= i < |names| :: names[i] !in s.nameIndex)
    ensures r.Err? ==> r.error == NotFoundSome
    ensures r.Ok? ==> |r.value.items| <= size
    ensures r.Ok? ==> forall t | t in r.value.items :: t.id in s.templates && s.templates[t.id] == t && MatchesAll(t, filters)
  {
    match Candidates(s, ids, names)
    case Err(e) => Err(e)
    case Ok(ts) =>
      var matching := FilterTemplates(ts, filters);
      var p := GetPage(matching, token, size);
      assert forall t | t in p.items :: t.id in s.templates && s.templates[t.id] == t && MatchesAll(t, filters) by {
        forall t | t in p.items ensures t.id in s.templates && s.templates[t.id] == t && MatchesAll(t, filters) {
          FilterMembers(ts, filters, t);
        }
      }
      Ok(p)
  }

  /** Explicit names come back in the order requested. */
  lemma DescribeByNamesInOrder(s: StoreView, names: seq<string>, size: nat)
    requires Inv(s) && names != [] && |names| <= size
    requires forall i | 0 <= i < |names| :: names[i] in s.nameIndex
    ensures DescribeTemplates(s, [], names, [], 0, size).Ok?
    ensures var items := DescribeTemplates(s, [], names, [], 0, size).value.items;
            |items| == |names| && forall i | 0 <= i < |names| :: items[i].name == names[i]
  {
    var ids := IdsOfNames(s.nameIndex, names);
    PickAllKnown(s.templates, ids);
    NoFiltersKeepsAll(Pick(s.templates, ids));
  }

  /** Explicit live ids come back in the order requested. */
  lemma DescribeByIdsInOrder(s: StoreView, ids: seq<nat>, size: nat)
    requires Inv(s) && ids != [] && |ids| <= size
    requires forall i | 0 <= i < |ids| :: ids[i] in s.templates
    ensures DescribeTemplates(s, ids, [], [], 0, size).Ok?
    ensures var items := DescribeTemplates(s, ids, [], [], 0, size).value.items;
            |items| == |ids| && forall i | 0 <= i < |ids| :: items[i].id == ids[i]
  {
    PickAllKnown(s.templates, ids);
    NoFiltersKeepsAll(Pick(s.templates, ids));
  }

  /** Filtering the whole listing returns exactly the live templates that
      pass every filter. */
  lemma ListingFilterExact(s: StoreView, filters: seq<Filter>, t: Template)
    requires Inv(s)
    ensures t in FilterTemplates(Listing(s), filters)
        <==> t.id in s.templates && s.templates[t.id] == t && MatchesAll(t, filters)
  {
    FilterMembers(Listing(s), filters, t);
    ListingExact(s);
  }

  /** Without ids or names, a describe-templates request pages through the
      filtered listing. */
  lemma DescribeAllIsPage(s: StoreView, filters: seq<Filter>, token: nat, size: nat)
    requires Inv(s) && size > 0
    ensures DescribeTemplates(s, [], [], filters, token, size)
         == Ok(GetPage(FilterTemplates(Listing(s), filters), token, size))
  {
  }

  /** One request of the NextToken loop: the page at `token` of the
      filtered listing, after which following its next token collects the
      rest of what following `token` would. */
  lemma RetrieveStep(s: StoreView, filters: seq<Filter>, token: nat, size: nat)
    requires Inv(s) && size > 0
    ensures var xs := FilterTemplates(Listing(s), filters);
      var resp := DescribeTemplates(s, [], [], filters, token, size);
      && resp.Ok?
      && (resp.value.nextToken.Some? ==> resp.value.nextToken.value < |xs|)
      && FollowTokens(xs, token, size)
         == resp.value.items + (if resp.value.nextToken.Some? then FollowTokens(xs, resp.value.nextToken.value, size) else [])
  {
    DescribeAllIsPage(s, filters, token, size);
    FollowTokensStep(FilterTemplates(Listing(s), filters), token, size);
  }

  /** Collects every template of a filtered listing by requesting the first
      page and then following NextToken until none is returned. */
  method RetrieveAll(s: StoreView, filters: seq<Filter>, size: nat) returns (all: seq<Template>)
    requires Inv(s) && size > 0
    ensures all == FilterTemplates(Listing(s), filters)
    ensures AscendingIds(all)
  {
    ghost var xs := FilterTemplates(Listing(s), filters);
    FollowTokensCollectsAll(xs, size);
    RetrieveStep(s, filters, 0, size);
    var resp := DescribeTemplates(s, [], [], filters, 0, size);
    all := resp.value.items;
    var next := resp.value.nextToken;
    while next.Some?
      invariant next.Some? ==> next.value < |xs| && all + FollowTokens(xs, next.value, size) == xs
      invariant next.None? ==> all == xs
      decreases if next.Some? then |xs| - next.value else 0
    {
      RetrieveStep(s, filters, next.value, size);
      resp := DescribeTemplates(s, [], [], filters, next.value, size);
      ghost var rest := if resp.value.nextToken.Some? then FollowTokens(xs, resp.value.nextToken.value, size) else [];
      AppendAssoc(all, resp.value.items, rest);
      all := all + resp.value.items;
      next := resp.value.nextToken;
    }
    ListingInOrder(s);
    FilterKeepsOrder(Listing(s), filters);
  }

  /** Removes one id from the creation order. */
  function RemoveId(xs: seq<nat>, x: nat): (r: seq<nat>)
    ensures forall y :: y in r <==> y in xs && y != x
    ensures Ascending(xs) ==> Ascending(r)
  {
    if xs == [] then []
    else
      var rest := RemoveId(xs[1..], x);
      assert forall y :: y in xs <==> y == xs[0] || y in xs[1..];
      assert Ascending(xs) ==> Ascending(xs[1..]) && forall y | y in rest :: xs[0] < y by {
        if Ascending(xs) {
          forall i, j | 0 <= i < j < |xs[1..]| ensures xs[1..][i] < xs[1..][j] {
            assert xs[1..][i] == xs[i + 1] && xs[1..][j] == xs[j + 1];
          }
          forall y | y in rest ensures xs[0] < y {
            var j :| 1 <= j < |xs| && xs[j] == y;
          }
        }
      }
      if xs[0] == x then rest
      else
        var r := [xs[0]] + rest;
        assert Ascending(xs) ==> Ascending(r) by {
          if Ascending(xs) {
            forall i, j | 0 <= i < j < |r| ensures r[i] < r[j] {
              assert r[j] == rest[j - 1] && r[j] in rest;
              if i > 0 { assert r[i] == rest[i - 1]; }
            }
          }
        }
        r
  }

  /** The store invariant, plus: ids come from a counter that is beyond
      every id ever issued, and every live id was issued, so an id is never
      reused. */
  ghost predicate StoreOk(s: StoreView, issued: set<nat>, nextId: nat) {
    && Inv(s)
    && (forall id | id in s.templates :: id in issued)
    && (forall id | id in issued :: id < nextId)
  }

  /** Filing a new record under the next fresh id keeps the invariant. */
  lemma AddKeepsStoreOk(s: StoreView, issued: set<nat>, nextId: nat, t: Template)
    requires StoreOk(s, issued, nextId) && TemplateOk(t)
    requires t.id == nextId && t.name !in s.nameIndex
    ensures StoreOk(StoreView(s.templates[nextId := t], s.nameIndex[t.name := nextId], s.order + [nextId]),
                    issued + {nextId}, nextId + 1)
  {
    assert forall i | 0 <= i < |s.order| :: s.order[i] < nextId;
  }

  /** Replacing a record by one with the same id and name keeps the
      invariant. */
  lemma ReplaceKeepsStoreOk(s: StoreView, issued: set<nat>, nextId: nat, k: nat, t: Template)
    requires StoreOk(s, issued, nextId) && k in s.templates && TemplateOk(t)
    requires t.id == k && t.name == s.templates[k].name
    ensures StoreOk(StoreView(s.templates[k := t], s.nameIndex, s.order), issued, nextId)
  {
    ReplaceKeepsInv(s, k, t);
  }

  /** Removing a record keeps the invariant; its id stays issued. */
  lemma RemoveKeepsStoreOk(s: StoreView, issued: set<nat>, nextId: nat, k: nat)
    requires StoreOk(s, issued, nextId) && k in s.templates
    ensures StoreOk(StoreView(s.templates - {k}, s.nameIndex - {s.templates[k].name}, RemoveId(s.order, k)),
                    issued, nextId)
  {
    RemoveKeepsInv(s, k);
  }

  /** Replacing a record by one with the same id and name keeps the
      invariant. */
  lemma ReplaceKeepsInv(s: StoreView, k: nat, t: Template)
    requires Inv(s) && k in s.templates && TemplateOk(t)
    requires t.id == k && t.name == s.templates[k].name
    ensures Inv(StoreView(s.templates[k := t], s.nameIndex, s.order))
  {
  }

  /** Removing a record with its name and its place in the order keeps the
      invariant. */
  lemma RemoveKeepsInv(s: StoreView, k: nat)
    requires Inv(s) && k in s.templates
    ensures Inv(StoreView(s.templates - {k}, s.nameIndex - {s.templates[k].name}, RemoveId(s.order, k)))
  {
    RemoveKeepsNameIndex(s, k);
    RemoveKeepsOrder(s, k);
  }

  lemma RemoveKeepsNameIndex(s: StoreView, k: nat)
    requires Inv(s) && k in s.templates
    ensures var ts, idx := s.templates - {k}, s.nameIndex - {s.templates[k].name};
      && (forall n | n in idx :: idx[n] in ts && ts[idx[n]].name == n)
      && (forall id | id in ts :: ts[id].name in idx && idx[ts[id].name] == id)
  {
    var gone := s.templates[k].name;
    var ts, idx := s.templates - {k}, s.nameIndex - {gone};
    forall n | n in idx ensures idx[n] in ts && ts[idx[n]].name == n {
      var j := s.nameIndex[n];
      assert idx[n] == j && j in s.templates && s.templates[j].name == n;
      assert j != k;
    }
    forall id | id in ts ensures ts[id].name in idx && idx[ts[id].name] == id {
      var n := s.templates[id].name;
      assert s.nameIndex[n] == id && id != k;
      assert n != gone;
    }
  }

  lemma RemoveKeepsOrder(s: StoreView, k: nat)
    requires Inv(s) && k in s.templates
    ensures var ts, ord := s.templates - {k}, RemoveId(s.order, k);
      && (forall i | 0 <= i < |ord| :: ord[i] in ts)
      && (forall id | id in ts :: id in ord)
      && Ascending(ord)
  {
    var ts, ord := s.templates - {k}, RemoveId(s.order, k);
    forall i | 0 <= i < |ord| ensures ord[i] in ts {
      assert ord[i] in ord;
    }
  }

  /** Appending version latest + 1 keeps a record well formed. */
  lemma AppendKeepsTemplateOk(t: Template, v: Version)
    requires TemplateOk(t) && v.number == t.latestVersion + 1
    ensures TemplateOk(t.(versions := t.versions + [v], latestVersion := v.number))
  {
  }

  /** The TagSpecifications inside launch data; none when the key is absent. */
  function SpecsOf(data: LaunchData): seq<TagSpec> {
    if data.tagSpecifications.Some? then data.tagSpecifications.value else []
  }

  /** The launch data stored as version 1: the TagSpecifications given
      beside the template are appended to those inside the data. */
  function StoredData(data: LaunchData, tagSpecs: seq<TagSpec>): (r: LaunchData)
    ensures SpecsOf(r) == SpecsOf(data) + tagSpecs
    ensures r.other == data.other
    ensures r.tagSpecifications.None? <==> data.tagSpecifications.None? && tagSpecs == []
    ensures tagSpecs == [] ==> r == data
  {
    if tagSpecs == [] then data
    else
      LaunchData(Some(SpecsOf(data) + tagSpecs), data.other)
  }

  /** A new record with one version, numbered 1, which is both the default
      and the latest version. */
  function NewTemplate(id: nat, name: string, data: LaunchData, description: Option<string>,
                       tagSpecs: seq<TagSpec>): (t: Template)
    ensures TemplateOk(t)
    ensures t.id == id && t.name == name && t.defaultVersion == 1 && t.latestVersion == 1
    ensures |t.versions| == 1 && t.versions[0].number == 1 && t.versions[0].description == description
  {
    Template(id, name, [Version(1, StoredData(data, tagSpecs), description)], 1, 1, Tags.InitialTags(tagSpecs))
  }

  class Store {
    var templates: map<nat, Template>
    var nameIndex: map<string, nat>
    var order: seq<nat>
    var nextId: nat
    /** Every id ever handed out, live or deleted. */
    ghost var issued: set<nat>

    function View(): StoreView
      reads this
    {
      StoreView(templates, nameIndex, order)
    }

    /** The store invariant, plus: ids come from a counter that is beyond
        every id ever issued, so an id is never reused. */
    ghost predicate Valid()
      reads this
    {
      StoreOk(View(), issued, nextId)
    }

    constructor ()
      ensures Valid()
      ensures templates == map[] && nameIndex == map[] && order == [] && issued == {}
    {
      templates, nameIndex, order, nextId := map[], map[], [], 0;
      issued := {};
    }

    /** CreateLaunchTemplate. */
    method Create(name: string, data: LaunchData, description: Option<string>,
                  tagSpecs: seq<TagSpec>, dryRun: bool) returns (r: Result<Template>)
      requires Valid()
      modifies this
      ensures Valid()
      ensures name in old(nameIndex) ==> r == Err(AlreadyExists) && unchanged(this)
      ensures name !in old(nameIndex) && dryRun ==> r == Err(DryRun) && unchanged(this)
      ensures name !in old(nameIndex) && !dryRun ==>
        && r.Ok?
        && var t := r.value;
        && t.id == old(nextId) && t.id !in old(issued)
        && t.name == name && t.defaultVersion == 1 && t.latestVersion == 1
        && t.versions == [Version(1, StoredData(data, tagSpecs), description)]
        && t.tags == Tags.InitialTags(tagSpecs)
        && templates == old(templates)[t.id := t]
        && nameIndex == old(nameIndex)[name := t.id]
        && order == old(order) + [t.id]
        && nextId == old(nextId) + 1
        && issued == old(issued) + {t.id}
    {
      if name in nameIndex {
        return Err(AlreadyExists);
      }
      if dryRun {
        return Err(DryRun);
      }
      var id := nextId;
      var t := NewTemplate(id, name, data, description, tagSpecs);
      var ts, idx, ord := templates[id := t], nameIndex[name := id], order + [id];
      AddKeepsStoreOk(View(), issued, nextId, t);
      templates, nameIndex, order, nextId, issued := ts, idx, ord, nextId + 1, issued + {id};
      assert View() == StoreView(ts, idx, ord);
      r := Ok(t);
    }

    /** CreateLaunchTemplateVersion: appends version latest + 1, which is
        not the default version. */
    method CreateVersion(id: Option<nat>, name: Option<string>, data: LaunchData,
                         description: Option<string>, dryRun: bool) returns (r: Result<VersionInfo>)
      requires Valid()
      modifies this
      ensures Valid()
      ensures ResolveKey(old(View()), id, name).Err? ==>
        r == Err(ResolveKey(old(View()), id, name).error) && unchanged(this)
      ensures ResolveKey(old(View()), id, name).Ok? && dryRun ==> r == Err(DryRun) && unchanged(this)
      ensures ResolveKey(old(View()), id, name).Ok? && !dryRun ==>
        var k := ResolveKey(old(View()), id, name).value;
        var t := old(templates)[k];
        var v := Version(t.latestVersion + 1, data, description);
        && r == Ok(VersionInfo(k, v, false))
        && templates == old(templates)[k := t.(versions := t.versions + [v], latestVersion := v.number)]
        && templates[k].defaultVersion == t.defaultVersion
        && nameIndex == old(nameIndex) && order == old(order)
        && nextId == old(nextId) && issued == old(issued)
    {
      var key := ResolveKey(View(), id, name);
      if key.Err? {
        r := Err(key.error);
      } else if dryRun {
        r := Err(DryRun);
      } else {
        var k := key.value;
        var t := templates[k];
        var v := Version(t.latestVersion + 1, data, description);
        var t' := t.(versions := t.versions + [v], latestVersion := v.number);
        AppendKeepsTemplateOk(t, v);
        Replace(k, t');
        r := Ok(VersionInfo(k, v, v.number == t'.defaultVersion));
      }
    }

    /** Replaces a live record by one with the same id and name. */
    method Replace(k: nat, t: Template)
      requires Valid() && k in templates && TemplateOk(t)
      requires t.id == k && t.name == templates[k].name
      modifies this
      ensures Valid()
      ensures templates == old(templates)[k := t]
      ensures nameIndex == old(nameIndex) && order == old(order)
      ensures nextId == old(nextId) && issued == old(issued)
    {
      ghost var s := View();
      templates := templates[k := t];
      ReplaceKeepsStoreOk(s, issued, nextId, k, t);
      assert View() == StoreView(s.templates[k := t], s.nameIndex, s.order);
    }

    /** DeleteLaunchTemplate: removes the record, its versions and its
        tags; its name becomes free again. */
    method Delete(id: Option<nat>, name: Option<string>, dryRun: bool) returns (r: Result<Template>)
      requires Valid()
      modifies this
      ensures Valid()
      ensures ResolveKey(old(View()), id, name).Err? ==>
        r == Err(ResolveKey(old(View()), id, name).error) && unchanged(this)
      ensures ResolveKey(old(View()), id, name).Ok? && dryRun ==> r == Err(DryRun) && unchanged(this)
      ensures ResolveKey(old(View()), id, name).Ok? && !dryRun ==>
        var k := ResolveKey(old(View()), id, name).value;
        && r == Ok(old(templates)[k])
        && templates == old(templates) - {k}
        && nameIndex == old(nameIndex) - {old(templates)[k].name}
        && order == RemoveId(old(order), k)
        && nextId == old(nextId) && issued == old(issued)
    {
      var key := ResolveKey(View(), id, name);
      if key.Err? {
        return Err(key.error);
      }
      if dryRun {
        return Err(DryRun);
      }
      r := Ok(templates[key.value]);
      Remove(key.value);
    }

    /** Removes a live record, its name and its place in the order. */
    method Remove(k: nat)
      requires Valid() && k in templates
      modifies this
      ensures Valid()
      ensures templates == old(templates) - {k}
      ensures nameIndex == old(nameIndex) - {old(templates)[k].name}
      ensures order == RemoveId(old(order), k)
      ensures nextId == old(nextId) && issued == old(issued)
    {
      ghost var s := View();
      templates, nameIndex, order := templates - {k}, nameIndex - {templates[k].name}, RemoveId(order, k);
      RemoveKeepsStoreOk(s, issued, nextId, k);
      assert View() == StoreView(s.templates - {k}, s.nameIndex - {s.templates[k].name}, RemoveId(s.order, k));
    }

    /** CreateTags on a template: each tag sets its key, the last one for a
        key winning. Tags on an id that is no template leave the store as
        it is. */
    method CreateTags(resourceId: nat, tags: seq<Tag>)
      requires Valid()
      modifies this
      ensures Valid()
      ensures resourceId in old(templates) ==>
        templates == old(templates)[resourceId := old(templates)[resourceId].(tags := Tags.PutTags(old(templates)[resourceId].tags, tags))]
      ensures resourceId !in old(templates) ==> templates == old(templates)
      ensures nameIndex == old(nameIndex) && order == old(order)
      ensures nextId == old(nextId) && issued == old(issued)
    {
      if resourceId in templates {
        var t := templates[resourceId];
        Replace(resourceId, t.(tags := Tags.PutTags(t.tags, tags)));
      }
    }
  }
}
