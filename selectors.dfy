/** The textual form of version selectors, as the Versions parameter of
    DescribeLaunchTemplateVersions carries them: a decimal version number,
    `$Latest` or `$Default`. */
module SelectorSyntax {
  import opened LaunchTemplateTypes
  import opened VersionSelection

  predicate IsDigit(c: char) {
    '0' <= c <= '9'
  }

  predicate IsNumeral(s: string) {
    |s| > 0 && forall i | 0 <= i < |s| :: IsDigit(s[i])
  }

  function DigitChar(d: nat): (c: char)
    requires d < 10
    ensures IsDigit(c) && c as int - '0' as int == d
  {
    ('0' as int + d) as char
  }

  /** The value of a string of decimal digits. */
  function NumeralValue(s: string): nat
    requires forall i | 0 <= i < |s| :: IsDigit(s[i])
  {
    if s == [] then 0
    else
      assert IsDigit(s[|s| - 1]);
      NumeralValue(s[..|s| - 1]) * 10 + (s[|s| - 1] as int - '0' as int)
  }

  /** The decimal numeral of `n`, without leading zeros. */
  function Numeral(n: nat): (s: string)
    ensures IsNumeral(s)
  {
    if n < 10 then [DigitChar(n)] else Numeral(n / 10) + [DigitChar(n % 10)]
  }

  lemma {:induction false} NumeralRoundTrip(n: nat)
    ensures NumeralValue(Numeral(n)) == n
  {
    if n < 10 {
      assert Numeral(n)[..0] == [];
    } else {
      var s := Numeral(n);
      assert s[..|s| - 1] == Numeral(n / 10);
      NumeralRoundTrip(n / 10);
    }
  }

  /** Reads one selector; anything else is an invalid selector. */
  function ParseSelector(s: string): (r: Result<Selector>)
    ensures r.Err? ==> r.error == InvalidVersionSelector(s)
    ensures r.Ok? && r.value.Num? ==> IsNumeral(s) && r.value.n == NumeralValue(s)
    ensures r.Ok? <==> s == "$Latest" || s == "$Default" || IsNumeral(s)
    ensures s == "$Latest" ==> r == Ok(Latest)
    ensures s == "$Default" ==> r == Ok(Default)
    ensures IsNumeral(s) ==> r == Ok(Num(NumeralValue(s)))
  {
    assert IsNumeral(s) ==> s != "$Latest" && s != "$Default" by {
      if IsNumeral(s) {
        assert IsDigit(s[0]) && "$Latest"[0] == '$' && "$Default"[0] == '$';
      }
    }
    if s == "$Latest" then Ok(Latest)
    else if s == "$Default" then Ok(Default)
    else if IsNumeral(s) then Ok(Num(NumeralValue(s)))
    else Err(InvalidVersionSelector(s))
  }

  /** The text of a selector. */
  function ShowSelector(sel: Selector): string {
    match sel
    case Num(n) => Numeral(n)
    case Latest => "$Latest"
    case Default => "$Default"
  }

  /** Every selector reads back from its own text. */
  lemma ParseShow(sel: Selector)
    ensures ParseSelector(ShowSelector(sel)) == Ok(sel)
  {
    if sel.Num? {
      NumeralRoundTrip(sel.n);
      assert IsDigit(Numeral(sel.n)[0]);
      assert "$Latest"[0] == '$' && "$Default"[0] == '$';
    }
  }

  /** Reads a selector list; the first invalid entry fails the whole list. */
  function ParseSelectors(ss: seq<string>): (r: Result<seq<Selector>>)
    ensures r.Ok? ==> |r.value| == |ss| && forall i | 0 <= i < |ss| :: ParseSelector(ss[i]) == Ok(r.value[i])
    ensures r.Err? ==> exists i | 0 <= i < |ss| ::
      ParseSelector(ss[i]) == Err(r.error) && forall j | 0 <= j < i :: ParseSelector(ss[j]).Ok?
  {
    if ss == [] then Ok([])
    else
      match ParseSelector(ss[0])
      case Err(e) => Err(e)
      case Ok(sel) =>
        match ParseSelectors(ss[1..])
        case Err(e) =>
          assert exists i | 1 <= i < |ss| ::
            ParseSelector(ss[i]) == Err(e) && forall j | 0 <= j < i :: ParseSelector(ss[j]).Ok? by {
            var i :| 0 <= i < |ss[1..]| && ParseSelector(ss[1..][i]) == Err(e)
              && forall j | 0 <= j < i :: ParseSelector(ss[1..][j]).Ok?;
            assert ss[i + 1] == ss[1..][i];
            assert forall j | 1 <= j < i + 1 :: ss[j] == ss[1..][j - 1];
          }
          Err(e)
        case Ok(rest) =>
          assert forall i | 1 <= i < |ss| :: ss[i] == ss[1..][i - 1];
          Ok([sel] + rest)
  }
}
