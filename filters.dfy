/** Filters of DescribeLaunchTemplates. A template passes a filter list
    when it matches every filter (AND), and it matches one filter when its
    name, or the value of the named tag, is one of the filter's values (OR). */
module TemplateFilters {
  import opened LaunchTemplateTypes
  import Tags

  /** The supported filter keys: `launch-template-name` and `tag:<key>`. */
  datatype Filter = ByName(values: seq<string>) | ByTag(key: string, values: seq<string>)

  const TagPrefix: string := "tag:"

  /** Reads a filter from its wire name; an unsupported name gives None. */
  function ParseFilter(name: string, values: seq<string>): (r: Option<Filter>)
    ensures r == Some(ByName(values)) <==> name == "launch-template-name"
    ensures forall k :: r == Some(ByTag(k, values)) <==> name == TagPrefix + k
    ensures r.Some? ==> r.value.values == values
  {
    if name == "launch-template-name" then
      assert forall k :: (TagPrefix + k)[0] == 't' != name[0];
      Some(ByName(values))
    else if |name| >= |TagPrefix| && name[..|TagPrefix|] == TagPrefix then
      assert name == TagPrefix + name[|TagPrefix|..];
      Some(ByTag(name[|TagPrefix|..], values))
    else None
  }

  predicate Matches(t: Template, f: Filter) {
    match f
    case ByName(vs) => t.name in vs
    case ByTag(k, vs) => Tags.Lookup(t.tags, k).Some? && Tags.Lookup(t.tags, k).value in vs
  }

  predicate MatchesAll(t: Template, fs: seq<Filter>) {
    forall i | 0 <= i < |fs| :: Matches(t, fs[i])
  }

  /** Filters are ANDed: a template passes two filter lists together
      exactly when it passes each; it passes the empty list and a
      one-filter list exactly when it matches that filter. */
  lemma MatchesAllAppend(t: Template, fs: seq<Filter>, gs: seq<Filter>, f: Filter)
    ensures MatchesAll(t, fs + gs) <==> MatchesAll(t, fs) && MatchesAll(t, gs)
    ensures MatchesAll(t, [])
    ensures MatchesAll(t, [f]) <==> Matches(t, f)
  {
    if MatchesAll(t, fs) && MatchesAll(t, gs) {
      forall i | 0 <= i < |fs + gs| ensures Matches(t, (fs + gs)[i]) {
        if i >= |fs| {
          assert (fs + gs)[i] == gs[i - |fs|];
        }
      }
    }
    if MatchesAll(t, fs + gs) {
      forall i | 0 <= i < |gs| ensures Matches(t, gs[i]) {
        assert (fs + gs)[|fs| + i] == gs[i];
      }
      forall i | 0 <= i < |fs| ensures Matches(t, fs[i]) {
        assert (fs + gs)[i] == fs[i];
      }
    }
    assert [f][0] == f;
  }

  /** The values of one filter are ORed: a filter with values `vs + ws`
      matches exactly when the filter with `vs` or the one with `ws` does. */
  lemma FilterValuesOred(t: Template, k: string, vs: seq<string>, ws: seq<string>)
    ensures Matches(t, ByName(vs + ws)) <==> Matches(t, ByName(vs)) || Matches(t, ByName(ws))
    ensures Matches(t, ByTag(k, vs + ws)) <==> Matches(t, ByTag(k, vs)) || Matches(t, ByTag(k, ws))
  {
  }

  /** A tag filter matches exactly the templates carrying that key with
      one of the values; a template without that tag never matches. */
  lemma TagFilterExact(t: Template, k: string, vs: seq<string>)
    requires KeysDistinct(t.tags)
    ensures Matches(t, ByTag(k, vs)) <==> exists v | v in vs :: Tag(k, v) in t.tags
  {
    if exists v | v in vs :: Tag(k, v) in t.tags {
      var v :| v in vs && Tag(k, v) in t.tags;
      assert Tags.Lookup(t.tags, k) == Some(v);
    }
  }

  /** The templates of `ts` that pass every filter, in their original order. */
  function FilterTemplates(ts: seq<Template>, fs: seq<Filter>): (r: seq<Template>)
    ensures |r| <= |ts|
  {
    if ts == [] then []
    else (if MatchesAll(ts[0], fs) then [ts[0]] else []) + FilterTemplates(ts[1..], fs)
  }

  /** Filtering keeps exactly the templates that pass every filter. */
  lemma {:induction false} FilterMembers(ts: seq<Template>, fs: seq<Filter>, t: Template)
    ensures t in FilterTemplates(ts, fs) <==> t in ts && MatchesAll(t, fs)
  {
    if ts != [] {
      FilterMembers(ts[1..], fs, t);
      assert ts == [ts[0]] + ts[1..];
    }
  }

  /** Filtering a list in two parts filters each part in turn, so the
      templates kept stay in the order of the list given. */
  lemma {:induction false} FilterAppend(a: seq<Template>, b: seq<Template>, fs: seq<Filter>)
    ensures FilterTemplates(a + b, fs) == FilterTemplates(a, fs) + FilterTemplates(b, fs)
  {
    if a != [] {
      var head := if MatchesAll(a[0], fs) then [a[0]] else [];
      assert (a + b)[0] == a[0] && (a + b)[1..] == a[1..] + b;
      assert FilterTemplates(a + b, fs) == head + FilterTemplates(a[1..] + b, fs);
      FilterAppend(a[1..], b, fs);
      assert head + (FilterTemplates(a[1..], fs) + FilterTemplates(b, fs))
          == (head + FilterTemplates(a[1..], fs)) + FilterTemplates(b, fs);
    } else {
      assert a + b == b;
    }
  }

  /** With no filters, every template is returned. */
  lemma {:induction false} NoFiltersKeepsAll(ts: seq<Template>)
    ensures FilterTemplates(ts, []) == ts
  {
    if ts != [] {
      NoFiltersKeepsAll(ts[1..]);
      assert ts == [ts[0]] + ts[1..];
    }
  }

  /** Ids strictly ascending: for the store's listing, creation order. */
  predicate AscendingIds(ts: seq<Template>) {
    forall i, j | 0 <= i < j < |ts| :: ts[i].id < ts[j].id
  }

  /** Filtering preserves the order of the listing. */
  lemma {:induction false} FilterKeepsOrder(ts: seq<Template>, fs: seq<Filter>)
    requires AscendingIds(ts)
    ensures AscendingIds(FilterTemplates(ts, fs))
  {
    if ts != [] {
      var rest := FilterTemplates(ts[1..], fs);
      FilterKeepsOrder(ts[1..], fs);
      forall x | x in rest ensures ts[0].id < x.id {
        FilterMembers(ts[1..], fs, x);
        var j :| 0 <= j < |ts[1..]| && ts[1..][j] == x;
        assert ts[1..][j] == ts[j + 1];
      }
      var r := FilterTemplates(ts, fs);
      if MatchesAll(ts[0], fs) {
        assert r == [ts[0]] + rest;
        forall i, j | 0 <= i < j < |r| ensures r[i].id < r[j].id {
          if i == 0 {
            assert r[j] == rest[j - 1] && r[j] in rest;
          } else {
            assert r[i] == rest[i - 1] && r[j] == rest[j - 1];
          }
        }
      } else {
        assert r == rest;
      }
    }
  }
}
