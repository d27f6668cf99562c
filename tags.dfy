/** Tags of a template. A template's tags behave as an insertion-ordered
    dictionary from key to value: setting an existing key replaces its
    value in place, a new key goes to the end. */
module Tags {
  import opened LaunchTemplateTypes

  /** The value stored under key `k`, if any. */
  function Lookup(ts: seq<Tag>, k: string): (r: Option<string>)
    ensures r.None? <==> forall i | 0 <= i < |ts| :: ts[i].key != k
    ensures r.Some? ==> Tag(k, r.value) in ts
    ensures KeysDistinct(ts) ==> forall v :: r == Some(v) <==> Tag(k, v) in ts
  {
    if ts == [] then None
    else if ts[0].key == k then Some(ts[0].value)
    else
      assert KeysDistinct(ts) ==> KeysDistinct(ts[1..]) by {
        if KeysDistinct(ts) {
          forall i, j | 0 <= i < j < |ts[1..]| ensures ts[1..][i].key != ts[1..][j].key {
            assert ts[1..][i] == ts[i + 1] && ts[1..][j] == ts[j + 1];
          }
        }
      }
      Lookup(ts[1..], k)
  }

  /** The value of the LAST tag with key `k` in a list of tags to apply:
      applying tags in order, the last one for a key wins. */
  function LastValue(news: seq<Tag>, k: string): (r: Option<string>)
    ensures r.None? <==> forall i | 0 <= i < |news| :: news[i].key != k
    ensures r.Some? ==> Tag(k, r.value) in news
    ensures r.Some? ==> exists i | 0 <= i < |news| :: news[i] == Tag(k, r.value) && forall j | i < j < |news| :: news[j].key != k
  {
    if news == [] then None
    else if news[|news| - 1].key == k then Some(news[|news| - 1].value)
    else
      var init := news[..|news| - 1];
      var r := LastValue(init, k);
      assert r.Some? ==> exists i | 0 <= i < |news| :: news[i] == Tag(k, r.value) && forall j | i < j < |news| :: news[j].key != k by {
        if r.Some? {
          var i :| 0 <= i < |init| && init[i] == Tag(k, r.value) && forall j | i < j < |init| :: init[j].key != k;
          assert news[i] == init[i];
          forall j | i < j < |news| ensures news[j].key != k {
            if j < |init| {
              assert news[j] == init[j];
            }
          }
        }
      }
      r
  }

  /** Sets one tag. */
  function PutTag(ts: seq<Tag>, t: Tag): (r: seq<Tag>)
    ensures forall k :: Lookup(r, k) == if k == t.key then Some(t.value) else Lookup(ts, k)
    ensures forall x | x in r :: x == t || x in ts
    ensures KeysDistinct(ts) ==> KeysDistinct(r)
    ensures (forall i | 0 <= i < |ts| :: ts[i].key != t.key) ==> r == ts + [t]
  {
    if ts == [] then [t]
    else if ts[0].key == t.key then [t] + ts[1..]
    else
      var rest := PutTag(ts[1..], t);
      assert KeysDistinct(ts) ==> KeysDistinct(ts[1..]) by {
        if KeysDistinct(ts) {
          forall i, j | 0 <= i < j < |ts[1..]| ensures ts[1..][i].key != ts[1..][j].key {
            assert ts[1..][i] == ts[i + 1] && ts[1..][j] == ts[j + 1];
          }
        }
      }
      assert KeysDistinct(ts) ==> forall x | x in rest :: x.key != ts[0].key by {
        if KeysDistinct(ts) {
          forall x | x in rest ensures x.key != ts[0].key {
            if x != t {
              var j :| 1 <= j < |ts| && ts[j] == x;
            }
          }
        }
      }
      [ts[0]] + rest
  }

  /** Applies a list of tags in order (EC2 CreateTags on one resource). */
  function PutTags(ts: seq<Tag>, news: seq<Tag>): (r: seq<Tag>)
    ensures forall k :: Lookup(r, k) == if LastValue(news, k).Some? then LastValue(news, k) else Lookup(ts, k)
    ensures KeysDistinct(ts) ==> KeysDistinct(r)
  {
    if news == [] then ts
    else PutTag(PutTags(ts, news[..|news| - 1]), news[|news| - 1])
  }

  /** Applying tags with fresh, distinct keys appends them in order. */
  lemma {:induction false} PutTagsFresh(acc: seq<Tag>, news: seq<Tag>)
    requires KeysDistinct(acc + news)
    ensures PutTags(acc, news) == acc + news
  {
    if news != [] {
      var init, last := news[..|news| - 1], news[|news| - 1];
      assert news == init + [last];
      assert acc + news == (acc + init) + [last];
      assert KeysDistinct(acc + init) by {
        forall i, j | 0 <= i < j < |acc + init| ensures (acc + init)[i].key != (acc + init)[j].key {
          assert (acc + init)[i] == (acc + news)[i] && (acc + init)[j] == (acc + news)[j];
        }
      }
      PutTagsFresh(acc, init);
      forall i | 0 <= i < |acc + init| ensures (acc + init)[i].key != last.key {
        assert (acc + init)[i] == (acc + news)[i] && last == (acc + news)[|acc + news| - 1];
      }
    }
  }

  /** The tags of every tag specification aimed at the template itself. */
  function LaunchTemplateTagList(specs: seq<TagSpec>): (r: seq<Tag>)
    ensures forall x :: x in r <==> exists i | 0 <= i < |specs| :: specs[i].resourceType == LaunchTemplateResource && x in specs[i].tags
  {
    if specs == [] then []
    else
      var rest := LaunchTemplateTagList(specs[1..]);
      assert forall x :: x in rest <==> exists i | 1 <= i < |specs| :: specs[i].resourceType == LaunchTemplateResource && x in specs[i].tags by {
        forall x ensures x in rest <==> exists i | 1 <= i < |specs| :: specs[i].resourceType == LaunchTemplateResource && x in specs[i].tags {
          if x in rest {
            var i :| 0 <= i < |specs[1..]| && specs[1..][i].resourceType == LaunchTemplateResource && x in specs[1..][i].tags;
            assert specs[i + 1] == specs[1..][i];
          }
          if exists i | 1 <= i < |specs| :: specs[i].resourceType == LaunchTemplateResource && x in specs[i].tags {
            var i :| 1 <= i < |specs| && specs[i].resourceType == LaunchTemplateResource && x in specs[i].tags;
            assert specs[1..][i - 1] == specs[i];
          }
        }
      }
      (if specs[0].resourceType == LaunchTemplateResource then specs[0].tags else []) + rest
  }

  /** The launch-template tags of two lists of specifications in a row are
      those of the first followed by those of the second, each list's
      tags in the order given. */
  lemma {:induction false} LaunchTemplateTagListAppend(a: seq<TagSpec>, b: seq<TagSpec>)
    ensures LaunchTemplateTagList(a + b) == LaunchTemplateTagList(a) + LaunchTemplateTagList(b)
  {
    if a != [] {
      var head := if a[0].resourceType == LaunchTemplateResource then a[0].tags else [];
      assert (a + b)[0] == a[0] && (a + b)[1..] == a[1..] + b;
      assert LaunchTemplateTagList(a + b) == head + LaunchTemplateTagList(a[1..] + b);
      LaunchTemplateTagListAppend(a[1..], b);
      assert head + (LaunchTemplateTagList(a[1..]) + LaunchTemplateTagList(b))
          == (head + LaunchTemplateTagList(a[1..])) + LaunchTemplateTagList(b);
    } else {
      assert a + b == b;
    }
  }

  /** One specification contributes its tags, in order, exactly when it is
      aimed at the template itself. */
  lemma LaunchTemplateTagListOne(spec: TagSpec)
    ensures LaunchTemplateTagList([spec]) == if spec.resourceType == LaunchTemplateResource then spec.tags else []
  {
    assert [spec][1..] == [];
  }

  /** The tags a new template starts with: the launch-template tag
      specifications applied in order to an empty tag set. */
  function InitialTags(specs: seq<TagSpec>): (r: seq<Tag>)
    ensures KeysDistinct(r)
    ensures forall k :: Lookup(r, k) == LastValue(LaunchTemplateTagList(specs), k)
  {
    PutTags([], LaunchTemplateTagList(specs))
  }

  /** With distinct keys, the template's tags are exactly the requested
      launch-template tags, in the order given. */
  lemma InitialTagsExact(specs: seq<TagSpec>)
    requires KeysDistinct(LaunchTemplateTagList(specs))
    ensures InitialTags(specs) == LaunchTemplateTagList(specs)
  {
    assert [] + LaunchTemplateTagList(specs) == LaunchTemplateTagList(specs);
    PutTagsFresh([], LaunchTemplateTagList(specs));
  }
}
