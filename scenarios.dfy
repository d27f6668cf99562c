/** The client side of the launch-template tests: each method replays one
    test against a fresh store, and its assertions are the checks the test
    makes on the responses. Template names, launch data and the page size
    are parameters standing for the random names, the literal data and the
    server's page limit of the tests. The lemmas here state each test's
    check on the store's state, so that the replays need only the methods'
    contracts. */
module Scenarios {
  import opened LaunchTemplateTypes
  import opened VersionSelection
  import opened SelectorSyntax
  import opened TemplateFilters
  import opened Pagination
  import opened TemplateStore
  import Tags

  /** Launch data holding only an image id. */
  function ImageData(ami: string): LaunchData {
    LaunchData(None, JObject([("ImageId", JString(ami))]))
  }

  /** A create response has version 1 as default and latest; reusing the
      name of a live template is refused. */
  method CreateThenDuplicate(name: string) {
    var st := new Store();
    var data := LaunchData(Some([TagSpec("instance", [Tag("test", "value")])]), JObject([]));
    var r := st.Create(name, data, None, [], false);
    assert r.Ok? && r.value.name == name;
    assert r.value.defaultVersion == 1 && r.value.latestVersion == 1;
    var again := st.Create(name, data, None, [], false);
    assert again == Err(AlreadyExists);
  }

  /** A dry-run create answers DryRun and creates nothing. */
  method CreateDryRun(name: string, data: LaunchData) {
    var st := new Store();
    var tagSpecs := [TagSpec("instance", [Tag("key", "value")])];
    var r := st.Create(name, data, None, tagSpecs, true);
    assert r == Err(DryRun);
    assert st.templates == map[] && st.nameIndex == map[];
  }

  /** Version 1 reads back unchanged through "1", `$Latest` and
      `$Default`, addressed by name or by id. */
  method DescribeSingleVersion(name: string) {
    var st := new Store();
    var data := LaunchData(Some([TagSpec("instance", [Tag("test", "value")])]),
                           JObject([("ImageId", JString("ami-abc123")), ("DisableApiTermination", JBool(false))]));
    var r := st.Create(name, data, None, [], false);
    var id := r.value.id;
    var s := st.View();
    var v1 := Version(1, data, None);
    assert ParseSelector("1") == Ok(Num(1)) by { ParseShow(Num(1)); }
    DescribeFreshTemplate(s, id);
    assert DescribeVersions(s, None, Some(name), [Num(1)], None, None) == Ok([v1]);
    assert DescribeVersions(s, Some(id), None, [Num(1)], None, None) == Ok([v1]);
    assert DescribeVersions(s, None, Some(name), [Latest], None, None) == Ok([v1]);
    assert DescribeVersions(s, None, Some(name), [Default], None, None) == Ok([v1]);
  }

  /** Describing the versions of an absent name fails, naming it. */
  method DescribeVersionsAbsent() {
    var st := new Store();
    assert DescribeVersions(st.View(), None, Some("foo"), [], None, None) == Err(NotFoundByName("foo"));
  }

  /** A new version, addressed by name, is number 2 of the same template,
      keeps its description and is not the default. */
  method CreateVersionByName(name: string, data1: LaunchData, data2: LaunchData) {
    var st := new Store();
    var r := st.Create(name, data1, None, [], false);
    var id := r.value.id;
    var v := st.CreateVersion(None, Some(name), data2, Some("new ami"), false);
    assert v.Ok? && v.value.templateId == id && !v.value.isDefault;
    assert v.value.version.number == 2 && v.value.version.description == Some("new ami");
  }

  /** The same, addressed by id. */
  method CreateVersionById(name: string, data1: LaunchData, data2: LaunchData) {
    var st := new Store();
    var r := st.Create(name, data1, None, [], false);
    var id := r.value.id;
    var v := st.CreateVersion(Some(id), None, data2, Some("new ami"), false);
    assert v.Ok? && v.value.templateId == id && !v.value.isDefault;
    assert v.value.version.number == 2 && v.value.version.description == Some("new ami");
  }

  /** A dry-run create-version answers DryRun and adds no version. */
  method CreateVersionDryRun(name: string, data1: LaunchData, data2: LaunchData) {
    var st := new Store();
    var r := st.Create(name, data1, None, [], false);
    var id := r.value.id;
    var v := st.CreateVersion(None, Some(name), data2, Some("new ami"), true);
    assert v == Err(DryRun);
    assert st.templates[id].latestVersion == 1;
  }

  /** A template with two versions lists both, in ascending order. */
  lemma TwoVersionsListed(s: StoreView, k: nat)
    requires Inv(s) && k in s.templates && |s.templates[k].versions| == 2
    ensures var t := s.templates[k];
      DescribeVersions(s, None, Some(t.name), [], None, None) == Ok([t.versions[0], t.versions[1]])
  {
    var t := s.templates[k];
    DescribeVersionsByNameOrId(s, k, [], None, None);
    assert t.versions == [t.versions[0], t.versions[1]];
  }

  /** Without selectors, every version comes back in ascending order. */
  method DescribeAllVersions(name: string, data1: LaunchData, data2: LaunchData) {
    var st := new Store();
    var r := st.Create(name, data1, None, [], false);
    var id := r.value.id;
    var _ := st.CreateVersion(None, Some(name), data2, Some("new ami"), false);
    TwoVersionsListed(st.View(), id);
    var d := DescribeVersions(st.View(), None, Some(name), [], None, None);
    assert d.value[0].data == data1 && d.value[1].data == data2;
  }

  /** Describing templates by an unknown name fails as a whole. */
  method DescribeTemplatesAbsent(name: string, size: nat)
    requires size > 0
  {
    var st := new Store();
    var d := DescribeTemplates(st.View(), [], [name], [], 0, size);
    assert d == Err(NotFoundSome);
  }

  /** Following NextToken over all templates yields both, in creation
      order. */
  method RetrieveTwoTemplates(name1: string, name2: string, data: LaunchData, size: nat)
    requires name1 != name2 && size > 0
  {
    var st := new Store();
    var r1 := st.Create(name1, data, None, [], false);
    var r2 := st.Create(name2, data, None, [], false);
    var s := st.View();
    var all := RetrieveAll(s, [], size);
    ListingInOrder(s);
    NoFiltersKeepsAll(Listing(s));
    assert all[0].name == name1 && all[1].name == name2;
  }

  /** Two live names listed explicitly come back in the order given. */
  lemma PairByNames(s: StoreView, a: string, b: string, size: nat)
    requires Inv(s) && a in s.nameIndex && b in s.nameIndex && size >= 2
    ensures var d := DescribeTemplates(s, [], [a, b], [], 0, size);
      d.Ok? && |d.value.items| == 2 && d.value.items[0].name == a && d.value.items[1].name == b
  {
    DescribeByNamesInOrder(s, [a, b], size);
  }

  /** Two live ids listed explicitly come back in the order given. */
  lemma PairByIds(s: StoreView, a: nat, b: nat, size: nat)
    requires Inv(s) && a in s.templates && b in s.templates && size >= 2
    ensures var d := DescribeTemplates(s, [a, b], [], [], 0, size);
      d.Ok? && |d.value.items| == 2 && d.value.items[0] == s.templates[a] && d.value.items[1] == s.templates[b]
  {
    PickAllKnown(s.templates, [a, b]);
    NoFiltersKeepsAll(Pick(s.templates, [a, b]));
  }

  /** An explicit name list answers in the order of the list. */
  method DescribeTwoByNames(name1: string, name2: string, data: LaunchData, size: nat)
    requires name1 != name2 && size >= 2
  {
    var st := new Store();
    var r1 := st.Create(name1, data, None, [], false);
    var r2 := st.Create(name2, data, None, [], false);
    PairByNames(st.View(), name2, name1, size);
    var items := DescribeTemplates(st.View(), [], [name2, name1], [], 0, size).value.items;
    assert items[0].name == name2 && items[1].name == name1;
  }

  /** An explicit id list answers in the order of the list. */
  method DescribeTwoByIds(name1: string, name2: string, data: LaunchData, size: nat)
    requires name1 != name2 && size >= 2
  {
    var st := new Store();
    var r1 := st.Create(name1, data, None, [], false);
    var r2 := st.Create(name2, data, None, [], false);
    var id1, id2 := r1.value.id, r2.value.id;
    PairByIds(st.View(), id1, id2, size);
    var items := DescribeTemplates(st.View(), [id1, id2], [], [], 0, size).value.items;
    assert items[0].name == name1 && items[1].name == name2;
  }

  /** A store holding the one template `k` lists it under its name. */
  lemma OneByName(s: StoreView, k: nat, size: nat)
    requires Inv(s) && k in s.templates && size >= 1
    ensures var d := DescribeTemplates(s, [], [s.templates[k].name], [], 0, size);
      d.Ok? && d.value.items == [s.templates[k]]
  {
    DescribeByNamesInOrder(s, [s.templates[k].name], size);
  }

  /** Describing a name no template has fails as a whole. */
  lemma UnknownName(s: StoreView, name: string, size: nat)
    requires Inv(s) && name !in s.nameIndex && size >= 1
    ensures DescribeTemplates(s, [], [name], [], 0, size) == Err(NotFoundSome)
  {
  }

  /** Deleting by name frees the name: describing it fails afterwards and
      a template of that name can be created again. */
  method DeleteByName(name: string, data: LaunchData, size: nat)
    requires size > 0
  {
    var st := new Store();
    var r := st.Create(name, data, None, [], false);
    OneByName(st.View(), r.value.id, size);
    assert |DescribeTemplates(st.View(), [], [name], [], 0, size).value.items| == 1;
    var d := st.Delete(None, Some(name), false);
    assert d == Ok(r.value) && name !in st.nameIndex;
    UnknownName(st.View(), name, size);
    var again := st.Create(name, data, None, [], false);
    assert again.Ok?;
  }

  /** A delete with neither id nor name is missing a parameter. */
  method DeleteMissingParameter() {
    var st := new Store();
    var missing := st.Delete(None, None, false);
    assert missing == Err(MissingParameter);
  }

  /** Deleting by id frees the name as deleting by name does. */
  method DeleteById(name: string, data: LaunchData, size: nat)
    requires size > 0
  {
    var st := new Store();
    var r := st.Create(name, data, None, [], false);
    OneByName(st.View(), r.value.id, size);
    assert |DescribeTemplates(st.View(), [], [name], [], 0, size).value.items| == 1;
    var d := st.Delete(Some(r.value.id), None, false);
    assert d == Ok(r.value) && name !in st.nameIndex;
    UnknownName(st.View(), name, size);
    var again := st.Create(name, data, None, [], false);
    assert again.Ok?;
  }

  /** A dry-run delete answers DryRun and the template is still listed. */
  method DeleteDryRun(name: string, data: LaunchData, size: nat)
    requires size > 0
  {
    var st := new Store();
    var tagSpecs := [TagSpec("instance", [Tag("key", "value")])];
    var r := st.Create(name, data, None, tagSpecs, false);
    var id := r.value.id;
    OneByName(st.View(), id, size);
    assert |DescribeTemplates(st.View(), [], [name], [], 0, size).value.items| == 1;
    var d := st.Delete(None, Some(name), true);
    assert d == Err(DryRun);
    OneByName(st.View(), id, size);
    assert |DescribeTemplates(st.View(), [], [name], [], 0, size).value.items| == 1;
  }

  /** The selector strings "2" and "3" read as version numbers 2 and 3. */
  lemma ParseTwoThree()
    ensures ParseSelectors(["2", "3"]) == Ok([Num(2), Num(3)])
  {
    assert "2"[..0] == [] && "3"[..0] == [];
    assert ParseSelector("2") == Ok(Num(2));
    assert ParseSelector("3") == Ok(Num(3));
    assert ["3"][1..] == [];
    assert ParseSelectors([]) == Ok([]);
    assert ParseSelectors(["3"]) == Ok([Num(3)] + []);
    assert [Num(3)] + [] == [Num(3)];
    assert ["2", "3"][1..] == ["3"];
    assert [Num(2)] + [Num(3)] == [Num(2), Num(3)];
  }

  /** Over three versions, `Versions=["2", "3"]` gives versions 2 and 3. */
  lemma ListedTwoThree(t: Template)
    requires TemplateOk(t) && |t.versions| == 3
    ensures SelectVersions(t, [Num(2), Num(3)], None, None) == [t.versions[1], t.versions[2]]
  {
    SelectListedInOrder(t, [Num(2), Num(3)]);
  }

  /** Over three versions, MinVersion 2 gives versions 2 and 3. */
  lemma MinTwoOfThree(t: Template)
    requires TemplateOk(t) && |t.versions| == 3
    ensures SelectVersions(t, [], Some(2), None) == [t.versions[1], t.versions[2]]
  {
    RangeIsSlice(t, Some(2), None);
  }

  /** Over three versions, MaxVersion 2 gives versions 1 and 2. */
  lemma MaxTwoOfThree(t: Template)
    requires TemplateOk(t) && |t.versions| == 3
    ensures SelectVersions(t, [], None, Some(2)) == [t.versions[0], t.versions[1]]
  {
    RangeIsSlice(t, None, Some(2));
  }

  /** Over four versions, MinVersion 2 and MaxVersion 3 give versions 2
      and 3. */
  lemma MinTwoMaxThreeOfFour(t: Template)
    requires TemplateOk(t) && |t.versions| == 4
    ensures SelectVersions(t, [], Some(2), Some(3)) == [t.versions[1], t.versions[2]]
  {
    RangeIsSlice(t, Some(2), Some(3));
  }

  /** The three describe requests of the three-version tests, answered
      from the store. */
  lemma ThreeVersionsQueries(s: StoreView, k: nat)
    requires Inv(s) && k in s.templates && |s.templates[k].versions| == 3
    ensures var t := s.templates[k];
      && DescribeVersions(s, None, Some(t.name), [], Some(2), None) == Ok([t.versions[1], t.versions[2]])
      && DescribeVersions(s, None, Some(t.name), [], None, Some(2)) == Ok([t.versions[0], t.versions[1]])
      && DescribeVersions(s, None, Some(t.name), [Num(2), Num(3)], None, None) == Ok([t.versions[1], t.versions[2]])
  {
    var t := s.templates[k];
    DescribeVersionsByNameOrId(s, k, [], Some(2), None);
    MinTwoOfThree(t);
    DescribeVersionsByNameOrId(s, k, [], None, Some(2));
    MaxTwoOfThree(t);
    DescribeVersionsByNameOrId(s, k, [Num(2), Num(3)], None, None);
    ListedTwoThree(t);
  }

  /** The three describe requests of the three-version tests read back
      the data of the versions they name. */
  lemma ThreeVersionsData(s: StoreView, k: nat, d1: LaunchData, d2: LaunchData, d3: LaunchData)
    requires Inv(s) && k in s.templates && |s.templates[k].versions| == 3
    requires s.templates[k].versions[0].data == d1
    requires s.templates[k].versions[1].data == d2
    requires s.templates[k].versions[2].data == d3
    ensures var byMin := DescribeVersions(s, None, Some(s.templates[k].name), [], Some(2), None);
      byMin.Ok? && |byMin.value| == 2 && byMin.value[0].data == d2 && byMin.value[1].data == d3
    ensures var byMax := DescribeVersions(s, None, Some(s.templates[k].name), [], None, Some(2));
      byMax.Ok? && |byMax.value| == 2 && byMax.value[0].data == d1 && byMax.value[1].data == d2
    ensures var listed := DescribeVersions(s, None, Some(s.templates[k].name), [Num(2), Num(3)], None, None);
      listed.Ok? && |listed.value| == 2 && listed.value[0].data == d2 && listed.value[1].data == d3
  {
    ThreeVersionsQueries(s, k);
  }

  /** A template just created through the store, with one version. */
  method OneVersionTemplate(name: string, data1: LaunchData) returns (st: Store, id: nat)
    ensures fresh(st) && st.Valid() && id in st.templates
    ensures st.templates[id].name == name && st.templates[id].latestVersion == 1
    ensures st.templates[id].versions == [Version(1, data1, None)]
  {
    st := new Store();
    var r := st.Create(name, data1, None, [], false);
    id := r.value.id;
  }

  /** A template with two versions, both created through the store, as
      the multi-version tests set it up. */
  method TwoVersionTemplate(name: string, data1: LaunchData, data2: LaunchData) returns (st: Store, id: nat)
    ensures fresh(st) && st.Valid() && id in st.templates
    ensures st.templates[id].name == name && |st.templates[id].versions| == 2
    ensures st.templates[id].versions[0] == Version(1, data1, None)
    ensures st.templates[id].versions[1] == Version(2, data2, Some("new ami"))
  {
    st, id := OneVersionTemplate(name, data1);
    ghost var t := st.templates[id];
    assert ResolveKey(st.View(), Some(id), None) == Ok(id);
    var _ := st.CreateVersion(Some(id), None, data2, Some("new ami"), false);
    ghost var vs := t.versions + [Version(2, data2, Some("new ami"))];
    assert st.templates[id].versions == vs;
  }

  /** Three versions created one after another, then read back through
      MinVersion, MaxVersion and an explicit list: each answer carries the
      data of the versions it names. */
  method DescribeThreeVersions(name: string, data1: LaunchData, data2: LaunchData, data3: LaunchData) {
    var st, id := TwoVersionTemplate(name, data1, data2);
    var _ := st.CreateVersion(Some(id), None, data3, Some("new ami, again"), false);
    ParseTwoThree();
    ThreeVersionsData(st.View(), id, data1, data2, data3);
    var byMin := DescribeVersions(st.View(), None, Some(name), [], Some(2), None);
    assert |byMin.value| == 2 && byMin.value[0].data == data2 && byMin.value[1].data == data3;
    var byMax := DescribeVersions(st.View(), None, Some(name), [], None, Some(2));
    assert |byMax.value| == 2 && byMax.value[0].data == data1 && byMax.value[1].data == data2;
    var listed := DescribeVersions(st.View(), None, Some(name), [Num(2), Num(3)], None, None);
    assert |listed.value| == 2 && listed.value[0].data == data2 && listed.value[1].data == data3;
  }

  /** A store of two templates, `a` created before `b`. */
  predicate TwoInOrder(s: StoreView, a: nat, b: nat) {
    |s.order| == 2 && s.order[0] == a && s.order[1] == b
  }

  /** The listing of a two-template store. */
  lemma ListingOfTwo(s: StoreView, a: nat, b: nat)
    requires Inv(s) && TwoInOrder(s, a, b)
    ensures Listing(s) == [s.templates[a], s.templates[b]]
    ensures Listing(s)[1..] == [s.templates[b]] && Listing(s)[1..][1..] == []
  {
    ListingInOrder(s);
  }

  /** Over two templates, a tag filter keeps the one carrying the tag
      with that value and drops the one without the tag. */
  lemma TagFilterOfTwo(s: StoreView, a: nat, b: nat, key: string, value: string, size: nat)
    requires Inv(s) && TwoInOrder(s, a, b) && size >= 1
    requires Tags.Lookup(s.templates[a].tags, key) == Some(value)
    requires Tags.Lookup(s.templates[b].tags, key).None?
    ensures DescribeTemplates(s, [], [], [ByTag(key, [value])], 0, size) == Ok(Page([s.templates[a]], None))
  {
    var fs := [ByTag(key, [value])];
    ListingOfTwo(s, a, b);
    assert MatchesAll(s.templates[a], fs);
    assert !Matches(s.templates[b], fs[0]);
    assert FilterTemplates(Listing(s), fs) == [s.templates[a]];
    DescribeAllIsPage(s, fs, 0, size);
    assert GetPage([s.templates[a]], 0, size).items == [s.templates[a]][0..1] == [s.templates[a]];
  }

  /** Over two templates, a name filter keeps the one with that name. */
  lemma NameFilterOfTwo(s: StoreView, a: nat, b: nat, size: nat)
    requires Inv(s) && TwoInOrder(s, a, b) && size >= 1
    ensures DescribeTemplates(s, [], [], [ByName([s.templates[b].name])], 0, size) == Ok(Page([s.templates[b]], None))
  {
    var fs := [ByName([s.templates[b].name])];
    ListingOfTwo(s, a, b);
    assert s.order[0] < s.order[1];
    if s.templates[a].name == s.templates[b].name {
      NamesUnique(s, a, b);
    }
    assert !Matches(s.templates[a], fs[0]);
    assert MatchesAll(s.templates[b], fs);
    assert FilterTemplates(Listing(s), fs) == [s.templates[b]];
    DescribeAllIsPage(s, fs, 0, size);
    assert GetPage([s.templates[b]], 0, size).items == [s.templates[b]][0..1] == [s.templates[b]];
  }

  /** The two filter names the filter test sends. */
  lemma FilterNamesParse(tagValue: string, name: string)
    ensures ParseFilter("tag:tag1", [tagValue]) == Some(ByTag("tag1", [tagValue]))
    ensures ParseFilter("launch-template-name", [name]) == Some(ByName([name]))
  {
    assert "tag:tag1" == TagPrefix + "tag1";
  }

  /** A template created without tags and then tagged `tag1` and
      `another-key` carries `tag1`. */
  lemma TaggedLookup(tagValue: string)
    ensures Tags.Lookup(Tags.PutTags(Tags.InitialTags([]), [Tag("tag1", tagValue), Tag("another-key", "this value")]), "tag1") == Some(tagValue)
  {
    var news := [Tag("tag1", tagValue), Tag("another-key", "this value")];
    assert "another-key"[0] != "tag1"[0];
    assert news[..1] == [Tag("tag1", tagValue)];
    assert Tags.LastValue(news, "tag1") == Some(tagValue);
    var r := Tags.PutTags(Tags.InitialTags([]), news);
    assert Tags.Lookup(r, "tag1") == Tags.LastValue(news, "tag1");
  }

  /** A template created without tags carries no tag. */
  lemma UntaggedLookup(key: string)
    ensures Tags.Lookup(Tags.InitialTags([]), key).None?
  {
    assert Tags.LaunchTemplateTagList([]) == [];
  }

  /** The first step of the filter test: a template created without
      tags and then tagged `tag1` and `another-key` carries `tag1`. */
  method TaggedTemplate(name: string, data: LaunchData, tagValue: string) returns (st: Store, id: nat)
    ensures fresh(st) && st.Valid()
    ensures st.order == [id] && st.nameIndex == map[name := id] && id in st.templates
    ensures Tags.Lookup(st.templates[id].tags, "tag1") == Some(tagValue)
  {
    st := new Store();
    var r := st.Create(name, data, None, [], false);
    id := r.value.id;
    st.CreateTags(id, [Tag("tag1", tagValue), Tag("another-key", "this value")]);
    TaggedLookup(tagValue);
  }

  /** Top-level tag specifications given to create are kept inside the
      stored data of version 1. */
  lemma TagSpecKept(data: LaunchData, spec: TagSpec)
    requires data.tagSpecifications.None?
    ensures StoredData(data, [spec]).tagSpecifications == Some([spec])
  {
    assert [] + [spec] == [spec];
  }

  method CreateWithTagSpec(name: string) {
    var st := new Store();
    var spec := TagSpec("instance", [Tag("key", "value")]);
    var data := ImageData("ami-abc123");
    var r := st.Create(name, data, None, [spec], false);
    TagSpecKept(data, spec);
    DescribeFreshTemplate(st.View(), r.value.id);
    assert r.value.versions[0].data.tagSpecifications == Some([spec]);
  }

  /** A single launch-template tag becomes the template's only tag. */
  lemma SingleTemplateTag(x: Tag)
    ensures Tags.InitialTags([TagSpec(LaunchTemplateResource, [x])]) == [x]
  {
    var specs := [TagSpec(LaunchTemplateResource, [x])];
    assert specs[1..] == [];
    assert Tags.LaunchTemplateTagList(specs) == [x];
    Tags.InitialTagsExact(specs);
  }

  /** Tags given for the launch-template resource are returned by create
      and by describe. */
  method CreateWithTags(name: string, data: LaunchData, size: nat)
    requires size >= 1
  {
    var st := new Store();
    var x := Tag("test1", "value1");
    var r := st.Create(name, data, None, [TagSpec("launch-template", [x])], false);
    SingleTemplateTag(x);
    assert r.value.name == name && r.value.defaultVersion == 1 && r.value.latestVersion == 1;
    assert r.value.tags == [x];
    OneByName(st.View(), r.value.id, size);
    var d := DescribeTemplates(st.View(), [], [name], [], 0, size);
    assert |d.value.items| == 1 && d.value.items[0].name == name;
    assert d.value.items[0].defaultVersion == 1 && d.value.items[0].latestVersion == 1;
    assert d.value.items[0].tags == [x];
  }
}
