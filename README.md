# A verified reference model of the EC2 launch-template store

This project models the store behind the EC2 launch-template API of a
simulated cloud: CreateLaunchTemplate, CreateLaunchTemplateVersion,
DescribeLaunchTemplateVersions, DescribeLaunchTemplates,
DeleteLaunchTemplate and CreateTags on a template. It also models the
client-side NextToken loop that collects every template. The
implementation these operations run on is not part of this model. The
behaviour modelled is the behaviour that
`tests/test_ec2/test_launch_templates.py` asserts, and the contracts are
proved against that.

The model has these parts:

- `types.dfy` (`LaunchTemplateTypes`): the entities.
  - Opaque launch data. Only its TagSpecifications key is visible.
  - Tags and tag specifications.
  - Versions and template records.
  - The record invariant `TemplateOk`: versions are numbered exactly
    1..latest, the default version exists, and tag keys are unique.
  - The error kinds of the API, and a `Result` type.
- `tags.dfy` (`Tags`): a template's tags, used as an insertion-ordered
  dictionary. Setting an existing key replaces its value, and the last
  tag given for a key wins.
- `selection.dfy` (`VersionSelection`): which versions a describe
  returns.
  - With an explicit selector list (`Num(n)`, `$Latest`, `$Default`), the
    versions come back in the order requested.
  - Without a list, every version comes back in ascending order, cut to
    the inclusive MinVersion / MaxVersion range.
- `selectors.dfy` (`SelectorSyntax`): the text of selectors, such as
  `"2"`, `"$Latest"` and `"$Default"`, with a parse/show round trip.
- `filters.dfy` (`TemplateFilters`): the two supported filters,
  `launch-template-name` and `tag:<key>`. Filters are ANDed together, and
  the values within one filter are ORed.
- `pagination.dfy` (`Pagination`): one page of a listing and its next
  token. Following tokens collects the whole listing in order, for every
  positive page size.
- `store.dfy` (`TemplateStore`): the store.
  - The state: live templates by id, an index from name to id, the
    creation order and a fresh-id counter.
  - The store invariant `Inv`.
  - The read operations, as functions of the state.
  - The class `Store`, whose methods create, version, tag and delete.
    Each of these methods states the whole new state.
  - `RetrieveAll`, the NextToken loop of the test helper.
- `scenarios.dfy` (`Scenarios`): the test functions replayed as verified
  client code against `Store`, with small lemmas for the facts each test
  asserts.

Design choices, where the tests leave the behaviour open:

- A request that carries both a name and an id is resolved by name. A
  request with neither fails with `MissingParameter`.
- DescribeLaunchTemplates builds its candidate set in this order:
  - explicit ids, where unknown ids are skipped;
  - otherwise explicit names, where any unknown name fails the whole
    call with `NotFoundSome`;
  - otherwise every live template, in creation order.
  Filters and pagination then apply to that set.
- Validation comes before the dry-run check. A dry run on a request
  that would fail reports that failure; a dry run on a valid request
  reports `DryRun` and changes nothing.
- TagSpecifications given beside the template data are appended to the
  TagSpecifications inside the data of version 1. This matches lines
  485-502, where an `instance` tag specification given at top level is
  read back inside the version data. Those aimed at the `launch-template`
  resource type also become the template's own tags.
- `AlreadyExists` carries no name, because the message asserted at line
  51 names none.
- Template ids are naturals taken from a counter. A ghost set of issued
  ids proves that an id is never reused.

## Model

| member | source | states |
|---|---|---|
| Tags.Lookup | tests/test_ec2/test_launch_templates.py:466-471 | a key has no value exactly when no tag has that key; a value found is a tag of the list; with distinct keys, `v` is found for `k` exactly when `Tag(k, v)` is in the list |
| Tags.LastValue | tests/test_ec2/test_launch_templates.py:452-458 | a key of a tag list to apply gets no value exactly when no tag has it; a value found is that of a tag with the key after which no tag has the key, so the last one given wins |
| Tags.PutTag | tests/test_ec2/test_launch_templates.py:452-458 | setting one tag gives its key the new value and leaves the value of every other key as it was; keys stay distinct; a new key is appended at the end |
| Tags.PutTags | tests/test_ec2/test_launch_templates.py:452-458 | after applying a tag list, each key has the value of the last tag given for it, or its old value when none was given; keys stay distinct |
| Tags.PutTagsFresh | tests/test_ec2/test_launch_templates.py:452-458 | tags with fresh, distinct keys are appended in the order given |
| Tags.LaunchTemplateTagList | tests/test_ec2/test_launch_templates.py:657-663 | a tag is collected exactly when a tag specification of resource type `launch-template` carries it; LaunchTemplateTagListAppend and LaunchTemplateTagListOne fix the order |
| Tags.LaunchTemplateTagListAppend | tests/test_ec2/test_launch_templates.py:657-672 | the launch-template tags of two specification lists in a row are those of the first followed by those of the second |
| Tags.LaunchTemplateTagListOne | tests/test_ec2/test_launch_templates.py:657-672 | one specification contributes exactly its tags, in order, when it is aimed at `launch-template`, and nothing otherwise |
| Tags.InitialTags | tests/test_ec2/test_launch_templates.py:657-663 | a new template's tags have distinct keys, and each key has the last value the launch-template specifications give it |
| Tags.InitialTagsExact | tests/test_ec2/test_launch_templates.py:666-672 | with distinct keys, a new template's tags are exactly the requested launch-template tags, in order |
| VersionSelection.VersionNumbered | tests/test_ec2/test_launch_templates.py:96-101 | a template has a version numbered `n` exactly when the lookup finds one, and the one found has that number |
| VersionSelection.SelectListed | tests/test_ec2/test_launch_templates.py:264-274 | an explicit selector list returns at most one version per selector; SelectListedAppend and SelectListedOne fix the result, order included |
| VersionSelection.SelectListedAppend | tests/test_ec2/test_launch_templates.py:264-274 | the versions listed for two selector lists in a row are those of the first followed by those of the second, so a selector that names no version drops out and the rest keep the order requested |
| VersionSelection.SelectListedOne | tests/test_ec2/test_launch_templates.py:96-126 | one selector returns exactly its version when it names one in 1..latest, and nothing otherwise |
| VersionSelection.SpecialSelectorsResolve | tests/test_ec2/test_launch_templates.py:112-126 | `$Latest` names the last version and `$Default` the default version, both of which exist; a number names a version exactly when it lies in 1..latest |
| VersionSelection.SelectListedMembers | tests/test_ec2/test_launch_templates.py:264-274 | a version is returned for a selector list exactly when it is a version of the template and some selector resolves to its number |
| VersionSelection.SelectListedInOrder | tests/test_ec2/test_launch_templates.py:264-274 | when every selector names an existing version, one version per selector comes back, position by position in the order requested |
| VersionSelection.SelectRange | tests/test_ec2/test_launch_templates.py:298-308 | the range filter never returns more versions than it is given |
| VersionSelection.SelectRangeMembers | tests/test_ec2/test_launch_templates.py:298-308 | a version survives MinVersion / MaxVersion exactly when it is one of the template's versions and its number lies in the inclusive range |
| VersionSelection.RangeFilterIsSlice | tests/test_ec2/test_launch_templates.py:332-342 | when the versions in the range are exactly those at positions i..j-1, the range filter returns exactly that slice |
| VersionSelection.RangeIsSlice | tests/test_ec2/test_launch_templates.py:372-382 | over a well-formed template, MinVersion / MaxVersion return one contiguous slice of the versions: exactly those whose numbers lie in the inclusive range, in ascending order |
| VersionSelection.SelectVersions | tests/test_ec2/test_launch_templates.py:232-240 | every version returned belongs to the template; without a list they are in range and in ascending order; without a list or bounds they are all the versions |
| SelectorSyntax.NumeralRoundTrip | tests/test_ec2/test_launch_templates.py:264-266 | the decimal text of a number reads back as that number |
| SelectorSyntax.ParseSelector | tests/test_ec2/test_launch_templates.py:96-126 | a selector text is accepted exactly when it is `$Latest`, `$Default` or a decimal numeral; `$Latest` and `$Default` read as those selectors and a numeral reads as `Num` of its value; anything else is an invalid selector naming that text |
| SelectorSyntax.ParseShow | tests/test_ec2/test_launch_templates.py:96-126 | every selector reads back from its own text |
| SelectorSyntax.ParseSelectors | tests/test_ec2/test_launch_templates.py:264-266 | a selector list parses entry by entry, keeping its length and order; a failure is the failure of the first invalid entry, every entry before it being valid |
| TemplateFilters.ParseFilter | tests/test_ec2/test_launch_templates.py:466-477 | `launch-template-name` reads as a name filter and `tag:<k>` as a tag filter on `k`, each in both directions; any other filter name is unsupported; the values are kept |
| TemplateFilters.MatchesAllAppend | tests/test_ec2/test_launch_templates.py:464-477 | filters are ANDed: a template passes two filter lists together exactly when it passes each; it passes the empty list, and a one-filter list exactly when it matches that filter |
| TemplateFilters.FilterValuesOred | tests/test_ec2/test_launch_templates.py:464-477 | the values of one filter are ORed: a name or tag filter with values `vs + ws` matches exactly when the filter with `vs` or the one with `ws` does |
| TemplateFilters.TagFilterExact | tests/test_ec2/test_launch_templates.py:466-471 | a `tag:<k>` filter matches a template exactly when it carries tag `k` with one of the values; a template without `k` never matches |
| TemplateFilters.FilterTemplates | tests/test_ec2/test_launch_templates.py:466-477 | filtering never returns more templates than it is given |
| TemplateFilters.FilterMembers | tests/test_ec2/test_launch_templates.py:466-477 | a template is returned exactly when it is in the list and matches every filter |
| TemplateFilters.NoFiltersKeepsAll | tests/test_ec2/test_launch_templates.py:631-633 | with no filters, the list comes back unchanged |
| TemplateFilters.FilterAppend | tests/test_ec2/test_launch_templates.py:425-439 | filtering a list in two parts gives the kept templates of the first part followed by those of the second, so a filtered list keeps the order it was given in |
| TemplateFilters.FilterKeepsOrder | tests/test_ec2/test_launch_templates.py:417-423 | filtering a listing in ascending id order keeps ascending id order |
| Pagination.GetPage | tests/test_ec2/test_launch_templates.py:631-639 | a page holds at most `size` items, namely the slice starting at the token; a next token is returned exactly when items remain, and it lies strictly after the token |
| Pagination.FollowTokens | tests/test_ec2/test_launch_templates.py:631-639 | following next tokens from a position collects as many items as the listing has from that position on |
| Pagination.FollowTokensStep | tests/test_ec2/test_launch_templates.py:635-638 | following tokens from a position collects the page there, then what its next token leads to, if it has one |
| Pagination.FollowTokensCollectsRest | tests/test_ec2/test_launch_templates.py:631-639 | following next tokens from any position collects the rest of the listing, in order, each item once |
| Pagination.FollowTokensCollectsAll | tests/test_ec2/test_launch_templates.py:631-639 | following next tokens from the start collects the whole listing, for every positive page size |
| TemplateStore.NamesUnique | tests/test_ec2/test_launch_templates.py:37-52 | under the store invariant, two live templates with the same name are the same template |
| TemplateStore.Pick | tests/test_ec2/test_launch_templates.py:433-439 | templates picked by id are at most one per id, and each is the template filed under one of the ids; PickAppend and PickOne fix the result, order included |
| TemplateStore.PickAppend | tests/test_ec2/test_launch_templates.py:433-439 | the templates picked for two id lists in a row are those of the first followed by those of the second, so an unknown id drops out and the rest keep the order requested |
| TemplateStore.PickOne | tests/test_ec2/test_launch_templates.py:433-439 | one id picks exactly its template when it is live, and nothing otherwise |
| TemplateStore.PickAllKnown | tests/test_ec2/test_launch_templates.py:433-439 | when every id is live, there is one template per id, in the order of the ids |
| TemplateStore.Listing | tests/test_ec2/test_launch_templates.py:417-423 | the full listing has one template per entry of the creation order |
| TemplateStore.ListingInOrder | tests/test_ec2/test_launch_templates.py:417-423 | the listing's i-th template is the i-th created live template, so ids are ascending |
| TemplateStore.ListingExact | tests/test_ec2/test_launch_templates.py:417-423 | a template is in the listing exactly when it is a live record |
| TemplateStore.IdsOfNames | tests/test_ec2/test_launch_templates.py:425-431 | the name index maps a list of live names to their ids, position by position |
| TemplateStore.ResolveKey | tests/test_ec2/test_launch_templates.py:596-603 | a request resolves by name when it has one, failing exactly when the name is unknown, with NotFoundByName; otherwise it resolves by id, failing exactly when the id is unknown; with neither it fails with MissingParameter |
| TemplateStore.DescribeVersions | tests/test_ec2/test_launch_templates.py:129-141 | an unknown name fails with NotFoundByName naming it; an unknown id, given without a name, fails with NotFoundById naming it; no key fails with MissingParameter; every version returned belongs to one live template |
| TemplateStore.DescribeVersionsByNameOrId | tests/test_ec2/test_launch_templates.py:96-111 | a live template gives the same answer by name and by id, namely its version selection |
| TemplateStore.DescribeOneVersion | tests/test_ec2/test_launch_templates.py:96-126 | one selector naming an existing version returns exactly that version, by name and by id |
| TemplateStore.DescribeFreshTemplate | tests/test_ec2/test_launch_templates.py:96-126 | a template with one version answers `"1"`, `$Latest` and `$Default` with that version, by name and by id |
| TemplateStore.DescribeListedVersions | tests/test_ec2/test_launch_templates.py:264-274 | a selector list of existing versions returns one version per selector, in the order requested |
| TemplateStore.DescribeVersionRange | tests/test_ec2/test_launch_templates.py:298-308 | MinVersion / MaxVersion without a list return the slice of versions in the inclusive range |
| TemplateStore.Candidates | tests/test_ec2/test_launch_templates.py:385-396 | the candidate set fails exactly when names are given without ids and one is unknown, with NotFoundSome; every candidate is a live record |
| TemplateStore.DescribeTemplates | tests/test_ec2/test_launch_templates.py:385-396 | with names and no ids, the call fails exactly when some name is unknown, with NotFoundSome; a page holds at most `size` live templates, each matching every filter |
| TemplateStore.DescribeByNamesInOrder | tests/test_ec2/test_launch_templates.py:425-431 | explicit live names come back one per name, in the order requested |
| TemplateStore.DescribeByIdsInOrder | tests/test_ec2/test_launch_templates.py:433-439 | explicit live ids come back one per id, in the order requested |
| TemplateStore.ListingFilterExact | tests/test_ec2/test_launch_templates.py:466-477 | filtering the listing gives exactly the live templates that match every filter |
| TemplateStore.DescribeAllIsPage | tests/test_ec2/test_launch_templates.py:632-636 | without ids or names, a describe returns the page at the token of the filtered listing |
| TemplateStore.RetrieveStep | tests/test_ec2/test_launch_templates.py:635-638 | each request of the loop succeeds with the page at the token of the filtered listing, whose next token lies inside the listing, so following tokens collects that page and then what its next token leads to |
| TemplateStore.RetrieveAll | tests/test_ec2/test_launch_templates.py:631-639 | the NextToken loop ends with exactly the filtered listing, in ascending id order, that is, in creation order |
| TemplateStore.RemoveId | tests/test_ec2/test_launch_templates.py:571-580 | removing an id from the order keeps every other id and keeps the order ascending |
| TemplateStore.AddKeepsStoreOk | tests/test_ec2/test_launch_templates.py:17-35 | filing a well-formed new record under the next fresh id and a free name keeps the store invariant and the freshness of ids |
| TemplateStore.ReplaceKeepsStoreOk | tests/test_ec2/test_launch_templates.py:152-166 | replacing a record by one with the same id and name keeps the invariant |
| TemplateStore.RemoveKeepsStoreOk | tests/test_ec2/test_launch_templates.py:571-587 | removing a record with its name and its place in the order keeps the invariant; its id stays issued, so it is never reused |
| TemplateStore.ReplaceKeepsInv | tests/test_ec2/test_launch_templates.py:152-166 | replacing a live record by a well-formed one with the same id and name keeps the name index and the order consistent |
| TemplateStore.RemoveKeepsInv | tests/test_ec2/test_launch_templates.py:571-587 | removing a live record, its name and its place in the order keeps the name index and the order consistent |
| TemplateStore.RemoveKeepsNameIndex | tests/test_ec2/test_launch_templates.py:571-587 | after a removal, the name index still maps each remaining name to its template and nothing else |
| TemplateStore.RemoveKeepsOrder | tests/test_ec2/test_launch_templates.py:571-587 | after a removal, the order still lists exactly the remaining ids, ascending |
| TemplateStore.AppendKeepsTemplateOk | tests/test_ec2/test_launch_templates.py:152-166 | appending version latest + 1 keeps a record well formed |
| TemplateStore.StoredData | tests/test_ec2/test_launch_templates.py:485-502 | the TagSpecifications stored as version 1 are those inside the data followed by those given beside the template; the rest of the data is kept; the key is absent only when neither gives any; with none given beside, the data is unchanged |
| TemplateStore.NewTemplate | tests/test_ec2/test_launch_templates.py:31-35 | a new record is well formed, with one version numbered 1, which is both the default and the latest version |
| TemplateStore.Store.constructor | tests/test_ec2/test_launch_templates.py:385-396 | a new store is valid and empty: no templates, no names, an empty order and no issued ids |
| TemplateStore.Store.Create | tests/test_ec2/test_launch_templates.py:17-52 | a live name fails with AlreadyExists and a dry run fails with DryRun, both leaving the store unchanged; otherwise a record with a never-issued id is added, with version 1 holding the data, default = latest = 1 and the launch-template tags, and that name now maps to it |
| TemplateStore.Store.CreateVersion | tests/test_ec2/test_launch_templates.py:144-214 | an unresolved key fails with its error and a dry run fails with DryRun, both changing nothing; otherwise version latest + 1 is appended with the data and description, and is returned with the parent's id and DefaultVersion false; the default is unchanged |
| TemplateStore.Store.Delete | tests/test_ec2/test_launch_templates.py:590-628 | an unresolved key fails with its error (MissingParameter with neither key) and a dry run fails with DryRun, both changing nothing; otherwise the record, its name and its place in the order are removed |
| TemplateStore.Store.Replace | tests/test_ec2/test_launch_templates.py:152-166 | replaces one live record by one with the same id and name, keeping the invariant; nothing else changes |
| TemplateStore.Store.Remove | tests/test_ec2/test_launch_templates.py:571-587 | removes exactly one live record, its name and its place in the order, and keeps the invariant |
| TemplateStore.Store.CreateTags | tests/test_ec2/test_launch_templates.py:452-458 | tagging a live template applies the tags to it alone; tagging an unknown id changes nothing |
| Scenarios.TwoVersionsListed | tests/test_ec2/test_launch_templates.py:232-240 | a template with two versions lists both, version 1 first |
| Scenarios.PairByNames | tests/test_ec2/test_launch_templates.py:425-431 | names requested as (second, first) come back in that order |
| Scenarios.PairByIds | tests/test_ec2/test_launch_templates.py:433-439 | ids requested in creation order come back as those two templates, in that order |
| Scenarios.OneByName | tests/test_ec2/test_launch_templates.py:540-542 | a live template is listed under its name, alone |
| Scenarios.OneVersionTemplate | tests/test_ec2/test_launch_templates.py:221-224 | creating a template through a new store leaves a fresh, valid store in which the template has that name and one version, numbered 1, holding the data given |
| Scenarios.TwoVersionTemplate | tests/test_ec2/test_launch_templates.py:217-231 | creating a template and then a second version through the store leaves a fresh, valid store in which the template has that name and two versions: version 1 with the first data and version 2 with the second data and the description `new ami` |
| Scenarios.UnknownName | tests/test_ec2/test_launch_templates.py:573-581 | once a name is no longer live, describing templates by that name fails with NotFoundSome |
| Scenarios.ParseTwoThree | tests/test_ec2/test_launch_templates.py:264-266 | the strings `"2"` and `"3"` parse as version numbers 2 and 3 |
| Scenarios.ListedTwoThree | tests/test_ec2/test_launch_templates.py:264-274 | over three versions, the list [2, 3] returns versions 2 and 3 |
| Scenarios.MinTwoOfThree | tests/test_ec2/test_launch_templates.py:298-308 | over three versions, MinVersion 2 returns versions 2 and 3 |
| Scenarios.MaxTwoOfThree | tests/test_ec2/test_launch_templates.py:332-342 | over three versions, MaxVersion 2 returns versions 1 and 2 |
| Scenarios.MinTwoMaxThreeOfFour | tests/test_ec2/test_launch_templates.py:372-382 | over four versions, MinVersion 2 and MaxVersion 3 return versions 2 and 3 |
| Scenarios.ThreeVersionsQueries | tests/test_ec2/test_launch_templates.py:296-308 | a live template with three versions answers MinVersion 2, MaxVersion 2 and the list [2, 3] through the store, with the versions shown above |
| Scenarios.ThreeVersionsData | tests/test_ec2/test_launch_templates.py:264-342 | over three versions, MinVersion 2 and the list [2, 3] return two versions holding the second and third data, and MaxVersion 2 returns two holding the first and second data |
| Scenarios.ListingOfTwo | tests/test_ec2/test_launch_templates.py:417-423 | a store of two templates lists them in creation order |
| Scenarios.TagFilterOfTwo | tests/test_ec2/test_launch_templates.py:466-471 | of two templates, the tag filter returns only the one carrying the tag with that value |
| Scenarios.NameFilterOfTwo | tests/test_ec2/test_launch_templates.py:473-477 | of two templates, the name filter returns only the one of that name |
| Scenarios.FilterNamesParse | tests/test_ec2/test_launch_templates.py:466-474 | `tag:tag1` reads as a tag filter on `tag1` and `launch-template-name` as a name filter |
| Scenarios.TaggedLookup | tests/test_ec2/test_launch_templates.py:452-458 | a template tagged `tag1` and then `another-key` has `tag1` with the value given |
| Scenarios.UntaggedLookup | tests/test_ec2/test_launch_templates.py:460-471 | a template created without tags has no `tag1` |
| Scenarios.TaggedTemplate | tests/test_ec2/test_launch_templates.py:446-458 | after a create and a CreateTags through the store, the one template carries `tag1` |
| Scenarios.TagSpecKept | tests/test_ec2/test_launch_templates.py:485-502 | top-level tag specifications end up inside the stored data of version 1 |
| Scenarios.SingleTemplateTag | tests/test_ec2/test_launch_templates.py:666-672 | a single launch-template tag becomes the template's only tag |

The other members of `Scenarios` are client methods without contracts of
their own (`OneVersionTemplate`, `TwoVersionTemplate` and `TaggedTemplate`
have contracts and rows above, and are called from the replays). Each replays one test
function against `Store`, and its assertions are the test's assertions:

- `CreateThenDuplicate` (13-52);
- `CreateDryRun` (55-74);
- `DescribeSingleVersion` (77-126);
- `DescribeVersionsAbsent` (129-141);
- `CreateVersionByName` (144-166);
- `CreateVersionDryRun` (169-189);
- `CreateVersionById` (192-214);
- `DescribeAllVersions` (217-240);
- `DescribeThreeVersions` (243-342);
- `DescribeTemplatesAbsent` (385-396);
- `RetrieveTwoTemplates`, `DescribeTwoByNames` and `DescribeTwoByIds`
  (399-439);
- `CreateWithTagSpec` (480-502);
- `DeleteDryRun` (527-555);
- `DeleteByName` (558-587);
- `DeleteMissingParameter` and `DeleteById` (590-628);
- `CreateWithTags` (641-707).

## Left out

- The boto3 client, `ClientError`, `mock_ec2` and server mode are
  transport and test harness. Errors are modelled as an enumeration of
  kinds, not as their message strings.
- `test_get_launch_template_data` (505-524) is not modelled. It depends
  on `run_instances` and the instance model, which are not part of this
  model.
- The launch-template implementation module and the EC2 tagging backend
  are not part of this model. Their behaviour is modelled from the
  assertions of the tests.
- Names come from `uuid4`. Here they are arbitrary strings, passed in as
  parameters.
- LaunchTemplateData is opaque apart from its TagSpecifications key. It
  is stored unchanged, except that TagSpecifications given beside the
  template are appended to its TagSpecifications.
- The page size is a parameter, `size`. Every pagination property is
  proved for every positive page size.
- Line 418 notes a known defect of the service: only 15 launch templates
  are ever returned in total, even when NextToken is followed. The model
  does not have that cap. `RetrieveAll` and `FollowTokensCollectsAll`
  state the intended behaviour, in which following tokens collects the
  whole listing.
- VersionSelection.InRange and TemplateStore.DescribeVersions take
  MinVersion and MaxVersion as numbers. The tests pass them as strings
  (lines 299, 333 and 373), and only the strings of `Versions` are
  parsed (`SelectorSyntax`). What a non-numeric bound does is not
  modelled.
- Concurrency and server-mode parallel callers are not modelled. The
  model is sequential.
- A filter with a name other than `launch-template-name` or `tag:<key>`
  reads as unsupported (`None`). What the service then does is not
  asserted by the tests and is not modelled.
- The filter test (442-477) is replayed through `Store` only up to its
  first tagged template (`TaggedTemplate`). The
  two describe calls are stated as `TagFilterOfTwo` and `NameFilterOfTwo`
  over any store holding such a tagged template and then an untagged
  one, instead of as one replay of all three calls.
- The min-and-max test with four versions (345-382) is stated on the
  template (`MinTwoMaxThreeOfFour`), not replayed through `Store`.
- The ImageId values the tests read back (`ami-def456` and so on) are
  represented by the data passed to each version. The scenarios check
  that each answer carries the data of the versions it names, and do
  not look inside that data.
