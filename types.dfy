/** The entities of the launch-template store: opaque launch data, tags,
    versions, template records, and the error kinds the EC2 API reports. */
module LaunchTemplateTypes {

  datatype Option<+T> = None | Some(value: T)

  /** A JSON-like document. The launch data other than its tag
      specifications is stored and returned unchanged, so its shape is
      only needed to make "unchanged" meaningful. */
  datatype Json =
    | JNull
    | JBool(b: bool)
    | JNumber(n: int)
    | JString(s: string)
    | JArray(items: seq<Json>)
    | JObject(members: seq<(string, Json)>)

  /** One key/value tag, as in `{"Key": "test1", "Value": "value1"}`. */
  datatype Tag = Tag(key: string, value: string)

  /** A TagSpecifications entry: the resource type it targets and its tags. */
  datatype TagSpec = TagSpec(resourceType: string, tags: seq<Tag>)

  /** The resource type whose tag specifications tag the template itself. */
  const LaunchTemplateResource: string := "launch-template"

  /** LaunchTemplateData: its TagSpecifications key (absent or a list) and
      every other key, kept opaque. */
  datatype LaunchData = LaunchData(tagSpecifications: Option<seq<TagSpec>>, other: Json)

  /** One immutable version snapshot of a template. */
  datatype Version = Version(number: nat, data: LaunchData, description: Option<string>)

  /** A live template record. */
  datatype Template = Template(
    id: nat,
    name: string,
    versions: seq<Version>,
    defaultVersion: nat,
    latestVersion: nat,
    tags: seq<Tag>)

  /** What create-version returns: the new version, its parent's id and
      whether it is the parent's default version. */
  datatype VersionInfo = VersionInfo(templateId: nat, version: Version, isDefault: bool)

  /** No two tags of a list share a key (a tag set behaves as a dictionary). */
  ghost predicate KeysDistinct(ts: seq<Tag>) {
    forall i, j | 0 <= i < j < |ts| :: ts[i].key != ts[j].key
  }

  /** The record invariant: versions are numbered exactly 1..latest in
      order, latest is the highest number, default names an existing
      version, and tag keys are unique. */
  ghost predicate TemplateOk(t: Template) {
    && |t.versions| >= 1
    && (forall i | 0 <= i < |t.versions| :: t.versions[i].number == i + 1)
    && t.latestVersion == |t.versions|
    && 1 <= t.defaultVersion <= t.latestVersion
    && KeysDistinct(t.tags)
  }

  /** The error kinds of the launch-template operations. */
  datatype Error =
    | AlreadyExists             // InvalidLaunchTemplateName.AlreadyExistsException
    | NotFoundByName(name: string) // the template with this name does not exist
    | NotFoundById(id: nat)     // the template with this id does not exist
    | NotFoundSome              // at least one requested template does not exist
    | MissingParameter          // neither a template id nor a template name
    | DryRun                    // DryRunOperation: the request would have succeeded
    | InvalidVersionSelector(text: string) // a version string that is no selector

  datatype Result<+T> = Ok(value: T) | Err(error: Error)
}
