/**
 * The configuration file's schema: repository entries with a validated name
 * and defaulted optional fields, global options with defaults, and the
 * mapping of the ways loading can fail onto the errors the loader raises.
 * Reading the file and parsing YAML are inputs here: the loader is given
 * whether the path exists and what the parser produced.
 */
module Config {
  import opened Wrappers
  import opened Text

  /** A field of a parsed mapping: missing, given as null, or given a value. */
  datatype Field<T> = Absent | Null | Given(value: T)

  /** An `Optional[T]` field with a default: the default when missing, None when null. */
  function OptionalField<T>(f: Field<T>, default: Option<T>): (r: Option<T>)
    ensures f.Absent? ==> r == default
    ensures f.Null? ==> r.None?
    ensures f.Given? ==> r == Some(f.value)
  {
    match f
    case Absent => default
    case Null => None
    case Given(v) => Some(v)
  }

  datatype RawEntry = RawEntry(
    name: Field<string>,
    description: Field<string>,
    isPrivate: Field<bool>,
    template: Field<string>,
    path: Field<string>,
    owner: Field<string>)

  datatype RepoEntry = RepoEntry(
    name: string,
    description: Option<string>,
    isPrivate: Option<bool>,
    template: Option<string>,
    path: Option<string>,
    owner: Option<string>)

  datatype RawOptions = RawOptions(defaultBranch: Field<string>, commitMessage: Field<string>, useSsh: Field<bool>)

  datatype Options = Options(defaultBranch: Option<string>, commitMessage: Option<string>, useSsh: Option<bool>)

  datatype RawConfig = RawConfig(repos: Field<seq<RawEntry>>, options: Field<RawOptions>)

  datatype RepoConfig = RepoConfig(repos: seq<RepoEntry>, options: Option<Options>)

  /** Why a field was refused. */
  datatype Reason = Missing | NoneNotAllowed | Invalid(message: string)

  /** A refused field: of entry `entry` of the repository list, or of the top level. */
  datatype SchemaError = SchemaError(entry: Option<nat>, field: string, reason: Reason)

  /** What `load_and_validate` raises. */
  datatype LoadError =
    | FileNotFound(message: string)
    | YamlError
    | TypeError
    | InvalidSchema(message: string, errors: seq<SchemaError>)

  /** What the YAML parser produced from the file's text. */
  datatype Document = Unparsable | NotMapping | Mapping(config: RawConfig)

  const NameMessage := "name must be non-empty and cannot contain spaces"

  /** `RepoEntry.name_must_be_valid`. */
  function ValidateName(v: string): Result<string, string> {
    if |v| == 0 || Contains(v, " ") then Err(NameMessage) else Ok(v)
  }

  /** A name is accepted, unchanged, exactly when it is non-empty and has no
      space character; otherwise the validator's message is the error. */
  lemma ValidateNameSpec(v: string)
    ensures ValidateName(v).Ok? <==> |v| > 0 && forall i :: 0 <= i < |v| ==> v[i] != ' '
    ensures ValidateName(v).Ok? ==> ValidateName(v).value == v
    ensures ValidateName(v).Err? ==> ValidateName(v).error == NameMessage
  {
    ContainsAt(v, " ");
    if i :| OccursAt(v, " ", i) {
      assert v[i] == v[i..i + 1][0] == ' ';
    }
    if i :| 0 <= i < |v| && v[i] == ' ' {
      assert v[i..i + 1] == " ";
      assert OccursAt(v, " ", i);
    }
  }

  /** The checks of the required `name` field of entry i. */
  function EntryName(i: nat, f: Field<string>): Result<string, SchemaError> {
    match f
    case Absent => Err(SchemaError(Some(i), "name", Missing))
    case Null => Err(SchemaError(Some(i), "name", NoneNotAllowed))
    case Given(v) =>
      match ValidateName(v)
      case Ok(name) => Ok(name)
      case Err(message) => Err(SchemaError(Some(i), "name", Invalid(message)))
  }

  /** `RepoEntry(**raw)` for entry i of the list. */
  function ValidateEntry(i: nat, raw: RawEntry): Result<RepoEntry, SchemaError> {
    match EntryName(i, raw.name)
    case Err(e) => Err(e)
    case Ok(name) =>
      Ok(RepoEntry(
        name,
        OptionalField(raw.description, Some("")),
        OptionalField(raw.isPrivate, Some(true)),
        OptionalField(raw.template, None),
        OptionalField(raw.path, None),
        OptionalField(raw.owner, None)))
  }

  /** An entry is accepted exactly when its name is given and valid; the other
      fields then take their given values, None when null, or the defaults
      description "", private true, no template, path or owner. */
  lemma ValidateEntrySpec(i: nat, raw: RawEntry)
    ensures ValidateEntry(i, raw).Ok? <==> raw.name.Given? && ValidateName(raw.name.value).Ok?
    ensures ValidateEntry(i, raw).Ok? ==>
      var e := ValidateEntry(i, raw).value;
      e.name == raw.name.value &&
      e.description == (if raw.description.Absent? then Some("") else OptionalField(raw.description, None)) &&
      e.isPrivate == (if raw.isPrivate.Absent? then Some(true) else OptionalField(raw.isPrivate, None)) &&
      e.template == OptionalField(raw.template, None) &&
      e.path == OptionalField(raw.path, None) &&
      e.owner == OptionalField(raw.owner, None)
    ensures ValidateEntry(i, raw).Err? ==>
      ValidateEntry(i, raw).error.entry == Some(i) && ValidateEntry(i, raw).error.field == "name"
  {
  }

  /** An entry that the schema accepts. */
  predicate ValidEntry(raw: RawEntry) {
    raw.name.Given? && ValidateName(raw.name.value).Ok?
  }

  /** The entries of the list, or every error found in them, in list order. */
  function ValidateRepos(raws: seq<RawEntry>): Result<seq<RepoEntry>, seq<SchemaError>>
    decreases |raws|
  {
    if |raws| == 0 then Ok([])
    else
      var i := |raws| - 1;
      match (ValidateRepos(raws[..i]), ValidateEntry(i, raws[i]))
      case (Ok(es), Ok(e)) => Ok(es + [e])
      case (Ok(_), Err(x)) => Err([x])
      case (Err(xs), Ok(_)) => Err(xs)
      case (Err(xs), Err(x)) => Err(xs + [x])
  }

  /** The list is accepted exactly when every entry is, and then entry i becomes the i-th repository. */
  lemma {:induction false} ValidateReposAccepts(raws: seq<RawEntry>)
    ensures ValidateRepos(raws).Ok? <==> forall i :: 0 <= i < |raws| ==> ValidEntry(raws[i])
    ensures ValidateRepos(raws).Ok? ==>
      |ValidateRepos(raws).value| == |raws| &&
      forall i :: 0 <= i < |raws| ==> ValidateEntry(i, raws[i]) == Ok(ValidateRepos(raws).value[i])
    decreases |raws|
  {
    if |raws| > 0 {
      var i := |raws| - 1;
      var p := raws[..i];
      ValidateReposAccepts(p);
      ValidateEntrySpec(i, raws[i]);
      assert forall j :: 0 <= j < i ==> p[j] == raws[j];
    }
  }

  /** Every error of a refused list names a refused entry. */
  lemma {:induction false} ValidateReposErrorsNameEntries(raws: seq<RawEntry>)
    ensures ValidateRepos(raws).Err? ==>
      forall x :: x in ValidateRepos(raws).error ==>
        x.entry.Some? && x.entry.value < |raws| && !ValidEntry(raws[x.entry.value])
    decreases |raws|
  {
    if |raws| > 0 {
      var i := |raws| - 1;
      var p := raws[..i];
      ValidateReposErrorsNameEntries(p);
      ValidateEntrySpec(i, raws[i]);
      assert forall j :: 0 <= j < i ==> p[j] == raws[j];
      var r := ValidateRepos(raws);
      if r.Err? {
        var errs := if ValidateRepos(p).Err? then ValidateRepos(p).error else [];
        assert r.error == errs + (if ValidateEntry(i, raws[i]).Err? then [ValidateEntry(i, raws[i]).error] else []);
      }
    }
  }

  /** Every refused entry contributes its error to the list's errors. */
  lemma {:induction false} ValidateReposErrorsCover(raws: seq<RawEntry>)
    ensures forall i :: 0 <= i < |raws| && !ValidEntry(raws[i]) ==>
      ValidateRepos(raws).Err? && ValidateEntry(i, raws[i]).Err? &&
      ValidateEntry(i, raws[i]).error in ValidateRepos(raws).error
    decreases |raws|
  {
    if |raws| > 0 {
      var i := |raws| - 1;
      var p := raws[..i];
      ValidateReposErrorsCover(p);
      ValidateEntrySpec(i, raws[i]);
      forall j | 0 <= j < i ensures p[j] == raws[j] && ValidateEntry(j, p[j]) == ValidateEntry(j, raws[j]) {
      }
    }
  }

  const DefaultBranch := "main"
  const DefaultCommitMessage := "Initial commit from RepoForgeX"

  /** `Options(**raw)`: branch "main", the initial commit message and HTTPS unless given. */
  function OptionsOf(raw: RawOptions): (o: Options)
    ensures raw.defaultBranch.Absent? ==> o.defaultBranch == Some(DefaultBranch)
    ensures raw.commitMessage.Absent? ==> o.commitMessage == Some(DefaultCommitMessage)
    ensures raw.useSsh.Absent? ==> o.useSsh == Some(false)
    ensures !raw.defaultBranch.Absent? ==> o.defaultBranch == OptionalField(raw.defaultBranch, None)
    ensures !raw.commitMessage.Absent? ==> o.commitMessage == OptionalField(raw.commitMessage, None)
    ensures !raw.useSsh.Absent? ==> o.useSsh == OptionalField(raw.useSsh, None)
  {
    Options(
      OptionalField(raw.defaultBranch, Some(DefaultBranch)),
      OptionalField(raw.commitMessage, Some(DefaultCommitMessage)),
      OptionalField(raw.useSsh, Some(false)))
  }

  /** The options a config without an `options` key gets. */
  function DefaultOptions(): (o: Options)
    ensures o == Options(Some(DefaultBranch), Some(DefaultCommitMessage), Some(false))
  {
    OptionsOf(RawOptions(Absent, Absent, Absent))
  }

  /** `RepoConfig(**raw)`: the repository list is required, the options default. */
  function ValidateConfig(raw: RawConfig): Result<RepoConfig, seq<SchemaError>> {
    var options := match raw.options
      case Absent => Some(DefaultOptions())
      case Null => None
      case Given(o) => Some(OptionsOf(o));
    match raw.repos
    case Absent => Err([SchemaError(None, "repos", Missing)])
    case Null => Err([SchemaError(None, "repos", NoneNotAllowed)])
    case Given(raws) =>
      match ValidateRepos(raws)
      case Ok(entries) => Ok(RepoConfig(entries, options))
      case Err(errors) => Err(errors)
  }

  /** A config is accepted exactly when its repository list is given and every
      entry is valid; a missing or null list is refused at "repos"; the entries
      become the repositories in order; the options default when missing. */
  lemma ValidateConfigSpec(raw: RawConfig)
    ensures ValidateConfig(raw).Ok? <==>
      raw.repos.Given? && forall i :: 0 <= i < |raw.repos.value| ==> ValidEntry(raw.repos.value[i])
    ensures !raw.repos.Given? ==>
      ValidateConfig(raw) == Err([SchemaError(None, "repos", if raw.repos.Absent? then Missing else NoneNotAllowed)])
    ensures raw.repos.Given? && ValidateConfig(raw).Err? ==>
      ValidateConfig(raw).error == ValidateRepos(raw.repos.value).error
    ensures ValidateConfig(raw).Ok? ==>
      var c := ValidateConfig(raw).value;
      |c.repos| == |raw.repos.value| &&
      (forall i :: 0 <= i < |c.repos| ==> ValidateEntry(i, raw.repos.value[i]) == Ok(c.repos[i])) &&
      (raw.options.Absent? ==> c.options == Some(Options(Some("main"), Some("Initial commit from RepoForgeX"), Some(false)))) &&
      (raw.options.Null? ==> c.options.None?) &&
      (raw.options.Given? ==> c.options == Some(OptionsOf(raw.options.value)))
  {
    if raw.repos.Given? {
      ValidateReposAccepts(raw.repos.value);
    }
  }

  const NotFoundPrefix := "Config file not found: "
  const InvalidPrefix := "Invalid config schema: "

  /** `load_and_validate(path)`, given whether the path exists and what parsing produced. */
  function LoadAndValidate(path: string, pathExists: bool, doc: Document): Result<RepoConfig, LoadError> {
    if !pathExists then Err(FileNotFound(NotFoundPrefix + path))
    else
      match doc
      case Unparsable => Err(YamlError)
      case NotMapping => Err(TypeError)
      case Mapping(raw) =>
        match ValidateConfig(raw)
        case Ok(cfg) => Ok(cfg)
        case Err(errors) => Err(InvalidSchema(InvalidPrefix, errors))
  }

  /** A missing file is reported before anything is parsed; an unparsable or
      non-mapping document is not turned into a schema error; a parsed mapping
      loads exactly when it validates, and every schema violation, a bad name
      included, is reported as an invalid schema carrying the violations. */
  lemma LoadAndValidateSpec(path: string, pathExists: bool, doc: Document)
    ensures !pathExists ==> LoadAndValidate(path, pathExists, doc) == Err(FileNotFound("Config file not found: " + path))
    ensures pathExists && doc.Unparsable? ==> LoadAndValidate(path, pathExists, doc) == Err(YamlError)
    ensures pathExists && doc.NotMapping? ==> LoadAndValidate(path, pathExists, doc) == Err(TypeError)
    ensures pathExists && doc.Mapping? ==>
      var r := LoadAndValidate(path, pathExists, doc);
      (r.Ok? <==> ValidateConfig(doc.config).Ok?) &&
      (r.Ok? ==> r.value == ValidateConfig(doc.config).value) &&
      (r.Err? ==> r.error == InvalidSchema("Invalid config schema: ", ValidateConfig(doc.config).error))
    ensures pathExists && doc.Mapping? && doc.config.repos.Given? ==>
      forall i :: 0 <= i < |doc.config.repos.value| && !ValidEntry(doc.config.repos.value[i]) ==>
        var r := LoadAndValidate(path, pathExists, doc);
        r.Err? && r.error.InvalidSchema? && ValidateEntry(i, doc.config.repos.value[i]).error in r.error.errors
  {
    if pathExists && doc.Mapping? && doc.config.repos.Given? {
      ValidateConfigSpec(doc.config);
      ValidateReposErrorsCover(doc.config.repos.value);
    }
  }
}
