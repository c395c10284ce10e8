/**
 Task requests: validation of decoded request documents (`TaskRequest.from_dict` and
 `__post_init__`) and their serialization (`to_dict`) into the stored evidence.
 */
module TaskRequests {
  import opened Wrappers
  import PosixPaths

  /** A decoded JSON value. */
  datatype Json =
    | JNull
    | JBool(flag: bool)
    | JNumber(number: int)
    | JString(text: string)
    | JList(items: seq<Json>)
    | JObject(fields: map<string, Json>)

  /** Python truthiness. */
  predicate Truthy(value: Json) {
    match value
    case JNull => false
    case JBool(flag) => flag
    case JNumber(number) => number != 0
    case JString(text) => text != ""
    case JList(items) => items != []
    case JObject(fields) => fields != map[]
  }

  function Get(data: map<string, Json>, key: string, default: Json): Json {
    if key in data then data[key] else default
  }

  // ---------- str.strip ----------

  /** `str.isspace` for one character. */
  predicate IsSpace(c: char) {
    var code := c as int;
    || 0x09 <= code <= 0x0D
    || 0x1C <= code <= 0x20
    || code in {0x85, 0xA0, 0x1680, 0x2028, 0x2029, 0x202F, 0x205F, 0x3000}
    || 0x2000 <= code <= 0x200A
  }

  function StripLeft(s: string): string {
    if s != "" && IsSpace(s[0]) then StripLeft(s[1..]) else s
  }

  function StripRight(s: string): string {
    if s != "" && IsSpace(s[|s| - 1]) then StripRight(s[..|s| - 1]) else s
  }

  function Strip(s: string): string {
    StripRight(StripLeft(s))
  }

  predicate Trimmed(s: string) {
    s != "" ==> !IsSpace(s[0]) && !IsSpace(s[|s| - 1])
  }

  lemma {:induction false} StripLeftTrims(s: string)
    ensures StripLeft(s) != "" ==> !IsSpace(StripLeft(s)[0])
  {
    if s != "" && IsSpace(s[0]) {
      StripLeftTrims(s[1..]);
    }
  }

  lemma {:induction false} StripRightTrims(s: string)
    ensures StripRight(s) <= s
    ensures StripRight(s) != "" ==> !IsSpace(StripRight(s)[|StripRight(s)| - 1])
  {
    if s != "" && IsSpace(s[|s| - 1]) {
      StripRightTrims(s[..|s| - 1]);
    }
  }

  lemma StripIdempotent(s: string)
    ensures Strip(Strip(s)) == Strip(s)
  {
    StripLeftTrims(s);
    StripRightTrims(StripLeft(s));
    assert Trimmed(Strip(s));
  }

  // ---------- requests ----------

  datatype RunMode = ReadOnly | Edit

  /** `test_commands` holds one argv array per command. */
  datatype TaskRequest = TaskRequest(
    repository: string,
    task: string,
    acceptanceCriteria: seq<string>,
    mode: RunMode,
    testCommands: seq<seq<string>>,
    allowedPaths: seq<string>,
    exclusiveTests: bool,
    testProfile: Option<string>)

  datatype RequestError =
    | ProviderSelection | BadTask | BadRepository | BadCriteria | BadMode | BadTestProfile
    | ProfileAndCommands | BadTestCommands | BadAllowedPaths | BadExclusive
    | EditNeedsPaths | EditNeedsTests | ReadOnlyWithTests

  function NormalizeAll(paths: seq<string>): Result<seq<string>, RequestError> {
    if paths == [] then Ok([])
    else
      match PosixPaths.Normalize(paths[0])
      case Err(_) => Err(BadAllowedPaths)
      case Ok(first) =>
        var rest :- NormalizeAll(paths[1..]);
        Ok([first] + rest)
  }

  /** The dataclass constructor: `__post_init__` runs on every construction, `replace` included. */
  function Construct(r: TaskRequest): Result<TaskRequest, RequestError> {
    var paths :- NormalizeAll(r.allowedPaths);
    if r.mode == Edit && paths == [] then Err(EditNeedsPaths)
    else if r.mode == Edit && r.testCommands == [] && (r.testProfile.None? || r.testProfile.value == "") then
      Err(EditNeedsTests)
    else if r.mode == ReadOnly && r.testCommands != [] then Err(ReadOnlyWithTests)
    else Ok(r.(allowedPaths := paths))
  }

  /** A list of non-empty strings. */
  function NonEmptyStrings(value: Json, error: RequestError): Result<seq<string>, RequestError> {
    if !value.JList? || exists item | item in value.items :: !item.JString? || item.text == "" then Err(error)
    else Ok(seq(|value.items|, i requires 0 <= i < |value.items| =>
      if value.items[i].JString? then value.items[i].text else ""))
  }

  /** `TestCommand.from_value` over the list, after the check that every item is a list. */
  function Commands(items: seq<Json>): Result<seq<seq<string>>, RequestError> {
    if items == [] then Ok([])
    else if items[0] == JList([]) then Err(BadTestCommands)
    else
      var argv :- NonEmptyStrings(items[0], BadTestCommands);
      var rest :- Commands(items[1..]);
      Ok([argv] + rest)
  }

  function ParseMode(value: Json): Result<RunMode, RequestError> {
    if value == JString("edit") then Ok(Edit)
    else if value == JString("read-only") then Ok(ReadOnly)
    else Err(BadMode)
  }

  function ParseProfile(value: Json, rawCommands: Json): Result<Option<string>, RequestError> {
    if value == JNull then Ok(None)
    else if !value.JString? || value.text == "" then Err(BadTestProfile)
    else if Truthy(rawCommands) then Err(ProfileAndCommands)
    else Ok(Some(value.text))
  }

  const PROVIDER_KEYS: set<string> := {"provider_profile", "settings", "model"}

  /** `TaskRequest.from_dict`; `resolve` is `Path(...).resolve()`. */
  function FromDict(data: map<string, Json>, resolve: string -> string): Result<TaskRequest, RequestError> {
    if data.Keys * PROVIDER_KEYS != {} then Err(ProviderSelection)
    else
      var task := Get(data, "task", JNull);
      if !task.JString? || Strip(task.text) == "" then Err(BadTask)
      else
        var repository := Get(data, "repository", JNull);
        if !repository.JString? || repository.text == "" then Err(BadRepository)
        else
          var criteria :- NonEmptyStrings(Get(data, "acceptance_criteria", JList([])), BadCriteria);
          var mode :- ParseMode(Get(data, "mode", JString("edit")));
          var rawCommands := Get(data, "test_commands", JList([]));
          var profile :- ParseProfile(Get(data, "test_profile", JNull), rawCommands);
          if !rawCommands.JList? then Err(BadTestCommands)
          else
            var commands :- Commands(rawCommands.items);
            var paths :- NonEmptyStrings(Get(data, "allowed_paths", JList([])), BadAllowedPaths);
            var normalized :- NormalizeAll(paths);
            var exclusive := Get(data, "exclusive_tests", JBool(false));
            if !exclusive.JBool? then Err(BadExclusive)
            else
              Construct(TaskRequest(
                resolve(repository.text), Strip(task.text), criteria, mode, commands, normalized,
                exclusive.flag, profile))
  }

  function EncodeStrings(items: seq<string>): Json {
    JList(seq(|items|, i requires 0 <= i < |items| => JString(items[i])))
  }

  function EncodeCommands(commands: seq<seq<string>>): seq<Json> {
    if commands == [] then [] else [EncodeStrings(commands[0])] + EncodeCommands(commands[1..])
  }

  /** `TaskRequest.to_dict` */
  function ToDict(r: TaskRequest): map<string, Json> {
    map[
      "repository" := JString(r.repository),
      "task" := JString(r.task),
      "acceptance_criteria" := EncodeStrings(r.acceptanceCriteria),
      "mode" := JString(if r.mode == Edit then "edit" else "read-only"),
      "test_commands" := JList(EncodeCommands(r.testCommands)),
      "allowed_paths" := EncodeStrings(r.allowedPaths),
      "exclusive_tests" := JBool(r.exclusiveTests),
      "test_profile" := match r.testProfile case None => JNull case Some(name) => JString(name)
    ]
  }

  // ---------- what validation guarantees ----------

  predicate AllNonEmpty(items: seq<string>) {
    forall i | 0 <= i < |items| :: items[i] != ""
  }

  lemma StringsRoundTrip(items: seq<string>, error: RequestError)
    requires AllNonEmpty(items)
    ensures NonEmptyStrings(EncodeStrings(items), error) == Ok(items)
  {
    var decoded := NonEmptyStrings(EncodeStrings(items), error);
    assert decoded.Ok? && decoded.value == items;
  }

  lemma DecodedStringsNonEmpty(value: Json, error: RequestError)
    ensures NonEmptyStrings(value, error).Ok? ==> AllNonEmpty(NonEmptyStrings(value, error).value)
  {
    if NonEmptyStrings(value, error).Ok? {
      forall i | 0 <= i < |value.items|
        ensures NonEmptyStrings(value, error).value[i] != ""
      {
        assert value.items[i] in value.items;
      }
    }
  }

  predicate Executable(commands: seq<seq<string>>) {
    forall i | 0 <= i < |commands| :: commands[i] != [] && AllNonEmpty(commands[i])
  }

  lemma {:induction false} DecodedCommandsExecutable(items: seq<Json>)
    ensures Commands(items).Ok? ==> Executable(Commands(items).value)
  {
    if items != [] {
      DecodedStringsNonEmpty(items[0], BadTestCommands);
      DecodedCommandsExecutable(items[1..]);
    }
  }

  lemma {:induction false} CommandsRoundTrip(commands: seq<seq<string>>)
    requires Executable(commands)
    ensures Commands(EncodeCommands(commands)) == Ok(commands)
  {
    if commands != [] {
      StringsRoundTrip(commands[0], BadTestCommands);
      CommandsRoundTrip(commands[1..]);
      assert EncodeCommands(commands)[1..] == EncodeCommands(commands[1..]);
      assert |EncodeStrings(commands[0]).items| > 0;
      assert [commands[0]] + commands[1..] == commands;
    }
  }

  predicate AllNormal(paths: seq<string>) {
    forall i | 0 <= i < |paths| :: PosixPaths.Normalize(paths[i]).Ok?
  }

  lemma {:induction false} NormalizeAllIsFilter(paths: seq<string>)
    ensures NormalizeAll(paths).Ok? <==> AllNormal(paths)
    ensures NormalizeAll(paths).Ok? ==> NormalizeAll(paths).value == paths
  {
    if paths != [] {
      PosixPaths.NormalizeIsFilter(paths[0]);
      NormalizeAllIsFilter(paths[1..]);
      assert AllNormal(paths) <==> PosixPaths.Normalize(paths[0]).Ok? && AllNormal(paths[1..]);
      assert [paths[0]] + paths[1..] == paths;
    }
  }

  /** What every accepted request satisfies. */
  ghost predicate Valid(r: TaskRequest, resolve: string -> string) {
    && r.task != "" && Strip(r.task) == r.task
    && AllNonEmpty(r.acceptanceCriteria)
    && Executable(r.testCommands)
    && AllNormal(r.allowedPaths) && AllNonEmpty(r.allowedPaths)
    && (r.testProfile.Some? ==> r.testProfile.value != "" && r.testCommands == [])
    && (r.mode == Edit ==> r.allowedPaths != [] && (r.testCommands != [] || r.testProfile.Some?))
    && (r.mode == ReadOnly ==> r.testCommands == [])
    && (exists raw: string :: raw != "" && r.repository == resolve(raw))
  }

  lemma AcceptedIsValid(data: map<string, Json>, resolve: string -> string)
    requires FromDict(data, resolve).Ok?
    ensures Valid(FromDict(data, resolve).value, resolve)
  {
    var rawCommands := Get(data, "test_commands", JList([]));
    var rawPaths := Get(data, "allowed_paths", JList([]));
    DecodedStringsNonEmpty(Get(data, "acceptance_criteria", JList([])), BadCriteria);
    DecodedCommandsExecutable(rawCommands.items);
    DecodedStringsNonEmpty(rawPaths, BadAllowedPaths);
    var paths := NonEmptyStrings(rawPaths, BadAllowedPaths).value;
    NormalizeAllIsFilter(paths);
    StripIdempotent(Get(data, "task", JNull).text);
  }

  lemma StoredFields(r: TaskRequest)
    ensures var d := ToDict(r);
      && d.Keys * PROVIDER_KEYS == {}
      && Get(d, "repository", JNull) == JString(r.repository)
      && Get(d, "task", JNull) == JString(r.task)
      && Get(d, "acceptance_criteria", JList([])) == EncodeStrings(r.acceptanceCriteria)
      && ParseMode(Get(d, "mode", JString("edit"))) == Ok(r.mode)
      && Get(d, "test_commands", JList([])) == JList(EncodeCommands(r.testCommands))
      && Get(d, "allowed_paths", JList([])) == EncodeStrings(r.allowedPaths)
      && Get(d, "exclusive_tests", JBool(false)) == JBool(r.exclusiveTests)
      && Get(d, "test_profile", JNull) == (match r.testProfile case None => JNull case Some(name) => JString(name))
  {
    assert "edit" != "read-only" by {
      assert |"edit"| != |"read-only"|;
    }
  }

  lemma ConstructAcceptsValid(r: TaskRequest, resolve: string -> string)
    requires Valid(r, resolve)
    ensures Construct(r) == Ok(r)
    ensures NormalizeAll(r.allowedPaths) == Ok(r.allowedPaths)
  {
    NormalizeAllIsFilter(r.allowedPaths);
  }

  lemma ProfileRoundTrips(r: TaskRequest)
    requires r.testProfile.Some? ==> r.testProfile.value != "" && r.testCommands == []
    ensures ParseProfile(
      match r.testProfile { case None => JNull case Some(name) => JString(name) },
      JList(EncodeCommands(r.testCommands))) == Ok(r.testProfile)
  {
  }

  lemma ValidRoundTrips(r: TaskRequest, resolve: string -> string)
    requires Valid(r, resolve)
    requires r.repository != "" && resolve(r.repository) == r.repository
    ensures FromDict(ToDict(r), resolve) == Ok(r)
  {
    StoredFields(r);
    StringsRoundTrip(r.acceptanceCriteria, BadCriteria);
    StringsRoundTrip(r.allowedPaths, BadAllowedPaths);
    CommandsRoundTrip(r.testCommands);
    ProfileRoundTrips(r);
    ConstructAcceptsValid(r, resolve);
  }

  /**
   The drained request equals the submitted one: whatever document was accepted at submission, the
   request rebuilt from its stored form is the same request. Path resolution is only asked to be
   stable on its own results.
   */
  lemma StoredRequestRebuildsEqual(data: map<string, Json>, resolve: string -> string)
    requires FromDict(data, resolve).Ok?
    requires forall raw: string :: resolve(raw) != "" && resolve(resolve(raw)) == resolve(raw)
    ensures FromDict(ToDict(FromDict(data, resolve).value), resolve) == FromDict(data, resolve)
  {
    AcceptedIsValid(data, resolve);
    ValidRoundTrips(FromDict(data, resolve).value, resolve);
  }
}
