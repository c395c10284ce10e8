/** Which decoded request documents are accepted, key by key, and what an absent key stands for. */
module RequestDocuments {
  import opened Wrappers
  import PosixPaths
  import opened TaskRequests

  /** A list of non-empty strings. */
  predicate StringList(value: Json) {
    value.JList? && forall i | 0 <= i < |value.items| :: value.items[i].JString? && value.items[i].text != ""
  }

  /** A list of non-empty argv lists. */
  predicate CommandList(value: Json) {
    value.JList? && forall i | 0 <= i < |value.items| :: StringList(value.items[i]) && value.items[i].items != []
  }

  /** `texts` is what the list holds; an absent key holds nothing. */
  ghost predicate Holds(data: map<string, Json>, key: string, texts: seq<string>) {
    if key in data then
      data[key].JList? && |data[key].items| == |texts|
      && forall i | 0 <= i < |texts| :: data[key].items[i] == JString(texts[i])
    else texts == []
  }

  ghost predicate HoldsCommands(data: map<string, Json>, commands: seq<seq<string>>) {
    if "test_commands" in data then
      data["test_commands"].JList? && |data["test_commands"].items| == |commands|
      && forall i | 0 <= i < |commands| ::
        data["test_commands"].items[i].JList? && |data["test_commands"].items[i].items| == |commands[i]|
        && forall j | 0 <= j < |commands[i]| :: data["test_commands"].items[i].items[j] == JString(commands[i][j])
    else commands == []
  }

  predicate IsEdit(data: map<string, Json>) {
    "mode" !in data || data["mode"] == JString("edit")
  }

  predicate NamesProfile(data: map<string, Json>) {
    "test_profile" in data && data["test_profile"] != JNull
  }

  predicate HasCommands(data: map<string, Json>) {
    "test_commands" in data && data["test_commands"] != JList([])
  }

  /** The document, key by key. */
  ghost predicate Acceptable(data: map<string, Json>) {
    && "provider_profile" !in data && "settings" !in data && "model" !in data
    && "task" in data && data["task"].JString? && Strip(data["task"].text) != ""
    && "repository" in data && data["repository"].JString? && data["repository"].text != ""
    && ("acceptance_criteria" in data ==> StringList(data["acceptance_criteria"]))
    && ("mode" in data ==> data["mode"] in {JString("edit"), JString("read-only")})
    && (NamesProfile(data) ==> data["test_profile"].JString? && data["test_profile"].text != "")
    && ("test_commands" in data ==> CommandList(data["test_commands"]))
    && ("allowed_paths" in data ==>
      StringList(data["allowed_paths"])
      && forall i | 0 <= i < |data["allowed_paths"].items| :: PosixPaths.Normalize(data["allowed_paths"].items[i].text).Ok?)
    && ("exclusive_tests" in data ==> data["exclusive_tests"].JBool?)
    && !(NamesProfile(data) && HasCommands(data))
    && (IsEdit(data) ==>
      "allowed_paths" in data && data["allowed_paths"] != JList([]) && (HasCommands(data) || NamesProfile(data)))
    && (!IsEdit(data) ==> !HasCommands(data))
  }

  /** The request is what the document says, with the defaults for what it leaves out. */
  ghost predicate Says(data: map<string, Json>, resolve: string -> string, r: TaskRequest) {
    && "task" in data && data["task"].JString? && r.task == Strip(data["task"].text)
    && "repository" in data && data["repository"].JString? && r.repository == resolve(data["repository"].text)
    && Holds(data, "acceptance_criteria", r.acceptanceCriteria)
    && (r.mode == Edit <==> IsEdit(data))
    && HoldsCommands(data, r.testCommands)
    && Holds(data, "allowed_paths", r.allowedPaths)
    && (r.exclusiveTests <==> "exclusive_tests" in data && data["exclusive_tests"] == JBool(true))
    && (if NamesProfile(data) then r.testProfile.Some? && data["test_profile"] == JString(r.testProfile.value)
      else r.testProfile.None?)
  }

  lemma StringsExactly(value: Json, error: RequestError)
    ensures NonEmptyStrings(value, error).Ok? <==> StringList(value)
    ensures NonEmptyStrings(value, error).Ok? ==>
      var texts := NonEmptyStrings(value, error).value;
      |texts| == |value.items| && forall i | 0 <= i < |texts| :: value.items[i] == JString(texts[i])
  {
    if StringList(value) {
      forall item | item in value.items
        ensures item.JString? && item.text != ""
      {
        var i :| 0 <= i < |value.items| && value.items[i] == item;
      }
    }
    if NonEmptyStrings(value, error).Ok? {
      assert forall i | 0 <= i < |value.items| :: value.items[i] in value.items;
    }
  }

  lemma {:induction false} CommandsExactly(items: seq<Json>)
    ensures Commands(items).Ok? <==> forall i | 0 <= i < |items| :: StringList(items[i]) && items[i].items != []
    ensures Commands(items).Ok? ==>
      var commands := Commands(items).value;
      && |commands| == |items|
      && forall i | 0 <= i < |commands| ::
        && items[i].JList? && |items[i].items| == |commands[i]|
        && forall j | 0 <= j < |commands[i]| :: items[i].items[j] == JString(commands[i][j])
  {
    if items != [] {
      StringsExactly(items[0], BadTestCommands);
      CommandsExactly(items[1..]);
      assert forall i | 1 <= i < |items| :: items[i] == items[1..][i - 1];
      if forall i | 0 <= i < |items| :: StringList(items[i]) && items[i].items != [] {
        assert StringList(items[0]) && items[0] != JList([]);
      }
    }
  }

  lemma PathsExactly(value: Json)
    requires StringList(value)
    ensures var texts := NonEmptyStrings(value, BadAllowedPaths);
      && texts.Ok?
      && (NormalizeAll(texts.value).Ok?
        <==> forall i | 0 <= i < |value.items| :: PosixPaths.Normalize(value.items[i].text).Ok?)
      && (NormalizeAll(texts.value).Ok? ==> NormalizeAll(texts.value).value == texts.value)
  {
    StringsExactly(value, BadAllowedPaths);
    var texts := NonEmptyStrings(value, BadAllowedPaths).value;
    NormalizeAllIsFilter(texts);
    assert forall i | 0 <= i < |texts| :: value.items[i] == JString(texts[i]);
  }

  lemma ModeExactly(data: map<string, Json>)
    ensures var mode := ParseMode(Get(data, "mode", JString("edit")));
      && (mode.Ok? <==> ("mode" in data ==> data["mode"] in {JString("edit"), JString("read-only")}))
      && (mode.Ok? ==> (mode.value == Edit <==> IsEdit(data)))
  {
    assert "read-only" != "edit" by {
      assert |"read-only"| != |"edit"|;
    }
  }

  /** What is decoded before the request is constructed. */
  lemma DecodedExactly(data: map<string, Json>)
    ensures StringList(Get(data, "acceptance_criteria", JList([])))
       <==> ("acceptance_criteria" in data ==> StringList(data["acceptance_criteria"]))
    ensures CommandList(Get(data, "test_commands", JList([])))
       <==> ("test_commands" in data ==> CommandList(data["test_commands"]))
    ensures StringList(Get(data, "allowed_paths", JList([])))
       <==> ("allowed_paths" in data ==> StringList(data["allowed_paths"]))
    ensures data.Keys * PROVIDER_KEYS == {}
       <==> "provider_profile" !in data && "settings" !in data && "model" !in data
  {
    if data.Keys * PROVIDER_KEYS == {} {
      forall key | key in PROVIDER_KEYS
        ensures key !in data
      {
        assert key !in data.Keys * PROVIDER_KEYS;
      }
    }
  }

  /** An accepted document is acceptable key by key. */
  lemma AcceptedIsAcceptable(data: map<string, Json>, resolve: string -> string)
    requires FromDict(data, resolve).Ok?
    ensures Acceptable(data)
  {
    hide PosixPaths.Normalize;
    hide Strip;
    var rawCommands := Get(data, "test_commands", JList([]));
    var rawPaths := Get(data, "allowed_paths", JList([]));
    DecodedExactly(data);
    StringsExactly(Get(data, "acceptance_criteria", JList([])), BadCriteria);
    StringsExactly(rawPaths, BadAllowedPaths);
    CommandsExactly(rawCommands.items);
    PathsExactly(rawPaths);
    ModeExactly(data);
  }

  /** And the request is what the document says. */
  lemma AcceptedSays(data: map<string, Json>, resolve: string -> string)
    requires FromDict(data, resolve).Ok?
    ensures Says(data, resolve, FromDict(data, resolve).value)
  {
    hide Strip;
    var rawCommands := Get(data, "test_commands", JList([]));
    var rawPaths := Get(data, "allowed_paths", JList([]));
    StringsExactly(Get(data, "acceptance_criteria", JList([])), BadCriteria);
    StringsExactly(rawPaths, BadAllowedPaths);
    CommandsExactly(rawCommands.items);
    PathsExactly(rawPaths);
    ModeExactly(data);
  }

  /** An acceptable document is accepted. */
  lemma AcceptableIsAccepted(data: map<string, Json>, resolve: string -> string)
    requires Acceptable(data)
    ensures FromDict(data, resolve).Ok?
  {
    var rawCommands := Get(data, "test_commands", JList([]));
    var rawPaths := Get(data, "allowed_paths", JList([]));
    DecodedExactly(data);
    StringsExactly(Get(data, "acceptance_criteria", JList([])), BadCriteria);
    StringsExactly(rawPaths, BadAllowedPaths);
    CommandsExactly(rawCommands.items);
    PathsExactly(rawPaths);
    ModeExactly(data);
    NormalizeAllIsFilter(NonEmptyStrings(rawPaths, BadAllowedPaths).value);
  }

  /** Exactly the acceptable documents are accepted. */
  lemma AcceptedExactly(data: map<string, Json>, resolve: string -> string)
    ensures FromDict(data, resolve).Ok? <==> Acceptable(data)
    ensures FromDict(data, resolve).Ok? ==> Says(data, resolve, FromDict(data, resolve).value)
  {
    if FromDict(data, resolve).Ok? {
      AcceptedIsAcceptable(data, resolve);
      AcceptedSays(data, resolve);
    }
    if Acceptable(data) {
      AcceptableIsAccepted(data, resolve);
    }
  }

  // ---------- strip ----------

  ghost predicate AllSpace(s: string) {
    forall i | 0 <= i < |s| :: IsSpace(s[i])
  }

  lemma {:induction false} StripLeftCuts(s: string) returns (cut: string)
    ensures AllSpace(cut) && s == cut + StripLeft(s)
  {
    cut := "";
    if s != "" && IsSpace(s[0]) {
      var rest := StripLeftCuts(s[1..]);
      cut := [s[0]] + rest;
      assert s == [s[0]] + s[1..];
    }
  }

  lemma {:induction false} StripRightCuts(s: string) returns (cut: string)
    ensures AllSpace(cut) && s == StripRight(s) + cut
  {
    cut := "";
    if s != "" && IsSpace(s[|s| - 1]) {
      var rest := StripRightCuts(s[..|s| - 1]);
      cut := rest + [s[|s| - 1]];
      assert s == s[..|s| - 1] + [s[|s| - 1]];
    }
  }

  /** Stripping removes spaces at both ends and nothing else, until none is left there. */
  lemma StripCutsSpaces(s: string) returns (left: string, right: string)
    ensures AllSpace(left) && AllSpace(right) && s == left + Strip(s) + right && Trimmed(Strip(s))
  {
    left := StripLeftCuts(s);
    right := StripRightCuts(StripLeft(s));
    StripLeftTrims(s);
    StripRightTrims(StripLeft(s));
  }
}
