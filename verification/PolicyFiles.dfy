/** What the policy fold means in terms of the policy files' own entries. */
module PolicyFiles {
  import opened Wrappers
  import opened Policies
  import PosixPaths

  /** The file states this number in its limits table. */
  predicate StatesNumber(data: map<string, Toml>, name: string, number: real) {
    "limits" in data && data["limits"].TTable? && name in data["limits"].table && data["limits"].table[name] == TNumber(number)
  }

  /** The file lists this path in its deny list. */
  predicate ListsDeny(data: map<string, Toml>, path: string) {
    "paths" in data && data["paths"].TTable? && "deny" in data["paths"].table && data["paths"].table["deny"].TList?
    && TString(path) in data["paths"].table["deny"].items
  }

  predicate RequiresSandbox(data: map<string, Toml>) {
    "sandbox_required" in data && data["sandbox_required"] == TBool(true)
  }

  /** The tables, keys and values a policy file may have. */
  ghost predicate ReadableFile(data: map<string, Toml>) {
    && (forall key | key in data :: key in {"limits", "paths", "sandbox_required"})
    && ("limits" in data ==>
      data["limits"].TTable? && forall key | key in data["limits"].table ::
        && key in {"max_turns", "timeout_seconds", "max_changed_files", "max_diff_lines"}
        && data["limits"].table[key].TNumber? && data["limits"].table[key].number > 0.0)
    && ("paths" in data ==>
      data["paths"].TTable? && forall key | key in data["paths"].table ::
        && key == "deny" && data["paths"].table[key].TList?
        && forall item | item in data["paths"].table[key].items :: item.TString? && PosixPaths.Normalize(item.text).Ok?)
    && ("sandbox_required" in data ==> data["sandbox_required"].TBool?)
  }

  lemma KnownLimits(key: string)
    ensures KnownLimit(key) <==> key in {"max_turns", "timeout_seconds", "max_changed_files", "max_diff_lines"}
  {
    assert AxisName(MaxTurns) == "max_turns" && AxisName(TimeoutSeconds) == "timeout_seconds";
    assert AxisName(MaxChangedFiles) == "max_changed_files" && AxisName(MaxDiffLines) == "max_diff_lines";
  }

  /** A file is accepted exactly when it is readable in this sense. */
  lemma AcceptedExactly(data: map<string, Toml>)
    ensures ParseLayer(data).Ok? <==> ReadableFile(data)
  {
    forall key
      ensures KnownLimit(key) <==> key in {"max_turns", "timeout_seconds", "max_changed_files", "max_diff_lines"}
    {
      KnownLimits(key);
    }
    if ParseLayer(data).Ok? {
      AcceptedIsReadable(data);
    }
    if ReadableFile(data) {
      ReadableIsAccepted(data);
    }
  }

  lemma AcceptedIsReadable(data: map<string, Toml>)
    requires ParseLayer(data).Ok?
    ensures ReadableFile(data)
  {
    if "limits" in data {
      forall key | key in data["limits"].table
        ensures key in {"max_turns", "timeout_seconds", "max_changed_files", "max_diff_lines"}
        ensures PositiveNumber(data["limits"].table[key])
      {
        KnownLimits(key);
        assert KnownLimit(key);
        var axis: Axis :| key == AxisName(axis);
      }
    }
  }

  lemma ReadableIsAccepted(data: map<string, Toml>)
    requires ReadableFile(data)
    ensures ParseLayer(data).Ok?
  {
    forall key | key in Limits(data).table
      ensures KnownLimit(key) && PositiveNumber(Limits(data).table[key])
    {
      KnownLimits(key);
    }
  }

  /** What an accepted file states is what it says, entry by entry. */
  lemma LayerSays(data: map<string, Toml>, layer: Layer)
    requires ParseLayer(data) == Ok(layer)
    ensures forall number: real ::
      (MaxTurns in layer.stated && layer.stated[MaxTurns] == number) <==> StatesNumber(data, "max_turns", number)
    ensures forall number: real ::
      (TimeoutSeconds in layer.stated && layer.stated[TimeoutSeconds] == number) <==> StatesNumber(data, "timeout_seconds", number)
    ensures forall number: real ::
      (MaxChangedFiles in layer.stated && layer.stated[MaxChangedFiles] == number)
        <==> StatesNumber(data, "max_changed_files", number)
    ensures forall number: real ::
      (MaxDiffLines in layer.stated && layer.stated[MaxDiffLines] == number) <==> StatesNumber(data, "max_diff_lines", number)
    ensures forall path :: path in layer.denyPaths <==> ListsDeny(data, path)
    ensures layer.sandboxRequired <==> RequiresSandbox(data)
  {
    forall axis: Axis, number: real
      ensures (axis in layer.stated && layer.stated[axis] == number) <==> StatesNumber(data, AxisName(axis), number)
    {
      assert AxisName(axis) in Limits(data).table ==> PositiveNumber(Limits(data).table[AxisName(axis)]);
    }
    forall path
      ensures path in layer.denyPaths <==> ListsDeny(data, path)
    {
      if path in layer.denyPaths {
        var item :| item in Denies(PathsTable(data).table).items && item.text == path;
        assert item == TString(path);
      }
      if ListsDeny(data, path) {
        assert TString(path).text == path;
      }
    }
  }

  /** The policy obeys what the file says. */
  ghost predicate ObeysFile(p: RouterPolicy, data: map<string, Toml>) {
    && (forall number: real | StatesNumber(data, "max_turns", number) :: p.maxTurns <= number)
    && (forall number: real | StatesNumber(data, "timeout_seconds", number) :: p.timeoutSeconds <= number)
    && (forall number: real | StatesNumber(data, "max_changed_files", number) :: p.maxChangedFiles <= number)
    && (forall number: real | StatesNumber(data, "max_diff_lines", number) :: p.maxDiffLines <= number)
    && (forall path | ListsDeny(data, path) :: path in p.denyPaths)
    && (RequiresSandbox(data) ==> p.sandboxRequired)
  }

  ghost predicate ObeysFloor(p: RouterPolicy, base: RouterPolicy) {
    && p.maxTurns <= base.maxTurns && p.timeoutSeconds <= base.timeoutSeconds
    && p.maxChangedFiles <= base.maxChangedFiles && p.maxDiffLines <= base.maxDiffLines
    && base.denyPaths <= p.denyPaths && (base.sandboxRequired ==> p.sandboxRequired)
  }

  lemma BelowMeans(p: RouterPolicy, base: RouterPolicy)
    ensures Below(p, base) <==> ObeysFloor(p, base)
  {
    assert p.Limit(MaxTurns) == p.maxTurns && p.Limit(TimeoutSeconds) == p.timeoutSeconds;
    assert p.Limit(MaxChangedFiles) == p.maxChangedFiles && p.Limit(MaxDiffLines) == p.maxDiffLines;
    assert base.Limit(MaxTurns) == base.maxTurns && base.Limit(TimeoutSeconds) == base.timeoutSeconds;
    assert base.Limit(MaxChangedFiles) == base.maxChangedFiles && base.Limit(MaxDiffLines) == base.maxDiffLines;
  }

  lemma ObeysMeans(p: RouterPolicy, data: map<string, Toml>, layer: Layer)
    requires ParseLayer(data) == Ok(layer)
    ensures Obeys(p, layer) <==> ObeysFile(p, data)
  {
    LayerSays(data, layer);
    assert p.Limit(MaxTurns) == p.maxTurns && p.Limit(TimeoutSeconds) == p.timeoutSeconds;
    assert p.Limit(MaxChangedFiles) == p.maxChangedFiles && p.Limit(MaxDiffLines) == p.maxDiffLines;
    if ObeysFile(p, data) {
      forall axis: Axis | axis in layer.stated
        ensures p.Limit(axis) <= layer.stated[axis]
      {
        assert layer.stated[axis] == layer.stated[axis];
        match axis {
          case MaxTurns => assert StatesNumber(data, "max_turns", layer.stated[axis]);
          case TimeoutSeconds => assert StatesNumber(data, "timeout_seconds", layer.stated[axis]);
          case MaxChangedFiles => assert StatesNumber(data, "max_changed_files", layer.stated[axis]);
          case MaxDiffLines => assert StatesNumber(data, "max_diff_lines", layer.stated[axis]);
        }
      }
    }
  }

  /**
   The effective policy in the files' own entries: `p` is at least as tight as it exactly when `p` is
   at least as tight as the configuration and obeys every entry of every file.
   */
  lemma EffectiveByEntries(base: RouterPolicy, files: seq<map<string, Toml>>, p: RouterPolicy)
    requires FoldFiles(base, files).Ok?
    ensures ObeysFloor(p, FoldFiles(base, files).value)
       <==> ObeysFloor(p, base) && forall file | file in files :: ObeysFile(p, file)
  {
    var layers := AcceptedFilesParse(base, files);
    FilesFoldAsLayers(base, files, layers);
    EffectiveIsGreatestLowerBound(base, layers, p);
    BelowMeans(p, base);
    BelowMeans(p, FoldFiles(base, files).value);
    forall i | 0 <= i < |files|
      ensures Obeys(p, layers[i]) <==> ObeysFile(p, files[i])
    {
      assert ParseLayer(files[i]) == Ok(layers[i]);
      ObeysMeans(p, files[i], layers[i]);
    }
    if forall file | file in files :: ObeysFile(p, file) {
      forall layer | layer in layers
        ensures Obeys(p, layer)
      {
        var i :| 0 <= i < |layers| && layers[i] == layer;
        assert files[i] in files;
      }
    }
    if forall layer | layer in layers :: Obeys(p, layer) {
      forall file | file in files
        ensures ObeysFile(p, file)
      {
        var i :| 0 <= i < |files| && files[i] == file;
        assert layers[i] in layers;
      }
    }
  }

  /** The effective policy itself obeys the configuration and every file. */
  lemma EffectiveObeys(base: RouterPolicy, files: seq<map<string, Toml>>)
    requires FoldFiles(base, files).Ok?
    ensures ObeysFloor(FoldFiles(base, files).value, base)
    ensures forall file | file in files :: ObeysFile(FoldFiles(base, files).value, file)
  {
    EffectiveByEntries(base, files, FoldFiles(base, files).value);
  }
}
