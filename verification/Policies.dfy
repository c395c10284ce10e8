/**
 The policy fold: a configuration floor, an optional global file and an optional project file,
 each of which may only tighten what is already folded.
 */
module Policies {
  import opened Wrappers
  import PosixPaths

  datatype Axis = MaxTurns | TimeoutSeconds | MaxChangedFiles | MaxDiffLines

  const AXES: seq<Axis> := [MaxTurns, TimeoutSeconds, MaxChangedFiles, MaxDiffLines]

  function AxisIndex(axis: Axis): (index: nat)
    ensures index < |AXES| && AXES[index] == axis
  {
    match axis
    case MaxTurns => 0
    case TimeoutSeconds => 1
    case MaxChangedFiles => 2
    case MaxDiffLines => 3
  }

  function AxisName(axis: Axis): string {
    match axis
    case MaxTurns => "max_turns"
    case TimeoutSeconds => "timeout_seconds"
    case MaxChangedFiles => "max_changed_files"
    case MaxDiffLines => "max_diff_lines"
  }

  /** A policy slice. The source keeps `deny_paths` as a sorted tuple without duplicates: a set. */
  datatype RouterPolicy = RouterPolicy(
    maxTurns: real,
    timeoutSeconds: real,
    maxChangedFiles: real,
    maxDiffLines: real,
    denyPaths: set<string>,
    sandboxRequired: bool)
  {
    function Limit(axis: Axis): real {
      match axis
      case MaxTurns => maxTurns
      case TimeoutSeconds => timeoutSeconds
      case MaxChangedFiles => maxChangedFiles
      case MaxDiffLines => maxDiffLines
    }

    predicate Positive() {
      forall axis: Axis :: Limit(axis) > 0.0
    }
  }

  const BUILTIN_DENY_PATHS: set<string> := {".git", ".claude-worker-router"}

  /** A decoded TOML value. */
  datatype Toml =
    | TNumber(number: real)
    | TBool(flag: bool)
    | TString(text: string)
    | TList(items: seq<Toml>)
    | TTable(table: map<string, Toml>)

  datatype PolicyError = Malformed | Relaxation(axis: Axis)

  /** What one policy file states; an axis that is absent is inherited. */
  datatype Layer = Layer(stated: map<Axis, real>, denyPaths: set<string>, sandboxRequired: bool)

  // ---------- reading one file ----------

  predicate KnownLimit(key: string) {
    exists axis: Axis :: key == AxisName(axis)
  }

  function Limits(data: map<string, Toml>): Toml {
    if "limits" in data then data["limits"] else TTable(map[])
  }

  function PathsTable(data: map<string, Toml>): Toml {
    if "paths" in data then data["paths"] else TTable(map[])
  }

  function Denies(paths: map<string, Toml>): Toml {
    if "deny" in paths then paths["deny"] else TList([])
  }

  function Sandbox(data: map<string, Toml>): Toml {
    if "sandbox_required" in data then data["sandbox_required"] else TBool(false)
  }

  /** Only known tables and keys, each of the right type. */
  predicate WellShaped(data: map<string, Toml>) {
    && data.Keys <= {"limits", "paths", "sandbox_required"}
    && Limits(data).TTable? && (forall key | key in Limits(data).table :: KnownLimit(key))
    && PathsTable(data).TTable? && PathsTable(data).table.Keys <= {"deny"}
    && Denies(PathsTable(data).table).TList?
    && (forall item | item in Denies(PathsTable(data).table).items :: item.TString?)
    && Sandbox(data).TBool?
  }

  predicate PositiveNumber(value: Toml) {
    value.TNumber? && value.number > 0.0
  }

  predicate NormalDenies(items: seq<Toml>) {
    forall item | item in items :: item.TString? && PosixPaths.Normalize(item.text).Ok?
  }

  /** The statements of a file, or the reason it is refused. */
  function ParseLayer(data: map<string, Toml>): Result<Layer, PolicyError> {
    if !WellShaped(data) then Err(Malformed)
    else
      var limits := Limits(data).table;
      var denies := Denies(PathsTable(data).table).items;
      if exists axis: Axis :: AxisName(axis) in limits && !PositiveNumber(limits[AxisName(axis)]) then Err(Malformed)
      else if !NormalDenies(denies) then Err(Malformed)
      else
        Ok(Layer(
          map axis: Axis | AxisName(axis) in limits :: limits[AxisName(axis)].number,
          set item | item in denies :: item.text,
          Sandbox(data).flag))
  }

  /** The policy of a layer whose absent axes come from `defaults`. */
  function Inherit(layer: Layer, defaults: RouterPolicy): RouterPolicy {
    RouterPolicy(
      Stated(layer, MaxTurns, defaults), Stated(layer, TimeoutSeconds, defaults),
      Stated(layer, MaxChangedFiles, defaults), Stated(layer, MaxDiffLines, defaults),
      layer.denyPaths, layer.sandboxRequired)
  }

  function Stated(layer: Layer, axis: Axis, defaults: RouterPolicy): real {
    if axis in layer.stated then layer.stated[axis] else defaults.Limit(axis)
  }

  /** `load_policy_file`: collect the four numbers, then let the policy constructor validate them. */
  method LoadPolicyFile(data: map<string, Toml>, defaults: RouterPolicy)
    returns (r: Result<RouterPolicy, PolicyError>)
    requires defaults.Positive()
    ensures r == match ParseLayer(data) case Err(e) => Err(e) case Ok(layer) => Ok(Inherit(layer, defaults))
  {
    if !WellShaped(data) {
      return Err(Malformed);
    }
    var limits := Limits(data).table;
    var numerics: map<Axis, Toml> := map[];
    for i := 0 to |AXES|
      invariant forall k | 0 <= k < i :: AXES[k] in numerics
      invariant forall axis | axis in numerics ::
        numerics[axis] == if AxisName(axis) in limits then limits[AxisName(axis)] else TNumber(defaults.Limit(axis))
    {
      var axis := AXES[i];
      numerics := numerics[axis := if AxisName(axis) in limits then limits[AxisName(axis)] else TNumber(defaults.Limit(axis))];
    }
    assert forall axis: Axis :: axis == AXES[AxisIndex(axis)] && axis in numerics;
    var denies := Denies(PathsTable(data).table).items;
    if exists axis: Axis :: !PositiveNumber(numerics[axis]) {
      return Err(Malformed);
    }
    if !NormalDenies(denies) {
      return Err(Malformed);
    }
    r := Ok(RouterPolicy(
      numerics[MaxTurns].number, numerics[TimeoutSeconds].number,
      numerics[MaxChangedFiles].number, numerics[MaxDiffLines].number,
      set item | item in denies :: item.text, Sandbox(data).flag));
  }

  // ---------- folding layers ----------

  /** `_check_relaxation`: the first axis on which `project` exceeds `folded`. */
  function FirstRelaxed(folded: RouterPolicy, project: RouterPolicy): Option<Axis> {
    if project.maxTurns > folded.maxTurns then Some(MaxTurns)
    else if project.timeoutSeconds > folded.timeoutSeconds then Some(TimeoutSeconds)
    else if project.maxChangedFiles > folded.maxChangedFiles then Some(MaxChangedFiles)
    else if project.maxDiffLines > folded.maxDiffLines then Some(MaxDiffLines)
    else None
  }

  function Min(a: real, b: real): real {
    if a <= b then a else b
  }

  /** `merge_policy` */
  function MergePolicy(folded: RouterPolicy, project: RouterPolicy): Result<RouterPolicy, PolicyError> {
    match FirstRelaxed(folded, project)
    case Some(axis) => Err(Relaxation(axis))
    case None =>
      Ok(RouterPolicy(
        Min(folded.maxTurns, project.maxTurns),
        Min(folded.timeoutSeconds, project.timeoutSeconds),
        Min(folded.maxChangedFiles, project.maxChangedFiles),
        Min(folded.maxDiffLines, project.maxDiffLines),
        folded.denyPaths + project.denyPaths,
        folded.sandboxRequired || project.sandboxRequired))
  }

  /** Fold files in order, each inheriting from what is folded so far. */
  function FoldFiles(base: RouterPolicy, files: seq<map<string, Toml>>): Result<RouterPolicy, PolicyError>
    decreases |files|
  {
    if files == [] then Ok(base)
    else
      var layer :- ParseLayer(files[0]);
      var merged :- MergePolicy(base, Inherit(layer, base));
      FoldFiles(merged, files[1..])
  }

  function PresentFiles(globalFile: Option<map<string, Toml>>, projectFile: Option<map<string, Toml>>)
    : seq<map<string, Toml>>
  {
    (if globalFile.Some? then [globalFile.value] else []) + (if projectFile.Some? then [projectFile.value] else [])
  }

  /** `resolve_effective_policy`: fold the layers that exist, global before project. */
  method ResolveEffectivePolicy(
    base: RouterPolicy, globalFile: Option<map<string, Toml>>, projectFile: Option<map<string, Toml>>)
    returns (r: Result<RouterPolicy, PolicyError>)
    requires base.Positive()
    ensures r == FoldFiles(base, PresentFiles(globalFile, projectFile))
    ensures r.Ok? ==> r.value.Positive()
  {
    var effective := base;
    if globalFile.Some? {
      var loaded :- LoadPolicyFile(globalFile.value, base);
      effective :- MergePolicy(effective, loaded);
      MergePositive(base, globalFile.value);
    }
    ghost var files := PresentFiles(globalFile, projectFile);
    ghost var projectOnly := if projectFile.Some? then [projectFile.value] else [];
    assert globalFile.Some? ==> files[1..] == projectOnly;
    assert FoldFiles(base, files) == FoldFiles(effective, projectOnly);
    if projectFile.Some? {
      var floor := effective;
      var loaded :- LoadPolicyFile(projectFile.value, floor);
      effective :- MergePolicy(effective, loaded);
      MergePositive(floor, projectFile.value);
    }
    r := Ok(effective);
  }

  lemma MergePositive(base: RouterPolicy, file: map<string, Toml>)
    requires base.Positive() && ParseLayer(file).Ok?
    ensures var merged := MergePolicy(base, Inherit(ParseLayer(file).value, base));
      merged.Ok? ==> merged.value.Positive()
  {
    var layer := ParseLayer(file).value;
    forall axis: Axis
      ensures Stated(layer, axis, base) > 0.0
    {
      if axis in layer.stated {
        assert PositiveNumber(Limits(file).table[AxisName(axis)]);
      } else {
        assert base.Limit(axis) > 0.0;
      }
    }
  }

  // ---------- the order on policies ----------

  /** `p` is at least as tight as `q` on every axis. */
  ghost predicate Below(p: RouterPolicy, q: RouterPolicy) {
    && (forall axis: Axis :: p.Limit(axis) <= q.Limit(axis))
    && q.denyPaths <= p.denyPaths
    && (q.sandboxRequired ==> p.sandboxRequired)
  }

  /** `p` obeys everything a layer states. */
  ghost predicate Obeys(p: RouterPolicy, layer: Layer) {
    && (forall axis: Axis | axis in layer.stated :: p.Limit(axis) <= layer.stated[axis])
    && layer.denyPaths <= p.denyPaths
    && (layer.sandboxRequired ==> p.sandboxRequired)
  }

  /** Fold layers whose files have been read. */
  function FoldLayers(base: RouterPolicy, layers: seq<Layer>): Result<RouterPolicy, PolicyError>
    decreases |layers|
  {
    if layers == [] then Ok(base)
    else
      var merged :- MergePolicy(base, Inherit(layers[0], base));
      FoldLayers(merged, layers[1..])
  }

  /** Every file is accepted by the parser, and `layers` is what they state. */
  ghost predicate Parsed(files: seq<map<string, Toml>>, layers: seq<Layer>) {
    |layers| == |files| && forall i | 0 <= i < |files| :: ParseLayer(files[i]) == Ok(layers[i])
  }

  lemma {:induction false} FilesFoldAsLayers(base: RouterPolicy, files: seq<map<string, Toml>>, layers: seq<Layer>)
    requires Parsed(files, layers)
    ensures FoldFiles(base, files) == FoldLayers(base, layers)
    decreases |files|
  {
    if files != [] {
      var merge := MergePolicy(base, Inherit(layers[0], base));
      assert ParseLayer(files[0]) == Ok(layers[0]);
      if merge.Ok? {
        FilesFoldAsLayers(merge.value, files[1..], layers[1..]);
      }
    }
  }

  /** An accepted fold read every file. */
  lemma {:induction false} AcceptedFilesParse(base: RouterPolicy, files: seq<map<string, Toml>>) returns (layers: seq<Layer>)
    requires FoldFiles(base, files).Ok?
    ensures Parsed(files, layers)
    decreases |files|
  {
    layers := [];
    if files != [] {
      var layer := ParseLayer(files[0]).value;
      var rest := AcceptedFilesParse(MergePolicy(base, Inherit(layer, base)).value, files[1..]);
      layers := [layer] + rest;
    }
  }

  lemma MergedLimit(base: RouterPolicy, layer: Layer, axis: Axis)
    requires MergePolicy(base, Inherit(layer, base)).Ok?
    ensures MergePolicy(base, Inherit(layer, base)).value.Limit(axis)
         == if axis in layer.stated then Min(base.Limit(axis), layer.stated[axis]) else base.Limit(axis)
  {
  }

  lemma MergeIsMeet(base: RouterPolicy, layer: Layer, p: RouterPolicy)
    requires MergePolicy(base, Inherit(layer, base)).Ok?
    ensures Below(p, MergePolicy(base, Inherit(layer, base)).value) <==> Below(p, base) && Obeys(p, layer)
  {
    var merged := MergePolicy(base, Inherit(layer, base)).value;
    forall axis: Axis
      ensures p.Limit(axis) <= merged.Limit(axis)
         <==> p.Limit(axis) <= base.Limit(axis) && (axis in layer.stated ==> p.Limit(axis) <= layer.stated[axis])
    {
      MergedLimit(base, layer, axis);
    }
  }

  /**
   The fold yields the greatest policy below every layer: `p` is below the effective policy
   iff it is below the floor and obeys every layer.
   */
  lemma {:induction false} EffectiveIsGreatestLowerBound(base: RouterPolicy, layers: seq<Layer>, p: RouterPolicy)
    requires FoldLayers(base, layers).Ok?
    ensures Below(p, FoldLayers(base, layers).value)
       <==> Below(p, base) && forall layer | layer in layers :: Obeys(p, layer)
    decreases |layers|
  {
    if layers != [] {
      MergeIsMeet(base, layers[0], p);
      EffectiveIsGreatestLowerBound(MergePolicy(base, Inherit(layers[0], base)).value, layers[1..], p);
      assert layers == [layers[0]] + layers[1..];
    }
  }

  /** The tightest number for an axis among the floor and the first `n` layers that state it. */
  function Floor(base: RouterPolicy, layers: seq<Layer>, n: nat, axis: Axis): real
    requires n <= |layers|
  {
    if n == 0 then base.Limit(axis)
    else
      var below := Floor(base, layers, n - 1, axis);
      if axis in layers[n - 1].stated then Min(below, layers[n - 1].stated[axis]) else below
  }

  /** Layer `i` states a number above everything folded before it. */
  predicate Relaxes(base: RouterPolicy, layers: seq<Layer>, i: nat, axis: Axis)
    requires i < |layers|
  {
    axis in layers[i].stated && layers[i].stated[axis] > Floor(base, layers, i, axis)
  }

  lemma {:induction false} FloorAfterFirst(
    base: RouterPolicy, merged: RouterPolicy, layers: seq<Layer>, n: nat, axis: Axis)
    requires 1 <= n <= |layers|
    requires MergePolicy(base, Inherit(layers[0], base)) == Ok(merged)
    ensures Floor(base, layers, n, axis) == Floor(merged, layers[1..], n - 1, axis)
  {
    if n == 1 {
      MergedLimit(base, layers[0], axis);
    } else {
      FloorAfterFirst(base, merged, layers, n - 1, axis);
      assert layers[1..][n - 2] == layers[n - 1];
    }
  }

  lemma MergeRefusesExactly(base: RouterPolicy, layer: Layer)
    ensures MergePolicy(base, Inherit(layer, base)).Err?
       <==> exists axis: Axis :: axis in layer.stated && layer.stated[axis] > base.Limit(axis)
    ensures MergePolicy(base, Inherit(layer, base)).Err? ==>
      var e := MergePolicy(base, Inherit(layer, base)).error;
      e.Relaxation? && e.axis in layer.stated && layer.stated[e.axis] > base.Limit(e.axis)
  {
    assert forall axis: Axis :: Inherit(layer, base).Limit(axis) == Stated(layer, axis, base);
  }

  /**
   Layers are refused exactly when some layer states a number above what is already folded; an
   axis a layer leaves out never causes a refusal.
   */
  lemma {:induction false} RefusedExactlyOnRelaxation(base: RouterPolicy, layers: seq<Layer>)
    ensures FoldLayers(base, layers).Err? <==> exists i, axis | 0 <= i < |layers| :: Relaxes(base, layers, i, axis)
    ensures FoldLayers(base, layers).Err? ==> FoldLayers(base, layers).error.Relaxation?
    decreases |layers|
  {
    if layers != [] {
      var rest := layers[1..];
      var merge := MergePolicy(base, Inherit(layers[0], base));
      MergeRefusesExactly(base, layers[0]);
      if merge.Err? {
        assert Relaxes(base, layers, 0, merge.error.axis);
      } else {
        RefusedExactlyOnRelaxation(merge.value, rest);
        assert forall axis: Axis :: !Relaxes(base, layers, 0, axis);
        forall j, axis | 0 <= j < |rest|
          ensures Relaxes(base, layers, j + 1, axis) <==> Relaxes(merge.value, rest, j, axis)
        {
          FloorAfterFirst(base, merge.value, layers, j + 1, axis);
        }
        if i, axis :| 0 <= i < |layers| && Relaxes(base, layers, i, axis) {
          assert Relaxes(merge.value, rest, i - 1, axis);
        }
      }
    }
  }

  /** The effective policy never exceeds the configuration floor. */
  lemma EffectiveBelowFloor(base: RouterPolicy, files: seq<map<string, Toml>>)
    requires FoldFiles(base, files).Ok?
    ensures Below(FoldFiles(base, files).value, base)
  {
    var layers := AcceptedFilesParse(base, files);
    FilesFoldAsLayers(base, files, layers);
    EffectiveIsGreatestLowerBound(base, layers, FoldLayers(base, layers).value);
  }

  /** Every number of the effective policy is positive. */
  lemma {:induction false} EffectivePositive(base: RouterPolicy, files: seq<map<string, Toml>>)
    requires base.Positive() && FoldFiles(base, files).Ok?
    ensures FoldFiles(base, files).value.Positive()
    decreases |files|
  {
    if files != [] {
      MergePositive(base, files[0]);
      EffectivePositive(MergePolicy(base, Inherit(ParseLayer(files[0]).value, base)).value, files[1..]);
    }
  }
}
