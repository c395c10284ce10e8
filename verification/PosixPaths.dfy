/**
 Pure POSIX path arithmetic: the part of `PurePosixPath` the router relies on, the scope tests
 built on it (`paths_conflict`, `_is_allowed_path`, the two deny gates) and the encoding of a
 repository and a path as one synthetic path.
 */
module PosixPaths {
  import opened Wrappers

  // ---------- splitting and joining on '/' ----------

  predicate Slashless(s: string) {
    '/' !in s
  }

  /** `value.split("/")` */
  function Split(s: string): (parts: seq<string>)
    ensures |parts| >= 1
    ensures forall i | 0 <= i < |parts| :: Slashless(parts[i])
  {
    if s == "" then [""]
    else
      var rest := Split(s[1..]);
      if s[0] == '/' then [""] + rest else rest[0 := [s[0]] + rest[0]]
  }

  /** `"/".join(parts)` */
  function Join(parts: seq<string>): string {
    if |parts| == 0 then ""
    else if |parts| == 1 then parts[0]
    else parts[0] + "/" + Join(parts[1..])
  }

  lemma {:induction false} JoinSplit(s: string)
    ensures Join(Split(s)) == s
  {
    if s != "" {
      var rest := Split(s[1..]);
      JoinSplit(s[1..]);
      assert Split(s)[1..] == if s[0] == '/' then rest else rest[1..];
    }
  }

  /** Splitting distributes over a separator. */
  lemma {:induction false} SplitConcat(a: string, b: string)
    ensures Split(a + "/" + b) == Split(a) + Split(b)
  {
    var whole := a + "/" + b;
    if a == "" {
      assert whole[1..] == b;
    } else {
      SplitConcat(a[1..], b);
      assert whole[1..] == a[1..] + "/" + b;
      assert (Split(a[1..]) + Split(b))[0] == Split(a[1..])[0];
    }
  }

  lemma {:induction false} SplitSlashless(s: string)
    requires Slashless(s)
    ensures Split(s) == [s]
  {
    if s != "" {
      assert s[0] in s && Slashless(s[1..]);
      SplitSlashless(s[1..]);
      assert s == [s[0]] + s[1..];
    }
  }

  lemma {:induction false} SplitJoin(parts: seq<string>)
    requires parts != [] && forall i | 0 <= i < |parts| :: Slashless(parts[i])
    ensures Split(Join(parts)) == parts
  {
    SplitSlashless(parts[0]);
    if |parts| > 1 {
      SplitJoin(parts[1..]);
      SplitConcat(parts[0], Join(parts[1..]));
    }
  }

  // ---------- PurePosixPath ----------

  predicate Absolute(s: string) {
    s != "" && s[0] == '/'
  }

  /** The root part: none, "/", or "//" for exactly two leading slashes. */
  function Root(s: string): seq<string> {
    if !Absolute(s) then []
    else if |s| >= 2 && s[1] == '/' && (|s| == 2 || s[2] != '/') then ["//"]
    else ["/"]
  }

  /** A component `PurePosixPath` keeps: not empty and not ".". */
  predicate Kept(part: string) {
    part != "" && part != "."
  }

  function Components(raw: seq<string>): seq<string> {
    if raw == [] then []
    else if Kept(raw[0]) then [raw[0]] + Components(raw[1..])
    else Components(raw[1..])
  }

  /** `PurePosixPath(s).parts` */
  function Parts(s: string): seq<string> {
    Root(s) + Components(Split(s))
  }

  /** `str(path)` of a path with these parts. */
  function Str(parts: seq<string>): string {
    if parts == [] then "."
    else if parts[0] == "/" || parts[0] == "//" then parts[0] + Join(parts[1..])
    else Join(parts)
  }

  lemma {:induction false} ComponentsConcat(a: seq<string>, b: seq<string>)
    ensures Components(a + b) == Components(a) + Components(b)
  {
    if a == [] {
      assert a + b == b;
    } else {
      ComponentsConcat(a[1..], b);
      assert (a + b)[1..] == a[1..] + b;
    }
  }

  lemma {:induction false} ComponentsArePlain(raw: seq<string>)
    requires forall i | 0 <= i < |raw| :: Slashless(raw[i])
    ensures forall i | 0 <= i < |Components(raw)| :: Plain(Components(raw)[i])
  {
    if raw != [] {
      ComponentsArePlain(raw[1..]);
    }
  }

  lemma {:induction false} ComponentsKept(raw: seq<string>)
    requires forall i | 0 <= i < |raw| :: Kept(raw[i])
    ensures Components(raw) == raw
  {
    if raw != [] {
      ComponentsKept(raw[1..]);
    }
  }

  /** A plain path component: what one directory entry can be called. */
  predicate Plain(part: string) {
    Slashless(part) && Kept(part)
  }

  /** Appending one component to a relative path appends one part. */
  lemma PartsOfChild(dir: string, name: string)
    requires dir != "" && !Absolute(dir) && Plain(name)
    ensures Parts(dir + "/" + name) == Parts(dir) + [name]
  {
    SplitConcat(dir, name);
    SplitSlashless(name);
    ComponentsConcat(Split(dir), [name]);
  }

  // ---------- normalization of request and policy paths ----------

  datatype PathError = UnsafePath

  /** `_normalize_allowed_path` and `_normalize_path`, which are the same function. */
  function Normalize(value: string): Result<string, PathError> {
    if exists part | part in Split(value) :: part in ["", ".", ".."] then Err(UnsafePath)
    else if Absolute(value) || Parts(value) == [] then Err(UnsafePath)
    else Ok(Str(Parts(value)))
  }

  /**
   Normalization either refuses a path or returns it unchanged, and it accepts exactly the
   relative paths without empty, "." or ".." components: the later checks never fire on their own.
   */
  lemma NormalizeIsFilter(value: string)
    ensures Normalize(value).Ok? <==> forall part | part in Split(value) :: part !in ["", ".", ".."]
    ensures Normalize(value).Ok? ==> Normalize(value).value == value && !Absolute(value) && value != ""
    ensures Normalize(value).Ok? ==> Parts(value) == Split(value)
  {
    var raw := Split(value);
    assert raw[0] in raw;
    assert Absolute(value) || value == "" ==> raw[0] == "";
    if forall part | part in raw :: part !in ["", ".", ".."] {
      assert forall i | 0 <= i < |raw| :: raw[i] in raw && Kept(raw[i]);
      ComponentsKept(raw);
      assert Parts(value) == raw;
      assert Slashless(raw[0]);
      assert raw[0] != "/" && raw[0] != "//" by {
        assert '/' in "/" && '/' in "//";
      }
      JoinSplit(value);
    }
  }

  /** One plain component other than ".." is a normal path with that one part. */
  lemma PlainPath(name: string)
    requires Plain(name) && name != ".."
    ensures Parts(name) == [name] && Normalize(name) == Ok(name)
  {
    SplitSlashless(name);
    NormalizeIsFilter(name);
    ComponentsKept([name]);
    assert !Absolute(name) by {
      assert name[0] in name;
    }
  }

  // ---------- scopes ----------

  /** `_is_prefix(candidate, base)` */
  predicate IsPrefix(candidate: string, base: string) {
    Parts(base) <= Parts(candidate)
  }

  /** `paths_conflict`: some entry of one scope lies at or under an entry of the other. */
  predicate PathsConflict(left: seq<string>, right: seq<string>) {
    exists l, r | l in left && r in right :: IsPrefix(l, r) || IsPrefix(r, l)
  }

  /** `_is_allowed_path` */
  predicate UnderAny(path: string, roots: seq<string>) {
    exists root | root in roots :: IsPrefix(path, root)
  }

  lemma PrefixesOfOnePath(a: seq<string>, b: seq<string>, whole: seq<string>)
    ensures a <= whole && b <= whole ==> a <= b || b <= a
  {
    if |a| <= |b| {
      assert a <= whole && b <= whole ==> a == whole[..|a|] == b[..|a|];
    } else {
      assert a <= whole && b <= whole ==> b == whole[..|b|] == a[..|b|];
    }
  }

  /** The conflict test is exact: two scopes conflict iff some file lies in both of them. */
  lemma ConflictIsSharedFile(left: seq<string>, right: seq<string>)
    ensures PathsConflict(left, right) <==> exists file: string :: UnderAny(file, left) && UnderAny(file, right)
  {
    if PathsConflict(left, right) {
      var l, r :| l in left && r in right && (IsPrefix(l, r) || IsPrefix(r, l));
      var file := if IsPrefix(l, r) then l else r;
      assert IsPrefix(file, l) && IsPrefix(file, r);
      assert UnderAny(file, left) && UnderAny(file, right);
    }
    forall file: string | UnderAny(file, left) && UnderAny(file, right)
      ensures PathsConflict(left, right)
    {
      var l :| l in left && IsPrefix(file, l);
      var r :| r in right && IsPrefix(file, r);
      PrefixesOfOnePath(Parts(l), Parts(r), Parts(file));
    }
  }

  lemma {:induction false} JoinConcat(a: seq<string>, b: seq<string>)
    requires a != [] && b != []
    ensures Join(a + b) == Join(a) + "/" + Join(b)
  {
    if |a| > 1 {
      JoinConcat(a[1..], b);
      assert (a + b)[1..] == a[1..] + b;
    } else {
      assert (a + b)[1..] == b;
    }
  }

  /** Between normal paths, being at or under a path is being it or starting with it and a slash. */
  lemma PrefixIsDirectory(path: string, dir: string)
    requires Normalize(path).Ok? && Normalize(dir).Ok?
    ensures IsPrefix(path, dir) <==> path == dir || dir + "/" <= path
  {
    NormalizeIsFilter(path);
    NormalizeIsFilter(dir);
    JoinSplit(path);
    JoinSplit(dir);
    var p, d := Split(path), Split(dir);
    if d <= p {
      if |d| < |p| {
        assert p == d + p[|d|..];
        JoinConcat(d, p[|d|..]);
      } else {
        assert d == p;
      }
    }
    if dir + "/" <= path {
      var rest := path[|dir| + 1..];
      assert path == dir + "/" + rest;
      SplitConcat(dir, rest);
    }
  }

  // ---------- the two deny gates ----------

  /** `_file_under_any` and `_scope_hits_denies`: at or under a denied path. */
  predicate Denied(path: string, denies: set<string>) {
    exists deny | deny in denies :: IsPrefix(path, deny)
  }

  predicate StrictlyUnder(path: string, scope: string) {
    Parts(scope) < Parts(path)
  }

  /** There is a name longer than every component of every denied path. */
  lemma {:induction false} FreshName(denies: set<string>) returns (name: string)
    ensures Plain(name) && |name| >= 2
    ensures forall deny, part | deny in denies && part in Parts(deny) :: |part| < |name|
    decreases denies
  {
    name := "xx";
    if denies != {} {
      var deny :| deny in denies;
      var rest := FreshName(denies - {deny});
      name := LongerThan(Parts(deny), rest);
    }
  }

  function LongerThan(parts: seq<string>, name: string): (longer: string)
    requires Plain(name) && |name| >= 2
    ensures Plain(longer) && |longer| >= |name|
    ensures forall p | p in parts :: |p| < |longer|
  {
    if parts == [] then name
    else
      var rest := LongerThan(parts[1..], name);
      rest + seq(|parts[0]| + 1, i => 'x')
  }

  /**
   The static gate agrees with the dynamic one: a scope is refused before the run iff every path
   strictly below it would be denied after the run. So a scope that passes the static gate
   always leaves the worker something it may write.
   */
  lemma DenyGatesAgree(scope: string, denies: set<string>)
    requires scope != "" && !Absolute(scope)
    ensures Denied(scope, denies) <==> forall path | StrictlyUnder(path, scope) :: Denied(path, denies)
  {
    if Denied(scope, denies) {
      var deny :| deny in denies && IsPrefix(scope, deny);
      forall path | StrictlyUnder(path, scope)
        ensures Denied(path, denies)
      {
        assert Parts(deny) == Parts(scope)[..|Parts(deny)|] == Parts(path)[..|Parts(deny)|];
        assert IsPrefix(path, deny);
      }
    } else {
      var name := FreshName(denies);
      var path := scope + "/" + name;
      PartsOfChild(scope, name);
      assert StrictlyUnder(path, scope);
      forall deny | deny in denies
        ensures !IsPrefix(path, deny)
      {
        PrefixOfChild(Parts(deny), Parts(scope), name);
      }
    }
  }

  /** A prefix of a child is the child itself or a prefix of its parent. */
  lemma PrefixOfChild(prefix: seq<string>, parent: seq<string>, name: string)
    ensures prefix <= parent + [name] ==> name in prefix || prefix <= parent
  {
    var child := parent + [name];
    if |prefix| == |child| {
      assert prefix <= child ==> prefix == child && child[|parent|] in prefix;
    } else {
      assert prefix <= child ==> prefix == child[..|prefix|] == parent[..|prefix|];
    }
  }

  // ---------- repository and path as one synthetic path ----------

  const SCOPE_ROOT: seq<string> := ["/", "__router-repos"]

  /** `str(PurePosixPath("/__router-repos/<key>") / path)`; an absolute path replaces the root. */
  function Compose(key: string, path: string): string {
    if Absolute(path) then Str(Parts(path)) else Str(SCOPE_ROOT + [key] + Parts(path))
  }

  lemma PartsOfCompose(key: string, path: string)
    requires Plain(key) && !Absolute(path)
    ensures Parts(Compose(key, path)) == SCOPE_ROOT + [key] + Parts(path)
  {
    var tail := ["__router-repos", key] + Parts(path);
    assert SCOPE_ROOT + [key] + Parts(path) == ["/"] + tail;
    assert (["/"] + tail)[1..] == tail;
    assert Plain("__router-repos");
    ComponentsArePlain(Split(path));
    SplitJoin(tail);
    ComponentsKept(tail);
    PartsUnderRoot(tail, Join(tail));
  }

  lemma PartsUnderRoot(tail: seq<string>, joined: string)
    requires Split(joined) == tail && Components(tail) == tail && joined != "" && joined[0] != '/'
    ensures Parts("/" + joined) == ["/"] + tail
  {
    assert "/" + joined == "" + "/" + joined;
    SplitConcat("", joined);
    ComponentsConcat([""], tail);
  }

  function ComposeAll(key: string, scope: seq<string>): seq<string> {
    seq(|scope|, i requires 0 <= i < |scope| => Compose(key, scope[i]))
  }

  predicate RelativeScope(scope: seq<string>) {
    forall path | path in scope :: !Absolute(path)
  }

  lemma ComposedPrefix(k1: string, p1: string, k2: string, p2: string)
    requires Plain(k1) && Plain(k2) && !Absolute(p1) && !Absolute(p2)
    ensures IsPrefix(Compose(k1, p1), Compose(k2, p2)) <==> k1 == k2 && IsPrefix(p1, p2)
  {
    PartsOfCompose(k1, p1);
    PartsOfCompose(k2, p2);
    PrefixUnderKey(k1, Parts(p1), k2, Parts(p2));
  }

  lemma PrefixUnderKey(k1: string, a: seq<string>, k2: string, b: seq<string>)
    ensures SCOPE_ROOT + [k2] + b <= SCOPE_ROOT + [k1] + a <==> k1 == k2 && b <= a
  {
    var left, right := SCOPE_ROOT + [k1] + a, SCOPE_ROOT + [k2] + b;
    assert left[2] == k1 && right[2] == k2 && left[3..] == a && right[3..] == b;
    assert right <= left ==> right[3..] == left[..|right|][3..] == a[..|b|];
  }

  /** The encoding is exact: composed scopes conflict iff the keys agree and the raw scopes conflict. */
  lemma ComposedConflict(k1: string, s1: seq<string>, k2: string, s2: seq<string>)
    requires Plain(k1) && Plain(k2) && RelativeScope(s1) && RelativeScope(s2)
    ensures PathsConflict(ComposeAll(k1, s1), ComposeAll(k2, s2)) <==> k1 == k2 && PathsConflict(s1, s2)
  {
    ConflictByIndex(s1, s2);
    ConflictByIndex(ComposeAll(k1, s1), ComposeAll(k2, s2));
    forall i, j | 0 <= i < |s1| && 0 <= j < |s2|
      ensures EntriesConflict(ComposeAll(k1, s1), i, ComposeAll(k2, s2), j) <==> k1 == k2 && EntriesConflict(s1, i, s2, j)
    {
      ComposedPrefix(k1, s1[i], k2, s2[j]);
      ComposedPrefix(k2, s2[j], k1, s1[i]);
    }
  }

  predicate EntriesConflict(left: seq<string>, i: nat, right: seq<string>, j: nat)
    requires i < |left| && j < |right|
  {
    IsPrefix(left[i], right[j]) || IsPrefix(right[j], left[i])
  }

  lemma ConflictByIndex(left: seq<string>, right: seq<string>)
    ensures PathsConflict(left, right)
       <==> exists i, j | 0 <= i < |left| && 0 <= j < |right| :: EntriesConflict(left, i, right, j)
  {
    if PathsConflict(left, right) {
      var l, r :| l in left && r in right && (IsPrefix(l, r) || IsPrefix(r, l));
      var i :| 0 <= i < |left| && left[i] == l;
      var j :| 0 <= j < |right| && right[j] == r;
      assert EntriesConflict(left, i, right, j);
    }
  }

  /** With a key function that separates repositories, conflict is per repository. */
  lemma ConflictIsPerRepository(
    key: string -> string, repo1: string, s1: seq<string>, repo2: string, s2: seq<string>)
    requires Plain(key(repo1)) && Plain(key(repo2)) && (key(repo1) == key(repo2) ==> repo1 == repo2)
    requires RelativeScope(s1) && RelativeScope(s2)
    ensures PathsConflict(ComposeAll(key(repo1), s1), ComposeAll(key(repo2), s2))
       <==> repo1 == repo2 && exists file: string :: UnderAny(file, s1) && UnderAny(file, s2)
  {
    ComposedConflict(key(repo1), s1, key(repo2), s2);
    ConflictIsSharedFile(s1, s2);
  }

  /** A plain component is not denied by other plain components. */
  lemma PlainNotDenied(name: string, denies: set<string>)
    requires Plain(name) && name != ".." && name !in denies
    requires forall deny | deny in denies :: Plain(deny) && deny != ".."
    ensures !Denied(name, denies)
  {
    forall deny | deny in denies
      ensures !IsPrefix(name, deny)
    {
      PlainPath(name);
      PlainPath(deny);
    }
  }

  // ---------- the change gate ----------

  datatype ChangeMeasure = ChangeMeasure(files: seq<string>, diffLines: nat)

  datatype MeasureError = PathScopeExceeded | ScopeExceeded

  /** `measure_changes`, on the file list and the line count Git reported. */
  function MeasureChanges(
    files: seq<string>, diffLines: nat, maxFiles: real, maxLines: real, allowed: seq<string>)
    : Result<ChangeMeasure, MeasureError>
  {
    if exists file | file in files :: !UnderAny(file, allowed) then Err(PathScopeExceeded)
    else if |files| as real > maxFiles || diffLines as real > maxLines then Err(ScopeExceeded)
    else Ok(ChangeMeasure(files, diffLines))
  }

  /** Two runs whose scopes do not conflict and whose changes pass the gate touch disjoint files. */
  lemma AcceptedChangesDisjoint(
    files1: seq<string>, lines1: nat, maxFiles1: real, maxLines1: real, scope1: seq<string>,
    files2: seq<string>, lines2: nat, maxFiles2: real, maxLines2: real, scope2: seq<string>, file: string)
    requires MeasureChanges(files1, lines1, maxFiles1, maxLines1, scope1).Ok?
    requires MeasureChanges(files2, lines2, maxFiles2, maxLines2, scope2).Ok?
    requires !PathsConflict(scope1, scope2)
    ensures !(file in files1 && file in files2)
  {
    ConflictIsSharedFile(scope1, scope2);
    assert file in files1 ==> UnderAny(file, scope1);
    assert file in files2 ==> UnderAny(file, scope2);
  }
}
