/** Workspace paths: normalisation, effective scope, classification of changed paths, and the tool guardrail. */
module ScopePaths {
  import opened Text

  /** An absolute path, as its segments below the file-system root. */
  type Path = seq<string>

  /** A file system at one moment: what `Path.resolve(strict=False)` answers, `None` where it raises. */
  datatype Fs = Fs(resolve: Path -> Option<Path>)

  predicate IsSegment(s: string) {
    s != "" && s != "." && s != ".." && '/' !in s && '\\' !in s
  }

  predicate IsClean(p: Path) {
    forall i :: 0 <= i < |p| ==> IsSegment(p[i])
  }

  /** Resolving is idempotent and leaves only plain segments. */
  ghost predicate WellBehaved(fs: Fs) {
    forall p: Path {:trigger fs.resolve(p)} :: fs.resolve(p).Some? ==>
      IsClean(fs.resolve(p).value) && fs.resolve(fs.resolve(p).value) == fs.resolve(p)
  }

  /** Without symbolic links a clean path resolves to itself, and `..` only shortens a path. */
  ghost predicate NoSymlinks(fs: Fs) {
    forall p: Path {:trigger fs.resolve(p)} ::
      && (IsClean(p) ==> fs.resolve(p) == Some(p))
      && (".." in p && fs.resolve(p).Some? ==> |fs.resolve(p).value| < |p|)
  }

  predicate Under(path: Path, root: Path) {
    root <= path
  }

  // ---- Path text -------------------------------------------------------------------------------

  function DropTrivial(parts: seq<string>): (r: seq<string>)
    ensures forall p :: p in r ==> p in parts && p != "" && p != "."
  {
    if parts == [] then []
    else (if parts[0] == "" || parts[0] == "." then [] else [parts[0]]) + DropTrivial(parts[1..])
  }

  /** `PurePath(text).parts` below the root. */
  function Segments(text: string): seq<string> {
    DropTrivial(Split(text, '/'))
  }

  lemma {:induction false} DropNothing(parts: seq<string>)
    requires forall p :: p in parts ==> p != "" && p != "."
    ensures DropTrivial(parts) == parts
    decreases |parts|
  {
    if parts != [] {
      assert parts[0] in parts && forall p :: p in parts[1..] ==> p in parts;
      DropNothing(parts[1..]);
      assert [parts[0]] + parts[1..] == parts;
    }
  }

  function Slashes(s: string): string {
    seq(|s|, i requires 0 <= i < |s| => if s[i] == '\\' then '/' else s[i])
  }

  /** `str(rel).replace("\\", "/")`; the empty relative path prints as a dot. */
  function RelText(rel: Path): string {
    if rel == [] then "." else Slashes(Join(rel, '/'))
  }

  lemma {:induction false} JoinFree(rel: Path)
    requires IsClean(rel)
    ensures '\\' !in Join(rel, '/')
    ensures rel != [] ==> Join(rel, '/') != "" && Join(rel, '/')[0] != '/'
    decreases |rel|
  {
    if |rel| > 1 {
      JoinFree(rel[1..]);
    }
  }

  /** The printed relative path reads back as the same segments. */
  lemma SegmentsOfRelText(rel: Path)
    requires IsClean(rel)
    ensures Segments(RelText(rel)) == rel
    ensures RelText(rel) != "" && RelText(rel)[0] != '/'
  {
    if rel == [] {
      SplitWhole(".", '/');
      assert ["."][1..] == [];
    } else {
      var s := Join(rel, '/');
      JoinFree(rel);
      assert Slashes(s) == s;
      SplitJoin(rel, '/');
      DropNothing(rel);
    }
  }

  lemma RelTextInjective(a: Path, b: Path)
    requires IsClean(a) && IsClean(b) && RelText(a) == RelText(b)
    ensures a == b
  {
    SegmentsOfRelText(a);
    SegmentsOfRelText(b);
  }

  // ---- Normalising one changed path ------------------------------------------------------------

  datatype Reject =
    | EmptyPath | PathTraversal | ResolveFailed | OutsideWorkspace
    | OutsideAllowedRoots | DeniedRoot

  /** A path inside the workspace, or the reason it was refused. */
  datatype Placed = Inside(path: Path, rel: Path) | Refused(why: Reject)

  /** The workspace is a resolved path, as every caller passes it. */
  function Normalize(fs: Fs, text: string, workspace: Path): Placed {
    var raw := Strip(text);
    if raw == "" then Refused(EmptyPath)
    else if raw[0] != '/' && ".." in Segments(raw) then Refused(PathTraversal)
    else
      var candidate := if raw[0] == '/' then Segments(raw) else workspace + Segments(raw);
      match fs.resolve(candidate)
      case None => Refused(ResolveFailed)
      case Some(p) => if Under(p, workspace) then Inside(p, p[|workspace|..]) else Refused(OutsideWorkspace)
  }

  datatype Scope = Scope(workspace: Path, allowed: seq<Path>, denied: seq<Path>)

  predicate UnderAny(p: Path, roots: seq<Path>) {
    exists i :: 0 <= i < |roots| && Under(p, roots[i])
  }

  /** Deny wins: in the workspace, under an allowed root and under no denied one. */
  predicate Accepts(s: Scope, p: Path) {
    Under(p, s.workspace) && UnderAny(p, s.allowed) && !UnderAny(p, s.denied)
  }

  datatype Verdict = Verdict(ok: bool, key: string, why: Option<Reject>)

  /** Deny wins: under an allowed root and under no denied one. The key is the relative path, or the raw text. */
  function Judge(fs: Fs, scope: Scope, text: string): Verdict {
    match Normalize(fs, text, scope.workspace)
    case Refused(why) => Verdict(false, Strip(text), Some(why))
    case Inside(p, rel) =>
      if !UnderAny(p, scope.allowed) then Verdict(false, RelText(rel), Some(OutsideAllowedRoots))
      else if UnderAny(p, scope.denied) then Verdict(false, RelText(rel), Some(DeniedRoot))
      else Verdict(true, RelText(rel), None)
  }

  ghost predicate ValidScope(fs: Fs, scope: Scope) {
    WellBehaved(fs) && fs.resolve(scope.workspace) == Some(scope.workspace)
  }

  /**
   * A text is placed exactly where it resolves to below the workspace, unless it is blank, or relative with a `..`
   * in it.
   */
  lemma PlacedIff(fs: Fs, text: string, workspace: Path, path: Path, rel: Path)
    ensures Normalize(fs, text, workspace) == Inside(path, rel) <==>
      && Strip(text) != "" && path == workspace + rel
      && (if "/" <= Strip(text) then fs.resolve(Segments(Strip(text))) == Some(path)
          else ".." !in Segments(Strip(text)) && fs.resolve(workspace + Segments(Strip(text))) == Some(path))
  {
    hide Strip, Segments;
    var raw := Strip(text);
    assert raw != "" ==> ("/" <= raw <==> raw[0] == '/');
    assert (workspace + rel)[|workspace|..] == rel;
    if Under(path, workspace) {
      assert path == workspace + path[|workspace|..];
    }
  }

  /** The text of an accepted relative path names the same file again. */
  lemma KeyNamesItself(fs: Fs, scope: Scope, text: string)
    requires ValidScope(fs, scope) && Normalize(fs, text, scope.workspace).Inside?
    ensures
      var at, key := Normalize(fs, text, scope.workspace), RelText(Normalize(fs, text, scope.workspace).rel);
      && IsClean(at.rel) && at.path == scope.workspace + at.rel
      && (forall other :: Strip(other) == key ==> Normalize(fs, other, scope.workspace) == at)
  {
    var at := Normalize(fs, text, scope.workspace);
    var raw := Strip(text);
    var candidate := if raw[0] == '/' then Segments(raw) else scope.workspace + Segments(raw);
    assert fs.resolve(candidate) == Some(at.path);
    assert IsClean(at.path) && fs.resolve(at.path) == Some(at.path);
    assert at.path == scope.workspace + at.rel;
    forall i | 0 <= i < |at.rel| ensures IsSegment(at.rel[i]) {
      assert at.rel[i] == at.path[|scope.workspace| + i];
    }
    SegmentsOfRelText(at.rel);
    assert ".." !in at.rel;
  }

  lemma {:induction false} DroppingShortens(parts: seq<string>)
    ensures |Join(DropTrivial(parts), '/')| <= |Join(parts, '/')|
    decreases |parts|
  {
    if parts != [] {
      DroppingShortens(parts[1..]);
      var rest := DropTrivial(parts[1..]);
      var head := if parts[0] == "" || parts[0] == "." then [] else [parts[0]];
      assert DropTrivial(parts) == head + rest;
      if |parts| == 1 {
        assert parts[1..] == [] && head + rest == head;
      } else if head == [] {
        assert head + rest == rest;
      } else {
        assert (head + rest)[1..] == rest;
        assert rest == [] ==> head + rest == head;
      }
    }
  }

  /**
   * The printed path is stripped when it is read again. Without symbolic links it names its own file exactly when
   * no white space stands at either end of it.
   */
  lemma KeyRereadsIff(fs: Fs, scope: Scope, text: string)
    requires ValidScope(fs, scope) && NoSymlinks(fs) && Normalize(fs, text, scope.workspace).Inside?
    ensures
      var at := Normalize(fs, text, scope.workspace);
      Normalize(fs, RelText(at.rel), scope.workspace) == at <==> Trimmed(RelText(at.rel))
  {
    hide DropTrivial, Strip;
    var at := Normalize(fs, text, scope.workspace);
    var key := RelText(at.rel);
    KeyNamesItself(fs, scope, text);
    if Trimmed(key) {
      StripTrimmed(key);
    } else {
      StripShortens(key);
      JoinFree(at.rel);
      SegmentsOfRelText(at.rel);
      assert at.rel != [] && key == Join(at.rel, '/') by {
        assert Slashes(Join(at.rel, '/')) == Join(at.rel, '/');
      }
      if "/" <= Strip(key) {
        RereadAbsolute(fs, scope.workspace, key, at.rel);
      } else {
        RereadSegments(fs, scope.workspace, key, at.rel);
        DroppingShortens(Split(Strip(key), '/'));
        JoinSplit(Strip(key), '/');
      }
    }
  }

  /** What reading a relative text again would have to split into. */
  lemma RereadSegments(fs: Fs, workspace: Path, key: string, rel: Path)
    requires NoSymlinks(fs) && IsClean(workspace) && '\\' !in Strip(key) && !("/" <= Strip(key))
    ensures Normalize(fs, key, workspace) == Inside(workspace + rel, rel) ==> Segments(Strip(key)) == rel
  {
    hide Strip;
    var raw := Strip(key);
    if raw != "" && ".." !in Segments(raw) {
      SegmentsPlain(raw);
      var p := workspace + Segments(raw);
      assert IsClean(p) && fs.resolve(p) == Some(p);
      assert p[|workspace|..] == Segments(raw);
    }
  }

  /** A text whose first segment is all white space is read again as an absolute path, one with fewer segments. */
  lemma RereadAbsolute(fs: Fs, workspace: Path, key: string, rel: Path)
    requires NoSymlinks(fs) && IsClean(rel) && rel != [] && key == Join(rel, '/')
    requires '\\' !in Strip(key) && "/" <= Strip(key)
    ensures Normalize(fs, key, workspace) != Inside(workspace + rel, rel)
  {
    hide Strip, IsClean, DropTrivial, Join, Split;
    var raw := Strip(key);
    SegmentsBelow(raw);
    DroppingCounts(Split(raw[1..], '/'));
    SplitHead("", '/', raw[1..]);
    assert "" + ['/'] + raw[1..] == raw;
    StrippingSplits(key);
    PartsOfJoin(rel);
    if ".." !in Segments(raw) {
      SegmentsPlain(raw);
      assert fs.resolve(Segments(raw)) == Some(Segments(raw));
    }
    assert fs.resolve(Segments(raw)).Some? ==> |fs.resolve(Segments(raw)).value| < |workspace + rel|;
  }

  lemma PartsOfJoin(rel: Path)
    requires IsClean(rel) && rel != []
    ensures Split(Join(rel, '/'), '/') == rel
  {
    SplitJoin(rel, '/');
  }

  lemma {:induction false} DroppingCounts(parts: seq<string>)
    ensures |DropTrivial(parts)| <= |parts|
    decreases |parts|
  {
    if parts != [] {
      DroppingCounts(parts[1..]);
    }
  }

  lemma SegmentsPlain(raw: string)
    requires '\\' !in raw && ".." !in Segments(raw)
    ensures IsClean(Segments(raw))
  {
    SplitFree(raw, '/');
    SplitWithin(raw);
    forall i | 0 <= i < |Segments(raw)| ensures IsSegment(Segments(raw)[i]) {
      var p := Segments(raw)[i];
      assert p in Segments(raw) && p in Split(raw, '/');
    }
  }

  /** Two texts with one key get one verdict, so dropping a repeated key never hides a refusal. */
  lemma SameKeySameVerdict(fs: Fs, scope: Scope, a: string, b: string)
    requires ValidScope(fs, scope)
    requires Judge(fs, scope, a).key == Judge(fs, scope, b).key
    ensures Judge(fs, scope, a).ok == Judge(fs, scope, b).ok
  {
    var na, nb := Normalize(fs, a, scope.workspace), Normalize(fs, b, scope.workspace);
    if na.Inside? {
      KeyNamesItself(fs, scope, a);
    }
    if nb.Inside? {
      KeyNamesItself(fs, scope, b);
    }
    if na.Inside? && nb.Inside? {
      RelTextInjective(na.rel, nb.rel);
    }
  }

  // ---- Roots on record -------------------------------------------------------------------------

  /** `str(root)`. */
  function RootText(p: Path): string {
    "/" + Join(p, '/')
  }

  /** A record strips the text of every root it keeps; this is the path the stripped text reads as. */
  function StoredRoot(p: Path): Path {
    Segments(Strip(RootText(p)))
  }

  function StoredEach(ps: seq<Path>): seq<Path> {
    seq(|ps|, i requires 0 <= i < |ps| => StoredRoot(ps[i]))
  }

  function Stored(s: Scope): Scope {
    Scope(StoredRoot(s.workspace), StoredEach(s.allowed), StoredEach(s.denied))
  }

  /** No root and no workspace ends in white space. */
  ghost predicate Tidy(s: Scope) {
    && Trimmed(RootText(s.workspace))
    && (forall i :: 0 <= i < |s.allowed| ==> Trimmed(RootText(s.allowed[i])))
    && (forall i :: 0 <= i < |s.denied| ==> Trimmed(RootText(s.denied[i])))
  }

  ghost predicate AllClean(ps: seq<Path>) {
    forall i :: 0 <= i < |ps| ==> IsClean(ps[i])
  }

  /** A text that begins with a slash reads as what follows the slash. */
  lemma SegmentsBelow(text: string)
    requires "/" <= text
    ensures Segments(text) == Segments(text[1..])
  {
    assert Split(text, '/') == [""] + Split(text[1..], '/');
    assert ([""] + Split(text[1..], '/'))[1..] == Split(text[1..], '/');
  }

  lemma RootTextReads(p: Path)
    requires IsClean(p)
    ensures Segments(RootText(p)) == p
  {
    SegmentsBelow(RootText(p));
    assert RootText(p)[1..] == Join(p, '/');
    if p == [] {
      assert [""][1..] == [];
    } else {
      SplitJoin(p, '/');
      DropNothing(p);
    }
  }

  /** Stripping keeps the first character when that is no white space. */
  lemma StripKeepsHead(s: string)
    requires s != "" && !IsSpace(s[0])
    ensures Strip(s) <= s && Strip(s) != ""
  {
    assert [s[0]] + s[1..] == s;
    RStripAppend([s[0]], s[1..]);
    RStripEnd(s);
  }

  /** The record keeps a root exactly when no white space stands at its end. */
  lemma StoredIsItselfIff(p: Path)
    requires IsClean(p)
    ensures StoredRoot(p) == p <==> Trimmed(RootText(p))
  {
    hide DropTrivial, Strip, Join, Split;
    var text := RootText(p);
    RootTextReads(p);
    if Trimmed(text) {
      StripTrimmed(text);
    } else {
      StripShortens(text);
      StripKeepsHead(text);
      var rest := Strip(text)[1..];
      SegmentsBelow(Strip(text));
      DroppingShortens(Split(rest, '/'));
      JoinSplit(rest, '/');
    }
  }

  lemma TidyIsStored(s: Scope)
    requires IsClean(s.workspace) && AllClean(s.allowed) && AllClean(s.denied)
    ensures Tidy(s) <==> Stored(s) == s
  {
    hide StoredRoot, RootText, Trimmed, IsClean;
    StoredIsItselfIff(s.workspace);
    forall i | 0 <= i < |s.allowed|
      ensures StoredRoot(s.allowed[i]) == s.allowed[i] <==> Trimmed(RootText(s.allowed[i]))
    {
      StoredIsItselfIff(s.allowed[i]);
    }
    forall i | 0 <= i < |s.denied|
      ensures StoredRoot(s.denied[i]) == s.denied[i] <==> Trimmed(RootText(s.denied[i]))
    {
      StoredIsItselfIff(s.denied[i]);
    }
    if Stored(s) == s {
      assert forall i :: 0 <= i < |s.allowed| ==> StoredEach(s.allowed)[i] == s.allowed[i];
      assert forall i :: 0 <= i < |s.denied| ==> StoredEach(s.denied)[i] == s.denied[i];
    }
  }

  // ---- Paths on record -------------------------------------------------------------------------

  /** What a receipt keeps of a list of paths: each one stripped, the blank ones dropped. */
  function StoredPaths(keys: seq<string>): seq<string> {
    if keys == [] then []
    else (if Strip(keys[0]) == "" then [] else [Strip(keys[0])]) + StoredPaths(keys[1..])
  }

  lemma {:induction false} StoredPathsAre(keys: seq<string>)
    ensures forall path :: path in StoredPaths(keys) <==> path != "" && exists key :: key in keys && Strip(key) == path
    decreases |keys|
  {
    hide Strip;
    if keys != [] {
      StoredPathsAre(keys[1..]);
      assert keys == [keys[0]] + keys[1..];
    }
  }

  // ---- Classifying a list ----------------------------------------------------------------------

  datatype Split2 = Split2(inScope: seq<string>, outOfScope: seq<string>)

  function StoredSplit(s: Split2): Split2 {
    Split2(StoredPaths(s.inScope), StoredPaths(s.outOfScope))
  }

  predicate Seen(s: Split2, key: string) {
    key in s.inScope || key in s.outOfScope
  }

  /** One path more: ignored when its key is empty or already listed. */
  function AddPath(fs: Fs, scope: Scope, s: Split2, text: string): Split2 {
    var v := Judge(fs, scope, text);
    if v.key == "" || Seen(s, v.key) then s
    else if v.ok then s.(inScope := s.inScope + [v.key])
    else s.(outOfScope := s.outOfScope + [v.key])
  }

  function Classify(fs: Fs, scope: Scope, paths: seq<string>): Split2 {
    if paths == [] then Split2([], [])
    else AddPath(fs, scope, Classify(fs, scope, paths[..|paths| - 1]), paths[|paths| - 1])
  }

  /** `classify_changed_paths`, with its `seen` set. */
  method ClassifyChangedPaths(fs: Fs, scope: Scope, paths: seq<string>) returns (r: Split2)
    ensures r == Classify(fs, scope, paths)
  {
    var inScope: seq<string>, outOfScope: seq<string>, seen: set<string> := [], [], {};
    for i := 0 to |paths|
      invariant Split2(inScope, outOfScope) == Classify(fs, scope, paths[..i])
      invariant forall key :: key in seen <==> key in inScope || key in outOfScope
    {
      assert paths[..i + 1][..i] == paths[..i];
      var v := Judge(fs, scope, paths[i]);
      if v.key == "" || v.key in seen {
        continue;
      }
      seen := seen + {v.key};
      if v.ok {
        inScope := inScope + [v.key];
      } else {
        outOfScope := outOfScope + [v.key];
      }
    }
    assert paths[..|paths|] == paths;
    return Split2(inScope, outOfScope);
  }

  lemma JudgeOk(fs: Fs, scope: Scope, text: string)
    ensures Judge(fs, scope, text).ok ==> Judge(fs, scope, text) == Verdict(true, Judge(fs, scope, text).key, None)
  {
  }

  ghost predicate NoDuplicates(s: seq<string>) {
    forall i, j :: 0 <= i < j < |s| ==> s[i] != s[j]
  }

  /**
   * The split is faithful: no duplicates, no overlap, every non-empty key in the list its own
   * verdict asks for wherever it stands in the input, and nothing else in either list.
   */
  lemma {:induction false} FaithfulPartition(fs: Fs, scope: Scope, paths: seq<string>)
    requires ValidScope(fs, scope)
    ensures
      var s := Classify(fs, scope, paths);
      && NoDuplicates(s.inScope) && NoDuplicates(s.outOfScope)
      && (forall key :: !(key in s.inScope && key in s.outOfScope))
      && (forall p :: p in paths && Judge(fs, scope, p).key != "" ==>
            if Judge(fs, scope, p).ok then Judge(fs, scope, p).key in s.inScope
            else Judge(fs, scope, p).key in s.outOfScope)
      && (forall key :: key in s.inScope ==> exists p :: p in paths && Judge(fs, scope, p) == Verdict(true, key, None))
      && (forall key :: key in s.outOfScope ==>
           exists p :: p in paths && !Judge(fs, scope, p).ok && Judge(fs, scope, p).key == key)
    decreases |paths|
  {
    hide Judge;
    if paths != [] {
      var n := |paths| - 1;
      var front, last := paths[..n], paths[n];
      FaithfulPartition(fs, scope, front);
      assert paths == front + [last];
      var before, v := Classify(fs, scope, front), Judge(fs, scope, last);
      JudgeOk(fs, scope, last);
      if v.key in before.inScope {
        var p :| p in front && Judge(fs, scope, p) == Verdict(true, v.key, None);
        SameKeySameVerdict(fs, scope, p, last);
      } else if v.key in before.outOfScope {
        var p :| p in front && !Judge(fs, scope, p).ok && Judge(fs, scope, p).key == v.key;
        SameKeySameVerdict(fs, scope, p, last);
      }
    }
  }

  /** Denying more only shrinks the in-scope list. */
  lemma DenyingShrinks(fs: Fs, scope: Scope, more: seq<Path>, paths: seq<string>)
    requires ValidScope(fs, scope)
    ensures
      var less := Classify(fs, scope.(denied := scope.denied + more), paths);
      forall key :: key in less.inScope ==> key in Classify(fs, scope, paths).inScope
  {
    var tight := scope.(denied := scope.denied + more);
    FaithfulPartition(fs, scope, paths);
    FaithfulPartition(fs, tight, paths);
    forall key | key in Classify(fs, tight, paths).inScope
      ensures key in Classify(fs, scope, paths).inScope
    {
      var p :| p in paths && Judge(fs, tight, p) == Verdict(true, key, None);
      JudgeLooser(fs, scope, more, p);
      KeyNonEmpty(fs, scope, p);
    }
  }

  lemma JudgeLooser(fs: Fs, scope: Scope, more: seq<Path>, text: string)
    requires Judge(fs, scope.(denied := scope.denied + more), text).ok
    ensures Judge(fs, scope, text) == Judge(fs, scope.(denied := scope.denied + more), text)
  {
    var at := Normalize(fs, text, scope.workspace);
    if UnderAny(at.path, scope.denied) {
      var i :| 0 <= i < |scope.denied| && Under(at.path, scope.denied[i]);
      assert (scope.denied + more)[i] == scope.denied[i];
    }
  }

  lemma KeyNonEmpty(fs: Fs, scope: Scope, text: string)
    requires ValidScope(fs, scope) && Judge(fs, scope, text).ok
    ensures Judge(fs, scope, text).key != ""
  {
    KeyNamesItself(fs, scope, text);
    SegmentsOfRelText(Normalize(fs, text, scope.workspace).rel);
  }

  // ---- Tool guardrail --------------------------------------------------------------------------

  datatype GuardError = MatchesDenied | OutsideWritable

  /** `[Path(r).resolve() for r in roots]`; `None` if any of them raises. */
  function ResolveAll(fs: Fs, roots: seq<Path>): Option<seq<Path>> {
    if roots == [] then Some([])
    else
      match (fs.resolve(roots[0]), ResolveAll(fs, roots[1..]))
      case (Some(p), Some(rest)) => Some([p] + rest)
      case _ => None
  }

  lemma {:induction false} ResolveAllFixed(fs: Fs, roots: seq<Path>)
    requires forall i :: 0 <= i < |roots| ==> fs.resolve(roots[i]) == Some(roots[i])
    ensures ResolveAll(fs, roots) == Some(roots)
    decreases |roots|
  {
    if roots != [] {
      ResolveAllFixed(fs, roots[1..]);
      assert [roots[0]] + roots[1..] == roots;
    }
  }

  /**
   * `guardrail_write_allowed`: `None` when the write may go ahead. Without writable roots nothing is
   * checked; without a workspace the roots are plain prefixes. `Some(None)` stands for a raised error.
   */
  function Guardrail(fs: Fs, cwd: Path, text: string, writable: seq<Path>, denied: seq<Path>, workspace: Option<Path>)
    : Option<Option<GuardError>>
  {
    match (ResolveAll(fs, writable), if writable == [] then Some([]) else ResolveAll(fs, denied))
    case (Some(roots), Some(denies)) =>
      if roots == [] then None
      else (match workspace
        case Some(ws) =>
          (match fs.resolve(ws)
           case None => Some(None)
           case Some(w) =>
             var v := Judge(fs, Scope(w, roots, denies), text);
             if v.ok then None
             else Some(Some(if v.why == Some(DeniedRoot) then MatchesDenied else OutsideWritable)))
        case None =>
          (match fs.resolve((if "/" <= text then [] else cwd) + Segments(text))
           case None => Some(None)
           case Some(p) =>
             if UnderAny(p, denies) then Some(Some(MatchesDenied))
             else if !UnderAny(p, roots) then Some(Some(OutsideWritable))
             else None))
    case _ => Some(None)
  }

  /** `scope` is what the roots `raw` resolve to. */
  ghost predicate ResolvesTo(fs: Fs, raw: Scope, scope: Scope) {
    && fs.resolve(raw.workspace) == Some(scope.workspace)
    && ResolveAll(fs, raw.allowed) == Some(scope.allowed) && ResolveAll(fs, raw.denied) == Some(scope.denied)
  }

  /** The guardrail with roots and a workspace lets through exactly the paths in the scope these resolve to. */
  lemma GuardrailMeansInScope(fs: Fs, cwd: Path, raw: Scope, scope: Scope, text: string)
    requires WellBehaved(fs) && raw.allowed != [] && ResolvesTo(fs, raw, scope)
    ensures Guardrail(fs, cwd, text, raw.allowed, raw.denied, Some(raw.workspace)).None? <==> Judge(fs, scope, text).ok
  {
    hide Judge;
  }

  /** A path the workspace mode lets through, in the terms of the prefix mode. */
  ghost predicate PrefixPasses(fs: Fs, cwd: Path, scope: Scope, text: string) {
    var at := fs.resolve((if "/" <= text then [] else cwd) + Segments(text));
    at.Some? && UnderAny(at.value, scope.allowed) && !UnderAny(at.value, scope.denied)
  }

  /**
   * What the guardrail answers, in both modes: it raises where something cannot be resolved, passes everything without
   * writable roots, and names a denied root only for a path that is under one.
   */
  lemma GuardrailAnswers(fs: Fs, cwd: Path, raw: Scope, text: string, workspace: Option<Path>)
    requires workspace.Some? ==> workspace.value == raw.workspace
    ensures
      var answer := Guardrail(fs, cwd, text, raw.allowed, raw.denied, workspace);
      if raw.allowed == [] then answer == None
      else if ResolveAll(fs, raw.allowed).None? || ResolveAll(fs, raw.denied).None? then answer == Some(None)
      else
        var allowed, denied := ResolveAll(fs, raw.allowed).value, ResolveAll(fs, raw.denied).value;
        if workspace.None? then
          var at := fs.resolve((if "/" <= text then [] else cwd) + Segments(text));
          && (answer == Some(None) <==> at.None?)
          && (answer == Some(Some(MatchesDenied)) <==> at.Some? && UnderAny(at.value, denied))
          && (answer == None <==> PrefixPasses(fs, cwd, Scope(raw.workspace, allowed, denied), text))
        else if fs.resolve(raw.workspace).None? then answer == Some(None)
        else
          var w := fs.resolve(raw.workspace).value;
          var at := Normalize(fs, text, w);
          && (answer == None <==> at.Inside? && Accepts(Scope(w, allowed, denied), at.path))
          && (answer == Some(Some(MatchesDenied)) <==>
                at.Inside? && UnderAny(at.path, allowed) && UnderAny(at.path, denied))
          && answer != Some(None)
  {
    hide UnderAny, Normalize, Segments;
    assert raw.allowed != [] ==> ResolveAll(fs, raw.allowed) != Some([]);
    if workspace.Some? && fs.resolve(raw.workspace).Some? {
      InsideIsUnder(fs, text, fs.resolve(raw.workspace).value);
    }
  }

  lemma InsideIsUnder(fs: Fs, text: string, workspace: Path)
    ensures
      var at := Normalize(fs, text, workspace);
      if at.Inside? then Under(at.path, workspace) else at.why != DeniedRoot && at.why != OutsideAllowedRoots
  {
    hide Strip, Segments;
  }

  /**
   * With writable roots inside the workspace and the process standing in it, both modes pass the same trimmed texts,
   * unless a relative text holds a `..`, which only the mode with a workspace refuses.
   */
  lemma GuardModesAgree(fs: Fs, raw: Scope, scope: Scope, text: string)
    requires raw.allowed != [] && ResolvesTo(fs, raw, scope)
    requires forall i :: 0 <= i < |scope.allowed| ==> Under(scope.allowed[i], scope.workspace)
    requires text != "" && Trimmed(text)
    ensures
      var cwd := scope.workspace;
      Guardrail(fs, cwd, text, raw.allowed, raw.denied, Some(raw.workspace)).None? <==>
        && Guardrail(fs, cwd, text, raw.allowed, raw.denied, None).None?
        && ("/" <= text || ".." !in Segments(text))
  {
    hide Segments, ResolveAll, Guardrail, Strip, Normalize, UnderAny, PrefixPasses;
    var cwd := scope.workspace;
    GuardrailAnswers(fs, cwd, raw, text, Some(raw.workspace));
    GuardrailAnswers(fs, cwd, raw, text, None);
    assert PrefixPasses(fs, cwd, Scope(raw.workspace, scope.allowed, scope.denied), text)
      <==> PrefixPasses(fs, cwd, scope, text) by { SamePrefix(fs, cwd, raw.workspace, scope, text); }
    PlacedWherePassed(fs, scope, text);
  }

  lemma SamePrefix(fs: Fs, cwd: Path, workspace: Path, scope: Scope, text: string)
    ensures PrefixPasses(fs, cwd, scope.(workspace := workspace), text) <==> PrefixPasses(fs, cwd, scope, text)
  {
    hide Segments, UnderAny;
  }

  lemma PlacedWherePassed(fs: Fs, scope: Scope, text: string)
    requires forall i :: 0 <= i < |scope.allowed| ==> Under(scope.allowed[i], scope.workspace)
    requires text != "" && Trimmed(text)
    ensures
      var at := Normalize(fs, text, scope.workspace);
      at.Inside? && Accepts(scope, at.path) <==>
        PrefixPasses(fs, scope.workspace, scope, text) && ("/" <= text || ".." !in Segments(text))
  {
    hide Segments, Strip, Normalize;
    StripTrimmed(text);
    var w := scope.workspace;
    var at := fs.resolve((if "/" <= text then [] else w) + Segments(text));
    assert [] + Segments(text) == Segments(text);
    if at.Some? && w <= at.value {
      PlacedIff(fs, text, w, at.value, at.value[|w|..]);
      assert w + at.value[|w|..] == at.value;
    }
    if Normalize(fs, text, w).Inside? {
      PlacedIff(fs, text, w, Normalize(fs, text, w).path, Normalize(fs, text, w).rel);
    }
    if at.Some? && UnderAny(at.value, scope.allowed) {
      var i :| 0 <= i < |scope.allowed| && Under(at.value, scope.allowed[i]);
      assert Under(scope.allowed[i], w);
      assert at.value[..|w|] == scope.allowed[i][..|w|] == w;
    }
  }

  /** When every changed path names a file some allowed write named, nothing is classified out of scope. */
  lemma GuardedRunStaysInScope(fs: Fs, cwd: Path, raw: Scope, scope: Scope, writes: seq<string>, changed: seq<string>)
    requires WellBehaved(fs) && raw.allowed != [] && ResolvesTo(fs, raw, scope)
    requires forall w :: w in writes ==>
      Guardrail(fs, cwd, w, raw.allowed, raw.denied, Some(raw.workspace)).None?
    requires forall c :: c in changed ==>
      exists w :: w in writes && Normalize(fs, w, scope.workspace) == Normalize(fs, c, scope.workspace)
    ensures Classify(fs, scope, changed).outOfScope == []
  {
    hide Normalize, Guardrail, Classify, ResolveAll;
    FaithfulPartition(fs, scope, changed);
    var s := Classify(fs, scope, changed);
    if s.outOfScope != [] {
      var key := s.outOfScope[0];
      assert key in s.outOfScope;
      var c :| c in changed && !Judge(fs, scope, c).ok && Judge(fs, scope, c).key == key;
      var w :| w in writes && Normalize(fs, w, scope.workspace) == Normalize(fs, c, scope.workspace);
      GuardrailMeansInScope(fs, cwd, raw, scope, w);
      assert false;
    }
  }
}
