/** Write-scope bodies: path classification, normalisation and its idempotence, and the content hash. */
module Proposals {
  import opened Text
  import opened ScopePaths

  // ---- Repository-relative scope paths ---------------------------------------------------------

  datatype PathFault =
    | EmptyText | AbsolutePath | InvalidCharacters | EmptySegment | TraversalSegment | DotSegment

  datatype PathClass = Relative(normalized: string) | RepositoryRoot | MissingOrInvalid(fault: PathFault)

  predicate ForbiddenChar(c: char) {
    c == '\0' || c == '\\' || c == '*' || c == '?' || c == '{' || c == '}'
  }

  /** `path.rstrip("/")`. */
  function DropSlashes(s: string): (r: string)
    ensures r <= s
  {
    if s != "" && s[|s| - 1] == '/' then DropSlashes(s[..|s| - 1]) else s
  }

  function ClassifyPath(value: string): PathClass {
    var path := Strip(value);
    if path == "" then MissingOrInvalid(EmptyText)
    else if path == "." || path == "./" then RepositoryRoot
    else if path[0] == '/' then MissingOrInvalid(AbsolutePath)
    else if exists i :: 0 <= i < |path| && ForbiddenChar(path[i]) then MissingOrInvalid(InvalidCharacters)
    else
      var parts := Split(DropSlashes(path), '/');
      if "" in parts then MissingOrInvalid(EmptySegment)
      else if ".." in parts then MissingOrInvalid(TraversalSegment)
      else if "." in parts then MissingOrInvalid(DotSegment)
      else Relative(Join(parts, '/') + if path[|path| - 1] == '/' then "/" else "")
  }

  /** What each refusal of a path says; the repository itself and absolute paths are always told apart. */
  lemma PathFaultMeans(value: string)
    ensures
      var path := Strip(value);
      && (ClassifyPath(value).RepositoryRoot? <==> path == "." || path == "./")
      && (ClassifyPath(value) == MissingOrInvalid(EmptyText) <==> path == "")
      && (ClassifyPath(value) == MissingOrInvalid(AbsolutePath) <==> "/" <= path)
      && (ClassifyPath(value) == MissingOrInvalid(InvalidCharacters) ==>
            exists i :: 0 <= i < |path| && path[i] in {'\0', '\\', '*', '?', '{', '}'})
      && (ClassifyPath(value) == MissingOrInvalid(EmptySegment) ==> "" in Split(DropSlashes(path), '/'))
      && (ClassifyPath(value) == MissingOrInvalid(TraversalSegment) ==> ".." in Split(DropSlashes(path), '/'))
      && (ClassifyPath(value) == MissingOrInvalid(DotSegment) ==> "." in Split(DropSlashes(path), '/'))
  {
    hide Strip, Split, Join, DropSlashes;
    assert Strip(value) != "" ==> ("/" <= Strip(value) <==> Strip(value)[0] == '/');
  }

  function NormalizePath(value: string): Option<string> {
    match ClassifyPath(value) case Relative(p) => Some(p) case _ => None
  }

  lemma {:induction false} DropSlashesEnd(s: string)
    ensures DropSlashes(s) != "" ==> DropSlashes(s)[|DropSlashes(s)| - 1] != '/'
    decreases |s|
  {
    if s != "" && s[|s| - 1] == '/' {
      DropSlashesEnd(s[..|s| - 1]);
    }
  }

  /** The normal form: the trimmed text with at most one trailing slash. */
  lemma NormalForm(value: string)
    requires NormalizePath(value).Some?
    ensures
      var path, core := Strip(value), DropSlashes(Strip(value));
      && core != "" && core[|core| - 1] != '/' && core <= path
      && NormalizePath(value).value == (if path[|path| - 1] == '/' then core + "/" else path)
  {
    var path, core := Strip(value), DropSlashes(Strip(value));
    JoinSplit(core, '/');
    DropSlashesEnd(path);
    if path[|path| - 1] != '/' {
      assert core == path && path + "" == path;
    }
  }

  /** Normalising twice changes nothing. */
  lemma NormalizePathIdempotent(value: string)
    requires NormalizePath(value).Some?
    ensures NormalizePath(NormalizePath(value).value) == NormalizePath(value)
  {
    hide Strip, Split, Join;
    var path, core, normal := Strip(value), DropSlashes(Strip(value)), NormalizePath(value).value;
    NormalForm(value);
    StripTrims(value);
    assert normal[0] == path[0];
    assert Trimmed(normal);
    StripTrimmed(normal);
    if path[|path| - 1] == '/' {
      assert normal[..|normal| - 1] == core;
      assert DropSlashes(normal) == DropSlashes(core) == core;
      assert forall i :: 0 <= i < |core| ==> core[i] == path[i];
      JoinSplit(core, '/');
      SplitWhole(".", '/');
      assert core != ".";
      assert normal != "./";
    }
  }

  /** A normalised path names clean segments below the root, at least one. */
  lemma NormalSegments(value: string)
    requires NormalizePath(value).Some?
    ensures
      var segs := Segments(NormalizePath(value).value);
      segs == Split(DropSlashes(Strip(value)), '/') && IsClean(segs)
  {
    var path, core, normal := Strip(value), DropSlashes(Strip(value)), NormalizePath(value).value;
    NormalForm(value);
    var parts := Split(core, '/');
    SplitFree(core, '/');
    SplitWithin(core);
    DropNothing(parts);
    if path[|path| - 1] == '/' {
      TrailingSlash(core);
    }
    forall i | 0 <= i < |parts| ensures IsSegment(parts[i]) {
      assert parts[i] in parts;
    }
  }

  function Repeat(c: char, n: nat): string {
    seq(n, _ => c)
  }

  /** Plain segments without forbidden characters, printed with `n` slashes behind them. */
  ghost predicate Spells(path: string, segs: Path, n: nat) {
    && segs != [] && IsClean(segs) && (forall i :: 0 <= i < |segs| ==> NoneForbidden(segs[i]))
    && path == Join(segs, '/') + Repeat('/', n)
  }

  predicate NoneForbidden(s: string) {
    forall i :: 0 <= i < |s| ==> s[i] !in {'\0', '\\', '*', '?', '{', '}'}
  }

  /** The texts accepted as scope paths are exactly the printed plain relative paths, any number of slashes behind. */
  lemma ScopePathIff(value: string)
    ensures NormalizePath(value).Some? <==> exists segs, n :: Spells(Strip(value), segs, n)
    ensures forall segs, n :: Spells(Strip(value), segs, n) ==>
      NormalizePath(value) == Some(Join(segs, '/') + if n == 0 then "" else "/")
  {
    hide Strip, NormalizePath;
    if NormalizePath(value).Some? {
      SpelledOut(value);
    }
    forall segs, n | Spells(Strip(value), segs, n)
      ensures NormalizePath(value) == Some(Join(segs, '/') + if n == 0 then "" else "/")
    {
      SpellingAccepted(value, segs, n);
    }
  }

  lemma SpelledOut(value: string)
    requires NormalizePath(value).Some?
    ensures exists segs, n :: Spells(Strip(value), segs, n)
  {
    hide Strip, Join, DropTrivial;
    var path, core := Strip(value), DropSlashes(Strip(value));
    var segs := Split(core, '/');
    JoinSplit(core, '/');
    NormalSegments(value);
    SlashesDropped(path);
    forall i | 0 <= i < |segs| ensures NoneForbidden(segs[i]) {
      SplitWithin(core);
      assert segs[i] in segs;
      assert forall k :: 0 <= k < |segs[i]| ==> segs[i][k] in segs[i];
    }
    assert Spells(path, segs, |path| - |core|);
  }

  lemma {:induction false} SlashesDropped(s: string)
    ensures s == DropSlashes(s) + Repeat('/', |s| - |DropSlashes(s)|)
    decreases |s|
  {
    if s != "" && s[|s| - 1] == '/' {
      SlashesDropped(s[..|s| - 1]);
    }
  }

  lemma SpellingAccepted(value: string, segs: Path, n: nat)
    requires Spells(Strip(value), segs, n)
    ensures NormalizePath(value) == Some(Join(segs, '/') + if n == 0 then "" else "/")
  {
    hide Strip, Join, Split;
    var path, core := Strip(value), Join(segs, '/');
    JoinFree(segs);
    JoinEnds(segs);
    DropRepeated(core, n);
    PartsOfJoin(segs);
    JoinedCharacters(segs);
    SplitWhole(".", '/');
    SplitSnoc(".");
    assert forall k :: 0 <= k < |segs| ==> segs[k] != "" && segs[k] != "." && segs[k] != "..";
    assert forall i :: 0 <= i < |path| ==> path[i] == '/' || path[i] in core;
    assert core == "." ==> segs == ["."];
    assert IsSegment(segs[0]) && segs != ["."];
    assert core != "." && core != "./" && |path| == |core| + n && path[..|core|] == core;
    assert path != "." && path != "./";
    assert path[|path| - 1] == '/' <==> n > 0;
  }

  lemma {:induction false} JoinEnds(segs: Path)
    requires IsClean(segs) && segs != []
    ensures Join(segs, '/') != "" && Join(segs, '/')[|Join(segs, '/')| - 1] != '/'
    decreases |segs|
  {
    var last := segs[|segs| - 1];
    assert last[|last| - 1] in last;
    if |segs| > 1 {
      JoinEnds(segs[1..]);
    }
  }

  lemma {:induction false} JoinedCharacters(segs: Path)
    requires IsClean(segs) && forall i :: 0 <= i < |segs| ==> NoneForbidden(segs[i])
    ensures NoneForbidden(Join(segs, '/'))
    decreases |segs|
  {
    if |segs| > 1 {
      JoinedCharacters(segs[1..]);
    }
  }

  lemma {:induction false} DropRepeated(core: string, n: nat)
    requires core != "" && core[|core| - 1] != '/'
    ensures DropSlashes(core + Repeat('/', n)) == core
    decreases n
  {
    var s := core + Repeat('/', n);
    if n == 0 {
      assert s == core;
    } else {
      assert s[..|s| - 1] == core + Repeat('/', n - 1);
      DropRepeated(core, n - 1);
    }
  }

  /** A trailing slash adds an empty part, which `parts` drops. */
  lemma TrailingSlash(core: string)
    requires forall p :: p in Split(core, '/') ==> p != "" && p != "."
    ensures Segments(core + "/") == Split(core, '/')
  {
    var parts := Split(core, '/');
    SplitSnoc(core);
    DropAppend(parts, [""]);
    DropNothing(parts);
    assert [""][1..] == [];
  }

  lemma {:induction false} SplitSnoc(s: string)
    ensures Split(s + "/", '/') == Split(s, '/') + [""]
    decreases |s|
  {
    if s == "" {
      assert (s + "/")[1..] == "";
    } else {
      assert (s + "/")[1..] == s[1..] + "/";
      SplitSnoc(s[1..]);
    }
  }

  lemma {:induction false} DropAppend(a: seq<string>, b: seq<string>)
    ensures DropTrivial(a + b) == DropTrivial(a) + DropTrivial(b)
    decreases |a|
  {
    if a == [] {
      assert a + b == b;
    } else {
      assert (a + b)[0] == a[0] && (a + b)[1..] == a[1..] + b;
      DropAppend(a[1..], b);
    }
  }

  /** `path_is_under_docs`. */
  predicate UnderDocs(path: string) {
    var p := Strip(path);
    p == "docs" || p == "docs/" || "docs/" <= p
  }

  lemma UnderDocsSegments(value: string)
    requires NormalizePath(value).Some? && UnderDocs(NormalizePath(value).value)
    ensures ["docs"] <= Segments(NormalizePath(value).value)
  {
    NormalizeTrimmed(value);
    DocsPrefix(NormalizePath(value).value);
  }

  lemma DocsPrefix(text: string)
    requires text == "docs" || "docs/" <= text
    ensures ["docs"] <= Segments(text)
  {
    assert ["docs"][1..] == [];
    assert DropTrivial(["docs"]) == ["docs"] + DropTrivial([]);
    if text == "docs" {
      SplitWhole("docs", '/');
    } else {
      var tail := text[5..];
      assert text == "docs" + ['/'] + tail;
      SplitHead("docs", '/', tail);
      DropAppend(["docs"], Split(tail, '/'));
    }
  }

  lemma NormalizeTrimmed(value: string)
    requires NormalizePath(value).Some?
    ensures Strip(NormalizePath(value).value) == NormalizePath(value).value
  {
    var path, normal := Strip(value), NormalizePath(value).value;
    NormalForm(value);
    StripTrims(value);
    assert normal[0] == path[0];
    StripTrimmed(normal);
  }

  // ---- Bodies ----------------------------------------------------------------------------------

  /** A candidate body as received: `None` is a field that is missing or of the wrong type. */
  datatype RawBody = RawBody(
    hostile: bool,
    targetId: string,
    baseSha: string,
    allowedRoots: Option<seq<string>>,
    deniedRoots: Option<seq<string>>,
    reason: string,
    expectedChecks: Option<seq<string>>,
    docsOnly: Option<bool>,
    sourceMutation: Option<bool>
  )

  datatype Body = Body(
    targetId: string,
    baseSha: string,
    allowedRoots: seq<string>,
    deniedRoots: seq<string>,
    reason: string,
    expectedChecks: seq<string>,
    docsOnly: bool,
    sourceMutation: bool
  ) {
    /** The frozen body as it would be received again. */
    function AsRaw(): RawBody {
      RawBody(false, targetId, baseSha, Some(allowedRoots), Some(deniedRoots), reason, Some(expectedChecks),
              Some(docsOnly), Some(sourceMutation))
    }
  }

  /** SHA-256 over the authority fields; the free-text reason is left out. Injective by construction. */
  datatype BodyHash = BodyHash(
    targetId: string, baseSha: string, allowedRoots: seq<string>, deniedRoots: seq<string>,
    expectedChecks: seq<string>, docsOnly: bool, sourceMutation: bool)

  function HashOf(b: Body): BodyHash {
    BodyHash(b.targetId, b.baseSha, b.allowedRoots, b.deniedRoots, b.expectedChecks, b.docsOnly, b.sourceMutation)
  }

  predicate IsSha(s: string) {
    |s| == 40 && forall i :: 0 <= i < 40 ==> IsDigit(s[i]) || 'a' <= s[i] <= 'f'
  }

  function StripAll(items: seq<string>): seq<string> {
    seq(|items|, i requires 0 <= i < |items| => Strip(items[i]))
  }

  /** A list of non-blank strings, stripped. */
  function StringList(items: Option<seq<string>>): Option<seq<string>> {
    if items.None? || "" in StripAll(items.value) then None else Some(StripAll(items.value))
  }

  function NormalizeRoots(roots: seq<string>): Option<seq<string>> {
    if roots == [] then Some([])
    else
      match (NormalizePath(roots[0]), NormalizeRoots(roots[1..]))
      case (Some(p), Some(rest)) => Some([p] + rest)
      case _ => None
  }

  /** `normalize_write_scope_body`. */
  function NormalizeBody(raw: RawBody): Option<Body> {
    var target, sha, reason := Strip(raw.targetId), Lower(Strip(raw.baseSha)), Strip(raw.reason);
    var allowed, denied := StringList(raw.allowedRoots), StringList(raw.deniedRoots);
    var checks := StringList(raw.expectedChecks);
    if raw.hostile || target == "" || !IsSha(sha) || reason == "" then None
    else if allowed.None? || allowed.value == [] || denied.None? || checks.None? then None
    else
      match (NormalizeRoots(allowed.value), NormalizeRoots(denied.value), raw.docsOnly, raw.sourceMutation)
      case (Some(a), Some(d), Some(docs), Some(source)) =>
        Some(Body(target, sha, a, d, reason, checks.value, docs, source))
      case _ => None
  }

  /** Every root is a normal form. */
  ghost predicate AllNormal(roots: seq<string>) {
    forall i :: 0 <= i < |roots| ==> NormalizePath(roots[i]) == Some(roots[i])
  }

  lemma {:induction false} RootsNormal(roots: seq<string>)
    requires NormalizeRoots(roots).Some?
    ensures AllNormal(NormalizeRoots(roots).value) && |NormalizeRoots(roots).value| == |roots|
    decreases |roots|
  {
    if roots != [] {
      RootsNormal(roots[1..]);
      NormalizePathIdempotent(roots[0]);
    }
  }

  lemma {:induction false} NormalRootsFixed(roots: seq<string>)
    requires AllNormal(roots)
    ensures NormalizeRoots(roots) == Some(roots)
    decreases |roots|
  {
    if roots != [] {
      NormalRootsFixed(roots[1..]);
      assert [roots[0]] + roots[1..] == roots;
    }
  }

  lemma NormalRootsStripped(roots: seq<string>)
    requires AllNormal(roots)
    ensures StringList(Some(roots)) == Some(roots)
  {
    forall i | 0 <= i < |roots| ensures Strip(roots[i]) == roots[i] && roots[i] != "" {
      NormalizeTrimmed(roots[i]);
    }
    assert StripAll(roots) == roots;
  }

  lemma StrippedListFixed(items: Option<seq<string>>)
    requires StringList(items).Some?
    ensures StringList(StringList(items)) == StringList(items)
  {
    var stripped := StringList(items).value;
    forall i | 0 <= i < |stripped| ensures Strip(stripped[i]) == stripped[i] {
      StripIdempotent(items.value[i]);
    }
    assert StripAll(stripped) == stripped;
  }

  lemma ShaFixed(s: string)
    requires IsSha(s)
    ensures Lower(Strip(s)) == s
  {
    assert !IsSpace(s[0]) && !IsSpace(s[39]);
    StripTrimmed(s);
    assert forall i :: 0 <= i < 40 ==> Lower(s)[i] == s[i];
  }

  /** Freezing a frozen body changes nothing, so a built record always verifies unchanged. */
  lemma NormalizeBodyIdempotent(raw: RawBody)
    requires NormalizeBody(raw).Some?
    ensures NormalizeBody(NormalizeBody(raw).value.AsRaw()) == NormalizeBody(raw)
    ensures AllNormal(NormalizeBody(raw).value.allowedRoots) && AllNormal(NormalizeBody(raw).value.deniedRoots)
    ensures NormalizeBody(raw).value.allowedRoots != []
  {
    var b := NormalizeBody(raw).value;
    StripIdempotent(raw.targetId);
    StripIdempotent(raw.reason);
    ShaFixed(b.baseSha);
    RootsNormal(StringList(raw.allowedRoots).value);
    RootsNormal(StringList(raw.deniedRoots).value);
    NormalRootsFixed(b.allowedRoots);
    NormalRootsFixed(b.deniedRoots);
    NormalRootsStripped(b.allowedRoots);
    NormalRootsStripped(b.deniedRoots);
    StrippedListFixed(raw.expectedChecks);
  }

  /** A text that normalises as a scope path once it is stripped, in this way. */
  ghost predicate Named(item: string, root: string) {
    exists segs, n :: Spells(Strip(item), segs, n) && root == Join(segs, '/') + if n == 0 then "" else "/"
  }

  ghost predicate EachNamed(items: seq<string>, roots: seq<string>) {
    |roots| == |items| && forall i :: 0 <= i < |items| ==> Named(items[i], roots[i])
  }

  lemma NamedIff(item: string, root: string)
    ensures NormalizePath(Strip(item)) == Some(root) <==> Named(item, root)
  {
    hide NormalizePath, Strip, Spells, Join;
    StripIdempotent(item);
    ScopePathIff(Strip(item));
  }

  lemma {:induction false} EachNamedIff(items: seq<string>, roots: seq<string>)
    ensures NormalizeRoots(StripAll(items)) == Some(roots) <==> EachNamed(items, roots)
    decreases |items|
  {
    hide NormalizePath, Strip, Named;
    if items == [] {
      assert StripAll(items) == [];
    } else {
      assert StripAll(items)[1..] == StripAll(items[1..]) && StripAll(items)[0] == Strip(items[0]);
      var rest := NormalizeRoots(StripAll(items[1..]));
      if rest.Some? {
        EachNamedIff(items[1..], rest.value);
      }
      if roots != [] {
        NamedIff(items[0], roots[0]);
        EachNamedIff(items[1..], roots[1..]);
        assert roots == [roots[0]] + roots[1..];
        if EachNamed(items, roots) {
          assert forall i :: 0 <= i < |items[1..]| ==> items[1..][i] == items[i + 1] && roots[1..][i] == roots[i + 1];
        }
      }
      if NormalizePath(Strip(items[0])).Some? {
        NamedIff(items[0], NormalizePath(Strip(items[0])).value);
      }
    }
  }

  /** A candidate freezes to `b`: nothing missing or blank, a full revision, at least one root, every root a path. */
  ghost predicate FreezesTo(raw: RawBody, b: Body) {
    && !raw.hostile && b.targetId == Strip(raw.targetId) != "" && b.reason == Strip(raw.reason) != ""
    && b.baseSha == Lower(Strip(raw.baseSha)) && |b.baseSha| == 40
    && (forall i :: 0 <= i < 40 ==> b.baseSha[i] in "0123456789abcdef")
    && raw.allowedRoots.Some? && raw.allowedRoots.value != [] && EachNamed(raw.allowedRoots.value, b.allowedRoots)
    && raw.deniedRoots.Some? && EachNamed(raw.deniedRoots.value, b.deniedRoots)
    && raw.expectedChecks.Some? && b.expectedChecks == StripAll(raw.expectedChecks.value) && "" !in b.expectedChecks
    && raw.docsOnly == Some(b.docsOnly) && raw.sourceMutation == Some(b.sourceMutation)
  }

  lemma NamedNotBlank(item: string, root: string)
    requires Named(item, root)
    ensures Strip(item) != ""
  {
    hide Strip;
    var segs, n :| Spells(Strip(item), segs, n) && root == Join(segs, '/') + if n == 0 then "" else "/";
    JoinFree(segs);
  }

  lemma EachNotBlank(items: seq<string>, roots: seq<string>)
    requires EachNamed(items, roots)
    ensures "" !in StripAll(items)
  {
    hide Strip, Named;
    forall i | 0 <= i < |items| ensures Strip(items[i]) != "" {
      NamedNotBlank(items[i], roots[i]);
    }
  }

  lemma ShaIff(s: string)
    ensures IsSha(s) <==> |s| == 40 && forall i :: 0 <= i < 40 ==> s[i] in "0123456789abcdef"
  {
    assert forall c: char :: c in "0123456789abcdef" <==> IsDigit(c) || 'a' <= c <= 'f' by {
      forall c: char ensures c in "0123456789abcdef" <==> IsDigit(c) || 'a' <= c <= 'f' {
        Hexadecimal(c);
      }
    }
  }

  lemma Hexadecimal(c: char)
    ensures c in "0123456789abcdef" <==> IsDigit(c) || 'a' <= c <= 'f'
  {
    var hex := "0123456789abcdef";
    assert |hex| == 16;
    if IsDigit(c) {
      assert hex[(c - '0') as int] == c;
    } else if 'a' <= c <= 'f' {
      assert hex[(c - 'a') as int + 10] == c;
    }
  }

  /** Freezing succeeds exactly for such candidates, and gives exactly that body. */
  lemma FreezesIff(raw: RawBody, b: Body)
    ensures NormalizeBody(raw) == Some(b) <==> FreezesTo(raw, b)
  {
    hide NormalizeRoots, Strip, EachNamed, IsSha, Lower;
    ShaIff(Lower(Strip(raw.baseSha)));
    if raw.allowedRoots.Some? {
      EachNamedIff(raw.allowedRoots.value, b.allowedRoots);
      if EachNamed(raw.allowedRoots.value, b.allowedRoots) {
        EachNotBlank(raw.allowedRoots.value, b.allowedRoots);
      }
    }
    if raw.deniedRoots.Some? {
      EachNamedIff(raw.deniedRoots.value, b.deniedRoots);
      if EachNamed(raw.deniedRoots.value, b.deniedRoots) {
        EachNotBlank(raw.deniedRoots.value, b.deniedRoots);
      }
    }
  }

  /** `validate_approval_body`: a frozen body whose `docs_only` promise its roots keep. */
  function ValidateBody(raw: RawBody): Option<Body> {
    match NormalizeBody(raw)
    case None => None
    case Some(b) =>
      if b.docsOnly && exists i :: 0 <= i < |b.allowedRoots| && !UnderDocs(b.allowedRoots[i]) then None else Some(b)
  }

  lemma ValidateBodyIdempotent(raw: RawBody)
    requires ValidateBody(raw).Some?
    ensures ValidateBody(ValidateBody(raw).value.AsRaw()) == ValidateBody(raw)
  {
    NormalizeBodyIdempotent(raw);
  }
}
