/** Whole runs in which a root that ends in white space is stored as another directory, and authority grows. */
module GrowthCounterexample {
  import opened Text
  import opened ScopePaths
  import opened Proposals
  import opened Authority
  import opened AuthoritySteps
  import opened AuthorityRuns
  import opened AuthorityGrowth
  import opened AuditCounterexample

  // ---- From a ground and an accepted text to a run ---------------------------------------------

  function BoundId(body: Body): BindingId {
    MintedId(Approval(ApprovalOf(body), body, Approved), RequestOf(body))
  }

  function Changes(body: Body, text: string): EnforceRequest {
    EnforceRequest(BoundId(body), [text], false, Some(body.baseSha), true, 9, Clock(2, 2, 2, 2))
  }

  /** Propose, approve, bind, enforce. */
  function WholeRun(body: Body, text: string): seq<Op> {
    Opening(body) + [Op.Binding(RequestOf(body), 1), Enforcing(Changes(body, text))]
  }

  ghost predicate OnPlainGround(body: Body, g: Scope) {
    && ValidateBody(body.AsRaw()) == Some(body) == NormalizeBody(body.AsRaw())
    && Ground(PLAIN, body, g) && g.workspace == WORKSPACE
  }

  function BoundStore(body: Body, g: Scope): Store {
    var kept := Stored(g);
    var b := Authority.Binding(
      BoundId(body), HashOf(body), body.baseSha, kept.workspace, kept.allowed, kept.denied, Active);
    Opened(body).(bindings := map[BoundId(body) := b])
  }

  lemma BindsOnGround(body: Body, g: Scope)
    requires OnPlainGround(body, g)
    ensures Step(PLAIN, Opened(body), Op.Binding(RequestOf(body), 1)) == BoundStore(body, g)
    ensures Good(PLAIN, BoundStore(body, g))
  {
    hide ValidateBody, NormalizeBody, ResolveRoots, Strip, Good, CreateBinding, HashOf, Stored;
    var a, req := Approval(ApprovalOf(body), body, Approved), RequestOf(body);
    OpeningRuns(body);
    PlainIsWellBehaved();
    NamesAreFine();
    CleanWorkspace();
    assert CheckRequest(PLAIN, a, req) == Ok(WORKSPACE);
    assert g == Scope(WORKSPACE, g.allowed, g.denied);
    Mints(PLAIN, Opened(body), a, req, WORKSPACE, 1);
    BindKeeps(PLAIN, Opened(body), req, 1);
  }

  /** Any text the scope of the bound roots accepts ends up in a within-scope receipt. */
  lemma RunsWithin(body: Body, g: Scope, text: string)
    requires OnPlainGround(body, g) && ScopeOf(PLAIN, Stored(g), body, true).Ok?
    requires Judge(PLAIN, ScopeOf(PLAIN, Stored(g), body, true).value, text).ok
    ensures
      var st := RunFrom(PLAIN, EMPTY, WholeRun(body, text));
      var id := ReceiptId(BoundId(body), 9, WithinScope);
      && Reachable(PLAIN, st) && id in st.receipts
      && ProposalOf(body) in st.proposals && st.proposals[ProposalOf(body)] == body
      && st.receipts[id].paths.inScope
        == StoredPaths([Judge(PLAIN, ScopeOf(PLAIN, Stored(g), body, true).value, text).key])
  {
    hide ValidateBody, NormalizeBody, Strip, Good, HashOf, Stored, Judge, Ground, ScopeOf, RunFrom, StoredPaths,
      Enforce, CreateBinding;
    PlainIsWellBehaved();
    OpeningRuns(body);
    BindsOnGround(body, g);
    var bind, enforce := Op.Binding(RequestOf(body), 1), Enforcing(Changes(body, text));
    RunTwo(PLAIN, Opened(body), bind, enforce);
    RunsJoin(PLAIN, EMPTY, Opening(body), [bind, enforce]);
    var bound := BoundStore(body, g);
    assert ScopeAt(PLAIN, bound, enforce.request) == ScopeOf(PLAIN, Stored(g), body, true);
    assert Changing(enforce.request, text) == enforce.request;
    OneChange(PLAIN, bound, enforce.request, text);
    Enforces(PLAIN, bound, enforce.request);
    assert Reachable(PLAIN, RunFrom(PLAIN, EMPTY, WholeRun(body, text)));
  }

  lemma RunTwo(fs: Fs, st: Store, a: Op, b: Op)
    ensures RunFrom(fs, st, [a, b]) == Step(fs, Step(fs, st, a), b)
  {
    hide Step;
    var s1 := Step(fs, st, a);
    assert [a, b][1..] == [b] && [b][1..] == [];
    assert RunFrom(fs, st, [a, b]) == RunFrom(fs, s1, [b]);
    assert RunFrom(fs, Step(fs, s1, b), []) == Step(fs, s1, b);
  }

  // ---- Concrete texts --------------------------------------------------------------------------

  predicate Plain(s: string) { IsSegment(s) && forall c :: c in s ==> !ForbiddenChar(c) }

  /** A root of two segments written with a trailing slash is its own normal form. */
  lemma SlashedRoot(a: string, b: string)
    requires Plain(a) && Plain(b) && !IsSpace(a[0])
    ensures
      var root := a + "/" + b + "/";
      NormalizePath(root) == Some(root) && Segments(root) == [a, b] && Strip(root) == root
  {
    hide DropTrivial;
    var core, root := a + "/" + b, a + "/" + b + "/";
    assert root[0] == a[0] && root[|root| - 1] == '/';
    StripTrimmed(root);
    assert root[..|root| - 1] == core && core[|core| - 1] == b[|b| - 1];
    assert DropSlashes(root) == DropSlashes(core) == core;
    assert core == a + ['/'] + b;
    SplitHead(a, '/', b);
    SplitWhole(b, '/');
    assert Split(core, '/') == [a, b];
    assert Join([a, b], '/') == core;
    assert forall i :: 0 <= i < |root| ==> root[i] in a || root[i] in b || root[i] == '/';
    assert root[1..] != "" && |root| >= 4;
    TrailingSlash(core);
  }

  lemma ResolvesBelow(root: string, rel: Path)
    requires Strip(root) == root != "" && root[0] != '/' && root[0] != '~' && Segments(root) == rel && IsClean(rel)
    ensures ResolveRoot(PLAIN, root, WORKSPACE) == Ok(WORKSPACE + rel)
    ensures ResolveRoots(PLAIN, [root], WORKSPACE) == Ok([WORKSPACE + rel])
    ensures ResolveRoots(PLAIN, [], WORKSPACE) == Ok([])
  {
    hide Strip, Segments;
    CleanWorkspace();
    assert IsClean(WORKSPACE + rel);
    assert [root][..0] == [] && [] + [WORKSPACE + rel] == [WORKSPACE + rel];
  }

  lemma JoinThree(a: string, b: string, c: string)
    ensures Join([a, b, c], '/') == a + "/" + b + "/" + c
    ensures Join([a, b], '/') == a + "/" + b
  {
    assert [a, b, c][1..] == [b, c] && [b, c][1..] == [c] && [a, b][1..] == [b];
    assert Join([b, c], '/') == b + ['/'] + Join([c], '/');
    assert Join([a, b, c], '/') == a + ['/'] + Join([b, c], '/');
    assert a + ['/'] + (b + ['/'] + c) == a + "/" + b + "/" + c;
  }

  /** The record keeps a root that ends in a blank without it. */
  lemma BlankIsDropped(s: string)
    requires IsSegment(s) && !IsSpace(s[|s| - 1])
    ensures StoredRoot(["w", "docs", s + " "]) == ["w", "docs", s]
  {
    hide Segments, Join;
    var kept := "/w/docs/" + s;
    var text := kept + " ";
    JoinThree("w", "docs", s + " ");
    JoinThree("w", "docs", s);
    assert RootText(["w", "docs", s]) == kept;
    assert RootText(["w", "docs", s + " "]) == text;
    assert kept[0] == '/' && text[0] == '/' && kept[|kept| - 1] == s[|s| - 1];
    RStripAppend(kept, " ");
    assert RStrip(" ") == RStrip(" "[..0]) == "";
    assert Strip(text) == kept + "" == kept;
    CleanWorkspace();
    RootTextReads(["w", "docs", s]);
  }

  lemma StoredWorkspace()
    ensures StoredRoot(WORKSPACE) == WORKSPACE && StoredRoot(WORKSPACE + ["docs"]) == WORKSPACE + ["docs"]
  {
    hide Segments, Strip, StoredRoot;
    CleanWorkspace();
    assert RootText(WORKSPACE) == "/w";
    JoinThree("w", "docs", "");
    assert WORKSPACE + ["docs"] == ["w", "docs"];
    assert RootText(WORKSPACE + ["docs"]) == "/w/docs";
    StoredIsItselfIff(WORKSPACE);
    StoredIsItselfIff(WORKSPACE + ["docs"]);
  }

  /** A relative text of plain segments is accepted as the file it spells and printed as it is. */
  lemma SpelledOut(scope: Scope, rel: Path)
    requires scope.workspace == WORKSPACE && IsClean(rel) && rel != [] && Trimmed(RelText(rel))
    requires Accepts(scope, WORKSPACE + rel)
    ensures Judge(PLAIN, scope, RelText(rel)) == Verdict(true, RelText(rel), None)
  {
    hide RelText, Segments, Accepts;
    SegmentsOfRelText(rel);
    StripTrimmed(RelText(rel));
    CleanWorkspace();
    assert IsClean(WORKSPACE + rel);
    assert (WORKSPACE + rel)[|WORKSPACE|..] == rel;
    assert FileOf(PLAIN, scope, RelText(rel)) == WORKSPACE + rel;
    JudgeAccepts(PLAIN, scope, RelText(rel));
  }

  lemma OneStored(path: string)
    requires path != "" && Trimmed(path)
    ensures StoredPaths([path]) == [path]
  {
    StripTrimmed(path);
    assert [path][1..] == [] && [path] + [] == [path];
  }

  // ---- An allowed root -------------------------------------------------------------------------

  const ALLOWED := Body("t", SHA, ["docs/a /"], [], "r", [], true, false)
  const ALLOWED_GROUND := Scope(WORKSPACE, [WORKSPACE + ["docs", "a "]], [])

  lemma PlainTexts()
    ensures Plain("docs") && Plain("a ") && Plain("s ") && IsSegment("a") && IsSegment("s") && IsSegment("x")
  {
    var docs, a, s := "docs", "a ", "s ";
    assert docs[0] == 'd' && a[0] == 'a' && s[0] == 's';
    assert forall c :: c in docs ==> c == 'd' || c == 'o' || c == 'c' || c == 's';
    assert forall c :: c in a ==> c == 'a' || c == ' ';
    assert forall c :: c in s ==> c == 's' || c == ' ';
    var a1, s1, x1 := "a", "s", "x";
    assert a1[0] == 'a' && s1[0] == 's' && x1[0] == 'x';
  }

  lemma FreezesFine(roots: seq<string>, denied: seq<string>)
    requires AllNormal(roots) && AllNormal(denied) && roots != []
    requires forall i :: 0 <= i < |roots| ==> UnderDocs(roots[i])
    ensures
      var body := Body("t", SHA, roots, denied, "r", [], true, false);
      ValidateBody(body.AsRaw()) == Some(body) == NormalizeBody(body.AsRaw())
  {
    hide NormalizePath, UnderDocs, Strip;
    ShaFixed(SHA);
    StripTrimmed("t");
    StripTrimmed("r");
    NormalRootsFixed(roots);
    NormalRootsFixed(denied);
    NormalRootsStripped(roots);
    NormalRootsStripped(denied);
    NormalRootsStripped([]);
  }

  lemma AllowedGround()
    ensures OnPlainGround(ALLOWED, ALLOWED_GROUND)
  {
    hide NormalizePath, Segments, Strip, ResolveRoots, ValidateBody, NormalizeBody;
    PlainTexts();
    SlashedRoot("docs", "a ");
    var root := "docs/a /";
    assert root == "docs" + "/" + "a " + "/";
    assert UnderDocs(root) by { assert root[..5] == "docs/"; }
    FreezesFine([root], []);
    ResolvesBelow(root, ["docs", "a "]);
    CleanWorkspace();
  }

  /** A run whose receipt lists a path no file of the proposal goes by. */
  ghost predicate Grows(st: Store, id: ReceiptId, path: string) {
    && Reachable(PLAIN, st) && id in st.receipts && id.compliance == WithinScope
    && path in st.receipts[id].paths.inScope
    && id.binding.approval.proposal in st.proposals
    && !PlainlyWithin(st.proposals[id.binding.approval.proposal], path)
  }

  lemma AcceptedGrows(body: Body, g: Scope, scope: Scope, rel: Path)
    requires OnPlainGround(body, g) && ScopeOf(PLAIN, Stored(g), body, true) == Ok(scope)
    requires scope.workspace == WORKSPACE && IsClean(rel) && rel != [] && Trimmed(RelText(rel))
    requires Accepts(scope, WORKSPACE + rel) && !PlainlyWithin(body, RelText(rel))
    ensures exists st, id :: Grows(st, id, RelText(rel))
  {
    hide RelText, Accepts, PlainlyWithin, OnPlainGround, ScopeOf, StoredPaths, RunFrom, Judge, Reachable, Stored,
      Trimmed, IsClean, HashOf;
    SpelledOut(scope, rel);
    RunsWithin(body, g, RelText(rel));
    SegmentsOfRelText(rel);
    OneStored(RelText(rel));
    var st := RunFrom(PLAIN, EMPTY, WholeRun(body, RelText(rel)));
    assert Grows(st, ReceiptId(BoundId(body), 9, WithinScope), RelText(rel));
  }

  lemma AllowedScope()
    ensures ScopeOf(PLAIN, Stored(ALLOWED_GROUND), ALLOWED, true) == Ok(Scope(WORKSPACE, [["w", "docs", "a"]], []))
  {
    hide ResolveRoots, Segments, Strip, StoredRoot, ValidateBody, NormalizeBody;
    AllowedGround();
    StoredWorkspace();
    PlainTexts();
    BlankIsDropped("a");
    CleanWorkspace();
    assert "a " == "a" + " ";
    assert WORKSPACE + ["docs", "a "] == ["w", "docs", "a "];
    assert StoredEach(ALLOWED_GROUND.allowed) == [["w", "docs", "a"]];
    ResolveAllFixed(PLAIN, [["w", "docs", "a"]]);
  }

  /** The text of a path below `docs` and a second segment begins with both. */
  lemma SecondSegment(rel: Path, second: string)
    requires ["docs", second] <= rel
    ensures "docs/" + second <= Join(rel, '/')
  {
    assert rel[1..][0] == second;
    assert Join(rel, '/') == "docs" + ['/'] + Join(rel[1..], '/');
    assert second <= Join(rel[1..], '/');
    assert "docs/" == "docs" + ['/'];
  }

  lemma AllowedNotPlain()
    ensures !PlainlyWithin(ALLOWED, "docs/a/x")
  {
    hide DropTrivial, Split, Join, Strip;
    PlainTexts();
    SlashedRoot("docs", "a ");
    assert "docs/a /" == "docs" + "/" + "a " + "/";
    forall rel: Path | IsClean(rel) && ["docs", "a "] <= rel ensures Strip(RelText(rel)) != "docs/a/x" {
      SecondSegment(rel, "a ");
      JoinFree(rel);
      var text := Join(rel, '/');
      assert Slashes(text) == text && RelText(rel) == text;
      assert text[0] == 'd' && text[6] == ' ' by { assert ("docs/" + "a ")[6] == ' '; }
      StripKeepsHead(text);
      var path := "docs/a/x";
      assert path[6] == '/';
    }
  }

  /** An allowed directory whose name ends in a blank lets a run change the directory without it. */
  lemma AllowedRootGrows()
    ensures WellBehaved(PLAIN) && NoSymlinks(PLAIN) && exists st, id :: Grows(st, id, "docs/a/x")
  {
    hide Accepts, PlainlyWithin, OnPlainGround, ScopeOf, Stored, Grows, Join;
    PlainIsWellBehaved();
    PlainTexts();
    AllowedGround();
    AllowedScope();
    AllowedNotPlain();
    var rel, scope := ["docs", "a", "x"], Scope(WORKSPACE, [["w", "docs", "a"]], []);
    assert RelText(rel) == "docs/a/x" by { JoinThree("docs", "a", "x"); }
    assert Accepts(scope, WORKSPACE + rel) by { AcceptsSpelled(); }
    AcceptedGrows(ALLOWED, ALLOWED_GROUND, scope, rel);
  }

  lemma AcceptsSpelled()
    ensures Accepts(Scope(WORKSPACE, [["w", "docs", "a"]], []), WORKSPACE + ["docs", "a", "x"])
  {
    assert Under(WORKSPACE + ["docs", "a", "x"], [["w", "docs", "a"]][0]);
  }

  // ---- A denied root ---------------------------------------------------------------------------

  const DENIED := Body("t", SHA, ["docs"], ["docs/s /"], "r", [], true, false)
  const DENIED_GROUND := Scope(WORKSPACE, [WORKSPACE + ["docs"]], [WORKSPACE + ["docs", "s "]])

  lemma DeniedGround()
    ensures OnPlainGround(DENIED, DENIED_GROUND)
  {
    hide NormalizePath, Segments, Strip, ResolveRoots, ValidateBody, NormalizeBody;
    PlainTexts();
    SlashedRoot("docs", "s ");
    DocsIsNormal();
    var docs, root := "docs", "docs/s /";
    assert root == "docs" + "/" + "s " + "/";
    FreezesFine([docs], [root]);
    StripTrimmed(docs);
    ResolvesBelow(docs, ["docs"]);
    ResolvesBelow(root, ["docs", "s "]);
    CleanWorkspace();
  }

  lemma DeniedScope()
    ensures ScopeOf(PLAIN, Stored(DENIED_GROUND), DENIED, true)
      == Ok(Scope(WORKSPACE, [WORKSPACE + ["docs"]], [["w", "docs", "s"]]))
  {
    hide ResolveRoots, Segments, Strip, StoredRoot, ValidateBody, NormalizeBody;
    DeniedGround();
    StoredWorkspace();
    PlainTexts();
    BlankIsDropped("s");
    CleanWorkspace();
    assert "s " == "s" + " ";
    assert WORKSPACE + ["docs", "s "] == ["w", "docs", "s "];
    assert StoredEach(DENIED_GROUND.allowed) == DENIED_GROUND.allowed;
    assert StoredEach(DENIED_GROUND.denied) == [["w", "docs", "s"]];
    ResolveAllFixed(PLAIN, DENIED_GROUND.allowed);
    ResolveAllFixed(PLAIN, [["w", "docs", "s"]]);
  }

  lemma DeniedNotPlain()
    ensures !PlainlyWithin(DENIED, "docs/s /x")
  {
    hide DropTrivial, Split, Join, Strip, IsClean;
    PlainTexts();
    SlashedRoot("docs", "s ");
    DocsIsNormal();
    assert "docs/s /" == "docs" + "/" + "s " + "/";
    assert DENIED.deniedRoots[0] == "docs/s /";
    forall rel: Path | IsClean(rel) && ["docs"] <= rel && Strip(RelText(rel)) == "docs/s /x"
      ensures ["docs", "s "] <= rel
    {
      JoinFree(rel);
      var text := Join(rel, '/');
      assert Slashes(text) == text && RelText(rel) == text;
      FirstSegment(rel);
      StripKeepsHead(text);
      var tail := text[|"docs/s /"|..];
      assert text == "docs" + ['/'] + ("s " + ['/'] + tail);
      SplitHead("docs", '/', "s " + ['/'] + tail);
      SplitHead("s ", '/', tail);
      PartsOfJoin(rel);
      assert rel[0] == "docs" && rel[1] == "s ";
    }
  }

  lemma FirstSegment(rel: Path)
    requires ["docs"] <= rel
    ensures Join(rel, '/') != "" && Join(rel, '/')[0] == 'd'
  {
    assert rel[0] == "docs";
  }

  /** A denied directory whose name ends in a blank is not denied. */
  lemma DeniedRootGrows()
    ensures WellBehaved(PLAIN) && NoSymlinks(PLAIN) && exists st, id :: Grows(st, id, "docs/s /x")
  {
    hide Accepts, PlainlyWithin, OnPlainGround, ScopeOf, Stored, Grows, Join;
    PlainIsWellBehaved();
    PlainTexts();
    DeniedGround();
    DeniedScope();
    DeniedNotPlain();
    var rel, scope := ["docs", "s ", "x"], Scope(WORKSPACE, [WORKSPACE + ["docs"]], [["w", "docs", "s"]]);
    assert RelText(rel) == "docs/s /x" by { JoinThree("docs", "s ", "x"); }
    assert Accepts(scope, WORKSPACE + rel) by { AcceptsBlank(); }
    AcceptedGrows(DENIED, DENIED_GROUND, scope, rel);
  }

  lemma AcceptsBlank()
    ensures Accepts(Scope(WORKSPACE, [WORKSPACE + ["docs"]], [["w", "docs", "s"]]), WORKSPACE + ["docs", "s ", "x"])
  {
    var file := WORKSPACE + ["docs", "s ", "x"];
    assert Under(file, [WORKSPACE + ["docs"]][0]);
    assert file[2] == "s " && ["w", "docs", "s"][2] == "s" && |"s "| != |"s"|;
  }
}
