/** Which files the in-scope paths of a receipt can stand for, and exactly when none lies outside the proposal. */
module AuthorityGrowth {
  import opened Text
  import opened ScopePaths
  import opened Proposals
  import opened Authority
  import opened AuthoritySteps
  import opened AuthorityRuns

  // ---- One scope inside another ----------------------------------------------------------------

  /** The workspace and the allowed roots of `s`, and the denied roots of `g`, are paths both scopes agree to accept. */
  ghost predicate RootsInside(s: Scope, g: Scope) {
    forall t :: t in [s.workspace] + s.allowed + g.denied ==> Accepts(s, t) ==> Accepts(g, t)
  }

  /** What the roots pass, everything passes. */
  lemma RootsDecide(s: Scope, g: Scope, p: Path)
    requires RootsInside(s, g) && Accepts(s, p)
    ensures Accepts(g, p)
  {
    var i :| 0 <= i < |s.allowed| && Under(p, s.allowed[i]);
    var m := if Under(s.allowed[i], s.workspace) then s.allowed[i] else s.workspace;
    assert m in [s.workspace] + s.allowed + g.denied;
    AcceptsBelow(s, m, p, i);
    forall j | 0 <= j < |g.denied| ensures !Under(p, g.denied[j]) {
      assert g.denied[j] in [s.workspace] + s.allowed + g.denied;
      if Under(p, g.denied[j]) && Under(g.denied[j], m) {
        AcceptsBelow(s, g.denied[j], p, i);
        assert Under(g.denied[j], g.denied[j]);
      }
    }
    var k :| 0 <= k < |g.allowed| && Under(m, g.allowed[k]);
    assert Under(p, g.allowed[k]) && Under(p, g.workspace);
  }

  /** Between the roots that let `p` in and `p` itself everything is accepted. */
  lemma AcceptsBelow(s: Scope, m: Path, p: Path, i: nat)
    requires Accepts(s, p) && i < |s.allowed| && Under(p, m)
    requires Under(m, s.workspace) && Under(m, s.allowed[i])
    ensures Accepts(s, m)
  {
    forall j | 0 <= j < |s.denied| ensures !Under(m, s.denied[j]) {
      assert Under(m, s.denied[j]) ==> Under(p, s.denied[j]);
    }
  }

  // ---- From paths to texts ---------------------------------------------------------------------

  /** The file a text names in a scope's workspace. */
  function FileOf(fs: Fs, s: Scope, text: string): Path {
    match Normalize(fs, text, s.workspace) case Inside(p, _) => p case Refused(_) => []
  }

  lemma JudgeAccepts(fs: Fs, s: Scope, text: string)
    ensures Judge(fs, s, text).ok <==> Normalize(fs, text, s.workspace).Inside? && Accepts(s, FileOf(fs, s, text))
  {
    hide Segments, RelText, Strip;
  }

  /** Every resolved path below the workspace is named by some text. */
  lemma NamedBySlashes(fs: Fs, s: Scope, p: Path)
    requires WellBehaved(fs) && fs.resolve(p) == Some(p) && Under(p, s.workspace)
    ensures
      var text := RootText(p) + "/";
      Normalize(fs, text, s.workspace).Inside? && FileOf(fs, s, text) == p
  {
    hide Strip, DropTrivial, Join, Split;
    var text := RootText(p) + "/";
    assert IsClean(p);
    RootTextReads(p);
    StripTrimmed(text);
    SplitSnoc(RootText(p));
    DropAppend(Split(RootText(p), '/'), [""]);
    assert DropTrivial([""]) == [] by { DropsEmpty(); }
    assert Segments(text) == p + [] == p;
    assert text[0] == '/';
    assert FileOf(fs, s, text) == p;
  }

  lemma DropsEmpty()
    ensures DropTrivial([""]) == []
  {
    assert [""][1..] == [];
  }

  /**
   * No text the scope accepts names a file outside `g` exactly when the roots pass; what has to be looked at are the
   * workspace, the allowed roots and the denied roots, all known before the first path. (The second half needs the
   * allowed roots to be resolved paths, which they are unless enforcement fell back on the roots on record.)
   */
  lemma AcceptedInsideIff(fs: Fs, s: Scope, g: Scope)
    requires ValidScope(fs, s) && AllFixed(fs, g.denied)
    ensures RootsInside(s, g) ==> forall text :: Judge(fs, s, text).ok ==> Accepts(g, FileOf(fs, s, text))
    ensures AllFixed(fs, s.allowed) && !RootsInside(s, g) ==>
      exists text :: Judge(fs, s, text).ok && !Accepts(g, FileOf(fs, s, text))
  {
    hide Judge, FileOf, Accepts;
    if RootsInside(s, g) {
      forall text | Judge(fs, s, text).ok ensures Accepts(g, FileOf(fs, s, text)) {
        JudgeAccepts(fs, s, text);
        RootsDecide(s, g, FileOf(fs, s, text));
      }
    } else if AllFixed(fs, s.allowed) {
      var t :| t in [s.workspace] + s.allowed + g.denied && Accepts(s, t) && !Accepts(g, t);
      AcceptsIsUnder(s, t);
      NamedBySlashes(fs, s, t);
      JudgeAccepts(fs, s, RootText(t) + "/");
    }
  }

  lemma AcceptsIsUnder(s: Scope, p: Path)
    requires Accepts(s, p)
    ensures Under(p, s.workspace)
  {
  }

  // ---- Ground and enforcement ------------------------------------------------------------------

  /** Whatever an enforcement of a binding made on `g` classifies against lies inside `g`. */
  ghost predicate NeverWider(fs: Fs, body: Body, g: Scope) {
    forall isDirectory :: ScopeOf(fs, Stored(g), body, isDirectory).Ok? ==>
      RootsInside(ScopeOf(fs, Stored(g), body, isDirectory).value, g)
  }

  lemma TidyIsNeverWider(fs: Fs, body: Body, g: Scope)
    requires WellBehaved(fs) && Ground(fs, body, g) && Tidy(g)
    ensures NeverWider(fs, body, g) && Trimmed(RootText(g.workspace))
  {
    assert Trimmed(RootText(g.workspace));
    hide ScopeOf, Ground, Tidy, Stored, Accepts;
    forall isDirectory ensures ScopeOf(fs, Stored(g), body, isDirectory) == Ok(g) {
      TidyGroundHolds(fs, body, g, isDirectory);
    }
  }

  ghost predicate Covered(fs: Fs, roots: seq<string>, workspace: Path, p: Path) {
    exists i :: 0 <= i < |roots|
      && ResolveRoot(fs, roots[i], workspace).Ok? && Under(p, ResolveRoot(fs, roots[i], workspace).value)
  }

  /** The file lies below an allowed root of `body` and below none of its denied roots, all of which resolve. */
  ghost predicate FileWithin(fs: Fs, body: Body, workspace: Path, p: Path) {
    && Covered(fs, body.allowedRoots, workspace, p) && !Covered(fs, body.deniedRoots, workspace, p)
    && (forall j :: 0 <= j < |body.deniedRoots| ==> ResolveRoot(fs, body.deniedRoots[j], workspace).Ok?)
  }

  lemma GroundMeansWithin(fs: Fs, body: Body, g: Scope, p: Path)
    requires WellBehaved(fs) && Ground(fs, body, g) && Accepts(g, p)
    ensures FileWithin(fs, body, g.workspace, p)
  {
    hide ResolveRoot, ResolveRoots, Under;
    RootsAreFixed(fs, body.allowedRoots, g.workspace);
    RootsAreFixed(fs, body.deniedRoots, g.workspace);
  }

  // ---- The file behind a path on record --------------------------------------------------------

  ghost predicate NamedAs(fs: Fs, scope: Result<Scope, Fault>, text: string, path: string, file: Path) {
    && scope.Ok? && Judge(fs, scope.value, text).ok
    && Strip(Judge(fs, scope.value, text).key) == path && FileOf(fs, scope.value, text) == file
  }

  /** Some enforcement of the binding accepted `file` and printed it as a text that strips to `path`. */
  ghost predicate StandsFor(fs: Fs, b: Binding, body: Body, path: string, file: Path) {
    exists isDirectory, text :: NamedAs(fs, ScopeOf(fs, FrozenScope(b), body, isDirectory), text, path, file)
  }

  lemma ReceiptStandsFor(fs: Fs, st: Store, id: ReceiptId, path: string)
    requires WellBehaved(fs) && Good(fs, st) && id in st.receipts && path in st.receipts[id].paths.inScope
    ensures id.binding in st.bindings && id.binding.approval in st.approvals
    ensures exists file :: StandsFor(fs, st.bindings[id.binding], st.approvals[id.binding.approval].body, path, file)
  {
    hide Good, ScopeOf, Classify, StoredPaths, Judge, FileOf, Strip, FrozenBinding;
    JustifiedReceipt(fs, st, id);
    BindingHasApproval(fs, st, id.binding);
    var b, body := st.bindings[id.binding], st.approvals[id.binding.approval].body;
    var changed, isDirectory :|
      ClassifiedAs(fs, ScopeOf(fs, FrozenScope(b), body, isDirectory), changed, st.receipts[id].paths);
    var scope := ScopeOf(fs, FrozenScope(b), body, isDirectory);
    StoredPathsAre(Classify(fs, scope.value, changed).inScope);
    var key :| key in Classify(fs, scope.value, changed).inScope && Strip(key) == path;
    assert ValidScope(fs, scope.value) by { ScopeIsValid(fs, FrozenScope(b), body, isDirectory); }
    FaithfulPartition(fs, scope.value, changed);
    var text :| text in changed && Judge(fs, scope.value, text) == Verdict(true, key, None);
    assert NamedAs(fs, scope, text, path, FileOf(fs, scope.value, text));
    assert StandsFor(fs, b, body, path, FileOf(fs, scope.value, text));
  }

  lemma JustifiedReceipt(fs: Fs, st: Store, id: ReceiptId)
    requires Good(fs, st) && id in st.receipts
    ensures id.binding in st.bindings && id.binding.approval in st.approvals
    ensures Justified(fs, st.bindings[id.binding], st.approvals[id.binding.approval].body, st.receipts[id].paths)
  {
    hide ProposalsFrozen, ApprovalsFrozen, BindingsFrozen, SingleUse, OnePerTarget, Justified;
  }

  lemma ScopeIsValid(fs: Fs, frozen: Scope, body: Body, isDirectory: bool)
    requires WellBehaved(fs) && ScopeOf(fs, frozen, body, isDirectory).Ok?
    ensures ValidScope(fs, ScopeOf(fs, frozen, body, isDirectory).value)
    ensures fs.resolve(frozen.workspace) == Some(ScopeOf(fs, frozen, body, isDirectory).value.workspace)
  {
    hide ResolveRoots, ResolveAll;
  }

  lemma StandsInside(fs: Fs, b: Binding, body: Body, path: string, file: Path, g: Scope)
    requires WellBehaved(fs) && StandsFor(fs, b, body, path, file) && BoundOn(fs, b, body, g) && NeverWider(fs, body, g)
    ensures FileWithin(fs, body, g.workspace, file)
  {
    hide ScopeOf, Judge, FileOf, Strip, FileWithin, Accepts, Ground, Stored, RootsInside;
    var isDirectory, text :| NamedAs(fs, ScopeOf(fs, FrozenScope(b), body, isDirectory), text, path, file);
    var scope := ScopeOf(fs, FrozenScope(b), body, isDirectory).value;
    JudgeAccepts(fs, scope, text);
    RootsDecide(scope, g, file);
    GroundMeansWithin(fs, body, g, file);
  }

  // ---- No authority grows ----------------------------------------------------------------------

  /**
   * Each in-scope path of each receipt stands for a file some enforcement accepted, and that file lies within the
   * proposal whose hash approval and binding carry, if no scope of the binding is wider than the ground it was made on.
   */
  lemma NoAuthorityGrowth(fs: Fs, st: Store, id: ReceiptId, path: string)
    requires WellBehaved(fs) && Reachable(fs, st) && id in st.receipts && path in st.receipts[id].paths.inScope
    ensures
      var approval := id.binding.approval;
      && id.binding in st.bindings && approval in st.approvals && approval.proposal in st.proposals
      && HashOf(st.proposals[approval.proposal]) == approval.hash == st.bindings[id.binding].hash
    ensures
      var b, body := st.bindings[id.binding], st.approvals[id.binding.approval].body;
      && FrozenBinding(fs, b, body)
      && (exists file ::
            && StandsFor(fs, b, body, path, file)
            && forall g :: BoundOn(fs, b, body, g) && NeverWider(fs, body, g) ==>
                 FileWithin(fs, st.proposals[id.binding.approval.proposal], g.workspace, file))
  {
    hide Good, StandsFor, NormalizeBody, ValidateBody, FileWithin, Reachable, NeverWider, Ground;
    ReachableIsGood(fs, st);
    ReceiptStandsFor(fs, st, id, path);
    BindingHasApproval(fs, st, id.binding);
    StoredId(fs, st, id.binding.approval);
    var b, body := st.bindings[id.binding], st.approvals[id.binding.approval].body;
    var file :| StandsFor(fs, b, body, path, file);
    forall g | BoundOn(fs, b, body, g) && NeverWider(fs, body, g)
      ensures FileWithin(fs, st.proposals[id.binding.approval.proposal], g.workspace, file)
    {
      StandsInside(fs, b, body, path, file, g);
      SameRootsSameFiles(fs, body, st.proposals[id.binding.approval.proposal], g.workspace, file);
    }
  }

  lemma SameRootsSameFiles(fs: Fs, a: Body, b: Body, workspace: Path, p: Path)
    requires FileWithin(fs, a, workspace, p) && a.allowedRoots == b.allowedRoots && a.deniedRoots == b.deniedRoots
    ensures FileWithin(fs, b, workspace, p)
  {
  }

  // ---- Without symbolic links ------------------------------------------------------------------

  /** `path` is the stripped text of a file below an allowed root and below no denied root, segment by segment. */
  ghost predicate PlainlyWithin(body: Body, path: string) {
    exists rel ::
      && IsClean(rel) && Strip(RelText(rel)) == path
      && (exists i :: 0 <= i < |body.allowedRoots| && Segments(body.allowedRoots[i]) <= rel)
      && (forall j :: 0 <= j < |body.deniedRoots| ==> !(Segments(body.deniedRoots[j]) <= rel))
      && (body.docsOnly ==> ["docs"] <= rel)
  }

  /** The binding was made on `g`, keeps the name of its workspace, and is never enforced wider than `g`. */
  ghost predicate HoldsTo(fs: Fs, b: Binding, body: Body, g: Scope) {
    BoundOn(fs, b, body, g) && Trimmed(RootText(g.workspace)) && NeverWider(fs, body, g)
  }

  /**
   * Without symbolic links the roots of the proposal cover by their text alone: the file of every in-scope
   * path has an allowed root as ancestor and no denied one, and a docs-only proposal reaches only `docs`.
   */
  lemma NoAuthorityGrowthPlain(fs: Fs, st: Store, id: ReceiptId, path: string)
    requires WellBehaved(fs) && NoSymlinks(fs) && Reachable(fs, st)
    requires id in st.receipts && path in st.receipts[id].paths.inScope
    ensures id.binding in st.bindings && id.binding.approval in st.approvals
    ensures id.binding.approval.proposal in st.proposals
    ensures
      var b, body := st.bindings[id.binding], st.approvals[id.binding.approval].body;
      forall g :: HoldsTo(fs, b, body, g) ==> PlainlyWithin(st.proposals[id.binding.approval.proposal], path)
  {
    hide Good, StandsFor, NormalizeBody, ValidateBody, PlainlyWithin, Reachable, NeverWider, Ground, RootText;
    ReachableIsGood(fs, st);
    ReceiptStandsFor(fs, st, id, path);
    BindingHasApproval(fs, st, id.binding);
    StoredId(fs, st, id.binding.approval);
    var b, body := st.bindings[id.binding], st.approvals[id.binding.approval].body;
    var file :| StandsFor(fs, b, body, path, file);
    forall g | HoldsTo(fs, b, body, g)
      ensures PlainlyWithin(st.proposals[id.binding.approval.proposal], path)
    {
      StandsInside(fs, b, body, path, file, g);
      PlainFile(fs, b, body, path, file, g);
      SamePlainly(body, st.proposals[id.binding.approval.proposal], path);
    }
  }

  lemma SamePlainly(a: Body, b: Body, path: string)
    requires PlainlyWithin(a, path) && HashOf(a) == HashOf(b)
    ensures PlainlyWithin(b, path)
  {
    hide Segments, RelText, IsClean, Strip;
  }

  lemma PlainFile(fs: Fs, b: Binding, body: Body, path: string, file: Path, g: Scope)
    requires WellBehaved(fs) && NoSymlinks(fs) && BoundOn(fs, b, body, g) && Trimmed(RootText(g.workspace))
    requires ValidateBody(body.AsRaw()) == Some(body)
    requires StandsFor(fs, b, body, path, file) && FileWithin(fs, body, g.workspace, file)
    ensures PlainlyWithin(body, path)
  {
    hide ScopeOf, Judge, Normalize, Strip, FileWithin, ResolveRoots, ValidateBody, RelText, IsClean, StoredRoot,
      PlainlyWithin;
    var isDirectory, text :| NamedAs(fs, ScopeOf(fs, FrozenScope(b), body, isDirectory), text, path, file);
    var scope := ScopeOf(fs, FrozenScope(b), body, isDirectory).value;
    ScopeIsValid(fs, FrozenScope(b), body, isDirectory);
    assert IsClean(g.workspace);
    StoredIsItselfIff(g.workspace);
    assert scope.workspace == g.workspace;
    AcceptedKey(fs, scope, text);
    PlainAuthority(fs, body, g.workspace, Normalize(fs, text, g.workspace).rel);
  }

  lemma AcceptedKey(fs: Fs, scope: Scope, text: string)
    requires ValidScope(fs, scope) && Judge(fs, scope, text).ok
    ensures
      var at := Normalize(fs, text, scope.workspace);
      && at.Inside? && IsClean(at.rel) && FileOf(fs, scope, text) == scope.workspace + at.rel
      && Judge(fs, scope, text).key == RelText(at.rel)
  {
    hide RelText, IsClean, Normalize;
    KeyNamesItself(fs, scope, text);
  }

  lemma ValidRoots(body: Body)
    requires ValidateBody(body.AsRaw()) == Some(body)
    ensures AllNormal(body.allowedRoots) && AllNormal(body.deniedRoots)
    ensures body.docsOnly ==> forall i :: 0 <= i < |body.allowedRoots| ==> UnderDocs(body.allowedRoots[i])
  {
    hide NormalizeBody, UnderDocs, NormalizePath;
    NormalizeBodyIdempotent(body.AsRaw());
  }

  lemma PlainAuthority(fs: Fs, body: Body, workspace: Path, rel: Path)
    requires WellBehaved(fs) && NoSymlinks(fs) && fs.resolve(workspace) == Some(workspace)
    requires ValidateBody(body.AsRaw()) == Some(body)
    requires IsClean(rel) && FileWithin(fs, body, workspace, workspace + rel)
    ensures PlainlyWithin(body, Strip(RelText(rel)))
  {
    hide ResolveRoot, RelText, Segments, ValidateBody, IsClean, UnderDocs, NormalizePath, Under, Strip;
    ValidRoots(body);
    var i :| 0 <= i < |body.allowedRoots| && ResolveRoot(fs, body.allowedRoots[i], workspace).Ok?
      && Under(workspace + rel, ResolveRoot(fs, body.allowedRoots[i], workspace).value);
    PlainRoot(fs, body.allowedRoots[i], workspace);
    Beneath(workspace, Segments(body.allowedRoots[i]), rel);
    if body.docsOnly {
      UnderDocsSegments(body.allowedRoots[i]);
    }
    forall j | 0 <= j < |body.deniedRoots| ensures !(Segments(body.deniedRoots[j]) <= rel) {
      PlainRoot(fs, body.deniedRoots[j], workspace);
      Beneath(workspace, Segments(body.deniedRoots[j]), rel);
    }
  }

  lemma Beneath(base: Path, root: Path, rel: Path)
    ensures Under(base + rel, base + root) <==> root <= rel
  {
    if Under(base + rel, base + root) {
      assert forall k :: 0 <= k < |root| ==> rel[k] == (base + rel)[|base| + k] == (base + root)[|base| + k];
    }
  }

  lemma PlainRoot(fs: Fs, root: string, workspace: Path)
    requires WellBehaved(fs) && NoSymlinks(fs) && fs.resolve(workspace) == Some(workspace)
    requires NormalizePath(root) == Some(root)
    ensures ResolveRoot(fs, root, workspace).Ok? ==>
      ResolveRoot(fs, root, workspace).value == workspace + Segments(root)
  {
    hide Segments, NormalizePath, Strip;
    NormalizeTrimmed(root);
    NormalSegments(root);
    assert IsClean(workspace + Segments(root));
  }

  // ---- Exactly when ----------------------------------------------------------------------------

  /** The authority of `req` is live at every reading of its clock, and nothing stops the run. */
  ghost predicate Unstopped(st: Store, req: EnforceRequest) {
    && req.binding in st.bindings && req.binding.approval in st.approvals && IsOpen(st.bindings[req.binding].status)
    && !req.runnerFailed && req.head == Some(st.bindings[req.binding].baseSha)
    && var a := st.approvals[req.binding.approval];
       a.status == Approved && req.clock.checkpoint < a.id.expiresAt && req.clock.roots < a.id.expiresAt
       && req.clock.load < a.id.expiresAt && req.clock.act < a.id.expiresAt
  }

  function Changing(req: EnforceRequest, text: string): EnforceRequest {
    req.(changed := [text])
  }

  /** The compliance of an enforcement; `NoMutation` stands for one that raises. */
  function ComplianceOf(fs: Fs, st: Store, req: EnforceRequest): Compliance {
    var r := Enforce(st, fs, req).1;
    if r.Ok? then r.value.receipt.id.compliance else NoMutation
  }

  lemma ClassifyOne(fs: Fs, scope: Scope, text: string)
    requires ValidScope(fs, scope)
    ensures
      var paths := Classify(fs, scope, [text]);
      if Judge(fs, scope, text).ok then paths == Split2([Judge(fs, scope, text).key], []) else paths.inScope == []
  {
    hide Judge;
    assert [text][..0] == [] && [text][0] == text;
    assert Classify(fs, scope, []) == Split2([], []);
    assert Classify(fs, scope, [text]) == AddPath(fs, scope, Split2([], []), text);
    if Judge(fs, scope, text).ok {
      KeyNonEmpty(fs, scope, text);
    }
  }

  /** With live authority a run that changed one path is within scope exactly when that path is accepted. */
  lemma OneChange(fs: Fs, st: Store, req: EnforceRequest, text: string)
    requires WellBehaved(fs) && Good(fs, st) && Unstopped(st, req) && ScopeAt(fs, st, req).Ok?
    ensures ComplianceOf(fs, st, Changing(req, text)) == WithinScope <==> Judge(fs, ScopeAt(fs, st, req).value, text).ok
    ensures Judge(fs, ScopeAt(fs, st, req).value, text).ok ==>
      var r := Enforce(st, fs, Changing(req, text)).1;
      r.Ok? && !r.value.runFailed && r.value.receipt.id.compliance == WithinScope
      && r.value.receipt.paths == StoredSplit(Split2([Judge(fs, ScopeAt(fs, st, req).value, text).key], []))
  {
    hide Good, Enforce, Judge, Classify, ScopeOf, StoredSplit;
    var one := Changing(req, text);
    Enforces(fs, st, one);
    assert ScopeAt(fs, st, one) == ScopeAt(fs, st, req);
    ScopeIsValid(fs, FrozenScope(st.bindings[req.binding]), st.approvals[req.binding.approval].body, req.isDirectory);
    ClassifyOne(fs, ScopeAt(fs, st, req).value, text);
  }

  /**
   * No within-scope run of a live binding changes a file outside the ground it was made on, exactly when the roots
   * of its scope pass against that ground.
   */
  lemma GrowthIff(fs: Fs, st: Store, req: EnforceRequest, g: Scope)
    requires WellBehaved(fs) && Reachable(fs, st) && Unstopped(st, req) && ScopeAt(fs, st, req).Ok?
    requires BoundOn(fs, st.bindings[req.binding], st.approvals[req.binding.approval].body, g)
    ensures
      var scope := ScopeAt(fs, st, req).value;
      RootsInside(scope, g) ==> forall text ::
        ComplianceOf(fs, st, Changing(req, text)) == WithinScope ==> Accepts(g, FileOf(fs, scope, text))
    ensures
      var scope := ScopeAt(fs, st, req).value;
      AllFixed(fs, scope.allowed) && !RootsInside(scope, g) ==> exists text ::
        ComplianceOf(fs, st, Changing(req, text)) == WithinScope && !Accepts(g, FileOf(fs, scope, text))
  {
    hide Good, Reachable, ComplianceOf, Judge, FileOf, Accepts, RootsInside, ScopeOf, Ground;
    ReachableIsGood(fs, st);
    var scope, body := ScopeAt(fs, st, req).value, st.approvals[req.binding.approval].body;
    ScopeIsValid(fs, FrozenScope(st.bindings[req.binding]), body, req.isDirectory);
    GroundIsFixed(fs, body, g);
    AcceptedInsideIff(fs, scope, g);
    forall text ensures ComplianceOf(fs, st, Changing(req, text)) == WithinScope <==> Judge(fs, scope, text).ok {
      OneChange(fs, st, req, text);
    }
  }
}
