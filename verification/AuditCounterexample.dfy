/** A run with two binds in one second, after which the audit and the binder disagree. */
module AuditCounterexample {
  import opened Text
  import opened ScopePaths
  import opened Proposals
  import opened Authority
  import opened AuthoritySteps
  import opened AuthorityRuns
  import opened Audit

  predicate HasBinding(st: Store, approval: ApprovalId) {
    exists k :: k in st.bindings && k.approval == approval
  }

  /** Bind for run A, let it fail, bind for run B in the same second, let it complete. */
  function TwinRun(a: BindingId, b: BindingId, reqA: BindRequest, reqB: BindRequest, now: int): seq<Op> {
    [Op.Binding(reqA, now), Moving(a, Failed), Op.Binding(reqB, now), Moving(b, Completed)]
  }

  lemma {:induction false} RunFour(fs: Fs, st: Store, a: Op, b: Op, c: Op, d: Op)
    ensures RunFrom(fs, st, [a, b, c, d]) == Step(fs, Step(fs, Step(fs, Step(fs, st, a), b), c), d)
  {
    hide Step;
    var s1 := Step(fs, st, a);
    var s2 := Step(fs, s1, b);
    var s3 := Step(fs, s2, c);
    assert [a, b, c, d][1..] == [b, c, d] && [b, c, d][1..] == [c, d] && [c, d][1..] == [d] && [d][1..] == [];
    assert RunFrom(fs, st, [a, b, c, d]) == RunFrom(fs, s1, [b, c, d]);
    assert RunFrom(fs, s1, [b, c, d]) == RunFrom(fs, s2, [c, d]);
    assert RunFrom(fs, s2, [c, d]) == RunFrom(fs, s3, [d]);
    assert RunFrom(fs, Step(fs, s3, d), []) == Step(fs, s3, d);
  }

  /** The parts of a request that the checks on approval, target and roots look at. */
  predicate SameGround(fs: Fs, a: Approval, req: BindRequest, workspace: Path) {
    && CheckRequest(fs, a, req) == Ok(workspace) && req.isDirectory && a.body.allowedRoots != []
    && ResolveRoots(fs, a.body.allowedRoots, workspace).Ok? && ResolveRoots(fs, a.body.deniedRoots, workspace).Ok?
  }

  function MintedId(a: Approval, req: BindRequest): BindingId {
    BindingId(a.id, Strip(req.runId), req.boundAt, a.body.targetId)
  }

  function Minted(fs: Fs, a: Approval, req: BindRequest, workspace: Path): Authority.Binding
    requires SameGround(fs, a, req, workspace)
  {
    var allowed := ResolveRoots(fs, a.body.allowedRoots, workspace).value;
    var denied := ResolveRoots(fs, a.body.deniedRoots, workspace).value;
    var kept := Stored(Scope(workspace, allowed, denied));
    Authority.Binding(MintedId(a, req), a.id.hash, a.body.baseSha, kept.workspace, kept.allowed, kept.denied, Active)
  }

  /** A bind on sound ground, of a live approval that nothing blocks, mints. */
  lemma Mints(fs: Fs, st: Store, a: Approval, req: BindRequest, workspace: Path, now: int)
    requires Good(fs, st) && req.approval in st.approvals && st.approvals[req.approval] == a && a.id == req.approval
    requires Evaluate(a, now) == a && a.status == Approved && Strip(req.runId) != ""
    requires SameGround(fs, a, req, workspace)
    requires !Blocking(st, a.id) && !Busy(st, a.body.targetId) && MintedId(a, req) !in st.bindings
    ensures CreateBinding(st, fs, req, now).0
      == st.(bindings := st.bindings[MintedId(a, req) := Minted(fs, a, req, workspace)])
  {
    hide Good, LoadApproval, Strip, CheckRequest, ResolveRoots, Blocking, Busy, Stored;
    Loads(fs, st, req.approval, now);
    assert st.approvals[req.approval := a] == st.approvals;
    SameBlocking(st, CheckApproval(st, req.approval, now).0, a.id);
  }

  /** A live approval that can be bound for this request. */
  ghost predicate Bindable(fs: Fs, st: Store, a: Approval, req: BindRequest, workspace: Path, now: int) {
    && WellBehaved(fs) && Good(fs, st) && req.approval in st.approvals && st.approvals[req.approval] == a
    && Evaluate(a, now) == a && a.status == Approved && a.id == req.approval && Strip(req.runId) != ""
    && SameGround(fs, a, req, workspace) && !Blocking(st, a.id) && !Busy(st, a.body.targetId)
    && MintedId(a, req) !in st.bindings
  }

  /** Binding and then moving on leaves one more record, of that status. */
  lemma BindAndMove(fs: Fs, st: Store, a: Approval, req: BindRequest, workspace: Path, now: int, to: BindingStatus)
    requires Bindable(fs, st, a, req, workspace, now) && to != Active
    ensures
      var id := MintedId(a, req);
      var next := TransitionBinding(CreateBinding(st, fs, req, now).0, id, to).0;
      && next == st.(bindings := st.bindings[id := Minted(fs, a, req, workspace).(status := to)]) && Good(fs, next)
  {
    hide Good, CreateBinding, Strip, SameGround, Evaluate, Blocking, Busy, TransitionBinding, Later;
    var id := MintedId(a, req);
    Mints(fs, st, a, req, workspace, now);
    BindKeeps(fs, st, req, now);
    Moved(fs, CreateBinding(st, fs, req, now).0, id, to);
    assert st.bindings[id := Minted(fs, a, req, workspace)][id := Minted(fs, a, req, workspace).(status := to)]
      == st.bindings[id := Minted(fs, a, req, workspace).(status := to)];
  }

  /**
   * From every good store in which a live approval has no binding yet and could be bound, two binds in one second
   * lead to a store whose listing may end on either record: ending on the failed one the audit asks for a new binding
   * that the binder refuses, ending on the completed one the two agree.
   */
  lemma TwinBindsDisagree(fs: Fs, st: Store, a: Approval, reqA: BindRequest, runB: string, workspace: Path, now: int)
    requires Bindable(fs, st, a, reqA, workspace, now) && !HasBinding(st, a.id)
    requires Strip(runB) != "" && Strip(runB) != Strip(reqA.runId)
    ensures
      var reqB := reqA.(runId := runB);
      var idA, idB := MintedId(a, reqA), MintedId(a, reqB);
      var next := RunFrom(fs, st, TwinRun(idA, idB, reqA, reqB, now));
      && a.id in next.approvals
      && IsLatest(next.bindings, a.id, Some(idA)) && !Agrees(next, a.id, now, Some(idA))
      && IsLatest(next.bindings, a.id, Some(idB)) && Agrees(next, a.id, now, Some(idB))
  {
    hide Good, CreateBinding, Strip, SameGround, Agrees, TransitionBinding, Evaluate, Blocking, Busy, IsLatest;
    var reqB := reqA.(runId := runB);
    var idA, idB := MintedId(a, reqA), MintedId(a, reqB);
    SameGroundB(fs, a, reqA, runB, workspace);
    BindAndMove(fs, st, a, reqA, workspace, now, Failed);
    var s2 := TransitionBinding(CreateBinding(st, fs, reqA, now).0, idA, Failed).0;
    FailedFrees(st, s2, a, idA);
    BindAndMove(fs, s2, a, reqB, workspace, now, Completed);
    var s4 := TransitionBinding(CreateBinding(s2, fs, reqB, now).0, idB, Completed).0;
    RunFour(fs, st, Op.Binding(reqA, now), Moving(idA, Failed), Op.Binding(reqB, now), Moving(idB, Completed));
    TwinsHide(st, s4, a.id, idA, idB);
    AgreesMeans(fs, s4, a.id, now, Some(idA));
    AgreesMeans(fs, s4, a.id, now, Some(idB));
  }

  /** Of two records with one stamp either may be listed last, and only the completed one blocks. */
  lemma TwinsHide(st: Store, next: Store, approval: ApprovalId, a: BindingId, b: BindingId)
    requires !HasBinding(st, approval) && a.approval == approval == b.approval && a != b && a.boundAt == b.boundAt
    requires a in next.bindings && b in next.bindings
    requires next.bindings == st.bindings[a := next.bindings[a]][b := next.bindings[b]]
    requires next.bindings[a].status == Failed && next.bindings[b].status == Completed
    ensures IsLatest(next.bindings, approval, Some(a)) && IsLatest(next.bindings, approval, Some(b))
    ensures Blocking(next, approval) && !Blocks(next.bindings[a].status) && Blocks(next.bindings[b].status)
  {
    forall k | k in next.bindings && k.approval == approval ensures k == a || k == b {
      assert k != a && k != b ==> k in st.bindings;
    }
  }

  lemma SameGroundB(fs: Fs, a: Approval, req: BindRequest, run: string, workspace: Path)
    requires SameGround(fs, a, req, workspace)
    ensures SameGround(fs, a, req.(runId := run), workspace)
  {
  }

  lemma Moved(fs: Fs, st: Store, id: BindingId, to: BindingStatus)
    requires Good(fs, st) && id in st.bindings && st.bindings[id].status == Active && to != Active
    ensures TransitionBinding(st, id, to).0 == st.(bindings := st.bindings[id := st.bindings[id].(status := to)])
    ensures Good(fs, TransitionBinding(st, id, to).0)
  {
    hide Good;
    BindingMoved(fs, st, id, to);
  }

  lemma FailedFrees(st: Store, next: Store, a: Approval, id: BindingId)
    requires !HasBinding(st, a.id) && !Busy(st, a.body.targetId) && id.approval == a.id
    requires id in next.bindings && next.bindings[id].status == Failed
    requires next.bindings == st.bindings[id := next.bindings[id]]
    ensures !Blocking(next, a.id) && !Busy(next, a.body.targetId)
    ensures forall k :: k in next.bindings && k.approval == a.id ==> k == id
  {
  }

  // ---- Such a store exists ---------------------------------------------------------------------

  const SHA := seq(40, _ => 'a')
  const PLAIN := Fs((p: Path) => if IsClean(p) then Some(p) else None)
  const WORKSPACE: Path := ["w"]

  function ProposalOf(body: Body): ProposalId { ProposalId("run", HashOf(body)) }

  function ApprovalOf(body: Body): ApprovalId { ApprovalId(ProposalOf(body), 0, "op", 60, HashOf(body)) }

  function RequestOf(body: Body): BindRequest {
    BindRequest(ApprovalOf(body), "a", None, Some(WORKSPACE), true, Some(body.baseSha), true, 7)
  }

  function Opening(body: Body): seq<Op> {
    [Proposing("run", body.AsRaw()), Approving(ProposalOf(body), 60, "op", 0, 0)]
  }

  /** The store after the proposal and the approval. */
  function Opened(body: Body): Store {
    var id := ApprovalOf(body);
    Store(map[ProposalOf(body) := body], map[id := Approval(id, body, Approved)], map[], map[], map[])
  }

  const BODY := Body("t", SHA, ["docs"], [], "r", [], true, false)

  lemma PlainIsWellBehaved()
    ensures WellBehaved(PLAIN) && NoSymlinks(PLAIN)
  {
  }

  lemma DocsIsNormal()
    ensures NormalizePath("docs") == Some("docs") && UnderDocs("docs") && Segments("docs") == ["docs"]
  {
    var s := "docs";
    StripTrimmed(s);
    SplitWhole(s, '/');
    assert DropSlashes(s) == s;
    assert forall i :: 0 <= i < |s| ==> !ForbiddenChar(s[i]);
    assert s != "." && s != "./" && s + "" == s;
    assert ["docs"][1..] == [] && DropTrivial([s]) == [s] + DropTrivial([]);
    assert s != ".." && s != "";
  }

  lemma BodyIsFrozen()
    ensures ValidateBody(BODY.AsRaw()) == Some(BODY) && NormalizeBody(BODY.AsRaw()) == Some(BODY)
  {
    hide NormalizePath, UnderDocs, Strip;
    DocsIsNormal();
    ShaFixed(SHA);
    StripTrimmed("t");
    StripTrimmed("r");
    NormalRootsFixed(["docs"]);
    NormalRootsFixed([]);
    NormalRootsStripped(["docs"]);
    NormalRootsStripped([]);
  }

  lemma NamesAreFine()
    ensures Strip("run") == "run" && Strip("op") == "op" && Strip("a") == "a" && Strip("b") == "b" && IsOperator("op")
  {
    StripTrimmed("run");
    StripTrimmed("op");
    StripTrimmed("a");
    StripTrimmed("b");
    assert |Lower("op")| == 2 && Lower("op")[0] == 'o';
  }

  lemma OpeningRuns(body: Body)
    requires ValidateBody(body.AsRaw()) == Some(body) == NormalizeBody(body.AsRaw())
    ensures RunFrom(PLAIN, EMPTY, Opening(body)) == Opened(body) && Good(PLAIN, Opened(body))
  {
    hide NormalizeBody, ValidateBody, Strip, IsOperator, HashOf, Good;
    NamesAreFine();
    var ops := Opening(body);
    var proposed := EMPTY.(proposals := map[ProposalOf(body) := body]);
    assert Step(PLAIN, EMPTY, ops[0]) == proposed;
    assert LoadProposal(proposed, ProposalOf(body)) == Ok(body);
    assert Step(PLAIN, proposed, ops[1]) == Opened(body);
    assert ops[1..] == [ops[1]] && [ops[1]][1..] == [];
    assert RunFrom(PLAIN, EMPTY, ops) == RunFrom(PLAIN, proposed, [ops[1]]);
    assert RunFrom(PLAIN, Opened(body), []) == Opened(body);
    PlainIsWellBehaved();
    StartsRight(PLAIN);
    RunKeeps(PLAIN, EMPTY, ops);
  }

  lemma GroundIsSound()
    ensures SameGround(PLAIN, Approval(ApprovalOf(BODY), BODY, Approved), RequestOf(BODY), WORKSPACE)
  {
    hide ResolveRoot, Strip, Segments, IsClean;
    DocsResolve();
    assert IsClean(WORKSPACE) by { CleanWorkspace(); }
    var one := ["docs"];
    assert one[..0] == [];
    assert ResolveRoots(PLAIN, [], WORKSPACE) == Ok([]);
    assert ResolveRoots(PLAIN, one, WORKSPACE) == Ok([] + [WORKSPACE + ["docs"]]);
  }

  lemma CleanWorkspace()
    ensures IsClean(WORKSPACE) && IsClean(WORKSPACE + ["docs"])
  {
    var s, t := "w", "docs";
    assert s[0] == 'w' && t[0] == 'd' && |t| == 4;
  }

  lemma DocsResolve()
    ensures ResolveRoot(PLAIN, "docs", WORKSPACE) == Ok(WORKSPACE + ["docs"])
  {
    hide Strip, Segments, IsClean;
    DocsIsNormal();
    StripTrimmed("docs");
    CleanWorkspace();
    var s := "docs";
    assert s[0] == 'd' && |s| == 4;
  }

  /** A whole run from the empty store after which the audit and the binder disagree. */
  lemma AuditMisleads()
    ensures exists fs, ops, id, now, latest ::
      && WellBehaved(fs) && id in RunFrom(fs, EMPTY, ops).approvals
      && IsLatest(RunFrom(fs, EMPTY, ops).bindings, id, latest) && !Agrees(RunFrom(fs, EMPTY, ops), id, now, latest)
  {
    hide RunFrom, Agrees, IsLatest, SameGround, Good, WellBehaved, NoSymlinks, Strip, ValidateBody, NormalizeBody;
    PlainIsWellBehaved();
    BodyIsFrozen();
    OpeningRuns(BODY);
    GroundIsSound();
    NamesAreFine();
    var a, req := Approval(ApprovalOf(BODY), BODY, Approved), RequestOf(BODY);
    TwinBindsDisagree(PLAIN, Opened(BODY), a, req, "b", WORKSPACE, 1);
    var twin := TwinRun(MintedId(a, req), MintedId(a, req.(runId := "b")), req, req.(runId := "b"), 1);
    RunsJoin(PLAIN, EMPTY, Opening(BODY), twin);
    var last := Some(MintedId(a, req));
    assert WellBehaved(PLAIN) && a.id in RunFrom(PLAIN, EMPTY, Opening(BODY) + twin).approvals;
    assert IsLatest(RunFrom(PLAIN, EMPTY, Opening(BODY) + twin).bindings, a.id, last);
  }

  lemma {:induction false} RunsJoin(fs: Fs, st: Store, a: seq<Op>, b: seq<Op>)
    ensures RunFrom(fs, st, a + b) == RunFrom(fs, RunFrom(fs, st, a), b)
    decreases |a|
  {
    hide Step;
    if a == [] {
      assert a + b == b;
    } else {
      assert (a + b)[0] == a[0] && (a + b)[1..] == a[1..] + b;
      RunsJoin(fs, Step(fs, st, a[0]), a[1..], b);
    }
  }
}
