/** What one advance of the campaign gate keeps, wherever it crashes. */
module CampaignSteps {
  import opened Text
  import opened Campaign

  // ---- The invariant of a saved state ----------------------------------------------------------

  ghost predicate PathWithin(p: string, roots: seq<string>, denied: seq<string>) {
    UnderSome(p, roots) && forall j :: 0 <= j < |denied| ==> !Within(p, denied[j])
  }

  /** The authority of a write slice as it stood the envelope and its approval. */
  ghost predicate Granted(grants: Grants, authority: Envelope, s: Slice) {
    IsWrite(s) ==>
      && s.authorityRef.Ref? && InsideEnvelope(authority, s.writeScope)
      && grants.body(s.authorityRef.text).Some? && InsideGrant(s.writeScope, grants.body(s.authorityRef.text).value)
  }

  /** The changed paths of a write slice: under its own roots, under the envelope, under nothing its approval denies. */
  ghost predicate WriteWithin(grants: Grants, authority: Envelope, s: Slice, receipt: Option<Receipt>) {
    IsWrite(s) ==>
      && receipt.Some? && Granted(grants, authority, s)
      && forall p :: p in receipt.value.changed ==>
           && UnderSome(p, s.writeScope.roots.value)
           && PathWithin(p, authority.writeRoots, grants.body(s.authorityRef.text).value.deniedRoots)
  }

  function DecisionAt(st: State, i: nat): Decision {
    if i + 1 < |st.plan| then Continue else Finish
  }

  /**
   * The i-th record is the i-th slice of the plan, whose own criterion was objective, with that criterion
   * overwritten.
   */
  ghost predicate Fulfils(grants: Grants, st: State, i: nat)
    requires i < |st.completed| && i < |st.plan|
  {
    && st.completed[i].slice == Overwritten(st.plan[i]) && Objective(st.plan[i])
    && st.plan[i].sliceId == SliceId(st.campaignId, i + 1)
    && st.completed[i].decision == DecisionAt(st, i)
    && WriteWithin(grants, st.authority, st.plan[i], st.completed[i].receipt)
  }

  ghost predicate PlanKept(grants: Grants, st: State) {
    |st.completed| <= |st.plan| && forall i :: 0 <= i < |st.completed| ==> Fulfils(grants, st, i)
  }

  ghost predicate CurrentKept(grants: Grants, st: State) {
    st.current.Some? ==> |st.completed| < |st.plan| && IsNext(grants, st, st.current.value)
  }

  ghost predicate IsNext(grants: Grants, st: State, s: Slice)
    requires |st.completed| < |st.plan|
  {
    s == st.plan[|st.completed|] && s.sliceId == SliceId(st.campaignId, |st.completed| + 1)
      && Granted(grants, st.authority, s)
  }

  /** Repeats are counted against the budget; every slice either brought new evidence or used one repeat. */
  ghost predicate ProgressKept(st: State) {
    var m, f, c := st.authority.maxNoProgress, |st.fingerprints|, |st.completed|;
    && c <= Allowance(m, f)
    && (st.status != BLOCKED ==> st.noProgress <= m && (f > 0 ==> c + m <= Allowance(m, f) + st.noProgress))
  }

  /** `(m + 1) * f`. */
  function Allowance(m: nat, f: nat): nat { (m + 1) * f }

  lemma AllowanceNext(m: nat, f: nat)
    ensures Allowance(m, f + 1) == Allowance(m, f) + m + 1
    ensures Allowance(m, 0) == 0
  {
    assert (m + 1) * (f + 1) == (m + 1) * f + (m + 1);
  }

  ghost predicate EntryKept(st: State, b: Bound, id: string)
    requires id in b.journal
  {
    && b.journal[id].handoff == Derived(b.mission, st.campaignId, id)
    && (b.journal[id].decision == Some(BlockedNoDispatch) ==> Rank(b.journal[id].phase) < 3 && st.status == BLOCKED)
  }

  ghost predicate JournalKept(st: State) {
    st.bound.Some? ==> forall id :: id in st.bound.value.journal ==> EntryKept(st, st.bound.value, id)
  }

  ghost predicate StateKept(grants: Grants, st: State) {
    PlanKept(grants, st) && CurrentKept(grants, st) && ProgressKept(st) && JournalKept(st)
  }

  /** A slice that may already have been dispatched. */
  ghost predicate Spent(st: State, id: string) {
    match st.bound
    case Some(b) => id in b.journal && Rank(b.journal[id].phase) >= 3
    case None =>
      exists n :: 1 <= n <= |st.completed| + (if st.current.Some? then 1 else 0) && id == SliceId(st.campaignId, n)
  }

  /** No slice is dispatched twice, and every dispatched slice is known to be spent. */
  ghost predicate CallsKept(st: State, calls: seq<Call>) {
    && (forall i, j :: 0 <= i < j < |calls| && calls[i].Dispatch? ==> calls[j] != calls[i])
    && (forall i :: 0 <= i < |calls| && calls[i].Dispatch? ==> Spent(st, calls[i].sliceId))
  }

  ghost predicate Kept(grants: Grants, w: World) {
    StateKept(grants, w.disk) && CallsKept(w.disk, w.calls)
  }

  // ---- Saved states only move forward ----------------------------------------------------------

  ghost predicate JournalLater(before: map<string, Entry>, after: map<string, Entry>) {
    forall id :: id in before ==>
      id in after && after[id].handoff == before[id].handoff && Rank(before[id].phase) <= Rank(after[id].phase)
  }

  ghost predicate Extends(st: State, next: State) {
    && next.campaignId == st.campaignId && next.authority == st.authority && next.plan == st.plan
    && st.completed <= next.completed && (st.bound.None? <==> next.bound.None?)
    && (st.bound.Some? ==>
          && next.bound.value.mission == st.bound.value.mission
          && JournalLater(st.bound.value.journal, next.bound.value.journal))
  }

  ghost predicate Later(st: State, next: State) {
    Extends(st, next) && (IsTerminal(st.status) ==> next == st)
  }

  /** What an effect sequence adds: the file moves forward, calls are appended, and no spent slice is dispatched. */
  ghost predicate Forward(w: World, next: World) {
    && Later(w.disk, next.disk) && w.calls <= next.calls
    && forall k :: |w.calls| <= k < |next.calls| && next.calls[k].Dispatch? ==> !Spent(w.disk, next.calls[k].sliceId)
  }

  lemma ForwardRefl(w: World)
    ensures Forward(w, w)
  {
  }

  lemma LaterTransitive(a: State, b: State, c: State)
    requires Later(a, b) && Later(b, c)
    ensures Later(a, c)
  {
  }

  /** The process and the file agree while the process lives. */
  ghost predicate Live(w: World, st: State) {
    w.power > 0 ==> w.disk == st
  }

  /** Two effect sequences in a row, when spent slices stay spent in between. */
  lemma ForwardTransitive(a: World, b: World, c: World)
    requires Forward(a, b) && Forward(b, c)
    requires forall id :: Spent(a.disk, id) ==> Spent(b.disk, id)
    ensures Forward(a, c)
  {
    hide Spent, JournalLater;
    LaterTransitive(a.disk, b.disk, c.disk);
    forall k | |a.calls| <= k < |c.calls| && c.calls[k].Dispatch? ensures !Spent(a.disk, c.calls[k].sliceId) {
      if k < |b.calls| {
        assert b.calls[k] == c.calls[k];
      }
    }
  }

  lemma SaveKeeps(grants: Grants, w: World, st: State)
    requires Kept(grants, w)
    requires w.power > 0 ==> StateKept(grants, st) && CallsKept(st, w.calls) && Later(w.disk, st)
    ensures Kept(grants, Save(w, st)) && Live(Save(w, st), st) && Save(w, st).calls == w.calls
    ensures Later(w.disk, Save(w, st).disk) && Forward(w, Save(w, st))
  {
    hide StateKept, CallsKept, Spent;
  }

  // ---- Stopping --------------------------------------------------------------------------------

  /** Changing only status and reason, to a blocked or still lawful state. */
  lemma StoppedKeeps(grants: Grants, st: State, status: Status, reason: Reason)
    requires StateKept(grants, st) && !IsTerminal(st.status)
    ensures StateKept(grants, Stopped(st, status, reason)) && Later(st, Stopped(st, status, reason))
    ensures forall id :: Spent(st, id) <==> Spent(Stopped(st, status, reason), id)
  {
    hide Objective, WriteWithin, Granted, SliceId;
    var next := Stopped(st, status, reason);
    forall i | 0 <= i < |next.completed| ensures Fulfils(grants, next, i) {
      assert Fulfils(grants, st, i);
    }
    if st.bound.Some? {
      assert forall id :: id in st.bound.value.journal ==>
        EntryKept(st, st.bound.value, id) && EntryKept(next, next.bound.value, id);
    }
  }

  lemma SaveStoppedKeeps(grants: Grants, w: World, st: State, status: Status, reason: Reason)
    requires Kept(grants, w) && Live(w, st) && (w.power > 0 ==> !IsTerminal(st.status))
    ensures
      var next := Save(w, Stopped(st, status, reason));
      Kept(grants, next) && Forward(w, next)
  {
    hide StateKept, Later, Spent;
    if w.power > 0 {
      StoppedKeeps(grants, st, status, reason);
    }
    SaveKeeps(grants, w, Stopped(st, status, reason));
  }

  // ---- Journal steps ---------------------------------------------------------------------------

  /** Only the entry of `id` changed, forward, with its identity and decision untouched. */
  ghost predicate EntryMoved(st: State, next: State, id: string) {
    && Journaled(st, id) && Journaled(next, id)
    && next == WithEntry(st, id, EntryOf(next, id))
    && EntryOf(next, id).handoff == EntryOf(st, id).handoff && EntryOf(next, id).decision == EntryOf(st, id).decision
    && Rank(EntryOf(st, id).phase) <= Rank(EntryOf(next, id).phase)
  }

  lemma EntryMovedKeeps(grants: Grants, st: State, next: State, id: string)
    requires StateKept(grants, st) && !IsTerminal(st.status) && EntryMoved(st, next, id)
    ensures StateKept(grants, next) && Later(st, next) && next.status == st.status
    ensures forall k :: Spent(st, k) ==> Spent(next, k)
  {
    hide Objective, WriteWithin, Granted, SliceId, Allowance;
    forall i | 0 <= i < |next.completed| ensures Fulfils(grants, next, i) {
      assert Fulfils(grants, st, i);
    }
    assert EntryKept(st, st.bound.value, id);
  }

  /** Saving a journal step. */
  lemma SaveEntryKeeps(grants: Grants, w: World, st: State, next: State, id: string)
    requires Kept(grants, w) && Live(w, st) && StateKept(grants, st) && !IsTerminal(st.status)
      && EntryMoved(st, next, id)
    ensures Kept(grants, Save(w, next)) && Live(Save(w, next), next) && Forward(w, Save(w, next))
    ensures forall k :: Spent(w.disk, k) ==> Spent(Save(w, next).disk, k)
    ensures StateKept(grants, next) && !IsTerminal(next.status)
  {
    hide StateKept, Later, Spent, EntryMoved;
    EntryMovedKeeps(grants, st, next, id);
    SaveKeeps(grants, w, next);
  }

  lemma PrepareCallKeeps(grants: Grants, w: World, id: string)
    requires Kept(grants, w)
    ensures Kept(grants, Invoke(w, Prepare(id))) && Forward(w, Invoke(w, Prepare(id)))
  {
    hide StateKept, Later, Spent;
    ForwardRefl(w);
  }

  /** Dispatching a slice that was not spent before its intent was saved. */
  lemma DispatchCallKeeps(grants: Grants, before: World, w: World, id: string)
    requires Kept(grants, before) && Kept(grants, w) && Forward(before, w) && w.calls == before.calls
    requires w.power > 0 ==> !Spent(before.disk, id) && Spent(w.disk, id)
    ensures Kept(grants, Invoke(w, Dispatch(id))) && Forward(before, Invoke(w, Dispatch(id)))
  {
    hide StateKept, Later, Spent;
    if w.power > 0 {
      forall i | 0 <= i < |w.calls| && w.calls[i].Dispatch? ensures w.calls[i] != Dispatch(id) {
        assert Spent(before.disk, before.calls[i].sliceId);
      }
    }
  }

  /** What every stage of the bound dispatch guarantees. */
  ghost predicate StageKept(grants: Grants, w: World, st: State, id: string, r: Stage) {
    && Kept(grants, r.world) && Forward(w, r.world) && Live(r.world, r.state)
    && StateKept(grants, r.state) && !IsTerminal(r.state.status) && EntryMoved(st, r.state, id)
    && (forall k :: Spent(w.disk, k) ==> Spent(r.world.disk, k))
  }

  lemma EntryMovedRefl(st: State, id: string)
    requires Journaled(st, id)
    ensures EntryMoved(st, st, id)
  {
    assert st.bound.value.journal[id := EntryOf(st, id)] == st.bound.value.journal;
  }

  lemma EntryMovedTransitive(a: State, b: State, c: State, id: string)
    requires EntryMoved(a, b, id) && EntryMoved(b, c, id)
    ensures EntryMoved(a, c, id)
  {
    assert a.bound.value.journal[id := EntryOf(b, id)][id := EntryOf(c, id)]
      == a.bound.value.journal[id := EntryOf(c, id)];
  }

  lemma EntrySet(st: State, id: string, e: Entry)
    requires Journaled(st, id) && e.handoff == EntryOf(st, id).handoff && e.decision == EntryOf(st, id).decision
    requires Rank(EntryOf(st, id).phase) <= Rank(e.phase)
    ensures EntryMoved(st, WithEntry(st, id, e), id) && EntryOf(WithEntry(st, id, e), id) == e
  {
  }

  lemma StageTransitive(grants: Grants, w: World, st: State, id: string, a: Stage, b: Stage)
    requires StageKept(grants, w, st, id, a) && StageKept(grants, a.world, a.state, id, b)
    ensures StageKept(grants, w, st, id, b)
  {
    hide Kept, Spent, StateKept, EntryMoved, Forward;
    EntryMovedTransitive(st, a.state, b.state, id);
    ForwardTransitive(w, a.world, b.world);
  }

  /** Saving a new entry for `id` is a stage. */
  lemma SavedStage(grants: Grants, w: World, st: State, id: string, e: Entry, ok: bool)
    requires Kept(grants, w) && Live(w, st) && StateKept(grants, st) && !IsTerminal(st.status) && Journaled(st, id)
    requires e.handoff == EntryOf(st, id).handoff && e.decision == EntryOf(st, id).decision
    requires Rank(EntryOf(st, id).phase) <= Rank(e.phase)
    ensures StageKept(grants, w, st, id, Stage(Save(w, WithEntry(st, id, e)), WithEntry(st, id, e), ok))
  {
    hide Kept, Spent, StateKept, EntryMoved, Forward, Save;
    EntrySet(st, id, e);
    SaveEntryKeeps(grants, w, st, WithEntry(st, id, e), id);
  }

  lemma IdleStage(grants: Grants, w: World, st: State, id: string, ok: bool)
    requires Kept(grants, w) && Live(w, st) && StateKept(grants, st) && !IsTerminal(st.status) && Journaled(st, id)
    ensures StageKept(grants, w, st, id, Stage(w, st, ok))
  {
    hide Kept, Spent, StateKept, EntryMoved;
    ForwardRefl(w);
    EntryMovedRefl(st, id);
  }

  lemma PreparedStage(grants: Grants, w: World, st: State, id: string, ok: bool)
    requires Kept(grants, w) && Live(w, st) && StateKept(grants, st) && !IsTerminal(st.status) && Journaled(st, id)
    ensures StageKept(grants, w, st, id, Stage(Invoke(w, Prepare(id)), st, ok))
  {
    hide Kept, Spent, StateKept, EntryMoved, Forward;
    PrepareCallKeeps(grants, w, id);
    EntryMovedRefl(st, id);
  }

  lemma PrepareStageKeeps(grants: Grants, w: World, st: State, id: string, ans: Answers)
    requires Kept(grants, w) && Live(w, st) && StateKept(grants, st) && !IsTerminal(st.status) && Journaled(st, id)
    ensures StageKept(grants, w, st, id, PrepareStage(w, st, id, ans))
  {
    hide Kept, Spent, StateKept, EntryMoved, Forward, Save, Invoke;
    var untouched := EntryOf(st, id).phase == NotDispatched;
    var st1 := if untouched then Enter(st, id, PrepareIntent) else st;
    var w1 := if untouched then Save(w, st1) else w;
    if untouched {
      SavedStage(grants, w, st, id, EntryOf(st, id).(phase := PrepareIntent), true);
    } else {
      IdleStage(grants, w, st, id, true);
    }
    if EntryOf(st1, id).phase == PrepareIntent {
      var w2, e := Invoke(w1, Prepare(id)), EntryOf(st1, id).(phase := Prepared, preparedRef := ans.preparedPath);
      PreparedStage(grants, w1, st1, id, false);
      StageTransitive(grants, w, st, id, Stage(w1, st1, true), Stage(w2, st1, false));
      SavedStage(grants, w2, st1, id, e, true);
      StageTransitive(grants, w, st, id, Stage(w2, st1, false),
        Stage(Save(w2, WithEntry(st1, id, e)), WithEntry(st1, id, e), true));
    }
  }

  /** The intent is on disk before the callback runs, and the callback runs only for an unspent slice. */
  lemma SendStage(grants: Grants, w: World, st: State, id: string, ok: bool)
    requires Kept(grants, w) && Live(w, st) && StateKept(grants, st) && !IsTerminal(st.status) && Journaled(st, id)
    requires EntryOf(st, id).phase == Prepared
    ensures
      var st1 := Enter(st, id, DispatchIntent);
      StageKept(grants, w, st, id, Stage(Invoke(Save(w, st1), Dispatch(id)), st1, ok))
  {
    hide Kept, StateKept, EntryMoved, Forward;
    var st1 := Enter(st, id, DispatchIntent);
    SavedStage(grants, w, st, id, EntryOf(st, id).(phase := DispatchIntent), ok);
    DispatchCallKeeps(grants, w, Save(w, st1), id);
  }

  lemma DispatchStageKeeps(grants: Grants, w: World, st: State, id: string, ans: Answers)
    requires Kept(grants, w) && Live(w, st) && StateKept(grants, st) && !IsTerminal(st.status) && Journaled(st, id)
    ensures StageKept(grants, w, st, id, DispatchStage(w, st, id, ans))
    ensures DispatchStage(w, st, id, ans).ok ==> EntryOf(DispatchStage(w, st, id, ans).state, id).phase == Accepted
  {
    hide Kept, Spent, StateKept, EntryMoved, Forward, Save, Invoke, Strip;
    IdleStage(grants, w, st, id, true);
    IdleStage(grants, w, st, id, false);
    if EntryOf(st, id).phase == Prepared {
      var st1 := Enter(st, id, DispatchIntent);
      var w1 := Invoke(Save(w, st1), Dispatch(id));
      SendStage(grants, w, st, id, false);
      if ans.acceptedRef.Some? {
        var e := EntryOf(st1, id).(phase := Accepted, acceptedRef := ans.acceptedRef.value);
        SavedStage(grants, w1, st1, id, e, true);
        StageTransitive(grants, w, st, id, Stage(w1, st1, false),
          Stage(Save(w1, WithEntry(st1, id, e)), WithEntry(st1, id, e), true));
      }
    } else if EntryOf(st, id).phase == DispatchIntent && ans.reconciled.Some? {
      SavedStage(grants, w, st, id, EntryOf(st, id).(phase := Accepted, acceptedRef := ans.reconciled.value), true);
    }
  }

  lemma BoundDispatchKeeps(grants: Grants, w: World, st: State, s: Slice, ans: Answers)
    requires Kept(grants, w) && Live(w, st) && StateKept(grants, st) && !IsTerminal(st.status)
      && Journaled(st, s.sliceId)
    ensures StageKept(grants, w, st, s.sliceId, BoundDispatch(w, st, s, grants, ans))
  {
    hide Kept, Spent, StateKept, EntryMoved, Forward, CheckWriteApproval, PrepareStage, DispatchStage;
    IdleStage(grants, w, st, s.sliceId, false);
    PrepareStageKeeps(grants, w, st, s.sliceId, ans);
    var prepared := PrepareStage(w, st, s.sliceId, ans);
    StageJournaled(grants, w, st, s.sliceId, prepared);
    DispatchStageKeeps(grants, prepared.world, prepared.state, s.sliceId, ans);
    StageTransitive(grants, w, st, s.sliceId, prepared, DispatchStage(prepared.world, prepared.state, s.sliceId, ans));
  }

  lemma StageJournaled(grants: Grants, w: World, st: State, id: string, r: Stage)
    requires StageKept(grants, w, st, id, r)
    ensures Journaled(r.state, id)
  {
    hide Kept, Spent, StateKept, Forward;
  }
}
