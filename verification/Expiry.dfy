/** Lazy expiry, noticed at the next call, refines eager expiry, where every approval expires on the dot. */
module Expiry {
  import opened Text
  import opened Authority
  import opened Proposals
  import ScopePaths
  import AuthorityRuns

  datatype Call =
    | Load(id: ApprovalId, at: int)
    | Revocation(id: ApprovalId, reason: string, who: string, at: int)
    | Consumption(id: ApprovalId, at: int)

  /** What the caller sees: the record, or the refusal. */
  type Seen = Result<Approval, Fault>

  // ---- The code: expiry is evaluated when a record is loaded -----------------------------------

  function Lazy(st: Store, call: Call): (Store, Seen) {
    match call
    case Load(id, at) => LoadApproval(st, id, at)
    case Revocation(id, reason, who, at) => Revoke(st, id, reason, who, at, at)
    case Consumption(id, at) => Consume(st, id, at)
  }

  function LazyRun(st: Store, calls: seq<Call>): seq<Seen>
    decreases |calls|
  {
    if calls == [] then [] else [Lazy(st, calls[0]).1] + LazyRun(Lazy(st, calls[0]).0, calls[1..])
  }

  // ---- The reference: the clock itself flips every due approval, calls only look ----------------

  function Tick(approvals: map<ApprovalId, Approval>, now: int): map<ApprovalId, Approval> {
    map id | id in approvals :: if approvals[id].status == Approved && now >= approvals[id].id.expiresAt
      then approvals[id].(status := Expired) else approvals[id]
  }

  function Eager(approvals: map<ApprovalId, Approval>, call: Call): (map<ApprovalId, Approval>, Seen) {
    if call.Revocation? && !IsOperator(call.who) then (approvals, Err(NotOperator))
    else if call.Revocation? && Strip(call.reason) == "" then (approvals, Err(MissingReason))
    else if call.id !in approvals then (approvals, Err(NotFound))
    else
      var a := approvals[call.id];
      match call
      case Load(_, _) => (approvals, Ok(a))
      case Revocation(_, _, _, _) =>
        if a.status == Revoked then (approvals, Ok(a))
        else if a.status != Approved then (approvals, Err(Terminal))
        else (approvals[call.id := a.(status := Revoked)], Ok(a.(status := Revoked)))
      case Consumption(_, _) =>
        if a.status != Approved then (approvals, Err(IllegalTransition))
        else (approvals[call.id := a.(status := Consumed)], Ok(a.(status := Consumed)))
  }

  function EagerRun(approvals: map<ApprovalId, Approval>, calls: seq<Call>): seq<Seen>
    decreases |calls|
  {
    if calls == [] then []
    else
      var (next, seen) := Eager(Tick(approvals, calls[0].at), calls[0]);
      [seen] + EagerRun(next, calls[1..])
  }

  // ---- Refinement ------------------------------------------------------------------------------

  /** Each record stands under its own id and passes its integrity check, as in every reachable store. */
  ghost predicate Sound(st: Store) {
    forall id :: id in st.approvals ==>
      && st.approvals[id].id == id && Verify(st.approvals[id]) == Ok(st.approvals[id])
      && (st.approvals[id].status == Revoked ==> id in st.revocations)
  }

  predicate Ordered(calls: seq<Call>) {
    forall i, j :: 0 <= i < j < |calls| ==> calls[i].at <= calls[j].at
  }

  /** From time `t` on the two stores cannot be told apart. */
  ghost predicate Agree(st: Store, approvals: map<ApprovalId, Approval>, t: int) {
    Tick(st.approvals, t) == Tick(approvals, t)
  }

  lemma AgreeLater(a: map<ApprovalId, Approval>, b: map<ApprovalId, Approval>, t: int, later: int)
    requires Tick(a, t) == Tick(b, t) && t <= later
    ensures Tick(a, later) == Tick(b, later)
  {
    assert a.Keys == Tick(a, t).Keys == Tick(b, t).Keys == b.Keys;
    forall id | id in a ensures Tick(a, later)[id] == Tick(b, later)[id] {
      assert Tick(a, t)[id] == Tick(b, t)[id];
    }
  }

  lemma LazyLoads(st: Store, id: ApprovalId, at: int)
    requires Sound(st) && id in st.approvals
    ensures
      var (next, seen) := LoadApproval(st, id, at);
      && seen == Ok(Tick(st.approvals, at)[id])
      && next == st.(approvals := st.approvals[id := seen.value])
      && Sound(next) && Tick(next.approvals, at) == Tick(st.approvals, at)
  {
    hide Verify;
    var a := st.approvals[id];
    assert Verify(a) == Ok(a);
    var seen := Evaluate(a, at);
    StatusIsUnchecked(a, seen.status);
    assert st.approvals[id := a] == st.approvals;
  }

  lemma StatusIsUnchecked(a: Approval, s: ApprovalStatus)
    requires Verify(a) == Ok(a)
    ensures Verify(a.(status := s)) == Ok(a.(status := s))
  {
  }

  /** One call: the same answer, and stores that still agree. */
  lemma LazyStep(st: Store, approvals: map<ApprovalId, Approval>, call: Call)
    requires Sound(st) && Agree(st, approvals, call.at)
    ensures
      var (next, seen) := Lazy(st, call);
      var (ticked, expected) := Eager(Tick(approvals, call.at), call);
      && seen == expected && Sound(next) && Agree(next, ticked, call.at)
  {
    hide Verify, IsOperator, LoadApproval, Evaluate, Tick, Sound, Strip;
    var t := Tick(st.approvals, call.at);
    TickTwice(st.approvals, call.at);
    if call.id in st.approvals {
      LazyLoads(st, call.id, call.at);
      var st1 := LoadApproval(st, call.id, call.at).0;
      SoundHasRecord(st1, call.id);
      if call.Revocation? {
        var record := RevocationRecord(Strip(call.who), call.at, Strip(call.reason));
        PutKeeps(st1, st1.revocations[call.id := record], t, call.at, call.id, Revoked);
      }
      PutKeeps(st1, st1.revocations, t, call.at, call.id, Consumed);
    } else {
      LoadsNothing(st, call.id, call.at);
    }
  }

  lemma SoundHasRecord(st: Store, id: ApprovalId)
    requires Sound(st) && id in st.approvals
    ensures st.approvals[id].status == Revoked ==> id in st.revocations
  {
  }

  lemma LoadsNothing(st: Store, id: ApprovalId, at: int)
    requires id !in st.approvals
    ensures LoadApproval(st, id, at) == (st, Err(NotFound))
  {
  }

  lemma TickTwice(a: map<ApprovalId, Approval>, t: int)
    ensures Tick(a, t).Keys == a.Keys && Tick(Tick(a, t), t) == Tick(a, t)
  {
    assert Tick(a, t).Keys == a.Keys;
  }

  /** Ending a live approval keeps the lazy store sound and in step with the ticked one. */
  lemma PutKeeps(st: Store, revocations: map<ApprovalId, RevocationRecord>, b: map<ApprovalId, Approval>, t: int,
      id: ApprovalId, to: ApprovalStatus)
    requires Sound(st) && id in st.approvals && Tick(st.approvals, t) == Tick(b, t)
    requires st.revocations.Keys <= revocations.Keys && (to == Revoked ==> id in revocations)
    ensures
      var a := st.approvals[id].(status := to);
      var next := st.(approvals := st.approvals[id := a], revocations := revocations);
      Sound(next) && Agree(next, b[id := a], t)
  {
    hide ValidateBody;
    StatusIsUnchecked(st.approvals[id], to);
    PutAgrees(st.approvals, b, t, id, st.approvals[id].(status := to));
  }

  lemma PutAgrees(a: map<ApprovalId, Approval>, b: map<ApprovalId, Approval>, t: int, id: ApprovalId, x: Approval)
    requires Tick(a, t) == Tick(b, t)
    ensures Tick(a[id := x], t) == Tick(b[id := x], t)
  {
    assert a.Keys == Tick(a, t).Keys == Tick(b, t).Keys == b.Keys;
    forall k | k in a && k != id ensures Tick(a[id := x], t)[k] == Tick(b[id := x], t)[k] {
      assert Tick(a, t)[k] == Tick(b, t)[k];
    }
  }

  lemma {:induction false} LazyRefinesFrom(st: Store, approvals: map<ApprovalId, Approval>, calls: seq<Call>)
    requires Sound(st) && Ordered(calls)
    requires calls != [] ==> Agree(st, approvals, calls[0].at)
    ensures LazyRun(st, calls) == EagerRun(approvals, calls)
    decreases |calls|
  {
    hide Lazy, Eager, Tick, Sound;
    if calls != [] {
      LazyStep(st, approvals, calls[0]);
      var next, ticked := Lazy(st, calls[0]).0, Eager(Tick(approvals, calls[0].at), calls[0]).0;
      if |calls| > 1 {
        AgreeLater(next.approvals, ticked, calls[0].at, calls[1].at);
      }
      LazyRefinesFrom(next, ticked, calls[1..]);
    }
  }

  /** For every schedule with non-decreasing times each observation is the one an exact clock would give. */
  lemma LazyRefinesEager(st: Store, calls: seq<Call>)
    requires Sound(st) && Ordered(calls)
    ensures LazyRun(st, calls) == EagerRun(st.approvals, calls)
  {
    LazyRefinesFrom(st, st.approvals, calls);
  }

  /** In particular from every store a run of operations can reach. */
  lemma LazyRefinesEagerReachable(fs: ScopePaths.Fs, st: Store, calls: seq<Call>)
    requires ScopePaths.WellBehaved(fs) && AuthorityRuns.Reachable(fs, st) && Ordered(calls)
    ensures LazyRun(st, calls) == EagerRun(st.approvals, calls)
  {
    hide LazyRun, EagerRun, Verify, AuthorityRuns.Reachable;
    AuthorityRuns.RecordsAlwaysVerify(fs, st);
    AuthorityRuns.StoredUnderOwnIds(fs, st);
    AuthorityRuns.RevokedForGood(fs, st, []);
    LazyRefinesEager(st, calls);
  }
}
