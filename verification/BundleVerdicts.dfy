/** What becomes of each finaliser of a run: what it needs to get on, what stops it, and what it leaves behind. */
module BundleVerdicts {
  import opened Text
  import opened Bundle
  import opened BundleRuns

  /** What is known of a finaliser from where it stands. */
  ghost predicate Underway(env: Env, p: Process, staged: Tree) {
    && p.inputs.Typed()
    && match p.phase
       case Writing(n) => p.inputs.Accepted() && n <= 5 && staged == WrittenUpTo(env, p.inputs, n)
       case Written => Writable(env, p.inputs)
       case Signed => Writable(env, p.inputs)
       case Checked => Writable(env, p.inputs)
       case Cleared => Writable(env, p.inputs)
       case Published(_) => Writable(env, p.inputs)
       case _ => true
  }

  ghost predicate AllUnderway(env: Env, d: Disk) {
    forall id :: id in d.processes ==> Underway(env, d.processes[id], StagedTree(d, id))
  }

  /** A move touches its own process and staging directory only. */
  lemma MoveFrame(env: Env, d: Disk, id: nat, k: nat, fails: bool, signed: Tree)
    requires id in d.processes && d.processes[id].inputs.Typed()
    ensures
      var next := Advance(env, d, id, fails, signed);
      && (k in next.processes <==> k in d.processes)
      && (k in d.processes && k != id ==>
            next.processes[k] == d.processes[k] && StagedTree(next, k) == StagedTree(d, k))
  {
    hide Consistent, Sealed, ClaimsUnsigned, Planned, RenameLands;
  }

  lemma WritingUnderway(env: Env, d: Disk, id: nat, n: nat, fails: bool, signed: Tree)
    requires id in d.processes && d.processes[id].phase == Writing(n)
    requires Underway(env, d.processes[id], StagedTree(d, id))
    ensures
      var next := Advance(env, d, id, fails, signed);
      Underway(env, next.processes[id], StagedTree(next, id))
  {
    hide Writable, Consistent, WrittenUpTo, Planned, WrittenTree;
    var inp := d.processes[id].inputs;
    assert |Planned(env, inp)| == 5 by { FivePlanned(env, inp); }
    if n < 5 {
      WrittenNext(env, inp, n);
    } else {
      AllFilesWritten(env, inp);
      WritableIff(env, inp);
    }
  }

  lemma MoveUnderway(env: Env, d: Disk, id: nat, fails: bool, signed: Tree)
    requires id in d.processes && Underway(env, d.processes[id], StagedTree(d, id))
    ensures
      var next := Advance(env, d, id, fails, signed);
      Underway(env, next.processes[id], StagedTree(next, id))
  {
    hide Writable, Consistent, Sealed, ClaimsUnsigned, WrittenUpTo, Planned, RenameLands;
    var p := d.processes[id];
    match p.phase
    case Writing(n) => WritingUnderway(env, d, id, n, fails, signed);
    case Named =>
      assert |Planned(env, p.inputs)| == 5 by { FivePlanned(env, p.inputs); }
      assert WrittenUpTo(env, p.inputs, 0) == map[] by { NothingWritten(env, p.inputs); }
    case _ =>
  }

  lemma StepUnderway(env: Env, d: Disk, e: Event)
    requires AllUnderway(env, d)
    ensures AllUnderway(env, Step(env, d, e))
  {
    hide Writable, Advance;
    if e.Move? && e.id in d.processes {
      assert Underway(env, d.processes[e.id], StagedTree(d, e.id));
      MoveUnderway(env, d, e.id, e.fails, e.signed);
      forall k | k in Step(env, d, e).processes
        ensures Underway(env, Step(env, d, e).processes[k], StagedTree(Step(env, d, e), k))
      {
        MoveFrame(env, d, e.id, k, e.fails, e.signed);
        assert Underway(env, d.processes[k], StagedTree(d, k));
      }
    }
  }

  lemma {:induction false} RunUnderway(env: Env, d: Disk, events: seq<Event>)
    requires AllUnderway(env, d)
    ensures AllUnderway(env, Run(env, d, events))
    decreases |events|
  {
    hide AllUnderway, Step;
    if events != [] {
      StepUnderway(env, d, events[0]);
      RunUnderway(env, Step(env, d, events[0]), events[1..]);
    }
  }

  /** Whoever published was handed writable documents. */
  lemma PublishedWasWritable(env: Env, events: seq<Event>, id: nat)
    requires id in Run(env, IDLE, events).processes && Run(env, IDLE, events).processes[id].phase.Published?
    ensures
      var inp := Run(env, IDLE, events).processes[id].inputs;
      inp.Typed() && Writable(env, inp)
  {
    hide Run, Writable;
    RunUnderway(env, IDLE, events);
    assert Underway(env, Run(env, IDLE, events).processes[id], StagedTree(Run(env, IDLE, events), id));
  }

  /** A finaliser that has given up. */
  predicate GaveUp(d: Disk, id: nat) {
    id in d.processes && (d.processes[id].phase == Abandoning || d.processes[id].phase == Gone)
  }

  /** One that has ended well. */
  predicate Done(d: Disk, id: nat) {
    id in d.processes && d.processes[id].phase.Published?
  }

  /** What is settled stays: the inputs, giving up and publishing. */
  lemma StepSettled(env: Env, d: Disk, e: Event, id: nat)
    requires id in d.processes
    ensures
      var next := Step(env, d, e);
      && id in next.processes && next.processes[id].inputs == d.processes[id].inputs
      && (GaveUp(d, id) ==> GaveUp(next, id)) && (Done(d, id) ==> next.processes[id] == d.processes[id])
  {
    hide Planned, Consistent, Sealed, ClaimsUnsigned;
  }

  lemma {:induction false} RunSettled(env: Env, d: Disk, events: seq<Event>, id: nat)
    requires id in d.processes
    ensures
      var next := Run(env, d, events);
      && id in next.processes && next.processes[id].inputs == d.processes[id].inputs
      && (GaveUp(d, id) ==> GaveUp(next, id)) && (Done(d, id) ==> next.processes[id] == d.processes[id])
    decreases |events|
  {
    hide Step, GaveUp;
    if events != [] {
      StepSettled(env, d, events[0], id);
      RunSettled(env, Step(env, d, events[0]), events[1..], id);
    }
  }

  /** A finaliser that is killed, or meets a failing operation on its way, never publishes, whatever happens after. */
  lemma FailureNeverPublishes(env: Env, d: Disk, e: Event, after: seq<Event>)
    requires (e.Crash? || (e.Move? && e.fails)) && e.id in d.processes && d.processes[e.id].inputs.Typed()
    requires !d.processes[e.id].phase.Published? && (e.Move? ==> d.processes[e.id].phase != Starting)
    ensures GaveUp(Run(env, Step(env, d, e), after), e.id)
  {
    hide Run, GaveUp;
    StopsHere(env, d, e);
    RunSettled(env, Step(env, d, e), after, e.id);
  }

  lemma StopsHere(env: Env, d: Disk, e: Event)
    requires (e.Crash? || (e.Move? && e.fails)) && e.id in d.processes && d.processes[e.id].inputs.Typed()
    requires !d.processes[e.id].phase.Published? && (e.Move? ==> d.processes[e.id].phase != Starting)
    ensures GaveUp(Step(env, d, e), e.id)
  {
  }

  // ---- Latecomers ------------------------------------------------------------------------------

  /** A finaliser that found the final path taken has done nothing. */
  ghost predicate Refused(d: Disk, id: nat) {
    && d.final.Some? && id !in d.staging
    && (id in d.processes ==> d.processes[id].phase == Starting || d.processes[id].phase == Gone)
  }

  lemma StepRefused(env: Env, d: Disk, e: Event, id: nat)
    requires Safe(env, d) && Refused(d, id)
    ensures Refused(Step(env, d, e), id)
  {
    hide Planned, Consistent, Sealed, ClaimsUnsigned, Safe;
    StepKeeps(env, d, e);
  }

  /** Once something is published, whoever comes later touches nothing: no staging directory, no way past the start. */
  lemma LatecomersDoNothing(env: Env, d: Disk, events: seq<Event>, id: nat)
    requires Safe(env, d) && d.final.Some? && id !in d.processes && id !in d.staging
    ensures Refused(Run(env, d, events), id)
  {
    RunRefused(env, d, events, id);
  }

  lemma {:induction false} RunRefused(env: Env, d: Disk, events: seq<Event>, id: nat)
    requires Safe(env, d) && Refused(d, id)
    ensures Refused(Run(env, d, events), id)
    decreases |events|
  {
    hide Safe, Step, Refused;
    if events != [] {
      StepRefused(env, d, events[0], id);
      StepKeeps(env, d, events[0]);
      RunRefused(env, Step(env, d, events[0]), events[1..], id);
    }
  }

  // ---- Cleaning up -----------------------------------------------------------------------------

  /** Giving up removes the staging directory unless the removal fails; publishing moves it. */
  lemma Cleans(env: Env, d: Disk, id: nat, fails: bool, signed: Tree)
    requires id in d.processes && d.processes[id].inputs.Typed()
    ensures
      var next := Step(env, d, Move(id, fails, signed));
      && (d.processes[id].phase == Abandoning ==> (id in next.staging <==> fails && id in d.staging))
      && (next.processes[id].phase.Published? && !d.processes[id].phase.Published? ==> id !in next.staging)
  {
  }
}
