/** Publishing evidence bundles: any number of finalisers of one run side by side, each crashing anywhere. */
module BundleRuns {
  import opened Text
  import opened Bundle

  // ---- The protocol ----------------------------------------------------------------------------

  /** Where one `finalize_signed_evidence_bundle` stands. */
  datatype Phase =
    | Starting | Named | Writing(files: nat) | Written | Signed | Checked | Cleared
    | Published(tree: Tree) | Abandoning | Gone

  datatype Process = Process(inputs: Inputs, phase: Phase)

  /** The final path, and the staging directories by the finaliser that made them; their names never clash. */
  datatype Disk = Disk(final: Option<Tree>, staging: map<nat, Tree>, processes: map<nat, Process>)

  const IDLE := Disk(None, map[], map[])

  /** `fails` makes the next operation raise; `signed` is the staging tree as the signer leaves it. */
  datatype Event =
    | Spawn(id: nat, inputs: Inputs)
    | Move(id: nat, fails: bool, signed: Tree)
    | Crash(id: nat)

  function At(d: Disk, id: nat, phase: Phase): Disk
    requires id in d.processes
  {
    d.(processes := d.processes[id := d.processes[id].(phase := phase)])
  }

  function Stage(d: Disk, id: nat, tree: Tree): Disk {
    d.(staging := d.staging[id := tree])
  }

  function StagedTree(d: Disk, id: nat): Tree {
    if id in d.staging then d.staging[id] else map[]
  }

  /** `os.rename` of a directory: it lands on an absent path or an empty directory, and fails on any other. */
  predicate RenameLands(d: Disk) {
    d.final == None || d.final == Some(map[])
  }

  /** What publishing checks once more: a receipt that claims to be finalized without a signature beside it. */
  predicate ClaimsUnsigned(tree: Tree) {
    ReceiptJson in tree && tree[ReceiptJson].ReceiptDoc? && tree[ReceiptJson].finalized && SignatureJson !in tree
  }

  /** One step of a finaliser. */
  function Advance(env: Env, d: Disk, id: nat, fails: bool, signed: Tree): Disk
    requires id in d.processes && d.processes[id].inputs.Typed()
  {
    var inp, phase := d.processes[id].inputs, d.processes[id].phase;
    match phase
    case Starting => At(d, id, if d.final.Some? then Gone else Named)
    case Named =>
      if d.final.Some? || fails || !inp.Accepted() then At(d, id, Gone)
      else At(Stage(d, id, map[]), id, Writing(0))
    case Writing(n) =>
      if fails then At(d, id, Abandoning)
      else if n < |Planned(env, inp)| then
        At(Stage(d, id, StagedTree(d, id)[Planned(env, inp)[n].0 := Planned(env, inp)[n].1]), id, Writing(n + 1))
      else At(d, id, if Consistent(env, StagedTree(d, id)) then Written else Abandoning)
    case Written => if fails then At(d, id, Abandoning) else At(Stage(d, id, signed), id, Signed)
    case Signed => At(d, id, if !fails && Sealed(env, StagedTree(d, id)) then Checked else Abandoning)
    case Checked =>
      At(d, id, if fails || d.final.Some? || ClaimsUnsigned(StagedTree(d, id)) then Abandoning else Cleared)
    case Cleared =>
      if fails || !RenameLands(d) then At(d, id, Abandoning)
      else At(d.(final := Some(StagedTree(d, id)), staging := d.staging - {id}), id, Published(StagedTree(d, id)))
    case Abandoning => At(if fails then d else d.(staging := d.staging - {id}), id, Gone)
    case Published(_) => d
    case Gone => d
  }

  function Step(env: Env, d: Disk, e: Event): Disk {
    match e
    case Spawn(id, inputs) =>
      if id in d.processes || !inputs.Typed() then d else d.(processes := d.processes[id := Process(inputs, Starting)])
    case Move(id, fails, signed) =>
      if id in d.processes && d.processes[id].inputs.Typed() then Advance(env, d, id, fails, signed) else d
    case Crash(id) =>
      if id in d.processes && !d.processes[id].phase.Published? then At(d, id, Gone) else d
  }

  function Run(env: Env, d: Disk, events: seq<Event>): Disk
    decreases |events|
  {
    if events == [] then d else Run(env, Step(env, d, events[0]), events[1..])
  }

  // ---- The invariant ---------------------------------------------------------------------------

  /** A process about to publish holds a sealed tree in its own staging directory. */
  ghost predicate Ready(env: Env, d: Disk, id: nat)
    requires id in d.processes
  {
    d.processes[id].phase == Checked || d.processes[id].phase == Cleared ==>
      id in d.staging && Sealed(env, d.staging[id])
  }

  ghost predicate Safe(env: Env, d: Disk) {
    && (d.final.Some? ==> Sealed(env, d.final.value))
    && (forall id :: id in d.processes ==> Ready(env, d, id))
    && (forall id :: id in d.processes && d.processes[id].phase.Published? ==>
         d.final == Some(d.processes[id].phase.tree))
    && (forall p, q :: p in d.processes && q in d.processes ==>
          d.processes[p].phase.Published? && d.processes[q].phase.Published? ==> p == q)
  }

  lemma SealedIsNotEmpty(env: Env, tree: Tree)
    requires Sealed(env, tree)
    ensures tree != map[] && REQUIRED <= tree.Keys <= REQUIRED + {SignatureJson}
  {
    assert ReceiptJson in REQUIRED;
  }

  /** A step that leaves the final path alone and touches only its own staging directory. */
  lemma OwnStep(env: Env, d: Disk, next: Disk, id: nat)
    requires Safe(env, d) && id in d.processes && !d.processes[id].phase.Published? && next.final == d.final
    requires next.processes.Keys == d.processes.Keys && !next.processes[id].phase.Published? && Ready(env, next, id)
    requires forall k :: k in d.processes && k != id ==>
      && next.processes[k] == d.processes[k]
      && (k in d.staging ==> k in next.staging && next.staging[k] == d.staging[k])
    ensures Safe(env, next)
  {
    hide Sealed;
    forall k | k in next.processes ensures Ready(env, next, k) {
      assert Ready(env, d, k);
    }
  }

  /** The rename: possible only while nothing is there, since what is there is never empty. */
  lemma RenameStep(env: Env, d: Disk, id: nat)
    requires Safe(env, d) && id in d.processes && d.processes[id].phase == Cleared && RenameLands(d)
    ensures d.final.None?
    ensures
      var tree := StagedTree(d, id);
      var next := At(d.(final := Some(tree), staging := d.staging - {id}), id, Published(tree));
      Safe(env, next)
  {
    hide Sealed;
    if d.final.Some? {
      SealedIsNotEmpty(env, d.final.value);
    }
    var next := At(d.(final := Some(StagedTree(d, id)), staging := d.staging - {id}), id, Published(StagedTree(d, id)));
    assert Ready(env, d, id);
    forall k | k in next.processes ensures Ready(env, next, k) {
      assert Ready(env, d, k);
    }
  }

  lemma MoveKeeps(env: Env, d: Disk, id: nat, fails: bool, signed: Tree)
    requires Safe(env, d) && id in d.processes && d.processes[id].inputs.Typed()
    ensures
      var next := Advance(env, d, id, fails, signed);
      Safe(env, next) && (d.final.Some? ==> next.final == d.final)
  {
    hide Sealed, Consistent, Planned, Safe;
    var next, phase := Advance(env, d, id, fails, signed), d.processes[id].phase;
    SafeReady(env, d, id);
    if phase == Cleared && !fails && RenameLands(d) {
      RenameStep(env, d, id);
    } else if !phase.Published? && phase != Gone {
      if phase == Signed && Sealed(env, StagedTree(d, id)) {
        SealedIsNotEmpty(env, StagedTree(d, id));
      }
      OwnStep(env, d, next, id);
    }
  }

  lemma SafeReady(env: Env, d: Disk, id: nat)
    requires Safe(env, d) && id in d.processes
    ensures Ready(env, d, id)
  {
  }

  lemma StepKeeps(env: Env, d: Disk, e: Event)
    requires Safe(env, d)
    ensures Safe(env, Step(env, d, e)) && (d.final.Some? ==> Step(env, d, e).final == d.final)
  {
    hide Sealed, Consistent, Advance;
    if e.Move? && e.id in d.processes && d.processes[e.id].inputs.Typed() {
      MoveKeeps(env, d, e.id, e.fails, e.signed);
    } else {
      var next := Step(env, d, e);
      forall k | k in next.processes ensures Ready(env, next, k) {
        assert k in d.processes ==> Ready(env, d, k);
      }
    }
  }

  lemma {:induction false} RunKeeps(env: Env, d: Disk, events: seq<Event>)
    requires Safe(env, d)
    ensures Safe(env, Run(env, d, events)) && (d.final.Some? ==> Run(env, d, events).final == d.final)
    decreases |events|
  {
    hide Safe, Step;
    if events != [] {
      StepKeeps(env, d, events[0]);
      RunKeeps(env, Step(env, d, events[0]), events[1..]);
    }
  }

  // ---- Theorems --------------------------------------------------------------------------------

  /**
   * At every point of every interleaving, with crashes and failing operations anywhere, the final path is
   * absent or holds one complete bundle: its manifest, hashes and digests are true of its files, it names one run,
   * its documents cohere and its signature holds.
   */
  lemma FinalIsAbsentOrSealed(env: Env, events: seq<Event>)
    ensures
      var d := Run(env, IDLE, events);
      d.final.None? || Guaranteed(env, d.final.value)
  {
    hide Sealed, Run, Guaranteed;
    RunKeeps(env, IDLE, events);
    if Run(env, IDLE, events).final.Some? {
      SealedIff(env, Run(env, IDLE, events).final.value);
    }
  }

  /** Once there, it is never replaced or removed. */
  lemma FinalIsForever(env: Env, before: seq<Event>, after: seq<Event>)
    requires Run(env, IDLE, before).final.Some?
    ensures Run(env, Run(env, IDLE, before), after).final == Run(env, IDLE, before).final
  {
    hide Safe, Run;
    assert Safe(env, IDLE) by { StartsSafe(env); }
    RunKeeps(env, IDLE, before);
    RunKeeps(env, Run(env, IDLE, before), after);
  }

  lemma StartsSafe(env: Env)
    ensures Safe(env, IDLE)
  {
  }

  /** At most one of the finalisers succeeds, and what it published is what is there. */
  lemma OnePublisher(env: Env, events: seq<Event>, p: nat, q: nat)
    requires
      var d := Run(env, IDLE, events);
      && p in d.processes && q in d.processes && d.processes[p].phase.Published? && d.processes[q].phase.Published?
    ensures p == q && Run(env, IDLE, events).final == Some(Run(env, IDLE, events).processes[p].phase.tree)
  {
    hide Sealed, Run;
    StartsSafe(env);
    RunKeeps(env, IDLE, events);
  }

  /** Publishing never refuses a sealed bundle for a missing signature. */
  lemma SealedClaims(env: Env, tree: Tree)
    ensures Sealed(env, tree) ==> !ClaimsUnsigned(tree)
  {
    hide BundleVerifies;
  }

  // ---- A finaliser on its own ------------------------------------------------------------------

  /** `n` moves that do not fail. */
  function Moves(id: nat, n: nat, signed: Tree): seq<Event> {
    seq(n, _ => Move(id, false, signed))
  }

  lemma {:induction false} RunMoves(env: Env, d: Disk, id: nat, n: nat, signed: Tree)
    requires n > 0
    ensures Run(env, d, Moves(id, n, signed))
      == Run(env, Step(env, d, Move(id, false, signed)), Moves(id, n - 1, signed))
  {
    hide Step;
    assert Moves(id, n, signed)[1..] == Moves(id, n - 1, signed);
  }

  /** A lone finaliser that has written `k` of its files. */
  ghost predicate Alone(d: Disk, id: nat, inp: Inputs, phase: Phase, tree: Tree) {
    d.final.None? && d.processes == map[id := Process(inp, phase)] && d.staging == map[id := tree]
  }

  lemma {:induction false} WritesAlone(env: Env, d: Disk, id: nat, inp: Inputs, k: nat, signed: Tree)
    requires inp.Typed() && k <= 5 && |Planned(env, inp)| == 5
    requires Alone(d, id, inp, Writing(k), WrittenUpTo(env, inp, k))
    ensures Alone(Run(env, d, Moves(id, 5 - k, signed)), id, inp, Writing(5), WrittenUpTo(env, inp, 5))
    decreases 5 - k
  {
    hide WrittenUpTo, Planned, Step, Alone, Moves;
    if k < 5 {
      RunMoves(env, d, id, 5 - k, signed);
      WritesOne(env, d, id, inp, k, signed);
      WritesAlone(env, Step(env, d, Move(id, false, signed)), id, inp, k + 1, signed);
    } else {
      assert Moves(id, 0, signed) == [] by { NoMoves(id, signed); }
    }
  }

  lemma NoMoves(id: nat, signed: Tree)
    ensures Moves(id, 0, signed) == []
  {
  }

  lemma WritesOne(env: Env, d: Disk, id: nat, inp: Inputs, k: nat, signed: Tree)
    requires inp.Typed() && k < |Planned(env, inp)| && Alone(d, id, inp, Writing(k), WrittenUpTo(env, inp, k))
    ensures Alone(Step(env, d, Move(id, false, signed)), id, inp, Writing(k + 1), WrittenUpTo(env, inp, k + 1))
  {
    hide Planned, WrittenUpTo;
    WrittenNext(env, inp, k);
    assert d.processes[id].phase == Writing(k);
  }

  lemma WrittenNext(env: Env, inp: Inputs, k: nat)
    requires inp.Typed() && k < |Planned(env, inp)|
    ensures WrittenUpTo(env, inp, k + 1) == WrittenUpTo(env, inp, k)[Planned(env, inp)[k].0 := Planned(env, inp)[k].1]
  {
  }

  /** One move of a lone finaliser past the writing. */
  lemma MovesAlone(env: Env, d: Disk, id: nat, inp: Inputs, phase: Phase, tree: Tree, signed: Tree)
    requires inp.Typed() && Alone(d, id, inp, phase, tree) && phase in {Written, Signed, Checked}
    requires phase != Written ==> Sealed(env, tree)
    ensures
      var next := Step(env, d, Move(id, false, signed));
      match phase
      case Written => Alone(next, id, inp, Signed, signed)
      case Signed => Alone(next, id, inp, Checked, tree)
      case _ => Alone(next, id, inp, Cleared, tree)
  {
    hide Sealed;
    SealedClaims(env, tree);
    assert d.processes[id].phase == phase;
  }

  lemma PublishesAlone(env: Env, d: Disk, id: nat, inp: Inputs, tree: Tree, signed: Tree)
    requires inp.Typed() && Alone(d, id, inp, Cleared, tree)
    ensures Step(env, d, Move(id, false, signed)).final == Some(tree)
  {
    assert d.processes[id].phase == Cleared;
  }

  lemma ChecksAlone(env: Env, d: Disk, id: nat, inp: Inputs, signed: Tree)
    requires inp.Typed() && Writable(env, inp) && |Planned(env, inp)| == 5
    requires Alone(d, id, inp, Writing(5), WrittenUpTo(env, inp, 5))
    ensures Alone(Step(env, d, Move(id, false, signed)), id, inp, Written, WrittenUpTo(env, inp, 5))
  {
    hide Planned, WrittenUpTo, Consistent, Writable;
    WritableIff(env, inp);
    AllFilesWritten(env, inp);
    assert d.processes[id].phase == Writing(5);
  }

  lemma StartsAlone(env: Env, id: nat, inp: Inputs, signed: Tree)
    requires inp.Typed() && Writable(env, inp)
    ensures
      var one := Step(env, IDLE, Spawn(id, inp));
      var two := Step(env, Step(env, one, Move(id, false, signed)), Move(id, false, signed));
      Alone(two, id, inp, Writing(0), map[])
  {
    WritableIff(env, inp) by { hide Consistent, Writable; }
    var one := Step(env, IDLE, Spawn(id, inp));
    assert one.processes == map[id := Process(inp, Starting)];
    var next := Step(env, one, Move(id, false, signed));
    assert next.processes == map[id := Process(inp, Named)];
  }

  /**
   * A finaliser left to itself publishes: with writable inputs and a signer that leaves a guaranteed tree it takes its
   * twelve moves, and what the signer left is on the final path.
   */
  lemma LonePublishes(env: Env, id: nat, inp: Inputs, signed: Tree)
    requires inp.Typed() && Writable(env, inp) && Guaranteed(env, signed)
    ensures Run(env, IDLE, [Spawn(id, inp)] + Moves(id, 12, signed)).final == Some(signed)
  {
    hide Step, Alone, Writable, Guaranteed, Sealed, WrittenUpTo, Planned, Moves;
    SealedIff(env, signed);
    var move := Move(id, false, signed);
    var d0 := Step(env, IDLE, Spawn(id, inp));
    assert ([Spawn(id, inp)] + Moves(id, 12, signed))[1..] == Moves(id, 12, signed);
    StartsAlone(env, id, inp, signed);
    RunMoves(env, d0, id, 12, signed);
    RunMoves(env, Step(env, d0, move), id, 11, signed);
    var d2 := Step(env, Step(env, d0, move), move);
    assert |Planned(env, inp)| == 5 by { FivePlanned(env, inp); }
    assert WrittenUpTo(env, inp, 0) == map[] by { NothingWritten(env, inp); }
    WritesAlone(env, d2, id, inp, 0, signed);
    var d7 := Run(env, d2, Moves(id, 5, signed));
    MovesSplit(id, 5, 5, signed);
    RunsJoin(env, d2, Moves(id, 5, signed), Moves(id, 5, signed));
    RunMoves(env, d7, id, 5, signed);
    ChecksAlone(env, d7, id, inp, signed);
    var d8 := Step(env, d7, move);
    RunMoves(env, d8, id, 4, signed);
    MovesAlone(env, d8, id, inp, Written, WrittenUpTo(env, inp, 5), signed);
    var d9 := Step(env, d8, move);
    RunMoves(env, d9, id, 3, signed);
    MovesAlone(env, d9, id, inp, Signed, signed, signed);
    var d10 := Step(env, d9, move);
    RunMoves(env, d10, id, 2, signed);
    MovesAlone(env, d10, id, inp, Checked, signed, signed);
    var d11 := Step(env, d10, move);
    RunMoves(env, d11, id, 1, signed);
    NoMoves(id, signed);
    PublishesAlone(env, d11, id, inp, signed, signed);
  }

  lemma FivePlanned(env: Env, inp: Inputs)
    requires inp.Typed()
    ensures |Planned(env, inp)| == 5
  {
  }

  lemma NothingWritten(env: Env, inp: Inputs)
    requires inp.Typed() && |Planned(env, inp)| == 5
    ensures WrittenUpTo(env, inp, 0) == map[]
  {
  }

  lemma MovesSplit(id: nat, m: nat, n: nat, signed: Tree)
    ensures Moves(id, m + n, signed) == Moves(id, m, signed) + Moves(id, n, signed)
  {
  }

  lemma {:induction false} RunsJoin(env: Env, d: Disk, a: seq<Event>, b: seq<Event>)
    ensures Run(env, d, a + b) == Run(env, Run(env, d, a), b)
    decreases |a|
  {
    hide Step;
    if a == [] {
      assert a + b == b;
    } else {
      assert (a + b)[0] == a[0] && (a + b)[1..] == a[1..] + b;
      RunsJoin(env, Step(env, d, a[0]), a[1..], b);
    }
  }

  // ---- The writer, file by file ----------------------------------------------------------------

  function WrittenUpTo(env: Env, inp: Inputs, n: nat): Tree
    requires inp.Typed() && n <= |Planned(env, inp)|
  {
    if n == 0 then map[] else WrittenUpTo(env, inp, n - 1)[Planned(env, inp)[n - 1].0 := Planned(env, inp)[n - 1].1]
  }

  lemma AllFilesWritten(env: Env, inp: Inputs)
    requires inp.Typed()
    ensures WrittenUpTo(env, inp, 5) == WrittenTree(env, inp)
  {
    hide ReceiptFile, EvidenceFile, HashesFile, ManifestFile;
    var none: Tree := map[];
    assert WrittenUpTo(env, inp, 0) == none;
    var one := WrittenUpTo(env, inp, 1);
    assert Planned(env, inp)[0] == (ResultJson, inp.result) && Planned(env, inp)[1] == (ReceiptJson, ReceiptFile(inp));
    assert one == none[ResultJson := inp.result];
    var two := WrittenUpTo(env, inp, 2);
    assert two == one[ReceiptJson := ReceiptFile(inp)];
    var three := WrittenUpTo(env, inp, 3);
    assert three == two[EvidenceJson := EvidenceFile(inp)];
    var four := WrittenUpTo(env, inp, 4);
    assert four == three[HashesJson := HashesFile(inp)];
    assert WrittenUpTo(env, inp, 5) == four[ManifestJson := ManifestFile(env, inp)];
  }

  /** What the writer asks for: provenance for this run, a JSON object as result, a receipt that names it or none. */
  ghost predicate Writable(env: Env, inp: Inputs)
    requires inp.Typed()
  {
    && inp.evidence.schemaOk && inp.evidence.runId == Strip(inp.runId) != "" && !inp.result.Bytes?
    && Strip(if inp.receipt.handoffId != "" then inp.receipt.handoffId else inp.receipt.requestId)
      in {"", Strip(inp.runId)}
    && env.coherent(ReceiptFile(inp), inp.result, EvidenceFile(inp))
  }

  lemma WritableIff(env: Env, inp: Inputs)
    requires inp.Typed()
    ensures Writable(env, inp) <==> inp.Accepted() && Consistent(env, WrittenTree(env, inp))
  {
    hide Consistent, Strip;
    if inp.Accepted() {
      WrittenBundleConsistentIff(env, inp);
    }
  }

  /** One finaliser at work on the directories. */
  class BundleStore {
    var final: Option<Tree>
    var staging: map<nat, Tree>

    constructor ()
      ensures final == None && staging == map[]
    {
      final, staging := None, map[];
    }

    /** `write_canonical_evidence_bundle` into a staging directory, file by file. */
    method WriteBundle(env: Env, id: nat, inp: Inputs) returns (r: Result<Content, Refusal>)
      requires inp.Typed() && id !in staging
      modifies this`staging
      ensures r.Ok? <==> Writable(env, inp)
      ensures r.Ok? ==> r.value == ManifestFile(env, inp)
      ensures inp.Accepted() ==> staging == old(staging)[id := WrittenTree(env, inp)]
      ensures !inp.Accepted() ==> staging == old(staging)
    {
      hide Consistent, BundleVerifies, ManifestFile, HashesFile, ReceiptFile, EvidenceFile, Writable;
      WritableIff(env, inp);
      if !inp.Accepted() {
        return Err(InvalidProvenance);
      }
      staging := staging[id := map[]];
      var files := Planned(env, inp);
      for i := 0 to |files|
        invariant staging == old(staging)[id := WrittenUpTo(env, inp, i)]
      {
        staging := staging[id := staging[id][files[i].0 := files[i].1]];
      }
      AllFilesWritten(env, inp);
      WrittenBundleVerifies(env, inp);
      var verified := VerifyEvidenceBundle(env, staging[id]);
      if verified.Err? || !Consistent(env, staging[id]) {
        return Err(Inconsistent);
      }
      return Ok(ManifestFile(env, inp));
    }

    /** Write, sign, verify, publish; staging is cleaned up whenever it is not published. */
    method FinalizeSignedBundle(env: Env, id: nat, inp: Inputs, signed: Option<Tree>)
      returns (r: Result<Content, Refusal>)
      requires inp.Typed() && id !in staging
      modifies this
      ensures r.Ok? <==>
        old(final).None? && Writable(env, inp) && signed.Some? && Guaranteed(env, signed.value)
      ensures r.Ok? ==> final == signed && r.value == ManifestFile(env, inp)
      ensures r.Err? ==> final == old(final)
      ensures staging == old(staging)
    {
      hide Sealed, Consistent, ManifestFile, Guaranteed, Writable;
      if final.Some? {
        return Err(BundleExists);
      }
      r := WriteBundle(env, id, inp);
      if r.Err? {
        staging := staging - {id};
        return;
      }
      if signed.None? {
        staging := staging - {id};
        return Err(SignerFailed);
      }
      staging := staging[id := signed.value];
      SealedClaims(env, signed.value);
      SealedIff(env, signed.value);
      if !Sealed(env, staging[id]) || ClaimsUnsigned(staging[id]) {
        staging := staging - {id};
        return Err(Inconsistent);
      }
      final := Some(staging[id]);
      staging := staging - {id};
    }
  }
}
