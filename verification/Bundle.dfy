/** Evidence bundles: what is written, what verification accepts, and how a bundle reaches its final path. */
module Bundle {
  import opened Text

  // ---- Files -----------------------------------------------------------------------------------

  datatype Name =
    | ReceiptJson | ResultJson | EvidenceJson | HashesJson | ManifestJson | SignatureJson | OtherFile(text: string)

  /** SHA-256 of the bytes, injective by construction; `NotHex` is a field that is no digest. */
  datatype Digest = Sha256(of: Content) | NotHex(text: string)

  datatype FileEntry = FileEntry(name: Name, sha: Digest, bytes: Option<nat>) | NotAnObject

  /**
   * The bytes of a file, by the JSON object they parse to; `rest` stands for the fields nothing here looks at, and
   * `Bytes` for a file that is no JSON object.
   */
  datatype Content =
    | ReceiptDoc(handoffId: string, requestId: string, finalized: bool, resultSha: Option<Digest>, rest: string)
    | ResultDoc(rest: string)
    | EvidenceDoc(schemaOk: bool, runId: string, resultSha: Option<Digest>, rest: string)
    | HashesDoc(schemaOk: bool, runId: string, artifacts: map<Name, Digest>)
    | ManifestDoc(schemaOk: bool, algorithmOk: bool, runId: string, files: seq<FileEntry>)
    | Bytes(rest: string)

  type Tree = map<Name, Content>

  const CONTENT := [ReceiptJson, ResultJson, EvidenceJson]
  const LISTED := {ReceiptJson, ResultJson, EvidenceJson, HashesJson}
  const REQUIRED := {ReceiptJson, ResultJson, EvidenceJson, HashesJson, ManifestJson}

  /** What lies outside: file sizes, the remaining cross-checks, and the verdict on a signature. */
  datatype Env = Env(
    size: Content -> nat,
    coherent: (Content, Content, Content) -> bool,
    signatureOk: Tree -> bool)

  // ---- Verification ----------------------------------------------------------------------------

  predicate EntryMatches(env: Env, tree: Tree, e: FileEntry) {
    && e.FileEntry? && e.name in tree && e.sha == Sha256(tree[e.name])
    && (e.bytes.Some? ==> env.size(tree[e.name]) == e.bytes.value)
  }

  function ListedNames(files: seq<FileEntry>): set<Name> {
    set e | e in files && e.FileEntry? :: e.name
  }

  /** The required files and at most a signature beside them; the manifest lists exactly the others, truthfully. */
  predicate BundleVerifies(env: Env, tree: Tree) {
    && REQUIRED <= tree.Keys && tree.Keys <= REQUIRED + {SignatureJson}
    && tree[ManifestJson].ManifestDoc? && tree[ManifestJson].schemaOk && tree[ManifestJson].algorithmOk
    && tree[ManifestJson].files != [] && ListedNames(tree[ManifestJson].files) == LISTED
    && forall i :: 0 <= i < |tree[ManifestJson].files| ==> EntryMatches(env, tree, tree[ManifestJson].files[i])
  }

  datatype Refusal =
    | MissingFile | ExtraFile | InvalidManifest | SetMismatch | DigestMismatch | SizeMismatch
    | BundleExists | InvalidProvenance | Inconsistent | SignerFailed | RenameFailed

  /** `verify_evidence_bundle`, with its loop over the manifest. */
  method VerifyEvidenceBundle(env: Env, tree: Tree) returns (r: Result<Content, Refusal>)
    ensures r.Ok? <==> BundleVerifies(env, tree)
    ensures r.Ok? ==> r.value == tree[ManifestJson]
  {
    if !(REQUIRED <= tree.Keys) {
      return Err(MissingFile);
    }
    if !(tree.Keys <= REQUIRED + {SignatureJson}) {
      return Err(ExtraFile);
    }
    var manifest := tree[ManifestJson];
    if !manifest.ManifestDoc? || !manifest.schemaOk || !manifest.algorithmOk || manifest.files == [] {
      return Err(InvalidManifest);
    }
    if ListedNames(manifest.files) != LISTED {
      return Err(SetMismatch);
    }
    for i := 0 to |manifest.files|
      invariant forall k :: 0 <= k < i ==> EntryMatches(env, tree, manifest.files[k])
    {
      var e := manifest.files[i];
      if e.NotAnObject? {
        return Err(InvalidManifest);
      }
      if e.name !in tree || e.sha != Sha256(tree[e.name]) {
        return Err(DigestMismatch);
      }
      if e.bytes.Some? && env.size(tree[e.name]) != e.bytes.value {
        return Err(SizeMismatch);
      }
    }
    return Ok(manifest);
  }

  /** Verified bundles with the same manifest have the same listed files, byte for byte. */
  lemma ManifestDeterminesContents(env: Env, a: Tree, b: Tree, name: Name)
    requires BundleVerifies(env, a) && BundleVerifies(env, b) && a[ManifestJson] == b[ManifestJson] && name in LISTED
    ensures name in a && name in b && a[name] == b[name]
  {
    var files := a[ManifestJson].files;
    assert name in ListedNames(files);
    var e :| e in files && e.FileEntry? && e.name == name;
    var i :| 0 <= i < |files| && files[i] == e;
    assert EntryMatches(env, a, files[i]) && EntryMatches(env, b, files[i]);
  }

  /** The run a receipt names: its handoff id, or its request id when it has none. */
  function NamedRun(receipt: Content): string
    requires receipt.ReceiptDoc?
  {
    Strip(if receipt.handoffId != "" then receipt.handoffId else receipt.requestId)
  }

  /** `verify_evidence_consistency` without its signature part. */
  predicate Consistent(env: Env, tree: Tree)
  {
    && BundleVerifies(env, tree)
    && tree[ReceiptJson].ReceiptDoc? && !tree[ResultJson].Bytes?
    && tree[EvidenceJson].EvidenceDoc? && tree[HashesJson].HashesDoc?
    && var runId, receipt, evidence, hashes :=
         tree[ManifestJson].runId, tree[ReceiptJson], tree[EvidenceJson], tree[HashesJson];
    && Strip(runId) != ""
    && (NamedRun(receipt) == "" || NamedRun(receipt) == Strip(runId))
    && (Strip(evidence.runId) == "" || Strip(evidence.runId) == Strip(runId))
    && (Strip(hashes.runId) == "" || Strip(hashes.runId) == Strip(runId))
    && evidence.schemaOk && hashes.schemaOk
    && receipt.resultSha == Some(Sha256(tree[ResultJson]))
    && (evidence.resultSha.Some? ==> evidence.resultSha == receipt.resultSha)
    && (forall i :: 0 <= i < |CONTENT| ==>
         CONTENT[i] in hashes.artifacts && hashes.artifacts[CONTENT[i]] == Sha256(tree[CONTENT[i]]))
    && env.coherent(receipt, tree[ResultJson], evidence)
  }

  /** With the signature: a bundle that claims to be finalized must carry one, and one that is there must hold. */
  predicate Sealed(env: Env, tree: Tree) {
    Consistent(env, tree) && (tree[ReceiptJson].finalized ==> SignatureJson in tree) && env.signatureOk(tree)
  }

  ghost predicate Lists(files: seq<FileEntry>, name: Name) {
    exists i :: 0 <= i < |files| && files[i].FileEntry? && files[i].name == name
  }

  /** The manifest lists exactly the four other required files, each with its digest and, where given, its size. */
  ghost predicate ListedTruly(env: Env, tree: Tree) {
    && {ReceiptJson, ResultJson, EvidenceJson, HashesJson, ManifestJson} <= tree.Keys
    && tree.Keys <= {ReceiptJson, ResultJson, EvidenceJson, HashesJson, ManifestJson, SignatureJson}
    && tree[ManifestJson].ManifestDoc? && tree[ManifestJson].schemaOk && tree[ManifestJson].algorithmOk
    && var files := tree[ManifestJson].files;
    && Lists(files, ReceiptJson) && Lists(files, ResultJson) && Lists(files, EvidenceJson) && Lists(files, HashesJson)
    && (forall i :: 0 <= i < |files| ==>
          && files[i].FileEntry? && files[i].name in {ReceiptJson, ResultJson, EvidenceJson, HashesJson}
          && files[i].sha == Sha256(tree[files[i].name])
          && files[i].bytes in {None, Some(env.size(tree[files[i].name]))})
  }

  /** Verification accepts exactly the trees whose manifest is true of them. */
  lemma VerifiesIff(env: Env, tree: Tree)
    ensures BundleVerifies(env, tree) <==> ListedTruly(env, tree)
  {
    if REQUIRED <= tree.Keys && tree[ManifestJson].ManifestDoc? {
      var files := tree[ManifestJson].files;
      if BundleVerifies(env, tree) {
        forall name | name in LISTED ensures Lists(files, name) {
          assert name in ListedNames(files);
          var e :| e in files && e.FileEntry? && e.name == name;
          var i :| 0 <= i < |files| && files[i] == e;
        }
        forall i | 0 <= i < |files| ensures files[i].FileEntry? && files[i].name in LISTED {
          assert EntryMatches(env, tree, files[i]);
          assert files[i] in files && files[i].name in ListedNames(files);
        }
      }
      if ListedTruly(env, tree) {
        ListsAll(files);
        forall i | 0 <= i < |files| ensures EntryMatches(env, tree, files[i]) {
          assert files[i].FileEntry?;
        }
      }
    }
  }

  lemma ListsAll(files: seq<FileEntry>)
    requires forall i :: 0 <= i < |files| ==> files[i].FileEntry? && files[i].name in LISTED
    requires forall name :: name in LISTED ==> Lists(files, name)
    ensures files != [] && ListedNames(files) == LISTED
  {
    assert ReceiptJson in LISTED;
    forall name | name in LISTED ensures name in ListedNames(files) {
      var i :| 0 <= i < |files| && files[i].FileEntry? && files[i].name == name;
      assert files[i] in files;
    }
    forall name | name in ListedNames(files) ensures name in LISTED {
      var e :| e in files && e.FileEntry? && e.name == name;
      var i :| 0 <= i < |files| && files[i] == e;
    }
  }

  /** One run id, wherever one is named; the receipt may name it by either of its ids. */
  ghost predicate OneRun(tree: Tree)
    requires ReceiptJson in tree && tree[ReceiptJson].ReceiptDoc?
    requires EvidenceJson in tree && tree[EvidenceJson].EvidenceDoc?
    requires HashesJson in tree && tree[HashesJson].HashesDoc?
    requires ManifestJson in tree && tree[ManifestJson].ManifestDoc?
  {
    var run, receipt := Strip(tree[ManifestJson].runId), tree[ReceiptJson];
    && run != ""
    && Strip(if receipt.handoffId != "" then receipt.handoffId else receipt.requestId) in {"", run}
    && Strip(tree[EvidenceJson].runId) in {"", run} && Strip(tree[HashesJson].runId) in {"", run}
  }

  /** What a published bundle guarantees to whoever reads it. */
  ghost predicate Guaranteed(env: Env, tree: Tree) {
    && ListedTruly(env, tree)
    && tree[ReceiptJson].ReceiptDoc? && !tree[ResultJson].Bytes?
    && tree[EvidenceJson].EvidenceDoc? && tree[EvidenceJson].schemaOk
    && tree[HashesJson].HashesDoc? && tree[HashesJson].schemaOk
    && OneRun(tree)
    && tree[ReceiptJson].resultSha == Some(Sha256(tree[ResultJson]))
    && tree[EvidenceJson].resultSha in {None, Some(Sha256(tree[ResultJson]))}
    && (forall name :: name in {ReceiptJson, ResultJson, EvidenceJson} ==>
          name in tree[HashesJson].artifacts && tree[HashesJson].artifacts[name] == Sha256(tree[name]))
    && env.coherent(tree[ReceiptJson], tree[ResultJson], tree[EvidenceJson])
    && env.signatureOk(tree) && (tree[ReceiptJson].finalized ==> SignatureJson in tree)
  }

  /** A tree is sealed exactly when it guarantees all of that. */
  lemma SealedIff(env: Env, tree: Tree)
    ensures Sealed(env, tree) <==> Guaranteed(env, tree)
  {
    hide BundleVerifies, ListedTruly, Strip;
    VerifiesIff(env, tree);
    if ListedTruly(env, tree) {
      VerifiedHasFiles(env, tree);
    }
    assert CONTENT[0] == ReceiptJson && CONTENT[1] == ResultJson && CONTENT[2] == EvidenceJson;
    assert Consistent(env, tree) ==> forall name :: name in {ReceiptJson, ResultJson, EvidenceJson} ==> name in CONTENT;
  }

  lemma VerifiedHasFiles(env: Env, tree: Tree)
    requires ListedTruly(env, tree)
    ensures REQUIRED <= tree.Keys && tree[ManifestJson].ManifestDoc?
  {
  }

  // ---- Writing ---------------------------------------------------------------------------------

  /** What the caller hands over; `result` is the source file, whatever its bytes, or the rendered result. */
  datatype Inputs = Inputs(runId: string, receipt: Content, result: Content, evidence: Content) {
    predicate Typed() { receipt.ReceiptDoc? && evidence.EvidenceDoc? }

    predicate Accepted() { evidence.EvidenceDoc? && evidence.schemaOk && evidence.runId == Strip(runId) }
  }

  function ReceiptFile(inp: Inputs): Content
    requires inp.Typed()
  {
    var r := inp.receipt;
    ReceiptDoc(r.handoffId, r.requestId, r.finalized, Some(Sha256(inp.result)), r.rest)
  }

  function EvidenceFile(inp: Inputs): Content
    requires inp.Typed()
  {
    EvidenceDoc(inp.evidence.schemaOk, inp.evidence.runId, Some(Sha256(inp.result)), inp.evidence.rest)
  }

  function HashesFile(inp: Inputs): Content
    requires inp.Typed()
  {
    HashesDoc(true, Strip(inp.runId), map[
      ReceiptJson := Sha256(ReceiptFile(inp)), ResultJson := Sha256(inp.result),
      EvidenceJson := Sha256(EvidenceFile(inp))])
  }

  function Entry(env: Env, name: Name, c: Content): FileEntry {
    FileEntry(name, Sha256(c), Some(env.size(c)))
  }

  function ManifestFile(env: Env, inp: Inputs): Content
    requires inp.Typed()
  {
    ManifestDoc(true, true, Strip(inp.runId), [
      Entry(env, ReceiptJson, ReceiptFile(inp)), Entry(env, ResultJson, inp.result),
      Entry(env, EvidenceJson, EvidenceFile(inp)), Entry(env, HashesJson, HashesFile(inp))])
  }

  /** The files in the order they are written. */
  function Planned(env: Env, inp: Inputs): seq<(Name, Content)>
    requires inp.Typed()
  {
    [(ResultJson, inp.result), (ReceiptJson, ReceiptFile(inp)), (EvidenceJson, EvidenceFile(inp)),
     (HashesJson, HashesFile(inp)), (ManifestJson, ManifestFile(env, inp))]
  }

  function WrittenTree(env: Env, inp: Inputs): Tree
    requires inp.Typed()
  {
    map[ResultJson := inp.result, ReceiptJson := ReceiptFile(inp), EvidenceJson := EvidenceFile(inp),
        HashesJson := HashesFile(inp), ManifestJson := ManifestFile(env, inp)]
  }

  /** Every bundle that is written passes the verification that follows it. */
  lemma WrittenBundleVerifies(env: Env, inp: Inputs)
    requires inp.Typed()
    ensures BundleVerifies(env, WrittenTree(env, inp))
  {
    var tree := WrittenTree(env, inp);
    var files := ManifestFile(env, inp).files;
    assert tree.Keys == REQUIRED;
    assert files[0] in files && files[1] in files && files[2] in files && files[3] in files;
    assert ListedNames(files) == LISTED by {
      forall n ensures n in ListedNames(files) <==> n in LISTED {
        if n in LISTED {
          assert exists i :: 0 <= i < |files| && files[i].name == n;
        }
      }
    }
  }

  /**
   * And it is consistent exactly when the run has an id, the result is a JSON object, the receipt names that run or
   * none, and the contents cohere.
   */
  lemma WrittenBundleConsistentIff(env: Env, inp: Inputs)
    requires inp.Typed() && inp.Accepted()
    ensures Consistent(env, WrittenTree(env, inp)) <==>
      && Strip(inp.runId) != "" && !inp.result.Bytes?
      && (NamedRun(inp.receipt) == "" || NamedRun(inp.receipt) == Strip(inp.runId))
      && env.coherent(ReceiptFile(inp), inp.result, EvidenceFile(inp))
  {
    hide BundleVerifies, Strip, ManifestFile;
    WrittenBundleVerifies(env, inp);
    StripIdempotent(inp.runId);
    var tree := WrittenTree(env, inp);
    assert tree[ManifestJson].ManifestDoc? && tree[ManifestJson].runId == Strip(inp.runId) by {
      ManifestRun(env, inp);
    }
  }

  lemma ManifestRun(env: Env, inp: Inputs)
    requires inp.Typed()
    ensures ManifestFile(env, inp).ManifestDoc? && ManifestFile(env, inp).runId == Strip(inp.runId)
  {
  }
}
