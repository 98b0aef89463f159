/** Kubernetes capability bodies: freezing a grant, when that is idempotent, and classifying an operation against it. */
module KubernetesBody {
  import opened Text
  import opened ScopePaths
  import opened Proposals

  // ---- Lists -----------------------------------------------------------------------------------

  /** First occurrences, in order. */
  function Unique(items: seq<string>): (r: seq<string>)
    ensures NoDuplicates(r) && forall x :: x in r <==> x in items
  {
    if items == [] then []
    else
      var front, last := Unique(items[..|items| - 1]), items[|items| - 1];
      if last in items[..|items| - 1] then front else front + [last]
  }

  /** `_unique_preserve`, with its `seen` set. */
  method UniquePreserve(items: seq<string>) returns (out: seq<string>)
    ensures out == Unique(items)
  {
    var seen: set<string> := {};
    out := [];
    for i := 0 to |items|
      invariant out == Unique(items[..i])
      invariant forall x :: x in seen <==> x in items[..i]
    {
      assert items[..i + 1][..i] == items[..i];
      if items[i] in seen {
        continue;
      }
      seen := seen + {items[i]};
      out := out + [items[i]];
    }
    assert items[..|items|] == items;
  }

  lemma {:induction false} UniqueFixedIff(items: seq<string>)
    ensures |Unique(items)| <= |items|
    ensures Unique(items) == items <==> NoDuplicates(items)
    ensures |Unique(items)| == |items| <==> NoDuplicates(items)
    decreases |items|
  {
    if items != [] {
      var n := |items| - 1;
      var front, last := items[..n], items[n];
      UniqueFixedIff(front);
      assert items == front + [last];
      if last in front {
        var i :| 0 <= i < n && front[i] == last;
        assert items[i] == items[n];
      } else {
        assert NoDuplicates(front) ==> NoDuplicates(items);
        assert NoDuplicates(items) ==> NoDuplicates(front);
      }
    }
  }

  function LowerAll(items: seq<string>): seq<string> {
    seq(|items|, i requires 0 <= i < |items| => Lower(items[i]))
  }

  /** `_string_list`: stripped, without blanks, deduplicated; a missing list is empty. */
  function Cleaned(items: Option<seq<string>>): Option<seq<string>> {
    match items
    case None => Some([])
    case Some(list) => if "" in StripAll(list) then None else Some(Unique(StripAll(list)))
  }

  /** Deduplicated first, lower-cased after. */
  function CleanedLower(items: Option<seq<string>>): Option<seq<string>> {
    match Cleaned(items) case None => None case Some(list) => Some(LowerAll(list))
  }

  lemma LowerTrimmed(s: string)
    requires Trimmed(s)
    ensures Trimmed(Lower(s)) && Strip(Lower(s)) == Lower(s) && Lower(Lower(s)) == Lower(s)
  {
    assert s != "" ==> Lower(s)[0] == Lower([s[0]])[0];
    StripTrimmed(Lower(s));
    assert forall i :: 0 <= i < |s| ==> Lower(Lower(s))[i] == Lower(s)[i];
  }

  lemma CleanedTrimmed(items: seq<string>)
    requires Cleaned(Some(items)).Some?
    ensures
      var r := Cleaned(Some(items)).value;
      forall i :: 0 <= i < |r| ==> Trimmed(r[i]) && Strip(r[i]) == r[i] && r[i] != ""
  {
    var r := Cleaned(Some(items)).value;
    forall i | 0 <= i < |r| ensures Trimmed(r[i]) && Strip(r[i]) == r[i] && r[i] != "" {
      assert r[i] in StripAll(items);
      var k :| 0 <= k < |items| && Strip(items[k]) == r[i];
      StripTrims(items[k]);
      StripTrimmed(r[i]);
    }
  }

  /** A list kept as it was cleaned is fixed; a lower-cased one is fixed exactly when its entries stay distinct. */
  lemma CleanedAgain(items: seq<string>)
    requires Cleaned(Some(items)).Some?
    ensures Cleaned(Cleaned(Some(items))) == Cleaned(Some(items))
  {
    var r := Cleaned(Some(items)).value;
    CleanedTrimmed(items);
    assert StripAll(r) == r;
    UniqueFixedIff(r);
  }

  lemma CleanedLowerAgain(items: seq<string>)
    requires CleanedLower(Some(items)).Some?
    ensures
      var r := CleanedLower(Some(items)).value;
      CleanedLower(Some(r)) == Some(Unique(r))
  {
    var c, r := Cleaned(Some(items)).value, CleanedLower(Some(items)).value;
    CleanedTrimmed(items);
    forall i | 0 <= i < |r| ensures Strip(r[i]) == r[i] && r[i] != "" && Lower(r[i]) == r[i] {
      LowerTrimmed(c[i]);
    }
    assert StripAll(r) == r;
    assert "" !in r;
    forall i | 0 <= i < |Unique(r)| ensures Lower(Unique(r)[i]) == Unique(r)[i] {
      assert Unique(r)[i] in r;
    }
    assert LowerAll(Unique(r)) == Unique(r);
  }

  /** Cleaning and lower-casing is idempotent exactly on lists whose entries are distinct after lower-casing. */
  lemma CleanedLowerIdempotentIff(items: seq<string>)
    requires CleanedLower(Some(items)).Some?
    ensures
      var r := CleanedLower(Some(items)).value;
      CleanedLower(Some(r)) == Some(r) <==> NoDuplicates(r)
  {
    CleanedLowerAgain(items);
    UniqueFixedIff(CleanedLower(Some(items)).value);
  }

  // ---- Names -----------------------------------------------------------------------------------

  predicate LowerAlnum(c: char) { 'a' <= c <= 'z' || IsDigit(c) }

  predicate Alnum(c: char) { LowerAlnum(c) || 'A' <= c <= 'Z' }

  predicate IsDnsLabel(s: string) {
    && 1 <= |s| <= 63 && LowerAlnum(s[0]) && LowerAlnum(s[|s| - 1])
    && forall i :: 0 <= i < |s| ==> LowerAlnum(s[i]) || s[i] == '-'
  }

  predicate IsResourceName(s: string) {
    && 1 <= |s| <= 62 && 'a' <= s[0] <= 'z'
    && forall i :: 0 <= i < |s| ==> LowerAlnum(s[i]) || s[i] == '-'
  }

  predicate IsClusterId(s: string) {
    && 1 <= |s| <= 63 && Alnum(s[0]) && Alnum(s[|s| - 1])
    && forall i :: 0 <= i < |s| ==> Alnum(s[i]) || s[i] in {'.', '_', ':', '-'}
  }

  /** One to 128 characters of an observed uid or resource version. */
  predicate IsToken(s: string) {
    1 <= |s| <= 128 && forall i :: 0 <= i < |s| ==> Alnum(s[i]) || s[i] in {'.', '_', '-'}
  }

  predicate IsContext(s: string) {
    && 1 <= |s| <= 253 && Alnum(s[0]) && Alnum(s[|s| - 1])
    && forall i :: 0 <= i < |s| ==> Alnum(s[i]) || s[i] in {'.', '_', ':', '@', '-'}
  }

  predicate IsAnnotationValue(s: string) {
    1 <= |s| <= 128 && forall i :: 0 <= i < |s| ==> Alnum(s[i]) || s[i] in {'.', '_', ':', '/', '=', '@', '-'}
  }

  // ---- Patches ---------------------------------------------------------------------------------

  datatype Patch = Replicas(count: nat) | Annotation(value: string) | Readiness(container: string)

  const PROBE_KEY := "amof.dev/capability-probe"

  /** A patch object as received, by its one field; anything else is malformed. */
  datatype RawPatch =
    | NoPatch | MalformedPatch
    | RawReplicas(count: int) | RawAnnotation(key: string, value: string)
    | RawReadiness(container: string, expected: int, wanted: int)

  /** `normalize_patch`: `None` where it raises; the absent patch stays absent. */
  function NormalizePatch(raw: RawPatch): Option<Option<Patch>> {
    match raw
    case NoPatch => Some(None)
    case MalformedPatch => None
    case RawReplicas(n) => if n < 0 then None else Some(Some(Replicas(n)))
    case RawAnnotation(key, value) =>
      if Strip(key) != PROBE_KEY || !IsAnnotationValue(value) then None else Some(Some(Annotation(value)))
    case RawReadiness(container, expected, wanted) =>
      if !IsDnsLabel(container) || expected != 1 || wanted != 3 then None else Some(Some(Readiness(container)))
  }

  function PatchAsRaw(p: Patch): RawPatch {
    match p
    case Replicas(n) => RawReplicas(n)
    case Annotation(value) => RawAnnotation(PROBE_KEY, value)
    case Readiness(container) => RawReadiness(container, 1, 3)
  }

  /** Which patches are accepted, and as what. */
  lemma PatchIff(raw: RawPatch)
    ensures NormalizePatch(raw) == Some(None) <==> raw.NoPatch?
    ensures forall n: nat :: NormalizePatch(raw) == Some(Some(Replicas(n))) <==> raw == RawReplicas(n)
    ensures forall value :: NormalizePatch(raw) == Some(Some(Annotation(value))) <==>
      && raw.RawAnnotation? && raw.value == value
      && Strip(raw.key) == "amof.dev/capability-probe" && IsAnnotationValue(value)
    ensures forall container :: NormalizePatch(raw) == Some(Some(Readiness(container))) <==>
      raw == RawReadiness(container, 1, 3) && IsDnsLabel(container)
  {
    hide Strip, IsAnnotationValue, IsDnsLabel;
  }

  lemma PatchIdempotent(raw: RawPatch)
    requires NormalizePatch(raw).Some? && NormalizePatch(raw).value.Some?
    ensures NormalizePatch(PatchAsRaw(NormalizePatch(raw).value.value)) == NormalizePatch(raw)
  {
    if raw.RawAnnotation? {
      StripIdempotent(raw.key);
    }
  }

  // ---- Bodies ----------------------------------------------------------------------------------

  datatype Observed = Observed(context: string, uid: string, resourceVersion: string)

  datatype Exact = Exact(
    namespace: string, verb: string, resource: string, name: string, patch: Patch, observed: Option<Observed>)

  datatype RawExact = RawExact(
    namespace: string, verb: string, resource: string, name: string, patch: RawPatch, observed: Option<Observed>)

  /** `exact` is `None` when absent, `Some(None)` when it is not an object with the right fields. */
  datatype RawGrant = RawGrant(
    capability: string, cluster: string, namespaces: Option<seq<string>>, verbs: Option<seq<string>>,
    resources: Option<seq<string>>,
    deniedNamespaces: Option<seq<string>>, deniedVerbs: Option<seq<string>>, deniedResources: Option<seq<string>>,
    exact: Option<Option<RawExact>>, reason: string)

  datatype Grant = Grant(
    mutates: bool, cluster: string, namespaces: seq<string>, verbs: seq<string>, resources: seq<string>,
    deniedNamespaces: seq<string>, deniedVerbs: seq<string>, deniedResources: seq<string>,
    exact: Option<Exact>, reason: string)
  {
    function AsRaw(): RawGrant {
      RawGrant(if mutates then MUTATE else READ, cluster, Some(namespaces), Some(verbs), Some(resources),
               Some(deniedNamespaces), Some(deniedVerbs), Some(deniedResources),
               (match exact case None => None case Some(e) =>
                 Some(Some(RawExact(e.namespace, e.verb, e.resource, e.name, PatchAsRaw(e.patch), e.observed)))),
               reason)
    }

    /** What the content hash covers: everything but the reason. */
    function Hashed(): Grant { this.(reason := "") }
  }

  const READ := "kubernetes.read"
  const MUTATE := "kubernetes.mutate"
  const GET := "get"
  const LIST := "list"
  const PATCH := "patch"
  const DEPLOYMENTS := "deployments"

  predicate Supported(verb: string) { verb == GET || verb == LIST || verb == PATCH }

  /** The four fields of a grant an exact operation is checked against. */
  function NormalizeExact(raw: RawExact, mutates: bool, g: Grant): Option<Exact> {
    var ns, name := Strip(raw.namespace), Strip(raw.name);
    var verb, resource := Lower(Strip(raw.verb)), Lower(Strip(raw.resource));
    if ns !in g.namespaces || ns in g.deniedNamespaces || verb != PATCH || verb !in g.verbs || verb in g.deniedVerbs
      || resource != DEPLOYMENTS || resource !in g.resources || resource in g.deniedResources
      || !IsDnsLabel(name) || !mutates then None
    else
      match NormalizePatch(raw.patch)
      case None => None
      case Some(None) => None
      case Some(Some(p)) =>
        var fits := raw.observed.None?
          || (p.Readiness? && IsContext(raw.observed.value.context)
              && IsToken(raw.observed.value.uid) && IsToken(raw.observed.value.resourceVersion));
        if !fits then None
        else Some(Exact(ns, verb, resource, name, p, raw.observed))
  }

  /** `normalize_kubernetes_capability_body`. */
  function NormalizeGrant(raw: RawGrant): Option<Grant> {
    var capability, cluster, reason := Strip(raw.capability), Strip(raw.cluster), Strip(raw.reason);
    if (capability != READ && capability != MUTATE) || !IsClusterId(cluster) || reason == "" then None
    else
      match (Cleaned(raw.namespaces), CleanedLower(raw.verbs), CleanedLower(raw.resources),
             Cleaned(raw.deniedNamespaces), CleanedLower(raw.deniedVerbs), CleanedLower(raw.deniedResources))
      case (Some(ns), Some(verbs), Some(res), Some(dns), Some(dverbs), Some(dres)) =>
        var g := Grant(capability == MUTATE, cluster, ns, verbs, res, dns, dverbs, dres, None, reason);
        if !ListsValid(g) then None
        else
          (match raw.exact
           case None => Some(g)
           case Some(None) => None
           case Some(Some(e)) =>
             match NormalizeExact(e, g.mutates, g) case None => None case Some(x) => Some(g.(exact := Some(x))))
      case _ => None
  }

  predicate ListsValid(g: Grant) {
    && g.namespaces != [] && (forall x :: x in g.namespaces ==> IsDnsLabel(x))
    && g.verbs != [] && (forall x :: x in g.verbs ==> Supported(x)) && (g.mutates || PATCH !in g.verbs)
    && g.resources != [] && (forall x :: x in g.resources ==> IsResourceName(x))
    && (forall x :: x in g.deniedNamespaces ==> IsDnsLabel(x))
    && (forall x :: x in g.deniedVerbs ==> Supported(x))
    && (forall x :: x in g.deniedResources ==> IsResourceName(x))
  }

  /** Freezing a frozen grant only drops entries that became equal when they were lower-cased. */
  function Deduplicated(g: Grant): Grant {
    g.(verbs := Unique(g.verbs), resources := Unique(g.resources),
       deniedVerbs := Unique(g.deniedVerbs), deniedResources := Unique(g.deniedResources))
  }

  ghost predicate IsDistinct(g: Grant) {
    NoDuplicates(g.verbs) && NoDuplicates(g.resources) && NoDuplicates(g.deniedVerbs) && NoDuplicates(g.deniedResources)
  }

  lemma ListAgain(items: Option<seq<string>>)
    ensures CleanedLower(items).Some? ==> CleanedLower(CleanedLower(items)) == Some(Unique(CleanedLower(items).value))
    ensures Cleaned(items).Some? ==> Cleaned(Cleaned(items)) == Cleaned(items)
  {
    if items.Some? {
      if Cleaned(items).Some? {
        CleanedAgain(items.value);
        CleanedLowerAgain(items.value);
      }
    } else {
      assert StripAll([]) == [];
      assert LowerAll([]) == [];
    }
  }

  lemma ExactAgain(raw: RawExact, mutates: bool, g: Grant)
    requires NormalizeExact(raw, mutates, g).Some?
    ensures
      var e := NormalizeExact(raw, mutates, g).value;
      var again := RawExact(e.namespace, e.verb, e.resource, e.name, PatchAsRaw(e.patch), e.observed);
      NormalizeExact(again, mutates, Deduplicated(g)) == Some(e)
  {
    hide IsDnsLabel, IsContext, IsToken, NormalizePatch, Unique;
    StripIdempotent(raw.namespace);
    StripIdempotent(raw.name);
    LowerStripAgain(raw.verb);
    LowerStripAgain(raw.resource);
    PatchIdempotent(raw.patch);
  }

  lemma LowerStripAgain(s: string)
    ensures Lower(Strip(Lower(Strip(s)))) == Lower(Strip(s))
  {
    StripTrims(s);
    LowerTrimmed(Strip(s));
  }

  lemma ListsStillValid(g: Grant)
    requires ListsValid(g)
    ensures ListsValid(Deduplicated(g))
  {
    hide IsDnsLabel, IsResourceName, Supported;
    assert g.verbs[0] in Unique(g.verbs) && g.resources[0] in Unique(g.resources);
  }

  lemma CapabilityAgain(s: string, t: string)
    requires Strip(s) == t
    ensures Strip(t) == t
  {
    StripIdempotent(s);
  }

  lemma GrantAgain(raw: RawGrant)
    requires NormalizeGrant(raw).Some?
    ensures NormalizeGrant(NormalizeGrant(raw).value.AsRaw()) == Some(Deduplicated(NormalizeGrant(raw).value))
  {
    hide Strip, Cleaned, CleanedLower, ListsValid, NormalizeExact, IsClusterId, Unique, PatchAsRaw;
    CapabilityAgain(raw.capability, Strip(raw.capability));
    CapabilityAgain(raw.cluster, Strip(raw.cluster));
    CapabilityAgain(raw.reason, Strip(raw.reason));
    ListAgain(raw.namespaces);
    ListAgain(raw.verbs);
    ListAgain(raw.resources);
    ListAgain(raw.deniedNamespaces);
    ListAgain(raw.deniedVerbs);
    ListAgain(raw.deniedResources);
    var g := NormalizeGrant(raw).value.(exact := None);
    ListsStillValid(g);
    if raw.exact.Some? {
      ExactAgain(raw.exact.value.value, g.mutates, g);
    }
  }

  /**
   * A grant that was just frozen passes its own integrity check (freezing it again gives the same hash)
   * exactly when no two entries of a lower-cased list became equal; otherwise the proposal cannot be saved.
   */
  lemma FrozenGrantVerifiesIff(raw: RawGrant)
    requires NormalizeGrant(raw).Some?
    ensures
      var g := NormalizeGrant(raw).value;
      var again := NormalizeGrant(g.AsRaw());
      again.Some? && (again.value.Hashed() == g.Hashed() <==> IsDistinct(g)) && (again == Some(g) <==> IsDistinct(g))
  {
    hide NormalizeGrant, Unique, PatchAsRaw;
    GrantAgain(raw);
    var g := NormalizeGrant(raw).value;
    UniqueFixedIff(g.verbs);
    UniqueFixedIff(g.resources);
    UniqueFixedIff(g.deniedVerbs);
    UniqueFixedIff(g.deniedResources);
  }

  // ---- Classifying an operation ----------------------------------------------------------------

  /** An operation after `execute_kubernetes_capability` has normalised its fields. */
  datatype Operation = Operation(
    cluster: string, namespace: string, verb: string, resource: string, name: Option<string>, patch: Option<Patch>,
    runId: string, context: string, uid: string, resourceVersion: string)

  predicate Mutates(op: Operation) { op.verb == PATCH }

  predicate IsReadiness(op: Operation) { op.patch.Some? && op.patch.value.Readiness? }

  datatype Refusal =
    | WrongCluster | WrongNamespace | WrongResource | ScopeEscalation | WrongVerb | ExactOperationRequired
    | WrongOperation

  /** `classify_operation` against a frozen grant: `None` when the operation lies inside it. */
  function Classify(g: Grant, op: Operation): Option<Refusal> {
    if op.cluster != g.cluster then Some(WrongCluster)
    else if op.namespace in g.deniedNamespaces || op.namespace !in g.namespaces then Some(WrongNamespace)
    else if op.resource in g.deniedResources || op.resource !in g.resources then Some(WrongResource)
    else if Mutates(op) && !g.mutates then Some(ScopeEscalation)
    else if op.verb in g.deniedVerbs || op.verb !in g.verbs then Some(WrongVerb)
    else if (Mutates(op) || op.verb == GET) && (op.name.None? || op.name.value == "") then Some(WrongResource)
    else if IsReadiness(op) && g.exact.None? then Some(ExactOperationRequired)
    else if g.exact.Some? && !Performs(op, g.exact.value) then Some(WrongOperation)
    else None
  }

  predicate Performs(op: Operation, e: Exact) {
    && op.namespace == e.namespace && op.verb == e.verb && op.resource == e.resource
    && op.name == Some(e.name) && op.patch == Some(e.patch)
    && (e.observed.Some? ==> e.observed.value == Observed(op.context, op.uid, op.resourceVersion))
  }

  /** The operation lies inside the grant, field by field. */
  ghost predicate InGrant(g: Grant, op: Operation) {
    && op.cluster == g.cluster
    && op.namespace in g.namespaces && op.namespace !in g.deniedNamespaces
    && op.resource in g.resources && op.resource !in g.deniedResources
    && op.verb in g.verbs && op.verb !in g.deniedVerbs
    && (op.verb == "patch" ==> g.mutates)
    && (op.verb in {"get", "patch"} ==> op.name.Some? && op.name.value != "")
    && (op.patch.Some? && op.patch.value.Readiness? ==> g.exact.Some?)
    && (g.exact.Some? ==>
          && op.namespace == g.exact.value.namespace && op.verb == g.exact.value.verb
          && op.resource == g.exact.value.resource && op.name == Some(g.exact.value.name)
          && op.patch == Some(g.exact.value.patch)
          && (g.exact.value.observed.Some? ==>
                && g.exact.value.observed.value.context == op.context
                && g.exact.value.observed.value.uid == op.uid
                && g.exact.value.observed.value.resourceVersion == op.resourceVersion))
  }

  lemma InGrantIff(g: Grant, op: Operation)
    ensures Classify(g, op).None? <==> InGrant(g, op)
  {
  }

  /** A frozen grant's exact operation is a patch of a Deployment. */
  lemma ExactIsPatch(raw: RawGrant)
    requires NormalizeGrant(raw).Some? && NormalizeGrant(raw).value.exact.Some?
    ensures NormalizeGrant(raw).value.exact.value.verb == PATCH && NormalizeGrant(raw).value.mutates
  {
    hide Cleaned, CleanedLower, ListsValid, IsClusterId, Strip, Lower, IsDnsLabel, NormalizePatch;
  }

  /** With an exact operation, what lies inside the grant is that operation and nothing else. */
  lemma ExactMeansExact(raw: RawGrant, op: Operation)
    requires NormalizeGrant(raw).Some? && NormalizeGrant(raw).value.exact.Some?
    requires Classify(NormalizeGrant(raw).value, op).None?
    ensures Mutates(op) && Performs(op, NormalizeGrant(raw).value.exact.value)
  {
    hide NormalizeGrant;
    ExactIsPatch(raw);
  }
}
