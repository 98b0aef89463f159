/** The campaign gate and the write-scope store together: which files a completed write slice can have changed. */
module CampaignAuthority {
  import opened Text
  import opened ScopePaths
  import opened Proposals
  import Campaign
  import CampaignSteps
  import CampaignRuns
  import Authority
  import AuthorityGrowth
  import AuthorityRuns
  import AuthoritySteps

  /** The text of a non-empty relative path splits into its segments. */
  lemma SegmentsOfKey(rel: Path)
    requires IsClean(rel) && rel != []
    ensures Split(RelText(rel), '/') == rel
  {
    JoinFree(rel);
    assert Slashes(Join(rel, '/')) == Join(rel, '/');
    SplitJoin(rel, '/');
  }

  /** `rel` lies below one of `roots` and below none of `denied`, segment by segment. */
  ghost predicate Below(rel: Path, roots: seq<string>, denied: seq<string>) {
    && (exists j :: 0 <= j < |roots| && Split(roots[j], '/') <= rel)
    && (forall j :: 0 <= j < |denied| ==> !(Split(denied[j], '/') <= rel))
  }

  /** `rel` is the file of the binding's workspace that a path on record stands for. */
  ghost predicate OnRecord(fs: Fs, b: Authority.Binding, body: Body, path: string, rel: Path) {
    && IsClean(rel) && Strip(RelText(rel)) == path && fs.resolve(b.workspace).Some?
    && AuthorityGrowth.StandsFor(fs, b, body, path, fs.resolve(b.workspace).value + rel)
  }

  lemma RecordedFile(fs: Fs, b: Authority.Binding, body: Body, path: string, file: Path)
    requires WellBehaved(fs) && AuthorityGrowth.StandsFor(fs, b, body, path, file)
    ensures exists rel :: OnRecord(fs, b, body, path, rel)
  {
    hide Judge, Strip, RelText, Normalize, AuthorityGrowth.FileOf, Authority.ScopeOf, IsClean;
    var frozen := Authority.FrozenScope(b);
    var isDirectory, text :|
      AuthorityGrowth.NamedAs(fs, Authority.ScopeOf(fs, frozen, body, isDirectory), text, path, file);
    var scope := Authority.ScopeOf(fs, frozen, body, isDirectory).value;
    AuthorityGrowth.ScopeIsValid(fs, frozen, body, isDirectory);
    AuthorityGrowth.AcceptedKey(fs, scope, text);
    assert OnRecord(fs, b, body, path, Normalize(fs, text, scope.workspace).rel);
  }

  /**
   * When the mutation receipt of a completed write slice is one the write-scope store holds, each of its paths stands
   * for a plain file, with no `..` in it. Where the record kept the text of that file as it was, the file is below a
   * write root of the campaign and below no denied root of the approval.
   */
  lemma ChangedFilesAuthorized(grants: Campaign.Grants, w: Campaign.World, i: nat, path: string,
      fs: Fs, st: Authority.Store, id: Authority.ReceiptId)
    requires CampaignRuns.Reachable(grants, w) && i < |w.disk.completed| && Campaign.IsWrite(w.disk.completed[i].slice)
    requires w.disk.completed[i].receipt.Some? && path in w.disk.completed[i].receipt.value.changed
    requires WellBehaved(fs) && AuthorityRuns.Reachable(fs, st) && id in st.receipts
    requires w.disk.completed[i].receipt.value.changed == st.receipts[id].paths.inScope
    ensures id.binding in st.bindings && id.binding.approval in st.approvals
    ensures
      var s := w.disk.completed[i].slice;
      && s.authorityRef.Ref? && grants.body(s.authorityRef.text).Some?
      && (exists rel :: OnRecord(fs, st.bindings[id.binding], st.approvals[id.binding.approval].body, path, rel))
      && (forall rel :: IsClean(rel) && Strip(RelText(rel)) == path && Trimmed(RelText(rel)) ==>
            Below(rel, w.disk.authority.writeRoots, grants.body(s.authorityRef.text).value.deniedRoots))
  {
    hide CampaignRuns.Reachable, AuthorityRuns.Reachable, Campaign.Within, OnRecord, AuthorityGrowth.StandsFor, Below,
      Strip,
      RelText, IsClean, AuthoritySteps.FrozenBinding, AuthorityGrowth.FileWithin, AuthorityGrowth.NeverWider;
    CampaignRuns.WritesStayAuthorized(grants, w, i, path);
    CampaignRuns.KeyIsNoDot(grants, w, i, path);
    AuthorityGrowth.NoAuthorityGrowth(fs, st, id, path);
    var b, body := st.bindings[id.binding], st.approvals[id.binding.approval].body;
    var file :| AuthorityGrowth.StandsFor(fs, b, body, path, file);
    RecordedFile(fs, b, body, path, file);
    var roots := w.disk.authority.writeRoots;
    var denied := grants.body(w.disk.completed[i].slice.authorityRef.text).value.deniedRoots;
    forall rel | IsClean(rel) && Strip(RelText(rel)) == path && Trimmed(RelText(rel))
      ensures Below(rel, roots, denied)
    {
      StripTrimmed(RelText(rel));
      WithinIsBelow(path, rel, roots, denied);
    }
  }

  lemma WithinIsBelow(path: string, rel: Path, roots: seq<string>, denied: seq<string>)
    requires IsClean(rel) && RelText(rel) == path && path != "." && Campaign.UnderSome(path, roots)
    requires forall j :: 0 <= j < |denied| ==> !Campaign.Within(path, denied[j])
    ensures Below(rel, roots, denied)
  {
    hide Campaign.Within, IsClean;
    SegmentsOfKey(rel);
    var j :| 0 <= j < |roots| && Campaign.Within(path, roots[j]);
    CampaignRuns.WithinMeansAncestor(path, roots[j]);
    forall k | 0 <= k < |denied| ensures !(Split(denied[k], '/') <= rel) {
      CampaignRuns.WithinMeansAncestor(path, denied[k]);
    }
  }

  /** `path` is the stripped text of plain segments below no root of `denied`, a trailing slash or not. */
  ghost predicate OutsideDenied(path: string, denied: seq<string>) {
    exists rel: Path ::
      IsClean(rel) && Strip(RelText(rel)) == path && forall j :: 0 <= j < |denied| ==> !(Segments(denied[j]) <= rel)
  }

  /**
   * The gap the text comparison of the campaign leaves for denied roots with a trailing slash is closed by the
   * store: without symbolic links no path of its receipt stands for a file in a denied directory, however that root
   * is written, if the roots on record are no wider than those resolved at bind time.
   */
  lemma DenialsHold(fs: Fs, st: Authority.Store, id: Authority.ReceiptId, path: string, grant: Campaign.Grant)
    requires WellBehaved(fs) && NoSymlinks(fs) && AuthorityRuns.Reachable(fs, st) && id in st.receipts
    requires path in st.receipts[id].paths.inScope && id.binding.approval.proposal in st.proposals
    requires grant.deniedRoots == st.proposals[id.binding.approval.proposal].deniedRoots
    ensures id.binding in st.bindings && id.binding.approval in st.approvals
    ensures
      var b, body := st.bindings[id.binding], st.approvals[id.binding.approval].body;
      forall g :: AuthorityGrowth.HoldsTo(fs, b, body, g) ==> OutsideDenied(path, grant.deniedRoots)
  {
    hide AuthorityRuns.Reachable, Segments, IsClean, RelText, WellBehaved, NoSymlinks, Strip, AuthorityGrowth.HoldsTo;
    AuthorityGrowth.NoAuthorityGrowthPlain(fs, st, id, path);
  }

  /** `path` is the stripped text of plain segments below one of `roots` and below none of `denied`. */
  ghost predicate StaysInside(path: string, roots: seq<string>, denied: seq<string>) {
    exists rel: Path ::
      && IsClean(rel) && Strip(RelText(rel)) == path
      && (exists j :: 0 <= j < |roots| && Segments(roots[j]) <= rel)
      && (forall j :: 0 <= j < |denied| ==> !(Segments(denied[j]) <= rel))
  }

  lemma WithinSegments(path: string, root: string)
    requires Campaign.Within(path, root)
    ensures Segments(root) <= Segments(path)
  {
    hide Campaign.Within;
    CampaignRuns.WithinMeansAncestor(path, root);
    var head, all := Split(root, '/'), Split(path, '/');
    assert all == head + all[|head|..];
    DropAppend(head, all[|head|..]);
  }

  /**
   * The campaign and the store together: when the receipt is the store's and the approval's frozen body is the one
   * the campaign read, every changed path of a completed write slice stands for a file below a write root of the
   * campaign and in no directory the approval denies, whatever its text or the spelling of the roots.
   */
  lemma ChangedFilesStayInside(grants: Campaign.Grants, w: Campaign.World, i: nat, path: string,
      fs: Fs, st: Authority.Store, id: Authority.ReceiptId)
    requires CampaignRuns.Reachable(grants, w) && i < |w.disk.completed| && Campaign.IsWrite(w.disk.completed[i].slice)
    requires w.disk.completed[i].receipt.Some? && path in w.disk.completed[i].receipt.value.changed
    requires WellBehaved(fs) && NoSymlinks(fs) && AuthorityRuns.Reachable(fs, st) && id in st.receipts
    requires w.disk.completed[i].receipt.value.changed == st.receipts[id].paths.inScope
    ensures id.binding in st.bindings && id.binding.approval in st.approvals
    ensures id.binding.approval.proposal in st.proposals
    ensures
      var s, proposal := w.disk.completed[i].slice, st.proposals[id.binding.approval.proposal];
      && s.authorityRef.Ref? && grants.body(s.authorityRef.text).Some?
      && var b, body := st.bindings[id.binding], st.approvals[id.binding.approval].body;
         var grant := grants.body(s.authorityRef.text).value;
         grant.allowedRoots == proposal.allowedRoots && grant.deniedRoots == proposal.deniedRoots ==>
           forall g :: AuthorityGrowth.HoldsTo(fs, b, body, g) ==>
             StaysInside(path, w.disk.authority.writeRoots, grant.deniedRoots)
  {
    hide CampaignRuns.Reachable, AuthorityRuns.Reachable, Campaign.UnderSome, AuthorityGrowth.HoldsTo, WellBehaved,
      NoSymlinks, AuthorityGrowth.PlainlyWithin, StaysInside;
    CampaignRuns.AllowedRootsInside(grants, w, i);
    AuthorityGrowth.NoAuthorityGrowthPlain(fs, st, id, path);
    var proposal := st.proposals[id.binding.approval.proposal];
    var grant := grants.body(w.disk.completed[i].slice.authorityRef.text).value;
    if grant.allowedRoots == proposal.allowedRoots && AuthorityGrowth.PlainlyWithin(proposal, path) {
      PlainlyInside(proposal, path, w.disk.authority.writeRoots);
    }
  }

  lemma PlainlyInside(body: Body, path: string, roots: seq<string>)
    requires AuthorityGrowth.PlainlyWithin(body, path)
    requires forall r :: r in body.allowedRoots ==> Campaign.UnderSome(r, roots)
    ensures StaysInside(path, roots, body.deniedRoots)
  {
    hide Segments, IsClean, RelText, Strip, Campaign.Within;
    var rel :|
      && IsClean(rel) && Strip(RelText(rel)) == path
      && (exists k :: 0 <= k < |body.allowedRoots| && Segments(body.allowedRoots[k]) <= rel)
      && (forall j :: 0 <= j < |body.deniedRoots| ==> !(Segments(body.deniedRoots[j]) <= rel));
    var k :| 0 <= k < |body.allowedRoots| && Segments(body.allowedRoots[k]) <= rel;
    assert body.allowedRoots[k] in body.allowedRoots;
    var j :| 0 <= j < |roots| && Campaign.Within(body.allowedRoots[k], roots[j]);
    WithinSegments(body.allowedRoots[k], roots[j]);
    assert Segments(roots[j]) <= rel;
  }
}
