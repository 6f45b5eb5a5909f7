/** The invariants of an episode and of its project, kept by every service call. */
module DeliveryProofs {
  import opened Prelude
  import opened Delivery

  // ---------------------------------------------------------------------------------------------
  // Invariants of one episode
  // ---------------------------------------------------------------------------------------------

  predicate InProgress(versions: seq<Version>) {
    versions != [] && !Done(versions[|versions| - 1].ingest)
  }

  /** Only the newest version may be unfinished, at most one is READY, and nothing else was ever reviewed. */
  predicate VersionsOk(versions: seq<Version>) {
    && (forall k :: 0 <= k < |versions| - 1 ==> Done(versions[k].ingest))
    && (forall j, k :: 0 <= j < k < |versions| ==> !(versions[j].ingest.Ready? && versions[k].ingest.Ready?))
    && (forall k :: 0 <= k < |versions| ==>
          versions[k].ingest.Ready? || versions[k].ingest.Superseded? || versions[k].reviews == [])
  }

  predicate PastApproval(s: EpisodeStatus) {
    Reviewed(s) || s.Scheduled? || Out(s)
  }

  /** An approved version exists exactly from APPROVED on, and it is the READY version. */
  predicate ApprovedOk(e: Episode) {
    && (PastApproval(e.status) <==> e.approved.Some?)
    && (e.approved.Some? ==> e.approved.value < |e.versions| && e.versions[e.approved.value].ingest.Ready?)
  }

  /** The status before approval can be read off the versions, although nothing stores it. */
  predicate StatusOk(e: Episode) {
    && (e.status.Processing? <==> InProgress(e.versions))
    && (Submittable(e.status) ==> e.status == StatusWithoutPending(e.versions))
    && (e.status.Planned? ==> e.versions == [] && e.publications == [])
    && (e.underRevision ==> !Out(e.status) && !e.status.Planned?)
  }

  predicate Gated(e: Episode) {
    && e.approved.Some? && e.approved.value < |e.versions|
    && e.versions[e.approved.value].aiLabel.Some?
    && PassedAll(e.versions[e.approved.value].checks)
  }

  /** The release gate: label and four passed checks from COMPLIANCE_PASSED on, and a price once scheduled or out. */
  predicate GateOk(e: Episode) {
    && (e.status.CompliancePassed? || e.status.Scheduled? || Out(e.status) ==> Gated(e))
    && (e.status.Scheduled? || Out(e.status) ==> e.price.Some?)
  }

  /** One pending release exactly when SCHEDULED, one live release exactly when PUBLISHED, both of the approved version. */
  predicate MirrorOk(e: Episode) {
    && (e.status.Scheduled? <==> exists p :: 0 <= p < |e.publications| && Pending(e.publications[p]))
    && (e.status.Published? <==> exists p :: 0 <= p < |e.publications| && Live(e.publications[p]))
    && (forall p, q :: 0 <= p < q < |e.publications| ==>
          !(Pending(e.publications[p]) && Pending(e.publications[q])) && !(Live(e.publications[p]) && Live(e.publications[q])))
    && (forall p :: 0 <= p < |e.publications| && e.publications[p].takenDownAt.None? ==> e.approved == Some(e.publications[p].version))
  }

  predicate EpisodeOk(e: Episode) {
    VersionsOk(e.versions) && ApprovedOk(e) && StatusOk(e) && GateOk(e) && MirrorOk(e)
  }

  // ---------------------------------------------------------------------------------------------
  // Deliveries
  // ---------------------------------------------------------------------------------------------

  lemma SubmitKeeps(project: MovieStatus, e: Episode, committed: bool)
    requires EpisodeOk(e) && Submit(project, e, committed).Ok?
    ensures EpisodeOk(Submit(project, e, committed).value)
    ensures StatusWithoutPending(Submit(project, e, committed).value.versions) == e.status
  {
    var next := Submit(project, e, committed).value;
    assert next.versions[..|e.versions|] == e.versions;
  }

  lemma RetryKeeps(project: MovieStatus, e: Episode, v: nat)
    requires EpisodeOk(e) && Retry(project, e, v).Ok?
    ensures EpisodeOk(Retry(project, e, v).value)
    ensures StatusWithoutPending(Retry(project, e, v).value.versions) == e.status
  {
    var next := Retry(project, e, v).value;
    assert next.versions[..v] == e.versions[..v];
  }

  lemma AdvanceKeeps(e: Episode, v: nat, to: Ingest)
    requires EpisodeOk(e) && !TooLate(e, v, to)
    ensures EpisodeOk(Advance(e, v, to))
    ensures StatusWithoutPending(Advance(e, v, to).versions) == StatusWithoutPending(e.versions)
  {
    if Advance(e, v, to) != e {
      assert Advance(e, v, to).versions[..v] == e.versions[..v];
    }
  }

  /** A pipeline step keeps the invariant exactly when it does not write over a finished version. */
  lemma AdvanceKeepsExactly(e: Episode, v: nat, to: Ingest)
    requires EpisodeOk(e)
    ensures EpisodeOk(Advance(e, v, to)) <==> !TooLate(e, v, to)
  {
    if !TooLate(e, v, to) {
      AdvanceKeeps(e, v, to);
    } else {
      var next := Advance(e, v, to);
      assert !Done(next.versions[v].ingest);
      if v == |e.versions| - 1 {
        assert InProgress(next.versions) && !InProgress(e.versions) && next.status == e.status;
      }
    }
  }

  /** An episode whose only delivery was failed while its attempt went on. */
  const FAILED_ONCE := Episode(AwaitingMedia, [NEW_VERSION.(ingest := Failed)], None, None, false, [])

  /** Such an input: the attempt goes on and ends ready, and the episode keeps waiting for media it has. */
  lemma LateAttemptIsLost()
    ensures EpisodeOk(FAILED_ONCE) && TooLate(FAILED_ONCE, 0, Transcoding)
    ensures var late := MediaReady(Advance(FAILED_ONCE, 0, Transcoding), 0);
            late.versions[0].ingest.Ready? && late.status.AwaitingMedia? && StatusWithoutPending(late.versions).InReview?
  {
    var late := MediaReady(Advance(FAILED_ONCE, 0, Transcoding), 0);
    assert LastReady(late.versions) == Some(0);
    assert LastReady(FAILED_ONCE.versions) == None;
  }

  /**
   * A delivery that ends ready is always the newest one, so the branch for a newer delivery never
   * supersedes a live one, and the episode always moves to review.
   */
  lemma ReadyIsNewest(e: Episode, v: nat)
    requires EpisodeOk(e) && v < |e.versions| && !Done(e.versions[v].ingest)
    ensures v == |e.versions| - 1 && e.status.Processing?
    ensures MediaReady(e, v).status.InReview? && MediaReady(e, v).versions[v].ingest.Ready?
  {
  }

  lemma ReadyKeeps(e: Episode, v: nat)
    requires EpisodeOk(e)
    ensures EpisodeOk(MediaReady(e, v))
  {
    if MediaReady(e, v) != e {
      ReadyIsNewest(e, v);
      assert LastReady(MediaReady(e, v).versions) == Some(v);
    }
  }

  lemma FailKeeps(e: Episode, v: nat)
    requires EpisodeOk(e)
    ensures EpisodeOk(MediaFailed(e, v))
    ensures StatusWithoutPending(MediaFailed(e, v).versions) == StatusWithoutPending(e.versions)
  {
    if MediaFailed(e, v) != e {
      assert v == |e.versions| - 1;
      assert MediaFailed(e, v).versions[..v] == e.versions[..v];
    }
  }

  // ---------------------------------------------------------------------------------------------
  // Review, label, compliance
  // ---------------------------------------------------------------------------------------------

  /** Sending a version back is the same from review, after approval and from a take-down. */
  lemma RequestChangesKeeps(e: Episode, v: nat)
    requires VersionsOk(e.versions) && ApprovedOk(e) && !InProgress(e.versions)
    requires v < |e.versions| && e.versions[v].ingest.Ready?
    requires forall p :: 0 <= p < |e.publications| ==> e.publications[p].takenDownAt.Some?
    requires RequestChanges(e, v).Ok?
    ensures EpisodeOk(RequestChanges(e, v).value.(underRevision := e.underRevision))
    ensures EpisodeOk(RequestChanges(e, v).value.(underRevision := true))
  {
    var next := RequestChanges(e, v).value;
    assert next.versions[v].ingest.Ready?;
    assert forall k :: 0 <= k < |next.versions| ==> next.versions[k].ingest == e.versions[k].ingest;
    assert LastReady(next.versions) == Some(v);
  }

  lemma NothingPublished(e: Episode)
    requires EpisodeOk(e) && !e.status.Scheduled? && !e.status.Published?
    ensures forall p :: 0 <= p < |e.publications| ==> e.publications[p].takenDownAt.Some?
  {
    forall p | 0 <= p < |e.publications| ensures e.publications[p].takenDownAt.Some? {
      assert !Pending(e.publications[p]) && !Live(e.publications[p]);
    }
  }

  lemma ReviewKeeps(project: MovieStatus, e: Episode, v: nat, d: Decision)
    requires EpisodeOk(e) && Review(project, e, v, d).Ok?
    ensures EpisodeOk(Review(project, e, v, d).value)
  {
    NothingPublished(e);
    if d.SentBack? {
      RequestChangesKeeps(e, v);
    } else {
      var next := Review(project, e, v, d).value;
      assert next.versions[v].ingest.Ready?;
    }
  }

  lemma LabelKeeps(project: MovieStatus, e: Episode, v: nat, nonBlank: bool)
    requires EpisodeOk(e) && ApplyLabel(project, e, v, nonBlank).Ok?
    ensures EpisodeOk(ApplyLabel(project, e, v, nonBlank).value)
  {
    NothingPublished(e);
    var next := ApplyLabel(project, e, v, nonBlank).value;
    assert next.versions[v].ingest.Ready?;
  }

  /** The check passes only for a version with a non-blank label whose studio made the commitment. */
  lemma ComplianceKeeps(project: MovieStatus, e: Episode, v: nat, sheet: Sheet)
    requires EpisodeOk(e) && Compliance(project, e, v, sheet).Ok?
    ensures var next := Compliance(project, e, v, sheet).value;
            && EpisodeOk(next)
            && (next.status.CompliancePassed? <==>
                  e.versions[v].aiLabel == Some(true) && e.versions[v].studioCommitted
                  && sheet.noticeGiven && sheet.contentSafe && !sheet.depictsRealPerson)
            && (!next.status.CompliancePassed? ==> next.status.ChangesRequested?)
  {
    NothingPublished(e);
    var checks := e.versions[v].checks + Verdicts(e.versions[v], sheet);
    var checked := e.(versions := e.versions[v := e.versions[v].(checks := checks)]);
    VerdictsDecide(e.versions[v], sheet);
    assert checked.versions[v].ingest.Ready?;
    if PassedAll(Verdicts(e.versions[v], sheet)) {
      assert PassedAll(checks);
    } else {
      RequestChangesKeeps(checked, v);
    }
  }

  lemma VerdictsDecide(version: Version, sheet: Sheet)
    ensures PassedAll(Verdicts(version, sheet)) <==>
              version.aiLabel == Some(true) && version.studioCommitted
              && sheet.noticeGiven && sheet.contentSafe && !sheet.depictsRealPerson
  {
    var verdicts := Verdicts(version, sheet);
    assert PassedAll(verdicts) ==> verdicts[LabelPresence].Pass? && verdicts[DecreeNotice].Pass?
                                   && verdicts[ContentSafety].Pass? && verdicts[RealPerson].Pass?;
    forall t: CheckType ensures t in verdicts {
      match t case LabelPresence => case DecreeNotice => case ContentSafety => case RealPerson =>
    }
  }

  lemma EpisodeCallKeeps(project: MovieStatus, e: Episode, c: Call)
    requires EpisodeOk(e) && AboutMedia(c) && EpisodeCall(project, e, c).Ok?
    requires c.AdvanceCall? ==> !TooLate(e, c.v, c.to)
    ensures EpisodeOk(EpisodeCall(project, e, c).value)
  {
    match c
    case SubmitCall(_, committed) => SubmitKeeps(project, e, committed);
    case RetryCall(_, v) => RetryKeeps(project, e, v);
    case AdvanceCall(_, v, to) => AdvanceKeeps(e, v, to);
    case ReadyCall(_, v) => ReadyKeeps(e, v);
    case FailCall(_, v) => FailKeeps(e, v);
    case ReviewCall(_, v, decision) => ReviewKeeps(project, e, v, decision);
    case LabelCall(_, v, nonBlank) => LabelKeeps(project, e, v, nonBlank);
    case ComplianceCall(_, v, sheet) => ComplianceKeeps(project, e, v, sheet);
  }
}
