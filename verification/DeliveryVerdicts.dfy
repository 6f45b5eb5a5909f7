/** When each call of a project is accepted, what it leaves behind, and that every episode can be brought on air. */
module DeliveryVerdicts {
  import opened Prelude
  import opened Delivery
  import opened DeliveryProofs
  import opened ProjectProofs

  // ---------------------------------------------------------------------------------------------
  // Deliveries
  // ---------------------------------------------------------------------------------------------

  /** What no call about a delivery touches. */
  predicate KeepsReleases(e: Episode, next: Episode) {
    next.price == e.price && next.underRevision == e.underRevision && next.publications == e.publications
  }

  /** All versions but one stay as they are. */
  predicate OnlyVersion(e: Episode, next: Episode, v: nat) {
    && KeepsReleases(e, next) && |next.versions| == |e.versions|
    && forall k :: 0 <= k < |e.versions| && k != v ==> next.versions[k] == e.versions[k]
  }

  /** A studio delivers only while the episode waits for it, and the new version starts with nothing but its commitment. */
  lemma SubmitVerdict(project: MovieStatus, e: Episode, committed: bool)
    ensures Submit(project, e, committed).Ok? <==>
              (project.InProduction? || project.UnderRevision?)
              && (e.status.AwaitingMedia? || e.status.InReview? || e.status.ChangesRequested?)
    ensures Submit(project, e, committed).Ok? ==>
              var next := Submit(project, e, committed).value;
              && next.status.Processing? && next.approved == e.approved && KeepsReleases(e, next)
              && |next.versions| == |e.versions| + 1 && next.versions[..|e.versions|] == e.versions
              && var version := next.versions[|e.versions|];
                 version.ingest.Queued? && version.reviews == [] && version.aiLabel.None? && version.checks == map[]
                 && version.studioCommitted == committed
  {
  }

  /** Only the newest delivery can be run again, and only after it failed. */
  lemma RetryVerdict(project: MovieStatus, e: Episode, v: nat)
    ensures Retry(project, e, v).Ok? <==>
              && InDelivery(project) && Submittable(e.status)
              && v == |e.versions| - 1 && e.versions[v].ingest.Failed?
    ensures Retry(project, e, v).Ok? ==>
              var next := Retry(project, e, v).value;
              && next.status.Processing? && next.approved == e.approved && OnlyVersion(e, next, v)
              && next.versions[v].ingest.Queued? && next.versions[v] == e.versions[v].(ingest := next.versions[v].ingest)
  {
  }

  /** While a delivery is pending only its own outcome is accepted: nothing can be delivered, reviewed or labelled. */
  lemma PendingLocks(project: MovieStatus, e: Episode, c: Call)
    requires EpisodeOk(e) && e.status.Processing?
    requires c.SubmitCall? || c.RetryCall? || c.ReviewCall? || c.LabelCall? || c.ComplianceCall?
    ensures EpisodeCall(project, e, c).Err?
  {
  }

  /** A delivery that ends ready is under review as the only READY version; nothing else about any version changes. */
  lemma ReadyVerdict(e: Episode, v: nat)
    requires EpisodeOk(e) && v < |e.versions| && !Done(e.versions[v].ingest)
    ensures var next := MediaReady(e, v);
            && next.status.InReview? && next.approved == e.approved && KeepsReleases(e, next)
            && |next.versions| == |e.versions|
            && (forall k :: 0 <= k < |next.versions| ==> (next.versions[k].ingest.Ready? <==> k == v))
            && (forall k :: 0 <= k < |next.versions| ==>
                  && next.versions[k] == e.versions[k].(ingest := next.versions[k].ingest)
                  && (next.versions[k] == e.versions[k] || k == v || next.versions[k].ingest.Superseded?))
  {
    ReadyIsNewest(e, v);
  }

  /** A delivery that fails leaves every version but itself, READY ones included, as it was. */
  lemma FailVerdict(e: Episode, v: nat)
    requires EpisodeOk(e) && v < |e.versions| && !Done(e.versions[v].ingest)
    ensures var next := MediaFailed(e, v);
            && OnlyVersion(e, next, v) && next.approved == e.approved
            && next.versions[v].ingest.Failed? && next.versions[v] == e.versions[v].(ingest := next.versions[v].ingest)
            && next.status == StatusWithoutPending(e.versions)
  {
    ReadyIsNewest(e, v);
    FailKeeps(e, v);
  }

  // ---------------------------------------------------------------------------------------------
  // Review, label, compliance
  // ---------------------------------------------------------------------------------------------

  /**
   * A version is approved only from review and only if it is READY; one that is approved can still be sent
   * back until it is scheduled. The decision is the last review of the version from then on.
   */
  lemma ReviewVerdict(project: MovieStatus, e: Episode, v: nat, d: Decision)
    requires EpisodeOk(e) && v < |e.versions|
    ensures Review(project, e, v, d).Ok? <==>
              && InDelivery(project)
              && ((e.status.InReview? && e.versions[v].ingest.Ready?)
                  || (d.SentBack? && (e.status.Approved? || e.status.Labeled? || e.status.CompliancePassed?) && e.approved == Some(v)))
    ensures Review(project, e, v, d).Ok? ==>
              var next := Review(project, e, v, d).value;
              && OnlyVersion(e, next, v)
              && next.versions[v] == e.versions[v].(reviews := e.versions[v].reviews + [d])
              && next.status == (if d.Accepted? then Approved else ChangesRequested)
              && next.approved == (if d.Accepted? then Some(v) else None)
  {
  }

  /** Every check of the version has to be made again after a label, and the label is the one given. */
  lemma LabelVerdict(project: MovieStatus, e: Episode, v: nat, nonBlank: bool)
    requires EpisodeOk(e) && v < |e.versions|
    ensures ApplyLabel(project, e, v, nonBlank).Ok? <==>
              && (project.InProduction? || project.UnderRevision?)
              && (e.status.Approved? || e.status.Labeled? || e.status.CompliancePassed?) && e.approved == Some(v)
    ensures ApplyLabel(project, e, v, nonBlank).Ok? ==>
              var next := ApplyLabel(project, e, v, nonBlank).value;
              && OnlyVersion(e, next, v) && next.status.Labeled? && next.approved == e.approved
              && next.versions[v].aiLabel == Some(nonBlank) && next.versions[v].checks.Keys == e.versions[v].checks.Keys
              && (forall t :: t in next.versions[v].checks ==> next.versions[v].checks[t].NotRun?)
              && next.versions[v] == e.versions[v].(aiLabel := next.versions[v].aiLabel, checks := next.versions[v].checks)
  {
  }

  function ResultOf(passed: bool): CheckResult {
    if passed then Pass else Fail
  }

  /** Which of the four checks pass, one by one. */
  lemma ChecksMade(project: MovieStatus, e: Episode, v: nat, sheet: Sheet)
    requires v < |e.versions| && Compliance(project, e, v, sheet).Ok?
    ensures var was, next := e.versions[v], Compliance(project, e, v, sheet).value;
            var checks := next.versions[v].checks;
            && OnlyVersion(e, next, v)
            && (forall t: CheckType :: t in checks)
            && checks[LabelPresence] == ResultOf(was.aiLabel == Some(true))
            && checks[DecreeNotice] == ResultOf(sheet.noticeGiven)
            && checks[ContentSafety] == ResultOf(sheet.contentSafe)
            && checks[RealPerson] == ResultOf(was.studioCommitted && !sheet.depictsRealPerson)
            && next.versions[v] == was.(checks := checks, reviews := next.versions[v].reviews)
  {
    VerdictsComplete(e.versions[v], sheet);
    assert Compliance(project, e, v, sheet).value.versions[v].checks == e.versions[v].checks + Verdicts(e.versions[v], sheet);
  }

  lemma VerdictsComplete(version: Version, sheet: Sheet)
    ensures forall t: CheckType :: t in Verdicts(version, sheet)
  {
    forall t: CheckType ensures t in Verdicts(version, sheet) {
      match t case LabelPresence => case DecreeNotice => case ContentSafety => case RealPerson =>
    }
  }

  /** When the checks may be made, and what becomes of the episode. */
  lemma ComplianceVerdict(project: MovieStatus, e: Episode, v: nat, sheet: Sheet)
    requires EpisodeOk(e) && v < |e.versions|
    ensures Compliance(project, e, v, sheet).Ok? <==> InDelivery(project) && e.status.Labeled? && e.approved == Some(v)
    ensures Compliance(project, e, v, sheet).Ok? ==>
              var was, next := e.versions[v], Compliance(project, e, v, sheet).value;
              && OnlyVersion(e, next, v)
              && (next.status.CompliancePassed? <==> PassedAll(next.versions[v].checks))
              && (next.status.CompliancePassed? ==> next.approved == Some(v) && next.versions[v].reviews == was.reviews)
              && (!next.status.CompliancePassed? ==>
                    next.status.ChangesRequested? && next.approved.None? && next.versions[v].reviews == was.reviews + [SentBack])
  {
    if Compliance(project, e, v, sheet).Ok? {
      VerdictsComplete(e.versions[v], sheet);
      assert Compliance(project, e, v, sheet).value.versions[v].checks == e.versions[v].checks + Verdicts(e.versions[v], sheet);
      assert forall t: CheckType :: (e.versions[v].checks + Verdicts(e.versions[v], sheet))[t] == Verdicts(e.versions[v], sheet)[t];
    }
  }

  /** A label decides: with a blank one the check sends the version back whatever the sheet says. */
  lemma LabelDecides(project: MovieStatus, e: Episode, v: nat, nonBlank: bool, sheet: Sheet)
    requires EpisodeOk(e) && v < |e.versions| && ApplyLabel(project, e, v, nonBlank).Ok?
    ensures var labelled := ApplyLabel(project, e, v, nonBlank).value;
            && Compliance(project, labelled, v, sheet).Ok?
            && (Compliance(project, labelled, v, sheet).value.status.CompliancePassed? <==>
                  nonBlank && e.versions[v].studioCommitted && sheet == Sheet(true, true, false))
  {
    LabelKeeps(project, e, v, nonBlank);
    LabelVerdict(project, e, v, nonBlank);
    var labelled := ApplyLabel(project, e, v, nonBlank).value;
    ComplianceVerdict(project, labelled, v, sheet);
    ComplianceKeeps(project, labelled, v, sheet);
  }

  /** Which check a refused call of the studio or the Reviewer names: the project before the episode, the version last. */
  lemma EpisodeRefusals(project: MovieStatus, e: Episode, v: nat, committed: bool, d: Decision, nonBlank: bool, sheet: Sheet)
    requires EpisodeOk(e) && v < |e.versions|
    ensures Submit(project, e, committed) == Err(WrongProject) <==> !InDelivery(project)
    ensures Submit(project, e, committed) == Err(WrongEpisode) <==> InDelivery(project) && !Submittable(e.status)
    ensures Retry(project, e, v) == Err(NotFailed) <==> !e.versions[v].ingest.Failed?
    ensures Retry(project, e, v) == Err(NewerVersion) <==>
              e.versions[v].ingest.Failed? && InDelivery(project) && Submittable(e.status) && v < |e.versions| - 1
    ensures Review(project, e, v, d) == Err(WrongProject) <==> !InDelivery(project)
    ensures Review(project, e, v, d) == Err(WrongEpisode) <==>
              InDelivery(project) && !e.status.InReview? && (d.Accepted? || !Reviewed(e.status))
    ensures ApplyLabel(project, e, v, nonBlank) == Err(WrongProject) <==> !InDelivery(project)
    ensures ApplyLabel(project, e, v, nonBlank) == Err(WrongEpisode) <==> InDelivery(project) && !Reviewed(e.status)
    ensures Compliance(project, e, v, sheet) == Err(WrongProject) <==> !InDelivery(project)
    ensures Compliance(project, e, v, sheet) == Err(WrongEpisode) <==> InDelivery(project) && !e.status.Labeled?
    ensures Compliance(project, e, v, sheet) == Err(NotUnderReview) <==>
              InDelivery(project) && e.status.Labeled? && e.approved != Some(v)
  {
  }

  /** The same for releases and take-downs; a release that only lacks data lists what is missing. */
  lemma ReleaseRefusals(m: Movie, i: nat, p: nat, scheduledAt: Option<Time>, mode: Option<Mode>, now: Time)
    requires ProjectOk(m) && i < |m.episodes| && p < |m.episodes[i].publications|
    ensures var r, status := Publish(m, i, scheduledAt, now), m.episodes[i].status;
            var early := scheduledAt.Some? && scheduledAt.value <= now;
            && (r == Err(WrongProject) <==> !Releasing(m.status))
            && (r == Err(WrongEpisode) <==> Releasing(m.status) && !Releasable(status))
            && (r == Err(InThePast) <==> Releasing(m.status) && Releasable(status) && early)
            && (r == Err(CannotRelease(MissingForRelease(m, m.episodes[i]))) <==>
                  Releasing(m.status) && Releasable(status) && !early && MissingForRelease(m, m.episodes[i]) != [])
    ensures var release := m.episodes[i].publications[p];
            && (Unpublish(m, i, p, mode, now) == Err(AlreadyTakenDown) <==> release.takenDownAt.Some?)
            && (Unpublish(m, i, p, mode, now) == Err(ModeMissing) <==> Live(release) && mode.None?)
  {
    assert EpisodeFits(m.status, m.episodes[i]);
    UnpublishVerdict(m, i, p, mode, now);
    PublishRefused(m, i, scheduledAt, now);
    if m.episodes[i].publications[p].takenDownAt.None? {
      DownLeavesNothing(m.episodes[i], p, now);
    }
  }

  lemma PublishRefused(m: Movie, i: nat, scheduledAt: Option<Time>, now: Time)
    requires ProjectOk(m) && i < |m.episodes|
    ensures Publish(m, i, scheduledAt, now) == Err(WrongProject) ==> !Releasing(m.status)
    ensures Publish(m, i, scheduledAt, now) == Err(WrongEpisode) ==> !Releasable(m.episodes[i].status)
    ensures Publish(m, i, scheduledAt, now) == Err(InThePast) ==> scheduledAt.Some? && scheduledAt.value <= now
    ensures Publish(m, i, scheduledAt, now) == Err(CannotRelease(MissingForRelease(m, m.episodes[i]))) ==>
              MissingForRelease(m, m.episodes[i]) != []
  {
    PublishVerdict(m, i, scheduledAt, now);
    assert EpisodeFits(m.status, m.episodes[i]);
    if Releasable(m.episodes[i].status) {
      MissingExactly(m, m.episodes[i]);
    }
  }

  // ---------------------------------------------------------------------------------------------
  // The project
  // ---------------------------------------------------------------------------------------------

  lemma AssignVerdict(m: Movie, ready: Readiness)
    ensures Assign(m, ready).Ok? <==>
              && (m.status.Draft? || m.status.Assigned? || m.status.InProduction?) && m.episodes != []
              && ready.creator && ready.funded && ready.milestones
    ensures Assign(m, ready).Ok? ==>
              var next := Assign(m, ready).value;
              !next.status.Draft? && (!m.status.Draft? ==> next.status == m.status) && next == m.(status := next.status)
              && (OpenProject(next.status) && (m.status.Draft? ==> next.status.Assigned?))
  {
  }

  /** The same for the calls about the project itself. */
  lemma ProjectRefusals(m: Movie, ready: Readiness, deadlines: bool, now: Time, i: nat, price: nat)
    requires ProjectOk(m)
    ensures Assign(m, ready) == Err(WrongProject) <==> !OpenProject(m.status)
    ensures Assign(m, ready) == Err(NoCreator) <==> OpenProject(m.status) && !ready.creator
    ensures Assign(m, ready) == Err(NotFunded) <==> OpenProject(m.status) && ready.creator && !ready.funded
    ensures Assign(m, ready) == Err(NoEpisodes) <==> OpenProject(m.status) && ready.creator && ready.funded && m.episodes == []
    ensures HandOff(m, deadlines) == Err(DeadlinePast) <==> m.status.Assigned? && !deadlines
    ensures HandOff(m, deadlines) == Err(WrongProject) <==> !m.status.Assigned?
    ensures AddEpisode(m) == Err(WrongProject) <==> !OpenProject(m.status)
    ensures Cancel(m, now) == Err(WrongProject) <==> !OpenProject(m.status)
    ensures Cancel(m, now) == Err(AlreadyPublished) <==>
              OpenProject(m.status) && exists k :: 0 <= k < |m.episodes| && EverReleased(m.episodes[k])
    ensures SetPrice(m, i, price) == Err(NotFound) <==> i >= |m.episodes|
  {
  }

  /** The hand-off opens every episode for its first delivery, once. */
  lemma HandOffVerdict(m: Movie, deadlines: bool)
    requires ProjectOk(m)
    ensures HandOff(m, deadlines).Ok? <==> m.status.Assigned? && deadlines
    ensures HandOff(m, deadlines).Ok? ==>
              var next := HandOff(m, deadlines).value;
              && next.status.InProduction? && next.synopsis == m.synopsis && next.rated == m.rated
              && |next.episodes| == |m.episodes|
              && (forall i :: 0 <= i < |m.episodes| ==>
                    Submit(next.status, next.episodes[i], true).Ok? && Submit(m.status, m.episodes[i], true).Err?
                    && next.episodes[i] == m.episodes[i].(status := AwaitingMedia))
              && HandOff(next, deadlines).Err?
  {
  }

  /** A new episode can be delivered at once exactly when the project is in production already. */
  lemma AddEpisodeVerdict(m: Movie)
    ensures AddEpisode(m).Ok? <==> m.status.Draft? || m.status.Assigned? || m.status.InProduction?
    ensures AddEpisode(m).Ok? ==>
              var next := AddEpisode(m).value;
              && |next.episodes| == |m.episodes| + 1 && next.episodes[..|m.episodes|] == m.episodes
              && next == m.(episodes := next.episodes)
              && var e := next.episodes[|m.episodes|];
                 && e.versions == [] && e.publications == [] && e.price.None? && e.approved.None? && !e.underRevision
                 && e.status == (if m.status.InProduction? then AwaitingMedia else Planned)
                 && (Submit(next.status, e, true).Ok? <==> m.status.InProduction?)
  {
  }

  /** A project can be cancelled as long as nothing of it was ever on air, and nothing of it can go out afterwards. */
  lemma CancelVerdict(m: Movie, now: Time, i: nat)
    requires ProjectOk(m)
    ensures Cancel(m, now).Ok? <==> OpenProject(m.status) && forall k :: 0 <= k < |m.episodes| ==> !EverReleased(m.episodes[k])
    ensures Cancel(m, now).Ok? && i < |m.episodes| ==>
              var was, next := m.episodes[i], Cancel(m, now).value;
              && next.status.Cancelled? && |next.episodes| == |m.episodes|
              && |next.episodes[i].publications| == |was.publications|
              && (forall p :: 0 <= p < |was.publications| ==>
                    next.episodes[i].publications[p]
                    == if was.publications[p].takenDownAt.None? then was.publications[p].(takenDownAt := Some(now)) else was.publications[p])
              && next.episodes[i].status == (if was.status.Scheduled? then CompliancePassed else was.status)
              && next.episodes[i].versions == was.versions && next.episodes[i].price == was.price
              && next.episodes[i].approved == was.approved
  {
    if Cancel(m, now).Ok? && i < |m.episodes| {
      assert !EverReleased(m.episodes[i]);
    }
  }

  /** The two facts a release asks for about the movie are the ones that were saved. */
  lemma DescribeVerdict(m: Movie, synopsis: bool, rated: bool)
    ensures Describe(m, synopsis, rated).Ok? <==> !m.status.Cancelled?
    ensures Describe(m, synopsis, rated).Ok? ==>
              var next := Describe(m, synopsis, rated).value;
              (next.synopsis <==> synopsis) && (next.rated <==> rated) && next.status == m.status && next.episodes == m.episodes
  {
  }

  lemma PriceVerdict(m: Movie, i: nat, price: nat)
    ensures SetPrice(m, i, price).Ok? <==> i < |m.episodes| && !m.status.Cancelled?
    ensures SetPrice(m, i, price).Ok? ==>
              var next := SetPrice(m, i, price).value;
              next.episodes[i].price == Some(price) && next == m.(episodes := m.episodes[i := next.episodes[i]])
              && next.episodes[i] == m.episodes[i].(price := next.episodes[i].price)
  {
  }

  /** What a release gate names as missing, one by one, for an episode that may be released. */
  lemma MissingNames(m: Movie, e: Episode)
    requires EpisodeOk(e) && Releasable(e.status)
    ensures var missing := MissingForRelease(m, e);
            && (NoPrice in missing <==> e.price.None?) && (NoSynopsis in missing <==> !m.synopsis)
            && (NoAgeRating in missing <==> !m.rated)
            && NoApprovedVersion !in missing && NoLabel !in missing && NoPassedChecks !in missing
  {
    MissingExactly(m, e);
    FourPasses(e.versions[e.approved.value].checks);
  }

  /**
   * A release that goes out: its date is now, its episode is published and no longer under revision, and
   * the project is complete exactly when this was the last episode it owed.
   */
  lemma ReleaseVerdict(m: Movie, i: nat, p: nat, now: Time)
    requires i < |m.episodes| && p < |m.episodes[i].publications|
    ensures Release(m, i, p, now).Ok? <==> Pending(m.episodes[i].publications[p]) && Releasing(m.status)
    ensures Release(m, i, p, now).Ok? ==>
              var was, next := m.episodes[i], Release(m, i, p, now).value;
              && |next.episodes| == |m.episodes| && (forall j :: 0 <= j < |m.episodes| && j != i ==> next.episodes[j] == m.episodes[j])
              && next.episodes[i].status.Published? && !next.episodes[i].underRevision
              && next.episodes[i].publications == was.publications[p := was.publications[p].(publishedAt := Some(now))]
              && next.episodes[i].versions == was.versions && next.episodes[i].approved == was.approved
              && next.episodes[i].price == was.price
              && next.status == (if InDelivery(m.status) && OthersOut(m, i) then Completed else m.status)
  {
    if Release(m, i, p, now).Ok? {
      var e := m.episodes[i];
      var out := e.(publications := e.publications[p := e.publications[p].(publishedAt := Some(now))],
                    status := Published, underRevision := false);
      LastOneOut(m, i, out);
    }
  }

  /** Every other episode is on air or was taken off it for good. */
  predicate OthersOut(m: Movie, i: nat) {
    forall j :: 0 <= j < |m.episodes| && j != i ==> m.episodes[j].status.Published? || m.episodes[j].status.Unpublished?
  }

  lemma LastOneOut(m: Movie, i: nat, out: Episode)
    requires i < |m.episodes| && Out(out.status)
    ensures (forall j :: 0 <= j < |m.episodes| ==> Out(Replaced(m, i, out).episodes[j].status))
            <==> forall j :: 0 <= j < |m.episodes| && j != i ==> Out(m.episodes[j].status)
  {
    var next := Replaced(m, i, out);
    assert forall j :: 0 <= j < |m.episodes| && j != i ==> next.episodes[j] == m.episodes[j];
    if forall j :: 0 <= j < |m.episodes| ==> Out(next.episodes[j].status) {
      forall j | 0 <= j < |m.episodes| && j != i ensures Out(m.episodes[j].status) {
        assert Out(next.episodes[j].status);
      }
    }
  }

  predicate HasPending(e: Episode) {
    exists p :: 0 <= p < |e.publications| && Pending(e.publications[p])
  }

  /** The publication at p is `release`, for the approved version; all others stay, and no second one is opened. */
  predicate OneRelease(e: Episode, next: Episode, p: nat, release: Publication) {
    && p < |next.publications| && |next.publications| == (if HasPending(e) then |e.publications| else |e.publications| + 1)
    && (if HasPending(e) then p < |e.publications| && Pending(e.publications[p]) else p == |e.publications|)
    && (forall q :: 0 <= q < |e.publications| && q != p ==> next.publications[q] == e.publications[q])
    && next.publications[p] == release && e.approved == Some(release.version)
  }

  lemma PendingReused(e: Episode, scheduledAt: Option<Time>, p: nat)
    requires EpisodeOk(e) && e.approved.Some? && p == FirstPending(e.publications)
    ensures OneRelease(e, WithPending(e, scheduledAt), p, Publication(e.approved.value, scheduledAt, None, None))
  {
    assert HasPending(e) <==> p < |e.publications|;
    PendingNamesApproved(e, p);
  }

  /** Publishing again moves the release that is pending; only an episode without one gets another. */
  lemma PublishReuses(m: Movie, i: nat, scheduledAt: Option<Time>, now: Time) returns (p: nat)
    requires i < |m.episodes| && EpisodeOk(m.episodes[i]) && Publish(m, i, scheduledAt, now).Ok?
    ensures var e, next := m.episodes[i], Publish(m, i, scheduledAt, now).value.episodes[i];
            && e.approved.Some?
            && OneRelease(e, next, p, Publication(e.approved.value, scheduledAt, if scheduledAt.Some? then None else Some(now), None))
            && next.versions == e.versions && next.price == e.price
            && next.underRevision == (e.underRevision && scheduledAt.Some?)
    ensures scheduledAt.Some? ==> Publish(m, i, scheduledAt, now).value.status == m.status
  {
    var e := m.episodes[i];
    p := FirstPending(e.publications);
    PendingReused(e, scheduledAt, p);
    PublishWrites(m, i, scheduledAt, now, p, WithPending(e, scheduledAt));
  }

  lemma PublishWrites(m: Movie, i: nat, scheduledAt: Option<Time>, now: Time, p: nat, pending: Episode)
    requires i < |m.episodes| && Publish(m, i, scheduledAt, now).Ok?
    requires p == FirstPending(m.episodes[i].publications) && pending == WithPending(m.episodes[i], scheduledAt)
    ensures p < |pending.publications|
    ensures var next := Publish(m, i, scheduledAt, now).value.episodes[i];
            if scheduledAt.Some? then next == pending.(status := Scheduled)
            else next == pending.(publications := pending.publications[p := pending.publications[p].(publishedAt := Some(now))],
                                  status := Published, underRevision := false)
    ensures scheduledAt.Some? ==> Publish(m, i, scheduledAt, now).value.status == m.status
  {
  }

  lemma PendingNamesApproved(e: Episode, p: nat)
    requires EpisodeOk(e) && p <= |e.publications| && (p < |e.publications| ==> Pending(e.publications[p]))
    ensures p < |e.publications| ==>
              e.approved == Some(e.publications[p].version) && e.publications[p] == Publication(e.approved.value, e.publications[p].scheduledAt, None, None)
  {
  }

  /** A take-down ends exactly the release it names; a version sent back keeps everything but gets the review. */
  lemma TakeDownMeans(m: Movie, i: nat, p: nat, mode: Option<Mode>, now: Time)
    requires Unpublish(m, i, p, mode, now).Ok?
    ensures var was, next := m.episodes[i], Unpublish(m, i, p, mode, now).value.episodes[i];
            var v := was.publications[p].version;
            && next.publications == was.publications[p := was.publications[p].(takenDownAt := Some(now))]
            && next.price == was.price
            && if was.publications[p].publishedAt.Some? && mode == Some(Revision)
               then v < |was.versions|
                    && next.versions == was.versions[v := was.versions[v].(reviews := was.versions[v].reviews + [SentBack])]
               else next.versions == was.versions
  {
  }

  /** An episode taken off the air for good can be released again at once, as the version it was. */
  lemma TakenDownCanReturn(m: Movie, i: nat, p: nat, now: Time, later: Time)
    requires ProjectOk(m) && m.synopsis && m.rated && Unpublish(m, i, p, Some(Removal), now).Ok?
    requires m.episodes[i].publications[p].publishedAt.Some?
    ensures var down := Unpublish(m, i, p, Some(Removal), now).value;
            && Publish(down, i, None, later).Ok?
            && Publish(down, i, None, later).value.episodes[i].status == m.episodes[i].status == Published
            && Publish(down, i, None, later).value.episodes[i].approved == m.episodes[i].approved
  {
    var down := Unpublish(m, i, p, Some(Removal), now).value;
    assert EpisodeFits(m.status, m.episodes[i]);
    UnpublishVerdict(m, i, p, Some(Removal), now);
    UnpublishKeeps(m, i, p, Some(Removal), now);
    TakenDownIsReady(m, i, p, now, down);
    PublishVerdict(down, i, None, later);
  }

  lemma TakenDownIsReady(m: Movie, i: nat, p: nat, now: Time, down: Movie)
    requires ProjectOk(m) && Unpublish(m, i, p, Some(Removal), now) == Ok(down)
    requires m.episodes[i].publications[p].publishedAt.Some?
    ensures Releasing(down.status) && down.synopsis == m.synopsis && down.rated == m.rated
    ensures down.episodes[i].price.Some? && m.episodes[i].status.Published?
  {
    assert EpisodeFits(m.status, m.episodes[i]);
    assert EverReleased(m.episodes[i]);
  }

  // ---------------------------------------------------------------------------------------------
  // Every episode can be brought on air
  // ---------------------------------------------------------------------------------------------

  function After(m: Movie, calls: seq<Call>): Movie {
    if calls == [] then m else Step(After(m, calls[..|calls| - 1]), calls[|calls| - 1])
  }

  const CLEAN := Sheet(true, true, false)

  /** From a delivery to a passed check. */
  function Passage(i: nat, v: nat): seq<Call> {
    [SubmitCall(i, true), ReadyCall(i, v), ReviewCall(i, v, Accepted), LabelCall(i, v, true), ComplianceCall(i, v, CLEAN)]
  }

  /** One more call on the way: what it does to the one episode. */
  lemma OneMoreCall(m: Movie, i: nat, calls: seq<Call>, e: Episode, c: Call, next: Episode)
    requires i < |m.episodes| && After(m, calls) == Replaced(m, i, e)
    requires AboutMedia(c) && c.i == i && EpisodeCall(m.status, e, c) == Ok(next)
    ensures After(m, calls + [c]) == Replaced(m, i, next)
  {
    assert (calls + [c])[..|calls|] == calls;
    MediaCallMade(Replaced(m, i, e), c);
    assert m.episodes[i := e][i := next] == m.episodes[i := next];
  }

  lemma SubmitMore(m: Movie, i: nat, calls: seq<Call>, e: Episode, committed: bool, next: Episode)
    requires i < |m.episodes| && After(m, calls) == Replaced(m, i, e) && Submit(m.status, e, committed) == Ok(next)
    ensures After(m, calls + [SubmitCall(i, committed)]) == Replaced(m, i, next)
  {
    OneMoreCall(m, i, calls, e, SubmitCall(i, committed), next);
  }

  lemma ReadyMore(m: Movie, i: nat, calls: seq<Call>, e: Episode, v: nat, next: Episode)
    requires i < |m.episodes| && After(m, calls) == Replaced(m, i, e) && MediaReady(e, v) == next
    ensures After(m, calls + [ReadyCall(i, v)]) == Replaced(m, i, next)
  {
    OneMoreCall(m, i, calls, e, ReadyCall(i, v), next);
  }

  lemma ReviewMore(m: Movie, i: nat, calls: seq<Call>, e: Episode, v: nat, d: Decision, next: Episode)
    requires i < |m.episodes| && After(m, calls) == Replaced(m, i, e) && Review(m.status, e, v, d) == Ok(next)
    ensures After(m, calls + [ReviewCall(i, v, d)]) == Replaced(m, i, next)
  {
    OneMoreCall(m, i, calls, e, ReviewCall(i, v, d), next);
  }

  lemma LabelMore(m: Movie, i: nat, calls: seq<Call>, e: Episode, v: nat, nonBlank: bool, next: Episode)
    requires i < |m.episodes| && After(m, calls) == Replaced(m, i, e) && ApplyLabel(m.status, e, v, nonBlank) == Ok(next)
    ensures After(m, calls + [LabelCall(i, v, nonBlank)]) == Replaced(m, i, next)
  {
    OneMoreCall(m, i, calls, e, LabelCall(i, v, nonBlank), next);
  }

  lemma ComplianceMore(m: Movie, i: nat, calls: seq<Call>, e: Episode, v: nat, sheet: Sheet, next: Episode)
    requires i < |m.episodes| && After(m, calls) == Replaced(m, i, e) && Compliance(m.status, e, v, sheet) == Ok(next)
    ensures After(m, calls + [ComplianceCall(i, v, sheet)]) == Replaced(m, i, next)
  {
    OneMoreCall(m, i, calls, e, ComplianceCall(i, v, sheet), next);
  }

  /** The episode after a committed delivery that was approved, labelled and checked. */
  lemma PassageOf(project: MovieStatus, e: Episode) returns (e1: Episode, e2: Episode, e3: Episode, e4: Episode, e5: Episode)
    requires EpisodeOk(e) && InDelivery(project) && Submittable(e.status)
    ensures var v := |e.versions|;
            && Submit(project, e, true) == Ok(e1) && MediaReady(e1, v) == e2 && Review(project, e2, v, Accepted) == Ok(e3)
            && ApplyLabel(project, e3, v, true) == Ok(e4) && Compliance(project, e4, v, CLEAN) == Ok(e5)
    ensures EpisodeOk(e5) && e5.status.CompliancePassed? && KeepsReleases(e, e5) && e5.approved == Some(|e.versions|)
  {
    var v := |e.versions|;
    SubmitKeeps(project, e, true);
    SubmitVerdict(project, e, true);
    e1 := Submit(project, e, true).value;
    e2 := MediaReady(e1, v);
    ReadyKeeps(e1, v);
    ReadyVerdict(e1, v);
    ReviewVerdict(project, e2, v, Accepted);
    ReviewKeeps(project, e2, v, Accepted);
    e3 := Review(project, e2, v, Accepted).value;
    LabelVerdict(project, e3, v, true);
    LabelKeeps(project, e3, v, true);
    e4 := ApplyLabel(project, e3, v, true).value;
    LabelDecides(project, e3, v, true, CLEAN);
    ComplianceKeeps(project, e4, v, CLEAN);
    ComplianceVerdict(project, e4, v, CLEAN);
    e5 := Compliance(project, e4, v, CLEAN).value;
  }

  /** The five calls are all accepted and change nothing but the episode. */
  lemma PassageMade(m: Movie, i: nat) returns (checked: Episode)
    requires ProjectOk(m) && InDelivery(m.status) && i < |m.episodes| && Submittable(m.episodes[i].status)
    ensures After(m, Passage(i, |m.episodes[i].versions|)) == Replaced(m, i, checked)
    ensures EpisodeOk(checked) && checked.status.CompliancePassed? && KeepsReleases(m.episodes[i], checked)
    ensures checked.approved == Some(|m.episodes[i].versions|)
  {
    var e := m.episodes[i];
    var v := |e.versions|;
    assert EpisodeFits(m.status, e);
    var e1, e2, e3, e4, e5 := PassageOf(m.status, e);
    PassageCalled(m, i, e1, e2, e3, e4, e5);
    return e5;
  }

  lemma PassageCalled(m: Movie, i: nat, e1: Episode, e2: Episode, e3: Episode, e4: Episode, e5: Episode)
    requires i < |m.episodes|
    requires var v := |m.episodes[i].versions|;
             && Submit(m.status, m.episodes[i], true) == Ok(e1) && MediaReady(e1, v) == e2
             && Review(m.status, e2, v, Accepted) == Ok(e3)
             && ApplyLabel(m.status, e3, v, true) == Ok(e4) && Compliance(m.status, e4, v, CLEAN) == Ok(e5)
    ensures After(m, Passage(i, |m.episodes[i].versions|)) == Replaced(m, i, e5)
  {
    var v := |m.episodes[i].versions|;
    assert Replaced(m, i, m.episodes[i]) == m;
    var one := [] + [SubmitCall(i, true)];
    var two := one + [ReadyCall(i, v)];
    var three := two + [ReviewCall(i, v, Accepted)];
    var four := three + [LabelCall(i, v, true)];
    SubmitMore(m, i, [], m.episodes[i], true, e1);
    ReadyMore(m, i, one, e1, v, e2);
    ReviewMore(m, i, two, e2, v, Accepted, e3);
    LabelMore(m, i, three, e3, v, true, e4);
    ComplianceMore(m, i, four, e4, v, CLEAN, e5);
    PassageAppended(i, v);
  }

  lemma PassageAppended(i: nat, v: nat)
    ensures [] + [SubmitCall(i, true)] + [ReadyCall(i, v)] + [ReviewCall(i, v, Accepted)] + [LabelCall(i, v, true)]
            + [ComplianceCall(i, v, CLEAN)] == Passage(i, v)
  {
  }

  /**
   * No episode of a project in delivery is ever stuck: whatever happened to it before, as long as it waits
   * for its studio, seven calls that are all accepted bring it on air, at the price set and as the newest
   * version. The other episodes stay as they are, and the project is complete exactly when they are out.
   */
  lemma EveryEpisodeCanGoOut(m: Movie, i: nat, price: nat, now: Time)
    requires ProjectOk(m) && InDelivery(m.status) && m.synopsis && m.rated
    requires i < |m.episodes| && Submittable(m.episodes[i].status)
    ensures var passed := After(m, Passage(i, |m.episodes[i].versions|));
            var priced := Step(passed, PriceCall(i, price));
            var out := Step(priced, PublishCall(i, None, now));
            && ProjectOk(out) && |out.episodes| == |m.episodes|
            && out.episodes[i].status.Published? && out.episodes[i].price == Some(price)
            && out.episodes[i].approved == Some(|m.episodes[i].versions|)
            && (forall j :: 0 <= j < |m.episodes| && j != i ==> out.episodes[j] == m.episodes[j])
            && (out.status.Completed? <==> forall j :: 0 <= j < |m.episodes| && j != i ==> Out(m.episodes[j].status))
  {
    assert EpisodeFits(m.status, m.episodes[i]);
    var checked := PassageMade(m, i);
    ReplaceKeeps(m, i, checked);
    PricedAndPublished(m, i, checked, price, now);
  }

  lemma PricedAndPublished(m: Movie, i: nat, checked: Episode, price: nat, now: Time)
    requires i < |m.episodes| && ProjectOk(Replaced(m, i, checked)) && InDelivery(m.status) && m.synopsis && m.rated
    requires checked.status.CompliancePassed?
    ensures var priced := Step(Replaced(m, i, checked), PriceCall(i, price));
            var out := Step(priced, PublishCall(i, None, now));
            && ProjectOk(out) && |out.episodes| == |m.episodes|
            && out.episodes[i].status.Published? && out.episodes[i].price == Some(price)
            && out.episodes[i].approved == checked.approved
            && (forall j :: 0 <= j < |m.episodes| && j != i ==> out.episodes[j] == m.episodes[j])
            && (out.status.Completed? <==> forall j :: 0 <= j < |m.episodes| && j != i ==> Out(m.episodes[j].status))
  {
    var ready := Replaced(m, i, checked.(price := Some(price)));
    PriceStep(m, i, checked, price, ready);
    SetPriceKeeps(Replaced(m, i, checked), i, price);
    PublishNow(ready, i, now);
    PublishStep(ready, i, now, Publish(ready, i, None, now).value);
  }

  lemma PriceStep(m: Movie, i: nat, checked: Episode, price: nat, ready: Movie)
    requires i < |m.episodes| && !m.status.Cancelled? && ready == Replaced(m, i, checked.(price := Some(price)))
    ensures SetPrice(Replaced(m, i, checked), i, price) == Ok(ready)
    ensures Step(Replaced(m, i, checked), PriceCall(i, price)) == ready
  {
    assert m.episodes[i := checked][i := checked.(price := Some(price))] == m.episodes[i := checked.(price := Some(price))];
  }

  lemma PublishStep(m: Movie, i: nat, now: Time, out: Movie)
    requires Publish(m, i, None, now) == Ok(out)
    ensures Step(m, PublishCall(i, None, now)) == out
  {
  }

  /** An immediate release of a checked and priced episode. */
  lemma PublishNow(m: Movie, i: nat, now: Time)
    requires ProjectOk(m) && InDelivery(m.status) && m.synopsis && m.rated
    requires i < |m.episodes| && m.episodes[i].status.CompliancePassed? && m.episodes[i].price.Some?
    ensures Publish(m, i, None, now).Ok?
    ensures var out := Publish(m, i, None, now).value;
            && ProjectOk(out) && |out.episodes| == |m.episodes|
            && out.episodes[i].status.Published? && out.episodes[i].price == m.episodes[i].price
            && out.episodes[i].approved == m.episodes[i].approved
            && (forall j :: 0 <= j < |m.episodes| && j != i ==> out.episodes[j] == m.episodes[j])
            && (out.status.Completed? <==> forall j :: 0 <= j < |m.episodes| && j != i ==> Out(m.episodes[j].status))
  {
    PublishVerdict(m, i, None, now);
    PublishKeeps(m, i, None, now);
    PublishCompletes(m, i, now, Publish(m, i, None, now).value);
  }

  lemma PublishCompletes(m: Movie, i: nat, now: Time, out: Movie)
    requires InDelivery(m.status) && Publish(m, i, None, now) == Ok(out)
    ensures |out.episodes| == |m.episodes| && out.episodes[i].price == m.episodes[i].price
    ensures out.status.Completed? <==> forall j :: 0 <= j < |m.episodes| && j != i ==> Out(m.episodes[j].status)
  {
    var e := m.episodes[i];
    var ready := Replaced(m, i, WithPending(e, None));
    ReleaseVerdict(ready, i, FirstPending(e.publications), now);
    assert forall j :: 0 <= j < |m.episodes| && j != i ==> ready.episodes[j] == m.episodes[j];
  }
}
