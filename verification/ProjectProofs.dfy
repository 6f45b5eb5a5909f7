/** The project follows its episodes: what every call keeps, and what a whole history shows. */
module ProjectProofs {
  import opened Prelude
  import opened Delivery
  import opened DeliveryProofs

  // ---------------------------------------------------------------------------------------------
  // Invariants of the project
  // ---------------------------------------------------------------------------------------------

  predicate SomeNotOut(m: Movie) {
    exists i :: 0 <= i < |m.episodes| && !Out(m.episodes[i].status)
  }

  /** What an episode of a completed project may be. */
  predicate Settled(e: Episode) {
    (Out(e.status) || e.status.Scheduled? || e.status.CompliancePassed?) && !e.underRevision
  }

  predicate EpisodeFits(project: MovieStatus, e: Episode) {
    && EpisodeOk(e)
    && (project.Draft? || project.Assigned? ==> e.status.Planned?)
    && (project.Completed? ==> Settled(e))
    && (project.Cancelled? ==> !EverReleased(e) && !e.status.Scheduled?)
  }

  predicate ProjectOk(m: Movie) {
    && (forall i :: 0 <= i < |m.episodes| ==> EpisodeFits(m.status, m.episodes[i]))
    && (m.status.Assigned? ==> m.episodes != [])
    && (InDelivery(m.status) ==> SomeNotOut(m))
  }

  /** Replacing one episode keeps the project when the episode fits and does not go out. */
  lemma ReplaceKeeps(m: Movie, i: nat, e: Episode)
    requires ProjectOk(m) && i < |m.episodes| && EpisodeFits(m.status, e)
    requires Out(e.status) ==> Out(m.episodes[i].status)
    ensures ProjectOk(Replaced(m, i, e))
  {
    var next := Replaced(m, i, e);
    if InDelivery(m.status) {
      var j :| 0 <= j < |m.episodes| && !Out(m.episodes[j].status);
      assert !Out(next.episodes[j].status);
    }
  }

  // ---------------------------------------------------------------------------------------------
  // Calls about media
  // ---------------------------------------------------------------------------------------------

  lemma MediaCallKeeps(m: Movie, c: Call)
    requires ProjectOk(m) && AboutMedia(c) && Answer(m, c).Ok? && Timely(m, c)
    ensures ProjectOk(Step(m, c))
  {
    var e := m.episodes[c.i];
    assert EpisodeFits(m.status, e);
    var next := EpisodeCall(m.status, e, c).value;
    EpisodeCallKeeps(m.status, e, c);
    MediaCallFits(m.status, e, c);
    ReplaceKeeps(m, c.i, next);
  }

  lemma MediaCallMade(m: Movie, c: Call)
    requires AboutMedia(c) && c.i < |m.episodes|
    ensures var answer := EpisodeCall(m.status, m.episodes[c.i], c);
            Step(m, c) == if answer.Ok? then Replaced(m, c.i, answer.value) else m
  {
  }

  lemma FailedKeeps(m: Movie, i: nat, v: nat)
    requires ProjectOk(m) && i < |m.episodes|
    ensures ProjectOk(Replaced(m, i, MediaFailed(m.episodes[i], v)))
  {
    MediaCallKeeps(m, FailCall(i, v));
    MediaCallMade(m, FailCall(i, v));
  }

  /** What a call about media leaves alone, and when it may change the episode at all. */
  predicate LeavesReleases(project: MovieStatus, e: Episode, next: Episode) {
    && next.publications == e.publications && next.underRevision == e.underRevision && next.price == e.price
    && (Out(next.status) ==> Out(e.status))
    && (next.status.Scheduled? ==> e.status.Scheduled?)
    && (next != e ==> !project.Draft? && !project.Assigned? && !project.Completed?)
  }

  lemma OutcomeFits(project: MovieStatus, e: Episode, v: nat, to: Ingest)
    requires EpisodeFits(project, e)
    ensures LeavesReleases(project, e, MediaReady(e, v)) && LeavesReleases(project, e, MediaFailed(e, v))
    ensures !TooLate(e, v, to) ==> LeavesReleases(project, e, Advance(e, v, to))
  {
    if v < |e.versions| && !Done(e.versions[v].ingest) {
      ReadyIsNewest(e, v);
    }
  }

  lemma SubmitFits(project: MovieStatus, e: Episode, committed: bool, v: nat)
    requires EpisodeFits(project, e)
    ensures Submit(project, e, committed).Ok? ==> LeavesReleases(project, e, Submit(project, e, committed).value)
    ensures Retry(project, e, v).Ok? ==> LeavesReleases(project, e, Retry(project, e, v).value)
  {
  }

  lemma ReviewFits(project: MovieStatus, e: Episode, v: nat, decision: Decision, nonBlank: bool, sheet: Sheet)
    requires EpisodeFits(project, e)
    ensures Review(project, e, v, decision).Ok? ==> LeavesReleases(project, e, Review(project, e, v, decision).value)
    ensures ApplyLabel(project, e, v, nonBlank).Ok? ==> LeavesReleases(project, e, ApplyLabel(project, e, v, nonBlank).value)
    ensures Compliance(project, e, v, sheet).Ok? ==> LeavesReleases(project, e, Compliance(project, e, v, sheet).value)
  {
  }

  /** Outside delivery only a pending outcome can still change an episode, and never its publications. */
  lemma MediaCallFits(project: MovieStatus, e: Episode, c: Call)
    requires EpisodeFits(project, e) && AboutMedia(c) && EpisodeCall(project, e, c).Ok?
    requires c.AdvanceCall? ==> !TooLate(e, c.v, c.to)
    ensures LeavesReleases(project, e, EpisodeCall(project, e, c).value)
  {
    match c
    case ReadyCall(_, v) => OutcomeFits(project, e, v, Queued);
    case FailCall(_, v) => OutcomeFits(project, e, v, Queued);
    case AdvanceCall(_, v, to) => OutcomeFits(project, e, v, to);
    case SubmitCall(_, committed) => SubmitFits(project, e, committed, 0);
    case RetryCall(_, v) => SubmitFits(project, e, false, v);
    case ReviewCall(_, v, decision) => ReviewFits(project, e, v, decision, false, Sheet(false, false, false));
    case LabelCall(_, v, nonBlank) => ReviewFits(project, e, v, Accepted, nonBlank, Sheet(false, false, false));
    case ComplianceCall(_, v, sheet) => ReviewFits(project, e, v, Accepted, false, sheet);
  }

  // ---------------------------------------------------------------------------------------------
  // Releases
  // ---------------------------------------------------------------------------------------------

  /** An episode about to go out: checked, priced, and with one publication not yet taken down. */
  predicate ReadyToRelease(e: Episode, p: nat) {
    && VersionsOk(e.versions) && ApprovedOk(e) && StatusOk(e)
    && Gated(e) && e.price.Some? && Releasable(e.status)
    && p < |e.publications| && Pending(e.publications[p]) && e.approved == Some(e.publications[p].version)
    && forall q :: 0 <= q < |e.publications| && q != p ==> e.publications[q].takenDownAt.Some?
  }

  lemma ReleasedOk(e: Episode, p: nat, now: Time)
    requires ReadyToRelease(e, p)
    ensures EpisodeOk(e.(publications := e.publications[p := e.publications[p].(publishedAt := Some(now))],
                         status := Published, underRevision := false))
  {
    var out := e.(publications := e.publications[p := e.publications[p].(publishedAt := Some(now))],
                  status := Published, underRevision := false);
    assert Live(out.publications[p]);
    forall q | 0 <= q < |out.publications| ensures !Pending(out.publications[q]) && (Live(out.publications[q]) ==> q == p) {}
  }

  /** A pending publication belongs to a SCHEDULED episode, so its release needs no second look at the gate. */
  lemma PendingIsReady(e: Episode, p: nat)
    requires EpisodeOk(e) && p < |e.publications| && Pending(e.publications[p])
    ensures e.status.Scheduled? && ReadyToRelease(e, p)
  {
    assert e.status.Scheduled?;
    forall q | 0 <= q < |e.publications| && q != p ensures e.publications[q].takenDownAt.Some? {
      assert !Live(e.publications[q]);
    }
  }

  lemma CompleteKeeps(m: Movie, i: nat)
    requires i < |m.episodes| && Releasing(m.status) && Out(m.episodes[i].status) && !m.episodes[i].underRevision
    requires forall j :: 0 <= j < |m.episodes| ==> EpisodeFits(m.status, m.episodes[j])
    ensures ProjectOk(CompleteIfAllOut(m))
  {
    var next := CompleteIfAllOut(m);
    if next.status != m.status {
      forall j | 0 <= j < |m.episodes| ensures EpisodeFits(Completed, m.episodes[j]) {
        assert EpisodeFits(m.status, m.episodes[j]);
      }
    }
  }

  lemma ReleaseKeeps(m: Movie, i: nat, p: nat, now: Time)
    requires i < |m.episodes| && p < |m.episodes[i].publications| && ReadyToRelease(m.episodes[i], p)
    requires forall j :: 0 <= j < |m.episodes| && j != i ==> EpisodeFits(m.status, m.episodes[j])
    requires Releasing(m.status)
    ensures Release(m, i, p, now).Ok? && ProjectOk(Release(m, i, p, now).value)
    ensures Release(m, i, p, now).value.episodes[i].status.Published?
  {
    var e := m.episodes[i];
    var out := e.(publications := e.publications[p := e.publications[p].(publishedAt := Some(now))],
                  status := Published, underRevision := false);
    ReleasedOk(e, p, now);
    CompleteKeeps(Replaced(m, i, out), i);
  }

  /** A pending publication exists only in a project that still releases, so the sweep is never refused. */
  lemma PendingIsReleasing(m: Movie, i: nat, p: nat)
    requires ProjectOk(m) && i < |m.episodes| && p < |m.episodes[i].publications| && Pending(m.episodes[i].publications[p])
    ensures Releasing(m.status) && ReadyToRelease(m.episodes[i], p)
  {
    assert EpisodeFits(m.status, m.episodes[i]);
    PendingIsReady(m.episodes[i], p);
  }

  lemma SweepReleases(m: Movie, i: nat, p: nat, now: Time)
    requires ProjectOk(m) && i < |m.episodes| && p < |m.episodes[i].publications| && Pending(m.episodes[i].publications[p])
    ensures Release(m, i, p, now).Ok? && ProjectOk(Release(m, i, p, now).value)
    ensures Release(m, i, p, now).value.episodes[i].status.Published? && Gated(m.episodes[i]) && m.episodes[i].price.Some?
  {
    PendingIsReleasing(m, i, p);
    ReleaseKeeps(m, i, p, now);
  }

  lemma WithPendingReady(e: Episode, scheduledAt: Option<Time>)
    requires EpisodeOk(e) && Releasable(e.status) && e.price.Some?
    ensures ReadyToRelease(WithPending(e, scheduledAt), FirstPending(e.publications))
    ensures EpisodeOk(WithPending(e, scheduledAt).(status := Scheduled))
  {
    var p := FirstPending(e.publications);
    var r := WithPending(e, scheduledAt);
    forall q | 0 <= q < |e.publications| && q != p ensures e.publications[q].takenDownAt.Some? {
      assert !Live(e.publications[q]);
      if p == |e.publications| || q < p { assert !Pending(e.publications[q]); }
    }
    assert Pending(r.publications[p]);
    forall q | 0 <= q < |r.publications| ensures !Live(r.publications[q]) && (Pending(r.publications[q]) ==> q == p) {}
  }

  /** For an episode that may be released only the price and the two facts about the movie can be missing. */
  lemma MissingExactly(m: Movie, e: Episode)
    requires EpisodeOk(e) && Releasable(e.status)
    ensures MissingForRelease(m, e) == [] <==> e.price.Some? && m.synopsis && m.rated
  {
    FourPasses(e.versions[e.approved.value].checks);
  }

  lemma FourPasses(checks: map<CheckType, CheckResult>)
    ensures Passes(checks) >= 4 <==> PassedAll(checks)
  {
    var passed := set t | t in checks && checks[t].Pass?;
    var all := {LabelPresence, DecreeNotice, ContentSafety, RealPerson};
    assert forall t: CheckType :: t in all by {
      forall t: CheckType ensures t in all {
        match t case LabelPresence => case DecreeNotice => case ContentSafety => case RealPerson =>
      }
    }
    assert |all| == 4;
    assert passed <= all;
    if |passed| >= 4 {
      SubsetOfSameSize(passed, all);
      forall t: CheckType ensures t in checks && checks[t].Pass? { assert t in passed; }
    }
    if PassedAll(checks) {
      assert passed == all;
    }
  }

  lemma SubsetOfSameSize(a: set<CheckType>, b: set<CheckType>)
    requires a <= b && |a| >= |b|
    ensures a == b
  {
    assert b == a + (b - a) && |b| == |a| + |b - a|;
  }

  lemma PublishKeeps(m: Movie, i: nat, scheduledAt: Option<Time>, now: Time)
    requires ProjectOk(m) && Publish(m, i, scheduledAt, now).Ok?
    ensures ProjectOk(Publish(m, i, scheduledAt, now).value)
  {
    var e := m.episodes[i];
    assert EpisodeFits(m.status, e);
    MissingExactly(m, e);
    WithPendingReady(e, scheduledAt);
    var ready := Replaced(m, i, WithPending(e, scheduledAt));
    if scheduledAt.Some? {
      var next := WithPending(e, scheduledAt).(status := Scheduled);
      ReplaceKeeps(m, i, next);
      assert Publish(m, i, scheduledAt, now).value == Replaced(m, i, next);
    } else {
      ReleaseKeeps(ready, i, FirstPending(e.publications), now);
    }
  }

  // ---------------------------------------------------------------------------------------------
  // Take-downs
  // ---------------------------------------------------------------------------------------------

  function Down(e: Episode, p: nat, now: Time): Episode
    requires p < |e.publications|
  {
    e.(publications := e.publications[p := e.publications[p].(takenDownAt := Some(now))])
  }

  lemma DownLeavesNothing(e: Episode, p: nat, now: Time)
    requires EpisodeOk(e) && p < |e.publications| && e.publications[p].takenDownAt.None?
    ensures forall q :: 0 <= q < |Down(e, p, now).publications| ==> Down(e, p, now).publications[q].takenDownAt.Some?
    ensures e.approved == Some(e.publications[p].version)
    ensures e.status == if e.publications[p].publishedAt.Some? then Published else Scheduled
  {
    assert Pending(e.publications[p]) || Live(e.publications[p]);
    forall q | 0 <= q < |e.publications| && q != p ensures e.publications[q].takenDownAt.Some? {
      assert !Pending(e.publications[q]) && !Live(e.publications[q]);
    }
  }

  lemma UnpublishKeeps(m: Movie, i: nat, p: nat, mode: Option<Mode>, now: Time)
    requires ProjectOk(m) && Unpublish(m, i, p, mode, now).Ok?
    ensures ProjectOk(Unpublish(m, i, p, mode, now).value)
  {
    var e := m.episodes[i];
    var down := Down(e, p, now);
    assert EpisodeFits(m.status, e);
    DownLeavesNothing(e, p, now);
    var live := e.publications[p].publishedAt.Some?;
    if live && mode.value.Revision? {
      SendBackKeeps(m, i, down, e.publications[p].version);
    } else {
      var next := down.(status := if live then Unpublished else CompliancePassed);
      ReplaceKeeps(m, i, next);
      assert Unpublish(m, i, p, mode, now).value == Replaced(m, i, next);
    }
  }

  lemma SendBackKeeps(m: Movie, i: nat, e: Episode, v: nat)
    requires ProjectOk(m) && !m.status.Draft? && !m.status.Assigned? && !m.status.Cancelled?
    requires i < |m.episodes| && VersionsOk(e.versions) && ApprovedOk(e) && !InProgress(e.versions)
    requires e.status.Published? && e.approved == Some(v)
    requires forall p :: 0 <= p < |e.publications| ==> e.publications[p].takenDownAt.Some?
    ensures SendBack(m, i, e, v).Ok? && ProjectOk(SendBack(m, i, e, v).value)
    ensures SendBack(m, i, e, v).value.episodes[i].status.ChangesRequested? && SendBack(m, i, e, v).value.episodes[i].underRevision
    ensures SendBack(m, i, e, v).value.status == if m.status.Completed? then UnderRevision else m.status
  {
    var back := RequestChanges(e, v).value.(underRevision := true);
    RequestChangesKeeps(e, v);
    var next := SendBack(m, i, e, v).value;
    assert next.episodes == m.episodes[i := back];
    assert !Out(next.episodes[i].status);
    forall j | 0 <= j < |next.episodes| ensures EpisodeFits(next.status, next.episodes[j]) {
      assert j != i ==> EpisodeFits(m.status, m.episodes[j]);
    }
  }

  /**
   * When a release is accepted and what it does: the checks of the gate come down to status, date, price
   * and the two facts about the movie, and only this episode changes.
   */
  lemma PublishVerdict(m: Movie, i: nat, scheduledAt: Option<Time>, now: Time)
    requires ProjectOk(m) && i < |m.episodes|
    ensures Publish(m, i, scheduledAt, now).Ok?
            <==> && (m.status.InProduction? || m.status.UnderRevision? || m.status.Completed?)
                 && (m.episodes[i].status.CompliancePassed? || m.episodes[i].status.Scheduled? || m.episodes[i].status.Unpublished?)
                 && (scheduledAt.Some? ==> scheduledAt.value > now)
                 && m.episodes[i].price.Some? && m.synopsis && m.rated
    ensures Publish(m, i, scheduledAt, now).Ok? ==>
              var next := Publish(m, i, scheduledAt, now).value;
              && |next.episodes| == |m.episodes| && (forall j :: 0 <= j < |m.episodes| && j != i ==> next.episodes[j] == m.episodes[j])
              && next.episodes[i].status == (if scheduledAt.Some? then Scheduled else Published)
              && next.episodes[i].approved == m.episodes[i].approved
              && exists p :: 0 <= p < |next.episodes[i].publications|
                             && next.episodes[i].publications[p].scheduledAt == scheduledAt
                             && next.episodes[i].publications[p].publishedAt == (if scheduledAt.Some? then None else Some(now))
                             && next.episodes[i].publications[p].takenDownAt.None?
  {
    var e := m.episodes[i];
    assert EpisodeFits(m.status, e);
    if Releasable(e.status) {
      MissingExactly(m, e);
      if e.price.Some? {
        WithPendingReady(e, scheduledAt);
        var p := FirstPending(e.publications);
        assert WithPending(e, scheduledAt).publications[p].scheduledAt == scheduledAt;
        if Publish(m, i, scheduledAt, now).Ok? {
          var next := Publish(m, i, scheduledAt, now).value;
          assert next.episodes[i].publications[p].scheduledAt == scheduledAt;
        }
      }
    }
  }

  /**
   * A take-down is refused only for a release already down or, on air, without a mode: the release and
   * the episode cannot disagree, and sending the version back cannot fail.
   */
  lemma UnpublishVerdict(m: Movie, i: nat, p: nat, mode: Option<Mode>, now: Time)
    requires ProjectOk(m) && i < |m.episodes| && p < |m.episodes[i].publications|
    ensures var r := m.episodes[i].publications[p];
            Unpublish(m, i, p, mode, now).Ok? <==> r.takenDownAt.None? && (r.publishedAt.Some? ==> mode.Some?)
    ensures Unpublish(m, i, p, mode, now).Ok? ==>
              var next := Unpublish(m, i, p, mode, now).value;
              && |next.episodes| == |m.episodes| && (forall j :: 0 <= j < |m.episodes| && j != i ==> next.episodes[j] == m.episodes[j])
              && next.episodes[i].status == (if m.episodes[i].publications[p].publishedAt.None? then CompliancePassed
                                             else if mode == Some(Revision) then ChangesRequested else Unpublished)
              && next.episodes[i].approved == (if next.episodes[i].status.ChangesRequested? then None else m.episodes[i].approved)
              && next.status == (if next.episodes[i].status.ChangesRequested? && m.status.Completed? then UnderRevision else m.status)
              && (next.episodes[i].underRevision <==> m.episodes[i].underRevision || next.episodes[i].status.ChangesRequested?)
              && (OpenProject(next.status) ==> OpenProject(m.status))
              && forall q :: 0 <= q < |next.episodes[i].publications| ==> next.episodes[i].publications[q].takenDownAt.Some?
  {
    var e := m.episodes[i];
    assert EpisodeFits(m.status, e);
    if e.publications[p].takenDownAt.None? {
      DownLeavesNothing(e, p, now);
    }
  }

  // ---------------------------------------------------------------------------------------------
  // The project itself
  // ---------------------------------------------------------------------------------------------

  lemma HandOffKeeps(m: Movie)
    requires ProjectOk(m) && HandOff(m, true).Ok?
    ensures ProjectOk(HandOff(m, true).value)
  {
    var next := HandOff(m, true).value;
    forall i | 0 <= i < |next.episodes| ensures EpisodeFits(InProduction, next.episodes[i]) {
      assert EpisodeFits(m.status, m.episodes[i]);
    }
    assert !Out(next.episodes[0].status);
  }

  lemma AddEpisodeKeeps(m: Movie)
    requires ProjectOk(m) && AddEpisode(m).Ok?
    ensures ProjectOk(AddEpisode(m).value)
  {
    var next := AddEpisode(m).value;
    assert next.episodes[..|m.episodes|] == m.episodes;
    assert !Out(next.episodes[|m.episodes|].status);
    assert EpisodeFits(next.status, next.episodes[|m.episodes|]);
    forall i | 0 <= i < |m.episodes| ensures EpisodeFits(next.status, next.episodes[i]) {
      assert EpisodeFits(m.status, m.episodes[i]);
    }
  }

  lemma WithdrawnOk(e: Episode, now: Time)
    requires EpisodeOk(e) && !EverReleased(e)
    ensures EpisodeFits(Cancelled, Withdrawn(e, now))
  {
    var w := Withdrawn(e, now);
    forall p | 0 <= p < |e.publications| ensures !Live(e.publications[p]) {
      assert e.publications[p].publishedAt.None?;
    }
    forall p | 0 <= p < |w.publications| ensures w.publications[p].takenDownAt.Some? && w.publications[p].publishedAt.None? {
      assert e.publications[p].publishedAt.None?;
    }
  }

  lemma CancelKeeps(m: Movie, now: Time)
    requires ProjectOk(m) && Cancel(m, now).Ok?
    ensures ProjectOk(Cancel(m, now).value)
  {
    var next := Cancel(m, now).value;
    forall i | 0 <= i < |next.episodes| ensures EpisodeFits(Cancelled, next.episodes[i]) {
      assert EpisodeFits(m.status, m.episodes[i]) && !EverReleased(m.episodes[i]);
      WithdrawnOk(m.episodes[i], now);
    }
  }

  lemma SetPriceKeeps(m: Movie, i: nat, price: nat)
    requires ProjectOk(m) && SetPrice(m, i, price).Ok?
    ensures ProjectOk(SetPrice(m, i, price).value)
  {
    assert EpisodeFits(m.status, m.episodes[i]);
    ReplaceKeeps(m, i, m.episodes[i].(price := Some(price)));
  }

  // ---------------------------------------------------------------------------------------------
  // Every call, every history
  // ---------------------------------------------------------------------------------------------

  /** Every timely call keeps every invariant of the project and of its episodes. */
  lemma StepKeeps(m: Movie, c: Call)
    requires ProjectOk(m) && Timely(m, c)
    ensures ProjectOk(Step(m, c))
  {
    if Answer(m, c).Ok? {
      if AboutMedia(c) {
        MediaCallKeeps(m, c);
      } else {
        match c
        case AssignCall(_) =>
          forall i | 0 <= i < |m.episodes| ensures EpisodeFits(Step(m, c).status, m.episodes[i]) {
            assert EpisodeFits(m.status, m.episodes[i]);
          }
        case HandOffCall(_) => HandOffKeeps(m);
        case AddEpisodeCall => AddEpisodeKeeps(m);
        case DescribeCall(_, _) =>
        case CancelCall(at) => CancelKeeps(m, at);
        case PriceCall(i, price) => SetPriceKeeps(m, i, price);
        case PublishCall(i, scheduledAt, at) => PublishKeeps(m, i, scheduledAt, at);
        case UnpublishCall(i, p, mode, at) => UnpublishKeeps(m, i, p, mode, at);
        case ReleaseCall(i, p, at) => SweepReleases(m, i, p, at);
      }
    }
  }

  /** Timeliness is exactly what the invariants need: a call keeps them if and only if it is timely. */
  lemma StepKeepsExactly(m: Movie, c: Call)
    requires ProjectOk(m)
    ensures ProjectOk(Step(m, c)) <==> Timely(m, c)
  {
    if Timely(m, c) {
      StepKeeps(m, c);
    } else {
      assert EpisodeFits(m.status, m.episodes[c.i]);
      AdvanceKeepsExactly(m.episodes[c.i], c.v, c.to);
      assert Step(m, c).episodes[c.i] == Advance(m.episodes[c.i], c.v, c.to);
      assert !EpisodeFits(m.status, Step(m, c).episodes[c.i]);
    }
  }

  const NEW_PROJECT := Movie(Draft, false, false, [])

  /** A history of calls in which the attempts of one delivery run one at a time. */
  predicate History(movies: seq<Movie>, calls: seq<Call>) {
    && |movies| == |calls| + 1 && movies[0] == NEW_PROJECT
    && forall k :: 0 <= k < |calls| ==> Timely(movies[k], calls[k]) && movies[k + 1] == Step(movies[k], calls[k])
  }

  lemma {:induction false} EveryHistoryIsOk(movies: seq<Movie>, calls: seq<Call>, n: nat)
    requires History(movies, calls) && n <= |calls|
    ensures ProjectOk(movies[n])
  {
    if n > 0 {
      EveryHistoryIsOk(movies, calls, n - 1);
      StepKeeps(movies[n - 1], calls[n - 1]);
    }
  }
}
