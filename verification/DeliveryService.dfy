/**
 * The services of one project, writing one row after another. A call that fails half
 * way puts the rows back, as its transaction does. Every method answers as Delivery describes.
 */
module DeliveryService {
  import opened Prelude
  import opened Delivery
  import opened DeliveryProofs
  import opened ProjectProofs

  /** The rows and the answer after a call are those of the model; None means the call went through. */
  predicate Answered(was: Movie, c: Call, next: Movie, refused: Option<Refusal>) {
    && next == Step(was, c)
    && match Answer(was, c) case Ok(_) => refused.None? case Err(r) => refused == Some(r)
  }

  predicate DuePublication(publication: Publication, now: Time) {
    Pending(publication) && publication.scheduledAt.Some? && publication.scheduledAt.value <= now
  }

  /** A publication by its episode and its place among the releases of that episode. */
  datatype Spot = Spot(i: nat, p: nat)

  predicate IsDue(m: Movie, d: Spot, now: Time) {
    d.i < |m.episodes| && d.p < |m.episodes[d.i].publications| && DuePublication(m.episodes[d.i].publications[d.p], now)
  }

  function ReleasedBy(e: Episode, p: nat, now: Time): Episode {
    if p >= |e.publications| then e
    else e.(publications := e.publications[p := e.publications[p].(publishedAt := Some(now))],
            status := Published, underRevision := false)
  }

  /** One episode has at most one due release. */
  lemma DueApart(m: Movie, d: Spot, f: Spot, now: Time)
    requires ProjectOk(m) && IsDue(m, d, now) && IsDue(m, f, now) && d.i == f.i
    ensures d == f
  {
    assert EpisodeFits(m.status, m.episodes[d.i]);
  }

  /** After its one pending release went out nothing of an episode is due. */
  lemma NothingLeftDue(was: Movie, m: Movie, d: Spot, f: Spot, now: Time)
    requires ProjectOk(was) && |m.episodes| == |was.episodes| && IsDue(was, d, now) && f.i == d.i
    requires m.episodes[d.i] == ReleasedBy(was.episodes[d.i], d.p, now)
    ensures !IsDue(m, f, now)
  {
    assert EpisodeFits(was.status, was.episodes[d.i]);
    if f.p != d.p && f.p < |was.episodes[d.i].publications| {
      assert Pending(was.episodes[d.i].publications[d.p]) && !Pending(was.episodes[d.i].publications[f.p]);
    }
  }

  function DueIn(publications: seq<Publication>, now: Time): nat {
    if publications == [] then 0
    else DueIn(publications[..|publications| - 1], now) + if DuePublication(publications[|publications| - 1], now) then 1 else 0
  }

  /** How many releases of these episodes are due. */
  function DueCount(episodes: seq<Episode>, now: Time): nat {
    if episodes == [] then 0
    else DueCount(episodes[..|episodes| - 1], now) + DueIn(episodes[|episodes| - 1].publications, now)
  }

  predicate IsPlace(m: Movie, i: nat, p: nat) {
    i <= |m.episodes| && if i < |m.episodes| then p <= |m.episodes[i].publications| else p == 0
  }

  /** How many of the releases before the p-th of episode i are due. */
  function DueBefore(m: Movie, i: nat, p: nat, now: Time): nat
    requires IsPlace(m, i, p)
  {
    DueCount(m.episodes[..i], now) + if i < |m.episodes| then DueIn(m.episodes[i].publications[..p], now) else 0
  }

  /** `due` lists exactly these, each once. */
  ghost predicate SpotsUpTo(m: Movie, due: seq<Spot>, i: nat, p: nat, now: Time) {
    && (forall j, k :: 0 <= j < k < |due| ==> due[j] != due[k])
    && forall d: Spot :: d in due <==> (d.i < i || (d.i == i && d.p < p)) && IsDue(m, d, now)
  }

  ghost predicate ListedUpTo(m: Movie, due: seq<Spot>, i: nat, p: nat, now: Time) {
    SpotsUpTo(m, due, i, p, now) && IsPlace(m, i, p) && |due| == DueBefore(m, i, p, now)
  }

  lemma NothingListed(m: Movie, now: Time)
    ensures ListedUpTo(m, [], 0, 0, now)
  {
  }

  lemma SpotsOn(m: Movie, due: seq<Spot>, i: nat, p: nat, now: Time)
    requires SpotsUpTo(m, due, i, p, now)
    ensures SpotsUpTo(m, if IsDue(m, Spot(i, p), now) then due + [Spot(i, p)] else due, i, p + 1, now)
  {
    assert Spot(i, p) !in due;
    forall d: Spot ensures d in due + [Spot(i, p)] <==> d in due || d == Spot(i, p) {
    }
  }

  lemma OneMoreBefore(m: Movie, i: nat, p: nat, now: Time)
    requires i < |m.episodes| && p < |m.episodes[i].publications|
    ensures DueBefore(m, i, p + 1, now) == DueBefore(m, i, p, now) + if IsDue(m, Spot(i, p), now) then 1 else 0
  {
    assert m.episodes[i].publications[..p + 1][..p] == m.episodes[i].publications[..p];
  }

  lemma ListedOn(m: Movie, due: seq<Spot>, i: nat, p: nat, now: Time, next: seq<Spot>)
    requires ListedUpTo(m, due, i, p, now) && i < |m.episodes| && p < |m.episodes[i].publications|
    requires next == if IsDue(m, Spot(i, p), now) then due + [Spot(i, p)] else due
    ensures ListedUpTo(m, next, i, p + 1, now)
  {
    SpotsOn(m, due, i, p, now);
    OneMoreBefore(m, i, p, now);
  }

  lemma EpisodeListed(m: Movie, due: seq<Spot>, i: nat, now: Time)
    requires i < |m.episodes| && ListedUpTo(m, due, i, |m.episodes[i].publications|, now)
    ensures ListedUpTo(m, due, i + 1, 0, now)
  {
    assert m.episodes[..i + 1][..i] == m.episodes[..i];
    assert m.episodes[i].publications[..|m.episodes[i].publications|] == m.episodes[i].publications;
  }

  lemma AllListed(m: Movie, due: seq<Spot>, now: Time)
    requires ListedUpTo(m, due, |m.episodes|, 0, now)
    ensures forall k :: 0 <= k < |due| ==> IsDue(m, due[k], now)
    ensures forall j, k :: 0 <= j < k < |due| ==> due[j] != due[k]
    ensures forall d: Spot :: IsDue(m, d, now) ==> d in due
    ensures |due| == DueCount(m.episodes, now)
  {
    assert m.episodes[..|m.episodes|] == m.episodes;
    forall k | 0 <= k < |due| ensures IsDue(m, due[k], now) {
      assert due[k] in due;
    }
  }

  /** The first k due releases are out, every other episode is untouched. */
  predicate SweptUpTo(was: Movie, episodes: seq<Episode>, due: seq<Spot>, k: nat, now: Time)
    requires k <= |due|
  {
    && |episodes| == |was.episodes|
    && (forall j :: k <= j < |due| ==> IsDue(was, due[j], now) && episodes[due[j].i] == was.episodes[due[j].i])
    && (forall j :: 0 <= j < k ==> IsDue(was, due[j], now) && episodes[due[j].i] == ReleasedBy(was.episodes[due[j].i], due[j].p, now))
    && (forall i :: 0 <= i < |episodes| && episodes[i] != was.episodes[i] ==> exists j :: 0 <= j < k && due[j].i == i)
  }

  lemma SweepGoesOn(was: Movie, episodes: seq<Episode>, due: seq<Spot>, k: nat, now: Time)
    requires ProjectOk(was) && k < |due|
    requires forall j, l :: 0 <= j < l < |due| ==> due[j] != due[l]
    requires SweptUpTo(was, episodes, due, k, now)
    ensures IsDue(was, due[k], now) && episodes[due[k].i] == was.episodes[due[k].i]
    ensures SweptUpTo(was, episodes[due[k].i := ReleasedBy(episodes[due[k].i], due[k].p, now)], due, k + 1, now)
  {
    forall j | 0 <= j < |due| && due[j].i == due[k].i ensures j == k {
      DueApart(was, due[j], due[k], now);
    }
  }

  class Project {
    var status: MovieStatus
    var synopsis: bool
    var rated: bool
    var episodes: seq<Episode>

    ghost function State(): Movie
      reads this
    {
      Movie(status, synopsis, rated, episodes)
    }

    constructor ()
      ensures State() == NEW_PROJECT && ProjectOk(State())
    {
      status, synopsis, rated, episodes := Draft, false, false, [];
    }

    // -------------------------------------------------------------------------------------------
    // Deliveries and their outcome
    // -------------------------------------------------------------------------------------------

    /** Guarded write of PROCESSING; false when the status no longer accepts a delivery. */
    method LockEpisode(i: nat) returns (locked: bool)
      requires i < |episodes|
      modifies this`episodes
      ensures locked == Submittable(old(episodes)[i].status)
      ensures episodes == if locked then old(episodes)[i := old(episodes)[i].(status := Processing)] else old(episodes)
    {
      locked := Submittable(episodes[i].status);
      if locked {
        episodes := episodes[i := episodes[i].(status := Processing)];
      }
    }

    method SubmitVersion(i: nat, committed: bool) returns (refused: Option<Refusal>)
      modifies this`episodes
      ensures Answered(old(State()), SubmitCall(i, committed), State(), refused)
    {
      if i >= |episodes| { return Some(NotFound); }
      if !InDelivery(status) { return Some(WrongProject); }
      var locked := LockEpisode(i);
      if !locked { return Some(WrongEpisode); }
      var e := episodes[i];
      episodes := episodes[i := e.(versions := e.versions + [Version(Queued, [], None, map[], committed)])];
      return None;
    }

    method RetryVersion(i: nat, v: nat) returns (refused: Option<Refusal>)
      modifies this`episodes
      ensures Answered(old(State()), RetryCall(i, v), State(), refused)
    {
      if i >= |episodes| || v >= |episodes[i].versions| { return Some(NotFound); }
      if !episodes[i].versions[v].ingest.Failed? { return Some(NotFailed); }
      if !InDelivery(status) { return Some(WrongProject); }
      if !Submittable(episodes[i].status) { return Some(WrongEpisode); }
      if v != |episodes[i].versions| - 1 { return Some(NewerVersion); }
      var _ := LockEpisode(i);
      var e := episodes[i];
      episodes := episodes[i := e.(versions := e.versions[v := e.versions[v].(ingest := Queued)])];
      return None;
    }

    /** A pipeline step starts: its status is written without looking at what the version has. */
    method RecordStep(i: nat, v: nat, to: Ingest)
      requires i < |episodes| && v < |episodes[i].versions| && !Done(to)
      modifies this`episodes
      ensures Answered(old(State()), AdvanceCall(i, v, to), State(), None)
    {
      var e := episodes[i];
      episodes := episodes[i := e.(versions := e.versions[v := e.versions[v].(ingest := to)])];
    }

    /** The delivery ended ready: earlier READY versions are superseded and the episode goes to review. */
    method MediaIsReady(i: nat, v: nat)
      requires i < |episodes| && v < |episodes[i].versions|
      modifies this`episodes
      ensures Answered(old(State()), ReadyCall(i, v), State(), None)
    {
      var e := episodes[i];
      if |e.versions| - 1 > v {
        // Not the last version: superseded unless it is done.
        if !Done(e.versions[v].ingest) {
          episodes := episodes[i := SetIngest(e, v, Superseded)];
        }
        return;
      }
      // A done version keeps its ingest status.
      if Done(e.versions[v].ingest) { return; }
      var versions := e.versions[v := e.versions[v].(ingest := Ready)];
      ghost var ready := versions;
      for k := 0 to v
        invariant |versions| == |ready|
        invariant forall j :: 0 <= j < |ready| ==> versions[j] == if j < k then SupersedeReady(ready, v)[j] else ready[j]
      {
        if versions[k].ingest.Ready? {
          versions := versions[k := versions[k].(ingest := Superseded)];
        }
      }
      assert versions == SupersedeReady(ready, v);
      episodes := episodes[i := e.(versions := versions)];
      if episodes[i].status.Processing? {
        episodes := episodes[i := episodes[i].(status := InReview)];
      }
    }

    /** StatusWithoutPending of the rows, searched from the newest version down. */
    method FindStatusWithoutPending(i: nat) returns (s: EpisodeStatus)
      requires i < |episodes|
      ensures s == StatusWithoutPending(episodes[i].versions)
    {
      var versions := episodes[i].versions;
      var k := |versions|;
      while k > 0 && !versions[k - 1].ingest.Ready?
        invariant 0 <= k <= |versions|
        invariant LastReady(versions) == LastReady(versions[..k])
      {
        k := k - 1;
        assert versions[..k + 1][..k] == versions[..k];
      }
      if k == 0 { return AwaitingMedia; }
      var reviews := versions[k - 1].reviews;
      return if reviews != [] && reviews[|reviews| - 1].SentBack? then ChangesRequested else InReview;
    }

    /** MediaFailed on the rows: the version first, then the episode. */
    method MediaHasFailed(i: nat, v: nat)
      requires i < |episodes|
      modifies this`episodes
      ensures episodes == old(episodes)[i := MediaFailed(old(episodes)[i], v)]
    {
      var e := episodes[i];
      if v >= |e.versions| || Done(e.versions[v].ingest) { return; }
      episodes := episodes[i := SetIngest(e, v, Failed)];
      // An older version leaves the episode status alone.
      if v == |e.versions| - 1 && e.status.Processing? {
        var back := FindStatusWithoutPending(i);
        episodes := episodes[i := episodes[i].(status := back)];
      }
    }

    // -------------------------------------------------------------------------------------------
    // Review, label, compliance
    // -------------------------------------------------------------------------------------------

    method SendVersionBack(i: nat, v: nat) returns (done: bool)
      requires i < |episodes| && v < |episodes[i].versions|
      modifies this`episodes
      ensures done == RequestChanges(old(episodes)[i], v).Ok?
      ensures episodes == if done then old(episodes)[i := RequestChanges(old(episodes)[i], v).value] else old(episodes)
    {
      var e := episodes[i];
      if !(e.status.InReview? || ((Reviewed(e.status) || e.status.Published?) && e.approved == Some(v))) {
        return false;
      }
      episodes := episodes[i := e.(status := ChangesRequested, approved := None)];
      episodes := episodes[i := AddReview(episodes[i], v, SentBack)];
      return true;
    }

    method ReviewVersion(i: nat, v: nat, decision: Decision) returns (refused: Option<Refusal>)
      modifies this`episodes
      ensures Answered(old(State()), ReviewCall(i, v, decision), State(), refused)
    {
      if i >= |episodes| || v >= |episodes[i].versions| { return Some(NotFound); }
      if !InDelivery(status) { return Some(WrongProject); }
      var e := episodes[i];
      if !(e.status.InReview? || (decision.SentBack? && Reviewed(e.status))) { return Some(WrongEpisode); }
      if !UnderReview(e, v) { return Some(NotUnderReview); }
      if decision.SentBack? {
        var done := SendVersionBack(i, v);
        return if done then None else Some(Changed);
      }
      episodes := episodes[i := e.(status := Approved, approved := Some(v))];
      episodes := episodes[i := AddReview(episodes[i], v, Accepted)];
      return None;
    }

    /** A new label sends a checked episode back to LABELED, since the check covered the label. */
    method LabelVersion(i: nat, v: nat, nonBlank: bool) returns (refused: Option<Refusal>)
      modifies this`episodes
      ensures Answered(old(State()), LabelCall(i, v, nonBlank), State(), refused)
    {
      if i >= |episodes| || v >= |episodes[i].versions| { return Some(NotFound); }
      if !InDelivery(status) { return Some(WrongProject); }
      var e := episodes[i];
      if !Reviewed(e.status) { return Some(WrongEpisode); }
      if !UnderReview(e, v) { return Some(NotUnderReview); }
      episodes := episodes[i := e.(status := Labeled)];
      var version := e.versions[v].(checks := ResetChecks(e.versions[v].checks));
      version := version.(aiLabel := Some(nonBlank));
      episodes := episodes[i := episodes[i].(versions := e.versions[v := version])];
      return None;
    }

    /** Writes the verdicts over the check rows, one item at a time. */
    static method RecordChecks(checks: map<CheckType, CheckResult>, verdicts: map<CheckType, CheckResult>)
      returns (r: map<CheckType, CheckResult>)
      requires forall t: CheckType :: t in verdicts
      ensures r == checks + verdicts
    {
      r := checks;
      var items := [LabelPresence, DecreeNotice, ContentSafety, RealPerson];
      for k := 0 to |items|
        invariant forall t :: t in r <==> t in checks || t in items[..k]
        invariant forall t :: t in r ==> r[t] == if t in items[..k] then verdicts[t] else checks[t]
      {
        r := r[items[k] := verdicts[items[k]]];
      }
      assert items[..|items|] == items;
      forall t: CheckType ensures t in items {
        match t case LabelPresence => assert items[0] == t; case DecreeNotice => assert items[1] == t;
        case ContentSafety => assert items[2] == t; case RealPerson => assert items[3] == t;
      }
      assert r == checks + verdicts;
    }

    method CheckCompliance(i: nat, v: nat, sheet: Sheet) returns (refused: Option<Refusal>)
      modifies this`episodes
      ensures Answered(old(State()), ComplianceCall(i, v, sheet), State(), refused)
    {
      if i >= |episodes| || v >= |episodes[i].versions| { return Some(NotFound); }
      if !InDelivery(status) { return Some(WrongProject); }
      var e := episodes[i];
      if !e.status.Labeled? { return Some(WrongEpisode); }
      if !UnderReview(e, v) { return Some(NotUnderReview); }
      var verdicts := Verdicts(e.versions[v], sheet);
      forall t: CheckType ensures t in verdicts {
        match t case LabelPresence => case DecreeNotice => case ContentSafety => case RealPerson =>
      }
      var checks := RecordChecks(e.versions[v].checks, verdicts);
      episodes := episodes[i := e.(versions := e.versions[v := e.versions[v].(checks := checks)])];
      if PassedAll(verdicts) {
        episodes := episodes[i := episodes[i].(status := CompliancePassed)];
        return None;
      }
      var done := SendVersionBack(i, v);
      return if done then None else Some(Changed);
    }

    // -------------------------------------------------------------------------------------------
    // Releases
    // -------------------------------------------------------------------------------------------

    method FindMissing(i: nat) returns (missing: seq<Missing>)
      requires i < |episodes|
      ensures missing == MissingForRelease(State(), episodes[i])
    {
      var e := episodes[i];
      missing := [];
      if e.approved.None? { missing := missing + [NoApprovedVersion]; }
      ghost var so := When(e.approved.None?, NoApprovedVersion);
      assert missing == so;
      if e.price.None? { missing := missing + [NoPrice]; }
      so := so + When(e.price.None?, NoPrice);
      assert missing == so;
      if !synopsis { missing := missing + [NoSynopsis]; }
      so := so + When(!synopsis, NoSynopsis);
      assert missing == so;
      if !rated { missing := missing + [NoAgeRating]; }
      so := so + When(!rated, NoAgeRating);
      assert missing == so;
      if e.approved.Some? && e.approved.value < |e.versions| {
        var version := e.versions[e.approved.value];
        var last := [];
        if version.aiLabel.None? { last := last + [NoLabel]; }
        if Passes(version.checks) < 4 { last := last + [NoPassedChecks]; }
        assert last == When(version.aiLabel.None?, NoLabel) + When(Passes(version.checks) < 4, NoPassedChecks);
        missing := missing + last;
      }
    }

    method CompleteIfAllPublished() returns (completed: bool)
      modifies this`status
      ensures State() == CompleteIfAllOut(old(State())) && completed == (status != old(status))
    {
      for i := 0 to |episodes|
        invariant forall j :: 0 <= j < i ==> Out(episodes[j].status)
      {
        if !Out(episodes[i].status) { return false; }
      }
      if InDelivery(status) {
        status := Completed;
        return true;
      }
      return false;
    }

    /** Publishes now. The publication is written first and put back when the project no longer releases. */
    method ReleaseNow(i: nat, p: nat, now: Time) returns (refused: Option<Refusal>)
      requires i < |episodes| && p < |episodes[i].publications|
      modifies this
      ensures Answered(old(State()), ReleaseCall(i, p, now), State(), refused)
    {
      var before := episodes;
      var e := episodes[i];
      if !Pending(e.publications[p]) { return Some(Changed); }
      episodes := episodes[i := e.(publications := e.publications[p := e.publications[p].(publishedAt := Some(now))])];
      if !Releasing(status) {
        episodes := before;
        return Some(WrongProject);
      }
      episodes := episodes[i := episodes[i].(status := Published)];
      if episodes[i].underRevision {
        // A release ends the revision of this episode.
        episodes := episodes[i := episodes[i].(underRevision := false)];
      }
      assert episodes == Replaced(old(State()), i, e.(publications := e.publications[p := e.publications[p].(publishedAt := Some(now))],
                                                      status := Published, underRevision := false)).episodes;
      var _ := CompleteIfAllPublished();
      return None;
    }

    /** The scheduled release of the episode gets the new date, or a release is created. */
    method PreparePublication(i: nat, scheduledAt: Option<Time>) returns (p: nat)
      requires i < |episodes| && episodes[i].approved.Some?
      modifies this`episodes
      ensures episodes == old(episodes)[i := WithPending(old(episodes)[i], scheduledAt)]
      ensures p == FirstPending(old(episodes)[i].publications)
    {
      var e := episodes[i];
      p := FirstPending(e.publications);
      if p < |e.publications| {
        episodes := episodes[i := e.(publications := e.publications[p := e.publications[p].(scheduledAt := scheduledAt)])];
      } else {
        episodes := episodes[i := e.(publications := e.publications + [Publication(e.approved.value, scheduledAt, None, None)])];
      }
    }

    method PublishEpisode(i: nat, scheduledAt: Option<Time>, now: Time) returns (refused: Option<Refusal>)
      modifies this
      ensures Answered(old(State()), PublishCall(i, scheduledAt, now), State(), refused)
    {
      if i >= |episodes| { return Some(NotFound); }
      if !Releasing(status) { return Some(WrongProject); }
      if !Releasable(episodes[i].status) { return Some(WrongEpisode); }
      if scheduledAt.Some? && scheduledAt.value <= now { return Some(InThePast); }
      var missing := FindMissing(i);
      if missing != [] { return Some(CannotRelease(missing)); }
      var p := PreparePublication(i, scheduledAt);
      assert State() == Replaced(old(State()), i, WithPending(old(episodes)[i], scheduledAt));
      refused := ScheduleOrRelease(i, p, scheduledAt, now);
    }

    /** The prepared publication waits for its date, or goes out at once. */
    method ScheduleOrRelease(i: nat, p: nat, scheduledAt: Option<Time>, now: Time) returns (refused: Option<Refusal>)
      requires i < |episodes| && p < |episodes[i].publications|
      modifies this
      ensures scheduledAt.Some? ==>
                refused.None? && State() == Replaced(old(State()), i, old(episodes)[i].(status := Scheduled))
      ensures scheduledAt.None? ==>
                match Release(old(State()), i, p, now)
                case Ok(next) => refused.None? && State() == next
                case Err(r) => refused == Some(r)
    {
      if scheduledAt.Some? {
        episodes := episodes[i := episodes[i].(status := Scheduled)];
        return None;
      }
      refused := ReleaseNow(i, p, now);
    }

    /** Unpublish on the rows; a refused send-back restores them. */
    method UnpublishEpisode(i: nat, p: nat, mode: Option<Mode>, now: Time) returns (refused: Option<Refusal>)
      modifies this
      ensures Answered(old(State()), UnpublishCall(i, p, mode, now), State(), refused)
    {
      if i >= |episodes| || p >= |episodes[i].publications| { return Some(NotFound); }
      var e := episodes[i];
      var publication := e.publications[p];
      if publication.takenDownAt.Some? { return Some(AlreadyTakenDown); }
      var live := publication.publishedAt.Some?;
      if e.status != (if live then Published else Scheduled) { return Some(WrongEpisode); }
      if live && mode.None? { return Some(ModeMissing); }
      var before := episodes;
      episodes := episodes[i := e.(publications := e.publications[p := publication.(takenDownAt := Some(now))])];
      if live && mode.value.Revision? {
        refused := SendEpisodeBack(i, publication.version);
        if refused.Some? { episodes := before; }
        return;
      }
      episodes := episodes[i := episodes[i].(status := if live then Unpublished else CompliancePassed)];
      return None;
    }

    /** The taken-down episode waits for a fixed version; a completed project is under revision meanwhile. */
    method SendEpisodeBack(i: nat, v: nat) returns (refused: Option<Refusal>)
      requires i < |episodes|
      modifies this
      ensures match SendBack(old(State()), i, old(episodes)[i], v)
              case Ok(next) => refused.None? && State() == next
              case Err(r) => refused == Some(r) && State() == old(State())
    {
      if v >= |episodes[i].versions| { return Some(NotFound); }
      var done := SendVersionBack(i, v);
      if !done { return Some(Changed); }
      episodes := episodes[i := episodes[i].(underRevision := true)];
      if status.Completed? {
        status := UnderRevision;
      }
      return None;
    }

    /** The releases that are due, in whatever order the query returns them. */
    method DueReleases(now: Time) returns (due: seq<Spot>)
      ensures forall k :: 0 <= k < |due| ==> IsDue(State(), due[k], now)
      ensures forall j, k :: 0 <= j < k < |due| ==> due[j] != due[k]
      ensures forall d: Spot :: IsDue(State(), d, now) ==> d in due
      ensures |due| == DueCount(episodes, now)
    {
      due := [];
      ghost var m := State();
      NothingListed(m, now);
      for i := 0 to |episodes|
        invariant ListedUpTo(m, due, i, 0, now)
      {
        var releases := episodes[i].publications;
        for p := 0 to |releases|
          invariant ListedUpTo(m, due, i, p, now)
        {
          ghost var before := due;
          if DuePublication(releases[p], now) {
            due := due + [Spot(i, p)];
          }
          ListedOn(m, before, i, p, now, due);
        }
        EpisodeListed(m, due, i, now);
      }
      AllListed(m, due, now);
    }

    method ReleaseDue(d: Spot, now: Time) returns (refused: Option<Refusal>)
      requires ProjectOk(State()) && IsDue(State(), d, now)
      modifies this
      ensures ProjectOk(State()) && refused.None?
      ensures episodes == old(episodes)[d.i := ReleasedBy(old(episodes)[d.i], d.p, now)]
      ensures synopsis == old(synopsis) && rated == old(rated)
    {
      SweepReleases(State(), d.i, d.p, now);
      refused := ReleaseNow(d.i, d.p, now);
    }

    /** Releases everything due; a release that fails is left for the next run. None fails. */
    method PublishDue(now: Time) returns (released: nat)
      requires ProjectOk(State())
      modifies this
      ensures ProjectOk(State()) && |episodes| == |old(episodes)|
      ensures released == DueCount(old(episodes), now)
      ensures forall d: Spot :: !IsDue(State(), d, now)
      ensures forall d: Spot :: IsDue(old(State()), d, now) ==> episodes[d.i] == ReleasedBy(old(episodes)[d.i], d.p, now)
      ensures forall i :: 0 <= i < |episodes| && episodes[i] != old(episodes)[i] ==>
                exists d: Spot :: d.i == i && IsDue(old(State()), d, now)
    {
      var due := DueReleases(now);
      released := 0;
      ghost var was := State();
      for k := 0 to |due|
        invariant ProjectOk(State()) && released == k && SweptUpTo(was, episodes, due, k, now)
      {
        ghost var before := episodes;
        SweepGoesOn(was, before, due, k, now);
        var refused := ReleaseDue(due[k], now);
        if refused.None? {
          released := released + 1;
        }
      }
      forall d: Spot ensures !IsDue(State(), d, now) {
        if d.i < |episodes| && IsDue(State(), d, now) {
          var f :| f in due && f.i == d.i;
          NothingLeftDue(was, State(), f, d, now);
          assert false;
        }
      }
    }

    /** Start-up recovery: a delivery cut off by a restart is failed, so no episode is left PROCESSING. */
    method FailInterrupted()
      requires ProjectOk(State())
      modifies this`episodes
      ensures ProjectOk(State()) && |episodes| == |old(episodes)|
      ensures forall i :: 0 <= i < |episodes| ==>
                !episodes[i].status.Processing?
                && episodes[i].status == if old(episodes)[i].status.Processing?
                                         then StatusWithoutPending(old(episodes)[i].versions) else old(episodes)[i].status
    {
      for i := 0 to |episodes|
        invariant ProjectOk(State()) && |episodes| == |old(episodes)|
        invariant forall j :: 0 <= j < i ==>
                    !episodes[j].status.Processing?
                    && episodes[j].status == if old(episodes)[j].status.Processing?
                                             then StatusWithoutPending(old(episodes)[j].versions) else old(episodes)[j].status
        invariant forall j :: i <= j < |episodes| ==> episodes[j] == old(episodes)[j]
      {
        FailPendingOf(i);
      }
    }

    method FailPendingOf(i: nat)
      requires ProjectOk(State()) && i < |episodes|
      modifies this`episodes
      ensures ProjectOk(State()) && |episodes| == |old(episodes)|
      ensures forall j :: 0 <= j < |episodes| && j != i ==> episodes[j] == old(episodes)[j]
      ensures !episodes[i].status.Processing?
      ensures episodes[i].status == if old(episodes)[i].status.Processing?
                                    then StatusWithoutPending(old(episodes)[i].versions) else old(episodes)[i].status
    {
      assert EpisodeFits(status, episodes[i]);
      var v := |episodes[i].versions|;
      // Older versions are all done, so only the newest can have been interrupted.
      if v > 0 && !Done(episodes[i].versions[v - 1].ingest) {
        FailKeeps(episodes[i], v - 1);
        FailedKeeps(State(), i, v - 1);
        MediaHasFailed(i, v - 1);
      }
    }

    // -------------------------------------------------------------------------------------------
    // Planning the project
    // -------------------------------------------------------------------------------------------

    /** Delivery.Assign on the status; the checks outside the project come as `ready`. */
    method AssignStudio(ready: Readiness) returns (refused: Option<Refusal>)
      modifies this`status
      ensures Answered(old(State()), AssignCall(ready), State(), refused)
    {
      if !OpenProject(status) { return Some(WrongProject); }
      if !ready.creator { return Some(NoCreator); }
      if !ready.funded { return Some(NotFunded); }
      if |episodes| == 0 { return Some(NoEpisodes); }
      if !ready.milestones { return Some(NoMilestone); }
      if status.Draft? {
        status := Assigned;
      }
      return None;
    }

    /** The studio gets the brief: the project is in production and every episode waits for media. */
    method HandOffProject(deadlines: bool) returns (refused: Option<Refusal>)
      modifies this`status, this`episodes
      ensures Answered(old(State()), HandOffCall(deadlines), State(), refused)
    {
      if !status.Assigned? { return Some(WrongProject); }
      if !deadlines { return Some(DeadlinePast); }
      status := InProduction;
      ghost var was := episodes;
      for i := 0 to |episodes|
        invariant |episodes| == |was| && status.InProduction?
        invariant forall j :: 0 <= j < |was| ==> episodes[j] == if j < i then was[j].(status := AwaitingMedia) else was[j]
      {
        episodes := episodes[i := episodes[i].(status := AwaitingMedia)];
      }
      assert episodes == AllAwaiting(was);
      return None;
    }

    method PlanEpisode() returns (refused: Option<Refusal>)
      modifies this`episodes
      ensures Answered(old(State()), AddEpisodeCall, State(), refused)
    {
      if !OpenProject(status) { return Some(WrongProject); }
      episodes := episodes + [Episode(InitialStatus(status), [], None, None, false, [])];
      return None;
    }

    // -------------------------------------------------------------------------------------------
    // Cancelling the project
    // -------------------------------------------------------------------------------------------

    /** Cancel on the rows: refused once any publication has a `publishedAt`. */
    method CancelProject(now: Time) returns (refused: Option<Refusal>)
      modifies this
      ensures Answered(old(State()), CancelCall(now), State(), refused)
    {
      if !OpenProject(status) { return Some(WrongProject); }
      for i := 0 to |episodes|
        invariant forall j :: 0 <= j < i ==> !EverReleased(episodes[j])
      {
        if EverReleased(episodes[i]) { return Some(AlreadyPublished); }
      }
      status := Cancelled;
      WithdrawScheduledReleases(now);
      return None;
    }

    method WithdrawScheduledReleases(now: Time)
      modifies this`episodes
      ensures episodes == AllWithdrawn(old(episodes), now)
    {
      ghost var was := episodes;
      for i := 0 to |episodes|
        invariant |episodes| == |was|
        invariant forall j :: 0 <= j < |was| ==> episodes[j] == if j < i then Withdrawn(was[j], now) else was[j]
      {
        var e := episodes[i];
        var publications := e.publications;
        for p := 0 to |publications|
          invariant |publications| == |e.publications|
          invariant forall q :: 0 <= q < |publications| ==>
                      publications[q] == if q < p && Pending(e.publications[q])
                                         then e.publications[q].(takenDownAt := Some(now)) else e.publications[q]
        {
          if Pending(publications[p]) {
            publications := publications[p := publications[p].(takenDownAt := Some(now))];
          }
        }
        assert publications == Withdrawn(e, now).publications;
        episodes := episodes[i := e.(publications := publications)];
        if e.status.Scheduled? {
          episodes := episodes[i := episodes[i].(status := CompliancePassed)];
        }
      }
    }
  }
}
