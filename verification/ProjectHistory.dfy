/** What the invariants mean over whole histories of one project. */
module ProjectHistory {
  import opened Prelude
  import opened Delivery
  import opened DeliveryProofs
  import opened ProjectProofs

  // ---------------------------------------------------------------------------------------------
  // The status a failed delivery gives back
  // ---------------------------------------------------------------------------------------------

  /** Episodes are never removed. */
  lemma EpisodesStay(m: Movie, c: Call)
    ensures |m.episodes| <= |Step(m, c).episodes|
  {
  }

  predicate NamesEpisode(c: Call) {
    AboutMedia(c) || c.PriceCall? || c.PublishCall? || c.UnpublishCall? || c.ReleaseCall?
  }

  lemma OtherEpisodesUntouched(m: Movie, c: Call, i: nat)
    requires i < |m.episodes| && NamesEpisode(c) && c.i != i
    ensures Step(m, c).episodes[i] == m.episodes[i]
  {
  }

  /** A pending delivery shuts out every release call on its episode. */
  lemma ReleaseCallsRefused(m: Movie, c: Call)
    requires ProjectOk(m) && (c.PublishCall? || c.UnpublishCall? || c.ReleaseCall?)
    requires c.i < |m.episodes| && m.episodes[c.i].status.Processing?
    ensures Step(m, c) == m
  {
    assert EpisodeFits(m.status, m.episodes[c.i]);
  }

  lemma ProjectCallsKeepMedia(m: Movie, c: Call, i: nat)
    requires ProjectOk(m) && i < |m.episodes| && !NamesEpisode(c)
    ensures Step(m, c).episodes[i].versions == m.episodes[i].versions
    ensures Step(m, c).episodes[i].status.Processing? <==> m.episodes[i].status.Processing?
  {
    assert EpisodeFits(m.status, m.episodes[i]);
  }

  lemma PriceKeepsMedia(m: Movie, c: Call)
    requires c.PriceCall? && c.i < |m.episodes|
    ensures Step(m, c).episodes[c.i].versions == m.episodes[c.i].versions
    ensures Step(m, c).episodes[c.i].status == m.episodes[c.i].status
  {
  }

  predicate StillProcessing(was: Episode, e: Episode) {
    e.versions == was.versions && e.status.Processing?
  }

  /** While a delivery is pending only the calls about its own media change what is delivered. */
  lemma OnlyMediaTouchesProcessing(m: Movie, next: Movie, c: Call, i: nat)
    requires ProjectOk(m) && next == Step(m, c)
    requires i < |m.episodes| <= |next.episodes| && m.episodes[i].status.Processing?
    requires !(AboutMedia(c) && c.i == i)
    ensures StillProcessing(m.episodes[i], next.episodes[i])
  {
    if !NamesEpisode(c) {
      ProjectCallsKeepMedia(m, c, i);
    } else if c.i != i {
      OtherEpisodesUntouched(m, c, i);
    } else if c.PriceCall? {
      PriceKeepsMedia(m, c);
    } else {
      ReleaseCallsRefused(m, c);
    }
  }

  /** What stands behind a pending delivery stays until it is ready, and is the status after a failure. */
  predicate KeepsBehind(was: Episode, e: Episode, c: Call) {
    && (e.status.Processing? || c.FailCall? ==> StatusWithoutPending(e.versions) == StatusWithoutPending(was.versions))
    && (c.FailCall? && !e.status.Processing? ==> e.status == StatusWithoutPending(was.versions))
  }

  lemma MediaCallOnProcessing(project: MovieStatus, e: Episode, c: Call)
    requires EpisodeOk(e) && e.status.Processing? && AboutMedia(c) && EpisodeCall(project, e, c).Ok?
    requires c.AdvanceCall? ==> !TooLate(e, c.v, c.to)
    ensures KeepsBehind(e, EpisodeCall(project, e, c).value, c)
  {
    match c
    case AdvanceCall(_, v, to) => AdvanceKeeps(e, v, to);
    case ReadyCall(_, v) => if MediaReady(e, v) != e { ReadyIsNewest(e, v); }
    case FailCall(_, v) => FailKeeps(e, v);
    case _ =>
  }

  lemma ProcessingKeepsBehind(m: Movie, next: Movie, c: Call, i: nat)
    requires ProjectOk(m) && Timely(m, c) && next == Step(m, c)
    requires i < |m.episodes| <= |next.episodes| && m.episodes[i].status.Processing?
    ensures KeepsBehind(m.episodes[i], next.episodes[i], c)
  {
    assert EpisodeFits(m.status, m.episodes[i]);
    if AboutMedia(c) && c.i == i {
      MediaCallMade(m, c);
      if EpisodeCall(m.status, m.episodes[i], c).Ok? {
        MediaCallOnProcessing(m.status, m.episodes[i], c);
      } else {
        RefusedOnProcessing(m.status, m.episodes[i], c);
      }
    } else {
      OnlyMediaTouchesProcessing(m, next, c, i);
    }
  }

  lemma RefusedOnProcessing(project: MovieStatus, e: Episode, c: Call)
    requires e.status.Processing? && AboutMedia(c) && EpisodeCall(project, e, c).Err?
    ensures KeepsBehind(e, e, c)
  {
  }

  lemma MediaCallStarts(project: MovieStatus, e: Episode, c: Call)
    requires EpisodeOk(e) && !e.status.Processing? && AboutMedia(c) && EpisodeCall(project, e, c).Ok?
    requires EpisodeCall(project, e, c).value.status.Processing?
    ensures Submittable(e.status) && StatusWithoutPending(EpisodeCall(project, e, c).value.versions) == e.status
  {
    match c
    case SubmitCall(_, committed) => SubmitKeeps(project, e, committed);
    case RetryCall(_, v) => RetryKeeps(project, e, v);
    case _ =>
  }

  lemma ReleaseCallsStartNothing(m: Movie, c: Call)
    requires (c.PublishCall? || c.UnpublishCall? || c.ReleaseCall?) && c.i < |m.episodes|
    requires !m.episodes[c.i].status.Processing?
    ensures !Step(m, c).episodes[c.i].status.Processing?
  {
  }

  lemma NewEpisodesStartNothing(m: Movie, next: Movie, c: Call, i: nat)
    requires next == Step(m, c) && |m.episodes| <= i < |next.episodes|
    ensures !next.episodes[i].status.Processing?
  {
    assert c.AddEpisodeCall?;
  }

  lemma OtherCallsStartNothing(m: Movie, next: Movie, c: Call, i: nat)
    requires ProjectOk(m) && next == Step(m, c) && !AboutMedia(c)
    requires i < |m.episodes| <= |next.episodes| && !m.episodes[i].status.Processing?
    ensures !next.episodes[i].status.Processing?
  {
    if !NamesEpisode(c) {
      ProjectCallsKeepMedia(m, c, i);
    } else if c.i != i {
      OtherEpisodesUntouched(m, c, i);
    } else if c.PriceCall? {
      PriceKeepsMedia(m, c);
    } else {
      ReleaseCallsStartNothing(m, c);
    }
  }

  /** Only a delivery or a retry makes an episode PROCESSING. */
  lemma StartOfProcessing(m: Movie, next: Movie, c: Call, i: nat)
    requires ProjectOk(m) && next == Step(m, c) && i < |next.episodes| && next.episodes[i].status.Processing?
    requires i < |m.episodes| ==> !m.episodes[i].status.Processing?
    ensures i < |m.episodes| && Submittable(m.episodes[i].status)
    ensures StatusWithoutPending(next.episodes[i].versions) == m.episodes[i].status
  {
    if i >= |m.episodes| {
      NewEpisodesStartNothing(m, next, c, i);
    } else if !AboutMedia(c) {
      EpisodesStay(m, c);
      OtherCallsStartNothing(m, next, c, i);
    } else {
      assert EpisodeFits(m.status, m.episodes[i]);
      if c.i != i {
        OtherEpisodesUntouched(m, c, i);
      }
      MediaCallStarts(m.status, m.episodes[i], c);
    }
  }

  /** The status an episode had when its pending delivery was handed in: history, not state. */
  function StatusBefore(movies: seq<Movie>, i: nat, n: nat): EpisodeStatus
    requires n < |movies|
  {
    if n == 0 then Planned
    else if i < |movies[n - 1].episodes| && !movies[n - 1].episodes[i].status.Processing?
    then movies[n - 1].episodes[i].status
    else StatusBefore(movies, i, n - 1)
  }

  /** Behind a pending delivery stands what stood there before, or the status the delivery replaced. */
  predicate StillTold(m: Movie, next: Movie, i: nat)
    requires i < |next.episodes|
  {
    && i < |m.episodes|
    && if m.episodes[i].status.Processing?
       then StatusWithoutPending(next.episodes[i].versions) == StatusWithoutPending(m.episodes[i].versions)
       else Submittable(m.episodes[i].status) && StatusWithoutPending(next.episodes[i].versions) == m.episodes[i].status
  }

  lemma NotLostByStep(m: Movie, next: Movie, c: Call, i: nat)
    requires ProjectOk(m) && Timely(m, c) && next == Step(m, c) && i < |next.episodes| && next.episodes[i].status.Processing?
    ensures StillTold(m, next, i)
  {
    EpisodesStay(m, c);
    if i < |m.episodes| && m.episodes[i].status.Processing? {
      ProcessingKeepsBehind(m, next, c, i);
    } else {
      StartOfProcessing(m, next, c, i);
    }
  }

  lemma NotLostInHistory(movies: seq<Movie>, calls: seq<Call>, i: nat, n: nat)
    requires History(movies, calls) && n < |calls|
    requires i < |movies[n + 1].episodes| && movies[n + 1].episodes[i].status.Processing?
    ensures StillTold(movies[n], movies[n + 1], i)
  {
    EveryHistoryIsOk(movies, calls, n);
    NotLostByStep(movies[n], movies[n + 1], calls[n], i);
  }

  /** After any history the stored versions and reviews still tell the status before the pending delivery. */
  lemma {:induction false} StatusIsNeverLost(movies: seq<Movie>, calls: seq<Call>, i: nat, n: nat)
    requires History(movies, calls) && n <= |calls|
    requires i < |movies[n].episodes| && movies[n].episodes[i].status.Processing?
    ensures StatusWithoutPending(movies[n].episodes[i].versions) == StatusBefore(movies, i, n)
    ensures Submittable(StatusBefore(movies, i, n))
    decreases n
  {
    NotLostInHistory(movies, calls, i, n - 1);
    if movies[n - 1].episodes[i].status.Processing? {
      StatusIsNeverLost(movies, calls, i, n - 1);
    }
  }

  /** A failed delivery gives the episode back exactly the status it had before it. */
  lemma FailureGivesBackTheStatus(movies: seq<Movie>, calls: seq<Call>, i: nat, n: nat)
    requires History(movies, calls) && n < |calls|
    requires i < |movies[n].episodes| && movies[n].episodes[i].status.Processing?
    requires calls[n].FailCall? && i < |movies[n + 1].episodes| && !movies[n + 1].episodes[i].status.Processing?
    ensures movies[n + 1].episodes[i].status == StatusBefore(movies, i, n)
  {
    assert movies[n + 1] == Step(movies[n], calls[n]);
    EveryHistoryIsOk(movies, calls, n);
    EpisodesStay(movies[n], calls[n]);
    StatusIsNeverLost(movies, calls, i, n);
    ProcessingKeepsBehind(movies[n], movies[n + 1], calls[n], i);
  }

  // ---------------------------------------------------------------------------------------------
  // What is on air
  // ---------------------------------------------------------------------------------------------

  /** Whatever is scheduled or on air, in any history, is the approved READY version, labelled, checked and priced. */
  lemma NothingUngatedGoesOut(movies: seq<Movie>, calls: seq<Call>, n: nat, i: nat, p: nat)
    requires History(movies, calls) && n <= |calls|
    requires i < |movies[n].episodes| && p < |movies[n].episodes[i].publications|
    requires movies[n].episodes[i].publications[p].takenDownAt.None?
    ensures var e := movies[n].episodes[i];
            var v := e.publications[p].version;
            && e.status == (if e.publications[p].publishedAt.Some? then Published else Scheduled)
            && e.approved == Some(v) && v < |e.versions| && e.versions[v].ingest.Ready?
            && e.versions[v].aiLabel.Some? && PassedAll(e.versions[v].checks) && e.price.Some?
            && Releasing(movies[n].status)
  {
    EveryHistoryIsOk(movies, calls, n);
    var e := movies[n].episodes[i];
    assert EpisodeFits(movies[n].status, e);
    assert Pending(e.publications[p]) || Live(e.publications[p]);
  }

  lemma {:induction false} StaysCancelled(movies: seq<Movie>, calls: seq<Call>, k: nat, n: nat)
    requires History(movies, calls) && k <= n <= |calls| && movies[k].status.Cancelled?
    ensures movies[n].status.Cancelled?
  {
    if k < n {
      StaysCancelled(movies, calls, k, n - 1);
      EveryHistoryIsOk(movies, calls, n - 1);
      StepFromCancelled(movies[n - 1], calls[n - 1]);
    }
  }

  /** A cancelled project stays cancelled and none of its episodes was or will be released. */
  lemma CancelledIsFinal(movies: seq<Movie>, calls: seq<Call>, k: nat, n: nat)
    requires History(movies, calls) && k <= n <= |calls| && movies[k].status.Cancelled?
    ensures movies[n].status.Cancelled?
    ensures forall i :: 0 <= i < |movies[n].episodes| ==> !EverReleased(movies[n].episodes[i])
  {
    StaysCancelled(movies, calls, k, n);
    EveryHistoryIsOk(movies, calls, n);
    forall i | 0 <= i < |movies[n].episodes| ensures !EverReleased(movies[n].episodes[i]) {
      assert EpisodeFits(Cancelled, movies[n].episodes[i]);
    }
  }

  lemma StepFromCancelled(m: Movie, c: Call)
    requires ProjectOk(m) && m.status.Cancelled?
    ensures Step(m, c).status.Cancelled?
  {
    if AboutMedia(c) {
      if c.i < |m.episodes| {
        MediaCallMade(m, c);
      }
    } else if c.UnpublishCall? && c.i < |m.episodes| && c.p < |m.episodes[c.i].publications| {
      assert EpisodeFits(m.status, m.episodes[c.i]);
      assert !EverReleased(m.episodes[c.i]);
      assert !Live(m.episodes[c.i].publications[c.p]);
    }
  }

  /** A project in delivery still owes an episode; a completed one owes none and has nothing under revision. */
  lemma ProjectFollowsEpisodes(movies: seq<Movie>, calls: seq<Call>, n: nat)
    requires History(movies, calls) && n <= |calls|
    ensures InDelivery(movies[n].status) ==> SomeNotOut(movies[n])
    ensures movies[n].status.Completed? ==> forall i :: 0 <= i < |movies[n].episodes| ==> Settled(movies[n].episodes[i])
  {
    EveryHistoryIsOk(movies, calls, n);
    forall i | 0 <= i < |movies[n].episodes| ensures movies[n].status.Completed? ==> Settled(movies[n].episodes[i]) {
      assert EpisodeFits(movies[n].status, movies[n].episodes[i]);
    }
  }
}
