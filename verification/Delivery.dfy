/**
 * One movie project from draft to release as values: its episodes with their delivered versions,
 * reviews, labels, compliance checks and publications, and every service call that changes them.
 */
module Delivery {
  import opened Prelude

  type Time = int

  datatype MovieStatus = Draft | Assigned | InProduction | Completed | UnderRevision | Cancelled

  datatype EpisodeStatus =
    | Planned | AwaitingMedia | Processing | InReview | ChangesRequested
    | Approved | Labeled | CompliancePassed | Scheduled | Published | Unpublished

  datatype Ingest = Queued | Downloading | Transcoding | Validating | Ready | Failed | Superseded

  datatype Decision = Accepted | SentBack

  datatype CheckType = LabelPresence | DecreeNotice | ContentSafety | RealPerson

  datatype CheckResult = NotRun | Pass | Fail

  /** A delivered version; the label is the text check only (whether it is non-blank). */
  datatype Version = Version(ingest: Ingest, reviews: seq<Decision>, aiLabel: Option<bool>,
                             checks: map<CheckType, CheckResult>, studioCommitted: bool)

  datatype Publication = Publication(version: nat, scheduledAt: Option<Time>, publishedAt: Option<Time>,
                                     takenDownAt: Option<Time>)

  datatype Episode = Episode(status: EpisodeStatus, versions: seq<Version>, approved: Option<nat>,
                             price: Option<nat>, underRevision: bool, publications: seq<Publication>)

  datatype Movie = Movie(status: MovieStatus, synopsis: bool, rated: bool, episodes: seq<Episode>)

  datatype Missing = NoApprovedVersion | NoPrice | NoSynopsis | NoAgeRating | NoLabel | NoPassedChecks

  datatype Refusal =
    | WrongProject | WrongEpisode | NotUnderReview | NotFailed | NewerVersion | NotFound | InThePast
    | CannotRelease(missing: seq<Missing>) | AlreadyTakenDown | ModeMissing | NoCreator | NotFunded | NoEpisodes | NoMilestone | DeadlinePast
    | AlreadyPublished | Changed

  // ---------------------------------------------------------------------------------------------
  // Status sets
  // ---------------------------------------------------------------------------------------------

  predicate OpenProject(s: MovieStatus) {
    s.Draft? || s.Assigned? || s.InProduction?
  }

  predicate InDelivery(s: MovieStatus) {
    s.InProduction? || s.UnderRevision?
  }

  predicate Releasing(s: MovieStatus) {
    InDelivery(s) || s.Completed?
  }

  predicate Submittable(s: EpisodeStatus) {
    s.AwaitingMedia? || s.InReview? || s.ChangesRequested?
  }

  predicate Reviewed(s: EpisodeStatus) {
    s.Approved? || s.Labeled? || s.CompliancePassed?
  }

  predicate Releasable(s: EpisodeStatus) {
    s.CompliancePassed? || s.Unpublished? || s.Scheduled?
  }

  predicate Out(s: EpisodeStatus) {
    s.Published? || s.Unpublished?
  }

  predicate Done(s: Ingest) {
    s.Ready? || s.Failed? || s.Superseded?
  }

  function InitialStatus(s: MovieStatus): EpisodeStatus {
    if s.InProduction? then AwaitingMedia else Planned
  }

  // ---------------------------------------------------------------------------------------------
  // Deliveries
  // ---------------------------------------------------------------------------------------------

  const NEW_VERSION := Version(Queued, [], None, map[], false)

  function SetIngest(e: Episode, v: nat, to: Ingest): Episode
    requires v < |e.versions|
  {
    e.(versions := e.versions[v := e.versions[v].(ingest := to)])
  }

  function Submit(project: MovieStatus, e: Episode, committed: bool): Outcome<Episode, Refusal> {
    if !InDelivery(project) then Err(WrongProject)
    else if !Submittable(e.status) then Err(WrongEpisode)
    else Ok(e.(status := Processing, versions := e.versions + [NEW_VERSION.(studioCommitted := committed)]))
  }

  function Retry(project: MovieStatus, e: Episode, v: nat): Outcome<Episode, Refusal> {
    if v >= |e.versions| then Err(NotFound)
    else if !e.versions[v].ingest.Failed? then Err(NotFailed)
    else if !InDelivery(project) then Err(WrongProject)
    else if !Submittable(e.status) then Err(WrongEpisode)
    else if v != |e.versions| - 1 then Err(NewerVersion)
    else Ok(SetIngest(e, v, Queued).(status := Processing))
  }

  /** A pipeline step writes its status over whatever the version has, finished or not. */
  function Advance(e: Episode, v: nat, to: Ingest): Episode {
    if v < |e.versions| && !Done(to) then SetIngest(e, v, to) else e
  }

  /** Whether a step writes over a version that is finished: an attempt that outlived its delivery. */
  predicate TooLate(e: Episode, v: nat, to: Ingest) {
    v < |e.versions| && Done(e.versions[v].ingest) && !Done(to)
  }

  function SupersedeReady(versions: seq<Version>, v: nat): (r: seq<Version>)
    ensures |r| == |versions|
    ensures forall k :: 0 <= k < |r| ==>
              r[k] == if k < v && versions[k].ingest.Ready? then versions[k].(ingest := Superseded) else versions[k]
  {
    seq(|versions|, k requires 0 <= k < |versions| =>
      if k < v && versions[k].ingest.Ready? then versions[k].(ingest := Superseded) else versions[k])
  }

  function MediaReady(e: Episode, v: nat): Episode {
    if v >= |e.versions| || Done(e.versions[v].ingest) then e
    else if v < |e.versions| - 1 then SetIngest(e, v, Superseded)
    else
      var ready := SetIngest(e, v, Ready);
      ready.(versions := SupersedeReady(ready.versions, v), status := if e.status.Processing? then InReview else e.status)
  }

  /** The newest READY version. */
  function LastReady(versions: seq<Version>): (r: Option<nat>)
    ensures r.None? ==> forall k :: 0 <= k < |versions| ==> !versions[k].ingest.Ready?
    ensures r.Some? ==> r.value < |versions| && versions[r.value].ingest.Ready?
    ensures r.Some? ==> forall k :: r.value < k < |versions| ==> !versions[k].ingest.Ready?
  {
    if versions == [] then None
    else if versions[|versions| - 1].ingest.Ready? then Some(|versions| - 1)
    else LastReady(versions[..|versions| - 1])
  }

  /** The status a delivery replaced, recomputed from the newest READY version and its last review. */
  function StatusWithoutPending(versions: seq<Version>): EpisodeStatus {
    var ready := LastReady(versions);
    if ready.None? then AwaitingMedia
    else
      var reviews := versions[ready.value].reviews;
      if reviews != [] && reviews[|reviews| - 1].SentBack? then ChangesRequested else InReview
  }

  function MediaFailed(e: Episode, v: nat): Episode {
    if v >= |e.versions| || Done(e.versions[v].ingest) then e
    else
      var failed := SetIngest(e, v, Failed);
      if v == |e.versions| - 1 && e.status.Processing?
      then failed.(status := StatusWithoutPending(failed.versions))
      else failed
  }

  // ---------------------------------------------------------------------------------------------
  // Review, label, compliance
  // ---------------------------------------------------------------------------------------------

  /** IN_REVIEW asks for a READY version, every later status for the approved one. */
  predicate UnderReview(e: Episode, v: nat)
    requires v < |e.versions|
  {
    if e.status.InReview? then e.versions[v].ingest.Ready? else e.approved == Some(v)
  }

  function AddReview(e: Episode, v: nat, d: Decision): Episode
    requires v < |e.versions|
  {
    e.(versions := e.versions[v := e.versions[v].(reviews := e.versions[v].reviews + [d])])
  }

  /** Adds a SentBack review to `v` and clears `approved`. */
  function RequestChanges(e: Episode, v: nat): Outcome<Episode, Refusal>
    requires v < |e.versions|
  {
    if e.status.InReview? || ((Reviewed(e.status) || e.status.Published?) && e.approved == Some(v))
    then Ok(AddReview(e, v, SentBack).(status := ChangesRequested, approved := None))
    else Err(Changed)
  }

  function Review(project: MovieStatus, e: Episode, v: nat, d: Decision): Outcome<Episode, Refusal> {
    if v >= |e.versions| then Err(NotFound)
    else if !InDelivery(project) then Err(WrongProject)
    else if !(e.status.InReview? || (d.SentBack? && Reviewed(e.status))) then Err(WrongEpisode)
    else if !UnderReview(e, v) then Err(NotUnderReview)
    else if d.SentBack? then RequestChanges(e, v)
    else Ok(AddReview(e, v, Accepted).(status := Approved, approved := Some(v)))
  }

  function ResetChecks(checks: map<CheckType, CheckResult>): map<CheckType, CheckResult> {
    map t | t in checks :: NotRun
  }

  function ApplyLabel(project: MovieStatus, e: Episode, v: nat, nonBlank: bool): Outcome<Episode, Refusal> {
    if v >= |e.versions| then Err(NotFound)
    else if !InDelivery(project) then Err(WrongProject)
    else if !Reviewed(e.status) then Err(WrongEpisode)
    else if !UnderReview(e, v) then Err(NotUnderReview)
    else
      var labelled := e.versions[v].(aiLabel := Some(nonBlank), checks := ResetChecks(e.versions[v].checks));
      Ok(e.(status := Labeled, versions := e.versions[v := labelled]))
  }

  datatype Sheet = Sheet(noticeGiven: bool, contentSafe: bool, depictsRealPerson: bool)

  function Verdict(passed: bool): CheckResult {
    if passed then Pass else Fail
  }

  /** One result per check type; only LabelPresence and RealPerson look at the version itself. */
  function Verdicts(version: Version, sheet: Sheet): map<CheckType, CheckResult> {
    map[LabelPresence := Verdict(version.aiLabel == Some(true)),
        DecreeNotice := Verdict(sheet.noticeGiven),
        ContentSafety := Verdict(sheet.contentSafe),
        RealPerson := Verdict(version.studioCommitted && !sheet.depictsRealPerson)]
  }

  predicate PassedAll(checks: map<CheckType, CheckResult>) {
    forall t: CheckType :: t in checks && checks[t].Pass?
  }

  function Compliance(project: MovieStatus, e: Episode, v: nat, sheet: Sheet): Outcome<Episode, Refusal> {
    if v >= |e.versions| then Err(NotFound)
    else if !InDelivery(project) then Err(WrongProject)
    else if !e.status.Labeled? then Err(WrongEpisode)
    else if !UnderReview(e, v) then Err(NotUnderReview)
    else
      var checks := e.versions[v].checks + Verdicts(e.versions[v], sheet);
      var checked := e.(versions := e.versions[v := e.versions[v].(checks := checks)]);
      if PassedAll(Verdicts(e.versions[v], sheet)) then Ok(checked.(status := CompliancePassed))
      else RequestChanges(checked, v)
  }

  // ---------------------------------------------------------------------------------------------
  // Releases
  // ---------------------------------------------------------------------------------------------

  predicate Pending(p: Publication) {
    p.publishedAt.None? && p.takenDownAt.None?
  }

  predicate Live(p: Publication) {
    p.publishedAt.Some? && p.takenDownAt.None?
  }

  function Passes(checks: map<CheckType, CheckResult>): nat {
    |set t | t in checks && checks[t].Pass?|
  }

  function When(condition: bool, item: Missing): seq<Missing> {
    if condition then [item] else []
  }

  /** What still blocks a release; empty when it can go out. */
  function MissingForRelease(m: Movie, e: Episode): seq<Missing> {
    When(e.approved.None?, NoApprovedVersion)
    + When(e.price.None?, NoPrice)
    + When(!m.synopsis, NoSynopsis)
    + When(!m.rated, NoAgeRating)
    + if e.approved.None? || e.approved.value >= |e.versions| then []
      else
        var version := e.versions[e.approved.value];
        When(version.aiLabel.None?, NoLabel) + When(Passes(version.checks) < 4, NoPassedChecks)
  }

  function FirstPending(publications: seq<Publication>): (p: nat)
    ensures p <= |publications|
    ensures p < |publications| ==> Pending(publications[p])
    ensures forall q :: 0 <= q < p ==> !Pending(publications[q])
  {
    if publications == [] || Pending(publications[0]) then 0 else 1 + FirstPending(publications[1..])
  }

  function Replaced(m: Movie, i: nat, e: Episode): Movie
    requires i < |m.episodes|
  {
    m.(episodes := m.episodes[i := e])
  }

  /** The project is complete once every episode is out. */
  function CompleteIfAllOut(m: Movie): Movie {
    if InDelivery(m.status) && forall i :: 0 <= i < |m.episodes| ==> Out(m.episodes[i].status)
    then m.(status := Completed)
    else m
  }

  /** The release goes out now; only the publication and the project are checked again. */
  function Release(m: Movie, i: nat, p: nat, now: Time): Outcome<Movie, Refusal>
    requires i < |m.episodes| && p < |m.episodes[i].publications|
  {
    var e := m.episodes[i];
    if !Pending(e.publications[p]) then Err(Changed)
    else if !Releasing(m.status) then Err(WrongProject)
    else
      var released := e.(publications := e.publications[p := e.publications[p].(publishedAt := Some(now))],
                         status := Published, underRevision := false);
      Ok(CompleteIfAllOut(Replaced(m, i, released)))
  }

  /** The pending publication of an episode, given a new date or created. */
  function WithPending(e: Episode, scheduledAt: Option<Time>): (r: Episode)
    requires e.approved.Some?
    ensures FirstPending(e.publications) < |r.publications|
  {
    var p := FirstPending(e.publications);
    if p < |e.publications|
    then e.(publications := e.publications[p := e.publications[p].(scheduledAt := scheduledAt)])
    else e.(publications := e.publications + [Publication(e.approved.value, scheduledAt, None, None)])
  }

  function Publish(m: Movie, i: nat, scheduledAt: Option<Time>, now: Time): Outcome<Movie, Refusal> {
    if i >= |m.episodes| then Err(NotFound)
    else if !Releasing(m.status) then Err(WrongProject)
    else if !Releasable(m.episodes[i].status) then Err(WrongEpisode)
    else if scheduledAt.Some? && scheduledAt.value <= now then Err(InThePast)
    else
      var e := m.episodes[i];
      var missing := MissingForRelease(m, e);
      if missing != [] || e.approved.None? then Err(CannotRelease(missing))
      else
        var ready := Replaced(m, i, WithPending(e, scheduledAt));
        if scheduledAt.Some? then Ok(Replaced(ready, i, ready.episodes[i].(status := Scheduled)))
        else Release(ready, i, FirstPending(e.publications), now)
  }

  datatype Mode = Revision | Removal

  function Unpublish(m: Movie, i: nat, p: nat, mode: Option<Mode>, now: Time): Outcome<Movie, Refusal> {
    if i >= |m.episodes| || p >= |m.episodes[i].publications| then Err(NotFound)
    else
      var e := m.episodes[i];
      var publication := e.publications[p];
      var live := publication.publishedAt.Some?;
      if publication.takenDownAt.Some? then Err(AlreadyTakenDown)
      else if e.status != (if live then Published else Scheduled) then Err(WrongEpisode)
      else if live && mode.None? then Err(ModeMissing)
      else
        var down := e.(publications := e.publications[p := publication.(takenDownAt := Some(now))]);
        if live && mode.value.Revision? then SendBack(m, i, down, publication.version)
        else Ok(Replaced(m, i, down.(status := if live then Unpublished else CompliancePassed)))
  }

  /** A published episode goes back to the studio; a completed project is under revision meanwhile. */
  function SendBack(m: Movie, i: nat, e: Episode, v: nat): Outcome<Movie, Refusal>
    requires i < |m.episodes|
  {
    if v >= |e.versions| then Err(NotFound)
    else
      match RequestChanges(e, v)
      case Err(r) => Err(r)
      case Ok(back) =>
        Ok(Replaced(m, i, back.(underRevision := true)).(status := if m.status.Completed? then UnderRevision else m.status))
  }

  // ---------------------------------------------------------------------------------------------
  // The project
  // ---------------------------------------------------------------------------------------------

  /** What an assignment checks outside the project: an active Creator, a fee, a milestone on every episode. */
  datatype Readiness = Readiness(creator: bool, funded: bool, milestones: bool)

  function Assign(m: Movie, ready: Readiness): Outcome<Movie, Refusal> {
    if !OpenProject(m.status) then Err(WrongProject)
    else if !ready.creator then Err(NoCreator)
    else if !ready.funded then Err(NotFunded)
    else if m.episodes == [] then Err(NoEpisodes)
    else if !ready.milestones then Err(NoMilestone)
    else Ok(m.(status := if m.status.Draft? then Assigned else m.status))
  }

  function AllAwaiting(episodes: seq<Episode>): (r: seq<Episode>)
    ensures |r| == |episodes|
    ensures forall i :: 0 <= i < |r| ==> r[i] == episodes[i].(status := AwaitingMedia)
  {
    seq(|episodes|, i requires 0 <= i < |episodes| => episodes[i].(status := AwaitingMedia))
  }

  /** `deadlines`: every episode has one that is not past. */
  function HandOff(m: Movie, deadlines: bool): Outcome<Movie, Refusal> {
    if !m.status.Assigned? then Err(WrongProject)
    else if !deadlines then Err(DeadlinePast)
    else Ok(m.(status := InProduction, episodes := AllAwaiting(m.episodes)))
  }

  function AddEpisode(m: Movie): Outcome<Movie, Refusal> {
    if !OpenProject(m.status) then Err(WrongProject)
    else Ok(m.(episodes := m.episodes + [Episode(InitialStatus(m.status), [], None, None, false, [])]))
  }

  function EverReleased(e: Episode): bool {
    exists p :: 0 <= p < |e.publications| && e.publications[p].publishedAt.Some?
  }

  function Withdrawn(e: Episode, now: Time): Episode {
    e.(publications := seq(|e.publications|, p requires 0 <= p < |e.publications| =>
         if Pending(e.publications[p]) then e.publications[p].(takenDownAt := Some(now)) else e.publications[p]),
       status := if e.status.Scheduled? then CompliancePassed else e.status)
  }

  function AllWithdrawn(episodes: seq<Episode>, now: Time): (r: seq<Episode>)
    ensures |r| == |episodes|
    ensures forall i :: 0 <= i < |r| ==> r[i] == Withdrawn(episodes[i], now)
  {
    seq(|episodes|, i requires 0 <= i < |episodes| => Withdrawn(episodes[i], now))
  }

  function Cancel(m: Movie, now: Time): Outcome<Movie, Refusal> {
    if !OpenProject(m.status) then Err(WrongProject)
    else if exists i :: 0 <= i < |m.episodes| && EverReleased(m.episodes[i]) then Err(AlreadyPublished)
    else Ok(m.(status := Cancelled, episodes := AllWithdrawn(m.episodes, now)))
  }

  function SetPrice(m: Movie, i: nat, price: nat): Outcome<Movie, Refusal> {
    if i >= |m.episodes| then Err(NotFound)
    else if m.status.Cancelled? then Err(WrongProject)
    else Ok(Replaced(m, i, m.episodes[i].(price := Some(price))))
  }

  function Describe(m: Movie, synopsis: bool, rated: bool): Outcome<Movie, Refusal> {
    if m.status.Cancelled? then Err(WrongProject) else Ok(m.(synopsis := synopsis, rated := rated))
  }

  // ---------------------------------------------------------------------------------------------
  // One call
  // ---------------------------------------------------------------------------------------------

  datatype Call =
    | AssignCall(ready: Readiness)
    | HandOffCall(deadlines: bool)
    | AddEpisodeCall
    | DescribeCall(synopsis: bool, rated: bool)
    | CancelCall(at: Time)
    | PriceCall(i: nat, price: nat)
    | SubmitCall(i: nat, committed: bool)
    | RetryCall(i: nat, v: nat)
    | AdvanceCall(i: nat, v: nat, to: Ingest)
    | ReadyCall(i: nat, v: nat)
    | FailCall(i: nat, v: nat)
    | ReviewCall(i: nat, v: nat, decision: Decision)
    | LabelCall(i: nat, v: nat, nonBlank: bool)
    | ComplianceCall(i: nat, v: nat, sheet: Sheet)
    | PublishCall(i: nat, scheduledAt: Option<Time>, at: Time)
    | UnpublishCall(i: nat, p: nat, mode: Option<Mode>, at: Time)
    | ReleaseCall(i: nat, p: nat, at: Time)

  function OnEpisode(m: Movie, i: nat, e: Outcome<Episode, Refusal>): Outcome<Movie, Refusal>
    requires i < |m.episodes|
  {
    match e
    case Err(r) => Err(r)
    case Ok(next) => Ok(Replaced(m, i, next))
  }

  /** The calls about the media of one episode. */
  function EpisodeCall(project: MovieStatus, e: Episode, c: Call): Outcome<Episode, Refusal> {
    match c
    case SubmitCall(_, committed) => Submit(project, e, committed)
    case RetryCall(_, v) => Retry(project, e, v)
    case AdvanceCall(_, v, to) => Ok(Advance(e, v, to))
    case ReadyCall(_, v) => Ok(MediaReady(e, v))
    case FailCall(_, v) => Ok(MediaFailed(e, v))
    case ReviewCall(_, v, decision) => Review(project, e, v, decision)
    case LabelCall(_, v, nonBlank) => ApplyLabel(project, e, v, nonBlank)
    case ComplianceCall(_, v, sheet) => Compliance(project, e, v, sheet)
    case _ => Err(NotFound)
  }

  predicate AboutMedia(c: Call) {
    c.SubmitCall? || c.RetryCall? || c.AdvanceCall? || c.ReadyCall? || c.FailCall? || c.ReviewCall? || c.LabelCall? || c.ComplianceCall?
  }

  function Answer(m: Movie, c: Call): Outcome<Movie, Refusal> {
    if AboutMedia(c) then
      if c.i >= |m.episodes| then Err(NotFound) else OnEpisode(m, c.i, EpisodeCall(m.status, m.episodes[c.i], c))
    else
      match c
      case AssignCall(ready) => Assign(m, ready)
      case HandOffCall(deadlines) => HandOff(m, deadlines)
      case AddEpisodeCall => AddEpisode(m)
      case DescribeCall(synopsis, rated) => Describe(m, synopsis, rated)
      case CancelCall(at) => Cancel(m, at)
      case PriceCall(i, price) => SetPrice(m, i, price)
      case PublishCall(i, scheduledAt, at) => Publish(m, i, scheduledAt, at)
      case UnpublishCall(i, p, mode, at) => Unpublish(m, i, p, mode, at)
      case ReleaseCall(i, p, at) =>
        if i >= |m.episodes| || p >= |m.episodes[i].publications| then Err(NotFound) else Release(m, i, p, at)
      case _ => Err(NotFound)
  }

  /** Attempts run one at a time: no pipeline step writes over a finished version. */
  predicate Timely(m: Movie, c: Call) {
    c.AdvanceCall? && c.i < |m.episodes| ==> !TooLate(m.episodes[c.i], c.v, c.to)
  }

  /** The project after one call; a refused call rolls back and changes nothing. */
  function Step(m: Movie, c: Call): Movie {
    var answer := Answer(m, c);
    if answer.Ok? then answer.value else m
  }
}
