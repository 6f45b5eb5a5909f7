/**
 * Token budgets: the Admin grants Token to Content Reviewers or takes part back, and they spend it on
 * production fees. Both ledgers only grow and every figure is a sum over them.
 */
module Tokens {
  import opened Prelude
  import D = Delivery

  type ReviewerId = nat
  type MovieId = nat

  datatype FeeKind = Initial | TopUp | Correction

  datatype FeeEntry = FeeEntry(movie: MovieId, payer: ReviewerId, kind: FeeKind, amount: int)

  /** A grant, or a take-back with a negative amount. */
  datatype GrantEntry = GrantEntry(reviewer: ReviewerId, amount: int)

  datatype Ledgers = Ledgers(grants: seq<GrantEntry>, fees: seq<FeeEntry>)

  datatype Refusal = WrongStatus | AlreadyAllocated | NotPositive | NotAllocated | NeedsReason | BelowZero | NotEnough(left: int)

  // ---------------------------------------------------------------------------------------------
  // Figures
  // ---------------------------------------------------------------------------------------------

  function GrantedTo(grants: seq<GrantEntry>, r: ReviewerId): int {
    if grants == [] then 0
    else GrantedTo(grants[..|grants| - 1], r) + if grants[|grants| - 1].reviewer == r then grants[|grants| - 1].amount else 0
  }

  function AllocatedBy(fees: seq<FeeEntry>, r: ReviewerId): int {
    if fees == [] then 0
    else AllocatedBy(fees[..|fees| - 1], r) + if fees[|fees| - 1].payer == r then fees[|fees| - 1].amount else 0
  }

  function Balance(l: Ledgers, r: ReviewerId): int {
    GrantedTo(l.grants, r) - AllocatedBy(l.fees, r)
  }

  function Fee(fees: seq<FeeEntry>, m: MovieId): int {
    if fees == [] then 0
    else Fee(fees[..|fees| - 1], m) + if fees[|fees| - 1].movie == m then fees[|fees| - 1].amount else 0
  }

  function Initials(fees: seq<FeeEntry>, m: MovieId): nat {
    if fees == [] then 0
    else
      var e := fees[|fees| - 1];
      Initials(fees[..|fees| - 1], m) + if e.movie == m && e.kind.Initial? then 1 else 0
  }

  function TotalGranted(grants: seq<GrantEntry>): int {
    if grants == [] then 0 else TotalGranted(grants[..|grants| - 1]) + grants[|grants| - 1].amount
  }

  lemma FeesAppended(fees: seq<FeeEntry>, e: FeeEntry, r: ReviewerId, m: MovieId)
    ensures AllocatedBy(fees + [e], r) == AllocatedBy(fees, r) + if e.payer == r then e.amount else 0
    ensures Fee(fees + [e], m) == Fee(fees, m) + if e.movie == m then e.amount else 0
    ensures Initials(fees + [e], m) == Initials(fees, m) + if e.movie == m && e.kind.Initial? then 1 else 0
  {
    assert (fees + [e])[..|fees|] == fees;
  }

  lemma GrantsAppended(grants: seq<GrantEntry>, e: GrantEntry, r: ReviewerId)
    ensures GrantedTo(grants + [e], r) == GrantedTo(grants, r) + if e.reviewer == r then e.amount else 0
    ensures TotalGranted(grants + [e]) == TotalGranted(grants) + e.amount
  {
    assert (grants + [e])[..|grants|] == grants;
  }

  // ---------------------------------------------------------------------------------------------
  // The calls
  // ---------------------------------------------------------------------------------------------

  /** Which fee entries a movie accepts, given its status and its fee so far. */
  function FeeAllowed(kind: FeeKind, amount: int, hasReason: bool, status: D.MovieStatus, total: int): Outcome<(), Refusal> {
    if kind.Initial? then
      if !status.Draft? then Err(WrongStatus)
      else if total != 0 then Err(AlreadyAllocated)
      else if amount <= 0 then Err(NotPositive)
      else Ok(())
    else if !D.OpenProject(status) && !status.UnderRevision? then Err(WrongStatus)
    else if total == 0 then Err(NotAllocated)
    else if !hasReason then Err(NeedsReason)
    else if kind.TopUp? && amount <= 0 then Err(NotPositive)
    else if kind.Correction? && (amount == 0 || total + amount <= 0) then Err(BelowZero)
    else Ok(())
  }

  function AddFee(l: Ledgers, m: MovieId, status: D.MovieStatus, payer: ReviewerId, kind: FeeKind, amount: int, hasReason: bool)
    : (Ledgers, Outcome<(), Refusal>)
  {
    var allowed := FeeAllowed(kind, amount, hasReason, status, Fee(l.fees, m));
    if allowed.Err? then (l, allowed)
    else if amount > 0 && Balance(l, payer) < amount then (l, Err(NotEnough(Balance(l, payer))))
    else (l.(fees := l.fees + [FeeEntry(m, payer, kind, amount)]), Ok(()))
  }

  function Signed(takeBack: bool, amount: int): int {
    if takeBack then -amount else amount
  }

  /** The amount is always positive; a take-back needs a reason and may not exceed what is left. */
  function AddGrant(l: Ledgers, r: ReviewerId, takeBack: bool, amount: nat, hasReason: bool): (Ledgers, Outcome<(), Refusal>) {
    if takeBack && !hasReason then (l, Err(NeedsReason))
    else if takeBack && amount > Balance(l, r) then (l, Err(NotEnough(Balance(l, r))))
    else (l.(grants := l.grants + [GrantEntry(r, Signed(takeBack, amount))]), Ok(()))
  }

  // ---------------------------------------------------------------------------------------------
  // What every run keeps
  // ---------------------------------------------------------------------------------------------

  predicate HasFee(fees: seq<FeeEntry>, m: MovieId) {
    exists i :: 0 <= i < |fees| && fees[i].movie == m
  }

  /** A movie with fee entries has exactly one INITIAL and a fee above zero; one without has neither. */
  predicate MovieOk(fees: seq<FeeEntry>, m: MovieId) {
    if HasFee(fees, m) then Initials(fees, m) == 1 && Fee(fees, m) > 0
    else Initials(fees, m) == 0 && Fee(fees, m) == 0
  }

  ghost predicate LedgersOk(l: Ledgers) {
    (forall r: ReviewerId :: Balance(l, r) >= 0) && (forall m: MovieId :: MovieOk(l.fees, m))
  }

  lemma AddFeeKeeps(l: Ledgers, m: MovieId, status: D.MovieStatus, payer: ReviewerId, kind: FeeKind, amount: int, hasReason: bool)
    requires LedgersOk(l)
    ensures LedgersOk(AddFee(l, m, status, payer, kind, amount, hasReason).0)
  {
    var (next, answer) := AddFee(l, m, status, payer, kind, amount, hasReason);
    if answer.Ok? {
      var e := FeeEntry(m, payer, kind, amount);
      forall r: ReviewerId ensures Balance(next, r) >= 0 {
        assert Balance(l, r) >= 0;
        FeesAppended(l.fees, e, r, m);
      }
      forall n: MovieId ensures MovieOk(next.fees, n) {
        assert MovieOk(l.fees, n);
        FeesAppended(l.fees, e, payer, n);
        assert HasFee(next.fees, n) <==> HasFee(l.fees, n) || n == m by {
          assert next.fees[|l.fees|] == e;
          assert forall i :: 0 <= i < |l.fees| ==> next.fees[i] == l.fees[i];
        }
      }
    }
  }

  lemma AddGrantKeeps(l: Ledgers, r: ReviewerId, takeBack: bool, amount: nat, hasReason: bool)
    requires LedgersOk(l)
    ensures LedgersOk(AddGrant(l, r, takeBack, amount, hasReason).0)
  {
    var (next, answer) := AddGrant(l, r, takeBack, amount, hasReason);
    if answer.Ok? {
      forall q: ReviewerId ensures Balance(next, q) >= 0 {
        assert Balance(l, q) >= 0;
        GrantsAppended(l.grants, GrantEntry(r, Signed(takeBack, amount)), q);
      }
    }
  }

  /** Which entries are accepted in a sound state: the branches of the checks, read as one condition. */
  lemma FeeVerdict(l: Ledgers, m: MovieId, status: D.MovieStatus, payer: ReviewerId, kind: FeeKind, amount: int, hasReason: bool)
    requires LedgersOk(l)
    ensures AddFee(l, m, status, payer, kind, amount, hasReason).1.Ok?
            <==> && amount <= Max(0, Balance(l, payer)) && Fee(l.fees, m) + amount > 0
                 && (kind.Initial? <==> !HasFee(l.fees, m))
                 && (if kind.Initial? then status.Draft? else hasReason && (D.OpenProject(status) || status.UnderRevision?))
                 && (kind.TopUp? ==> amount > 0) && amount != 0
  {
    assert MovieOk(l.fees, m) && Balance(l, payer) >= 0;
  }

  /** What an entry is refused for, the first reason that applies. */
  lemma FeeRefusals(l: Ledgers, m: MovieId, status: D.MovieStatus, payer: ReviewerId, kind: FeeKind, amount: int, hasReason: bool)
    requires LedgersOk(l)
    ensures var answer := AddFee(l, m, status, payer, kind, amount, hasReason).1;
            var misplaced := if kind.Initial? then !status.Draft? else status.Completed? || status.Cancelled?;
            && (answer == Err(WrongStatus) <==> misplaced)
            && (answer == Err(AlreadyAllocated) <==> kind.Initial? && !misplaced && HasFee(l.fees, m))
            && (answer == Err(NotAllocated) <==> !kind.Initial? && !misplaced && !HasFee(l.fees, m))
            && (answer == Err(NeedsReason) <==> !kind.Initial? && !misplaced && HasFee(l.fees, m) && !hasReason)
            && (answer == Err(NotPositive) ==> amount <= 0 && !kind.Correction?)
            && (answer == Err(BelowZero) ==> kind.Correction? && (amount == 0 || Fee(l.fees, m) + amount <= 0))
            && (answer.Err? && answer.error.NotEnough? ==> Balance(l, payer) < amount)
  {
    assert MovieOk(l.fees, m);
  }

  /**
   * What an accepted fee entry moves: the movie's fee goes up by what the Reviewer's balance goes down, or
   * the other way round for a correction, and nobody else's figures change.
   */
  lemma FeeEffect(l: Ledgers, m: MovieId, status: D.MovieStatus, payer: ReviewerId, kind: FeeKind, amount: int, hasReason: bool,
                  other: ReviewerId, elsewhere: MovieId)
    requires other != payer && elsewhere != m
    ensures var (next, answer) := AddFee(l, m, status, payer, kind, amount, hasReason);
            if answer.Ok? then
              && Balance(next, payer) == Balance(l, payer) - amount && Fee(next.fees, m) == Fee(l.fees, m) + amount
              && Balance(next, other) == Balance(l, other) && Fee(next.fees, elsewhere) == Fee(l.fees, elsewhere)
              && Initials(next.fees, m) == Initials(l.fees, m) + (if kind.Initial? then 1 else 0) && next.grants == l.grants
              && |next.fees| == |l.fees| + 1 && next.fees[..|l.fees|] == l.fees && next.fees[|l.fees|].kind == kind
            else next == l && (answer.error.NotEnough? ==> answer.error.left == Balance(l, payer) < amount)
  {
    var e := FeeEntry(m, payer, kind, amount);
    FeesAppended(l.fees, e, payer, m);
    FeesAppended(l.fees, e, other, elsewhere);
  }

  /**
   * A grant always goes through and raises the balance by its amount; a take-back lowers it by its amount,
   * and goes through exactly with a reason and within what is left. No fee and nobody else is touched.
   */
  lemma GrantVerdict(l: Ledgers, r: ReviewerId, takeBack: bool, amount: nat, hasReason: bool, other: ReviewerId)
    requires other != r
    ensures var (next, answer) := AddGrant(l, r, takeBack, amount, hasReason);
            && (answer.Ok? <==> !takeBack || (hasReason && amount <= Balance(l, r)))
            && next.fees == l.fees
            && if answer.Ok? then
                 && Balance(next, r) == (if takeBack then Balance(l, r) - amount else Balance(l, r) + amount)
                 && TotalGranted(next.grants) == (if takeBack then TotalGranted(l.grants) - amount else TotalGranted(l.grants) + amount)
                 && Balance(next, other) == Balance(l, other)
               else next == l && answer.error == (if hasReason then NotEnough(Balance(l, r)) else NeedsReason)
  {
    var e := GrantEntry(r, Signed(takeBack, amount));
    GrantsAppended(l.grants, e, r);
    GrantsAppended(l.grants, e, other);
    var (next, answer) := AddGrant(l, r, takeBack, amount, hasReason);
    assert answer.Ok? ==> next.grants == l.grants + [e];
    assert e.amount == if takeBack then 0 - amount else amount;
  }

  /** A take-back undoes a grant of the same amount, for everybody's figures. */
  lemma TakeBackUndoes(l: Ledgers, r: ReviewerId, amount: nat, who: ReviewerId)
    requires LedgersOk(l)
    ensures var granted := AddGrant(l, r, false, amount, false).0;
            var (back, answer) := AddGrant(granted, r, true, amount, true);
            answer.Ok? && Balance(back, who) == Balance(l, who) && TotalGranted(back.grants) == TotalGranted(l.grants)
  {
    var granted := AddGrant(l, r, false, amount, false).0;
    GrantsAppended(l.grants, GrantEntry(r, amount), r);
    GrantsAppended(l.grants, GrantEntry(r, amount), who);
    GrantsAppended(granted.grants, GrantEntry(r, 0 - amount), who);
    assert Balance(l, r) >= 0;
  }

  datatype Call =
    | FeeCall(m: MovieId, status: D.MovieStatus, payer: ReviewerId, kind: FeeKind, amount: int, hasReason: bool)
    | GrantCall(r: ReviewerId, takeBack: bool, given: nat, hasReason: bool)

  function Apply(l: Ledgers, c: Call): Ledgers {
    match c
    case FeeCall(m, status, payer, kind, amount, hasReason) => AddFee(l, m, status, payer, kind, amount, hasReason).0
    case GrantCall(r, takeBack, amount, hasReason) => AddGrant(l, r, takeBack, amount, hasReason).0
  }

  function After(l: Ledgers, calls: seq<Call>): Ledgers {
    if calls == [] then l else Apply(After(l, calls[..|calls| - 1]), calls[|calls| - 1])
  }

  const EMPTY := Ledgers([], [])

  /** No Reviewer ever owes Token; a funded movie keeps its one INITIAL entry and a fee above zero. */
  lemma {:induction false} EveryRunBalances(calls: seq<Call>)
    ensures LedgersOk(After(EMPTY, calls))
  {
    if calls != [] {
      EveryRunBalances(calls[..|calls| - 1]);
      match calls[|calls| - 1]
      case FeeCall(m, status, payer, kind, amount, hasReason) =>
        AddFeeKeeps(After(EMPTY, calls[..|calls| - 1]), m, status, payer, kind, amount, hasReason);
      case GrantCall(r, takeBack, amount, hasReason) =>
        AddGrantKeeps(After(EMPTY, calls[..|calls| - 1]), r, takeBack, amount, hasReason);
    }
  }

  /** Entries are never taken away, so a movie funded once stays funded in every later state. */
  lemma {:induction false} FundedForever(l: Ledgers, calls: seq<Call>, m: MovieId)
    requires LedgersOk(l) && HasFee(l.fees, m)
    ensures var later := After(l, calls);
            LedgersOk(later) && l.fees <= later.fees && Initials(later.fees, m) == 1 && Fee(later.fees, m) > 0
  {
    if calls != [] {
      var before := After(l, calls[..|calls| - 1]);
      FundedForever(l, calls[..|calls| - 1], m);
      match calls[|calls| - 1]
      case FeeCall(n, status, payer, kind, amount, hasReason) => AddFeeKeeps(before, n, status, payer, kind, amount, hasReason);
      case GrantCall(r, takeBack, amount, hasReason) => AddGrantKeeps(before, r, takeBack, amount, hasReason);
    }
    var later := After(l, calls);
    var i :| 0 <= i < |l.fees| && l.fees[i].movie == m;
    assert later.fees[i].movie == m;
    assert MovieOk(later.fees, m);
  }

  // ---------------------------------------------------------------------------------------------
  // The two ways to add everything up
  // ---------------------------------------------------------------------------------------------

  predicate NoRepeats(ids: seq<nat>) {
    forall i, j :: 0 <= i < j < |ids| ==> ids[i] != ids[j]
  }

  function Balances(l: Ledgers, reviewers: seq<ReviewerId>): int {
    if reviewers == [] then 0 else Balances(l, reviewers[1..]) + Balance(l, reviewers[0])
  }

  function Fees(fees: seq<FeeEntry>, movies: seq<MovieId>): int {
    if movies == [] then 0 else Fees(fees, movies[1..]) + Fee(fees, movies[0])
  }

  lemma {:induction false} NothingYet(reviewers: seq<ReviewerId>, movies: seq<MovieId>)
    ensures Balances(EMPTY, reviewers) == 0 && Fees([], movies) == 0
    decreases |reviewers| + |movies|
  {
    if reviewers != [] { NothingYet(reviewers[1..], movies); }
    if movies != [] { NothingYet(reviewers, movies[1..]); }
  }

  lemma {:induction false} BalancesAfterFee(l: Ledgers, e: FeeEntry, reviewers: seq<ReviewerId>)
    requires NoRepeats(reviewers)
    ensures Balances(l.(fees := l.fees + [e]), reviewers) == Balances(l, reviewers) - if e.payer in reviewers then e.amount else 0
  {
    if reviewers != [] {
      FeesAppended(l.fees, e, reviewers[0], 0);
      BalancesAfterFee(l, e, reviewers[1..]);
    }
  }

  lemma {:induction false} BalancesAfterGrant(l: Ledgers, e: GrantEntry, reviewers: seq<ReviewerId>)
    requires NoRepeats(reviewers)
    ensures Balances(l.(grants := l.grants + [e]), reviewers)
            == Balances(l, reviewers) + if e.reviewer in reviewers then e.amount else 0
  {
    if reviewers != [] {
      GrantsAppended(l.grants, e, reviewers[0]);
      BalancesAfterGrant(l, e, reviewers[1..]);
    }
  }

  lemma {:induction false} FeesAfter(fees: seq<FeeEntry>, e: FeeEntry, movies: seq<MovieId>)
    requires NoRepeats(movies)
    ensures Fees(fees + [e], movies) == Fees(fees, movies) + if e.movie in movies then e.amount else 0
  {
    if movies != [] {
      FeesAppended(fees, e, 0, movies[0]);
      FeesAfter(fees, e, movies[1..]);
    }
  }

  /** Every Reviewer and every movie the ledgers name. */
  predicate Names(l: Ledgers, reviewers: seq<ReviewerId>, movies: seq<MovieId>) {
    && (forall i :: 0 <= i < |l.grants| ==> l.grants[i].reviewer in reviewers)
    && (forall i :: 0 <= i < |l.fees| ==> l.fees[i].payer in reviewers && l.fees[i].movie in movies)
  }

  /** Everything granted, net of take-backs, is either left with a Reviewer or in the fee of a movie. */
  lemma {:induction false} TokensConserve(l: Ledgers, reviewers: seq<ReviewerId>, movies: seq<MovieId>)
    requires NoRepeats(reviewers) && NoRepeats(movies) && Names(l, reviewers, movies)
    ensures TotalGranted(l.grants) == Balances(l, reviewers) + Fees(l.fees, movies)
    decreases |l.grants| + |l.fees|
  {
    if l.fees != [] {
      var last := |l.fees| - 1;
      var before := l.(fees := l.fees[..last]);
      TokensConserve(before, reviewers, movies);
      BalancesAfterFee(before, l.fees[last], reviewers);
      FeesAfter(before.fees, l.fees[last], movies);
      assert l.fees == before.fees + [l.fees[last]];
    } else if l.grants != [] {
      var last := |l.grants| - 1;
      var before := l.(grants := l.grants[..last]);
      TokensConserve(before, reviewers, movies);
      BalancesAfterGrant(before, l.grants[last], reviewers);
      assert l.grants == before.grants + [l.grants[last]];
    } else {
      NothingYet(reviewers, movies);
      assert l == EMPTY;
    }
  }

  // ---------------------------------------------------------------------------------------------
  // The services
  // ---------------------------------------------------------------------------------------------

  class TokenDesk {
    var grants: seq<GrantEntry>
    var fees: seq<FeeEntry>

    ghost function Now(): Ledgers
      reads this
    {
      Ledgers(grants, fees)
    }

    constructor ()
      ensures Now() == EMPTY && LedgersOk(Now())
    {
      grants, fees := [], [];
      new;
      EveryRunBalances([]);
    }

    /** What a Reviewer was granted, allocated and has left. */
    method ReadBalance(r: ReviewerId) returns (granted: int, spent: int, left: int)
      ensures granted == GrantedTo(grants, r) && spent == AllocatedBy(fees, r) && left == Balance(Now(), r)
    {
      granted, spent := 0, 0;
      for i := 0 to |grants|
        invariant granted == GrantedTo(grants[..i], r)
      {
        assert grants[..i + 1][..i] == grants[..i];
        if grants[i].reviewer == r { granted := granted + grants[i].amount; }
      }
      for i := 0 to |fees|
        invariant spent == AllocatedBy(fees[..i], r)
      {
        assert fees[..i + 1][..i] == fees[..i];
        if fees[i].payer == r { spent := spent + fees[i].amount; }
      }
      assert grants[..|grants|] == grants && fees[..|fees|] == fees;
      left := granted - spent;
    }

    method TotalTokens(m: MovieId) returns (total: int)
      ensures total == Fee(fees, m)
    {
      total := 0;
      for i := 0 to |fees|
        invariant total == Fee(fees[..i], m)
      {
        assert fees[..i + 1][..i] == fees[..i];
        if fees[i].movie == m { total := total + fees[i].amount; }
      }
      assert fees[..|fees|] == fees;
    }

    /** Spending must stay within the caller's balance; returning Token never fails. */
    method AssertCanSpend(r: ReviewerId, amount: int) returns (answer: Outcome<(), Refusal>)
      ensures answer == if amount > 0 && Balance(Now(), r) < amount then Err(NotEnough(Balance(Now(), r))) else Ok(())
    {
      if amount <= 0 { return Ok(()); }
      var granted, spent, left := ReadBalance(r);
      if left < amount { return Err(NotEnough(left)); }
      return Ok(());
    }

    /** A fee entry of a movie, paid out of the caller's own budget. */
    method AddFeeEntry(m: MovieId, status: D.MovieStatus, payer: ReviewerId, kind: FeeKind, amount: int, hasReason: bool)
      returns (answer: Outcome<(), Refusal>)
      requires LedgersOk(Now())
      modifies this`fees
      ensures (Now(), answer) == AddFee(old(Now()), m, status, payer, kind, amount, hasReason)
      ensures LedgersOk(Now())
    {
      AddFeeKeeps(Now(), m, status, payer, kind, amount, hasReason);
      var total := TotalTokens(m);
      answer := FeeAllowed(kind, amount, hasReason, status, total);
      if answer.Err? { return; }
      answer := AssertCanSpend(payer, amount);
      if answer.Err? { return; }
      fees := fees + [FeeEntry(m, payer, kind, amount)];
    }

    /** Appends one signed entry to `grants`; a take-back needs a reason and enough balance. */
    method AddReviewerEntry(r: ReviewerId, takeBack: bool, amount: nat, hasReason: bool) returns (answer: Outcome<(), Refusal>)
      requires LedgersOk(Now())
      modifies this`grants
      ensures (Now(), answer) == AddGrant(old(Now()), r, takeBack, amount, hasReason)
      ensures LedgersOk(Now())
    {
      AddGrantKeeps(Now(), r, takeBack, amount, hasReason);
      if takeBack && !hasReason { return Err(NeedsReason); }
      if takeBack {
        var granted, spent, left := ReadBalance(r);
        if amount > left { return Err(NotEnough(left)); }
      }
      grants := grants + [GrantEntry(r, Signed(takeBack, amount))];
      return Ok(());
    }
  }
}
