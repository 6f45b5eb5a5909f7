/**
 * The revenue report: the same paid cycles grouped by plan with totals, and grouped by day. The loops
 * update a map of rows in place; both views are proved to be partitions of the same cycles.
 */
module Revenue {
  import opened Prelude
  import opened CoinBook
  import B = Billing

  type PlanId = nat
  type Day = int

  /** A PAID cycle of the range, with the plan it belongs to and when it was attempted. */
  datatype PaidCycle = PaidCycle(plan: PlanId, attemptedAt: Time, price: int, main: int, bonus: int)

  datatype Row = Row(cycles: nat, coins: int, main: int, bonus: int)

  const NO_CYCLES := Row(0, 0, 0, 0)

  function Plus(a: Row, b: Row): Row {
    Row(a.cycles + b.cycles, a.coins + b.coins, a.main + b.main, a.bonus + b.bonus)
  }

  /** The day of a moment, as the date part of its UTC text. */
  function DayOf(t: Time): Day {
    t / DAY_MS
  }

  datatype Grouping = ByPlan | ByDay

  /** The key of a row. */
  datatype Group = OfPlan(plan: PlanId) | OfDay(day: Day)

  /** What a cycle is grouped under. */
  function GroupOf(g: Grouping, c: PaidCycle): Group {
    if g.ByPlan? then OfPlan(c.plan) else OfDay(DayOf(c.attemptedAt))
  }

  /** What one cycle adds to its row; the rows by day show no price. */
  function AsRow(g: Grouping, c: PaidCycle): Row {
    Row(1, if g.ByPlan? then c.price else 0, c.main, c.bonus)
  }

  /** The sum over all cycles. */
  function Total(g: Grouping, cycles: seq<PaidCycle>): Row {
    if cycles == [] then NO_CYCLES else Plus(Total(g, cycles[..|cycles| - 1]), AsRow(g, cycles[|cycles| - 1]))
  }

  /** The sum over the cycles of one group. */
  function GroupTotal(g: Grouping, cycles: seq<PaidCycle>, group: Group): Row {
    if cycles == [] then NO_CYCLES
    else
      var c := cycles[|cycles| - 1];
      var before := GroupTotal(g, cycles[..|cycles| - 1], group);
      if GroupOf(g, c) == group then Plus(before, AsRow(g, c)) else before
  }

  predicate HasGroup(g: Grouping, cycles: seq<PaidCycle>, group: Group) {
    exists i :: 0 <= i < |cycles| && GroupOf(g, cycles[i]) == group
  }

  /** One row per group that occurs, and each row is the sum of exactly that group's cycles. */
  ghost predicate Grouped(g: Grouping, cycles: seq<PaidCycle>, rows: map<Group, Row>) {
    && (forall group :: group in rows <==> HasGroup(g, cycles, group))
    && (forall group :: group in rows ==> rows[group] == GroupTotal(g, cycles, group))
  }

  lemma {:induction false} NoGroupNoCycles(g: Grouping, cycles: seq<PaidCycle>, group: Group)
    requires !HasGroup(g, cycles, group)
    ensures GroupTotal(g, cycles, group) == NO_CYCLES
  {
    if cycles != [] {
      var before := cycles[..|cycles| - 1];
      assert forall i :: 0 <= i < |before| ==> before[i] == cycles[i];
      NoGroupNoCycles(g, before, group);
    }
  }

  /** The row a loop step writes. */
  function Added(g: Grouping, rows: map<Group, Row>, c: PaidCycle): map<Group, Row> {
    var group := GroupOf(g, c);
    rows[group := Plus(if group in rows then rows[group] else NO_CYCLES, AsRow(g, c))]
  }

  lemma AddedGroups(g: Grouping, cycles: seq<PaidCycle>, rows: map<Group, Row>, c: PaidCycle)
    requires Grouped(g, cycles, rows)
    ensures Grouped(g, cycles + [c], Added(g, rows, c))
  {
    var next := Added(g, rows, c);
    assert (cycles + [c])[..|cycles|] == cycles;
    forall group ensures group in next <==> HasGroup(g, cycles + [c], group) {
      assert (cycles + [c])[|cycles|] == c;
      assert forall i :: 0 <= i < |cycles| ==> (cycles + [c])[i] == cycles[i];
      assert HasGroup(g, cycles + [c], group) <==> HasGroup(g, cycles, group) || GroupOf(g, c) == group;
    }
    if GroupOf(g, c) !in rows {
      NoGroupNoCycles(g, cycles, GroupOf(g, c));
    }
  }

  // ---------------------------------------------------------------------------------------------
  // The rows partition the cycles
  // ---------------------------------------------------------------------------------------------

  /** Adds up the rows of some groups, in whatever order. */
  ghost function SumOf(rows: map<Group, Row>, groups: set<Group>): Row
    requires groups <= rows.Keys
  {
    if groups == {} then NO_CYCLES
    else
      var group :| group in groups;
      Plus(SumOf(rows, groups - {group}), rows[group])
  }

  /** The sum over rows does not depend on the order they are added in. */
  lemma {:induction false} SumTakesOut(rows: map<Group, Row>, groups: set<Group>, group: Group)
    requires groups <= rows.Keys && group in groups
    ensures SumOf(rows, groups) == Plus(SumOf(rows, groups - {group}), rows[group])
    decreases |groups|
  {
    var first :| first in groups && SumOf(rows, groups) == Plus(SumOf(rows, groups - {first}), rows[first]);
    if first == group {
      assert groups - {first} == groups - {group};
    } else {
      var both := groups - {first} - {group};
      assert both == groups - {group} - {first};
      SumTakesOut(rows, groups - {first}, group);
      SumTakesOut(rows, groups - {group}, first);
      assert SumOf(rows, groups) == Plus(Plus(SumOf(rows, both), rows[group]), rows[first]);
      assert SumOf(rows, groups - {group}) == Plus(SumOf(rows, both), rows[first]);
    }
  }

  lemma {:induction false} SumFrame(was: map<Group, Row>, rows: map<Group, Row>, groups: set<Group>)
    requires groups <= was.Keys && groups <= rows.Keys && forall group :: group in groups ==> was[group] == rows[group]
    ensures SumOf(was, groups) == SumOf(rows, groups)
    decreases |groups|
  {
    if groups != {} {
      var first :| first in groups && SumOf(was, groups) == Plus(SumOf(was, groups - {first}), was[first]);
      SumFrame(was, rows, groups - {first});
      SumTakesOut(rows, groups, first);
    }
  }

  lemma SumOfAdded(g: Grouping, rows: map<Group, Row>, c: PaidCycle)
    ensures SumOf(Added(g, rows, c), Added(g, rows, c).Keys) == Plus(SumOf(rows, rows.Keys), AsRow(g, c))
  {
    var next := Added(g, rows, c);
    var group := GroupOf(g, c);
    SumTakesOut(next, next.Keys, group);
    SumFrame(rows, next, rows.Keys - {group});
    assert next.Keys - {group} == rows.Keys - {group};
    if group in rows {
      SumTakesOut(rows, rows.Keys, group);
    } else {
      assert rows.Keys - {group} == rows.Keys;
    }
  }

  /** Grouping by anything at all counts every cycle exactly once: the rows add up to the total. */
  lemma {:induction false} RowsAddUp(g: Grouping, cycles: seq<PaidCycle>, rows: map<Group, Row>)
    requires Grouped(g, cycles, rows)
    ensures SumOf(rows, rows.Keys) == Total(g, cycles)
  {
    var built := Build(g, cycles);
    forall group ensures group in rows <==> group in built {}
    assert forall group :: group in rows ==> rows[group] == built[group];
    assert rows == built;
  }

  lemma {:induction false} Build(g: Grouping, cycles: seq<PaidCycle>) returns (rows: map<Group, Row>)
    ensures Grouped(g, cycles, rows) && SumOf(rows, rows.Keys) == Total(g, cycles)
  {
    if cycles == [] {
      rows := map[];
    } else {
      var last := |cycles| - 1;
      var before := Build(g, cycles[..last]);
      AddedGroups(g, cycles[..last], before, cycles[last]);
      SumOfAdded(g, before, cycles[last]);
      assert cycles[..last] + [cycles[last]] == cycles;
      rows := Added(g, before, cycles[last]);
    }
  }

  lemma {:induction false} TotalsAgree(cycles: seq<PaidCycle>)
    ensures Total(ByDay, cycles) == Total(ByPlan, cycles).(coins := 0) && Total(ByPlan, cycles).cycles == |cycles|
  {
    if cycles != [] { TotalsAgree(cycles[..|cycles| - 1]); }
  }

  /** So the two views of one range count the same cycles and the same main and bonus Coins. */
  lemma ViewsAgree(cycles: seq<PaidCycle>, byPlan: map<Group, Row>, byDay: map<Group, Row>)
    requires Grouped(ByPlan, cycles, byPlan) && Grouped(ByDay, cycles, byDay)
    ensures SumOf(byPlan, byPlan.Keys) == Total(ByPlan, cycles)
    ensures SumOf(byDay, byDay.Keys) == SumOf(byPlan, byPlan.Keys).(coins := 0)
    ensures SumOf(byPlan, byPlan.Keys).cycles == |cycles|
  {
    RowsAddUp(ByPlan, cycles, byPlan);
    RowsAddUp(ByDay, cycles, byDay);
    TotalsAgree(cycles);
  }

  // ---------------------------------------------------------------------------------------------
  // What the rows show
  // ---------------------------------------------------------------------------------------------

  /** `t` falls on the day that many days after the epoch. */
  predicate FallsOn(t: Time, day: Day) {
    day * 86_400_000 <= t < (day + 1) * 86_400_000
  }

  /** Two cycles share a row by day exactly when they were attempted on the same day, before the epoch too. */
  lemma SameRowExactly(c: PaidCycle, d: PaidCycle)
    ensures GroupOf(ByDay, c) == GroupOf(ByDay, d) <==> exists day :: FallsOn(c.attemptedAt, day) && FallsOn(d.attemptedAt, day)
    ensures GroupOf(ByPlan, c) == GroupOf(ByPlan, d) <==> c.plan == d.plan
    ensures exists day :: FallsOn(c.attemptedAt, day) && GroupOf(ByDay, c) == OfDay(day)
  {
    DayHolds(c.attemptedAt);
    DayHolds(d.attemptedAt);
    forall day | FallsOn(c.attemptedAt, day) && FallsOn(d.attemptedAt, day) ensures DayOf(c.attemptedAt) == DayOf(d.attemptedAt) {
      OneDay(c.attemptedAt, day, DayOf(c.attemptedAt));
      OneDay(d.attemptedAt, day, DayOf(d.attemptedAt));
    }
  }

  lemma DayHolds(t: Time)
    ensures FallsOn(t, DayOf(t))
  {
  }

  lemma OneDay(t: Time, a: Day, b: Day)
    requires FallsOn(t, a) && FallsOn(t, b)
    ensures a == b
  {
  }

  /** The cycles of one row, in order. */
  function CyclesOf(g: Grouping, cycles: seq<PaidCycle>, group: Group): seq<PaidCycle> {
    if cycles == [] then []
    else
      var c := cycles[|cycles| - 1];
      CyclesOf(g, cycles[..|cycles| - 1], group) + if GroupOf(g, c) == group then [c] else []
  }

  function PriceOf(c: PaidCycle): int { c.price }

  function MainOf(c: PaidCycle): int { c.main }

  function BonusPartOf(c: PaidCycle): int { c.bonus }

  /** One figure summed over the cycles. */
  function SumBy(cycles: seq<PaidCycle>, figure: PaidCycle -> int): int {
    if cycles == [] then 0 else SumBy(cycles[..|cycles| - 1], figure) + figure(cycles[|cycles| - 1])
  }

  /** Every column of a row is the sum of that figure over the row's cycles; rows by day show no price. */
  lemma {:induction false} RowShows(g: Grouping, cycles: seq<PaidCycle>, group: Group)
    ensures var own := CyclesOf(g, cycles, group);
            GroupTotal(g, cycles, group)
            == Row(|own|, if g.ByPlan? then SumBy(own, PriceOf) else 0, SumBy(own, MainOf), SumBy(own, BonusPartOf))
  {
    if cycles != [] {
      var rest := cycles[..|cycles| - 1];
      RowShows(g, rest, group);
      var before, c := CyclesOf(g, rest, group), cycles[|cycles| - 1];
      assert (before + [c])[..|before|] == before && before + [] == before;
    }
  }

  /** What billing promises about each paid cycle: its price is what was charged. */
  predicate Charged(c: PaidCycle) {
    c.price == c.main + c.bonus
  }

  /** With cycles as billed, Coins split into main and bonus in every row by plan and in the total. */
  lemma {:induction false} CoinsSplit(cycles: seq<PaidCycle>, plan: PlanId)
    requires forall i :: 0 <= i < |cycles| ==> Charged(cycles[i])
    ensures var all := Total(ByPlan, cycles); all.coins == all.main + all.bonus
    ensures var row := GroupTotal(ByPlan, cycles, OfPlan(plan)); row.coins == row.main + row.bonus
  {
    if cycles != [] {
      assert Charged(cycles[|cycles| - 1]);
      CoinsSplit(cycles[..|cycles| - 1], plan);
    }
  }

  function Reported(plan: PlanId, c: B.Cycle, at: Time): PaidCycle {
    PaidCycle(plan, at, c.price, c.main, c.bonus)
  }

  /** The paid cycles of a subscription in good standing are reported as charged. */
  lemma BilledIsCharged(s: B.State, id: B.SubscriptionId, k: nat, at: Time)
    requires B.Good(s, id) && k < |s.file.cycles| && s.file.cycles[k].paid
    ensures Charged(Reported(s.file.sub.plan, s.file.cycles[k], at))
  {
    B.GoodIsGapless(s, id);
  }

  // ---------------------------------------------------------------------------------------------
  // The report
  // ---------------------------------------------------------------------------------------------

  /** What one turn of a loop knows about the cycles so far. */
  lemma OneMore(g: Grouping, cycles: seq<PaidCycle>, i: nat, rows: map<Group, Row>)
    requires i < |cycles| && Grouped(g, cycles[..i], rows)
    ensures Grouped(g, cycles[..i + 1], Added(g, rows, cycles[i]))
    ensures Total(g, cycles[..i + 1]) == Plus(Total(g, cycles[..i]), AsRow(g, cycles[i]))
  {
    AddedGroups(g, cycles[..i], rows, cycles[i]);
    assert cycles[..i + 1] == cycles[..i] + [cycles[i]] && cycles[..i + 1][..i] == cycles[..i];
  }

  /** Revenue by plan with its totals. */
  method ReportByPlan(cycles: seq<PaidCycle>) returns (byPlan: map<Group, Row>, totals: Row)
    ensures Grouped(ByPlan, cycles, byPlan)
    ensures totals == Total(ByPlan, cycles) == SumOf(byPlan, byPlan.Keys)
  {
    byPlan := map[];
    var coins, main, bonus := 0, 0, 0;
    for i := 0 to |cycles|
      invariant Grouped(ByPlan, cycles[..i], byPlan)
      invariant Row(i, coins, main, bonus) == Total(ByPlan, cycles[..i])
    {
      var cycle := cycles[i];
      OneMore(ByPlan, cycles, i, byPlan);
      var plan := OfPlan(cycle.plan);
      var row := if plan in byPlan then byPlan[plan] else NO_CYCLES;
      byPlan := byPlan[plan := Row(row.cycles + 1, row.coins + cycle.price, row.main + cycle.main, row.bonus + cycle.bonus)];
      coins := coins + cycle.price;
      main := main + cycle.main;
      bonus := bonus + cycle.bonus;
    }
    assert cycles[..|cycles|] == cycles;
    RowsAddUp(ByPlan, cycles, byPlan);
    totals := Row(|cycles|, coins, main, bonus);
  }

  /** Revenue day by day. */
  method ReportByDay(cycles: seq<PaidCycle>) returns (byDay: map<Group, Row>)
    ensures Grouped(ByDay, cycles, byDay) && SumOf(byDay, byDay.Keys) == Total(ByDay, cycles)
  {
    byDay := map[];
    for i := 0 to |cycles|
      invariant Grouped(ByDay, cycles[..i], byDay)
    {
      var cycle := cycles[i];
      OneMore(ByDay, cycles, i, byDay);
      var day := OfDay(DayOf(cycle.attemptedAt));
      var row := if day in byDay then byDay[day] else NO_CYCLES;
      byDay := byDay[day := Row(row.cycles + 1, row.coins, row.main + cycle.main, row.bonus + cycle.bonus)];
    }
    assert cycles[..|cycles|] == cycles;
    RowsAddUp(ByDay, cycles, byDay);
  }
}
