/** The spend ledger of harness/spend.py.  Amounts are exact integers, so the source's 1e-12
    tolerance is equality. */
module SpendLedger {
  import opened Wrappers

  datatype Row = Row(provider: string, model: string, cost: int, reserved: bool)

  datatype Outcome =
    | Done
    | CapExceeded(committed: int)
    | NoMatch      // "matching spend reservation not found"
    | BadValue     // a negative amount was passed
    | BadLedger    // a stored row has a negative cost

  datatype Summary = Summary(removed: nat, reservedRemoved: int, settledEntries: nat, total: int)

  // ----- Totals -----

  function Committed(rows: seq<Row>): int {
    if rows == [] then 0 else Committed(rows[..|rows| - 1]) + rows[|rows| - 1].cost
  }

  function Settled(rows: seq<Row>): int {
    if rows == [] then 0
    else Settled(rows[..|rows| - 1]) + (if rows[|rows| - 1].reserved then 0 else rows[|rows| - 1].cost)
  }

  predicate Nonnegative(rows: seq<Row>) {
    forall k :: 0 <= k < |rows| ==> rows[k].cost >= 0
  }

  predicate SettledNonnegative(rows: seq<Row>) {
    forall k :: 0 <= k < |rows| && !rows[k].reserved ==> rows[k].cost >= 0
  }

  /** The reservations that have not been settled, as a bag. */
  ghost function Outstanding(rows: seq<Row>): multiset<Row> {
    if rows == [] then multiset{}
    else
      var last := rows[|rows| - 1];
      Outstanding(rows[..|rows| - 1]) + (if last.reserved then multiset{last} else multiset{})
  }

  // ----- The three operations on rows -----

  /** The latest position of a row. */
  function LastOf(rows: seq<Row>, key: Row): (r: Option<nat>)
    ensures r.Some? ==> r.value < |rows| && rows[r.value] == key
    ensures r.Some? ==> forall k :: r.value < k < |rows| ==> rows[k] != key
    ensures r.None? ==> key !in rows
  {
    if rows == [] then None
    else if rows[|rows| - 1] == key then Some(|rows| - 1)
    else LastOf(rows[..|rows| - 1], key)
  }

  function SettledRow(key: Row, actual: int): Row {
    Row(key.provider, key.model, actual, false)
  }

  function SettleRows(rows: seq<Row>, key: Row, actual: int): Option<seq<Row>> {
    var i := LastOf(rows, key);
    if i.None? then None else Some(rows[i.value := SettledRow(key, actual)])
  }

  function OnlySettled(rows: seq<Row>): seq<Row> {
    if rows == [] then []
    else
      var last := rows[|rows| - 1];
      OnlySettled(rows[..|rows| - 1]) + (if last.reserved then [] else [last])
  }

  function OnlyReserved(rows: seq<Row>): seq<Row> {
    if rows == [] then []
    else
      var last := rows[|rows| - 1];
      OnlyReserved(rows[..|rows| - 1]) + (if last.reserved then [last] else [])
  }

  // ----- What the operations do to the totals -----

  lemma AppendRow(rows: seq<Row>, row: Row)
    ensures Committed(rows + [row]) == Committed(rows) + row.cost
    ensures Settled(rows + [row]) == Settled(rows) + (if row.reserved then 0 else row.cost)
    ensures Outstanding(rows + [row]) == Outstanding(rows) + (if row.reserved then multiset{row} else multiset{})
  {
    assert (rows + [row])[..|rows|] == rows;
  }

  lemma {:induction false} ReplaceTotals(rows: seq<Row>, i: nat, row: Row)
    requires i < |rows| && rows[i].reserved && !row.reserved
    ensures Committed(rows[i := row]) == Committed(rows) - rows[i].cost + row.cost
    ensures Settled(rows[i := row]) == Settled(rows) + row.cost
  {
    var n := |rows| - 1;
    if i == n {
      assert rows[i := row][..n] == rows[..n];
    } else {
      assert rows[i := row][..n] == rows[..n][i := row];
      ReplaceTotals(rows[..n], i, row);
    }
  }

  ghost function Reservation(row: Row): multiset<Row> {
    if row.reserved then multiset{row} else multiset{}
  }

  lemma OutstandingLast(rows: seq<Row>)
    requires rows != []
    ensures Outstanding(rows) == Outstanding(rows[..|rows| - 1]) + Reservation(rows[|rows| - 1])
  {
  }

  lemma BagLess(bag: multiset<Row>, more: multiset<Row>, key: Row)
    requires key in bag
    ensures key in bag + more && bag - multiset{key} + more == bag + more - multiset{key}
  {
  }

  lemma {:induction false} ReplaceOutstanding(rows: seq<Row>, i: nat, row: Row)
    requires i < |rows| && rows[i].reserved && !row.reserved
    ensures rows[i] in Outstanding(rows)
    ensures Outstanding(rows[i := row]) == Outstanding(rows) - multiset{rows[i]}
  {
    hide Outstanding;
    var n, after := |rows| - 1, rows[i := row];
    OutstandingLast(rows);
    OutstandingLast(after);
    if i == n {
      assert after[..n] == rows[..n];
      assert Outstanding(rows[..n]) + multiset{rows[n]} - multiset{rows[n]} == Outstanding(rows[..n]);
    } else {
      assert after[..n] == rows[..n][i := row] && after[n] == rows[n] && rows[..n][i] == rows[i];
      ReplaceOutstanding(rows[..n], i, row);
      BagLess(Outstanding(rows[..n]), Reservation(rows[n]), rows[i]);
    }
  }

  lemma {:induction false} OutstandingMembers(rows: seq<Row>, key: Row)
    requires key.reserved
    ensures key in Outstanding(rows) <==> key in rows
  {
    if rows != [] {
      OutstandingMembers(rows[..|rows| - 1], key);
      assert rows == rows[..|rows| - 1] + [rows[|rows| - 1]];
    }
  }

  /** A settlement finds a match exactly when the reservation is outstanding, takes exactly
      one such reservation out, and moves its actual cost to the settled total. */
  lemma SettleEffect(rows: seq<Row>, key: Row, actual: int)
    requires key.reserved
    ensures SettleRows(rows, key, actual).Some? <==> key in Outstanding(rows)
    ensures SettleRows(rows, key, actual).Some? ==>
              var after := SettleRows(rows, key, actual).value;
              && Outstanding(after) == Outstanding(rows) - multiset{key}
              && Settled(after) == Settled(rows) + actual
              && Committed(after) == Committed(rows) - key.cost + actual
              && multiset(after) == multiset(rows) - multiset{key} + multiset{SettledRow(key, actual)}
  {
    OutstandingMembers(rows, key);
    var i := LastOf(rows, key);
    if i.Some? {
      ReplaceTotals(rows, i.value, SettledRow(key, actual));
      ReplaceOutstanding(rows, i.value, SettledRow(key, actual));
    }
  }

  lemma BagSwap(bag: multiset<Row>, k1: Row, s1: Row, k2: Row, s2: Row)
    requires k1 in bag && k2 in bag - multiset{k1} && s1 != k2 && s2 != k1
    ensures bag - multiset{k1} + multiset{s1} - multiset{k2} + multiset{s2} ==
            bag - multiset{k2} + multiset{s2} - multiset{k1} + multiset{s1}
  {
  }

  /** Settling one reservation and then another. */
  function SettleBoth(rows: seq<Row>, k1: Row, a1: int, k2: Row, a2: int): Option<seq<Row>> {
    var first := SettleRows(rows, k1, a1);
    if first.None? then None else SettleRows(first.value, k2, a2)
  }

  lemma PairIn(bag: multiset<Row>, k1: Row, k2: Row)
    ensures multiset{k1, k2} <= bag <==> k1 in bag && k2 in bag - multiset{k1}
  {
  }

  lemma SettleBothEffect(rows: seq<Row>, k1: Row, a1: int, k2: Row, a2: int)
    requires k1.reserved && k2.reserved
    ensures SettleBoth(rows, k1, a1, k2, a2).Some? <==> multiset{k1, k2} <= Outstanding(rows)
    ensures SettleBoth(rows, k1, a1, k2, a2).Some? ==>
              && k1 in multiset(rows) && k2 in multiset(rows) - multiset{k1}
              && multiset(SettleBoth(rows, k1, a1, k2, a2).value) ==
                 multiset(rows) - multiset{k1} + multiset{SettledRow(k1, a1)}
                                - multiset{k2} + multiset{SettledRow(k2, a2)}
  {
    hide SettleRows, Committed, Settled, Outstanding;
    SettleEffect(rows, k1, a1);
    OutstandingMembers(rows, k1);
    PairIn(Outstanding(rows), k1, k2);
    var first := SettleRows(rows, k1, a1);
    if first.Some? {
      SettleEffect(first.value, k2, a2);
      OutstandingMembers(first.value, k2);
      if k2 in Outstanding(first.value) {
        assert k2 in multiset(first.value) && k2 != SettledRow(k1, a1);
      }
    }
  }

  /** Two settlements commute up to row order, even when both reservations look the same and
      each would pick the other's row. */
  lemma SettlementsCommute(rows: seq<Row>, k1: Row, a1: int, k2: Row, a2: int)
    requires k1.reserved && k2.reserved
    ensures var oneTwo, twoOne := SettleBoth(rows, k1, a1, k2, a2), SettleBoth(rows, k2, a2, k1, a1);
            && (oneTwo.Some? <==> twoOne.Some?)
            && (oneTwo.Some? ==> multiset(oneTwo.value) == multiset(twoOne.value))
  {
    hide SettleBoth, Outstanding;
    SettleBothEffect(rows, k1, a1, k2, a2);
    SettleBothEffect(rows, k2, a2, k1, a1);
    if SettleBoth(rows, k1, a1, k2, a2).Some? {
      BagSwap(multiset(rows), k1, SettledRow(k1, a1), k2, SettledRow(k2, a2));
    }
  }

  /** Reconciling leaves nothing reserved, keeps the settled total, and lowers the committed
      total by what was reserved. */
  lemma {:induction false} ReconcileEffect(rows: seq<Row>)
    ensures Outstanding(OnlySettled(rows)) == multiset{}
    ensures Settled(OnlySettled(rows)) == Settled(rows)
    ensures Committed(OnlySettled(rows)) == Settled(rows)
    ensures Committed(rows) == Settled(rows) + Committed(OnlyReserved(rows))
  {
    hide Committed, Settled, Outstanding, OnlySettled, OnlyReserved;
    if rows == [] {
      NoRows();
    } else {
      var last, front := rows[|rows| - 1], rows[..|rows| - 1];
      SplitLast(rows);
      AppendRow(front, last);
      assert rows == front + [last];
      ReconcileEffect(front);
      if last.reserved {
        AppendRow(OnlyReserved(front), last);
      } else {
        AppendRow(OnlySettled(front), last);
      }
    }
  }

  lemma NoRows()
    ensures OnlySettled([]) == OnlyReserved([]) == [] && Settled([]) == Committed([]) == 0
            && Outstanding([]) == multiset{}
  {
  }

  lemma SplitLast(rows: seq<Row>)
    requires rows != []
    ensures var last, front := rows[|rows| - 1], rows[..|rows| - 1];
            && OnlySettled(rows) == (if last.reserved then OnlySettled(front) else OnlySettled(front) + [last])
            && OnlyReserved(rows) == (if last.reserved then OnlyReserved(front) + [last] else OnlyReserved(front))
  {
  }

  ghost function Bag(rows: seq<Row>): multiset<Row> {
    multiset(rows)
  }

  lemma BagOfLast(front: seq<Row>, last: Row)
    ensures Bag(front + [last]) == Bag(front) + multiset{last}
  {
  }

  lemma {:induction false} ReservedBag(rows: seq<Row>)
    ensures Bag(OnlyReserved(rows)) == Outstanding(rows)
  {
    hide Outstanding, OnlySettled, OnlyReserved, Bag;
    if rows == [] {
      NoBags();
    } else {
      var last, front := rows[|rows| - 1], rows[..|rows| - 1];
      SplitLast(rows);
      OutstandingLast(rows);
      ReservedBag(front);
      if last.reserved {
        BagOfLast(OnlyReserved(front), last);
      }
    }
  }

  ghost function Join(a: multiset<Row>, b: multiset<Row>): multiset<Row> {
    a + b
  }

  lemma JoinMoves(a: multiset<Row>, b: multiset<Row>, c: multiset<Row>)
    ensures Join(Join(a, b), c) == Join(a, Join(b, c)) == Join(Join(a, c), b)
  {
    assert a + b + c == a + (b + c) && a + b + c == a + c + b;
  }

  lemma JoinLast(front: seq<Row>, last: Row)
    ensures Bag(front + [last]) == Join(Bag(front), multiset{last})
  {
  }

  lemma {:induction false} SplitBags(rows: seq<Row>)
    ensures Bag(rows) == Join(Bag(OnlySettled(rows)), Bag(OnlyReserved(rows)))
  {
    hide OnlySettled, OnlyReserved, Bag, Join;
    if rows == [] {
      NoBags();
    } else {
      var last, front := rows[|rows| - 1], rows[..|rows| - 1];
      SplitLast(rows);
      SplitBags(front);
      assert rows == front + [last];
      JoinLast(front, last);
      JoinMoves(Bag(OnlySettled(front)), Bag(OnlyReserved(front)), multiset{last});
      if last.reserved {
        JoinLast(OnlyReserved(front), last);
      } else {
        JoinLast(OnlySettled(front), last);
      }
    }
  }

  lemma NoBags()
    ensures Bag([]) == Join(Bag(OnlySettled([])), Bag(OnlyReserved([])))
    ensures Bag(OnlyReserved([])) == Outstanding([])
  {
  }

  /** It loses no row: the removed and the kept ones together are the rows there were. */
  lemma ReconcileSplits(rows: seq<Row>)
    ensures multiset(OnlyReserved(rows)) == Outstanding(rows)
    ensures multiset(rows) == multiset(OnlySettled(rows)) + multiset(OnlyReserved(rows))
  {
    hide Outstanding, OnlySettled, OnlyReserved;
    ReservedBag(rows);
    SplitBags(rows);
  }

  // ----- The ledger -----

  class Ledger {
    var runs: seq<Row>
    var totalUsd: int

    constructor ()
      ensures runs == [] && totalUsd == 0
    {
      runs, totalUsd := [], 0;
    }

    /** Adds a row unless the committed total, reservations included, would pass the cap. */
    method Reserve(cost: int, provider: string, model: string, cap: int, reservation: bool) returns (o: Outcome)
      modifies this
      ensures cost < 0 ==> o == BadValue
      ensures cost >= 0 && !Nonnegative(old(runs)) ==> o == BadLedger
      ensures cost >= 0 && Nonnegative(old(runs)) ==>
                o == if old(Committed(runs)) + cost > cap then CapExceeded(old(Committed(runs)) + cost) else Done
      ensures o != Done ==> runs == old(runs) && totalUsd == old(totalUsd)
      ensures o == Done ==> runs == old(runs) + [Row(provider, model, cost, reservation)] && totalUsd == Settled(runs)
    {
      if cost < 0 {
        return BadValue;
      }
      if !Nonnegative(runs) {
        return BadLedger;
      }
      var committed := Committed(runs);
      if committed + cost > cap {
        return CapExceeded(committed + cost);
      }
      runs := runs + [Row(provider, model, cost, reservation)];
      totalUsd := Settled(runs);
      o := Done;
    }

    /** Replaces the latest matching reservation by the actual cost.  The new rows are saved
        even when the caller is then told that the cap was passed. */
    method Settle(reserved: int, actual: int, provider: string, model: string, cap: int) returns (o: Outcome)
      modifies this
      ensures var key := Row(provider, model, reserved, true);
              var after := SettleRows(old(runs), key, actual);
              if reserved < 0 || actual < 0 then o == BadValue && Unchanged(old(runs), old(totalUsd))
              else if !SettledNonnegative(old(runs)) then o == BadLedger && Unchanged(old(runs), old(totalUsd))
              else if after.None? then o == NoMatch && Unchanged(old(runs), old(totalUsd))
              else if !Nonnegative(after.value) then o == BadLedger && Unchanged(old(runs), old(totalUsd))
              else
                && runs == after.value && totalUsd == Settled(runs)
                && o == if Committed(runs) > cap then CapExceeded(Committed(runs)) else Done
    {
      if reserved < 0 || actual < 0 {
        return BadValue;
      }
      if !SettledNonnegative(runs) {
        return BadLedger;
      }
      var key := Row(provider, model, reserved, true);
      var i := |runs|;
      while i > 0 && runs[i - 1] != key
        invariant 0 <= i <= |runs|
        invariant forall k :: i <= k < |runs| ==> runs[k] != key
      {
        i := i - 1;
      }
      if i == 0 {
        return NoMatch;
      }
      var rows := runs[i - 1 := SettledRow(key, actual)];
      if !Nonnegative(rows) {
        return BadLedger;
      }
      runs := rows;
      totalUsd := Settled(runs);
      o := if Committed(runs) > cap then CapExceeded(Committed(runs)) else Done;
    }

    ghost predicate Unchanged(rows: seq<Row>, total: int)
      reads this
    {
      runs == rows && totalUsd == total
    }

    /** Reports, and with `write` removes, the outstanding reservations. */
    method Reconcile(write: bool) returns (summary: Option<Summary>)
      modifies this
      ensures summary.Some? <==> Nonnegative(old(runs))
      ensures summary.Some? ==>
                summary.value == Summary(|OnlyReserved(old(runs))|, old(Committed(runs)) - old(Settled(runs)),
                                         |OnlySettled(old(runs))|, old(Settled(runs)))
      ensures if summary.Some? && write
              then runs == OnlySettled(old(runs)) && totalUsd == old(Settled(runs))
              else runs == old(runs) && totalUsd == old(totalUsd)
    {
      if !Nonnegative(runs) {
        return None;
      }
      var reservations, settled := OnlyReserved(runs), OnlySettled(runs);
      ReconcileEffect(runs);
      var total := Settled(settled);
      summary := Some(Summary(|reservations|, Committed(reservations), |settled|, total));
      if write {
        runs := settled;
        totalUsd := total;
      }
    }
  }
}
