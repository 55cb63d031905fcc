/** `FraudService.checkAmountAnomaly`: the floored average it compares with, against the exact one. */
module Fraud {
  import opened Common
  import opened Ledger
  import opened LedgerTables
  import opened LedgerService
  import Paging

  const MIN_HISTORY := 5
  const RECENT_ROWS := 25
  const LOOKBACK_MS := 90 * 24 * 60 * 60 * 1000

  function Itself(): int -> int {
    (x: int) => x
  }

  function MinorOf(): EntryRow -> int {
    (e: EntryRow) => BigInt(e)
  }

  /** Nothing above the multiple of the exact average is missed; what is flagged is above one short by under a unit. */
  ghost predicate NearlyExact(n: nat, sum: int, amount: int, multiplier: nat, flagged: bool) {
    && (amount * n > multiplier * sum ==> flagged)
    && (flagged ==> amount * n > multiplier * (sum - n + 1))
  }

  /**
   Looks at the newest rows of the account, at most twenty-five of the last ninety days, and among them at
   the debits of other operations; flags an amount above the multiplier times their floored average, if
   there are at least five. `recent`, `older` and `debits` say which rows those are.
   */
  method CheckAmountAnomaly(ledger: LedgerService, account: AccountId, current: OpId, amount: int, multiplier: nat,
                            now: int)
    returns (flagged: bool, ghost recent: seq<EntryRow>, ghost older: seq<EntryRow>, ghost debits: seq<EntryRow>)
    requires ledger.Valid()
    ensures forall e: EntryRow ::
              multiset(recent)[e] + multiset(older)[e] ==
              if e.account == account && now - 90 * 24 * 3600 * 1000 <= e.createdAt
              then multiset(ledger.entries)[e] else 0
    ensures forall i, j :: 0 <= i < |recent| && 0 <= j < |older| ==> older[j].createdAt <= recent[i].createdAt
    ensures |recent| == 25 || (|recent| < 25 && older == [])
    ensures forall e: EntryRow ::
              multiset(debits)[e] ==
              if e.direction == Debit && e.operationId != current then multiset(recent)[e] else 0
    ensures flagged <==>
              && |debits| >= 5
              && Sum(debits, MinorOf()) / |debits| > 0
              && amount > Sum(debits, MinorOf()) / |debits| * multiplier
    ensures WellFormed(ledger.Contents()) && |debits| >= 5 ==>
              NearlyExact(|debits|, Sum(debits, MinorOf()), amount, multiplier, flagged)
  {
    hide WellFormed, TablesValid, RowsOf, NearlyExact, Paging.Filter, Paging.NewestFirst, Matches, JournalOf, BigInt,
         DecimalAmount, History, Labelled;
    var page := ledger.ListEntries(Query(account, Some(now - LOOKBACK_MS), None, None), Some(RECENT_ROWS), None);
    recent, older := LookBack(ledger.operations, ledger.entries, account, now);
    LabelledRows(recent, ledger.operations);
    var prior;
    prior, debits := OtherDebits(page, current, recent);
    DebitsAreSound(ledger.operations, ledger.entries, debits, amount, multiplier);
    flagged := AboveAverage(prior, amount, multiplier);
  }

  lemma LabelledRows(rows: seq<EntryRow>, operations: seq<OperationRow>)
    requires forall e :: e in rows ==> e.operationId < |operations|
    ensures |Labelled(rows, operations)| == |rows|
    ensures forall i :: 0 <= i < |rows| ==> Labelled(rows, operations)[i].entry == rows[i]
  {
  }

  /** `filter`, then `map`: the amounts of the page's debits of other operations. */
  method OtherDebits(page: seq<HistoryRow>, current: OpId, ghost rows: seq<EntryRow>)
    returns (prior: seq<int>, ghost debits: seq<EntryRow>)
    requires |page| == |rows| && forall i :: 0 <= i < |page| ==> page[i].entry == rows[i]
    ensures |prior| == |debits| && Sum(prior, Itself()) == Sum(debits, MinorOf())
    ensures forall e: EntryRow ::
              multiset(debits)[e] ==
              if e.direction == Debit && e.operationId != current then multiset(rows)[e] else 0
    ensures forall e :: e in debits ==> e in rows
  {
    prior, debits := [], [];
    for i := 0 to |page|
      invariant |prior| == |debits| && Sum(prior, Itself()) == Sum(debits, MinorOf())
      invariant forall e: EntryRow ::
                  multiset(debits)[e] ==
                  if e.direction == Debit && e.operationId != current then multiset(rows[..i])[e] else 0
    {
      assert rows[..i + 1] == rows[..i] + [rows[i]];
      var e := page[i].entry;
      if e.direction == Debit && e.operationId != current {
        SumAppend(prior, BigInt(e), Itself());
        SumAppend(debits, e, MinorOf());
        prior := prior + [BigInt(e)];
        debits := debits + [e];
      }
    }
    assert rows[..|rows|] == rows;
    forall e | e in debits ensures e in rows {
      assert e in multiset(debits) && e in multiset(rows);
    }
  }

  /** `reduce`, and the comparison. */
  method AboveAverage(prior: seq<int>, amount: int, multiplier: nat) returns (flagged: bool)
    requires Sum(prior, Itself()) >= 0
    ensures flagged <==>
              && |prior| >= 5
              && Sum(prior, Itself()) / |prior| > 0
              && amount > Sum(prior, Itself()) / |prior| * multiplier
  {
    if |prior| < MIN_HISTORY {
      return false;
    }
    var sum := 0;
    for i := 0 to |prior|
      invariant sum == Sum(prior[..i], Itself())
    {
      SumPrefix(prior, i, Itself());
      sum := sum + prior[i];
    }
    assert prior[..|prior|] == prior;
    var average := Quotient(sum, |prior|);
    return average > 0 && amount > average * multiplier;
  }

  /** BigInt division truncates toward zero. */
  function Quotient(sum: int, n: nat): int
    requires n > 0
  {
    if sum >= 0 then sum / n else -((-sum) / n)
  }

  /** The history since ninety days ago, cut after twenty-five rows. */
  lemma LookBack(operations: seq<OperationRow>, entries: seq<EntryRow>, account: AccountId, now: int)
    returns (recent: seq<EntryRow>, older: seq<EntryRow>)
    requires TablesValid(operations, entries)
    ensures recent == Paging.Served(History(Query(account, Some(now - LOOKBACK_MS), None, None), operations, entries),
                                    RECENT_ROWS, 0)
    ensures forall e: EntryRow ::
              multiset(recent)[e] + multiset(older)[e] ==
              if e.account == account && now - 90 * 24 * 3600 * 1000 <= e.createdAt then multiset(entries)[e] else 0
    ensures forall i, j :: 0 <= i < |recent| && 0 <= j < |older| ==> older[j].createdAt <= recent[i].createdAt
    ensures |recent| == 25 || (|recent| < 25 && older == [])
    ensures forall e :: e in recent ==> e in entries && e.operationId < |operations|
  {
    var q := Query(account, Some(now - LOOKBACK_MS), None, None);
    var history := History(q, operations, entries);
    recent := Paging.Served(history, RECENT_ROWS, 0);
    older := history[|recent|..];
    HistoryOrder(q, operations, entries);
    forall e: EntryRow
      ensures multiset(history)[e] ==
              if e.account == account && now - 90 * 24 * 3600 * 1000 <= e.createdAt then multiset(entries)[e] else 0
    {
      HistoryCounts(q, operations, entries, e);
    }
    hide History, DecimalAmount;
    assert history == recent + older;
    forall e | e in recent ensures e in entries {
      assert e in multiset(recent);
    }
  }

  // ------------------------------------------------- stored amounts are positive

  lemma {:induction false} RowIsLeg(entries: seq<EntryRow>, k: nat)
    requires k < |entries|
    ensures LegOf(entries[k]) in LegsOf(entries, entries[k].operationId)
  {
    var n := |entries| - 1;
    if k == n {
    } else {
      RowIsLeg(entries[..n], k);
    }
  }

  lemma StoredRowsPositive(operations: seq<OperationRow>, entries: seq<EntryRow>)
    requires TablesValid(operations, entries)
    requires WellFormed(Book(JournalOf(operations, entries), StatusesOf(operations)))
    ensures forall e :: e in entries ==> BigInt(e) >= 1
  {
    var journal := JournalOf(operations, entries);
    forall e | e in entries ensures BigInt(e) >= 1 {
      var k :| 0 <= k < |entries| && entries[k] == e;
      RowIsLeg(entries, k);
      assert BalancedLegs(journal[e.operationId].legs);
      var i :| 0 <= i < |journal[e.operationId].legs| && journal[e.operationId].legs[i] == LegOf(e);
    }
  }

  lemma {:induction false} AtLeastOneEach(debits: seq<EntryRow>)
    requires forall e :: e in debits ==> BigInt(e) >= 1
    ensures Sum(debits, MinorOf()) >= |debits|
  {
    if debits == [] {
    } else {
      AtLeastOneEach(debits[..|debits| - 1]);
    }
  }

  lemma {:induction false} NonNegativeSum(debits: seq<EntryRow>)
    ensures Sum(debits, MinorOf()) >= 0
  {
    SumNonNegative(debits, MinorOf());
  }

  /** On a ledger the service wrote, the guard on the average holds, nothing is missed, and little is over-flagged. */
  lemma {:induction false} DebitsAreSound(operations: seq<OperationRow>, entries: seq<EntryRow>, debits: seq<EntryRow>,
                                          amount: int, multiplier: nat)
    requires TablesValid(operations, entries)
    requires forall e :: e in debits ==> e in entries
    ensures Sum(debits, MinorOf()) >= 0
    ensures WellFormed(Book(JournalOf(operations, entries), StatusesOf(operations))) && |debits| >= 5 ==>
              var n, sum := |debits|, Sum(debits, MinorOf());
              && sum / n >= 1
              && NearlyExact(n, sum, amount, multiplier, amount > sum / n * multiplier)
  {
    NonNegativeSum(debits);
    if WellFormed(Book(JournalOf(operations, entries), StatusesOf(operations))) && |debits| >= 5 {
      StoredRowsPositive(operations, entries);
      AtLeastOneEach(debits);
      hide TablesValid, WellFormed, BigInt, Sum;
      var n, sum := |debits|, Sum(debits, MinorOf());
      AverageIsPositive(n, sum);
      NeverMisses(n, sum, amount, multiplier);
      OverFlagsLittle(n, sum, amount, multiplier);
    }
  }

  // ------------------------------------------------------------- the arithmetic

  lemma TimesMonotone(a: int, b: int, m: int)
    requires m >= 0 && a <= b
    ensures m * a <= m * b
  {
  }

  lemma FloorBounds(sum: int, n: nat)
    requires n > 0
    ensures sum / n * n <= sum <= sum / n * n + n - 1
  {
  }

  lemma Reorder(n: int, q: int, m: int)
    ensures n * (q * m) == m * (q * n)
    ensures n * (q * m + 1) == m * (q * n) + n
  {
  }

  /** Amounts of at least one each have an average of at least one. */
  lemma AverageIsPositive(n: nat, sum: int)
    requires sum >= n > 0
    ensures sum / n >= 1
  {
    FloorBounds(sum, n);
    if sum / n <= 0 {
      TimesMonotone(sum / n, 0, n);
    }
  }

  /** Nothing above the multiple of the exact average escapes the floored rule. */
  lemma NeverMisses(n: nat, sum: int, amount: int, multiplier: nat)
    requires n > 0
    ensures amount * n > multiplier * sum ==> amount > sum / n * multiplier
  {
    var q := sum / n;
    assert q * n <= sum by { FloorBounds(sum, n); }
    TimesMonotone(q * n, sum, multiplier);
    Reorder(n, q, multiplier);
    if amount <= q * multiplier {
      TimesMonotone(amount, q * multiplier, n);
    }
  }

  lemma AboveShortAverage(s: int, n: nat, q: int, m: nat, amount: int)
    requires s - n + 1 <= q * n && q * m + 1 <= amount && n > 0
    ensures n * amount > m * (s - n + 1)
  {
    var least := q * m + 1;
    TimesMonotone(least, amount, n);
    assert n * least == m * (q * n) + n by { Reorder(n, q, m); }
    TimesMonotone(s - n + 1, q * n, m);
  }

  /** And what it flags is above the multiple of an average short by less than one unit. */
  lemma OverFlagsLittle(n: nat, sum: int, amount: int, multiplier: nat)
    requires n > 0
    ensures amount > sum / n * multiplier ==> amount * n > multiplier * (sum - n + 1)
  {
    var q := sum / n;
    assert sum - n + 1 <= q * n by { FloorBounds(sum, n); }
    if amount > q * multiplier {
      AboveShortAverage(sum, n, q, multiplier, amount);
    }
  }
}
