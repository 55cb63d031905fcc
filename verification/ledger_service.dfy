/**
 `LedgerService` over its two tables, operations and entries, in the shape they have in the
 database: flat entry rows that point at an operation row. `Contents()` regroups the rows into the
 `Book` of module `Ledger`, and every method is proved to act on it as that module's function does.
 */
module LedgerTables {
  import opened Common
  import Paging
  import opened Decimal
  import opened Ledger

  datatype OperationRow =
    OperationRow(id: OpId, idempotencyKey: Key, kind: Kind, status: Status, reversalOf: Option<OpId>, createdAt: int)

  datatype EntryRow =
    EntryRow(operationId: OpId, account: AccountId, direction: Direction, amountMinor: string,
             currency: Currency, createdAt: int)

  ghost predicate DecimalAmount(e: EntryRow) {
    && (forall i :: 0 <= i < |e.amountMinor| ==> IsDigit(e.amountMinor[i]))
  }

  function BigInt(e: EntryRow): int {
    if forall i :: 0 <= i < |e.amountMinor| ==> IsDigit(e.amountMinor[i]) then OfDecimal(e.amountMinor) else 0
  }

  function LegOf(e: EntryRow): Leg {
    Leg(e.account, e.direction, BigInt(e), e.currency)
  }

  /** The rows of one operation, in table order: `findBy({ operationId })`. */
  function LegsOf(entries: seq<EntryRow>, op: OpId): seq<Leg> {
    if entries == [] then []
    else
      var n := |entries| - 1;
      LegsOf(entries[..n], op) + (if entries[n].operationId == op then [LegOf(entries[n])] else [])
  }

  function PostingOf(row: OperationRow, entries: seq<EntryRow>): Posting {
    Posting(row.idempotencyKey, row.kind, LegsOf(entries, row.id), row.reversalOf, row.createdAt)
  }

  function JournalOf(operations: seq<OperationRow>, entries: seq<EntryRow>): (j: seq<Posting>)
    ensures |j| == |operations|
  {
    seq(|operations|, i requires 0 <= i < |operations| => PostingOf(operations[i], entries))
  }

  function StatusesOf(operations: seq<OperationRow>): (s: seq<Status>)
    ensures |s| == |operations|
  {
    seq(|operations|, i requires 0 <= i < |operations| => operations[i].status)
  }

  ghost predicate TablesValid(operations: seq<OperationRow>, entries: seq<EntryRow>) {
    && (forall i :: 0 <= i < |operations| ==> operations[i].id == i)
    && (forall k :: 0 <= k < |entries| ==>
          && entries[k].operationId < |operations|
          && entries[k].createdAt == operations[entries[k].operationId].createdAt
          && DecimalAmount(entries[k]))
  }

  // The flat rows of a new operation, as `entryRepo.create` builds them.

  function RowOf(op: OpId, e: LegInput, now: int): EntryRow
    requires e.amount > 0
  {
    EntryRow(op, e.account, e.direction, ToDecimal(e.amount), CurrencyOf(e.currency), now)
  }

  function RowsOf(op: OpId, es: seq<LegInput>, now: int): seq<EntryRow>
    requires forall i :: 0 <= i < |es| ==> es[i].amount > 0
  {
    seq(|es|, i requires 0 <= i < |es| => RowOf(op, es[i], now))
  }

  lemma {:induction false} LegsOfAppend(entries: seq<EntryRow>, more: seq<EntryRow>, op: OpId)
    ensures LegsOf(entries + more, op) == LegsOf(entries, op) + LegsOf(more, op)
  {
    if more == [] {
      assert entries + more == entries;
    } else {
      var n := |more| - 1;
      LegsOfAppend(entries, more[..n], op);
      assert (entries + more)[..|entries| + n] == entries + more[..n];
    }
  }

  lemma RowOfOperation(op: OpId, e: LegInput, now: int)
    requires e.amount > 0
    ensures RowOf(op, e, now).operationId == op
  {
  }

  lemma RowReadsBack(op: OpId, e: LegInput, now: int)
    requires e.amount > 0
    ensures LegOf(RowOf(op, e, now)) == Stored(e) && DecimalAmount(RowOf(op, e, now))
  {
    DecimalRoundTrip(e.amount);
  }

  /** Stored rows read back as the legs the caller passed, currency defaulted, amount exact. */
  lemma {:induction false} RowsReadBack(op: OpId, es: seq<LegInput>, now: int, other: OpId)
    requires forall i :: 0 <= i < |es| ==> es[i].amount > 0
    ensures LegsOf(RowsOf(op, es, now), other) == if other == op then StoredAll(es) else []
    ensures forall i :: 0 <= i < |es| ==> DecimalAmount(RowsOf(op, es, now)[i])
  {
    hide LegOf, RowOf, DecimalAmount, Stored;
    if es == [] {
    } else {
      var n := |es| - 1;
      RowsReadBack(op, es[..n], now, other);
      assert RowsOf(op, es, now)[..n] == RowsOf(op, es[..n], now);
      RowReadsBack(op, es[n], now);
      assert RowOf(op, es[n], now).operationId == op by { RowOfOperation(op, es[n], now); }
      assert StoredAll(es) == StoredAll(es[..n]) + [Stored(es[n])];
    }
  }

  lemma {:induction false} NoRowsYet(entries: seq<EntryRow>, op: OpId)
    requires forall k :: 0 <= k < |entries| ==> entries[k].operationId < op
    ensures LegsOf(entries, op) == []
  {
    if entries == [] {
    } else {
      NoRowsYet(entries[..|entries| - 1], op);
    }
  }

  lemma InsertedLegs(entries: seq<EntryRow>, op: OpId, es: seq<LegInput>, now: int, other: OpId)
    requires forall i :: 0 <= i < |es| ==> es[i].amount > 0
    requires forall k :: 0 <= k < |entries| ==> entries[k].operationId < op
    ensures LegsOf(entries + RowsOf(op, es, now), other) == if other == op then StoredAll(es) else LegsOf(entries, other)
  {
    LegsOfAppend(entries, RowsOf(op, es, now), other);
    RowsReadBack(op, es, now, other);
    if other == op {
      NoRowsYet(entries, op);
    }
  }

  lemma InsertKeepsValid(operations: seq<OperationRow>, entries: seq<EntryRow>, row: OperationRow, es: seq<LegInput>)
    requires TablesValid(operations, entries) && row.id == |operations|
    requires forall i :: 0 <= i < |es| ==> es[i].amount > 0
    ensures TablesValid(operations + [row], entries + RowsOf(row.id, es, row.createdAt))
  {
  }

  /** Inserting one operation row and its entry rows appends one posting to the journal. */
  lemma InsertIsAppend(operations: seq<OperationRow>, entries: seq<EntryRow>, row: OperationRow, es: seq<LegInput>)
    requires TablesValid(operations, entries) && row.id == |operations|
    requires forall i :: 0 <= i < |es| ==> es[i].amount > 0
    ensures var entries' := entries + RowsOf(row.id, es, row.createdAt);
            && TablesValid(operations + [row], entries')
            && JournalOf(operations + [row], entries') ==
               JournalOf(operations, entries)
               + [Posting(row.idempotencyKey, row.kind, StoredAll(es), row.reversalOf, row.createdAt)]
            && StatusesOf(operations + [row]) == StatusesOf(operations) + [row.status]
  {
    InsertKeepsValid(operations, entries, row, es);
    hide DecimalAmount, RowsOf, LegsOf;
    forall i | 0 <= i <= |operations|
      ensures LegsOf(entries + RowsOf(row.id, es, row.createdAt), i) ==
              if i == row.id then StoredAll(es) else LegsOf(entries, i)
    {
      InsertedLegs(entries, row.id, es, row.createdAt, i);
    }
  }

  /** Changing a status column leaves the journal as it was. */
  lemma StatusColumn(operations: seq<OperationRow>, entries: seq<EntryRow>, op: OpId, st: Status)
    requires TablesValid(operations, entries) && op < |operations|
    ensures var operations' := operations[op := operations[op].(status := st)];
            && TablesValid(operations', entries)
            && JournalOf(operations', entries) == JournalOf(operations, entries)
            && StatusesOf(operations') == StatusesOf(operations)[op := st]
  {
  }

  // ------------------------------------------------------ reading the history

  /** What a history read may filter on; absent means everything, and so does an empty set of kinds. */
  datatype Query = Query(account: AccountId, from: Option<int>, to: Option<int>, kinds: Option<set<Kind>>)

  /** The account's rows in the period, joined to their operation for its kind. */
  function Matches(q: Query, operations: seq<OperationRow>): EntryRow -> bool {
    (e: EntryRow) =>
      && e.account == q.account
      && (q.from.Some? ==> e.createdAt >= q.from.value)
      && (q.to.Some? ==> e.createdAt <= q.to.value)
      && (q.kinds.Some? && q.kinds.value != {} ==>
            e.operationId < |operations| && operations[e.operationId].kind in q.kinds.value)
  }

  function CreatedAt(): EntryRow -> int {
    (e: EntryRow) => e.createdAt
  }

  /** The whole history a query names, in the order it is shown. */
  function History(q: Query, operations: seq<OperationRow>, entries: seq<EntryRow>): seq<EntryRow> {
    Paging.NewestFirst(Paging.Filter(entries, Matches(q, operations)), CreatedAt())
  }

  function RowSide(d: Direction, a: AccountId, c: Currency): EntryRow -> int {
    (e: EntryRow) => SideOn(d, a, c)(LegOf(e))
  }

  /** An entry as the history shows it, labelled with its operation's type. */
  datatype HistoryRow = HistoryRow(entry: EntryRow, operationType: Kind)

  function Labelled(rows: seq<EntryRow>, operations: seq<OperationRow>): seq<HistoryRow>
    requires forall e :: e in rows ==> e.operationId < |operations|
  {
    seq(|rows|, i requires 0 <= i < |rows| => HistoryRow(rows[i], operations[rows[i].operationId].kind))
  }

  /**
   On an unchanged ledger, the answers to a walk through any history a query may name, in pages of a
   size the endpoint allows, are the whole history: each matching row once, newest first.
   */
  lemma PagesCoverHistory(q: Query, operations: seq<OperationRow>, entries: seq<EntryRow>, limit: nat)
    requires 1 <= limit <= 100
    ensures var walked := Paging.Walk(History(q, operations, entries), limit, 0);
            && (forall i, j :: 0 <= i < j < |walked| ==> walked[i].createdAt >= walked[j].createdAt)
            && (forall e: EntryRow ::
                  multiset(walked)[e] ==
                  if && e.account == q.account
                     && (q.from == None || q.from.value <= e.createdAt)
                     && (q.to == None || e.createdAt <= q.to.value)
                     && (q.kinds == None || q.kinds.value == {}
                         || (e.operationId < |operations| && operations[e.operationId].kind in q.kinds.value))
                  then multiset(entries)[e] else 0)
  {
    var history := History(q, operations, entries);
    HistoryOrder(q, operations, entries);
    forall e: EntryRow ensures multiset(history)[e] == if Matches(q, operations)(e) then multiset(entries)[e] else 0 {
      HistoryCounts(q, operations, entries, e);
    }
    hide Paging.Walk, Paging.NewestFirst, Paging.Filter, History;
    Paging.WalkCovers(history, limit, 0);
  }

  lemma HistoryOrder(q: Query, operations: seq<OperationRow>, entries: seq<EntryRow>)
    ensures var history := History(q, operations, entries);
            forall i, j :: 0 <= i < j < |history| ==> history[i].createdAt >= history[j].createdAt
  {
    Paging.NewestFirstSorted(Paging.Filter(entries, Matches(q, operations)), CreatedAt());
    hide Matches;
    var history := History(q, operations, entries);
    assert forall i, j :: 0 <= i < j < |history| ==> CreatedAt()(history[i]) >= CreatedAt()(history[j]);
  }

  lemma HistoryCounts(q: Query, operations: seq<OperationRow>, entries: seq<EntryRow>, e: EntryRow)
    ensures multiset(History(q, operations, entries))[e] ==
            if Matches(q, operations)(e) then multiset(entries)[e] else 0
  {
    var rows := Paging.Filter(entries, Matches(q, operations));
    Paging.FilterCounts(entries, Matches(q, operations), e);
    Paging.NewestFirstKeepsRows(rows, CreatedAt());
  }

  /** A page of the history is a stretch of it: nothing foreign, newest first, each row with its operation's type. */
  lemma PageRows(q: Query, operations: seq<OperationRow>, entries: seq<EntryRow>, limit: nat, offset: nat)
    requires TablesValid(operations, entries)
    ensures var page := Labelled(Paging.Served(History(q, operations, entries), limit, offset), operations);
            && |page| <= 100
            && (forall h :: h in page ==>
                  && h.entry in entries && h.entry.account == q.account
                  && (q.from.Some? ==> q.from.value <= h.entry.createdAt)
                  && (q.to.Some? ==> h.entry.createdAt <= q.to.value)
                  && (q.kinds.Some? && q.kinds.value != {} ==> h.operationType in q.kinds.value)
                  && h.operationType == operations[h.entry.operationId].kind)
            && (forall i, j :: 0 <= i < j < |page| ==> page[i].entry.createdAt >= page[j].entry.createdAt)
  {
    var history := History(q, operations, entries);
    HistoryOrder(q, operations, entries);
    forall e | e in history ensures e in entries && Matches(q, operations)(e) {
      HistoryCounts(q, operations, entries, e);
      assert e in multiset(history);
    }
    hide History, DecimalAmount, Paging.Served;
    var rows := Paging.Served(history, limit, offset);
    var page := Labelled(rows, operations);
    forall h | h in page ensures h.entry in history && h.operationType == operations[h.entry.operationId].kind {
      var i :| 0 <= i < |page| && page[i] == h;
      assert rows[i] in rows;
    }
    ServedOrder(history, limit, offset);
  }

  lemma ServedOrder(rows: seq<EntryRow>, limit: nat, offset: nat)
    requires forall i, j :: 0 <= i < j < |rows| ==> rows[i].createdAt >= rows[j].createdAt
    ensures var page := Paging.Served(rows, limit, offset);
            forall i, j :: 0 <= i < j < |page| ==> page[i].createdAt >= page[j].createdAt
  {
    var page := Paging.Served(rows, limit, offset);
    assert forall i :: 0 <= i < |page| ==> page[i] == rows[offset + i];
  }

  /** And what the pages since an instant show in one direction adds up to what `sumDirection` reports. */
  lemma PagesAddUp(operations: seq<OperationRow>, entries: seq<EntryRow>, d: Direction, a: AccountId, since: int,
                   c: Currency, limit: nat)
    requires TablesValid(operations, entries) && 1 <= limit <= 100
    ensures var history := History(Query(a, Some(since), None, None), operations, entries);
            Sum(Paging.Walk(history, limit, 0), RowSide(d, a, c)) ==
            MovedSince(JournalOf(operations, entries), d, a, since, c)
  {
    var q := Query(a, Some(since), None, None);
    var rows := Paging.Filter(entries, Matches(q, operations));
    MatchingSide(operations, d, a, since, c);
    FlatSide(operations, entries, d, a, since, c);
    hide MovedSince, JournalOf, TablesValid, Matches, RowSide, RowSideSince, Paging.NewestFirst, Paging.Walk;
    Paging.WalkCovers(History(q, operations, entries), limit, 0);
    Paging.NewestFirstSum(rows, CreatedAt(), RowSide(d, a, c));
    Paging.FilterSum(entries, Matches(q, operations), RowSide(d, a, c), RowSideSince(d, a, since, c));
  }

  lemma MatchingSide(operations: seq<OperationRow>, d: Direction, a: AccountId, since: int, c: Currency)
    ensures var q := Query(a, Some(since), None, None);
            forall e: EntryRow ::
              RowSideSince(d, a, since, c)(e) == if Matches(q, operations)(e) then RowSide(d, a, c)(e) else 0
  {
    var q := Query(a, Some(since), None, None);
    forall e: EntryRow
      ensures RowSideSince(d, a, since, c)(e) == if Matches(q, operations)(e) then RowSide(d, a, c)(e) else 0
    {
      assert SideOn(d, a, c)(LegOf(e)) != 0 ==> e.account == a;
    }
  }

  // ------------------------------------------------------- totals per currency

  ghost predicate IsTotals(legs: seq<Leg>, totals: map<Currency, int>) {
    forall c: Currency :: Net(legs, c) == if c in totals then totals[c] else 0
  }

  lemma TotalsStep(legs: seq<Leg>, i: nat, totals: map<Currency, int>)
    requires i < |legs| && IsTotals(legs[..i], totals)
    ensures var c := legs[i].currency;
            IsTotals(legs[..i + 1], totals[c := (if c in totals then totals[c] else 0) + Signed(legs[i])])
  {
    forall c: Currency
      ensures Net(legs[..i + 1], c) == Net(legs[..i], c) + if legs[i].currency == c then Signed(legs[i]) else 0
    {
      SumPrefix(legs, i, LegIn(c));
    }
  }

  lemma PositiveStored(entries: seq<LegInput>)
    ensures (forall k :: 0 <= k < |entries| ==> entries[k].amount > 0) <==>
            (forall k :: 0 <= k < |entries| ==> StoredAll(entries)[k].amount > 0)
  {
    if k :| 0 <= k < |entries| && entries[k].amount <= 0 {
      assert StoredAll(entries)[k].amount <= 0;
    }
    forall k | 0 <= k < |entries| ensures StoredAll(entries)[k].amount == entries[k].amount {
    }
  }

  // ------------------------------------------------ aggregates over flat rows

  function RowSigned(a: AccountId, c: Currency): EntryRow -> int {
    (e: EntryRow) => LegOn(a, c)(LegOf(e))
  }

  function RowSideSince(d: Direction, a: AccountId, since: int, c: Currency): EntryRow -> int {
    (e: EntryRow) => if e.createdAt >= since then SideOn(d, a, c)(LegOf(e)) else 0
  }

  /** One more entry row is one more leg of its own operation, and of no other. */
  lemma OneMoreRow(operations: seq<OperationRow>, entries: seq<EntryRow>, e: EntryRow)
    requires TablesValid(operations, entries + [e]) && e.operationId < |operations|
    ensures TablesValid(operations, entries)
    ensures var op := e.operationId;
            && LegsOf(entries + [e], op) == LegsOf(entries, op) + [LegOf(e)]
            && JournalOf(operations, entries + [e]) ==
               JournalOf(operations, entries)[op := PostingOf(operations[op], entries + [e])]
  {
    var all := entries + [e];
    assert all[|entries|] == e && all[..|entries|] == entries;
    forall k | 0 <= k < |entries| ensures all[k] == entries[k] {
    }
    hide DecimalAmount, LegOf;
    forall i | 0 <= i < |operations| && i != e.operationId ensures LegsOf(all, i) == LegsOf(entries, i) {
      assert LegsOf(all, i) == LegsOf(entries, i) + [];
    }
  }

  /** One more entry row changes the journal sum by what its own operation gains. */
  lemma JournalSumAppend(operations: seq<OperationRow>, entries: seq<EntryRow>, e: EntryRow, f: Leg -> int,
                         g: Posting -> int, weight: OperationRow -> bool)
    requires TablesValid(operations, entries + [e]) && e.operationId < |operations|
    requires forall i, es :: 0 <= i < |operations| ==>
               g(PostingOf(operations[i], es)) == if weight(operations[i]) then Sum(LegsOf(es, i), f) else 0
    ensures Sum(JournalOf(operations, entries + [e]), g) ==
            Sum(JournalOf(operations, entries), g)
            + if weight(operations[e.operationId]) then f(LegOf(e)) else 0
  {
    var op := e.operationId;
    OneMoreRow(operations, entries, e);
    hide TablesValid, LegsOf, LegOf, Sum;
    var before := JournalOf(operations, entries);
    assert before[op] == PostingOf(operations[op], entries);
    SumUpdate(before, op, PostingOf(operations[op], entries + [e]), g);
    SumAppend(LegsOf(entries, op), LegOf(e), f);
  }

  /** The flat aggregate of `getBalance` equals the balance of the journal. */
  lemma {:induction false} FlatBalance(operations: seq<OperationRow>, entries: seq<EntryRow>, a: AccountId, c: Currency)
    requires TablesValid(operations, entries)
    ensures Sum(entries, RowSigned(a, c)) == Balance(JournalOf(operations, entries), a, c)
  {
    if entries == [] {
      SumZero(JournalOf(operations, entries), PostingOn(a, c));
    } else {
      var n := |entries| - 1;
      FlatBalance(operations, entries[..n], a, c);
      assert entries == entries[..n] + [entries[n]];
      JournalSumAppend(operations, entries[..n], entries[n], LegOn(a, c), PostingOn(a, c), _ => true);
    }
  }

  /** The flat aggregate of `sumDirection` equals the journal's. */
  lemma {:induction false} FlatSide(operations: seq<OperationRow>, entries: seq<EntryRow>, d: Direction, a: AccountId,
                                    since: int, c: Currency)
    requires TablesValid(operations, entries)
    ensures Sum(entries, RowSideSince(d, a, since, c)) == MovedSince(JournalOf(operations, entries), d, a, since, c)
  {
    if entries == [] {
      SumZero(JournalOf(operations, entries), PostingSideSince(d, a, since, c));
    } else {
      var n := |entries| - 1;
      FlatSide(operations, entries[..n], d, a, since, c);
      assert entries == entries[..n] + [entries[n]];
      JournalSumAppend(operations, entries[..n], entries[n], SideOn(d, a, c), PostingSideSince(d, a, since, c),
                       (row: OperationRow) => row.createdAt >= since);
    }
  }
}

module LedgerService {
  import opened Common
  import Paging
  import opened Ledger
  import opened LedgerTables

  class LedgerService {
    var operations: seq<OperationRow>
    var entries: seq<EntryRow>

    ghost predicate Valid()
      reads this
    {
      TablesValid(operations, entries)
    }

    ghost function Contents(): Book
      reads this
    {
      Book(JournalOf(operations, entries), StatusesOf(operations))
    }

    constructor ()
      ensures Valid() && Contents() == EMPTY_BOOK
    {
      operations, entries := [], [];
    }

    /** The first loop of `assertBalanced`: signed totals per currency, unless an amount is not positive. */
    static method TotalsByCurrency(entries: seq<LegInput>) returns (ok: bool, totals: map<Currency, int>)
      ensures ok <==> forall k :: 0 <= k < |entries| ==> entries[k].amount > 0
      ensures ok ==> IsTotals(StoredAll(entries), totals)
    {
      var legs := StoredAll(entries);
      totals := map[];
      for i := 0 to |entries|
        invariant forall k :: 0 <= k < i ==> entries[k].amount > 0
        invariant IsTotals(legs[..i], totals)
      {
        if entries[i].amount <= 0 {
          return false, totals;
        }
        var currency := CurrencyOf(entries[i].currency);
        var signed := if entries[i].direction == Credit then entries[i].amount else -entries[i].amount;
        var before := if currency in totals then totals[currency] else 0;
        TotalsStep(legs, i, totals);
        totals := totals[currency := before + signed];
      }
      assert legs[..|entries|] == legs;
      return true, totals;
    }

    /** Accepts exactly the lists that balance in every currency. */
    static method AssertBalanced(entries: seq<LegInput>) returns (e: Option<Error>)
      ensures e == Objection(StoredAll(entries))
      ensures e == Some(TooFewEntries) <==> |entries| < 2
      ensures e == Some(NonPositiveAmount) <==>
                |entries| >= 2 && exists k :: 0 <= k < |entries| && entries[k].amount <= 0
      ensures e == None <==> BalancedLegs(StoredAll(entries))
      ensures e.Some? ==> e.value in {TooFewEntries, NonPositiveAmount, Unbalanced}
    {
      if |entries| < 2 {
        return Some(TooFewEntries);
      }
      var ok, totals := TotalsByCurrency(entries);
      PositiveStored(entries);
      if !ok {
        return Some(NonPositiveAmount);
      }
      var unseen := totals.Keys;
      while unseen != {}
        invariant unseen <= totals.Keys
        invariant forall c :: c in totals && c !in unseen ==> totals[c] == 0
        decreases |unseen|
      {
        var currency :| currency in unseen;
        if totals[currency] != 0 {
          assert Net(StoredAll(entries), currency) != 0;
          return Some(Unbalanced);
        }
        unseen := unseen - {currency};
      }
      return None;
    }

    /** The unique index on `idempotencyKey`. */
    method FindOperation(key: Key) returns (r: Option<OpId>)
      requires Valid()
      ensures r == FindKey(Contents().journal, key)
    {
      ghost var journal := Contents().journal;
      for i := 0 to |operations|
        invariant FindKey(journal[..i], key) == None
      {
        assert journal[..i + 1] == journal[..i] + [journal[i]];
        FindKeyAppend(journal[..i], journal[i], key);
        if operations[i].idempotencyKey == key {
          FindKeyPrefix(journal, i + 1, key);
          return Some(i);
        }
      }
      assert journal[..|operations|] == journal;
      return None;
    }

    /** Runs inside a transaction: on an error nothing has been written. */
    method PostOperationWithManager(input: PostInput, reversalOf: Option<OpId>, now: int)
      returns (r: Result<Receipt, Error>)
      requires Valid()
      modifies this
      ensures Valid()
      ensures var legs := StoredAll(input.entries);
              r == (if Objection(legs).Some? then Err(Objection(legs).value)
                    else if FindKey(old(Contents()).journal, input.key).Some? then Err(DuplicateKey)
                    else Ok(Receipt(|old(Contents()).journal|, legs, false)))
      ensures Contents() ==
              if r.Err? then old(Contents())
              else Append(old(Contents()),
                          Posting(input.key, input.kind, StoredAll(input.entries), reversalOf, now), StatusOf(input))
    {
      var objection := AssertBalanced(input.entries);
      if objection.Some? {
        return Err(objection.value);
      }
      var existing := FindOperation(input.key);
      if existing.Some? {
        return Err(DuplicateKey);
      }
      forall i | 0 <= i < |input.entries| ensures input.entries[i].amount > 0 {
        assert StoredAll(input.entries)[i].amount > 0;
      }
      ghost var operations0, entries0 := operations, entries;
      var id := |operations|;
      var row := OperationRow(id, input.key, input.kind, StatusOf(input), reversalOf, now);
      InsertIsAppend(operations, entries, row, input.entries);
      operations := operations + [row];
      for i := 0 to |input.entries|
        invariant operations == operations0 + [row]
        invariant entries == entries0 + RowsOf(id, input.entries, now)[..i]
      {
        entries := entries + [RowOf(id, input.entries[i], now)];
      }
      assert RowsOf(id, input.entries, now)[..|input.entries|] == RowsOf(id, input.entries, now);
      return Ok(Receipt(id, StoredAll(input.entries), false));
    }

    /** `findBy({ operationId })`. */
    method LoadEntries(op: OpId) returns (legs: seq<Leg>)
      requires Valid() && op < |operations|
      ensures legs == Contents().journal[op].legs
    {
      legs := [];
      for i := 0 to |entries|
        invariant legs == LegsOf(entries[..i], op)
      {
        assert entries[..i + 1][..i] == entries[..i];
        if entries[i].operationId == op {
          legs := legs + [LegOf(entries[i])];
        }
      }
      assert entries[..|entries|] == entries;
    }

    /** Insert, and on a unique violation re-read: a retry returns what the first call wrote. */
    method PostOperation(input: PostInput, now: int) returns (r: Result<Receipt, Error>)
      requires Valid()
      modifies this
      ensures Valid()
      ensures (Contents(), r) == Post(old(Contents()), input, now)
      ensures r.Ok? ==> r.value.op < |Contents().journal| && r.value.legs == Contents().journal[r.value.op].legs
    {
      r := PostOperationWithManager(input, None, now);
      if r == Err(DuplicateKey) {
        var existing := FindOperation(input.key);
        var legs := LoadEntries(existing.value);
        return Ok(Receipt(existing.value, legs, true));
      }
    }

    method ReverseOperation(original: OpId, key: Key, now: int) returns (r: Result<Receipt, Error>)
      requires Valid()
      modifies this
      ensures Valid()
      ensures (Contents(), r) == Reverse(old(Contents()), original, key, now)
      ensures r.Ok? ==> r.value.op < |Contents().journal| && r.value.legs == Contents().journal[r.value.op].legs
    {
      if original >= |operations| {
        return Err(NotFound);
      }
      var legs := LoadEntries(original);
      if |legs| == 0 {
        return Err(NothingToReverse);
      }
      var mirrored := seq(|legs|, i requires 0 <= i < |legs| =>
        LegInput(legs[i].account, Flip(legs[i].direction), legs[i].amount, Some(legs[i].currency)));
      assert StoredAll(mirrored) == Mirror(legs);
      r := PostOperationWithManager(PostInput(key, Adjustment, mirrored, None), Some(original), now);
      if r.Ok? {
        StatusColumn(operations, entries, original, Reversed);
        operations := operations[original := operations[original].(status := Reversed)];
      }
    }

    method ConfirmOperation(op: OpId)
      requires Valid()
      modifies this`operations
      ensures Valid()
      ensures Contents() == Confirm(old(Contents()), op)
      ensures Contents().journal == old(Contents()).journal
      ensures op < |old(Contents()).status| && old(Contents()).status[op] == Pending ==>
                Contents().status == old(Contents()).status[op := Completed]
      ensures !(op < |old(Contents()).status| && old(Contents()).status[op] == Pending) ==>
                Contents().status == old(Contents()).status
    {
      if op < |operations| && operations[op].status == Pending {
        StatusColumn(operations, entries, op, Completed);
        operations := operations[op := operations[op].(status := Completed)];
      }
    }

    /** Credits minus debits over the flat entry rows. */
    method GetBalance(account: AccountId, currency: Currency) returns (balance: int)
      requires Valid()
      ensures balance == Balance(Contents().journal, account, currency)
    {
      balance := 0;
      for i := 0 to |entries|
        invariant balance == Sum(entries[..i], RowSigned(account, currency))
      {
        SumPrefix(entries, i, RowSigned(account, currency));
        assert RowSigned(account, currency)(entries[i]) == LegOn(account, currency)(LegOf(entries[i]));
        if entries[i].account == account && entries[i].currency == currency {
          var amount := BigInt(entries[i]);
          balance := balance + if entries[i].direction == Credit then amount else -amount;
        }
      }
      assert entries[..|entries|] == entries;
      FlatBalance(operations, entries, account, currency);
    }

    /** What the caps and the fraud rules read. */
    method SumDirection(account: AccountId, direction: Direction, since: int, currency: Currency)
      returns (total: int)
      requires Valid()
      ensures total == MovedSince(Contents().journal, direction, account, since, currency)
    {
      total := 0;
      for i := 0 to |entries|
        invariant total == Sum(entries[..i], RowSideSince(direction, account, since, currency))
      {
        SumPrefix(entries, i, RowSideSince(direction, account, since, currency));
        var e := entries[i];
        assert SideOn(direction, account, currency)(LegOf(e)) ==
               if e.account == account && e.currency == currency && e.direction == direction then BigInt(e) else 0;
        if e.account == account && e.direction == direction && e.currency == currency && e.createdAt >= since {
          total := total + BigInt(e);
        }
      }
      assert entries[..|entries|] == entries;
      FlatSide(operations, entries, direction, account, since, currency);
    }

    method CountDirection(account: AccountId, direction: Direction, since: int) returns (count: nat)
      requires Valid()
      ensures count == |set i | 0 <= i < |entries| && entries[i].account == account
                                && entries[i].direction == direction && since <= entries[i].createdAt|
    {
      count := 0;
      ghost var counted: set<int> := {};
      for i := 0 to |entries|
        invariant counted == Counted(entries, i, account, direction, since)
        invariant count == |counted|
      {
        CountedStep(entries, i, account, direction, since);
        hide Counted;
        var e := entries[i];
        if e.account == account && e.direction == direction && e.createdAt >= since {
          count := count + 1;
          counted := counted + {i};
        }
      }
    }

    /** One page of an account's history, each row with its operation's type. */
    method ListEntries(q: Query, limit: Option<nat>, offset: Option<nat>) returns (page: seq<HistoryRow>)
      requires Valid()
      ensures var take := if limit.Some? then limit.value else Paging.DEFAULT_PAGE_SIZE;
              var skip := if offset.Some? then offset.value else 0;
              page == Labelled(Paging.Served(History(q, operations, entries), take, skip), operations)
      ensures var left := |History(q, operations, entries)| - if offset.Some? then offset.value else 0;
              |page| == Max(0, Min(left, if limit.Some? then Min(limit.value, 100) else 20))
      ensures forall h :: h in page ==>
                && h.entry in entries && h.entry.account == q.account
                && (q.from.Some? ==> q.from.value <= h.entry.createdAt)
                && (q.to.Some? ==> h.entry.createdAt <= q.to.value)
                && (q.kinds.Some? && q.kinds.value != {} ==> h.operationType in q.kinds.value)
                && h.entry.operationId < |Contents().journal|
                && h.operationType == Contents().journal[h.entry.operationId].kind
      ensures forall i, j :: 0 <= i < j < |page| ==> page[i].entry.createdAt >= page[j].entry.createdAt
    {
      var rows: seq<EntryRow> := [];
      for i := 0 to |entries|
        invariant rows == Paging.Filter(entries[..i], Matches(q, operations))
      {
        assert entries[..i + 1][..i] == entries[..i];
        if Matches(q, operations)(entries[i]) {
          rows := rows + [entries[i]];
        }
      }
      assert entries[..|entries|] == entries;
      var sorted := Paging.NewestFirst(rows, CreatedAt());
      var take := Min(if limit.Some? then limit.value else Paging.DEFAULT_PAGE_SIZE, Paging.MAX_PAGE_SIZE);
      var skip := if offset.Some? then offset.value else 0;
      var found := Paging.Page(sorted, take, skip);
      page := Labelled(found, operations);
      PageRows(q, operations, entries, if limit.Some? then limit.value else Paging.DEFAULT_PAGE_SIZE, skip);
    }
  }

  /** Which of the first `n` rows of an account lie in a direction since an instant. */
  ghost function Counted(entries: seq<EntryRow>, n: nat, account: AccountId, direction: Direction, since: int): set<int>
    requires n <= |entries|
  {
    set k | 0 <= k < n && entries[k].account == account
            && entries[k].direction == direction && since <= entries[k].createdAt
  }

  lemma CountedStep(entries: seq<EntryRow>, n: nat, account: AccountId, direction: Direction, since: int)
    requires n < |entries|
    ensures var e := entries[n];
            && n !in Counted(entries, n, account, direction, since)
            && Counted(entries, n + 1, account, direction, since) ==
               Counted(entries, n, account, direction, since)
               + if e.account == account && e.direction == direction && since <= e.createdAt then {n} else {}
  {
  }
}
