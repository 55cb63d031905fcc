/**
 MonCash top-ups. A top-up row is credited by a webhook that MonCash may deliver any number of
 times, in any order, mixed with failure notices, and whose handler may die between its commits.
 Each event below is one commit; a handler that dies simply never makes its next one.
 */
module Topup {
  import opened Common
  import opened Ledger

  const FLOAT: AccountId := System("moncash_float")

  const MIN_TOPUP_HTG := 25

  datatype TopupStatus = TopupPending | TopupCompleted | TopupFailed

  datatype TopupRow =
    TopupRow(user: nat, amountMinor: int, status: TopupStatus, reference: Option<nat>, operation: Option<OpId>)

  /** What top-ups read and write: the book and the table of top-up rows. */
  datatype Desk = Desk(book: Book, rows: seq<TopupRow>)

  datatype Event =
    | Initiate(user: nat, amountHTG: int)
    | Refer(row: nat, reference: nat)
    | GiveUp(row: nat)
    | CreditRow(row: nat)
    | MarkCompleted(row: nat, operation: OpId)
    | MarkFailed(row: nat)

  /** The partial unique index on `providerReference`. */
  predicate ReferenceTaken(rows: seq<TopupRow>, reference: nat) {
    exists t :: 0 <= t < |rows| && rows[t].reference == Some(reference)
  }

  function CreditInput(row: TopupRow): PostInput
    requires row.reference.Some?
  {
    PostInput(MonCash(row.reference.value), Topup, CreditPair(Wallet(row.user), FLOAT, row.amountMinor), None)
  }

  ghost function Commit(d: Desk, e: Event, now: int): Desk {
    match e
    case Initiate(user, amountHTG) =>
      if amountHTG < MIN_TOPUP_HTG then d
      else d.(rows := d.rows + [TopupRow(user, amountHTG * 100, TopupPending, None, None)])
    case Refer(t, reference) =>
      if t < |d.rows| && d.rows[t].reference == None && !ReferenceTaken(d.rows, reference)
      then d.(rows := d.rows[t := d.rows[t].(reference := Some(reference))])
      else d
    case GiveUp(t) =>
      if t < |d.rows| && d.rows[t].status == TopupPending && d.rows[t].reference == None
      then d.(rows := d.rows[t := d.rows[t].(status := TopupFailed)])
      else d
    case CreditRow(t) =>
      if t < |d.rows| && d.rows[t].reference.Some?
      then d.(book := Post(d.book, CreditInput(d.rows[t]), now).0)
      else d
    case MarkCompleted(t, op) =>
      if t < |d.rows| && d.rows[t].reference.Some?
      then d.(rows := d.rows[t := d.rows[t].(status := TopupCompleted, operation := Some(op))])
      else d
    case MarkFailed(t) =>
      if t < |d.rows| && d.rows[t].reference.Some?
      then d.(rows := d.rows[t := d.rows[t].(status := TopupFailed)])
      else d
  }

  // ------------------------------------------------------------ invariants

  ghost predicate RowsOk(rows: seq<TopupRow>) {
    && (forall t :: 0 <= t < |rows| ==> rows[t].amountMinor > 0)
    && (forall t, u :: 0 <= t < u < |rows| && rows[t].reference.Some? ==> rows[t].reference != rows[u].reference)
  }

  ghost predicate Credited(d: Desk, t: nat)
    requires t < |d.rows|
  {
    d.rows[t].reference.Some? && FindKey(d.book.journal, MonCash(d.rows[t].reference.value)).Some?
  }

  lemma CommitRowsOk(d: Desk, e: Event, now: int)
    requires RowsOk(d.rows)
    ensures RowsOk(Commit(d, e, now).rows)
    ensures |d.rows| <= |Commit(d, e, now).rows|
    ensures forall t :: 0 <= t < |d.rows| ==>
              && Commit(d, e, now).rows[t].user == d.rows[t].user
              && Commit(d, e, now).rows[t].amountMinor == d.rows[t].amountMinor
              && (d.rows[t].reference.Some? ==> Commit(d, e, now).rows[t].reference == d.rows[t].reference)
  {
  }

  /** What one accepted credit moves. */
  function Move(row: TopupRow, a: AccountId, c: Currency): int {
    if c != HTG then 0
    else (if a == Wallet(row.user) then row.amountMinor else 0) - (if a == FLOAT then row.amountMinor else 0)
  }

  lemma CreditEffect(d: Desk, t: nat, now: int, a: AccountId, c: Currency)
    requires t < |d.rows| && RowsOk(d.rows) && d.rows[t].reference.Some?
    ensures var d' := Commit(d, CreditRow(t), now);
            Balance(d'.book.journal, a, c) ==
            Balance(d.book.journal, a, c) + if Credited(d, t) then 0 else Move(d.rows[t], a, c)
  {
    var input := CreditInput(d.rows[t]);
    CreditPairLegs(Wallet(d.rows[t].user), FLOAT, d.rows[t].amountMinor);
    if !Credited(d, t) {
      var legs := StoredAll(input.entries);
      SumOfTwo(legs, LegOn(a, c));
      BalanceAppend(d.book.journal, Posting(input.key, Topup, legs, None, now), a, c);
    }
  }

  // ------------------------------------------------------------ confluence

  datatype Delivery = Delivery(event: Event, now: int)

  /** Webhook traffic over a fixed set of rows: credits, completion marks and failure notices. */
  predicate IsWebhook(e: Event) {
    e.CreditRow? || e.MarkCompleted? || e.MarkFailed?
  }

  ghost function Deliver(d: Desk, ds: seq<Delivery>): Desk
    decreases |ds|
  {
    if ds == [] then d
    else var n := |ds| - 1; Commit(Deliver(d, ds[..n]), ds[n].event, ds[n].now)
  }

  /** A completed notice for row `t` reached its post at least once. */
  predicate CompletedFor(ds: seq<Delivery>, t: nat) {
    exists k :: 0 <= k < |ds| && ds[k].event == CreditRow(t)
  }

  /** The money the rows with a completed delivery move, each row once, none that was credited before. */
  ghost function Due(d: Desk, ds: seq<Delivery>, n: nat, a: AccountId, c: Currency): int
    requires n <= |d.rows|
  {
    if n == 0 then 0
    else
      Due(d, ds, n - 1, a, c)
      + if CompletedFor(ds, n - 1) && d.rows[n - 1].reference.Some? && !Credited(d, n - 1)
        then Move(d.rows[n - 1], a, c) else 0
  }

  lemma DeliverKeepsRows(d: Desk, ds: seq<Delivery>)
    requires RowsOk(d.rows) && forall k :: 0 <= k < |ds| ==> IsWebhook(ds[k].event)
    ensures RowsOk(Deliver(d, ds).rows) && |Deliver(d, ds).rows| == |d.rows|
    ensures forall t :: 0 <= t < |d.rows| ==>
              && Deliver(d, ds).rows[t].user == d.rows[t].user
              && Deliver(d, ds).rows[t].amountMinor == d.rows[t].amountMinor
              && Deliver(d, ds).rows[t].reference == d.rows[t].reference
    decreases |ds|
  {
  }

  /** After any deliveries a row is credited exactly if it was before, or a completed notice posted. */
  lemma {:induction false} CreditedWhen(d: Desk, ds: seq<Delivery>, t: nat)
    requires RowsOk(d.rows) && forall k :: 0 <= k < |ds| ==> IsWebhook(ds[k].event)
    requires t < |d.rows| && d.rows[t].reference.Some?
    ensures |Deliver(d, ds).rows| == |d.rows|
    ensures Credited(Deliver(d, ds), t) <==> Credited(d, t) || CompletedFor(ds, t)
    decreases |ds|
  {
    DeliverKeepsRows(d, ds);
    if ds == [] {
    } else {
      var n := |ds| - 1;
      DeliverKeepsRows(d, ds[..n]);
      CreditedWhen(d, ds[..n], t);
      CompletedForLast(ds, t);
      var mid := Deliver(d, ds[..n]);
      var key := MonCash(d.rows[t].reference.value);
      match ds[n].event
      case CreditRow(u) =>
        if u < |mid.rows| && mid.rows[u].reference.Some? {
          var input := CreditInput(mid.rows[u]);
          CreditPairLegs(Wallet(mid.rows[u].user), FLOAT, mid.rows[u].amountMinor);
          FindKeyAppend(mid.book.journal, Posting(input.key, Topup, StoredAll(input.entries), None, ds[n].now), key);
        }
      case _ =>
    }
  }

  lemma CompletedForLast(ds: seq<Delivery>, t: nat)
    requires ds != []
    ensures CompletedFor(ds, t) <==> CompletedFor(ds[..|ds| - 1], t) || ds[|ds| - 1].event == CreditRow(t)
  {
  }

  lemma {:induction false} DueStep(d: Desk, ds: seq<Delivery>, n: nat, a: AccountId, c: Currency)
    requires ds != [] && n <= |d.rows|
    ensures var last := ds[|ds| - 1].event;
            Due(d, ds, n, a, c) == Due(d, ds[..|ds| - 1], n, a, c)
            + if last.CreditRow? && last.row < n && d.rows[last.row].reference.Some? && !Credited(d, last.row)
                 && !CompletedFor(ds[..|ds| - 1], last.row)
              then Move(d.rows[last.row], a, c) else 0
  {
    if n == 0 {
    } else {
      DueStep(d, ds, n - 1, a, c);
      CompletedForLast(ds, n - 1);
    }
  }

  /** One more delivery moves what it adds to the money due. */
  lemma DeliverOne(d: Desk, ds: seq<Delivery>, next: Delivery, a: AccountId, c: Currency)
    requires RowsOk(d.rows) && IsWebhook(next.event) && forall k :: 0 <= k < |ds| ==> IsWebhook(ds[k].event)
    ensures Balance(Commit(Deliver(d, ds), next.event, next.now).book.journal, a, c) ==
            Balance(Deliver(d, ds).book.journal, a, c)
            + if next.event.CreditRow? && next.event.row < |d.rows| && d.rows[next.event.row].reference.Some?
                 && !Credited(d, next.event.row) && !CompletedFor(ds, next.event.row)
              then Move(d.rows[next.event.row], a, c) else 0
  {
    DeliverKeepsRows(d, ds);
    if next.event.CreditRow? && next.event.row < |d.rows| && d.rows[next.event.row].reference.Some? {
      CreditedWhen(d, ds, next.event.row);
      CreditEffect(Deliver(d, ds), next.event.row, next.now, a, c);
    }
  }

  /** Every balance after any deliveries: what it was, plus each completed known reference once. */
  lemma {:induction false} DeliveredBalance(d: Desk, ds: seq<Delivery>, a: AccountId, c: Currency)
    requires RowsOk(d.rows) && forall k :: 0 <= k < |ds| ==> IsWebhook(ds[k].event)
    ensures Balance(Deliver(d, ds).book.journal, a, c) ==
            Balance(d.book.journal, a, c) + Due(d, ds, |d.rows|, a, c)
    decreases |ds|
  {
    if ds == [] {
      NothingDue(d, |d.rows|, a, c);
    } else {
      var n := |ds| - 1;
      DeliveredBalance(d, ds[..n], a, c);
      DueStep(d, ds, |d.rows|, a, c);
      DeliverOne(d, ds[..n], ds[n], a, c);
    }
  }

  lemma {:induction false} NothingDue(d: Desk, n: nat, a: AccountId, c: Currency)
    requires n <= |d.rows|
    ensures Due(d, [], n, a, c) == 0
  {
    if n == 0 {
    } else {
      NothingDue(d, n - 1, a, c);
    }
  }

  lemma {:induction false} SameDue(d: Desk, ds: seq<Delivery>, es: seq<Delivery>, n: nat, a: AccountId, c: Currency)
    requires n <= |d.rows|
    requires forall t :: 0 <= t < |d.rows| && d.rows[t].reference.Some? ==>
               (CompletedFor(ds, t) <==> CompletedFor(es, t))
    ensures Due(d, ds, n, a, c) == Due(d, es, n, a, c)
  {
    if n == 0 {
    } else {
      SameDue(d, ds, es, n - 1, a, c);
    }
  }

  /**
   Confluence: two histories of notices, with any duplicates, order, failure notices and handlers
   that died after the post, leave every balance equal as soon as the same known references had a
   completed notice posted.
   */
  lemma {:induction false} Confluence(d: Desk, ds: seq<Delivery>, es: seq<Delivery>, a: AccountId, c: Currency)
    requires RowsOk(d.rows)
    requires forall k :: 0 <= k < |ds| ==> IsWebhook(ds[k].event)
    requires forall k :: 0 <= k < |es| ==> IsWebhook(es[k].event)
    requires forall t :: 0 <= t < |d.rows| && d.rows[t].reference.Some? ==>
               (CompletedFor(ds, t) <==> CompletedFor(es, t))
    ensures Balance(Deliver(d, ds).book.journal, a, c) == Balance(Deliver(d, es).book.journal, a, c)
  {
    DeliveredBalance(d, ds, a, c);
    DeliveredBalance(d, es, a, c);
    SameDue(d, ds, es, |d.rows|, a, c);
  }

  // ----------------------------------------------------------- what a row says

  /** What one commit makes of a row's status. */
  lemma StatusAfter(d: Desk, e: Event, now: int, t: nat)
    requires t < |Commit(d, e, now).rows|
    ensures var status := Commit(d, e, now).rows[t].status;
            && (t >= |d.rows| ==> status == TopupPending)
            && (t < |d.rows| && status != d.rows[t].status ==>
                  || (e.MarkCompleted? && e.row == t && d.rows[t].reference.Some? && status == TopupCompleted)
                  || (e == MarkFailed(t) && d.rows[t].reference.Some? && status == TopupFailed)
                  || (e == GiveUp(t) && d.rows[t].reference.None? && d.rows[t].status == TopupPending
                      && status == TopupFailed))
            && (t < |d.rows| && d.rows[t].reference.Some? ==>
                  && (e.MarkCompleted? && e.row == t ==> status == TopupCompleted)
                  && (e == MarkFailed(t) ==> status == TopupFailed))
            && (t < |d.rows| && d.rows[t].reference.None? && d.rows[t].status == TopupPending && e == GiveUp(t) ==>
                  status == TopupFailed)
  {
  }

  predicate Completes(e: Event, t: nat) {
    e.MarkCompleted? && e.row == t
  }

  predicate Marks(e: Event, t: nat) {
    e == MarkFailed(t) || Completes(e, t)
  }

  /** A failure notice for row `t` was saved, and no completion after it. */
  predicate FailedLast(ds: seq<Delivery>, t: nat) {
    exists k :: 0 <= k < |ds| && ds[k].event == MarkFailed(t)
                && forall j :: k < j < |ds| ==> !Completes(ds[j].event, t)
  }

  predicate Marked(ds: seq<Delivery>, t: nat) {
    exists k :: 0 <= k < |ds| && Marks(ds[k].event, t)
  }

  lemma MarkedLast(ds: seq<Delivery>, t: nat)
    requires ds != []
    ensures var n := |ds| - 1;
            && (Marked(ds, t) <==> Marked(ds[..n], t) || Marks(ds[n].event, t))
            && (FailedLast(ds, t) <==>
                  ds[n].event == MarkFailed(t) || (FailedLast(ds[..n], t) && !Marks(ds[n].event, t)))
  {
    var n := |ds| - 1;
    var init := ds[..n];
    if Marked(init, t) {
      var k :| 0 <= k < n && Marks(init[k].event, t);
      assert Marks(ds[k].event, t);
    }
    if Marked(ds, t) && !Marks(ds[n].event, t) {
      var k :| 0 <= k < |ds| && Marks(ds[k].event, t);
      assert Marks(init[k].event, t);
    }
    if FailedLast(init, t) && !Marks(ds[n].event, t) {
      var k :| 0 <= k < n && init[k].event == MarkFailed(t)
               && forall j :: k < j < n ==> !Completes(init[j].event, t);
      assert ds[k].event == MarkFailed(t);
      assert forall j :: k < j < n ==> ds[j] == init[j];
    }
    if FailedLast(ds, t) && ds[n].event != MarkFailed(t) {
      var k :| 0 <= k < |ds| && ds[k].event == MarkFailed(t)
               && forall j :: k < j < |ds| ==> !Completes(ds[j].event, t);
      assert init[k].event == MarkFailed(t);
      assert forall j :: k < j < n ==> init[j] == ds[j];
    }
  }

  /**
   A row's status is that of the last notice saved for it. So a completed top-up stays COMPLETED exactly
   when no failure notice is saved after its last completion; its money stays in either case.
   */
  lemma {:induction false} StatusIsLastMark(d: Desk, ds: seq<Delivery>, t: nat)
    requires RowsOk(d.rows) && forall k :: 0 <= k < |ds| ==> IsWebhook(ds[k].event)
    requires t < |d.rows| && d.rows[t].reference.Some?
    ensures |Deliver(d, ds).rows| == |d.rows|
    ensures Deliver(d, ds).rows[t].status ==
            if !Marked(ds, t) then d.rows[t].status
            else if FailedLast(ds, t) then TopupFailed
            else TopupCompleted
    decreases |ds|
  {
    DeliverKeepsRows(d, ds);
    if ds == [] {
    } else {
      var n := |ds| - 1;
      DeliverKeepsRows(d, ds[..n]);
      StatusIsLastMark(d, ds[..n], t);
      MarkedLast(ds, t);
      hide FailedLast, Marked, Post;
    }
  }
}
