/** What becomes of one payout request id: under any interleaving and crash, and in orderly runs. */
module EnginePayout {
  import opened Common
  import opened Ledger
  import opened Engine
  import opened EngineCore
  import Topup

  // --------------------------------------------------- rows and MonCash calls

  ghost predicate RowsOk(s: State) {
    RowsFit(s.book.journal, s.rows) && CallsFit(s.book.journal, s.monCashCalls)
  }

  /** One row per reserve, and rows only for reserves. */
  ghost predicate RowsFit(journal: seq<Posting>, rows: seq<PayoutRow>) {
    && (forall k :: 0 <= k < |rows| ==>
          rows[k].operation < |journal| && journal[rows[k].operation].key.PayoutReserve?)
    && (forall k, l :: 0 <= k < l < |rows| ==> rows[k].operation != rows[l].operation)
  }

  ghost predicate CallsFit(journal: seq<Posting>, calls: seq<PayCall>) {
    forall c :: c in calls ==> c.operation < |journal|
  }

  lemma RowsFitGrow(journal: seq<Posting>, journal': seq<Posting>, rows: seq<PayoutRow>, calls: seq<PayCall>)
    requires RowsFit(journal, rows) && CallsFit(journal, calls) && journal <= journal'
    ensures RowsFit(journal', rows) && CallsFit(journal', calls)
  {
  }

  /** The rows gain at most one, for a reserve that had none. */
  ghost predicate RowsGrow(journal: seq<Posting>, rows: seq<PayoutRow>, rows': seq<PayoutRow>) {
    || rows' == rows
    || (exists row :: rows' == rows + [row] && RowFor(rows, row.operation).None?
          && row.operation < |journal| && journal[row.operation].key.PayoutReserve?)
  }

  ghost predicate CallsGrow(journal: seq<Posting>, calls: seq<PayCall>, calls': seq<PayCall>) {
    calls' == calls || (exists c :: calls' == calls + [c] && c.operation < |journal|)
  }

  lemma RowsStep(cfg: Config, s: State, e: Event)
    requires forall i :: 0 <= i < |s.requests| ==> RequestOk(cfg, s, s.requests[i])
    ensures RowsGrow(s.book.journal, s.rows, Next(cfg, s, e).rows)
    ensures CallsGrow(s.book.journal, s.monCashCalls, Next(cfg, s, e).monCashCalls)
  {
    hide Post, Reverse, Balance, DebitsSince, BookOk, Topup.Commit;
    if e.Step? && e.request < |s.requests| {
      assert RequestOk(cfg, s, s.requests[e.request]);
    }
  }

  lemma {:induction false} NextRowsOk(cfg: Config, s: State, e: Event)
    requires ConfigOk(cfg) && Core(cfg, s) && RowsOk(s)
    ensures RowsOk(Next(cfg, s, e))
  {
    var t := Next(cfg, s, e);
    NextCore(cfg, s, e);
    RowsStep(cfg, s, e);
    hide Next, Core, BookOk, RequestOk;
    RowsFitGrow(s.book.journal, t.book.journal, s.rows, s.monCashCalls);
  }

  lemma {:induction false} RunRowsOk(cfg: Config, run: seq<State>, events: seq<Event>, k: nat)
    requires ConfigOk(cfg) && IsRun(cfg, run, events) && k < |run|
    ensures RowsOk(run[k])
  {
    if k == 0 {
    } else {
      RunRowsOk(cfg, run, events, k - 1);
      RunCore(cfg, run, events, k - 1);
      hide Next, Core, RowsOk;
      NextRowsOk(cfg, run[k - 1], events[k - 1]);
    }
  }

  // -------------------------------------- at most once, whatever happens

  ghost predicate AtMostOneUnder(journal: seq<Posting>, key: Key) {
    forall i, j :: 0 <= i < j < |journal| ==> journal[i].key != key || journal[j].key != key
  }

  ghost predicate AtMostOneReversal(journal: seq<Posting>, op: OpId) {
    forall i, j :: 0 <= i < j < |journal| ==> journal[i].reversalOf != Some(op) || journal[j].reversalOf != Some(op)
  }

  /** What the postings of one payout request id do to an account. */
  function OfPayout(id: RequestId, a: AccountId, c: Currency): Posting -> int {
    (p: Posting) => if p.key == PayoutReserve(id) || p.key == PayoutReversal(id) then Sum(p.legs, LegOn(a, c)) else 0
  }

  /** Reserve and reversal of one id together move nothing; a reserve alone moves its amount. */
  lemma PayoutEffect(b: Book, now: int, id: RequestId, a: AccountId, c: Currency)
    requires BookOk(b, now)
    ensures var reserve, reversal := FindKey(b.journal, PayoutReserve(id)), FindKey(b.journal, PayoutReversal(id));
            Sum(b.journal, OfPayout(id, a, c)) ==
            if reserve.Some? && reversal.None? then PostingOn(a, c)(b.journal[reserve.value]) else 0
  {
    var journal := b.journal;
    var reserve, reversal := FindKey(journal, PayoutReserve(id)), FindKey(journal, PayoutReversal(id));
    if reversal.Some? {
      var j := reversal.value;
      var i := journal[j].reversalOf.value;
      forall k | 0 <= k < |journal| && k != i && k != j ensures OfPayout(id, a, c)(journal[k]) == 0 {
        KeyIsAt(journal, k);
        KeyIsAt(journal, i);
      }
      SumDouble(journal, i, j, OfPayout(id, a, c));
      MirrorCancels(journal[i].legs, a, c);
    } else if reserve.Some? {
      var i := reserve.value;
      forall k | 0 <= k < |journal| && k != i ensures OfPayout(id, a, c)(journal[k]) == 0 {
        KeyIsAt(journal, k);
      }
      SumSingle(journal, i, OfPayout(id, a, c));
    } else {
      SumZero(journal, OfPayout(id, a, c));
    }
  }

  /**
   For every interleaving of requests sharing an id, and every crash: one reserve, one reversal of
   it, one payout row, and the reserved wallet is down by the amount or by nothing, never up and
   never down twice; no other wallet moves at all.
   */
  lemma PayoutAtMostOnce(cfg: Config, run: seq<State>, events: seq<Event>, n: nat, id: RequestId, u: UserId)
    requires ConfigOk(cfg) && IsRun(cfg, run, events) && n < |run|
    ensures var s := run[n]; var journal := s.book.journal;
            && AtMostOneUnder(journal, PayoutReserve(id))
            && AtMostOneUnder(journal, PayoutReversal(id))
            && (forall i :: 0 <= i < |journal| && journal[i].key == PayoutReserve(id) ==> AtMostOneReversal(journal, i))
            && (forall k, l :: 0 <= k < l < |s.rows| ==> s.rows[k].operation != s.rows[l].operation)
    ensures var s := run[n]; var journal := s.book.journal;
            match FindKey(journal, PayoutReserve(id))
            case None => Sum(journal, OfPayout(id, Wallet(u), HTG)) == 0
            case Some(op) =>
              && IsPair(journal[op].legs)
              && Sum(journal, OfPayout(id, Wallet(u), HTG)) ==
                 if journal[op].legs[0].account == Wallet(u) && FindKey(journal, PayoutReversal(id)).None?
                 then -journal[op].legs[0].amount else 0
  {
    RunCore(cfg, run, events, n);
    RunRowsOk(cfg, run, events, n);
    hide IsRun, RequestOk, Topup.RowsOk;
    var b, now := run[n].book, run[n].now;
    OneReversal(b, now, id);
    PayoutEffect(b, now, id, Wallet(u), HTG);
    var reserve := FindKey(b.journal, PayoutReserve(id));
    if reserve.Some? {
      var legs := b.journal[reserve.value].legs;
      assert Shape(b.journal[reserve.value]);
      PairEffect(legs[0].account, legs[1].account, legs[0].amount, Wallet(u), HTG);
      assert legs == [legs[0], legs[1]];
    }
  }

  lemma OneReversal(b: Book, now: int, id: RequestId)
    requires BookOk(b, now)
    ensures forall i :: 0 <= i < |b.journal| && b.journal[i].key == PayoutReserve(id) ==>
             AtMostOneReversal(b.journal, i)
  {
  }

  // ------------------------------------------------------- the view of one id

  /** All the store and MonCash know about one payout request id. */
  datatype View =
    | Absent
    | Present(op: OpId, status: Status, reversal: Option<OpId>, row: Option<PayoutStatus>, asked: nat, paid: bool)

  ghost function RowStatus(rows: seq<PayoutRow>, op: OpId): Option<PayoutStatus> {
    var k := RowFor(rows, op);
    if k.Some? then Some(rows[k.value].status) else None
  }

  /** How often MonCash was asked to pay a reserve. */
  function Asked(calls: seq<PayCall>, op: OpId): nat {
    if calls == [] then 0
    else Asked(calls[..|calls| - 1], op) + if calls[|calls| - 1].operation == op then 1 else 0
  }

  /** Whether MonCash ever said it had. */
  predicate PaidBy(calls: seq<PayCall>, op: OpId) {
    exists k :: 0 <= k < |calls| && calls[k].operation == op && calls[k].paid
  }

  ghost function ViewFrom(b: Book, rows: seq<PayoutRow>, calls: seq<PayCall>, id: RequestId): View
    requires |b.status| == |b.journal|
  {
    match FindKey(b.journal, PayoutReserve(id))
    case None => Absent
    case Some(op) =>
      Present(op, b.status[op], FindKey(b.journal, PayoutReversal(id)), RowStatus(rows, op), Asked(calls, op),
              PaidBy(calls, op))
  }

  ghost function ViewOf(s: State, id: RequestId): View
    requires |s.book.status| == |s.book.journal|
  {
    ViewFrom(s.book, s.rows, s.monCashCalls, id)
  }

  /** A request for the payout `id`. */
  predicate Mine(r: Request, id: RequestId) {
    r.job.purpose.CashOut? && r.job.id == id
  }

  /** Past the reserve and not yet recorded. */
  predicate Busy(r: Request, id: RequestId) {
    Mine(r, id) && (r.phase.Held? || r.phase.Accepted? || r.phase.Declined? || r.phase.Confirmed? || r.phase.Refunded?)
  }

  // How each kind of write shows in the view.

  lemma SavedRowView(b: Book, rows: seq<PayoutRow>, row: PayoutRow, calls: seq<PayCall>, id: RequestId)
    requires |b.status| == |b.journal| && RowFor(rows, row.operation).None?
    ensures var v, v' := ViewFrom(b, rows, calls, id), ViewFrom(b, rows + [row], calls, id);
            if v.Present? && v.op == row.operation then v' == v.(row := Some(row.status)) else v' == v
  {
  }

  lemma CallView(b: Book, rows: seq<PayoutRow>, calls: seq<PayCall>, c: PayCall, id: RequestId)
    requires |b.status| == |b.journal|
    ensures var v, v' := ViewFrom(b, rows, calls, id), ViewFrom(b, rows, calls + [c], id);
            if v.Present? && v.op == c.operation then v' == v.(asked := v.asked + 1, paid := v.paid || c.paid)
            else v' == v
  {
    var calls' := calls + [c];
    assert calls'[..|calls|] == calls;
    forall op ensures PaidBy(calls', op) <==> PaidBy(calls, op) || (c.operation == op && c.paid) {
      assert calls'[|calls|] == c;
      if PaidBy(calls, op) {
        var k :| 0 <= k < |calls| && calls[k].operation == op && calls[k].paid;
        assert calls'[k] == calls[k];
      }
    }
  }

  lemma ConfirmView(b: Book, rows: seq<PayoutRow>, calls: seq<PayCall>, op: OpId, id: RequestId)
    requires |b.status| == |b.journal|
    ensures |Confirm(b, op).status| == |Confirm(b, op).journal|
    ensures var v, v' := ViewFrom(b, rows, calls, id), ViewFrom(Confirm(b, op), rows, calls, id);
            if v.Present? && v.op == op && v.status == Pending then v' == v.(status := Completed) else v' == v
  {
  }

  /** A posting under a new key of another request changes nothing; the reserve of this one makes it present. */
  lemma AppendView(b: Book, rows: seq<PayoutRow>, calls: seq<PayCall>, p: Posting, st: Status, id: RequestId)
    requires |b.status| == |b.journal| && FindKey(b.journal, p.key).None? && p.key != PayoutReversal(id)
    ensures var v, v' := ViewFrom(b, rows, calls, id), ViewFrom(Append(b, p, st), rows, calls, id);
            if p.key == PayoutReserve(id)
            then v == Absent
                 && v' == Present(|b.journal|, st, FindKey(b.journal, PayoutReversal(id)), RowStatus(rows, |b.journal|),
                                  Asked(calls, |b.journal|), PaidBy(calls, |b.journal|))
            else v' == v
  {
  }

  lemma ReverseView(b: Book, rows: seq<PayoutRow>, calls: seq<PayCall>, op: OpId, other: RequestId, now: int,
                    id: RequestId)
    requires BookOk(b, now) && op < |b.journal| && b.journal[op].key == PayoutReserve(other)
    ensures var (b', r) := Reverse(b, op, PayoutReversal(other), now);
            && |b'.status| == |b'.journal|
            && var v, v' := ViewFrom(b, rows, calls, id), ViewFrom(b', rows, calls, id);
               if other == id && r.Ok?
               then v.Present? && v.op == op && v.reversal == None
                    && v' == v.(status := Reversed, reversal := Some(r.value.op))
               else v' == v
    ensures Reverse(b, op, PayoutReversal(other), now).1.Ok? <==> FindKey(b.journal, PayoutReversal(other)).None?
  {
    ReversalRefusedOnlyForItsKey(b, op, PayoutReversal(other), now);
    KeyIsAt(b.journal, op);
    var (b', r) := Reverse(b, op, PayoutReversal(other), now);
    if r.Ok? {
      var p := b'.journal[|b.journal|];
      FindKeyAppend(b.journal, p, PayoutReserve(id));
      FindKeyAppend(b.journal, p, PayoutReversal(id));
    }
  }

  lemma {:induction false} NeverAsked(calls: seq<PayCall>, op: OpId)
    requires forall c :: c in calls ==> c.operation < op
    ensures Asked(calls, op) == 0 && !PaidBy(calls, op)
  {
    if calls == [] {
    } else {
      NeverAsked(calls[..|calls| - 1], op);
    }
  }

  /** A fresh reserve finds no row, no call and no reversal. */
  lemma FreshReserve(s: State, id: RequestId)
    requires BookOk(s.book, s.now) && RowsOk(s) && FindKey(s.book.journal, PayoutReserve(id)).None?
    ensures FindKey(s.book.journal, PayoutReversal(id)).None?
    ensures RowStatus(s.rows, |s.book.journal|) == None
    ensures Asked(s.monCashCalls, |s.book.journal|) == 0 && !PaidBy(s.monCashCalls, |s.book.journal|)
  {
    NeverAsked(s.monCashCalls, |s.book.journal|);
  }

  // ------------------------------------------------------- one step of the run

  /** How a request's step from phase `p` to `p'` moves the view of an id; `mine` if the request is for it. */
  predicate ViewAfter(v: View, v': View, p: Phase, p': Phase, mine: bool, reply: Reply) {
    match p
    case GatesOk =>
      if mine && v.Absent?
      then v'.Present? && v' == Present(v'.op, Pending, None, None, 0, false) && p' == Held(v'.op)
      else v' == v && (mine ==> v.Present? && p' == Recheck(v.op))
    case Recheck(op) =>
      v' == v && (mine ==> v.Present? && v.op == op &&
                           p' == if v.row.Some? then Done(PaidOut(op, v.row.value)) else Held(op))
    case Held(op) =>
      if mine then v.Present? && v.op == op && p' == (if reply.Yes? then Accepted(op) else Declined(op))
                   && v' == v.(asked := v.asked + 1, paid := v.paid || !reply.No?)
      else v' == v
    case Accepted(op) =>
      if mine then v.Present? && v.op == op && p' == Confirmed(op)
                   && v' == if v.status == Pending then v.(status := Completed) else v
      else v' == v
    case Declined(op) =>
      if mine then v.Present? && v.op == op &&
                   if v.reversal == None
                   then v'.Present? && v'.reversal.Some? && p' == Refunded(op, v'.reversal.value)
                        && v' == v.(status := Reversed, reversal := v'.reversal)
                   else v' == v && p'.Stopped?
      else v' == v
    case Confirmed(op) => if mine then RowAfter(v, v', op, p', PayoutCompleted) else v' == v
    case Refunded(op, _) => if mine then RowAfter(v, v', op, p', PayoutFailed) else v' == v
    case Done(_) => v' == v && p' == p
    case Stopped(_) => v' == v && p' == p
    case _ => v' == v && (BeforePost(p') || (p'.Stopped? && !TurnedAway(p'.why)))
  }

  /** The ledger or the row table refused a request that had passed its gates. */
  predicate TurnedAway(why: Refusal) {
    why.LedgerRefused? || why.RowExists?
  }

  predicate RowAfter(v: View, v': View, op: OpId, p': Phase, status: PayoutStatus) {
    && v.Present? && v.op == op
    && if v.row == None then v' == v.(row := Some(status)) && p' == Done(PaidOut(op, status))
       else v' == v && p'.Stopped?
  }

  /** The reserve a request works on is that of its own id, and of no other. */
  lemma OwnReserve(cfg: Config, s: State, r: Request, id: RequestId)
    requires BookOk(s.book, s.now) && RequestOk(cfg, s, r) && ReserveOf(r.phase).Some?
    ensures Mine(r, id) <==> FindKey(s.book.journal, PayoutReserve(id)) == ReserveOf(r.phase)
  {
  }

  lemma PostView(cfg: Config, s: State, i: nat, id: RequestId, reply: Reply)
    requires Core(cfg, s) && RowsOk(s) && i < |s.requests| && s.requests[i].phase.GatesOk?
    ensures var r, t := s.requests[i], PostMoney(s, i);
            && |t.book.status| == |t.book.journal|
            && ViewAfter(ViewOf(s, id), ViewOf(t, id), r.phase, t.requests[i].phase, Mine(r, id), reply)
  {
    var r := s.requests[i];
    assert RequestOk(cfg, s, r);
    JobLegs(r.job);
    var input := PostingInput(r.job);
    if FindKey(s.book.journal, input.key).None? {
      var p := Posting(input.key, input.kind, StoredAll(input.entries), None, s.now);
      AppendView(s.book, s.rows, s.monCashCalls, p, StatusOf(input), id);
      if Mine(r, id) {
        FreshReserve(s, id);
      }
    }
  }

  lemma RefundView(cfg: Config, s: State, i: nat, id: RequestId, reply: Reply)
    requires Core(cfg, s) && i < |s.requests| && s.requests[i].phase.Declined?
    ensures var r := s.requests[i];
            var t := RefundReserve(s, i, r.phase.op);
            && |t.book.status| == |t.book.journal|
            && ViewAfter(ViewOf(s, id), ViewOf(t, id), r.phase, t.requests[i].phase, Mine(r, id), reply)
  {
    var r := s.requests[i];
    assert RequestOk(cfg, s, r);
    OwnReserve(cfg, s, r, id);
    ReverseView(s.book, s.rows, s.monCashCalls, r.phase.op, r.job.id, s.now, id);
    hide Reverse, BookOk, RequestOk;
  }

  lemma SaveRowView(cfg: Config, s: State, i: nat, status: PayoutStatus, reversal: Option<OpId>, id: RequestId)
    requires Core(cfg, s) && i < |s.requests| && (s.requests[i].phase.Confirmed? || s.requests[i].phase.Refunded?)
    ensures var r := s.requests[i];
            var t := SaveRow(s, i, r.phase.op, status, reversal);
            && t.book == s.book
            && if Mine(r, id) then RowAfter(ViewOf(s, id), ViewOf(t, id), r.phase.op, t.requests[i].phase, status)
               else ViewOf(t, id) == ViewOf(s, id)
  {
    var r := s.requests[i];
    OwnReserve(cfg, s, r, id);
    hide BookOk, RequestOk;
    var op := r.phase.op;
    if RowFor(s.rows, op).None? {
      SavedRowView(s.book, s.rows, PayoutRow(op, r.job.payer, Amount(r.job), status, reversal), s.monCashCalls, id);
    }
  }

  lemma LookUpView(cfg: Config, s: State, i: nat, reply: Reply, id: RequestId)
    requires Core(cfg, s) && i < |s.requests| && s.requests[i].phase.Recheck?
    ensures var r, t := s.requests[i], Advance(cfg, s, i, reply);
            && |t.book.status| == |t.book.journal|
            && ViewAfter(ViewOf(s, id), ViewOf(t, id), r.phase, t.requests[i].phase, Mine(r, id), reply)
  {
    OwnReserve(cfg, s, s.requests[i], id);
    hide BookOk, RequestOk, Asked, PaidBy;
  }

  lemma AskView(cfg: Config, s: State, i: nat, reply: Reply, id: RequestId)
    requires Core(cfg, s) && i < |s.requests| && s.requests[i].phase.Held?
    ensures var r, t := s.requests[i], Advance(cfg, s, i, reply);
            && |t.book.status| == |t.book.journal|
            && ViewAfter(ViewOf(s, id), ViewOf(t, id), r.phase, t.requests[i].phase, Mine(r, id), reply)
  {
    OwnReserve(cfg, s, s.requests[i], id);
    var op, job := s.requests[i].phase.op, s.requests[i].job;
    CallView(s.book, s.rows, s.monCashCalls, PayCall(op, job.payer, job.amountHTG, !reply.No?), id);
    hide BookOk, RequestOk, Asked, PaidBy, RowFor;
  }

  lemma ConfirmReserveView(cfg: Config, s: State, i: nat, reply: Reply, id: RequestId)
    requires Core(cfg, s) && i < |s.requests| && s.requests[i].phase.Accepted?
    ensures var r, t := s.requests[i], Advance(cfg, s, i, reply);
            && |t.book.status| == |t.book.journal|
            && ViewAfter(ViewOf(s, id), ViewOf(t, id), r.phase, t.requests[i].phase, Mine(r, id), reply)
  {
    OwnReserve(cfg, s, s.requests[i], id);
    ConfirmView(s.book, s.rows, s.monCashCalls, s.requests[i].phase.op, id);
    hide BookOk, RequestOk, Asked, PaidBy, RowFor;
  }

  lemma GateView(cfg: Config, s: State, i: nat, reply: Reply)
    requires i < |s.requests|
    requires var p := s.requests[i].phase; (BeforePost(p) && !p.GatesOk?) || p.Done? || p.Stopped?
    ensures var p, t := s.requests[i].phase, Advance(cfg, s, i, reply);
            var p' := t.requests[i].phase;
            && t.book == s.book && t.rows == s.rows && t.monCashCalls == s.monCashCalls
            && if BeforePost(p) then BeforePost(p') || (p'.Stopped? && !TurnedAway(p'.why)) else p' == p
  {
  }

  lemma StepView(cfg: Config, s: State, i: nat, reply: Reply, id: RequestId)
    requires Core(cfg, s) && RowsOk(s) && i < |s.requests|
    ensures var r, t := s.requests[i], Advance(cfg, s, i, reply);
            && |t.book.status| == |t.book.journal|
            && ViewAfter(ViewOf(s, id), ViewOf(t, id), r.phase, t.requests[i].phase, Mine(r, id), reply)
  {
    assert |s.book.status| == |s.book.journal|;
    hide RowAfter, Mine, ViewFrom, BookOk, RequestOk, RowsOk, SaveRow, PostMoney, RefundReserve, LookUpRow, CallMonCash;
    match s.requests[i].phase
    case GatesOk => PostView(cfg, s, i, id, reply);
    case Declined(_) => RefundView(cfg, s, i, id, reply);
    case Confirmed(_) => SaveRowView(cfg, s, i, PayoutCompleted, None, id);
    case Refunded(_, reversal) => SaveRowView(cfg, s, i, PayoutFailed, Some(reversal), id);
    case Recheck(_) => LookUpView(cfg, s, i, reply, id);
    case Held(_) => AskView(cfg, s, i, reply, id);
    case Accepted(_) => ConfirmReserveView(cfg, s, i, reply, id);
    case _ => GateView(cfg, s, i, reply);
  }

  lemma TopupView(cfg: Config, s: State, event: Topup.Event, id: RequestId)
    requires Core(cfg, s)
    ensures var t := Next(cfg, s, TopupEvent(event));
            && |t.book.status| == |t.book.journal| && t.requests == s.requests && ViewOf(t, id) == ViewOf(s, id)
  {
    if event.CreditRow? && event.row < |s.topups| && s.topups[event.row].reference.Some? {
      var row := s.topups[event.row];
      CreditPairLegs(Wallet(row.user), FLOAT, row.amountMinor);
      var input := Topup.CreditInput(row);
      if FindKey(s.book.journal, input.key).None? {
        AppendView(s.book, s.rows, s.monCashCalls,
                   Posting(input.key, input.kind, StoredAll(input.entries), None, s.now), Completed, id);
      }
    }
  }
}
