/**
 What every step of the engine keeps, whatever the interleaving and wherever requests die: the
 shape of the journal, the standing of each request, and with them conservation of money.
 */
module EngineCore {
  import opened Common
  import opened Ledger
  import opened Engine
  import Topup

  // ------------------------------------------------------ shape of the journal

  /** A user's wallet debited, the counterpart credited. */
  predicate IsPair(legs: seq<Leg>) {
    && |legs| == 2
    && legs[0].account.Wallet? && legs[0].amount > 0
    && legs[0] == Leg(legs[0].account, Debit, legs[0].amount, HTG)
    && legs[1] == Leg(legs[1].account, Credit, legs[0].amount, HTG)
  }

  /** A user's wallet credited out of the MonCash float. */
  predicate IsCreditPair(legs: seq<Leg>) {
    && |legs| == 2
    && legs[0].account.Wallet? && legs[0].amount > 0
    && legs[0] == Leg(legs[0].account, Credit, legs[0].amount, HTG)
    && legs[1] == Leg(FLOAT, Debit, legs[0].amount, HTG)
  }

  predicate Shape(p: Posting) {
    match p.key
    case WalletTransfer(_) =>
      p.reversalOf == None && p.kind == Transfer && IsPair(p.legs) && p.legs[1].account.Wallet?
    case PayoutReserve(_) => p.reversalOf == None && p.kind == Payout && IsPair(p.legs) && p.legs[1].account == FLOAT
    case PayoutReversal(_) => p.reversalOf.Some? && p.kind == Adjustment && IsCreditPair(p.legs)
    case MonCash(_) => p.reversalOf == None && p.kind == Kind.Topup && IsCreditPair(p.legs)
  }

  /** The reversal keyed by a request reverses the reserve keyed by the same request. */
  ghost predicate ReversalLinks(journal: seq<Posting>) {
    forall j :: 0 <= j < |journal| && journal[j].key.PayoutReversal? ==>
      && journal[j].reversalOf.Some? && journal[j].reversalOf.value < j
      && journal[journal[j].reversalOf.value].key == PayoutReserve(journal[j].key.request)
  }

  ghost predicate BookOk(b: Book, now: int) {
    && WellFormed(b)
    && (forall k :: 0 <= k < |b.journal| ==> Shape(b.journal[k]) && b.journal[k].at <= now)
    && ReversalLinks(b.journal)
  }

  // ------------------------------------------------------ standing of a request

  predicate PastDaily(p: Phase) {
    p.DailyOk? || p.LimitsOk? || p.OtpRight? || p.OtpWrong? || p.GatesOk?
  }

  predicate PastMonthly(p: Phase) {
    p.LimitsOk? || p.OtpRight? || p.OtpWrong? || p.GatesOk?
  }

  /** Between the balance check and the post. */
  predicate InGates(p: Phase) {
    p.BalanceOk? || PastDaily(p)
  }

  predicate BeforePost(p: Phase) {
    p.Started? || InGates(p)
  }

  /** The reserve a payout request is working on. */
  function ReserveOf(p: Phase): Option<OpId> {
    match p
    case Recheck(op) => Some(op)
    case Held(op) => Some(op)
    case Accepted(op) => Some(op)
    case Declined(op) => Some(op)
    case Confirmed(op) => Some(op)
    case Refunded(op, _) => Some(op)
    case Done(PaidOut(op, _)) => Some(op)
    case _ => None
  }

  /** What a request posts, as stored. */
  function LegsFor(job: Job): seq<Leg> {
    [Leg(Wallet(job.payer), Debit, Amount(job), HTG), Leg(Payee(job), Credit, Amount(job), HTG)]
  }

  ghost predicate RequestOk(cfg: Config, s: State, r: Request) {
    var journal := s.book.journal;
    && r.job.payer < |s.tiers| && r.job.amountHTG >= 1
    && (r.job.purpose.SendTo? ==> r.job.purpose.payee != r.job.payer)
    && (r.tier == Verified ==> s.tiers[r.job.payer] == Verified)
    && (PastDaily(r.phase) ==> Amount(r.job) <= DailyCap(cfg, r.tier))
    && (PastMonthly(r.phase) ==> Amount(r.job) <= MonthlyCap(cfg, r.tier))
    && (r.phase.DailyOk? ==> r.phase.monthStart <= cfg.calendar.monthStart(cfg.calendar.dayStart(s.now)))
    && (ReserveOf(r.phase).Some? ==>
          && r.job.purpose.CashOut?
          && ReserveOf(r.phase).value < |journal|
          && journal[ReserveOf(r.phase).value].key == PayoutReserve(r.job.id))
    && (r.phase.Refunded? ==>
          && r.phase.reversal < |journal|
          && journal[r.phase.reversal].key == PayoutReversal(r.job.id)
          && journal[r.phase.reversal].reversalOf == Some(r.phase.op))
    && (r.phase.Done? ==> (r.phase.answer.PaidOut? <==> r.job.purpose.CashOut?))
    && (r.posted.Some? ==>
          && !BeforePost(r.phase)
          && r.posted.value < |journal|
          && journal[r.posted.value].key == KeyOf(r.job)
          && journal[r.posted.value].legs == LegsFor(r.job))
  }

  ghost predicate Core(cfg: Config, s: State) {
    && BookOk(s.book, s.now)
    && Topup.RowsOk(s.topups)
    && (forall i :: 0 <= i < |s.requests| ==> RequestOk(cfg, s, s.requests[i]))
  }

  // ---------------------------------------------------------- the book's steps

  lemma JobLegs(job: Job)
    requires job.amountHTG >= 1
    ensures var legs := StoredAll(PostingInput(job).entries);
            && Objection(legs) == None && BalancedLegs(legs)
            && legs == LegsFor(job)
            && IsPair(legs)
  {
    PairLegs(Wallet(job.payer), Payee(job), Amount(job));
  }

  lemma AppendBookOk(b: Book, p: Posting, st: Status, now: int)
    requires BookOk(b, now) && Shape(p) && BalancedLegs(p.legs) && p.at <= now
    requires FindKey(b.journal, p.key).None? && p.reversalOf == None && st != Reversed
    ensures BookOk(Append(b, p, st), now)
  {
    AppendWellFormed(b, p, st);
    hide WellFormed, BalancedLegs;
    var journal := Append(b, p, st).journal;
    assert forall k :: 0 <= k < |b.journal| ==> journal[k] == b.journal[k];
  }

  lemma PostBookOk(b: Book, job: Job, now: int)
    requires BookOk(b, now) && job.amountHTG >= 1
    ensures BookOk(Post(b, PostingInput(job), now).0, now)
    ensures b.journal <= Post(b, PostingInput(job), now).0.journal
    ensures Post(b, PostingInput(job), now).1.Ok?
  {
    JobLegs(job);
    var input := PostingInput(job);
    if FindKey(b.journal, input.key).None? {
      AppendBookOk(b, Posting(input.key, input.kind, StoredAll(input.entries), None, now), StatusOf(input), now);
    }
  }

  /** The receipt names the one posting under the request's key; a fresh one carries its legs. */
  lemma PostAnswers(b: Book, job: Job, now: int)
    requires job.amountHTG >= 1
    ensures var (b', r) := Post(b, PostingInput(job), now);
            && r.Ok? && r.value.op < |b'.journal| && b'.journal[r.value.op].key == KeyOf(job)
            && b.journal <= b'.journal
            && (r.value.idempotent ==> b' == b)
            && (!r.value.idempotent ==>
                  && r.value.op == |b.journal|
                  && b'.journal == b.journal + [b'.journal[r.value.op]]
                  && b'.journal[r.value.op].legs == LegsFor(job))
  {
    JobLegs(job);
  }

  lemma TopupBookOk(b: Book, row: Topup.TopupRow, now: int)
    requires BookOk(b, now) && row.reference.Some? && row.amountMinor > 0
    ensures BookOk(Post(b, Topup.CreditInput(row), now).0, now)
    ensures b.journal <= Post(b, Topup.CreditInput(row), now).0.journal
  {
    CreditPairLegs(Wallet(row.user), FLOAT, row.amountMinor);
    var input := Topup.CreditInput(row);
    if FindKey(b.journal, input.key).None? {
      AppendBookOk(b, Posting(input.key, input.kind, StoredAll(input.entries), None, now), Completed, now);
    }
  }

  lemma ReverseBookOk(b: Book, op: OpId, id: RequestId, now: int)
    requires BookOk(b, now) && op < |b.journal| && b.journal[op].key == PayoutReserve(id)
    ensures var (b', r) := Reverse(b, op, PayoutReversal(id), now);
            && BookOk(b', now) && b.journal <= b'.journal
            && (r.Err? ==> b' == b)
            && (r.Ok? ==>
                  && r.value.op == |b.journal| && |b'.journal| == |b.journal| + 1
                  && b'.journal[r.value.op] ==
                     Posting(PayoutReversal(id), Adjustment, Mirror(b.journal[op].legs), Some(op), now))
  {
    ReverseWellFormed(b, op, PayoutReversal(id), now);
    var (b', r) := Reverse(b, op, PayoutReversal(id), now);
    assert Shape(b.journal[op]);
    if r.Ok? {
      assert forall k :: 0 <= k < |b.journal| ==> b'.journal[k] == b.journal[k];
      assert Shape(b'.journal[|b.journal|]);
    }
  }

  lemma ConfirmBookOk(b: Book, op: OpId, now: int)
    requires BookOk(b, now)
    ensures BookOk(Confirm(b, op), now) && Confirm(b, op).journal == b.journal
  {
  }

  // -------------------------------------------------------- every step keeps Core

  /** Nothing that happens elsewhere takes a request's standing away. */
  predicate Grows(s: State, t: State) {
    && s.book.journal <= t.book.journal
    && s.now <= t.now
    && |s.tiers| <= |t.tiers|
    && forall u :: 0 <= u < |s.tiers| && s.tiers[u] == Verified ==> t.tiers[u] == Verified
  }

  lemma RequestStable(cfg: Config, s: State, t: State, r: Request)
    requires ConfigOk(cfg) && RequestOk(cfg, s, r) && Grows(s, t)
    ensures RequestOk(cfg, t, r)
  {
  }

  lemma BookTick(b: Book, now: int, later: int)
    requires BookOk(b, now) && now <= later
    ensures BookOk(b, later)
  {
  }

  /** What one step of request `i` leaves behind. */
  ghost predicate Advanced(cfg: Config, s: State, t: State, i: nat)
    requires i < |s.requests|
  {
    && Grows(s, t) && BookOk(t.book, t.now) && t.topups == s.topups
    && |t.requests| == |s.requests| && RequestOk(cfg, t, t.requests[i])
    && t.requests == s.requests[i := t.requests[i]]
  }

  lemma SpentNonNegative(b: Book, a: AccountId, since: int)
    requires WellFormed(b)
    ensures DebitsSince(b.journal, a, since, HTG) >= 0
  {
    DebitsSinceLater(b, a, since, since, HTG);
  }

  /** `t` is `s` but for request `i`, which still stands; rows, codes and the call log are free. */
  ghost predicate OnlyRequest(cfg: Config, s: State, t: State, i: nat)
    requires i < |s.requests|
  {
    && t.book == s.book && t.now == s.now && t.tiers == s.tiers && t.topups == s.topups
    && |t.requests| == |s.requests| && t.requests == s.requests[i := t.requests[i]]
    && RequestOk(cfg, t, t.requests[i])
  }

  lemma CapStep(cfg: Config, s: State, i: nat)
    requires i < |s.requests| && RequestOk(cfg, s, s.requests[i])
    requires forall since :: DebitsSince(s.book.journal, Wallet(s.requests[i].job.payer), since, HTG) >= 0
    ensures var p := s.requests[i].phase;
            && (p.Started? ==> OnlyRequest(cfg, s, CheckBalance(s, i), i))
            && (p.BalanceOk? ==> OnlyRequest(cfg, s, CheckDaily(cfg, s, i), i))
            && (p.DailyOk? ==> OnlyRequest(cfg, s, CheckMonthly(cfg, s, i, p.monthStart), i))
  {
  }

  lemma CodeStep(cfg: Config, s: State, i: nat)
    requires i < |s.requests| && RequestOk(cfg, s, s.requests[i])
    ensures var p := s.requests[i].phase;
            && (p.LimitsOk? ==> OnlyRequest(cfg, s, CheckOtp(cfg, s, i), i))
            && (p.OtpWrong? ==> OnlyRequest(cfg, s, SaveWrongCode(s, i, p.otp, p.attempts), i))
            && (p.OtpRight? ==> OnlyRequest(cfg, s, SaveRightCode(s, i, p.otp, p.checkedAt), i))
  {
  }

  lemma SagaStep(cfg: Config, s: State, i: nat, reply: Reply)
    requires i < |s.requests| && RequestOk(cfg, s, s.requests[i])
    ensures var p := s.requests[i].phase;
            && (p.Recheck? ==> OnlyRequest(cfg, s, LookUpRow(s, i, p.op), i))
            && (p.Held? ==> OnlyRequest(cfg, s, CallMonCash(s, i, p.op, reply), i))
  {
  }

  lemma RowStep(cfg: Config, s: State, i: nat, status: PayoutStatus, reversal: Option<OpId>)
    requires i < |s.requests| && RequestOk(cfg, s, s.requests[i])
    requires s.requests[i].phase.Confirmed? || s.requests[i].phase.Refunded?
    ensures OnlyRequest(cfg, s, SaveRow(s, i, s.requests[i].phase.op, status, reversal), i)
  {
  }

  /** Every step but the post, the confirmation and the refund leaves the book alone. */
  lemma QuietCore(cfg: Config, s: State, i: nat, reply: Reply)
    requires Core(cfg, s) && i < |s.requests|
    requires var p := s.requests[i].phase; !p.GatesOk? && !p.Accepted? && !p.Declined?
    ensures Advanced(cfg, s, Advance(cfg, s, i, reply), i)
    ensures Advance(cfg, s, i, reply).book == s.book
  {
    forall since ensures DebitsSince(s.book.journal, Wallet(s.requests[i].job.payer), since, HTG) >= 0 {
      SpentNonNegative(s.book, Wallet(s.requests[i].job.payer), since);
    }
    CapStep(cfg, s, i);
    CodeStep(cfg, s, i);
    SagaStep(cfg, s, i, reply);
    match s.requests[i].phase
    case Confirmed(_) => RowStep(cfg, s, i, PayoutCompleted, None);
    case Refunded(_, reversal) => RowStep(cfg, s, i, PayoutFailed, Some(reversal));
    case _ =>
  }

  lemma PostCore(cfg: Config, s: State, i: nat)
    requires ConfigOk(cfg) && Core(cfg, s) && i < |s.requests| && s.requests[i].phase.GatesOk?
    ensures Advanced(cfg, s, PostMoney(s, i), i)
  {
    hide BookOk;
    var r := s.requests[i];
    PostBookOk(s.book, r.job, s.now);
    PostAnswers(s.book, r.job, s.now);
    hide Post;
    var t := PostMoney(s, i);
    assert t.book.journal[..|s.book.journal|] == s.book.journal;
  }

  lemma ConfirmCore(cfg: Config, s: State, i: nat)
    requires Core(cfg, s) && i < |s.requests| && s.requests[i].phase.Accepted?
    ensures Advanced(cfg, s, ConfirmReserve(s, i, s.requests[i].phase.op), i)
  {
    ConfirmBookOk(s.book, s.requests[i].phase.op, s.now);
  }

  lemma RefundCore(cfg: Config, s: State, i: nat)
    requires ConfigOk(cfg) && Core(cfg, s) && i < |s.requests| && s.requests[i].phase.Declined?
    ensures Advanced(cfg, s, RefundReserve(s, i, s.requests[i].phase.op), i)
  {
    var r := s.requests[i];
    assert BookOk(s.book, s.now);
    hide BookOk;
    ReverseBookOk(s.book, r.phase.op, r.job.id, s.now);
    hide Reverse;
    RequestStable(cfg, s, RefundReserve(s, i, r.phase.op).(requests := s.requests), r);
  }

  lemma AdvanceCore(cfg: Config, s: State, i: nat, reply: Reply)
    requires ConfigOk(cfg) && Core(cfg, s) && i < |s.requests|
    ensures Advanced(cfg, s, Advance(cfg, s, i, reply), i)
  {
    hide BookOk, RequestOk;
    var phase := s.requests[i].phase;
    if phase.GatesOk? {
      PostCore(cfg, s, i);
    } else if phase.Declined? {
      RefundCore(cfg, s, i);
    } else if phase.Accepted? {
      ConfirmCore(cfg, s, i);
    } else {
      QuietCore(cfg, s, i, reply);
    }
  }

  lemma TopupCore(cfg: Config, s: State, event: Topup.Event)
    requires Core(cfg, s)
    ensures var t := Next(cfg, s, TopupEvent(event));
            && Grows(s, t) && BookOk(t.book, t.now) && Topup.RowsOk(t.topups) && t.requests == s.requests
  {
    Topup.CommitRowsOk(Topup.Desk(s.book, s.topups), event, s.now);
    if event.CreditRow? && event.row < |s.topups| && s.topups[event.row].reference.Some? {
      TopupBookOk(s.book, s.topups[event.row], s.now);
    }
  }

  lemma AllStable(cfg: Config, s: State, t: State, except: nat)
    requires ConfigOk(cfg) && Grows(s, t) && |s.requests| <= |t.requests|
    requires forall j :: 0 <= j < |s.requests| ==> RequestOk(cfg, s, s.requests[j])
    requires forall j :: 0 <= j < |t.requests| && (j == except || j >= |s.requests|) ==>
        RequestOk(cfg, t, t.requests[j])
    requires forall j :: 0 <= j < |s.requests| && j != except ==> t.requests[j] == s.requests[j]
    ensures forall j :: 0 <= j < |t.requests| ==> RequestOk(cfg, t, t.requests[j])
  {
  }

  /** The request an event moves; an index past the table when it moves none. */
  function Mover(s: State, e: Event): nat {
    if e.Step? || e.Crash? then e.request else |s.requests| + 1
  }

  lemma {:induction false} NextCore(cfg: Config, s: State, e: Event)
    requires ConfigOk(cfg) && Core(cfg, s)
    ensures Core(cfg, Next(cfg, s, e)) && Grows(s, Next(cfg, s, e))
  {
    hide WellFormed, Shape;
    var t := Next(cfg, s, e);
    match e {
      case Tick(_) => BookTick(s.book, s.now, t.now);
      case Step(i, reply) =>
        if i < |s.requests| {
          AdvanceCore(cfg, s, i, reply);
        }
      case TopupEvent(event) => TopupCore(cfg, s, event);
      case _ =>
    }
    AllStable(cfg, s, t, Mover(s, e));
  }

  /** In every state of every run. */
  lemma {:induction false} RunCore(cfg: Config, run: seq<State>, events: seq<Event>, k: nat)
    requires ConfigOk(cfg) && IsRun(cfg, run, events) && k < |run|
    ensures Core(cfg, run[k])
  {
    if k == 0 {
    } else {
      RunCore(cfg, run, events, k - 1);
      NextCore(cfg, run[k - 1], events[k - 1]);
    }
  }

  // ------------------------------------------------ a step moves one request

  lemma AdvanceKeepsJob(cfg: Config, s: State, i: nat, reply: Reply)
    requires i < |s.requests|
    ensures |Advance(cfg, s, i, reply).requests| == |s.requests|
    ensures Advance(cfg, s, i, reply).requests[i].job == s.requests[i].job
    ensures Advance(cfg, s, i, reply).requests ==
            s.requests[i := Advance(cfg, s, i, reply).requests[i]]
  {
    hide Post, Reverse, RowFor, Balance, DebitsSince;
  }

  // -------------------------------------------------------------- conservation

  function WalletLeg(l: Leg): int {
    if l.account.Wallet? then Signed(l) else 0
  }

  function WalletPart(p: Posting): int {
    Sum(p.legs, WalletLeg)
  }

  datatype Report = Report(walletTotal: int, floatBalance: int, discrepancy: int, isBalanced: bool)

  /** `getReconciliation`: all user-wallet entries, in any currency, against the float's balance in gourdes. */
  function Reconciliation(b: Book): Report {
    var wallets := Sum(b.journal, WalletPart);
    var float := Balance(b.journal, FLOAT, HTG);
    Report(wallets, float, wallets + float, wallets + float == 0)
  }

  lemma ShapedPartsCancel(p: Posting)
    requires Shape(p)
    ensures WalletPart(p) + PostingOn(FLOAT, HTG)(p) == 0
  {
    SumOfTwo(p.legs, WalletLeg);
    SumOfTwo(p.legs, LegOn(FLOAT, HTG));
  }

  /**
   Conservation: in every state of every run, crashes included, the entries of each currency sum to
   zero, and the report of the reconciliation is balanced.
   */
  lemma Conservation(cfg: Config, run: seq<State>, events: seq<Event>, k: nat, c: Currency)
    requires ConfigOk(cfg) && IsRun(cfg, run, events) && k < |run|
    ensures Sum(run[k].book.journal, PostingIn(c)) == 0
    ensures Reconciliation(run[k].book).isBalanced
  {
    RunCore(cfg, run, events, k);
    var b := run[k].book;
    EntriesSumToZero(b, c);
    var zero := (p: Posting) => 0;
    forall i | 0 <= i < |b.journal|
      ensures WalletPart(b.journal[i]) + PostingOn(FLOAT, HTG)(b.journal[i]) == zero(b.journal[i])
    {
      ShapedPartsCancel(b.journal[i]);
    }
    SumPointwise(b.journal, WalletPart, PostingOn(FLOAT, HTG), zero);
    SumZero(b.journal, zero);
  }
}
