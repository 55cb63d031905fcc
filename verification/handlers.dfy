/**
 The handlers as the service runs them, one statement after another on the tables: the OTP and limit
 gates, the transfer, and the payout saga. Each is proved to do exactly what the machine of module
 `Engine` does when its request is submitted and advanced to its end undisturbed.
 */
module Undisturbed {
  import opened Common
  import opened Ledger
  import opened Engine
  import opened EngineCore

  /** How many steps a request can still take. */
  function StepsLeft(p: Phase): nat {
    match p
    case Started => 10
    case BalanceOk => 9
    case DailyOk(_) => 8
    case LimitsOk => 7
    case OtpRight(_, _) => 6
    case OtpWrong(_, _) => 6
    case GatesOk => 5
    case Recheck(_) => 4
    case Held(_) => 3
    case Accepted(_) => 2
    case Declined(_) => 2
    case Confirmed(_) => 1
    case Refunded(_, _) => 1
    case Done(_) => 0
    case Stopped(_) => 0
  }

  lemma GateStepsRunOut(cfg: Config, s: State, i: nat, reply: Reply)
    requires i < |s.requests| && BeforePost(s.requests[i].phase)
    ensures |Advance(cfg, s, i, reply).requests| == |s.requests|
    ensures StepsLeft(Advance(cfg, s, i, reply).requests[i].phase) < StepsLeft(s.requests[i].phase)
  {
  }

  lemma SagaStepsRunOut(cfg: Config, s: State, i: nat, reply: Reply)
    requires i < |s.requests| && !BeforePost(s.requests[i].phase) && StepsLeft(s.requests[i].phase) > 0
    ensures |Advance(cfg, s, i, reply).requests| == |s.requests|
    ensures StepsLeft(Advance(cfg, s, i, reply).requests[i].phase) < StepsLeft(s.requests[i].phase)
  {
    hide Reverse, RowFor;
  }

  lemma StepsRunOut(cfg: Config, s: State, i: nat, reply: Reply)
    requires i < |s.requests| && StepsLeft(s.requests[i].phase) > 0
    ensures |Advance(cfg, s, i, reply).requests| == |s.requests|
    ensures StepsLeft(Advance(cfg, s, i, reply).requests[i].phase) < StepsLeft(s.requests[i].phase)
  {
    hide Advance, StepsLeft;
    if BeforePost(s.requests[i].phase) {
      GateStepsRunOut(cfg, s, i, reply);
    } else {
      SagaStepsRunOut(cfg, s, i, reply);
    }
  }

  /** Request `i` advanced until it is answered or stopped, with nothing in between. */
  ghost function Complete(cfg: Config, s: State, i: nat, reply: Reply): State
    requires i < |s.requests|
    decreases StepsLeft(s.requests[i].phase)
  {
    if StepsLeft(s.requests[i].phase) == 0 then s
    else
      StepsRunOut(cfg, s, i, reply);
      Complete(cfg, Advance(cfg, s, i, reply), i, reply)
  }

  lemma CompleteStep(cfg: Config, s: State, i: nat, reply: Reply)
    requires i < |s.requests| && StepsLeft(s.requests[i].phase) > 0
    ensures |Advance(cfg, s, i, reply).requests| == |s.requests|
    ensures Complete(cfg, s, i, reply) == Complete(cfg, Advance(cfg, s, i, reply), i, reply)
  {
  }

  lemma CompleteEnd(cfg: Config, s: State, i: nat, reply: Reply)
    requires i < |s.requests| && StepsLeft(s.requests[i].phase) == 0
    ensures Complete(cfg, s, i, reply) == s
  {
  }
}

module Handlers {
  import opened Common
  import opened Ledger
  import opened Engine
  import opened EngineCore
  import opened Undisturbed
  import L = LedgerService

  /** A request's own posting is never refused. */
  lemma JobPosted(job: Job, b: Book, now: int)
    requires job.amountHTG >= 1
    ensures var (after, r) := Post(b, PostingInput(job), now);
            r.Ok? && Posted(b, after, job, r.value.op, r.value.idempotent, now)
  {
    JobLegs(job);
  }

  function PhaseAfterGates(refusal: Option<Refusal>): Phase {
    match refusal
    case Some(why) => Stopped(why)
    case None => GatesOk
  }

  function PhaseAfter(answer: Result<Answer, Refusal>): Phase {
    match answer
    case Ok(a) => Done(a)
    case Err(why) => Stopped(why)
  }

  /** The code claimed is the user's own, unused, not expired, with tries left, and of this value. */
  predicate Accepts(otps: seq<Otp>, user: UserId, claim: OtpClaim, now: int) {
    && claim.otp < |otps|
    && var otp := otps[claim.otp];
       && otp.user == user && otp.consumedAt.None? && now <= otp.expiresAt && otp.attempts < otp.maxAttempts
       && otp.codeHash == claim.codeHash
  }

  /** The wallet covers the amount, today and this month have room for it, and a large one comes with its code. */
  predicate Passes(cfg: Config, journal: seq<Posting>, otps: seq<Otp>, tier: Tier, job: Job, now: int) {
    var wallet, minor, today := Wallet(job.payer), job.amountHTG * 100, cfg.calendar.dayStart(now);
    && Balance(journal, wallet, HTG) >= minor
    && DebitsSince(journal, wallet, today, HTG) + minor
       <= (if tier == Verified then cfg.verifiedDailyHTG else cfg.basicDailyHTG) * 100
    && DebitsSince(journal, wallet, cfg.calendar.monthStart(today), HTG) + minor
       <= (if tier == Verified then cfg.verifiedMonthlyHTG else cfg.basicMonthlyHTG) * 100
    && (job.amountHTG >= cfg.otpThresholdHTG ==> job.otp.Some? && Accepts(otps, job.payer, job.otp.value, now))
  }

  /** The posting of a request: `amountHTG` gourdes in centimes, from the payer to the payee or the float. */
  function Written(job: Job, now: int): Posting {
    var minor := job.amountHTG * 100;
    match job.purpose
    case SendTo(payee) =>
      Posting(WalletTransfer(job.id), Transfer,
              [Leg(Wallet(job.payer), Debit, minor, "HTG"), Leg(Wallet(payee), Credit, minor, "HTG")], None, now)
    case CashOut =>
      Posting(PayoutReserve(job.id), Payout,
              [Leg(Wallet(job.payer), Debit, minor, "HTG"), Leg(System("moncash_float"), Credit, minor, "HTG")],
              None, now)
  }

  /** What gives a payout's reserve back. */
  function WrittenBack(job: Job, reserve: OpId, now: int): Posting {
    var minor := job.amountHTG * 100;
    Posting(PayoutReversal(job.id), Adjustment,
            [Leg(Wallet(job.payer), Credit, minor, "HTG"), Leg(System("moncash_float"), Debit, minor, "HTG")],
            Some(reserve), now)
  }

  ghost predicate HasKey(journal: seq<Posting>, key: Key) {
    exists k :: 0 <= k < |journal| && journal[k].key == key
  }

  ghost predicate OnlyAt(journal: seq<Posting>, key: Key, op: OpId) {
    && op < |journal| && journal[op].key == key
    && forall k :: 0 <= k < |journal| && journal[k].key == key ==> k == op
  }

  ghost predicate HasRow(rows: seq<PayoutRow>, op: OpId) {
    exists k :: 0 <= k < |rows| && rows[k].operation == op
  }

  /** The operation of a request is in the ledger: found there under its key, or else written now. */
  ghost predicate Posted(before: Book, after: Book, job: Job, op: OpId, idempotent: bool, now: int) {
    var p := Written(job, now);
    && op < |after.journal| && after.journal[op].key == p.key
    && (idempotent <==> HasKey(before.journal, p.key))
    && if idempotent then after == before
       else op == |before.journal|
            && after == Book(before.journal + [p], before.status + [if p.kind == Payout then Pending else Completed])
  }

  /** The outcome of a payout is on record and answered, unless the reserve has a row already. */
  ghost predicate Recorded(job: Job, op: OpId, status: PayoutStatus, reversal: Option<OpId>, before: seq<PayoutRow>,
                           after: seq<PayoutRow>, answer: Result<Answer, Refusal>)
  {
    if HasRow(before, op) then after == before && answer == Err(RowExists)
    else
      && after == before + [PayoutRow(op, job.payer, job.amountHTG * 100, status, reversal)]
      && answer == Ok(PaidOut(op, status))
  }

  /** A reserve that is in the ledger as written, and no reversal of it. */
  ghost predicate Refundable(b: Book, job: Job, op: OpId) {
    && |b.status| == |b.journal| && op < |b.journal| && job.purpose.CashOut? && job.amountHTG >= 1
    && b.journal[op].legs == Written(job, 0).legs && !HasKey(b.journal, PayoutReversal(job.id))
  }

  lemma ReserveRefunds(b: Book, job: Job, op: OpId, now: int)
    requires Refundable(b, job, op)
    ensures var (after, r) := Reverse(b, op, PayoutReversal(job.id), now);
            && r.Ok? && r.value.op == |b.journal|
            && after == Book(b.journal + [WrittenBack(job, op, now)], b.status[op := Reversed] + [Completed])
  {
    var legs := b.journal[op].legs;
    JobLegs(job);
    MirrorBalanced(legs);
    assert Mirror(legs) == WrittenBack(job, op, now).legs;
  }

  /** What a payout writes to beside the codes. */
  datatype Tables = Tables(book: Book, rows: seq<PayoutRow>, calls: seq<PayCall>)

  predicate InStep(b: Book) {
    |b.status| == |b.journal|
  }

  /** MonCash was asked once for the reserve; if that could be refunded, the outcome stands in every table. */
  ghost predicate Concluded(job: Job, op: OpId, reply: Reply, before: Tables, after: Tables,
                            answer: Result<Answer, Refusal>, now: int)
    requires InStep(before.book)
  {
    && after.calls == before.calls + [PayCall(op, job.payer, job.amountHTG, !reply.No?)]
    && (Refundable(before.book, job, op) ==>
          if reply.Yes? then
            && after.book.journal == before.book.journal
            && (before.book.status[op] == Pending ==> after.book.status == before.book.status[op := Completed])
            && Recorded(job, op, PayoutCompleted, None, before.rows, after.rows, answer)
          else
            && after.book == Book(before.book.journal + [WrittenBack(job, op, now)],
                                  before.book.status[op := Reversed] + [Completed])
            && Recorded(job, op, PayoutFailed, Some(|before.book.journal|), before.rows, after.rows, answer))
  }

  lemma ConcludedYes(job: Job, op: OpId, before: Tables, after: Tables, answer: Result<Answer, Refusal>, now: int)
    requires InStep(before.book) && after.book == Confirm(before.book, op)
    requires after.calls == before.calls + [PayCall(op, job.payer, job.amountHTG, true)]
    requires Recorded(job, op, PayoutCompleted, None, before.rows, after.rows, answer)
    ensures Concluded(job, op, Yes, before, after, answer, now)
  {
  }

  lemma ConcludedNo(job: Job, op: OpId, reply: Reply, before: Tables, after: Tables, answer: Result<Answer, Refusal>,
                    now: int)
    requires InStep(before.book) && reply != Yes
    requires after.calls == before.calls + [PayCall(op, job.payer, job.amountHTG, !reply.No?)]
    requires var (b, r) := Reverse(before.book, op, PayoutReversal(job.id), now);
             && after.book == b
             && (r.Ok? ==> Recorded(job, op, PayoutFailed, Some(r.value.op), before.rows, after.rows, answer))
    ensures Concluded(job, op, reply, before, after, answer, now)
  {
    if Refundable(before.book, job, op) {
      ReserveRefunds(before.book, job, op, now);
    }
  }

  /** What follows the reserve: a repeat that finds its row answers with it and asks nobody. */
  ghost predicate Settled(job: Job, op: OpId, idempotent: bool, reply: Reply, before: Tables, after: Tables,
                          answer: Result<Answer, Refusal>, now: int)
    requires InStep(before.book)
  {
    if idempotent && HasRow(before.rows, op) then
      && after == before
      && exists k :: 0 <= k < |before.rows| && before.rows[k].operation == op
                     && answer == Ok(PaidOut(op, before.rows[k].status))
    else Concluded(job, op, reply, before, after, answer, now)
  }

  /**
   A payout that is refused changes nothing here. One that passes is settled under a new reserve, or under
   the one it repeats.
   */
  ghost predicate PayoutOutcome(passes: bool, job: Job, reply: Reply, before: Tables, after: Tables,
                                answer: Result<Answer, Refusal>, now: int)
    requires InStep(before.book)
  {
    var b := before.book;
    if !passes then answer.Err? && after == before
    else if !HasKey(b.journal, PayoutReserve(job.id)) then
      var reserved := Book(b.journal + [Written(job, now)], b.status + [Pending]);
      Settled(job, |b.journal|, false, reply, before.(book := reserved), after, answer, now)
    else
      forall op :: OnlyAt(b.journal, PayoutReserve(job.id), op) ==>
        Settled(job, op, true, reply, before, after, answer, now)
  }

  lemma OutcomeRefused(job: Job, reply: Reply, t: Tables, why: Refusal, now: int)
    requires InStep(t.book)
    ensures PayoutOutcome(false, job, reply, t, t, Err(why), now)
  {
  }

  lemma OutcomeOf(job: Job, op: OpId, idempotent: bool, reply: Reply, before: Tables, book: Book, after: Tables,
                  answer: Result<Answer, Refusal>, now: int)
    requires job.purpose.CashOut? && InStep(before.book) && Posted(before.book, book, job, op, idempotent, now)
    requires InStep(book) ==> Settled(job, op, idempotent, reply, before.(book := book), after, answer, now)
    ensures PayoutOutcome(true, job, reply, before, after, answer, now)
  {
    hide Settled, Concluded;
    if idempotent {
      assert before.(book := book) == before;
    }
  }

  class MoneyHandlers {
    const cfg: Config
    const ledger: L.LedgerService
    var tiers: seq<Tier>
    var otps: seq<Otp>
    var rows: seq<PayoutRow>
    var monCashCalls: seq<PayCall>

    constructor (cfg: Config, ledger: L.LedgerService)
      requires ledger.Valid()
      ensures Valid() && this.cfg == cfg && this.ledger == ledger
      ensures tiers == [] && otps == [] && rows == [] && monCashCalls == []
    {
      this.cfg, this.ledger := cfg, ledger;
      tiers, otps, rows, monCashCalls := [], [], [], [];
    }

    ghost predicate Valid()
      reads this, ledger
    {
      ledger.Valid()
    }

    ghost function Shown(): (t: Tables)
      requires Valid()
      reads this, ledger
      ensures InStep(t.book)
    {
      Tables(ledger.Contents(), rows, monCashCalls)
    }

    /** The tables are those of machine state `s` at the same instant. */
    ghost predicate Holds(s: State, now: int)
      reads this, ledger
    {
      && s.now == now && s.book == ledger.Contents()
      && s.tiers == tiers && s.otps == otps && s.rows == rows && s.monCashCalls == monCashCalls
    }

    /** `verifyAndConsumeOtp`: a wrong code costs a try, the right one is consumed, the rest changes nothing. */
    method VerifyAndConsumeOtp(user: UserId, claim: OtpClaim, now: int) returns (error: Option<OtpError>)
      modifies this`otps
      ensures error == Some(InvalidOtpRequest) <==> claim.otp >= |old(otps)| || old(otps)[claim.otp].user != user
      ensures claim.otp < |old(otps)| && old(otps)[claim.otp].user == user ==>
                var otp := old(otps)[claim.otp];
                var live := otp.consumedAt.None? && now <= otp.expiresAt;
                && (error == Some(AlreadyUsed) <==> otp.consumedAt.Some?)
                && (error == Some(Expired) <==> otp.consumedAt.None? && otp.expiresAt < now)
                && (error == Some(TooManyAttempts) <==> live && otp.attempts >= otp.maxAttempts)
                && (error == Some(IncorrectCode) <==>
                      live && otp.attempts < otp.maxAttempts && otp.codeHash != claim.codeHash)
                && (error == None <==> live && otp.attempts < otp.maxAttempts && otp.codeHash == claim.codeHash)
      ensures otps == if error == None
                      then old(otps)[claim.otp := old(otps)[claim.otp].(consumedAt := Some(now))]
                      else if error == Some(IncorrectCode)
                      then old(otps)[claim.otp := old(otps)[claim.otp].(attempts := old(otps)[claim.otp].attempts + 1)]
                      else old(otps)
    {
      if claim.otp >= |otps| || otps[claim.otp].user != user {
        return Some(InvalidOtpRequest);
      }
      var otp := otps[claim.otp];
      if otp.consumedAt.Some? {
        return Some(AlreadyUsed);
      }
      if otp.expiresAt < now {
        return Some(Expired);
      }
      if otp.attempts >= otp.maxAttempts {
        return Some(TooManyAttempts);
      }
      if otp.codeHash != claim.codeHash {
        otps := otps[claim.otp := otp.(attempts := otp.attempts + 1)];
        return Some(IncorrectCode);
      }
      otps := otps[claim.otp := otp.(consumedAt := Some(now))];
      return None;
    }

    /** `enforceLimits`: both windows are read, then the day's cap is looked at before the month's. */
    method EnforceLimits(user: UserId, tier: Tier, amount: int, now: int) returns (refusal: Option<Refusal>)
      requires Valid()
      ensures var today := cfg.calendar.dayStart(now);
              var journal := ledger.Contents().journal;
              var daily := DebitsSince(journal, Wallet(user), today, HTG);
              var monthly := DebitsSince(journal, Wallet(user), cfg.calendar.monthStart(today), HTG);
              var dayHTG := if tier == Verified then cfg.verifiedDailyHTG else cfg.basicDailyHTG;
              var monthHTG := if tier == Verified then cfg.verifiedMonthlyHTG else cfg.basicMonthlyHTG;
              refusal == if daily + amount > dayHTG * 100 then Some(OverDailyLimit)
                         else if monthly + amount > monthHTG * 100 then Some(OverMonthlyLimit)
                         else None
    {
      var today := cfg.calendar.dayStart(now);
      var dailySpent := ledger.SumDirection(Wallet(user), Debit, today, HTG);
      var monthlySpent := ledger.SumDirection(Wallet(user), Debit, cfg.calendar.monthStart(today), HTG);
      if dailySpent + amount > DailyCap(cfg, tier) {
        return Some(OverDailyLimit);
      }
      if monthlySpent + amount > MonthlyCap(cfg, tier) {
        return Some(OverMonthlyLimit);
      }
      return None;
    }

    /** Balance, limits and code, in that order: the first that fails ends the request, and says why. */
    method PassGates(job: Job, tier: Tier, now: int, ghost s: State, ghost i: nat, ghost reply: Reply)
      returns (refusal: Option<Refusal>, ghost t: State)
      requires Valid() && Holds(s, now) && i < |s.requests|
      requires s.requests[i] == Request(job, tier, Started, None, None)
      modifies this`otps
      ensures Valid() && Holds(t, now) && |t.requests| == |s.requests| && t.topups == s.topups
      ensures Complete(cfg, t, i, reply) == Complete(cfg, s, i, reply)
      ensures t.requests[i].job == job && t.requests[i].posted == None
      ensures t.requests[i].phase == PhaseAfterGates(refusal)
      ensures var journal, wallet, minor := ledger.Contents().journal, Wallet(job.payer), job.amountHTG * 100;
              var today := cfg.calendar.dayStart(now);
              var dayHTG := if tier == Verified then cfg.verifiedDailyHTG else cfg.basicDailyHTG;
              var monthHTG := if tier == Verified then cfg.verifiedMonthlyHTG else cfg.basicMonthlyHTG;
              var short := Balance(journal, wallet, HTG) < minor;
              var overDay := DebitsSince(journal, wallet, today, HTG) + minor > dayHTG * 100;
              var overMonth :=
                DebitsSince(journal, wallet, cfg.calendar.monthStart(today), HTG) + minor > monthHTG * 100;
              && (refusal == Some(InsufficientBalance) <==> short)
              && (refusal == Some(OverDailyLimit) <==> !short && overDay)
              && (refusal == Some(OverMonthlyLimit) <==> !short && !overDay && overMonth)
              && (refusal == Some(CodeRequired) <==>
                    !short && !overDay && !overMonth && job.amountHTG >= cfg.otpThresholdHTG && job.otp.None?)
      ensures refusal.Some? ==>
                || refusal.value.InsufficientBalance?
                || refusal.value.OverDailyLimit? || refusal.value.OverMonthlyLimit?
                || refusal.value.CodeRequired? || refusal.value.CodeRefused?
      ensures refusal == None <==> Passes(cfg, ledger.Contents().journal, old(otps), tier, job, now)
      ensures CodesAfter(job, old(otps), refusal, now)
    {
      hide Complete;
      var balance := ledger.GetBalance(Wallet(job.payer), HTG);
      CompleteStep(cfg, s, i, reply);
      t := Advance(cfg, s, i, reply);
      if balance < Amount(job) {
        return Some(InsufficientBalance), t;
      }
      refusal := EnforceLimits(job.payer, tier, Amount(job), now);
      CompleteStep(cfg, t, i, reply);
      t := Advance(cfg, t, i, reply);
      if t.requests[i].phase.DailyOk? {
        CompleteStep(cfg, t, i, reply);
        t := Advance(cfg, t, i, reply);
      }
      if refusal.Some? {
        return refusal, t;
      }
      refusal, t := PassCode(job, now, t, i, reply);
    }

    /** `enforceOtpIfRequired`. */
    method PassCode(job: Job, now: int, ghost s: State, ghost i: nat, ghost reply: Reply)
      returns (refusal: Option<Refusal>, ghost t: State)
      requires Holds(s, now) && i < |s.requests|
      requires s.requests[i].job == job && s.requests[i].phase == LimitsOk && s.requests[i].posted == None
      modifies this`otps
      ensures Holds(t, now) && |t.requests| == |s.requests| && t.topups == s.topups
      ensures Complete(cfg, t, i, reply) == Complete(cfg, s, i, reply)
      ensures t.requests[i].job == job && t.requests[i].posted == None
      ensures t.requests[i].phase == PhaseAfterGates(refusal)
      ensures refusal == Some(CodeRequired) <==> job.amountHTG >= cfg.otpThresholdHTG && job.otp.None?
      ensures refusal == None <==>
                (job.amountHTG >= cfg.otpThresholdHTG ==>
                   job.otp.Some? && Accepts(old(otps), job.payer, job.otp.value, now))
      ensures refusal.Some? ==> refusal.value.CodeRequired? || refusal.value.CodeRefused?
      ensures CodesAfter(job, old(otps), refusal, now)
    {
      hide Complete;
      CompleteStep(cfg, s, i, reply);
      t := Advance(cfg, s, i, reply);
      if job.amountHTG < cfg.otpThresholdHTG {
        return None, t;
      }
      if job.otp.None? {
        return Some(CodeRequired), t;
      }
      var error := VerifyAndConsumeOtp(job.payer, job.otp.value, now);
      if t.requests[i].phase.OtpRight? || t.requests[i].phase.OtpWrong? {
        CompleteStep(cfg, t, i, reply);
        t := Advance(cfg, t, i, reply);
      }
      return if error.Some? then Some(CodeRefused(error.value)) else None, t;
    }

    /** A request that passes uses up its code if it is large; one with the wrong value costs a try. */
    ghost predicate CodesAfter(job: Job, before: seq<Otp>, refusal: Option<Refusal>, now: int)
      reads this
    {
      if refusal == None && job.amountHTG >= cfg.otpThresholdHTG then
        && job.otp.Some? && job.otp.value.otp < |before|
        && var o := job.otp.value.otp; otps == before[o := before[o].(consumedAt := Some(now))]
      else if refusal == Some(CodeRefused(IncorrectCode)) then
        && job.otp.Some? && job.otp.value.otp < |before|
        && var o := job.otp.value.otp; otps == before[o := before[o].(attempts := before[o].attempts + 1)]
      else otps == before
    }

    /** The post of a request that passed its gates. */
    method PostFor(job: Job, now: int, ghost s: State, ghost i: nat, ghost reply: Reply)
      returns (receipt: Receipt, ghost t: State)
      requires Valid() && Holds(s, now) && i < |s.requests| && job.amountHTG >= 1
      requires s.requests[i].job == job && s.requests[i].phase == GatesOk
      modifies ledger
      ensures Valid() && Holds(t, now) && |t.requests| == |s.requests|
      ensures Complete(cfg, t, i, reply) == Complete(cfg, s, i, reply)
      ensures t.requests[i].job == job
      ensures t.requests[i].phase ==
              if job.purpose.SendTo? then Done(Sent(receipt.op, receipt.idempotent))
              else if receipt.idempotent then Recheck(receipt.op)
              else Phase.Held(receipt.op)
      ensures Posted(old(ledger.Contents()), ledger.Contents(), job, receipt.op, receipt.idempotent, now)
    {
      hide Complete, Post, Posted;
      JobPosted(job, ledger.Contents(), now);
      CompleteStep(cfg, s, i, reply);
      t := Advance(cfg, s, i, reply);
      var r := ledger.PostOperation(PostingInput(job), now);
      receipt := r.value;
    }

    /** `WalletService.transfer`. */
    method Transfer(job: Job, now: int, ghost s: State) returns (answer: Result<Answer, Refusal>)
      requires Valid() && Holds(s, now) && job.purpose.SendTo?
      modifies this`otps, ledger
      ensures Valid()
      ensures var no := Inadmissible(cfg, s.tiers, job); no.Some? ==> answer == Err(no.value) && Holds(s, now)
      ensures Inadmissible(cfg, s.tiers, job).None? ==>
                HandledAs(Next(cfg, s, Submit(job)), |s.requests|, No, now, answer)
      ensures var users, payee := |old(tiers)|, job.purpose.payee;
              && (answer == Err(NotPositive) <==> job.amountHTG < 1)
              && (answer == Err(UnknownUser) <==> job.amountHTG >= 1 && job.payer >= users)
              && (answer == Err(UnknownRecipient) <==> job.amountHTG >= 1 && job.payer < users && payee >= users)
              && (answer == Err(OwnAccount) <==> job.amountHTG >= 1 && job.payer < users && payee == job.payer)
      ensures answer.Ok? <==>
                && job.amountHTG >= 1 && job.payer < |old(tiers)|
                && job.purpose.payee < |old(tiers)| && job.purpose.payee != job.payer
                && Passes(cfg, old(ledger.Contents().journal), old(otps), old(tiers)[job.payer], job, now)
      ensures match answer
              case Err(_) => ledger.Contents() == old(ledger.Contents())
              case Ok(a) =>
                && a.Sent?
                && Posted(old(ledger.Contents()), ledger.Contents(), job, a.operation, a.idempotent, now)
    {
      var inadmissible := Inadmissible(cfg, tiers, job);
      if inadmissible.Some? {
        return Err(inadmissible.value);
      }
      hide HandledAs;
      answer := TransferAdmitted(job, now, Next(cfg, s, Submit(job)), |s.requests|);
    }

    method TransferAdmitted(job: Job, now: int, ghost s: State, ghost i: nat) returns (answer: Result<Answer, Refusal>)
      requires Valid() && Holds(s, now) && i < |s.requests| && job.purpose.SendTo? && job.payer < |tiers|
      requires job.amountHTG >= 1 && s.requests[i] == Request(job, tiers[job.payer], Started, None, None)
      modifies this`otps, ledger
      ensures Valid() && HandledAs(s, i, No, now, answer)
      ensures answer.Ok? <==>
                Passes(cfg, old(ledger.Contents().journal), old(otps), old(tiers)[job.payer], job, now)
      ensures match answer
              case Err(why) =>
                && ledger.Contents() == old(ledger.Contents())
                && (why.InsufficientBalance? || why.OverDailyLimit? || why.OverMonthlyLimit?
                    || why.CodeRequired? || why.CodeRefused?)
              case Ok(a) =>
                && a.Sent?
                && Posted(old(ledger.Contents()), ledger.Contents(), job, a.operation, a.idempotent, now)
    {
      hide Complete, Passes, Posted, CodesAfter;
      ghost var g;
      var refusal;
      refusal, g := PassGates(job, tiers[job.payer], now, s, i, No);
      if refusal.Some? {
        CompleteEnd(cfg, g, i, No);
        return Err(refusal.value);
      }
      var receipt;
      receipt, g := PostFor(job, now, g, i, No);
      CompleteEnd(cfg, g, i, No);
      return Ok(Sent(receipt.op, receipt.idempotent));
    }

    /** The tables are as after request `i` of `submitted` ran undisturbed, and so is the answer. */
    ghost predicate HandledAs(submitted: State, i: nat, reply: Reply, now: int, answer: Result<Answer, Refusal>)
      requires i < |submitted.requests|
      reads this, ledger
    {
      var t := Complete(cfg, submitted, i, reply);
      && Holds(t, now) && i < |t.requests|
      && t.requests[i].phase == PhaseAfter(answer)
    }

    /** The payout row of an operation: `findOneBy({ operationId })`. */
    method FindRow(op: OpId) returns (found: Option<nat>)
      ensures found == RowFor(rows, op)
    {
      found := None;
      for k := 0 to |rows|
        invariant found == RowFor(rows[..k], op)
      {
        assert rows[..k + 1][..k] == rows[..k];
        if rows[k].operation == op {
          found := Some(k);
        }
      }
      assert rows[..|rows|] == rows;
    }

    /** `PayoutService.initiate`: reserve, ask MonCash, then confirm or reverse, and record the outcome. */
    method InitiatePayout(job: Job, reply: Reply, now: int, ghost s: State) returns (answer: Result<Answer, Refusal>)
      requires Valid() && Holds(s, now) && job.purpose.CashOut?
      modifies this`otps, this`rows, this`monCashCalls, ledger
      ensures Valid()
      ensures var no := Inadmissible(cfg, s.tiers, job); no.Some? ==> answer == Err(no.value) && Holds(s, now)
      ensures Inadmissible(cfg, s.tiers, job).None? ==>
                HandledAs(Next(cfg, s, Submit(job)), |s.requests|, reply, now, answer)
      ensures answer == Err(NotPositive) <==> job.amountHTG < 1
      ensures answer == Err(OverPayoutMaximum) <==> job.amountHTG >= 1 && job.amountHTG > cfg.maxPayoutHTG
      ensures answer == Err(UnknownUser) <==> 1 <= job.amountHTG <= cfg.maxPayoutHTG && job.payer >= |old(tiers)|
      ensures var passes := 1 <= job.amountHTG <= cfg.maxPayoutHTG && job.payer < |old(tiers)|
                            && Passes(cfg, old(ledger.Contents().journal), old(otps), old(tiers)[job.payer], job, now);
              PayoutOutcome(passes, job, reply, old(Shown()), Shown(), answer, now)
    {
      var inadmissible := Inadmissible(cfg, tiers, job);
      if inadmissible.Some? {
        return Err(inadmissible.value);
      }
      hide HandledAs;
      answer := PayoutAdmitted(job, reply, now, Next(cfg, s, Submit(job)), |s.requests|);
    }

    method PayoutAdmitted(job: Job, reply: Reply, now: int, ghost s: State, ghost i: nat)
      returns (answer: Result<Answer, Refusal>)
      requires Valid() && Holds(s, now) && i < |s.requests| && job.purpose.CashOut? && job.payer < |tiers|
      requires job.amountHTG >= 1 && s.requests[i] == Request(job, tiers[job.payer], Started, None, None)
      modifies this`otps, this`rows, this`monCashCalls, ledger
      ensures Valid() && HandledAs(s, i, reply, now, answer)
      ensures answer.Err? ==>
                !answer.error.NotPositive? && !answer.error.OverPayoutMaximum? && !answer.error.UnknownUser?
      ensures var passes := Passes(cfg, old(ledger.Contents().journal), old(otps), old(tiers)[job.payer], job, now);
              PayoutOutcome(passes, job, reply, old(Shown()), Shown(), answer, now)
    {
      hide Complete, Passes, Posted, Settled, PayoutOutcome, CodesAfter;
      ghost var g;
      var refusal;
      refusal, g := PassGates(job, tiers[job.payer], now, s, i, reply);
      if refusal.Some? {
        OutcomeRefused(job, reply, Shown(), refusal.value, now);
        CompleteEnd(cfg, g, i, reply);
        return Err(refusal.value);
      }
      var reserve;
      reserve, g := PostFor(job, now, g, i, reply);
      ghost var reserved := ledger.Contents();
      answer, g := Settle(job, reserve, reply, now, g, i);
      hide *;
      OutcomeOf(job, reserve.op, reserve.idempotent, reply, old(Shown()), reserved, Shown(), answer, now);
    }

    /** A retry answers with the recorded outcome, or resumes a reserve that has none. */
    method Settle(job: Job, reserve: Receipt, reply: Reply, now: int, ghost s: State, ghost i: nat)
      returns (answer: Result<Answer, Refusal>, ghost t: State)
      requires Valid() && Holds(s, now) && i < |s.requests| && s.requests[i].job == job
      requires s.requests[i].phase == if reserve.idempotent then Recheck(reserve.op) else Phase.Held(reserve.op)
      modifies this`rows, this`monCashCalls, ledger
      ensures Valid() && Holds(t, now) && |t.requests| == |s.requests|
      ensures t == Complete(cfg, s, i, reply)
      ensures t.requests[i].phase == PhaseAfter(answer)
      ensures Settled(job, reserve.op, reserve.idempotent, reply, old(Shown()), Shown(), answer, now)
      ensures answer.Err? ==> answer.error.LedgerRefused? || answer.error.RowExists?
    {
      hide Complete;
      t := s;
      if reserve.idempotent {
        var existing := FindRow(reserve.op);
        CompleteStep(cfg, s, i, reply);
        t := Advance(cfg, s, i, reply);
        if existing.Some? {
          CompleteEnd(cfg, t, i, reply);
          return Ok(PaidOut(reserve.op, rows[existing.value].status)), t;
        }
      }
      answer, t := Resolve(job, reserve.op, reply, now, t, i);
    }

    /** From the reserve to the recorded outcome. */
    method Resolve(job: Job, op: OpId, reply: Reply, now: int, ghost s: State, ghost i: nat)
      returns (answer: Result<Answer, Refusal>, ghost t: State)
      requires Valid() && Holds(s, now) && i < |s.requests|
      requires s.requests[i].job == job && s.requests[i].phase == Phase.Held(op)
      modifies this`rows, this`monCashCalls, ledger
      ensures Valid() && Holds(t, now) && |t.requests| == |s.requests|
      ensures t == Complete(cfg, s, i, reply)
      ensures t.requests[i].phase == PhaseAfter(answer)
      ensures Concluded(job, op, reply, old(Shown()), Shown(), answer, now)
      ensures answer.Err? ==> answer.error.LedgerRefused? || answer.error.RowExists?
    {
      hide Complete, Concluded, Refundable, Recorded, RowFor;
      CompleteStep(cfg, s, i, reply);
      ghost var g := Advance(cfg, s, i, reply);
      monCashCalls := monCashCalls + [PayCall(op, job.payer, job.amountHTG, !reply.No?)];
      CompleteStep(cfg, g, i, reply);
      t := Advance(cfg, g, i, reply);
      var reversal: Option<OpId> := None;
      if reply.Yes? {
        ledger.ConfirmOperation(op);
      } else {
        var r := ledger.ReverseOperation(op, PayoutReversal(job.id), now);
        if r.Err? {
          CompleteEnd(cfg, t, i, reply);
          ConcludedNo(job, op, reply, old(Shown()), Shown(), Err(LedgerRefused(r.error)), now);
          return Err(LedgerRefused(r.error)), t;
        }
        reversal := Some(r.value.op);
      }
      hide Confirm, Reverse;
      answer, t := Record(job, op, if reply.Yes? then PayoutCompleted else PayoutFailed, reversal, now, t, i, reply);
      if reply.Yes? {
        ConcludedYes(job, op, old(Shown()), Shown(), answer, now);
      } else {
        ConcludedNo(job, op, reply, old(Shown()), Shown(), answer, now);
      }
    }

    /** Saves the payout row; the unique index on the operation refuses a second one. */
    method Record(job: Job, op: OpId, status: PayoutStatus, reversal: Option<OpId>, now: int,
                  ghost s: State, ghost i: nat, ghost reply: Reply)
      returns (answer: Result<Answer, Refusal>, ghost t: State)
      requires Valid() && Holds(s, now) && i < |s.requests| && s.requests[i].job == job
      requires match reversal
               case None => status == PayoutCompleted && s.requests[i].phase == Phase.Confirmed(op)
               case Some(rev) => status == PayoutFailed && s.requests[i].phase == Refunded(op, rev)
      modifies this`rows
      ensures Valid() && Holds(t, now) && |t.requests| == |s.requests|
      ensures t == Complete(cfg, s, i, reply)
      ensures t.requests[i].phase == PhaseAfter(answer)
      ensures Recorded(job, op, status, reversal, old(rows), rows, answer)
      ensures answer.Err? ==> answer.error.RowExists?
    {
      hide Complete;
      CompleteStep(cfg, s, i, reply);
      t := Advance(cfg, s, i, reply);
      CompleteEnd(cfg, t, i, reply);
      var existing := FindRow(op);
      if existing.Some? {
        return Err(RowExists), t;
      }
      rows := rows + [PayoutRow(op, job.payer, Amount(job), status, reversal)];
      return Ok(PaidOut(op, status)), t;
    }
  }
}
