/**
 The money engine as a state machine. Transfers and payouts are requests that advance one database
 commit (or one read) at a time, in any interleaving, beside top-up webhooks, one-time codes, tier
 upgrades and the clock; a request may die between any two of its steps.
 */
module Engine {
  import opened Common
  import opened Ledger
  import Topup

  type UserId = nat
  type RequestId = nat
  type OtpId = nat

  const FLOAT: AccountId := Topup.FLOAT

  const OTP_TTL_MS := 5 * 60 * 1000
  const OTP_MAX_ATTEMPTS: nat := 3

  // ---------------------------------------------------------- configuration

  datatype Tier = Basic | Verified

  /** Server-local midnights and firsts of the month. */
  datatype Calendar = Calendar(dayStart: int -> int, monthStart: int -> int)

  datatype Config = Config(
    basicDailyHTG: int, basicMonthlyHTG: int, verifiedDailyHTG: int, verifiedMonthlyHTG: int,
    otpThresholdHTG: int, maxPayoutHTG: int, calendar: Calendar)

  /** A setting that is unset or zero falls back to its default. */
  function Setting(configured: Option<int>, default: int): int {
    if configured.Some? && configured.value != 0 then configured.value else default
  }

  /** The environment: every setting may be missing; one that is present is at least 1. */
  datatype Environment = Environment(
    basicDailyHTG: Option<int>, basicMonthlyHTG: Option<int>, verifiedDailyHTG: Option<int>,
    verifiedMonthlyHTG: Option<int>, otpThresholdHTG: Option<int>, maxPayoutHTG: Option<int>)

  function Configure(env: Environment, calendar: Calendar): Config {
    Config(Setting(env.basicDailyHTG, 25_000), Setting(env.basicMonthlyHTG, 100_000),
           Setting(env.verifiedDailyHTG, 150_000), Setting(env.verifiedMonthlyHTG, 500_000),
           Setting(env.otpThresholdHTG, 10_000), Setting(env.maxPayoutHTG, 100_000), calendar)
  }

  ghost predicate CalendarOk(c: Calendar) {
    && (forall t :: c.dayStart(t) <= t)
    && (forall t, u :: t <= u ==> c.dayStart(t) <= c.dayStart(u))
    && (forall t, u :: t <= u ==> c.monthStart(t) <= c.monthStart(u))
  }

  /** Configured caps are at least 1. */
  ghost predicate ConfigOk(cfg: Config) {
    && CalendarOk(cfg.calendar)
    && cfg.basicDailyHTG >= 1 && cfg.basicMonthlyHTG >= 1
    && cfg.verifiedDailyHTG >= 1 && cfg.verifiedMonthlyHTG >= 1
  }

  predicate AtLeastOne(setting: Option<int>) {
    setting.Some? ==> setting.value >= 1
  }

  /** The setting in force: the one given, else the default. */
  predicate InForce(value: int, setting: Option<int>, default: int) {
    match setting
    case Some(given) => value == given
    case None => value == default
  }

  /** Never silently unlimited: whatever is left unset is in force at its default, and whatever is set, as set. */
  lemma ConfiguredIsOk(env: Environment, calendar: Calendar)
    requires CalendarOk(calendar)
    requires AtLeastOne(env.basicDailyHTG) && AtLeastOne(env.basicMonthlyHTG)
    requires AtLeastOne(env.verifiedDailyHTG) && AtLeastOne(env.verifiedMonthlyHTG)
    requires AtLeastOne(env.otpThresholdHTG) && AtLeastOne(env.maxPayoutHTG)
    ensures var cfg := Configure(env, calendar);
            && ConfigOk(cfg) && cfg.otpThresholdHTG >= 1 && cfg.maxPayoutHTG >= 1 && cfg.calendar == calendar
            && InForce(cfg.basicDailyHTG, env.basicDailyHTG, 25_000)
            && InForce(cfg.basicMonthlyHTG, env.basicMonthlyHTG, 100_000)
            && InForce(cfg.verifiedDailyHTG, env.verifiedDailyHTG, 150_000)
            && InForce(cfg.verifiedMonthlyHTG, env.verifiedMonthlyHTG, 500_000)
            && InForce(cfg.otpThresholdHTG, env.otpThresholdHTG, 10_000)
            && InForce(cfg.maxPayoutHTG, env.maxPayoutHTG, 100_000)
  {
  }

  function Minor(htg: int): int {
    htg * 100
  }

  function DailyCap(cfg: Config, tier: Tier): int {
    Minor(if tier == Verified then cfg.verifiedDailyHTG else cfg.basicDailyHTG)
  }

  function MonthlyCap(cfg: Config, tier: Tier): int {
    Minor(if tier == Verified then cfg.verifiedMonthlyHTG else cfg.basicMonthlyHTG)
  }

  // ------------------------------------------------------------------- state

  datatype OtpPurpose = ForTransfer | ForPayout

  datatype Otp =
    Otp(user: UserId, purpose: OtpPurpose, codeHash: int, attempts: nat, maxAttempts: nat, expiresAt: int,
        consumedAt: Option<int>)

  /** The code a request presents, already hashed. */
  datatype OtpClaim = OtpClaim(otp: OtpId, codeHash: int)

  datatype Purpose = SendTo(payee: UserId) | CashOut

  datatype Job = Job(payer: UserId, purpose: Purpose, amountHTG: int, id: RequestId, otp: Option<OtpClaim>)

  datatype PayoutStatus = PayoutCompleted | PayoutFailed

  datatype PayoutRow = PayoutRow(operation: OpId, user: UserId, amount: int, status: PayoutStatus,
                                 reversal: Option<OpId>)

  /**
   How a call to MonCash ends: paid and answered so, not paid, or paid with the answer late, lost or
   unreadable. The last two look alike to the caller.
   */
  datatype Reply = Yes | No | Lost

  /** What MonCash was asked to pay, under which reserve, and whether it did, whatever it answered. */
  datatype PayCall = PayCall(operation: OpId, user: UserId, amountHTG: int, paid: bool)

  datatype OtpError = InvalidOtpRequest | AlreadyUsed | Expired | TooManyAttempts | IncorrectCode

  /** Why a request ended without an answer. */
  datatype Refusal =
    | NotPositive
    | UnknownUser
    | UnknownRecipient
    | OwnAccount
    | OverPayoutMaximum
    | InsufficientBalance
    | OverDailyLimit
    | OverMonthlyLimit
    | CodeRequired
    | CodeRefused(code: OtpError)
    | LedgerRefused(ledger: Error)
    | RowExists
    | Died

  datatype Answer =
    | Sent(operation: OpId, idempotent: bool)
    | PaidOut(operation: OpId, status: PayoutStatus)

  /** Where a request stands; each constructor is the point after one commit or read. */
  datatype Phase =
    | Started
    | BalanceOk
    | DailyOk(monthStart: int)
    | LimitsOk
    | OtpRight(otp: OtpId, checkedAt: int)
    | OtpWrong(otp: OtpId, attempts: nat)
    | GatesOk
    | Recheck(op: OpId)
    | Held(op: OpId)
    | Accepted(op: OpId)
    | Declined(op: OpId)
    | Confirmed(op: OpId)
    | Refunded(op: OpId, reversal: OpId)
    | Done(answer: Answer)
    | Stopped(why: Refusal)

  /** A one-time code a request consumed, and when it was found right. */
  datatype UsedCode = UsedCode(otp: OtpId, checkedAt: int)

  /** `posted` is the operation the request wrote itself, if it was the first under its key. */
  datatype Request = Request(job: Job, tier: Tier, phase: Phase, code: Option<UsedCode>, posted: Option<OpId>)

  datatype State = State(
    now: int,
    book: Book,
    tiers: seq<Tier>,
    otps: seq<Otp>,
    rows: seq<PayoutRow>,
    topups: seq<Topup.TopupRow>,
    requests: seq<Request>,
    monCashCalls: seq<PayCall>)

  const INITIAL := State(0, EMPTY_BOOK, [], [], [], [], [], [])

  // ------------------------------------------------------------------ helpers

  function Amount(job: Job): int {
    Minor(job.amountHTG)
  }

  function Payee(job: Job): AccountId {
    match job.purpose
    case SendTo(user) => Wallet(user)
    case CashOut => FLOAT
  }

  function KeyOf(job: Job): Key {
    if job.purpose.CashOut? then PayoutReserve(job.id) else WalletTransfer(job.id)
  }

  /** The posting a request asks for: a completed transfer, or a payout held as pending. */
  function PostingInput(job: Job): PostInput {
    PostInput(KeyOf(job),
              if job.purpose.CashOut? then Payout else Transfer,
              Pair(Wallet(job.payer), Payee(job), Amount(job)),
              if job.purpose.CashOut? then Some(Pending) else None)
  }

  function RowFor(rows: seq<PayoutRow>, op: OpId): (r: Option<nat>)
    ensures r.Some? ==> r.value < |rows| && rows[r.value].operation == op
    ensures r.None? ==> forall k :: 0 <= k < |rows| ==> rows[k].operation != op
  {
    if rows == [] then None
    else
      var n := |rows| - 1;
      if rows[n].operation == op then Some(n) else RowFor(rows[..n], op)
  }

  function Move(s: State, i: nat, phase: Phase): State
    requires i < |s.requests|
  {
    s.(requests := s.requests[i := s.requests[i].(phase := phase)])
  }

  // ------------------------------------------------ the steps of one request

  function CheckBalance(s: State, i: nat): State
    requires i < |s.requests|
  {
    var job := s.requests[i].job;
    Move(s, i, if Balance(s.book.journal, Wallet(job.payer), HTG) < Amount(job)
               then Stopped(InsufficientBalance) else BalanceOk)
  }

  function CheckDaily(cfg: Config, s: State, i: nat): State
    requires i < |s.requests|
  {
    var r := s.requests[i];
    var today := cfg.calendar.dayStart(s.now);
    var spent := DebitsSince(s.book.journal, Wallet(r.job.payer), today, HTG);
    Move(s, i, if spent + Amount(r.job) > DailyCap(cfg, r.tier) then Stopped(OverDailyLimit)
               else DailyOk(cfg.calendar.monthStart(today)))
  }

  function CheckMonthly(cfg: Config, s: State, i: nat, since: int): State
    requires i < |s.requests|
  {
    var r := s.requests[i];
    var spent := DebitsSince(s.book.journal, Wallet(r.job.payer), since, HTG);
    Move(s, i, if spent + Amount(r.job) > MonthlyCap(cfg, r.tier) then Stopped(OverMonthlyLimit) else LimitsOk)
  }

  /** What is wrong with a code before its value is compared. Its purpose is not looked at. */
  function OtpObjection(otps: seq<Otp>, user: UserId, o: OtpId, now: int): (r: Option<OtpError>)
    ensures r.None? ==> o < |otps|
  {
    if o >= |otps| || otps[o].user != user then Some(InvalidOtpRequest)
    else if otps[o].consumedAt.Some? then Some(AlreadyUsed)
    else if otps[o].expiresAt < now then Some(Expired)
    else if otps[o].attempts >= otps[o].maxAttempts then Some(TooManyAttempts)
    else None
  }

  /** The read half of `verifyAndConsumeOtp`. */
  function CheckOtp(cfg: Config, s: State, i: nat): State
    requires i < |s.requests|
  {
    var job := s.requests[i].job;
    Move(s, i,
         if job.amountHTG < cfg.otpThresholdHTG then GatesOk
         else if job.otp.None? then Stopped(CodeRequired)
         else
           var claim := job.otp.value;
           match OtpObjection(s.otps, job.payer, claim.otp, s.now)
           case Some(e) => Stopped(CodeRefused(e))
           case None =>
             if s.otps[claim.otp].codeHash != claim.codeHash then OtpWrong(claim.otp, s.otps[claim.otp].attempts)
             else OtpRight(claim.otp, s.now))
  }

  function SaveWrongCode(s: State, i: nat, otp: OtpId, attempts: nat): State
    requires i < |s.requests|
  {
    var saved := if otp < |s.otps| then s.otps[otp := s.otps[otp].(attempts := attempts + 1)] else s.otps;
    Move(s, i, Stopped(CodeRefused(IncorrectCode))).(otps := saved)
  }

  function SaveRightCode(s: State, i: nat, otp: OtpId, checkedAt: int): State
    requires i < |s.requests|
  {
    var saved := if otp < |s.otps| then s.otps[otp := s.otps[otp].(consumedAt := Some(s.now))] else s.otps;
    s.(otps := saved, requests := s.requests[i := s.requests[i].(phase := GatesOk, code := Some(UsedCode(otp, checkedAt)))])
  }

  ghost function PostMoney(s: State, i: nat): State
    requires i < |s.requests|
  {
    var r := s.requests[i];
    var (book, result) := Post(s.book, PostingInput(r.job), s.now);
    match result
    case Err(e) => Move(s, i, Stopped(LedgerRefused(e)))
    case Ok(receipt) =>
      var phase :=
        if r.job.purpose.SendTo? then Done(Sent(receipt.op, receipt.idempotent))
        else if receipt.idempotent then Recheck(receipt.op)
        else Held(receipt.op);
      var posted := if receipt.idempotent then None else Some(receipt.op);
      s.(book := book, requests := s.requests[i := r.(phase := phase, posted := posted)])
  }

  /** A repeated payout answers with the recorded row, or resumes when there is none. */
  function LookUpRow(s: State, i: nat, op: OpId): State
    requires i < |s.requests|
  {
    match RowFor(s.rows, op)
    case Some(k) => Move(s, i, Done(PaidOut(op, s.rows[k].status)))
    case None => Move(s, i, Held(op))
  }

  function CallMonCash(s: State, i: nat, op: OpId, reply: Reply): State
    requires i < |s.requests|
  {
    var job := s.requests[i].job;
    Move(s, i, if reply.Yes? then Accepted(op) else Declined(op))
      .(monCashCalls := s.monCashCalls + [PayCall(op, job.payer, job.amountHTG, !reply.No?)])
  }

  function ConfirmReserve(s: State, i: nat, op: OpId): State
    requires i < |s.requests|
  {
    Move(s, i, Confirmed(op)).(book := Confirm(s.book, op))
  }

  ghost function RefundReserve(s: State, i: nat, op: OpId): State
    requires i < |s.requests|
  {
    var (book, result) := Reverse(s.book, op, PayoutReversal(s.requests[i].job.id), s.now);
    Move(s, i, match result
               case Ok(receipt) => Refunded(op, receipt.op)
               case Err(e) => Stopped(LedgerRefused(e)))
      .(book := book)
  }

  /** The unique index on `operationId` refuses a second row for one reserve. */
  function SaveRow(s: State, i: nat, op: OpId, status: PayoutStatus, reversal: Option<OpId>): State
    requires i < |s.requests|
  {
    if RowFor(s.rows, op).Some? then Move(s, i, Stopped(RowExists))
    else
      var job := s.requests[i].job;
      Move(s, i, Done(PaidOut(op, status)))
        .(rows := s.rows + [PayoutRow(op, job.payer, Amount(job), status, reversal)])
  }

  ghost function Advance(cfg: Config, s: State, i: nat, reply: Reply): State
    requires i < |s.requests|
  {
    match s.requests[i].phase
    case Started => CheckBalance(s, i)
    case BalanceOk => CheckDaily(cfg, s, i)
    case DailyOk(since) => CheckMonthly(cfg, s, i, since)
    case LimitsOk => CheckOtp(cfg, s, i)
    case OtpWrong(otp, attempts) => SaveWrongCode(s, i, otp, attempts)
    case OtpRight(otp, checkedAt) => SaveRightCode(s, i, otp, checkedAt)
    case GatesOk => PostMoney(s, i)
    case Recheck(op) => LookUpRow(s, i, op)
    case Held(op) => CallMonCash(s, i, op, reply)
    case Accepted(op) => ConfirmReserve(s, i, op)
    case Declined(op) => RefundReserve(s, i, op)
    case Confirmed(op) => SaveRow(s, i, op, PayoutCompleted, None)
    case Refunded(op, reversal) => SaveRow(s, i, op, PayoutFailed, Some(reversal))
    case Done(_) => s
    case Stopped(_) => s
  }

  // ------------------------------------------------------------------ events

  datatype Event =
    | Tick(elapsed: nat)
    | Register
    | Upgrade(user: UserId)
    | SendCode(user: UserId, purpose: OtpPurpose, codeHash: int)
    | Submit(job: Job)
    | Step(request: nat, reply: Reply)
    | Crash(request: nat)
    | TopupEvent(event: Topup.Event)

  /** Why a request is refused before the first read of the ledger, first objection first. */
  function Inadmissible(cfg: Config, tiers: seq<Tier>, job: Job): Option<Refusal> {
    if job.amountHTG < 1 then Some(NotPositive)
    else
      match job.purpose
      case SendTo(payee) =>
        if job.payer >= |tiers| then Some(UnknownUser)
        else if payee >= |tiers| then Some(UnknownRecipient)
        else if payee == job.payer then Some(OwnAccount)
        else None
      case CashOut =>
        if job.amountHTG > cfg.maxPayoutHTG then Some(OverPayoutMaximum)
        else if job.payer >= |tiers| then Some(UnknownUser)
        else None
  }

  ghost function Next(cfg: Config, s: State, e: Event): State {
    match e
    case Tick(elapsed) => s.(now := s.now + elapsed)
    case Register => s.(tiers := s.tiers + [Basic])
    case Upgrade(user) => if user < |s.tiers| then s.(tiers := s.tiers[user := Verified]) else s
    case SendCode(user, purpose, codeHash) =>
      if user < |s.tiers|
      then s.(otps := s.otps + [Otp(user, purpose, codeHash, 0, OTP_MAX_ATTEMPTS, s.now + OTP_TTL_MS, None)])
      else s
    case Submit(job) =>
      if Inadmissible(cfg, s.tiers, job).None?
      then s.(requests := s.requests + [Request(job, s.tiers[job.payer], Started, None, None)])
      else s
    case Step(i, reply) => if i < |s.requests| then Advance(cfg, s, i, reply) else s
    case Crash(i) => if i < |s.requests| && !s.requests[i].phase.Done? then Move(s, i, Stopped(Died)) else s
    case TopupEvent(event) =>
      var desk := Topup.Commit(Topup.Desk(s.book, s.topups), event, s.now);
      s.(book := desk.book, topups := desk.rows)
  }

  /** A run: the states visited, from the empty system, under any sequence of events. */
  ghost predicate IsRun(cfg: Config, run: seq<State>, events: seq<Event>) {
    && |run| == |events| + 1
    && run[0] == INITIAL
    && forall k {:trigger events[k]} :: 0 <= k < |events| ==> run[k + 1] == Next(cfg, run[k], events[k])
  }
}
