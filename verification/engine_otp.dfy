/**
 One-time codes: every large transfer or payout that reached the ledger spent a code of its own,
 as long as verifications of one and the same code do not overlap.
 */
module EngineOtp {
  import opened Common
  import opened Ledger
  import opened Engine
  import opened EngineCore
  import Topup

  /** The code a request has read and not yet saved. */
  function Holds(p: Phase): Option<OtpId> {
    match p
    case OtpRight(otp, _) => Some(otp)
    case OtpWrong(otp, _) => Some(otp)
    case _ => None
  }

  /** No code is between the read and the save of two requests at once. */
  ghost predicate CodesSerial(requests: seq<Request>) {
    forall i, j :: 0 <= i < j < |requests| && Holds(requests[i].phase).Some? ==>
      Holds(requests[i].phase) != Holds(requests[j].phase)
  }

  predicate NeedsCode(cfg: Config, job: Job) {
    job.amountHTG >= cfg.otpThresholdHTG
  }

  /** The code of `r`: its owner's, right, found so before it expired, consumed, with tries to spare. */
  ghost predicate Spent(otps: seq<Otp>, r: Request) {
    r.code.Some? ==>
      && r.code.value.otp < |otps|
      && var otp := otps[r.code.value.otp];
         && otp.user == r.job.payer && otp.consumedAt.Some? && otp.attempts < otp.maxAttempts
         && r.code.value.checkedAt <= otp.expiresAt
         && r.job.otp == Some(OtpClaim(r.code.value.otp, otp.codeHash))
  }

  ghost predicate Holding(otps: seq<Otp>, r: Request) {
    Holds(r.phase).Some? ==>
      && r.code == None
      && Holds(r.phase).value < |otps|
      && var otp := otps[Holds(r.phase).value];
         && otp.user == r.job.payer && otp.consumedAt == None && otp.attempts < otp.maxAttempts
         && (r.phase.OtpWrong? ==> otp.attempts == r.phase.attempts)
         && (r.phase.OtpRight? ==>
               && r.phase.checkedAt <= otp.expiresAt
               && r.job.otp == Some(OtpClaim(r.phase.otp, otp.codeHash)))
  }

  ghost predicate CodeOk(cfg: Config, otps: seq<Otp>, r: Request) {
    && Spent(otps, r)
    && Holding(otps, r)
    && (r.phase.GatesOk? || r.posted.Some? ==> NeedsCode(cfg, r.job) ==> r.code.Some?)
    && (r.phase.Started? || r.phase.BalanceOk? || r.phase.DailyOk? || r.phase.LimitsOk? ==> r.code == None)
  }

  ghost predicate OtpsOk(otps: seq<Otp>) {
    forall o :: 0 <= o < |otps| ==>
      otps[o].attempts <= otps[o].maxAttempts && (otps[o].consumedAt.Some? ==> otps[o].attempts < otps[o].maxAttempts)
  }

  /** No two requests spent the same code. */
  ghost predicate CodesDistinct(requests: seq<Request>) {
    forall i, j :: 0 <= i < j < |requests| && requests[i].code.Some? && requests[j].code.Some? ==>
      requests[i].code.value.otp != requests[j].code.value.otp
  }

  ghost predicate OtpInv(cfg: Config, otps: seq<Otp>, requests: seq<Request>) {
    && OtpsOk(otps)
    && (forall i :: 0 <= i < |requests| ==> CodeOk(cfg, otps, requests[i]))
    && CodesDistinct(requests)
  }

  /** What a step of request `r` may do to the codes. */
  ghost predicate CodeStep(cfg: Config, otps: seq<Otp>, otps': seq<Otp>, now: int, r: Request, r': Request) {
    && r'.job == r.job
    && match r.phase
       case LimitsOk => otps' == otps && r'.code == r.code && r'.posted == r.posted && CheckedAs(cfg, otps, now, r, r'.phase)
       case OtpWrong(o, n) =>
         && otps' == (if o < |otps| then otps[o := otps[o].(attempts := n + 1)] else otps)
         && r' == r.(phase := Stopped(CodeRefused(IncorrectCode)))
       case OtpRight(o, at) =>
         && otps' == (if o < |otps| then otps[o := otps[o].(consumedAt := Some(now))] else otps)
         && r' == r.(phase := GatesOk, code := Some(UsedCode(o, at)))
       case _ =>
         && otps' == otps && r'.code == r.code && Holds(r'.phase) == None && !r'.phase.GatesOk?
         && (r'.posted == r.posted || r.phase.GatesOk?)
         && (r'.phase.Started? || r'.phase.BalanceOk? || r'.phase.DailyOk? || r'.phase.LimitsOk? ==>
               r.phase.Started? || r.phase.BalanceOk? || r.phase.DailyOk?)
  }

  ghost predicate CheckedAs(cfg: Config, otps: seq<Otp>, now: int, r: Request, p': Phase) {
    || p'.Stopped?
    || (p' == GatesOk && !NeedsCode(cfg, r.job))
    || (&& NeedsCode(cfg, r.job) && Holds(p').Some? && Holds(p').value < |otps|
        && r.job.otp.Some? && r.job.otp.value.otp == Holds(p').value
        && var otp := otps[Holds(p').value];
           && otp.user == r.job.payer && otp.consumedAt == None && otp.attempts < otp.maxAttempts && now <= otp.expiresAt
           && (p' == OtpWrong(Holds(p').value, otp.attempts)
               || (p' == OtpRight(Holds(p').value, now)
                   && r.job.otp == Some(OtpClaim(Holds(p').value, otp.codeHash)))))
  }

  lemma ReadCodes(cfg: Config, s: State, i: nat, reply: Reply)
    requires i < |s.requests|
    requires var p := s.requests[i].phase; p.LimitsOk? || p.OtpRight? || p.OtpWrong?
    ensures var t := Advance(cfg, s, i, reply);
            |t.requests| == |s.requests| && CodeStep(cfg, s.otps, t.otps, s.now, s.requests[i], t.requests[i])
  {
  }

  lemma EarlyCodes(cfg: Config, s: State, i: nat, reply: Reply)
    requires i < |s.requests|
    requires var p := s.requests[i].phase; p.Started? || p.BalanceOk? || p.DailyOk? || p.GatesOk?
    ensures var t := Advance(cfg, s, i, reply);
            |t.requests| == |s.requests| && CodeStep(cfg, s.otps, t.otps, s.now, s.requests[i], t.requests[i])
  {
  }

  lemma LateCodes(cfg: Config, s: State, i: nat, reply: Reply)
    requires i < |s.requests| && !BeforePost(s.requests[i].phase)
    ensures var t := Advance(cfg, s, i, reply);
            |t.requests| == |s.requests| && CodeStep(cfg, s.otps, t.otps, s.now, s.requests[i], t.requests[i])
  {
  }

  lemma AdvanceCodes(cfg: Config, s: State, i: nat, reply: Reply)
    requires i < |s.requests|
    ensures var t := Advance(cfg, s, i, reply);
            && |t.requests| == |s.requests| && t.requests == s.requests[i := t.requests[i]]
            && CodeStep(cfg, s.otps, t.otps, s.now, s.requests[i], t.requests[i])
  {
    AdvanceKeepsJob(cfg, s, i, reply);
    hide Advance, CodeStep;
    if s.requests[i].phase.LimitsOk? || s.requests[i].phase.OtpRight? || s.requests[i].phase.OtpWrong? {
      ReadCodes(cfg, s, i, reply);
    } else if BeforePost(s.requests[i].phase) {
      EarlyCodes(cfg, s, i, reply);
    } else {
      LateCodes(cfg, s, i, reply);
    }
  }

  lemma CodeStepInv(cfg: Config, otps: seq<Otp>, otps': seq<Otp>, now: int, requests: seq<Request>, i: nat, r': Request)
    requires i < |requests| && OtpInv(cfg, otps, requests) && CodesSerial(requests)
    requires CodeStep(cfg, otps, otps', now, requests[i], r')
    ensures OtpInv(cfg, otps', requests[i := r'])
  {
  }

  /** A request that stops, or is new, needs no code; codes that are sent are fresh. */
  lemma {:induction false} NextOtpInv(cfg: Config, s: State, e: Event)
    requires OtpInv(cfg, s.otps, s.requests) && CodesSerial(s.requests)
    ensures OtpInv(cfg, Next(cfg, s, e).otps, Next(cfg, s, e).requests)
  {
    var t := Next(cfg, s, e);
    hide Advance, CodeStep, Topup.Commit;
    match e
    case Step(i, reply) =>
      if i < |s.requests| {
        AdvanceCodes(cfg, s, i, reply);
        CodeStepInv(cfg, s.otps, t.otps, s.now, s.requests, i, t.requests[i]);
      }
    case Crash(i) =>
      forall j | 0 <= j < |t.requests|
        ensures CodeOk(cfg, t.otps, t.requests[j]) && t.requests[j].code == s.requests[j].code
      {
        assert CodeOk(cfg, s.otps, s.requests[j]);
      }
    case SendCode(user, purpose, codeHash) =>
      forall j | 0 <= j < |t.requests| ensures CodeOk(cfg, t.otps, t.requests[j]) {
        assert CodeOk(cfg, s.otps, s.requests[j]);
      }
    case _ =>
  }

  lemma {:induction false} RunOtpInv(cfg: Config, run: seq<State>, events: seq<Event>, k: nat)
    requires IsRun(cfg, run, events) && k < |run|
    requires forall n :: 0 <= n < |run| ==> CodesSerial(run[n].requests)
    ensures OtpInv(cfg, run[k].otps, run[k].requests)
  {
    if k == 0 {
    } else {
      RunOtpInv(cfg, run, events, k - 1);
      hide Next, OtpInv;
      NextOtpInv(cfg, run[k - 1], events[k - 1]);
    }
  }

  // ------------------------------------------- who wrote which operation

  /** The request that wrote an operation. */
  function Author(requests: seq<Request>, op: OpId): (r: Option<nat>)
    ensures r.Some? ==> r.value < |requests| && requests[r.value].posted == Some(op)
    ensures r.None? ==> forall i :: 0 <= i < |requests| ==> requests[i].posted != Some(op)
  {
    if requests == [] then None
    else
      var n := |requests| - 1;
      if requests[n].posted == Some(op) then Some(n) else Author(requests[..n], op)
  }

  predicate MovedByRequest(p: Posting) {
    p.key.WalletTransfer? || p.key.PayoutReserve?
  }

  ghost predicate Authored(s: State) {
    forall op :: 0 <= op < |s.book.journal| && MovedByRequest(s.book.journal[op]) ==>
      exists i :: 0 <= i < |s.requests| && s.requests[i].posted == Some(op)
  }

  /** A step keeps what its request wrote, and an appended transfer or reserve is what it wrote. */
  ghost predicate PostedStep(s: State, t: State, i: nat)
    requires i < |s.requests|
  {
    && |t.requests| == |s.requests|
    && s.book.journal <= t.book.journal
    && (s.requests[i].posted.Some? ==> t.requests[i].posted == s.requests[i].posted)
    && (|t.book.journal| > |s.book.journal| ==>
          && |t.book.journal| == |s.book.journal| + 1
          && (MovedByRequest(t.book.journal[|s.book.journal|]) ==> t.requests[i].posted == Some(|s.book.journal|)))
  }

  lemma AdvancePosted(cfg: Config, s: State, i: nat, reply: Reply)
    requires Core(cfg, s) && i < |s.requests|
    ensures PostedStep(s, Advance(cfg, s, i, reply), i)
  {
    match s.requests[i].phase
    case GatesOk => PostPosted(cfg, s, i, reply);
    case Declined(op) => RefundPosted(cfg, s, i, op, reply);
    case Accepted(op) => ConfirmPosted(cfg, s, i, op, reply);
    case _ =>
      QuietCore(cfg, s, i, reply);
      QuietPosted(cfg, s, i, reply);
      hide Advance, Core, BookOk, RequestOk;
  }

  lemma PostPosted(cfg: Config, s: State, i: nat, reply: Reply)
    requires Core(cfg, s) && i < |s.requests| && s.requests[i].phase.GatesOk?
    ensures PostedStep(s, Advance(cfg, s, i, reply), i)
  {
  }

  lemma RefundPosted(cfg: Config, s: State, i: nat, op: OpId, reply: Reply)
    requires Core(cfg, s) && i < |s.requests| && s.requests[i].phase == Declined(op)
    ensures PostedStep(s, Advance(cfg, s, i, reply), i)
  {
  }

  lemma ConfirmPosted(cfg: Config, s: State, i: nat, op: OpId, reply: Reply)
    requires Core(cfg, s) && i < |s.requests| && s.requests[i].phase == Accepted(op)
    ensures PostedStep(s, Advance(cfg, s, i, reply), i)
  {
  }

  lemma QuietPosted(cfg: Config, s: State, i: nat, reply: Reply)
    requires i < |s.requests| && !s.requests[i].phase.GatesOk?
    ensures |Advance(cfg, s, i, reply).requests| == |s.requests|
    ensures Advance(cfg, s, i, reply).requests[i].posted == s.requests[i].posted
  {
    hide Post, Reverse, RowFor, Balance, DebitsSince;
  }

  lemma AuthoredGrows(s: State, t: State)
    requires Authored(s) && s.book.journal <= t.book.journal && |s.requests| <= |t.requests|
    requires forall i :: 0 <= i < |s.requests| && s.requests[i].posted.Some? ==>
               t.requests[i].posted == s.requests[i].posted
    requires forall op :: |s.book.journal| <= op < |t.book.journal| && MovedByRequest(t.book.journal[op]) ==>
               exists i :: 0 <= i < |t.requests| && t.requests[i].posted == Some(op)
    ensures Authored(t)
  {
  }

  lemma StepAuthored(cfg: Config, s: State, i: nat, reply: Reply)
    requires Core(cfg, s) && Authored(s) && i < |s.requests|
    ensures Authored(Advance(cfg, s, i, reply))
  {
    AdvancePosted(cfg, s, i, reply);
    AdvanceKeepsJob(cfg, s, i, reply);
    hide Advance, Core, Authored, MovedByRequest;
    var t := Advance(cfg, s, i, reply);
    forall j | 0 <= j < |s.requests| && s.requests[j].posted.Some?
      ensures t.requests[j].posted == s.requests[j].posted
    {
    }
    forall op | |s.book.journal| <= op < |t.book.journal| && MovedByRequest(t.book.journal[op])
      ensures exists j :: 0 <= j < |t.requests| && t.requests[j].posted == Some(op)
    {
      assert t.requests[i].posted == Some(op);
    }
    AuthoredGrows(s, t);
  }

  lemma NextAuthored(cfg: Config, s: State, e: Event)
    requires Core(cfg, s) && Authored(s)
    ensures Authored(Next(cfg, s, e))
  {
    if e.Step? && e.request < |s.requests| {
      StepAuthored(cfg, s, e.request, e.reply);
      hide Authored, Advance, Core;
    } else if e.TopupEvent? {
      TopupMovesNothing(cfg, s, e.event);
      hide *;
      AuthoredGrows(s, Next(cfg, s, e));
    } else {
      hide Core, Authored, Advance, Topup.Commit;
      AuthoredGrows(s, Next(cfg, s, e));
    }
  }

  lemma TopupMovesNothing(cfg: Config, s: State, event: Topup.Event)
    requires Core(cfg, s)
    ensures var t := Next(cfg, s, TopupEvent(event));
            && t.requests == s.requests && s.book.journal <= t.book.journal
            && forall op :: |s.book.journal| <= op < |t.book.journal| ==> !MovedByRequest(t.book.journal[op])
  {
  }

  lemma {:induction false} RunAuthored(cfg: Config, run: seq<State>, events: seq<Event>, k: nat)
    requires ConfigOk(cfg) && IsRun(cfg, run, events) && k < |run|
    ensures Authored(run[k])
  {
    if k == 0 {
    } else {
      RunAuthored(cfg, run, events, k - 1);
      RunCore(cfg, run, events, k - 1);
      hide Next, Core, Authored;
      NextAuthored(cfg, run[k - 1], events[k - 1]);
    }
  }

  // --------------------------------------------------------------- the theorem

  /** The code spent for an operation: the one its author consumed. */
  function CodeFor(s: State, op: OpId): Option<OtpId> {
    var i := Author(s.requests, op);
    if i.Some? && s.requests[i.value].code.Some? then Some(s.requests[i.value].code.value.otp) else None
  }

  /** A transfer or payout of at least the threshold. */
  predicate Large(cfg: Config, p: Posting) {
    MovedByRequest(p) && p.legs != [] && p.legs[0].amount >= Minor(cfg.otpThresholdHTG)
  }

  ghost predicate CodeSpentFor(s: State, op: OpId)
    requires op < |s.book.journal|
  {
    var code := CodeFor(s, op);
    && code.Some? && code.value < |s.otps|
    && s.book.journal[op].legs != []
    && var otp := s.otps[code.value];
       && s.book.journal[op].legs[0].account == Wallet(otp.user)
       && otp.consumedAt.Some? && otp.attempts < otp.maxAttempts
       && var author := s.requests[Author(s.requests, op).value];
          author.code.value.checkedAt <= otp.expiresAt && author.job.otp == Some(OtpClaim(code.value, otp.codeHash))
  }

  lemma LargeNeedsCode(cfg: Config, s: State, op: OpId)
    requires Core(cfg, s) && Authored(s) && OtpInv(cfg, s.otps, s.requests)
    requires op < |s.book.journal| && Large(cfg, s.book.journal[op])
    ensures CodeSpentFor(s, op)
  {
  }

  /**
   Codes and operations: in every run in which verifications of one code do not overlap, mapping a
   large transfer or payout to the code its author consumed is an injection into the codes of the
   payer, each matched by its author, before it expired and with fewer than the allowed tries on record.
   */
  lemma CodePerLargeOperation(cfg: Config, run: seq<State>, events: seq<Event>, k: nat, op: OpId, other: OpId)
    requires ConfigOk(cfg) && IsRun(cfg, run, events) && k < |run|
    requires forall n :: 0 <= n < |run| ==> CodesSerial(run[n].requests)
    requires op < |run[k].book.journal| && Large(cfg, run[k].book.journal[op])
    requires other < |run[k].book.journal| && Large(cfg, run[k].book.journal[other])
    ensures CodeSpentFor(run[k], op)
    ensures op != other ==> CodeFor(run[k], op) != CodeFor(run[k], other)
  {
    RunCore(cfg, run, events, k);
    RunAuthored(cfg, run, events, k);
    RunOtpInv(cfg, run, events, k);
    hide IsRun, Core, OtpInv, Authored, Large;
    LargeNeedsCode(cfg, run[k], op);
    LargeNeedsCode(cfg, run[k], other);
    if op != other {
      DistinctCodes(cfg, run[k], op, other);
    }
  }

  lemma DistinctCodes(cfg: Config, s: State, op: OpId, other: OpId)
    requires OtpInv(cfg, s.otps, s.requests) && op != other
    ensures CodeFor(s, op).Some? && CodeFor(s, other).Some? ==> CodeFor(s, op) != CodeFor(s, other)
  {
  }
}
