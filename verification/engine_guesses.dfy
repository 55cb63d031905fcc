/**
 How many wrong values a one-time code survives, and what it may be spent on: the promises of the code
 gate, and the slips of scheduling or use each of them depends on.
 */
module EngineGuesses {
  import opened Common
  import opened Ledger
  import opened Engine
  import opened EngineCore
  import opened EngineOtp
  import opened EngineReach
  import Topup

  // ------------------------------------------------------------ wrong guesses

  /** The event compares a wrong value with code `o`. */
  ghost predicate Guesses(s: State, t: State, e: Event, o: OtpId) {
    && e.Step? && e.request < |s.requests| && e.request < |t.requests|
    && s.requests[e.request].phase.LimitsOk?
    && t.requests[e.request].phase.OtpWrong? && t.requests[e.request].phase.otp == o
  }

  /** The wrong values compared with code `o` in the first `k` events of a run. */
  ghost function WrongGuesses(run: seq<State>, events: seq<Event>, o: OtpId, k: nat): nat
    requires |run| == |events| + 1 && k <= |events|
  {
    if k == 0 then 0
    else WrongGuesses(run, events, o, k - 1) + if Guesses(run[k - 1], run[k], events[k - 1], o) then 1 else 0
  }

  /**
   `overlap`: a code may be read while another request is between reading and saving it. `dieWrong`: a
   request may die there on a wrong value.
   */
  datatype Slips = Slips(overlap: bool, dieWrong: bool)

  /** Request `i` is about to read code `o`, which another request has read and not yet saved. */
  predicate ReadsHeldCode(cfg: Config, s: State, i: nat, o: OtpId) {
    && i < |s.requests| && s.requests[i].phase.LimitsOk? && NeedsCode(cfg, s.requests[i].job)
    && s.requests[i].job.otp.Some? && s.requests[i].job.otp.value.otp == o
    && exists j :: 0 <= j < |s.requests| && j != i && Holds(s.requests[j].phase) == Some(o)
  }

  predicate PermitsSlip(cfg: Config, f: Slips, o: OtpId, s: State, e: Event) {
    match e
    case Step(i, _) => ReadsHeldCode(cfg, s, i, o) ==> f.overlap
    case Crash(i) => i < |s.requests| && s.requests[i].phase.OtpWrong? && s.requests[i].phase.otp == o ==> f.dieWrong
    case _ => true
  }

  ghost function UnderSlips(cfg: Config, f: Slips, o: OtpId): Rule {
    (s: State, e: Event) => PermitsSlip(cfg, f, o, s, e)
  }

  predicate Free(requests: seq<Request>, o: OtpId) {
    forall i :: 0 <= i < |requests| ==> Holds(requests[i].phase) != Some(o)
  }

  predicate OneHolder(requests: seq<Request>, o: OtpId) {
    forall i, j :: 0 <= i < j < |requests| ==>
        Holds(requests[i].phase) != Some(o) || Holds(requests[j].phase) != Some(o)
  }

  /** What the code shows while a request holds it, after `w` wrong values. */
  predicate HolderFits(otp: Otp, p: Phase, w: nat) {
    && otp.consumedAt == None
    && (p.OtpWrong? ==> p.attempts == otp.attempts && w == otp.attempts + 1 <= otp.maxAttempts)
    && (p.OtpRight? ==> w == otp.attempts < otp.maxAttempts)
  }

  /** Every wrong value is on record, or about to be; none is compared beyond the limit, or after the right one. */
  ghost predicate Counted(otps: seq<Otp>, requests: seq<Request>, o: OtpId, w: nat) {
    if o >= |otps| then w == 0 && Free(requests, o)
    else
      var otp := otps[o];
      && otp.maxAttempts == OTP_MAX_ATTEMPTS
      && OneHolder(requests, o)
      && (forall i :: 0 <= i < |requests| && Holds(requests[i].phase) == Some(o) ==>
          HolderFits(otp, requests[i].phase, w))
      && (Free(requests, o) ==> w == otp.attempts <= otp.maxAttempts && (otp.consumedAt.Some? ==> w < otp.maxAttempts))
  }

  /** One request's own step. */
  lemma CountedMove(cfg: Config, otps: seq<Otp>, otps': seq<Otp>, now: int, requests: seq<Request>, i: nat, r': Request,
                    o: OtpId, w: nat)
    requires i < |requests| && Counted(otps, requests, o, w)
    requires EngineOtp.CodeStep(cfg, otps, otps', now, requests[i], r')
    requires requests[i].phase.LimitsOk? && Holds(r'.phase) == Some(o) ==> Free(requests, o)
    ensures Counted(otps', requests[i := r'], o,
                    w + if requests[i].phase.LimitsOk? && r'.phase.OtpWrong? && r'.phase.otp == o then 1 else 0)
  {
    var r, after := requests[i], requests[i := r'];
    assert forall j :: 0 <= j < |after| && j != i ==> after[j] == requests[j];
    if Holds(r.phase) == Some(o) {
      assert Holds(r'.phase) == None;
      assert Free(after, o);
    } else if Holds(r'.phase) == Some(o) {
      assert r.phase.LimitsOk?;
      assert Holds(after[i].phase) == Some(o) && !Free(after, o);
    } else {
      assert Free(after, o) ==> Free(requests, o) by {
        if Free(after, o) {
          assert forall j :: 0 <= j < |requests| && j != i ==> Holds(after[j].phase) != Some(o);
        }
      }
    }
  }

  lemma CountedAdvance(cfg: Config, s: State, i: nat, reply: Reply, o: OtpId, w: nat, f: Slips)
    requires i < |s.requests| && Counted(s.otps, s.requests, o, w)
    requires PermitsSlip(cfg, f, o, s, Step(i, reply)) && !f.overlap
    ensures var t := Advance(cfg, s, i, reply);
            Counted(t.otps, t.requests, o, w + if Guesses(s, t, Step(i, reply), o) then 1 else 0)
  {
    var t := Advance(cfg, s, i, reply);
    AdvanceCodes(cfg, s, i, reply);
    hide Advance, Counted;
    if s.requests[i].phase.LimitsOk? && Holds(t.requests[i].phase) == Some(o) {
      assert !ReadsHeldCode(cfg, s, i, o);
      assert Free(s.requests, o);
    }
    CountedMove(cfg, s.otps, t.otps, s.now, s.requests, i, t.requests[i], o, w);
  }

  /** A request that ends without having read a wrong value, and one that has only begun, change nothing. */
  lemma CountedCrash(otps: seq<Otp>, requests: seq<Request>, i: nat, o: OtpId, w: nat)
    requires i < |requests| && Counted(otps, requests, o, w)
    requires requests[i].phase.OtpWrong? ==> requests[i].phase.otp != o
    ensures Counted(otps, requests[i := requests[i].(phase := Stopped(Died))], o, w)
  {
    var after := requests[i := requests[i].(phase := Stopped(Died))];
    assert forall j :: 0 <= j < |after| && j != i ==> after[j] == requests[j];
    if Free(after, o) && Holds(requests[i].phase) != Some(o) {
      assert forall j :: 0 <= j < |requests| && j != i ==> Holds(after[j].phase) != Some(o);
      assert Free(requests, o);
    }
  }

  lemma CountedSubmit(otps: seq<Otp>, requests: seq<Request>, r: Request, o: OtpId, w: nat)
    requires Counted(otps, requests, o, w) && r.phase == Started
    ensures Counted(otps, requests + [r], o, w)
  {
    var after := requests + [r];
    assert forall j :: 0 <= j < |requests| ==> after[j] == requests[j];
    if Free(after, o) {
      assert forall j :: 0 <= j < |requests| ==> Holds(after[j].phase) != Some(o);
    }
  }

  lemma {:induction false} CountedNext(cfg: Config, s: State, e: Event, o: OtpId, w: nat, f: Slips)
    requires Counted(s.otps, s.requests, o, w) && PermitsSlip(cfg, f, o, s, e) && f == Slips(false, false)
    ensures var t := Next(cfg, s, e); Counted(t.otps, t.requests, o, w + if Guesses(s, t, e, o) then 1 else 0)
  {
    var t := Next(cfg, s, e);
    hide Advance, Topup.Commit;
    match e
    case Step(i, reply) =>
      if i < |s.requests| {
        CountedAdvance(cfg, s, i, reply, o, w, f);
      }
    case Crash(i) =>
      if i < |s.requests| && !s.requests[i].phase.Done? {
        CountedCrash(s.otps, s.requests, i, o, w);
      }
    case Submit(job) =>
      if t.requests != s.requests {
        CountedSubmit(s.otps, s.requests, t.requests[|s.requests|], o, w);
      }
    case _ =>
  }

  lemma SlipKept(cfg: Config, f: Slips, o: OtpId, run: seq<State>, events: seq<Event>, k: nat)
    requires |run| == |events| + 1 && KeepsRule(UnderSlips(cfg, f, o), run, events) && k < |events|
    ensures PermitsSlip(cfg, f, o, run[k], events[k])
  {
    assert UnderSlips(cfg, f, o)(run[k], events[k]);
  }

  lemma {:induction false} RunCounted(cfg: Config, run: seq<State>, events: seq<Event>, o: OtpId, k: nat)
    requires IsRun(cfg, run, events) && KeepsRule(UnderSlips(cfg, Slips(false, false), o), run, events) && k < |run|
    ensures Counted(run[k].otps, run[k].requests, o, WrongGuesses(run, events, o, k))
  {
    if k == 0 {
    } else {
      hide Next, Counted, PermitsSlip, Guesses;
      RunCounted(cfg, run, events, o, k - 1);
      SlipKept(cfg, Slips(false, false), o, run, events, k - 1);
      CountedNext(cfg, run[k - 1], events[k - 1], o, WrongGuesses(run, events, o, k - 1), Slips(false, false));
    }
  }

  /**
   While verifications of a code do not overlap and none dies on a wrong value, no code is compared with
   more wrong values than its limit; and once that many have been, the code is never consumed.
   */
  lemma {:induction false} WrongGuessesBounded(cfg: Config, run: seq<State>, events: seq<Event>, o: OtpId, k: nat)
    requires IsRun(cfg, run, events) && KeepsRule(UnderSlips(cfg, Slips(false, false), o), run, events) && k < |run|
    ensures WrongGuesses(run, events, o, k) <= OTP_MAX_ATTEMPTS
    ensures o < |run[k].otps| && WrongGuesses(run, events, o, k) == OTP_MAX_ATTEMPTS ==>
              run[k].otps[o].consumedAt == None
  {
    RunCounted(cfg, run, events, o, k);
    var s := run[k];
    if o < |s.otps| && !Free(s.requests, o) {
      var i :| 0 <= i < |s.requests| && Holds(s.requests[i].phase) == Some(o);
      assert HolderFits(s.otps[o], s.requests[i].phase, WrongGuesses(run, events, o, k));
    }
  }

  /** Request `i` is about to present the right value of code `o`, which is its payer's, unused and not expired. */
  predicate PresentsRight(cfg: Config, s: State, i: nat, o: OtpId) {
    && i < |s.requests| && s.requests[i].phase.LimitsOk? && s.requests[i].job.amountHTG >= cfg.otpThresholdHTG
    && o < |s.otps| && s.requests[i].job.otp == Some(OtpClaim(o, s.otps[o].codeHash))
    && s.otps[o].user == s.requests[i].job.payer && s.otps[o].consumedAt == None && s.now <= s.otps[o].expiresAt
  }

  /**
   And so the right value gets in exactly if fewer than three wrong ones have been compared, whoever entered
   them; otherwise the request is told that there were too many.
   */
  lemma RightValueAccepted(cfg: Config, run: seq<State>, events: seq<Event>, k: nat, i: nat, reply: Reply, o: OtpId)
    requires IsRun(cfg, run, events) && KeepsRule(UnderSlips(cfg, Slips(false, false), o), run, events)
    requires k < |events| && events[k] == Step(i, reply) && PresentsRight(cfg, run[k], i, o)
    ensures i < |run[k + 1].requests|
    ensures run[k + 1].requests[i].phase ==
            if WrongGuesses(run, events, o, k) < 3 then OtpRight(o, run[k].now)
            else Stopped(CodeRefused(TooManyAttempts))
  {
    var s := run[k];
    RunCounted(cfg, run, events, o, k);
    SlipKept(cfg, Slips(false, false), o, run, events, k);
    assert Next(cfg, s, events[k]) == CheckOtp(cfg, s, i) by { hide *; NextChecks(cfg, s, i, reply); }
    assert run[k + 1] == Next(cfg, s, events[k]);
    hide IsRun, Next, Advance, KeepsRule;
    assert !ReadsHeldCode(cfg, s, i, o);
    forall j | 0 <= j < |s.requests| ensures Holds(s.requests[j].phase) != Some(o) {
      assert j == i || Holds(s.requests[j].phase) != Some(o);
    }
    assert Free(s.requests, o);
  }

  lemma NextChecks(cfg: Config, s: State, i: nat, reply: Reply)
    requires i < |s.requests| && s.requests[i].phase.LimitsOk?
    ensures Next(cfg, s, Step(i, reply)) == CheckOtp(cfg, s, i)
  {
  }

  // ---------------------------------------- the field, whatever races or dies

  /** The stored count never passes the limit, nor is it about to. */
  ghost predicate FieldBounded(otps: seq<Otp>, requests: seq<Request>) {
    && (forall o :: 0 <= o < |otps| ==> otps[o].attempts <= otps[o].maxAttempts)
    && (forall i :: 0 <= i < |requests| && requests[i].phase.OtpWrong? ==>
          && requests[i].phase.otp < |otps|
          && requests[i].phase.attempts < otps[requests[i].phase.otp].maxAttempts)
  }

  lemma {:induction false} FieldNext(cfg: Config, s: State, e: Event)
    requires FieldBounded(s.otps, s.requests)
    ensures FieldBounded(Next(cfg, s, e).otps, Next(cfg, s, e).requests)
  {
    hide Advance, Topup.Commit;
    if e.Step? && e.request < |s.requests| {
      AdvanceCodes(cfg, s, e.request, e.reply);
    }
  }

  /** In every run, however verifications overlap or die, the stored count of wrong tries stays within the limit. */
  lemma {:induction false} TriesOnRecordBounded(cfg: Config, run: seq<State>, events: seq<Event>, k: nat)
    requires IsRun(cfg, run, events) && k < |run|
    ensures FieldBounded(run[k].otps, run[k].requests)
  {
    if k == 0 {
    } else {
      hide Next, FieldBounded;
      TriesOnRecordBounded(cfg, run, events, k - 1);
      FieldNext(cfg, run[k - 1], events[k - 1]);
    }
  }

  // ------------------------------------------------------------------ purposes

  function PurposeOf(job: Job): OtpPurpose {
    if job.purpose.CashOut? then ForPayout else ForTransfer
  }

  /** Request `i` is about to verify a code that was sent for the other purpose. */
  predicate CrossesPurpose(cfg: Config, s: State, i: nat) {
    && i < |s.requests| && s.requests[i].phase.LimitsOk? && NeedsCode(cfg, s.requests[i].job)
    && s.requests[i].job.otp.Some? && s.requests[i].job.otp.value.otp < |s.otps|
    && s.otps[s.requests[i].job.otp.value.otp].purpose != PurposeOf(s.requests[i].job)
  }

  ghost function UnderPurpose(cfg: Config, cross: bool): Rule {
    (s: State, e: Event) => e.Step? && CrossesPurpose(cfg, s, e.request) ==> cross
  }

  predicate SentFor(otps: seq<Otp>, o: OtpId, job: Job) {
    o < |otps| && otps[o].purpose == PurposeOf(job)
  }

  /** Every code a request has consumed was sent for what the request does. */
  ghost predicate PurposesMatch(s: State) {
    forall i :: 0 <= i < |s.requests| && s.requests[i].code.Some? ==>
      SentFor(s.otps, s.requests[i].code.value.otp, s.requests[i].job)
  }

  ghost predicate PurposeInv(otps: seq<Otp>, requests: seq<Request>) {
    forall i :: 0 <= i < |requests| ==>
      && (requests[i].code.Some? ==> SentFor(otps, requests[i].code.value.otp, requests[i].job))
      && (requests[i].phase.OtpRight? ==> SentFor(otps, requests[i].phase.otp, requests[i].job))
  }

  lemma {:induction false} PurposeNext(cfg: Config, s: State, e: Event)
    requires PurposeInv(s.otps, s.requests) && UnderPurpose(cfg, false)(s, e)
    ensures PurposeInv(Next(cfg, s, e).otps, Next(cfg, s, e).requests)
  {
    hide Advance, Topup.Commit;
    if e.Step? && e.request < |s.requests| {
      AdvanceCodes(cfg, s, e.request, e.reply);
    }
  }

  lemma {:induction false} RunPurposes(cfg: Config, run: seq<State>, events: seq<Event>, k: nat)
    requires IsRun(cfg, run, events) && KeepsRule(UnderPurpose(cfg, false), run, events) && k < |run|
    ensures PurposeInv(run[k].otps, run[k].requests)
  {
    if k == 0 {
    } else {
      hide Next, PurposeInv;
      RunPurposes(cfg, run, events, k - 1);
      assert UnderPurpose(cfg, false)(run[k - 1], events[k - 1]);
      hide UnderPurpose;
      PurposeNext(cfg, run[k - 1], events[k - 1]);
    }
  }

  // -------------------------------------------------- one code, one operation

  /** A code may be read while another request is between reading and saving it, or not. */
  ghost function UnderOverlap(cfg: Config, overlap: bool): Rule {
    (s: State, e: Event) => e.Step? && (exists o :: ReadsHeldCode(cfg, s, e.request, o)) ==> overlap
  }

  /** Every large transfer and payout spent a code of its payer's, and no two spent the same. */
  ghost predicate OneCodeEach(cfg: Config, s: State) {
    && (forall op :: 0 <= op < |s.book.journal| && Large(cfg, s.book.journal[op]) ==> CodeSpentFor(s, op))
    && (forall op, other ::
          (0 <= op < other < |s.book.journal| && Large(cfg, s.book.journal[op]) && Large(cfg, s.book.journal[other])) ==>
            CodeFor(s, op) != CodeFor(s, other))
  }

  lemma SerialNext(cfg: Config, s: State, e: Event)
    requires CodesSerial(s.requests) && UnderOverlap(cfg, false)(s, e)
    ensures CodesSerial(Next(cfg, s, e).requests)
  {
    hide Advance, Topup.Commit;
    if e.Step? && e.request < |s.requests| {
      AdvanceCodes(cfg, s, e.request, e.reply);
      var p' := Next(cfg, s, e).requests[e.request].phase;
      if Holds(p').Some? {
        assert !ReadsHeldCode(cfg, s, e.request, Holds(p').value);
      }
    }
  }

  lemma {:induction false} RunSerial(cfg: Config, run: seq<State>, events: seq<Event>, k: nat)
    requires IsRun(cfg, run, events) && KeepsRule(UnderOverlap(cfg, false), run, events) && k < |run|
    ensures CodesSerial(run[k].requests)
  {
    if k == 0 {
    } else {
      RunSerial(cfg, run, events, k - 1);
      assert UnderOverlap(cfg, false)(run[k - 1], events[k - 1]);
      hide Next, UnderOverlap;
      SerialNext(cfg, run[k - 1], events[k - 1]);
    }
  }

  lemma {:induction false} RunOneCodeEach(cfg: Config, run: seq<State>, events: seq<Event>, k: nat)
    requires ConfigOk(cfg) && IsRun(cfg, run, events) && KeepsRule(UnderOverlap(cfg, false), run, events) && k < |run|
    ensures OneCodeEach(cfg, run[k])
  {
    forall n | 0 <= n < |run| ensures CodesSerial(run[n].requests) {
      RunSerial(cfg, run, events, n);
    }
    hide IsRun, CodesSerial, KeepsRule, Large;
    var s := run[k];
    forall op | 0 <= op < |s.book.journal| && Large(cfg, s.book.journal[op]) ensures CodeSpentFor(s, op) {
      CodePerLargeOperation(cfg, run, events, k, op, op);
    }
    forall op, other | 0 <= op < other < |s.book.journal|
        && Large(cfg, s.book.journal[op]) && Large(cfg, s.book.journal[other])
      ensures CodeFor(s, op) != CodeFor(s, other)
    {
      CodePerLargeOperation(cfg, run, events, k, op, other);
    }
  }
}
