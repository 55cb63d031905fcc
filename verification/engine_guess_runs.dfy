/**
 The slips at work: requests of one user, all claiming one code, brought to the code gate and let
 through it out of turn. Each promise of the code gate is shown to hold exactly without its slip.
 */
module EngineGuessRuns {
  import opened Common
  import opened Ledger
  import opened Engine
  import opened EngineCore
  import opened EngineOtp
  import opened EngineReach
  import opened EngineGuesses
  import Topup

  /** One request of `amount` needs a code and fits every limit. */
  ghost predicate NeedsCodeAndFits(cfg: Config, amount: int) {
    && ConfigOk(cfg)
    && amount >= Topup.MIN_TOPUP_HTG && amount >= cfg.otpThresholdHTG
    && amount <= cfg.verifiedDailyHTG && amount <= cfg.verifiedMonthlyHTG && amount <= cfg.maxPayoutHTG
  }

  // -------------------------------------------------------------- the queue

  /** What all the requests want, and the value they all give for code 0, which was sent for transfers as value 0. */
  datatype Plot = Plot(amount: int, use: Purpose, guess: int)

  function JobOf(p: Plot, i: nat): Job {
    Job(0, p.use, p.amount, i, Some(OtpClaim(0, p.guess)))
  }

  function Waiting(p: Plot, i: nat): Request {
    Request(JobOf(p, i), Verified, LimitsOk, None, None)
  }

  const CODE := Otp(0, ForTransfer, 0, 0, OTP_MAX_ATTEMPTS, OTP_TTL_MS, None)

  function Sent(p: Plot): State {
    Funded(p.amount).(otps := [CODE])
  }

  /** `n` requests at the code gate. */
  function Queue(p: Plot, n: nat): State {
    Sent(p).(requests := seq(n, i requires i >= 0 => Waiting(p, i)))
  }

  /** The rule bears on the code gate alone. */
  ghost predicate BindsCodeGateOnly(rule: Rule) {
    forall s: State, e: Event ::
      (e.Step? && e.request < |s.requests| && s.requests[e.request].phase.LimitsOk?) || e.Crash? || rule(s, e)
  }

  ghost predicate Plausible(cfg: Config, p: Plot) {
    NeedsCodeAndFits(cfg, p.amount) && (p.use == SendTo(1) || p.use == CashOut)
  }

  lemma {:induction false} Queued(cfg: Config, rule: Rule, p: Plot, n: nat)
    requires Plausible(cfg, p) && BindsCodeGateOnly(rule)
    ensures Reached(cfg, rule, Queue(p, n))
  {
    if n == 0 {
      Opening(cfg, rule, p.amount);
      hide Reached;
      assert Next(cfg, Funded(p.amount), SendCode(0, ForTransfer, 0)) == Queue(p, 0);
      ReachedNext(cfg, rule, Funded(p.amount), SendCode(0, ForTransfer, 0));
    } else {
      Queued(cfg, rule, p, n - 1);
      JoinsQueue(cfg, rule, p, n - 1);
    }
  }

  lemma JoinsQueue(cfg: Config, rule: Rule, p: Plot, n: nat)
    requires Plausible(cfg, p) && BindsCodeGateOnly(rule) && Reached(cfg, rule, Queue(p, n))
    ensures Reached(cfg, rule, Queue(p, n + 1))
  {
    var s := Submitted(Queue(p, n), JobOf(p, n));
    FundedMoney(p.amount);
    hide Reached, Balance, DebitsSince;
    SubmitReached(cfg, rule, Queue(p, n), JobOf(p, n));
    LimitsPassed(cfg, rule, s, n);
    assert Move(s, n, LimitsOk).requests == Queue(p, n + 1).requests;
  }

  // ------------------------------------------------------ any number of guesses

  /** Some run that keeps the rule visits the state after `n` wrong values for code 0. */
  ghost predicate ReachedGuessing(cfg: Config, rule: Rule, s: State, n: nat) {
    exists run: seq<State>, events: seq<Event> ::
      && IsRun(cfg, run, events) && KeepsRule(rule, run, events) && run[|events|] == s
      && WrongGuesses(run, events, 0, |events|) >= n
  }

  lemma {:induction false} GuessesOfPrefix(run: seq<State>, events: seq<Event>, t: State, e: Event, k: nat)
    requires |run| == |events| + 1 && k <= |events|
    ensures WrongGuesses(run + [t], events + [e], 0, k) == WrongGuesses(run, events, 0, k)
  {
    if k == 0 {
    } else {
      GuessesOfPrefix(run, events, t, e, k - 1);
      assert (events + [e])[k - 1] == events[k - 1] && (run + [t])[k] == run[k] && (run + [t])[k - 1] == run[k - 1];
    }
  }

  lemma GuessingNext(cfg: Config, rule: Rule, s: State, e: Event, n: nat)
    requires ReachedGuessing(cfg, rule, s, n) && rule(s, e)
    ensures ReachedGuessing(cfg, rule, Next(cfg, s, e), n + if Guesses(s, Next(cfg, s, e), e, 0) then 1 else 0)
  {
    var run: seq<State>, events: seq<Event> :|
      && IsRun(cfg, run, events) && KeepsRule(rule, run, events) && run[|events|] == s
      && WrongGuesses(run, events, 0, |events|) >= n;
    var t := Next(cfg, s, e);
    RunExtends(cfg, rule, run, events, e);
    hide Next, IsRun, KeepsRule, Guesses;
    GuessesOfPrefix(run, events, t, e, |events|);
    var run', events' := run + [t], events + [e];
    assert run'[|events'|] == t && run'[|events|] == s && events'[|events|] == e;
  }

  /** The first `k` have given a wrong value, and hold the code or died holding it. */
  function Guessed(p: Plot, n: nat, k: nat, held: bool): State
    requires k <= n
  {
    Sent(p).(requests := seq(n, i requires i >= 0 =>
      if i < k then Waiting(p, i).(phase := if held then OtpWrong(0, 0) else Stopped(Died)) else Waiting(p, i)))
  }

  lemma GuessMove(cfg: Config, p: Plot, n: nat, k: nat, held: bool)
    requires Plausible(cfg, p) && p.guess != 0 && k < n
    ensures var s := Guessed(p, n, k, held);
            var t := s.(requests := s.requests[k := Waiting(p, k).(phase := OtpWrong(0, 0))]);
            && Next(cfg, s, Step(k, No)) == t && Guesses(s, t, Step(k, No), 0)
            && (held ==> t == Guessed(p, n, k + 1, true))
            && (!held ==> Next(cfg, t, Crash(k)) == Guessed(p, n, k + 1, false))
  {
    var s := Guessed(p, n, k, held);
    assert s.requests[k] == Waiting(p, k) && s.otps[0] == CODE;
    var t := s.(requests := s.requests[k := Waiting(p, k).(phase := OtpWrong(0, 0))]);
    assert held ==> t.requests == Guessed(p, n, k + 1, true).requests;
    assert !held ==> Move(t, k, Stopped(Died)).requests == Guessed(p, n, k + 1, false).requests;
  }

  /** With either slip, one code takes as many wrong values as anyone cares to try. */
  lemma {:induction false} NoEnd(cfg: Config, p: Plot, f: Slips, n: nat, k: nat)
    requires Plausible(cfg, p) && p.guess != 0 && k <= n && (f.overlap || f.dieWrong)
    ensures ReachedGuessing(cfg, UnderSlips(cfg, f, 0), Guessed(p, n, k, f.overlap), k)
  {
    var rule := UnderSlips(cfg, f, 0);
    if k == 0 {
      Queued(cfg, rule, p, n);
      assert Guessed(p, n, 0, f.overlap) == Queue(p, n);
    } else {
      var s := Guessed(p, n, k - 1, f.overlap);
      NoEnd(cfg, p, f, n, k - 1);
      GuessMove(cfg, p, n, k - 1, f.overlap);
      var t := s.(requests := s.requests[k - 1 := Waiting(p, k - 1).(phase := OtpWrong(0, 0))]);
      assert rule(s, Step(k - 1, No));
      assert !f.overlap ==> rule(t, Crash(k - 1));
      hide Next, ReachedGuessing, UnderSlips, Guesses, Guessed;
      GuessingNext(cfg, rule, s, Step(k - 1, No), k - 1);
      if !f.overlap {
        DeathAdds(cfg, rule, t, k - 1, k);
      }
    }
  }

  lemma DeathAdds(cfg: Config, rule: Rule, s: State, i: nat, n: nat)
    requires ReachedGuessing(cfg, rule, s, n) && rule(s, Crash(i))
    ensures ReachedGuessing(cfg, rule, Next(cfg, s, Crash(i)), n)
  {
    GuessingNext(cfg, rule, s, Crash(i), n);
  }

  ghost predicate GuessesBounded(cfg: Config, f: Slips) {
    forall o: OtpId, run: seq<State>, events: seq<Event> ::
      IsRun(cfg, run, events) && KeepsRule(UnderSlips(cfg, f, o), run, events) ==>
        WrongGuesses(run, events, o, |events|) <= OTP_MAX_ATTEMPTS
  }

  /**
   No code is compared with more wrong values than its limit, in all runs, exactly when verifications of
   one code do not overlap and no request dies between a wrong value and its record.
   */
  lemma GuessesBoundedWhen(cfg: Config, amount: int, f: Slips)
    requires NeedsCodeAndFits(cfg, amount)
    ensures GuessesBounded(cfg, f) <==> !f.overlap && !f.dieWrong
  {
    if !f.overlap && !f.dieWrong {
      forall o: OtpId, run: seq<State>, events: seq<Event> |
        IsRun(cfg, run, events) && KeepsRule(UnderSlips(cfg, f, o), run, events)
        ensures WrongGuesses(run, events, o, |events|) <= OTP_MAX_ATTEMPTS
      {
        hide IsRun, KeepsRule, UnderSlips;
        WrongGuessesBounded(cfg, run, events, o, |events|);
      }
    } else {
      var n := OTP_MAX_ATTEMPTS + 1;
      NoEnd(cfg, Plot(amount, SendTo(1), 1), f, n, n);
      hide IsRun, KeepsRule, UnderSlips, WrongGuesses;
    }
  }

  // ------------------------------------------------------- through the gate

  const SPENT := CODE.(consumedAt := Some(0))

  function Verified0(p: Plot, i: nat, phase: Phase): Request {
    Waiting(p, i).(phase := phase, code := Some(UsedCode(0, 0)))
  }

  /** The right value is found, saved, and lets its request through, whatever else is in the queue. */
  lemma ReadRight(cfg: Config, p: Plot, s: State, i: nat)
    requires Plausible(cfg, p) && p.guess == 0 && i < |s.requests| && s.requests[i] == Waiting(p, i)
    requires s.now == 0 && s.otps == [CODE]
    ensures Advance(cfg, s, i, No) == Move(s, i, OtpRight(0, 0))
  {
  }

  lemma SaveRight(cfg: Config, p: Plot, s: State, i: nat)
    requires i < |s.requests| && s.requests[i] == Waiting(p, i).(phase := OtpRight(0, 0))
    requires s.now == 0 && (s.otps == [CODE] || s.otps == [SPENT])
    ensures Advance(cfg, s, i, No) == s.(otps := [SPENT], requests := s.requests[i := Verified0(p, i, GatesOk)])
  {
  }

  // ------------------------------------------------ one code, two operations

  function Two(a: Request, b: Request, otp: Otp, p: Plot): State {
    Sent(p).(requests := [a, b], otps := [otp])
  }

  lemma BothVerified(cfg: Config, p: Plot)
    requires Plausible(cfg, p) && p.guess == 0
    ensures Reached(cfg, UnderOverlap(cfg, true), Two(Verified0(p, 0, GatesOk), Verified0(p, 1, GatesOk), SPENT, p))
  {
    var rule := UnderOverlap(cfg, true);
    var w0, w1 := Waiting(p, 0), Waiting(p, 1);
    var r0, r1 := w0.(phase := OtpRight(0, 0)), w1.(phase := OtpRight(0, 0));
    var v0, v1 := Verified0(p, 0, GatesOk), Verified0(p, 1, GatesOk);
    assert forall s: State, e: Event :: rule(s, e);
    Queued(cfg, rule, p, 2);
    hide Reached, Advance, UnderOverlap;
    assert Queue(p, 2) == Two(w0, w1, CODE, p);
    ReadRight(cfg, p, Two(w0, w1, CODE, p), 0);
    StepTo(cfg, rule, Two(w0, w1, CODE, p), 0, No, Two(r0, w1, CODE, p));
    ReadRight(cfg, p, Two(r0, w1, CODE, p), 1);
    StepTo(cfg, rule, Two(r0, w1, CODE, p), 1, No, Two(r0, r1, CODE, p));
    SaveRight(cfg, p, Two(r0, r1, CODE, p), 0);
    StepTo(cfg, rule, Two(r0, r1, CODE, p), 0, No, Two(v0, r1, SPENT, p));
    SaveRight(cfg, p, Two(v0, r1, SPENT, p), 1);
    StepTo(cfg, rule, Two(v0, r1, SPENT, p), 1, No, Two(v0, v1, SPENT, p));
  }

  function TransferPosting(amount: int, i: nat): Posting {
    Posting(WalletTransfer(i), Transfer,
            [Leg(Wallet(0), Debit, Minor(amount), HTG), Leg(Wallet(1), Credit, Minor(amount), HTG)], None, 0)
  }

  function Posted(p: Plot, i: nat): Request {
    Verified0(p, i, Done(Answer.Sent(i + 1, false))).(posted := Some(i + 1))
  }

  function OnePosted(p: Plot): State {
    Two(Posted(p, 0), Verified0(p, 1, GatesOk), SPENT, p)
      .(book := Book([TopupPosting(p.amount), TransferPosting(p.amount, 0)], [Completed, Completed]))
  }

  function BothPosted(p: Plot): State {
    Two(Posted(p, 0), Posted(p, 1), SPENT, p)
      .(book := Book([TopupPosting(p.amount), TransferPosting(p.amount, 0), TransferPosting(p.amount, 1)],
                     [Completed, Completed, Completed]))
  }

  lemma TransfersPost(cfg: Config, p: Plot)
    requires Plausible(cfg, p) && p.use == SendTo(1)
    ensures var s := Two(Verified0(p, 0, GatesOk), Verified0(p, 1, GatesOk), SPENT, p);
            && Advance(cfg, s, 0, No) == OnePosted(p)
            && Advance(cfg, OnePosted(p), 1, No) == BothPosted(p)
  {
    var s, t := Two(Verified0(p, 0, GatesOk), Verified0(p, 1, GatesOk), SPENT, p), OnePosted(p);
    PairLegs(Wallet(0), Wallet(1), Minor(p.amount));
    assert s.book.journal + [TransferPosting(p.amount, 0)] == t.book.journal;
    assert t.book.journal + [TransferPosting(p.amount, 1)] == BothPosted(p).book.journal;
    assert t.book.journal[0].key == MonCash(0) && t.book.journal[1].key == WalletTransfer(0);
  }

  lemma SharedCode(cfg: Config, p: Plot)
    requires Plausible(cfg, p) && p.use == SendTo(1)
    ensures !OneCodeEach(cfg, BothPosted(p))
  {
    var s := BothPosted(p);
    assert s.requests[..1] == [Posted(p, 0)] && s.requests[..1][..0] == [];
    assert Author(s.requests, 1) == Some(0) && Author(s.requests, 2) == Some(1);
    assert CodeFor(s, 1) == CodeFor(s, 2);
    assert Large(cfg, s.book.journal[1]) && Large(cfg, s.book.journal[2]);
  }

  /**
   Every large transfer and payout spends a code of its own, in all runs, exactly when no code is read
   while another request is between reading and saving it.
   */
  lemma OneCodeEachWhen(cfg: Config, amount: int, overlap: bool)
    requires NeedsCodeAndFits(cfg, amount)
    ensures (forall s :: Reached(cfg, UnderOverlap(cfg, overlap), s) ==> OneCodeEach(cfg, s)) <==> !overlap
  {
    var rule := UnderOverlap(cfg, overlap);
    if !overlap {
      forall s | Reached(cfg, rule, s) ensures OneCodeEach(cfg, s) {
        var run: seq<State>, events: seq<Event> :|
          IsRun(cfg, run, events) && KeepsRule(rule, run, events) && run[|events|] == s;
        hide IsRun, KeepsRule, OneCodeEach;
        RunOneCodeEach(cfg, run, events, |events|);
      }
    } else {
      var p := Plot(amount, SendTo(1), 0);
      var s := Two(Verified0(p, 0, GatesOk), Verified0(p, 1, GatesOk), SPENT, p);
      assert forall s: State, e: Event :: rule(s, e);
      BothVerified(cfg, p);
      TransfersPost(cfg, p);
      SharedCode(cfg, p);
      hide Reached, Advance, UnderOverlap, OneCodeEach;
      StepTo(cfg, rule, s, 0, No, OnePosted(p));
      StepTo(cfg, rule, OnePosted(p), 1, No, BothPosted(p));
    }
  }

  // ------------------------------------------------ a code sent for another use

  function One(r: Request, otp: Otp, p: Plot): State {
    Sent(p).(requests := [r], otps := [otp])
  }

  /** A payout reserved on the strength of a code that was sent for transfers. */
  function Reserved(p: Plot): State {
    One(Verified0(p, 0, Held(1)).(posted := Some(1)), SPENT, p)
      .(book := Book([TopupPosting(p.amount),
                      Posting(PayoutReserve(0), Payout,
                              [Leg(Wallet(0), Debit, Minor(p.amount), HTG), Leg(FLOAT, Credit, Minor(p.amount), HTG)],
                              None, 0)],
                     [Completed, Pending]))
  }

  lemma PayoutReserves(cfg: Config, p: Plot)
    requires Plausible(cfg, p) && p.use == CashOut
    ensures Advance(cfg, One(Verified0(p, 0, GatesOk), SPENT, p), 0, No) == Reserved(p)
  {
    var s, t := One(Verified0(p, 0, GatesOk), SPENT, p), Reserved(p);
    PairLegs(Wallet(0), FLOAT, Minor(p.amount));
    assert s.book.journal + [t.book.journal[1]] == t.book.journal;
  }

  lemma OneVerified(cfg: Config, p: Plot)
    requires Plausible(cfg, p) && p.guess == 0
    ensures Reached(cfg, UnderPurpose(cfg, true), One(Verified0(p, 0, GatesOk), SPENT, p))
  {
    var rule := UnderPurpose(cfg, true);
    var w, r := Waiting(p, 0), Waiting(p, 0).(phase := OtpRight(0, 0));
    assert forall s: State, e: Event :: rule(s, e);
    Queued(cfg, rule, p, 1);
    assert Queue(p, 1) == One(w, CODE, p);
    ReadRight(cfg, p, One(w, CODE, p), 0);
    SaveRight(cfg, p, One(r, CODE, p), 0);
    hide Reached, UnderPurpose, Advance, TopupPosting, NeedsCodeAndFits;
    StepTo(cfg, rule, One(w, CODE, p), 0, No, One(r, CODE, p));
    StepTo(cfg, rule, One(r, CODE, p), 0, No, One(Verified0(p, 0, GatesOk), SPENT, p));
  }

  lemma PayoutByTransferCode(cfg: Config, p: Plot)
    requires Plausible(cfg, p) && p.guess == 0 && p.use == CashOut
    ensures Reached(cfg, UnderPurpose(cfg, true), Reserved(p)) && !PurposesMatch(Reserved(p))
  {
    var rule := UnderPurpose(cfg, true);
    assert forall s: State, e: Event :: rule(s, e);
    OneVerified(cfg, p);
    PayoutReserves(cfg, p);
    hide Reached, UnderPurpose, Advance;
    StepTo(cfg, rule, One(Verified0(p, 0, GatesOk), SPENT, p), 0, No, Reserved(p));
    assert Reserved(p).requests[0].code == Some(UsedCode(0, 0)) && !SentFor(Reserved(p).otps, 0, JobOf(p, 0));
  }

  /**
   Codes are spent only on what they were sent for, in all runs, exactly when no request presents one
   that was sent for the other use.
   */
  lemma PurposesMatchWhen(cfg: Config, amount: int, cross: bool)
    requires NeedsCodeAndFits(cfg, amount)
    ensures (forall s :: Reached(cfg, UnderPurpose(cfg, cross), s) ==> PurposesMatch(s)) <==> !cross
  {
    var rule := UnderPurpose(cfg, cross);
    if !cross {
      forall s | Reached(cfg, rule, s) ensures PurposesMatch(s) {
        var run: seq<State>, events: seq<Event> :|
          IsRun(cfg, run, events) && KeepsRule(rule, run, events) && run[|events|] == s;
        hide IsRun, KeepsRule;
        RunPurposes(cfg, run, events, |events|);
      }
    } else {
      PayoutByTransferCode(cfg, Plot(amount, CashOut, 0));
    }
  }
}
