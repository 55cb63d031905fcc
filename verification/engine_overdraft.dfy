/**
 The overdraft bound is reached, for any number of racing requests: a wallet holding one daily cap
 starts `c` transfers of the whole cap, all pass every gate, and then all of them post.
 */
module EngineOverdraft {
  import opened Common
  import opened Ledger
  import opened Engine
  import opened EngineCore
  import opened EngineLimits
  import opened EngineReach
  import Topup

  /** The verified tier has the largest daily cap, its monthly cap leaves room for one, and it can be topped up. */
  ghost predicate CapCanBeSpent(cfg: Config) {
    && ConfigOk(cfg) && CapsOrdered(cfg)
    && cfg.verifiedMonthlyHTG >= cfg.verifiedDailyHTG >= Topup.MIN_TOPUP_HTG
  }

  // --------------------------------------------------------------- the story

  /** Nothing is ruled out. */
  ghost function AnyRun(): Rule {
    (s: State, e: Event) => true
  }

  predicate CapNeedsCode(cfg: Config) {
    cfg.verifiedDailyHTG >= cfg.otpThresholdHTG
  }

  function JobOf(cfg: Config, i: nat): Job {
    Job(0, SendTo(1), cfg.verifiedDailyHTG, i, Some(OtpClaim(i, 0)))
  }

  function Code(consumed: bool): Otp {
    Otp(0, ForTransfer, 0, 0, OTP_MAX_ATTEMPTS, OTP_TTL_MS, if consumed then Some(0) else None)
  }

  function At(cfg: Config, i: nat, phase: Phase): Request {
    Request(JobOf(cfg, i), Verified, phase, None, None)
  }

  function Through(cfg: Config, i: nat): Request {
    At(cfg, i, GatesOk).(code := if CapNeedsCode(cfg) then Some(UsedCode(i, 0)) else None)
  }

  function Paid(cfg: Config, i: nat): Request {
    Through(cfg, i).(phase := Done(Sent(i + 1, false)), posted := Some(i + 1))
  }

  function TransferOf(cfg: Config, i: nat): Posting {
    var amount := Minor(cfg.verifiedDailyHTG);
    Posting(WalletTransfer(i), Transfer,
            [Leg(Wallet(0), Debit, amount, HTG), Leg(Wallet(1), Credit, amount, HTG)], None, 0)
  }

  /** `posted` transfers of the first `k` have been written, and all `k` are through the gates. */
  function Story(cfg: Config, k: nat, posted: nat): State
    requires posted <= k
  {
    State(0,
          Book([TopupPosting(cfg.verifiedDailyHTG)] + seq(posted, i requires i >= 0 => TransferOf(cfg, i)),
               seq(posted + 1, i => Completed)),
          [Verified, Basic],
          seq(k, i => Code(CapNeedsCode(cfg))),
          [],
          [TopupOf(cfg.verifiedDailyHTG)],
          seq(k, i requires i >= 0 => if i < posted then Paid(cfg, i) else Through(cfg, i)),
          [])
  }

  /** The wallet has paid nothing yet, and holds one cap; after `posted` transfers it holds that many caps less. */
  lemma {:induction false} Money(cfg: Config, k: nat, posted: nat)
    requires posted <= k
    ensures var journal := Story(cfg, k, posted).book.journal;
            && Balance(journal, Wallet(0), HTG) == Minor(cfg.verifiedDailyHTG) * (1 - posted)
            && (posted == 0 ==> forall since :: DebitsSince(journal, Wallet(0), since, HTG) == 0)
            && (forall since :: since <= 0 ==>
                  DebitsSince(journal, Wallet(0), since, HTG) == Minor(cfg.verifiedDailyHTG) * posted)
  {
    var amount := Minor(cfg.verifiedDailyHTG);
    var journal := Story(cfg, k, posted).book.journal;
    if posted == 0 {
      assert journal == Funded(cfg.verifiedDailyHTG).book.journal;
      FundedMoney(cfg.verifiedDailyHTG);
    } else {
      var before := Story(cfg, k, posted - 1).book.journal;
      assert journal == before + [TransferOf(cfg, posted - 1)];
      Money(cfg, k, posted - 1);
      BalanceAppend(before, TransferOf(cfg, posted - 1), Wallet(0), HTG);
      PairEffect(Wallet(0), Wallet(1), amount, Wallet(0), HTG);
      forall since | since <= 0
        ensures DebitsSince(journal, Wallet(0), since, HTG) == DebitsSince(before, Wallet(0), since, HTG) + amount
      {
        DebitsAppend(before, TransferOf(cfg, posted - 1), Wallet(0), since, HTG);
      }
      hide Story, Balance, DebitsSince;
      assert amount * (1 - posted) == amount * (1 - (posted - 1)) - amount;
      assert amount * posted == amount * (posted - 1) + amount;
    }
  }

  // ------------------------------------------------------ one more request

  function Midway(cfg: Config, k: nat, phase: Phase): State {
    var s := Story(cfg, k, 0);
    s.(otps := s.otps + [Code(false)], requests := s.requests + [At(cfg, k, phase)])
  }

  lemma Joined(cfg: Config, k: nat)
    requires CapCanBeSpent(cfg) && Reached(cfg, AnyRun(), Story(cfg, k, 0))
    ensures Reached(cfg, AnyRun(), Midway(cfg, k, LimitsOk))
  {
    var s := Story(cfg, k, 0);
    var s1 := s.(otps := s.otps + [Code(false)]);
    Money(cfg, k, 0);
    hide Reached, Balance, DebitsSince;
    assert Next(cfg, s, SendCode(0, ForTransfer, 0)) == s1;
    ReachedNext(cfg, AnyRun(), s, SendCode(0, ForTransfer, 0));
    assert Submitted(s1, JobOf(cfg, k)) == Midway(cfg, k, Started);
    SubmitReached(cfg, AnyRun(), s1, JobOf(cfg, k));
    LimitsPassed(cfg, AnyRun(), Midway(cfg, k, Started), k);
    MidwayMove(cfg, k, Started, LimitsOk);
  }

  lemma MidwayMove(cfg: Config, k: nat, phase: Phase, phase': Phase)
    ensures |Midway(cfg, k, phase).requests| == k + 1
    ensures Move(Midway(cfg, k, phase), k, phase') == Midway(cfg, k, phase')
  {
  }

  lemma CodePassed(cfg: Config, k: nat)
    requires CapCanBeSpent(cfg) && Reached(cfg, AnyRun(), Midway(cfg, k, LimitsOk))
    ensures Reached(cfg, AnyRun(), Story(cfg, k + 1, 0))
  {
    var t := Story(cfg, k + 1, 0);
    var s := Midway(cfg, k, LimitsOk);
    hide Reached;
    if CapNeedsCode(cfg) {
      MidwayMove(cfg, k, LimitsOk, OtpRight(k, 0));
      var u := Midway(cfg, k, OtpRight(k, 0));
      assert Advance(cfg, s, k, No) == u;
      StepTo(cfg, AnyRun(), s, k, No, u);
      assert Advance(cfg, u, k, No) == t by {
        assert u.otps[k := Code(true)] == t.otps;
        assert u.requests[k := Through(cfg, k)] == t.requests;
      }
      StepTo(cfg, AnyRun(), u, k, No, t);
    } else {
      MidwayMove(cfg, k, LimitsOk, GatesOk);
      assert Midway(cfg, k, GatesOk).otps == t.otps;
      assert Midway(cfg, k, GatesOk).requests == t.requests;
      StepTo(cfg, AnyRun(), s, k, No, t);
    }
  }

  lemma {:induction false} AllThrough(cfg: Config, k: nat)
    requires CapCanBeSpent(cfg)
    ensures Reached(cfg, AnyRun(), Story(cfg, k, 0))
  {
    if k == 0 {
      Opening(cfg, AnyRun(), cfg.verifiedDailyHTG);
      assert Funded(cfg.verifiedDailyHTG) == Story(cfg, 0, 0);
    } else {
      AllThrough(cfg, k - 1);
      hide Reached, Story, Midway;
      Joined(cfg, k - 1);
      CodePassed(cfg, k - 1);
    }
  }

  // -------------------------------------------------------------- all post

  lemma PostNext(cfg: Config, k: nat, posted: nat)
    requires CapCanBeSpent(cfg) && posted < k
    ensures |Story(cfg, k, posted).requests| == k
    ensures Advance(cfg, Story(cfg, k, posted), posted, No) == Story(cfg, k, posted + 1)
  {
    var s, t := Story(cfg, k, posted), Story(cfg, k, posted + 1);
    PairLegs(Wallet(0), Wallet(1), Minor(cfg.verifiedDailyHTG));
    assert forall i :: 0 <= i < |s.book.journal| ==> s.book.journal[i].key != WalletTransfer(posted);
    assert s.book.journal + [TransferOf(cfg, posted)] == t.book.journal;
    assert s.book.status + [Completed] == t.book.status;
    assert s.requests[posted := Paid(cfg, posted)] == t.requests;
  }

  lemma {:induction false} AllPosted(cfg: Config, k: nat, posted: nat)
    requires CapCanBeSpent(cfg) && posted <= k
    ensures Reached(cfg, AnyRun(), Story(cfg, k, posted))
  {
    if posted == 0 {
      AllThrough(cfg, k);
    } else {
      AllPosted(cfg, k, posted - 1);
      PostNext(cfg, k, posted - 1);
      hide Reached, Advance;
      StepTo(cfg, AnyRun(), Story(cfg, k, posted - 1), posted - 1, No, Story(cfg, k, posted));
    }
  }

  /** Requests are never deleted, so no more of them ever raced than there are in the end. */
  lemma {:induction false} FewRaced(cfg: Config, run: seq<State>, events: seq<Event>, k: nat, n: nat, u: UserId)
    requires IsRun(cfg, run, events) && k <= n < |run|
    ensures Sum(run[k].requests, Racing(u)) <= |run[k].requests| <= |run[n].requests|
    decreases n - k
  {
    RacingAtMost(run[k].requests, u);
    if k < n {
      FewRaced(cfg, run, events, k + 1, n, u);
      RequestsStay(cfg, run[k], events[k]);
      hide Next;
    }
  }

  lemma RequestsStay(cfg: Config, s: State, e: Event)
    ensures |s.requests| <= |Next(cfg, s, e).requests|
  {
    if e.Step? && e.request < |s.requests| {
      AdvanceKeepsJob(cfg, s, e.request, e.reply);
      hide Advance;
    }
  }

  lemma RacingAtMost(requests: seq<Request>, u: UserId)
    ensures Sum(requests, Racing(u)) <= |requests|
  {
  }

  /** The story as a run in which no more than `c` requests of the wallet ever raced. */
  lemma StoryRuns(cfg: Config, c: nat)
    requires CapCanBeSpent(cfg)
    ensures exists run: seq<State>, events: seq<Event> ::
              && IsRun(cfg, run, events) && AtMostRacing(run, 0, c) && |events| < |run|
              && run[|events|] == Story(cfg, c, c)
  {
    AllPosted(cfg, c, c);
    var run: seq<State>, events: seq<Event> :| IsRun(cfg, run, events) && run[|events|] == Story(cfg, c, c);
    forall k | 0 <= k < |run| ensures Sum(run[k].requests, Racing(0)) <= c {
      FewRaced(cfg, run, events, k, |events|, 0);
    }
    hide IsRun, Story;
  }

  /**
   No better bounds hold: with `c` requests racing, some run takes the wallet to exactly minus `c - 1`
   largest daily caps, and has it pay out `c` daily caps within the day.
   */
  lemma BoundIsReached(cfg: Config, c: nat) returns (run: seq<State>, events: seq<Event>)
    requires CapCanBeSpent(cfg)
    ensures IsRun(cfg, run, events) && AtMostRacing(run, 0, c) && |events| < |run|
    ensures var s := run[|events|];
            && Balance(s.book.journal, Wallet(0), HTG) == -(cfg.verifiedDailyHTG * 100 * (c - 1))
            && |s.tiers| > 0 && s.tiers[0] == Verified
            && DebitsSince(s.book.journal, Wallet(0), cfg.calendar.dayStart(s.now), HTG)
               == cfg.verifiedDailyHTG * 100 * c
  {
    StoryRuns(cfg, c);
    StoryMoney(cfg, c);
    hide IsRun, AtMostRacing, Story, Balance, DebitsSince;
    run, events :| IsRun(cfg, run, events) && AtMostRacing(run, 0, c) && |events| < |run|
                   && run[|events|] == Story(cfg, c, c);
  }

  lemma StoryMoney(cfg: Config, c: nat)
    requires CapCanBeSpent(cfg)
    ensures var s := Story(cfg, c, c);
            && Balance(s.book.journal, Wallet(0), HTG) == -(cfg.verifiedDailyHTG * 100 * (c - 1))
            && |s.tiers| > 0 && s.tiers[0] == Verified
            && DebitsSince(s.book.journal, Wallet(0), cfg.calendar.dayStart(s.now), HTG)
               == cfg.verifiedDailyHTG * 100 * c
  {
    Money(cfg, c, c);
    var s := Story(cfg, c, c);
    assert cfg.calendar.dayStart(s.now) <= 0;
    hide Story, Balance, DebitsSince;
    var cap := cfg.verifiedDailyHTG * 100;
    assert cap * (c - 1) == -(cap * (1 - c));
  }

  ghost predicate NeverNegative(cfg: Config, c: nat) {
    forall run: seq<State>, events: seq<Event>, u: UserId, k: nat ::
      IsRun(cfg, run, events) && AtMostRacing(run, u, c) && k < |run| ==>
        Balance(run[k].book.journal, Wallet(u), HTG) >= 0
  }

  /** The balance check keeps wallets out of the red exactly when no two requests of a wallet may race. */
  lemma NeverNegativeWhen(cfg: Config, c: nat)
    requires CapCanBeSpent(cfg) && c >= 1
    ensures NeverNegative(cfg, c) <==> c == 1
  {
    if c == 1 {
      forall run: seq<State>, events: seq<Event>, u: UserId, k: nat |
        IsRun(cfg, run, events) && AtMostRacing(run, u, c) && k < |run|
        ensures Balance(run[k].book.journal, Wallet(u), HTG) >= 0
      {
        hide IsRun, AtMostRacing, Balance;
        BoundedOverdraft(cfg, run, events, u, 1, k);
      }
    } else {
      hide IsRun, AtMostRacing, Balance, DebitsSince;
      var run, events := BoundIsReached(cfg, c);
      Positive(cfg.verifiedDailyHTG * 100, c - 1);
    }
  }

  /** What the wallet has paid out today is within the daily cap of its tier. */
  ghost predicate WithinCap(cfg: Config, s: State, u: UserId) {
    DebitsSince(s.book.journal, Wallet(u), cfg.calendar.dayStart(s.now), HTG)
    <= (if u < |s.tiers| && s.tiers[u] == Verified then cfg.verifiedDailyHTG else cfg.basicDailyHTG) * 100
  }

  ghost predicate DailyCapHolds(cfg: Config, c: nat) {
    forall run: seq<State>, events: seq<Event>, u: UserId, k: nat ::
      IsRun(cfg, run, events) && AtMostRacing(run, u, c) && k < |run| ==>
        WithinCap(cfg, run[k], u)
  }

  /** The daily cap holds in all runs exactly when no two requests of a wallet may race. */
  lemma DailyCapHoldsWhen(cfg: Config, c: nat)
    requires CapCanBeSpent(cfg) && c >= 1
    ensures DailyCapHolds(cfg, c) <==> c == 1
  {
    if c == 1 {
      forall run: seq<State>, events: seq<Event>, u: UserId, k: nat |
        IsRun(cfg, run, events) && AtMostRacing(run, u, c) && k < |run|
        ensures WithinCap(cfg, run[k], u)
      {
        hide IsRun, AtMostRacing, DebitsSince;
        CapsHold(cfg, run, events, u, 1, k);
      }
    } else {
      hide IsRun, AtMostRacing, Balance, DebitsSince;
      var run, events := BoundIsReached(cfg, c);
      var cap := cfg.verifiedDailyHTG * 100;
      Positive(cap, c - 1);
      assert cap * c == cap + cap * (c - 1);
    }
  }

  lemma Positive(cap: int, n: nat)
    requires cap > 0 && n > 0
    ensures cap * n > 0
  {
  }
}
