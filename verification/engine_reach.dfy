/**
 Runs that keep a rule, and short ways to the states that show where a property ends: a funded wallet,
 and a request taken through its balance and limit checks.
 */
module EngineReach {
  import opened Common
  import opened Ledger
  import opened Engine
  import opened EngineCore
  import Topup

  /** Which events a run may contain, by the state they happen in. */
  type Rule = (State, Event) -> bool

  ghost predicate KeepsRule(rule: Rule, run: seq<State>, events: seq<Event>)
    requires |run| == |events| + 1
  {
    forall k {:trigger events[k]} :: 0 <= k < |events| ==> rule(run[k], events[k])
  }

  /** Some run that keeps the rule visits the state. */
  ghost predicate Reached(cfg: Config, rule: Rule, s: State) {
    exists run: seq<State>, events: seq<Event> ::
      IsRun(cfg, run, events) && KeepsRule(rule, run, events) && run[|events|] == s
  }

  lemma ReachedInitial(cfg: Config, rule: Rule)
    ensures Reached(cfg, rule, INITIAL)
  {
    assert IsRun(cfg, [INITIAL], []);
    assert KeepsRule(rule, [INITIAL], []);
  }

  lemma RunExtends(cfg: Config, rule: Rule, run: seq<State>, events: seq<Event>, e: Event)
    requires IsRun(cfg, run, events) && KeepsRule(rule, run, events) && rule(run[|events|], e)
    ensures var t := Next(cfg, run[|events|], e);
            IsRun(cfg, run + [t], events + [e]) && KeepsRule(rule, run + [t], events + [e])
  {
    var t := Next(cfg, run[|events|], e);
    hide Next;
    var run', events' := run + [t], events + [e];
    forall k {:trigger events'[k]} | 0 <= k < |events'|
      ensures run'[k + 1] == Next(cfg, run'[k], events'[k]) && rule(run'[k], events'[k])
    {
      if k < |events| {
        assert events'[k] == events[k];
      }
    }
  }

  lemma ReachedNext(cfg: Config, rule: Rule, s: State, e: Event)
    requires Reached(cfg, rule, s) && rule(s, e)
    ensures Reached(cfg, rule, Next(cfg, s, e))
  {
    var run: seq<State>, events: seq<Event> :|
      IsRun(cfg, run, events) && KeepsRule(rule, run, events) && run[|events|] == s;
    RunExtends(cfg, rule, run, events, e);
    hide Next, IsRun, KeepsRule;
    assert (run + [Next(cfg, s, e)])[|events + [e]|] == Next(cfg, s, e);
  }

  lemma StepTo(cfg: Config, rule: Rule, s: State, i: nat, reply: Reply, t: State)
    requires Reached(cfg, rule, s) && i < |s.requests| && rule(s, Step(i, reply))
    requires Advance(cfg, s, i, reply) == t
    ensures Reached(cfg, rule, t)
  {
    assert Next(cfg, s, Step(i, reply)) == t by { hide Advance; }
    hide Reached, Advance, Next;
    ReachedNext(cfg, rule, s, Step(i, reply));
  }

  // ------------------------------------------------------- the opening scene

  /** The rule bears on the requests alone. */
  ghost predicate BindsRequestsOnly(rule: Rule) {
    forall s: State, e: Event :: e.Step? || e.Crash? || rule(s, e)
  }

  function TopupOf(htg: int): Topup.TopupRow {
    Topup.TopupRow(0, Minor(htg), Topup.TopupPending, Some(0), None)
  }

  function TopupPosting(htg: int): Posting {
    Posting(MonCash(0), Kind.Topup, [Leg(Wallet(0), Credit, Minor(htg), HTG), Leg(FLOAT, Debit, Minor(htg), HTG)],
            None, 0)
  }

  /** User 0 is verified and holds `htg` gourdes; user 1 is basic and holds nothing. */
  function Funded(htg: int): State {
    State(0, Book([TopupPosting(htg)], [Completed]), [Verified, Basic], [], [], [TopupOf(htg)], [], [])
  }

  lemma Opening(cfg: Config, rule: Rule, htg: int)
    requires htg >= Topup.MIN_TOPUP_HTG && BindsRequestsOnly(rule)
    ensures Reached(cfg, rule, Funded(htg))
  {
    var s1 := INITIAL.(tiers := [Basic]);
    var s2 := INITIAL.(tiers := [Basic, Basic]);
    var s3 := INITIAL.(tiers := [Verified, Basic]);
    var s4 := s3.(topups := [TopupOf(htg).(reference := None)]);
    var s5 := s3.(topups := [TopupOf(htg)]);
    ReachedInitial(cfg, rule);
    hide Reached;
    assert Next(cfg, INITIAL, Register) == s1;
    ReachedNext(cfg, rule, INITIAL, Register);
    assert Next(cfg, s1, Register) == s2;
    ReachedNext(cfg, rule, s1, Register);
    assert Next(cfg, s2, Upgrade(0)) == s3;
    ReachedNext(cfg, rule, s2, Upgrade(0));
    assert Next(cfg, s3, TopupEvent(Topup.Initiate(0, htg))) == s4;
    ReachedNext(cfg, rule, s3, TopupEvent(Topup.Initiate(0, htg)));
    assert Next(cfg, s4, TopupEvent(Topup.Refer(0, 0))) == s5;
    ReachedNext(cfg, rule, s4, TopupEvent(Topup.Refer(0, 0)));
    CreditPairLegs(Wallet(0), FLOAT, Minor(htg));
    assert Next(cfg, s5, TopupEvent(Topup.CreditRow(0))) == Funded(htg);
    ReachedNext(cfg, rule, s5, TopupEvent(Topup.CreditRow(0)));
  }

  /** The wallet holds the top-up, and nothing has been paid out of it. */
  lemma FundedMoney(htg: int)
    ensures var journal := Funded(htg).book.journal;
            && Balance(journal, Wallet(0), HTG) == Minor(htg)
            && forall since :: DebitsSince(journal, Wallet(0), since, HTG) == 0
  {
    var p := TopupPosting(htg);
    assert Funded(htg).book.journal == [] + [p];
    SumOfTwo(p.legs, LegOn(Wallet(0), HTG));
    SumOfTwo(p.legs, SideOn(Debit, Wallet(0), HTG));
    BalanceAppend([], p, Wallet(0), HTG);
    forall since ensures DebitsSince(Funded(htg).book.journal, Wallet(0), since, HTG) == 0 {
      DebitsAppend([], p, Wallet(0), since, HTG);
    }
  }

  // -------------------------------------------------- through the first gates

  lemma MoveTwice(s: State, i: nat, p: Phase, q: Phase)
    requires i < |s.requests|
    ensures Move(Move(s, i, p), i, q) == Move(s, i, q)
  {
  }

  /** The wallet covers the amount, and both windows have room for it. */
  ghost predicate CanAfford(cfg: Config, s: State, r: Request) {
    var journal, payer := s.book.journal, Wallet(r.job.payer);
    var today := cfg.calendar.dayStart(s.now);
    && Balance(journal, payer, HTG) >= Amount(r.job)
    && DebitsSince(journal, payer, today, HTG) + Amount(r.job) <= DailyCap(cfg, r.tier)
    && DebitsSince(journal, payer, cfg.calendar.monthStart(today), HTG) + Amount(r.job) <= MonthlyCap(cfg, r.tier)
  }

  /** The rule lets request `i` take its first three steps. */
  ghost predicate MayBeChecked(rule: Rule, s: State, i: nat)
    requires i < |s.requests|
  {
    forall p: Phase :: p.Started? || p.BalanceOk? || p.DailyOk? ==> rule(Move(s, i, p), Step(i, No))
  }

  lemma LimitsPassed(cfg: Config, rule: Rule, s: State, i: nat)
    requires Reached(cfg, rule, s) && i < |s.requests| && s.requests[i].phase == Started
    requires CanAfford(cfg, s, s.requests[i]) && MayBeChecked(rule, s, i)
    ensures Reached(cfg, rule, Move(s, i, LimitsOk))
  {
    var since := cfg.calendar.monthStart(cfg.calendar.dayStart(s.now));
    MoveTwice(s, i, BalanceOk, DailyOk(since));
    MoveTwice(s, i, DailyOk(since), LimitsOk);
    assert Move(s, i, Started) == s;
    hide Reached, Balance, DebitsSince;
    assert Advance(cfg, s, i, No) == Move(s, i, BalanceOk);
    StepTo(cfg, rule, s, i, No, Move(s, i, BalanceOk));
    assert Advance(cfg, Move(s, i, BalanceOk), i, No) == Move(s, i, DailyOk(since));
    StepTo(cfg, rule, Move(s, i, BalanceOk), i, No, Move(s, i, DailyOk(since)));
    assert Advance(cfg, Move(s, i, DailyOk(since)), i, No) == Move(s, i, LimitsOk);
    StepTo(cfg, rule, Move(s, i, DailyOk(since)), i, No, Move(s, i, LimitsOk));
  }

  /** A request newly submitted, at its first phase. */
  function Submitted(s: State, job: Job): State
    requires job.payer < |s.tiers|
  {
    s.(requests := s.requests + [Request(job, s.tiers[job.payer], Started, None, None)])
  }

  lemma SubmitReached(cfg: Config, rule: Rule, s: State, job: Job)
    requires Reached(cfg, rule, s) && BindsRequestsOnly(rule) && Inadmissible(cfg, s.tiers, job).None?
    ensures Reached(cfg, rule, Submitted(s, job))
  {
    hide Reached;
    ReachedNext(cfg, rule, s, Submit(job));
  }
}
