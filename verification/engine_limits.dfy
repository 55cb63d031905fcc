/**
 How far a wallet can fall, and how much it can spend, when its requests race: the balance and the
 caps are read before the post, so each is only as tight as the number of requests in between.
 */
module EngineLimits {
  import opened Common
  import opened Ledger
  import opened Engine
  import opened EngineCore
  import Topup

  /** The largest daily cap, in centimes: a request above it is refused whatever the tier. */
  function LargestCap(cfg: Config): int {
    Max(DailyCap(cfg, Basic), DailyCap(cfg, Verified))
  }

  /** Requests of a user between their balance check and their post. */
  function Racing(u: UserId): Request -> int {
    (r: Request) => if r.job.payer == u && InGates(r.phase) then 1 else 0
  }

  /** What those requests may still debit. */
  function Exposed(u: UserId, most: int): Request -> int {
    (r: Request) => if r.job.payer == u && InGates(r.phase) && Amount(r.job) <= most then Amount(r.job) else 0
  }

  function DayExposed(u: UserId): Request -> int {
    (r: Request) => if r.job.payer == u && PastDaily(r.phase) then Amount(r.job) else 0
  }

  function DayRacing(u: UserId): Request -> int {
    (r: Request) => if r.job.payer == u && PastDaily(r.phase) then 1 else 0
  }

  function MonthRacing(u: UserId): Request -> int {
    (r: Request) => if r.job.payer == u && PastMonthly(r.phase) then 1 else 0
  }

  function MonthExposed(u: UserId): Request -> int {
    (r: Request) => if r.job.payer == u && PastMonthly(r.phase) then Amount(r.job) else 0
  }

  // -------------------------------------------------- one step and the journal

  /** The event is the post of a request of `u` under a key not yet used. */
  ghost predicate Debits(s: State, e: Event, u: UserId) {
    && e.Step? && e.request < |s.requests|
    && s.requests[e.request].phase.GatesOk?
    && s.requests[e.request].job.payer == u
    && FindKey(s.book.journal, KeyOf(s.requests[e.request].job)).None?
  }

  ghost function Debited(s: State, e: Event, u: UserId): int {
    if Debits(s, e, u) then Amount(s.requests[e.request].job) else 0
  }

  lemma CreditPairEffect(legs: seq<Leg>, u: UserId)
    requires IsCreditPair(legs)
    ensures Sum(legs, LegOn(Wallet(u), HTG)) >= 0 && Sum(legs, SideOn(Debit, Wallet(u), HTG)) == 0
  {
    SumOfTwo(legs, LegOn(Wallet(u), HTG));
    SumOfTwo(legs, SideOn(Debit, Wallet(u), HTG));
  }

  /** What the wallet of `u` pays in a posting. */
  function PaidIn(p: Posting, u: UserId): int {
    if IsPair(p.legs) && p.legs[0].account == Wallet(u) then p.legs[0].amount else 0
  }

  /** How one posting of known shape moves a wallet and its spending. */
  lemma AppendEffect(s: State, p: Posting, u: UserId, since: int)
    requires Shape(p)
    ensures var paid := PaidIn(p, u);
            && Balance(s.book.journal + [p], Wallet(u), HTG) >= Balance(s.book.journal, Wallet(u), HTG) - paid
            && DebitsSince(s.book.journal + [p], Wallet(u), since, HTG) ==
               DebitsSince(s.book.journal, Wallet(u), since, HTG) + (if p.at >= since then paid else 0)
  {
    BalanceAppend(s.book.journal, p, Wallet(u), HTG);
    DebitsAppend(s.book.journal, p, Wallet(u), since, HTG);
    if IsPair(p.legs) {
      PairEffect(p.legs[0].account, p.legs[1].account, p.legs[0].amount, Wallet(u), HTG);
      assert p.legs == [p.legs[0], p.legs[1]];
    } else {
      CreditPairEffect(p.legs, u);
    }
  }

  /** The event leaves the journal alone, or appends one shaped posting dated now that pays `paid`. */
  ghost predicate AppendsAtMostOne(s: State, t: State, u: UserId, paid: int) {
    var journal, journal' := s.book.journal, t.book.journal;
    || (journal' == journal && paid == 0)
    || (&& |journal'| == |journal| + 1 && journal' == journal + [journal'[|journal|]]
        && Shape(journal'[|journal|]) && journal'[|journal|].at == s.now && PaidIn(journal'[|journal|], u) == paid)
  }

  lemma PostAppends(cfg: Config, s: State, i: nat, u: UserId)
    requires Core(cfg, s) && i < |s.requests| && s.requests[i].phase.GatesOk?
    ensures forall reply :: AppendsAtMostOne(s, PostMoney(s, i), u, Debited(s, Step(i, reply), u))
  {
    var r := s.requests[i];
    assert RequestOk(cfg, s, r);
    JobLegs(r.job);
  }

  lemma RefundAppends(cfg: Config, s: State, i: nat, u: UserId)
    requires Core(cfg, s) && i < |s.requests| && s.requests[i].phase.Declined?
    ensures AppendsAtMostOne(s, RefundReserve(s, i, s.requests[i].phase.op), u, 0)
  {
  }

  lemma TopupAppends(cfg: Config, s: State, event: Topup.Event, u: UserId)
    requires Core(cfg, s)
    ensures AppendsAtMostOne(s, Next(cfg, s, TopupEvent(event)), u, 0)
  {
  }

  lemma Appends(cfg: Config, s: State, e: Event, u: UserId)
    requires ConfigOk(cfg) && Core(cfg, s)
    ensures AppendsAtMostOne(s, Next(cfg, s, e), u, Debited(s, e, u))
  {
    hide Shape, WellFormed, Post, Reverse, PaidIn;
    match e
    case Step(i, reply) =>
      if i < |s.requests| {
        var phase := s.requests[i].phase;
        if phase.GatesOk? {
          PostAppends(cfg, s, i, u);
        } else if phase.Declined? {
          RefundAppends(cfg, s, i, u);
        } else if phase.Accepted? {
          ConfirmBookOk(s.book, phase.op, s.now);
        } else {
          QuietCore(cfg, s, i, reply);
        }
      }
    case TopupEvent(event) => TopupAppends(cfg, s, event, u);
    case _ =>
  }

  lemma JournalStep(cfg: Config, s: State, e: Event, u: UserId, since: int)
    requires ConfigOk(cfg) && Core(cfg, s)
    ensures var t := Next(cfg, s, e);
            && Balance(t.book.journal, Wallet(u), HTG) >=
               Balance(s.book.journal, Wallet(u), HTG) - Debited(s, e, u)
            && DebitsSince(t.book.journal, Wallet(u), since, HTG) ==
               DebitsSince(s.book.journal, Wallet(u), since, HTG) + (if s.now >= since then Debited(s, e, u) else 0)
  {
    hide Next, Core, Shape, PaidIn;
    Appends(cfg, s, e, u);
    var journal := Next(cfg, s, e).book.journal;
    if journal != s.book.journal {
      AppendEffect(s, journal[|s.book.journal|], u, since);
    }
  }

  // ------------------------------------------------ one step and the requests

  /** Only one request moves, or one is added that has not started. */
  lemma RequestsStep(cfg: Config, s: State, e: Event, f: Request -> int)
    requires ConfigOk(cfg) && Core(cfg, s)
    requires forall r: Request :: r.phase.Started? ==> f(r) == 0
    ensures var t := Next(cfg, s, e);
            && |s.requests| <= |t.requests|
            && Sum(t.requests, f) ==
               if MovesRequest(s, e)
               then Sum(s.requests, f) - f(s.requests[e.request]) + f(t.requests[e.request])
               else Sum(s.requests, f)
  {
    var t := Next(cfg, s, e);
    match e
    case Step(i, reply) =>
      if i < |s.requests| {
        AdvanceCore(cfg, s, i, reply);
        hide Advance, Core, BookOk, RequestOk;
        SumUpdate(s.requests, i, t.requests[i], f);
      }
    case Crash(i) =>
      if i < |s.requests| && !s.requests[i].phase.Done? {
        SumUpdate(s.requests, i, t.requests[i], f);
      }
    case Submit(job) =>
      if Inadmissible(cfg, s.tiers, job).None? {
        SumAppend(s.requests, t.requests[|s.requests|], f);
      }
    case _ =>
  }

  function DayStart(cfg: Config, s: State): int {
    cfg.calendar.dayStart(s.now)
  }

  function MonthStart(cfg: Config, s: State): int {
    cfg.calendar.monthStart(cfg.calendar.dayStart(s.now))
  }

  ghost function SpentSince(s: State, u: UserId, since: int): int {
    DebitsSince(s.book.journal, Wallet(u), since, HTG)
  }

  /** How a request's own step bears on the sums: it enters each only by passing that check. */
  ghost predicate Entered(cfg: Config, s: State, r: Request, r': Request) {
    && r'.job == r.job
    && (InGates(r'.phase) ==> InGates(r.phase) || r.phase.Started?)
    && (r.phase.Started? && InGates(r'.phase) ==>
          !PastDaily(r'.phase) && Balance(s.book.journal, Wallet(r.job.payer), HTG) >= Amount(r.job))
    && (PastDaily(r'.phase) ==> PastDaily(r.phase) || r.phase.BalanceOk?)
    && (r.phase.BalanceOk? && PastDaily(r'.phase) ==>
          SpentSince(s, r.job.payer, DayStart(cfg, s)) + Amount(r.job) <= DailyCap(cfg, r.tier))
    && (PastMonthly(r'.phase) ==> PastMonthly(r.phase) || r.phase.DailyOk?)
    && (r.phase.DailyOk? && PastMonthly(r'.phase) ==>
          SpentSince(s, r.job.payer, r.phase.monthStart) + Amount(r.job) <= MonthlyCap(cfg, r.tier))
    && (r.phase.GatesOk? ==> !InGates(r'.phase))
  }

  lemma GateEnters(cfg: Config, s: State, i: nat, reply: Reply)
    requires i < |s.requests|
    requires var p := s.requests[i].phase; p.Started? || p.BalanceOk? || p.DailyOk?
    ensures Entered(cfg, s, s.requests[i], Advance(cfg, s, i, reply).requests[i])
  {
  }

  /** Once past the caps a request leaves the gates at its post, and never comes back. */
  lemma LaterEnters(cfg: Config, s: State, i: nat, reply: Reply)
    requires i < |s.requests|
    requires var p := s.requests[i].phase; !p.Started? && !p.BalanceOk? && !p.DailyOk?
    ensures |Advance(cfg, s, i, reply).requests| == |s.requests|
    ensures var r, r' := s.requests[i], Advance(cfg, s, i, reply).requests[i];
            && r'.job == r.job
            && (InGates(r'.phase) ==> PastMonthly(r'.phase) && PastMonthly(r.phase) && !r.phase.GatesOk?)
  {
    hide Post, Reverse, RowFor;
  }

  lemma AdvanceEnters(cfg: Config, s: State, i: nat, reply: Reply)
    requires i < |s.requests|
    ensures |Advance(cfg, s, i, reply).requests| == |s.requests|
    ensures Entered(cfg, s, s.requests[i], Advance(cfg, s, i, reply).requests[i])
  {
    AdvanceKeepsJob(cfg, s, i, reply);
    hide Advance, Entered;
    if s.requests[i].phase.Started? || s.requests[i].phase.BalanceOk? || s.requests[i].phase.DailyOk? {
      GateEnters(cfg, s, i, reply);
    } else {
      LaterEnters(cfg, s, i, reply);
    }
  }

  lemma MoverEnters(cfg: Config, s: State, e: Event)
    requires MovesRequest(s, e)
    ensures |Next(cfg, s, e).requests| == |s.requests|
    ensures Entered(cfg, s, s.requests[e.request], Next(cfg, s, e).requests[e.request])
    ensures Debited(s, e, s.requests[e.request].job.payer) > 0 ==> s.requests[e.request].phase.GatesOk?
    ensures forall u :: u != s.requests[e.request].job.payer ==> Debited(s, e, u) == 0
  {
    if e.Step? {
      AdvanceEnters(cfg, s, e.request, e.reply);
      hide Entered;
    }
  }

  /** The event moves a request of the table. */
  predicate MovesRequest(s: State, e: Event) {
    (e.Step? || e.Crash?) && e.request < |s.requests|
  }

  /** A sum of capped terms is bounded by the head count. */
  lemma {:induction false} CountBound(requests: seq<Request>, f: Request -> int, count: Request -> int, cap: int)
    requires forall i :: 0 <= i < |requests| ==> f(requests[i]) <= cap * count(requests[i])
    ensures Sum(requests, f) <= cap * Sum(requests, count)
  {
    if requests == [] {
    } else {
      CountBound(requests[..|requests| - 1], f, count, cap);
    }
  }

  lemma Scale(cap: int, n: int, c: int)
    requires cap >= 0 && n <= c
    ensures cap * n <= cap * c
  {
  }

  // ----------------------------------------------------------------- overdraft

  /** Even if every racing request were to post, the wallet stays above its floor. */
  ghost predicate AboveFloor(cfg: Config, s: State, u: UserId, c: nat) {
    Balance(s.book.journal, Wallet(u), HTG) - Sum(s.requests, Exposed(u, LargestCap(cfg)))
      >= -(LargestCap(cfg) * (c - 1))
  }

  lemma ExposedBound(cfg: Config, s: State, u: UserId)
    requires ConfigOk(cfg) && Core(cfg, s)
    ensures 0 <= Sum(s.requests, Exposed(u, LargestCap(cfg)))
              <= LargestCap(cfg) * Sum(s.requests, Racing(u))
  {
    forall i | 0 <= i < |s.requests|
      ensures 0 <= Exposed(u, LargestCap(cfg))(s.requests[i]) <= LargestCap(cfg) * Racing(u)(s.requests[i])
    {
      assert RequestOk(cfg, s, s.requests[i]);
    }
    SumNonNegative(s.requests, Exposed(u, LargestCap(cfg)));
    CountBound(s.requests, Exposed(u, LargestCap(cfg)), Racing(u), LargestCap(cfg));
  }

  /** With fewer than `c` requests racing, a wallet with a covered balance is above its floor. */
  lemma RoomForOne(cfg: Config, s: State, u: UserId, c: nat)
    requires ConfigOk(cfg) && Core(cfg, s) && c >= 1
    ensures Sum(s.requests, Racing(u)) <= c - 1 ==>
              Sum(s.requests, Exposed(u, LargestCap(cfg))) <= LargestCap(cfg) * (c - 1)
  {
    ExposedBound(cfg, s, u);
    if Sum(s.requests, Racing(u)) <= c - 1 {
      Scale(LargestCap(cfg), Sum(s.requests, Racing(u)), c - 1);
    }
  }

  /** A request that moves either enters the race with its amount covered, or exposes no more than before. */
  lemma MoverExposure(cfg: Config, s: State, e: Event, u: UserId)
    requires ConfigOk(cfg) && Core(cfg, s) && MovesRequest(s, e)
    ensures |Next(cfg, s, e).requests| == |s.requests|
    ensures var r, r' := s.requests[e.request], Next(cfg, s, e).requests[e.request];
            var own, own' := Exposed(u, LargestCap(cfg))(r), Exposed(u, LargestCap(cfg))(r');
            || own' + Debited(s, e, u) <= own
            || (&& Racing(u)(r) == 0 && Racing(u)(r') == 1 && Debited(s, e, u) == 0 && own == 0
                && own' <= Balance(s.book.journal, Wallet(u), HTG))
  {
    var r := s.requests[e.request];
    PostedWithinCap(cfg, s, r);
    MoverEnters(cfg, s, e);
    hide Next, Core, ConfigOk, LargestCap, RequestOk, Balance, DailyCap, MonthlyCap, SpentSince;
  }

  lemma {:induction false} FloorStep(cfg: Config, s: State, e: Event, u: UserId, c: nat)
    requires ConfigOk(cfg) && Core(cfg, s) && c >= 1 && AboveFloor(cfg, s, u, c)
    requires Sum(Next(cfg, s, e).requests, Racing(u)) <= c
    ensures AboveFloor(cfg, Next(cfg, s, e), u, c)
  {
    JournalStep(cfg, s, e, u, 0);
    RequestsStep(cfg, s, e, Exposed(u, LargestCap(cfg)));
    RequestsStep(cfg, s, e, Racing(u));
    RoomForOne(cfg, s, u, c);
    if MovesRequest(s, e) {
      MoverExposure(cfg, s, e, u);
    }
    hide Next, Core, ConfigOk, LargestCap, Exposed, Racing, Balance;
  }

  lemma PostedWithinCap(cfg: Config, s: State, r: Request)
    requires ConfigOk(cfg) && RequestOk(cfg, s, r)
    ensures PastDaily(r.phase) ==> Amount(r.job) <= LargestCap(cfg)
    ensures Amount(r.job) > 0 && LargestCap(cfg) > 0
  {
  }

  /** At most `c` requests of `u` are between their balance check and their post, in every state. */
  ghost predicate AtMostRacing(run: seq<State>, u: UserId, c: nat) {
    forall k :: 0 <= k < |run| ==> Sum(run[k].requests, Racing(u)) <= c
  }

  lemma {:induction false} RunAboveFloor(cfg: Config, run: seq<State>, events: seq<Event>, u: UserId, c: nat, k: nat)
    requires ConfigOk(cfg) && IsRun(cfg, run, events) && AtMostRacing(run, u, c) && c >= 1 && k < |run|
    ensures AboveFloor(cfg, run[k], u, c)
  {
    if k == 0 {
      Scale(LargestCap(cfg), 0, c - 1);
    } else {
      RunAboveFloor(cfg, run, events, u, c, k - 1);
      RunCore(cfg, run, events, k - 1);
      hide Next, Core, AboveFloor, ConfigOk;
      FloorStep(cfg, run[k - 1], events[k - 1], u, c);
    }
  }

  /**
   Bounded overdraft: while at most `c` debit requests of a wallet race, its balance never falls
   below minus `c - 1` times the largest daily cap. With one at a time it is never negative.
   */
  lemma BoundedOverdraft(cfg: Config, run: seq<State>, events: seq<Event>, u: UserId, c: nat, k: nat)
    requires ConfigOk(cfg) && IsRun(cfg, run, events) && AtMostRacing(run, u, c) && c >= 1 && k < |run|
    ensures var largest := if cfg.basicDailyHTG > cfg.verifiedDailyHTG then cfg.basicDailyHTG else cfg.verifiedDailyHTG;
            Balance(run[k].book.journal, Wallet(u), HTG) >= -(largest * 100 * (c - 1))
    ensures c == 1 ==> Balance(run[k].book.journal, Wallet(u), HTG) >= 0
  {
    RunAboveFloor(cfg, run, events, u, c, k);
    RunCore(cfg, run, events, k);
    ExposedBound(cfg, run[k], u);
  }

  // ----------------------------------------------------------------------- caps

  /** The caps of the better tier are no lower. */
  predicate CapsOrdered(cfg: Config) {
    && cfg.basicDailyHTG <= cfg.verifiedDailyHTG
    && cfg.basicMonthlyHTG <= cfg.verifiedMonthlyHTG
  }

  /** A user's tier; every user starts as basic. */
  function TierOf(s: State, u: UserId): Tier {
    if u < |s.tiers| then s.tiers[u] else Basic
  }

  /** Today's and this month's spending, racing requests included, stay within `c` caps. */
  ghost predicate WithinDaily(cfg: Config, s: State, u: UserId, c: nat) {
    SpentSince(s, u, DayStart(cfg, s)) + Sum(s.requests, DayExposed(u)) <= DailyCap(cfg, TierOf(s, u)) * c
  }

  ghost predicate WithinMonthly(cfg: Config, s: State, u: UserId, c: nat) {
    SpentSince(s, u, MonthStart(cfg, s)) + Sum(s.requests, MonthExposed(u)) <= MonthlyCap(cfg, TierOf(s, u)) * c
  }

  lemma DayExposure(cfg: Config, s: State, u: UserId)
    requires CapsOrdered(cfg) && Core(cfg, s)
    ensures 0 <= Sum(s.requests, DayExposed(u)) <= DailyCap(cfg, TierOf(s, u)) * Sum(s.requests, DayRacing(u))
    ensures Sum(s.requests, DayRacing(u)) <= Sum(s.requests, Racing(u))
  {
    forall i | 0 <= i < |s.requests|
      ensures 0 <= DayExposed(u)(s.requests[i]) <= DailyCap(cfg, TierOf(s, u)) * DayRacing(u)(s.requests[i])
    {
      assert RequestOk(cfg, s, s.requests[i]);
    }
    SumNonNegative(s.requests, DayExposed(u));
    CountBound(s.requests, DayExposed(u), DayRacing(u), DailyCap(cfg, TierOf(s, u)));
    SumMonotone(s.requests, DayRacing(u), Racing(u));
  }

  lemma MonthExposure(cfg: Config, s: State, u: UserId)
    requires CapsOrdered(cfg) && Core(cfg, s)
    ensures 0 <= Sum(s.requests, MonthExposed(u)) <= MonthlyCap(cfg, TierOf(s, u)) * Sum(s.requests, MonthRacing(u))
    ensures Sum(s.requests, MonthRacing(u)) <= Sum(s.requests, Racing(u))
  {
    forall i | 0 <= i < |s.requests|
      ensures 0 <= MonthExposed(u)(s.requests[i]) <= MonthlyCap(cfg, TierOf(s, u)) * MonthRacing(u)(s.requests[i])
    {
      assert RequestOk(cfg, s, s.requests[i]);
    }
    SumNonNegative(s.requests, MonthExposed(u));
    CountBound(s.requests, MonthExposed(u), MonthRacing(u), MonthlyCap(cfg, TierOf(s, u)));
    SumMonotone(s.requests, MonthRacing(u), Racing(u));
  }

  /** Within a step the windows can only move forward, so old spending counts for less. */
  lemma WindowsMove(cfg: Config, s: State, e: Event, u: UserId)
    requires ConfigOk(cfg) && Core(cfg, s)
    ensures var t := Next(cfg, s, e);
            && SpentSince(t, u, DayStart(cfg, t)) <= SpentSince(s, u, DayStart(cfg, s)) + Debited(s, e, u)
            && SpentSince(t, u, MonthStart(cfg, t)) <= SpentSince(s, u, MonthStart(cfg, s)) + Debited(s, e, u)
  {
    var t := Next(cfg, s, e);
    NextCore(cfg, s, e);
    hide Next, Core, BookOk;
    assert DayStart(cfg, s) <= DayStart(cfg, t) && MonthStart(cfg, s) <= MonthStart(cfg, t);
    JournalStep(cfg, s, e, u, DayStart(cfg, s));
    JournalStep(cfg, s, e, u, MonthStart(cfg, s));
    SpentLater(cfg, t, u, DayStart(cfg, s), DayStart(cfg, t));
    SpentLater(cfg, t, u, MonthStart(cfg, s), MonthStart(cfg, t));
    DebitedNonNegative(cfg, s, e, u);
  }

  lemma DebitedNonNegative(cfg: Config, s: State, e: Event, u: UserId)
    requires Core(cfg, s)
    ensures Debited(s, e, u) >= 0
  {
  }

  lemma SpentLater(cfg: Config, s: State, u: UserId, since: int, later: int)
    requires Core(cfg, s) && since <= later
    ensures 0 <= SpentSince(s, u, later) <= SpentSince(s, u, since)
  {
    DebitsSinceLater(s.book, Wallet(u), since, later, HTG);
  }

  /** The cap that applies to a user never drops. */
  lemma CapsGrow(cfg: Config, s: State, e: Event, u: UserId)
    requires CapsOrdered(cfg)
    ensures DailyCap(cfg, TierOf(s, u)) <= DailyCap(cfg, TierOf(Next(cfg, s, e), u))
    ensures MonthlyCap(cfg, TierOf(s, u)) <= MonthlyCap(cfg, TierOf(Next(cfg, s, e), u))
  {
  }

  /** A new term within one cap, on top of at most `c - 1` others, stays within `c` caps. */
  lemma OneMore(cap: int, own: int, others: int, count: int, c: nat)
    requires cap >= 0 && own <= cap && others <= cap * count && count <= c - 1
    ensures own + others <= cap * c
  {
    Scale(cap, count, c - 1);
  }

  lemma {:induction false} DailyStep(cfg: Config, s: State, e: Event, u: UserId, c: nat)
    requires ConfigOk(cfg) && CapsOrdered(cfg) && Core(cfg, s) && WithinDaily(cfg, s, u, c)
    requires Sum(Next(cfg, s, e).requests, Racing(u)) <= c
    ensures WithinDaily(cfg, Next(cfg, s, e), u, c)
  {
    var t := Next(cfg, s, e);
    var cap := DailyCap(cfg, TierOf(s, u));
    NextCore(cfg, s, e);
    WindowsMove(cfg, s, e, u);
    RequestsStep(cfg, s, e, DayExposed(u));
    RequestsStep(cfg, s, e, DayRacing(u));
    DayExposure(cfg, s, u);
    DayExposure(cfg, t, u);
    CapsGrow(cfg, s, e, u);
    Scale(c, cap, DailyCap(cfg, TierOf(t, u)));
    if MovesRequest(s, e) {
      var r := s.requests[e.request];
      TierCaps(cfg, s, r);
      MoverEnters(cfg, s, e);
      hide Next, Core, ConfigOk, DailyCap, TierOf, DayStart, SpentSince;
      if DayRacing(u)(r) == 0 && DayRacing(u)(t.requests[e.request]) == 1 {
        OneMore(cap, SpentSince(s, u, DayStart(cfg, s)) + Amount(r.job),
                Sum(s.requests, DayExposed(u)), Sum(s.requests, DayRacing(u)), c);
      }
    }
  }

  lemma TierCaps(cfg: Config, s: State, r: Request)
    requires ConfigOk(cfg) && CapsOrdered(cfg) && RequestOk(cfg, s, r)
    ensures 0 <= DailyCap(cfg, r.tier) <= DailyCap(cfg, TierOf(s, r.job.payer))
    ensures 0 <= MonthlyCap(cfg, r.tier) <= MonthlyCap(cfg, TierOf(s, r.job.payer))
    ensures r.phase.DailyOk? ==> r.phase.monthStart <= MonthStart(cfg, s)
    ensures Amount(r.job) > 0
  {
  }

  lemma {:induction false} MonthlyStep(cfg: Config, s: State, e: Event, u: UserId, c: nat)
    requires ConfigOk(cfg) && CapsOrdered(cfg) && Core(cfg, s) && WithinMonthly(cfg, s, u, c)
    requires Sum(Next(cfg, s, e).requests, Racing(u)) <= c
    ensures WithinMonthly(cfg, Next(cfg, s, e), u, c)
  {
    var t := Next(cfg, s, e);
    var cap := MonthlyCap(cfg, TierOf(s, u));
    NextCore(cfg, s, e);
    WindowsMove(cfg, s, e, u);
    RequestsStep(cfg, s, e, MonthExposed(u));
    RequestsStep(cfg, s, e, MonthRacing(u));
    MonthExposure(cfg, s, u);
    MonthExposure(cfg, t, u);
    CapsGrow(cfg, s, e, u);
    Scale(c, cap, MonthlyCap(cfg, TierOf(t, u)));
    if MovesRequest(s, e) {
      var r := s.requests[e.request];
      TierCaps(cfg, s, r);
      MoverEnters(cfg, s, e);
      if r.phase.DailyOk? {
        SpentLater(cfg, s, r.job.payer, r.phase.monthStart, MonthStart(cfg, s));
      }
      hide Next, Core, ConfigOk, MonthlyCap, TierOf, MonthStart, SpentSince;
      if MonthRacing(u)(r) == 0 && MonthRacing(u)(t.requests[e.request]) == 1 {
        OneMore(cap, SpentSince(s, u, MonthStart(cfg, s)) + Amount(r.job),
                Sum(s.requests, MonthExposed(u)), Sum(s.requests, MonthRacing(u)), c);
      }
    }
  }

  lemma {:induction false} RunWithinCaps(cfg: Config, run: seq<State>, events: seq<Event>, u: UserId, c: nat, k: nat)
    requires ConfigOk(cfg) && CapsOrdered(cfg) && IsRun(cfg, run, events)
    requires AtMostRacing(run, u, c) && k < |run|
    ensures WithinDaily(cfg, run[k], u, c) && WithinMonthly(cfg, run[k], u, c)
  {
    if k == 0 {
    } else {
      RunWithinCaps(cfg, run, events, u, c, k - 1);
      RunCore(cfg, run, events, k - 1);
      hide Next, Core, ConfigOk, WithinDaily, WithinMonthly, CapsOrdered;
      DailyStep(cfg, run[k - 1], events[k - 1], u, c);
      MonthlyStep(cfg, run[k - 1], events[k - 1], u, c);
    }
  }

  /**
   Caps over time: in every state of every run, what a wallet has paid out since the start of the
   current day and month stays within `c` times the caps of its tier, when at most `c` of its
   requests race; with one at a time, within the caps themselves.
   */
  lemma CapsHold(cfg: Config, run: seq<State>, events: seq<Event>, u: UserId, c: nat, k: nat)
    requires ConfigOk(cfg) && CapsOrdered(cfg) && IsRun(cfg, run, events)
    requires AtMostRacing(run, u, c) && k < |run|
    ensures var s := run[k];
            var today := cfg.calendar.dayStart(s.now);
            var verified := u < |s.tiers| && s.tiers[u] == Verified;
            && DebitsSince(s.book.journal, Wallet(u), today, HTG)
               <= (if verified then cfg.verifiedDailyHTG else cfg.basicDailyHTG) * 100 * c
            && DebitsSince(s.book.journal, Wallet(u), cfg.calendar.monthStart(today), HTG)
               <= (if verified then cfg.verifiedMonthlyHTG else cfg.basicMonthlyHTG) * 100 * c
  {
    RunWithinCaps(cfg, run, events, u, c, k);
    RunCore(cfg, run, events, k);
    DayExposure(cfg, run[k], u);
    MonthExposure(cfg, run[k], u);
  }
}
