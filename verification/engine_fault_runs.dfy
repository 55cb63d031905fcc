/**
 Each harmful fault at work: a payout of one gourde, and a repeat of it that asks for two. Together
 with the orderly runs of module `EngineFaults` they say exactly which faults each promise survives.
 */
module EngineFaultRuns {
  import opened Common
  import opened Ledger
  import opened Engine
  import opened EngineCore
  import opened EnginePayout
  import opened EngineReach
  import opened EngineFaults
  import opened EngineAnswers

  /** Payouts of one and of two gourdes need no code and fit every limit. */
  ghost predicate SmallPayoutsPass(cfg: Config) {
    && ConfigOk(cfg)
    && cfg.maxPayoutHTG >= 2 && cfg.otpThresholdHTG >= 3
    && cfg.verifiedDailyHTG >= 3 && cfg.verifiedMonthlyHTG >= 3
  }

  // ------------------------------------------------------------------ the scene

  function JobOf(id: RequestId, amount: int): Job {
    Job(0, CashOut, amount, id, None)
  }

  function FirstRequest(id: RequestId, phase: Phase): Request {
    Request(JobOf(id, 1), Verified, phase, None, Some(1))
  }

  function Repeat(id: RequestId, phase: Phase): Request {
    Request(JobOf(id, 2), Verified, phase, None, None)
  }

  function ReservePosting(id: RequestId): Posting {
    Posting(PayoutReserve(id), Payout, [Leg(Wallet(0), Debit, 100, HTG), Leg(FLOAT, Credit, 100, HTG)], None, 0)
  }

  function ReversalPosting(id: RequestId): Posting {
    Posting(PayoutReversal(id), Adjustment, [Leg(Wallet(0), Credit, 100, HTG), Leg(FLOAT, Debit, 100, HTG)], Some(1), 0)
  }

  /** The reserve is operation 1, and its reversal, once there, operation 2. */
  function Ledgers(id: RequestId, status: Status, reversed: bool): Book {
    if reversed
    then Book([TopupPosting(25), ReservePosting(id), ReversalPosting(id)], [Completed, status, Completed])
    else Book([TopupPosting(25), ReservePosting(id)], [Completed, status])
  }

  function Scene(book: Book, requests: seq<Request>, rows: seq<PayoutRow>, calls: seq<PayCall>): State {
    Funded(25).(book := book, requests := requests, rows := rows, monCashCalls := calls)
  }

  lemma FoundReserve(id: RequestId, status: Status, reversed: bool)
    ensures FindKey(Ledgers(id, status, reversed).journal, PayoutReserve(id)) == Some(1)
    ensures reversed ==> FindKey(Ledgers(id, status, reversed).journal, PayoutReversal(id)) == Some(2)
    ensures !reversed ==> FindKey(Ledgers(id, status, reversed).journal, PayoutReversal(id)) == None
  {
    var b := Ledgers(id, status, reversed).journal;
    assert b[0].key == MonCash(0) && b[1].key == PayoutReserve(id);
    assert reversed ==> b[2].key == PayoutReversal(id);
  }

  lemma LedgersMoney(id: RequestId, status: Status, reversed: bool)
    ensures Balance(Ledgers(id, status, reversed).journal, Wallet(0), HTG) >= 2_400
    ensures forall since :: DebitsSince(Ledgers(id, status, reversed).journal, Wallet(0), since, HTG) <= 100
  {
    FundedMoney(25);
    var j0 := Funded(25).book.journal;
    var p, q := ReservePosting(id), ReversalPosting(id);
    PairEffect(Wallet(0), FLOAT, 100, Wallet(0), HTG);
    SumOfTwo(q.legs, LegOn(Wallet(0), HTG));
    SumOfTwo(q.legs, SideOn(Debit, Wallet(0), HTG));
    BalanceAppend(j0, p, Wallet(0), HTG);
    BalanceAppend(j0 + [p], q, Wallet(0), HTG);
    assert Ledgers(id, status, reversed).journal == if reversed then j0 + [p] + [q] else j0 + [p];
    forall since ensures DebitsSince(Ledgers(id, status, reversed).journal, Wallet(0), since, HTG) <= 100 {
      DebitsAppend(j0, p, Wallet(0), since, HTG);
      DebitsAppend(j0 + [p], q, Wallet(0), since, HTG);
    }
  }

  // ------------------------------------------------------------ moving along

  /** Only the look for the row needs leave. */
  lemma StepsPermitted(f: Faults, id: RequestId, s: State, i: nat)
    requires i < |s.requests| && (s.requests[i].phase.Recheck? ==> f.overlap || NoneBusy(s.requests, id))
    ensures forall reply: Reply :: (reply.Lost? ==> f.lostAnswers) ==> Under(f, id)(s, Step(i, reply))
  {
  }

  /** A step that needs no leave, or has it. */
  lemma StepsTo(cfg: Config, f: Faults, id: RequestId, s: State, i: nat, reply: Reply, t: State)
    requires reply.Lost? ==> f.lostAnswers
    requires Reached(cfg, Under(f, id), s) && i < |s.requests|
    requires s.requests[i].phase.Recheck? ==> f.overlap || NoneBusy(s.requests, id)
    requires Advance(cfg, s, i, reply) == t
    ensures Reached(cfg, Under(f, id), t)
  {
    StepsPermitted(f, id, s, i);
    hide *;
    StepTo(cfg, Under(f, id), s, i, reply, t);
  }

  lemma RuleBindsRequests(f: Faults, id: RequestId)
    ensures BindsRequestsOnly(Under(f, id))
  {
  }

  lemma ThroughGates(cfg: Config, f: Faults, id: RequestId, s: State, i: nat)
    requires SmallPayoutsPass(cfg) && Reached(cfg, Under(f, id), s) && i < |s.requests|
    requires s.requests[i].phase == Started && s.requests[i].job.amountHTG <= 2 && CanAfford(cfg, s, s.requests[i])
    ensures Reached(cfg, Under(f, id), Move(s, i, GatesOk))
  {
    hide Reached, CanAfford, Under, Permits;
    forall p: Phase | p.Started? || p.BalanceOk? || p.DailyOk? ensures Under(f, id)(Move(s, i, p), Step(i, No)) {
      StepsPermitted(f, id, Move(s, i, p), i);
    }
    LimitsPassed(cfg, Under(f, id), s, i);
    MoveTwice(s, i, LimitsOk, GatesOk);
    StepsPermitted(f, id, Move(s, i, LimitsOk), i);
    StepTo(cfg, Under(f, id), Move(s, i, LimitsOk), i, No, Move(s, i, GatesOk));
  }

  /** The first request holds the reserve it wrote. */
  lemma FirstHolds(cfg: Config, f: Faults, id: RequestId)
    requires SmallPayoutsPass(cfg)
    ensures Reached(cfg, Under(f, id), Scene(Ledgers(id, Pending, false), [FirstRequest(id, Held(1))], [], []))
  {
    var rule := Under(f, id);
    var s := Submitted(Funded(25), JobOf(id, 1));
    RuleBindsRequests(f, id);
    FundedMoney(25);
    hide Reached, Under, Permits, Balance, DebitsSince;
    Opening(cfg, rule, 25);
    SubmitReached(cfg, rule, Funded(25), JobOf(id, 1));
    ThroughGates(cfg, f, id, s, 0);
    var g := Move(s, 0, GatesOk);
    PairLegs(Wallet(0), FLOAT, 100);
    StepsPermitted(f, id, g, 0);
    var t := Scene(Ledgers(id, Pending, false), [FirstRequest(id, Held(1))], [], []);
    assert Advance(cfg, g, 0, No) == t by {
      assert g.book.journal + [ReservePosting(id)] == t.book.journal;
    }
    StepTo(cfg, rule, g, 0, No, t);
  }

  /** Asked on the reserve: the answer, and the log of calls. */
  lemma Asks(cfg: Config, f: Faults, id: RequestId, book: Book, requests: seq<Request>, i: nat, calls: seq<PayCall>,
             reply: Reply)
    requires i < |requests| && requests[i].phase == Held(1) && (reply.Lost? ==> f.lostAnswers)
    requires Reached(cfg, Under(f, id), Scene(book, requests, [], calls))
    ensures var r := requests[i];
            Reached(cfg, Under(f, id),
                    Scene(book, requests[i := r.(phase := if reply.Yes? then Accepted(1) else Declined(1))], [],
                          calls + [PayCall(1, r.job.payer, r.job.amountHTG, !reply.No?)]))
  {
    var s := Scene(book, requests, [], calls);
    hide Reached, Under;
    StepsTo(cfg, f, id, s, i, reply, Advance(cfg, s, i, reply));
  }

  lemma Confirms(cfg: Config, f: Faults, id: RequestId, status: Status, reversed: bool, requests: seq<Request>, i: nat,
                 calls: seq<PayCall>)
    requires i < |requests| && requests[i].phase == Accepted(1)
    requires Reached(cfg, Under(f, id), Scene(Ledgers(id, status, reversed), requests, [], calls))
    ensures Reached(cfg, Under(f, id),
                    Scene(Ledgers(id, if status == Pending then Completed else status, reversed),
                          requests[i := requests[i].(phase := Confirmed(1))], [], calls))
  {
    var s := Scene(Ledgers(id, status, reversed), requests, [], calls);
    StepsPermitted(f, id, s, i);
    hide Reached, Under, Permits;
    StepTo(cfg, Under(f, id), s, i, No, Advance(cfg, s, i, No));
  }

  lemma RefundStep(cfg: Config, id: RequestId, status: Status, requests: seq<Request>, i: nat, calls: seq<PayCall>)
    requires i < |requests| && requests[i].phase == Declined(1) && requests[i].job.id == id
    ensures Advance(cfg, Scene(Ledgers(id, status, false), requests, [], calls), i, No) ==
            Scene(Ledgers(id, Reversed, true), requests[i := requests[i].(phase := Refunded(1, 2))], [], calls)
  {
    var legs := ReservePosting(id).legs;
    FoundReserve(id, status, false);
    PairLegs(Wallet(0), FLOAT, 100);
    MirrorBalanced(legs);
    assert Mirror(legs) == ReversalPosting(id).legs;
    hide FindKey, BalancedLegs, Objection;
    assert Ledgers(id, status, false).journal + [ReversalPosting(id)] == Ledgers(id, Reversed, true).journal;
  }

  lemma Refunds(cfg: Config, f: Faults, id: RequestId, status: Status, requests: seq<Request>, i: nat,
                calls: seq<PayCall>)
    requires i < |requests| && requests[i].phase == Declined(1) && requests[i].job.id == id
    requires Reached(cfg, Under(f, id), Scene(Ledgers(id, status, false), requests, [], calls))
    ensures Reached(cfg, Under(f, id),
                    Scene(Ledgers(id, Reversed, true), requests[i := requests[i].(phase := Refunded(1, 2))], [], calls))
  {
    RefundStep(cfg, id, status, requests, i, calls);
    hide Reached, Under, Advance, Ledgers;
    StepsTo(cfg, f, id, Scene(Ledgers(id, status, false), requests, [], calls), i, No,
            Scene(Ledgers(id, Reversed, true), requests[i := requests[i].(phase := Refunded(1, 2))], [], calls));
  }

  lemma RepeatReads(cfg: Config, id: RequestId, status: Status, reversed: bool, first: Request, calls: seq<PayCall>)
    ensures var book := Ledgers(id, status, reversed);
            var g := Scene(book, [first, Repeat(id, GatesOk)], [], calls);
            var u := Scene(book, [first, Repeat(id, Recheck(1))], [], calls);
            && Advance(cfg, g, 1, No) == u
            && Advance(cfg, u, 1, No) == Scene(book, [first, Repeat(id, Held(1))], [], calls)
  {
    FoundReserve(id, status, reversed);
    hide FindKey, Ledgers;
    PairLegs(Wallet(0), FLOAT, 200);
  }

  lemma RepeatAffords(cfg: Config, id: RequestId, status: Status, reversed: bool, first: Request, calls: seq<PayCall>)
    requires SmallPayoutsPass(cfg)
    ensures var s := Scene(Ledgers(id, status, reversed), [first, Repeat(id, Started)], [], calls);
            CanAfford(cfg, s, s.requests[1])
  {
    LedgersMoney(id, status, reversed);
    hide Balance, DebitsSince, Ledgers;
  }

  lemma RepeatWaits(cfg: Config, f: Faults, id: RequestId, status: Status, reversed: bool, first: Request,
                    calls: seq<PayCall>)
    requires SmallPayoutsPass(cfg)
    requires Reached(cfg, Under(f, id), Scene(Ledgers(id, status, reversed), [first], [], calls))
    ensures Reached(cfg, Under(f, id), Scene(Ledgers(id, status, reversed), [first, Repeat(id, GatesOk)], [], calls))
  {
    var book := Ledgers(id, status, reversed);
    var s0, s := Scene(book, [first], [], calls), Scene(book, [first, Repeat(id, Started)], [], calls);
    RuleBindsRequests(f, id);
    RepeatAffords(cfg, id, status, reversed, first, calls);
    hide Reached, Under, Permits, CanAfford, Ledgers;
    assert Submitted(s0, JobOf(id, 2)) == s;
    assert Move(s, 1, GatesOk) == Scene(book, [first, Repeat(id, GatesOk)], [], calls);
    SubmitReached(cfg, Under(f, id), s0, JobOf(id, 2));
    ThroughGates(cfg, f, id, s, 1);
  }

  /** The repeat passes the gates, finds the key taken and no row, and goes to work on the same reserve. */
  lemma RepeatHolds(cfg: Config, f: Faults, id: RequestId, status: Status, reversed: bool, first: Request,
                    calls: seq<PayCall>)
    requires SmallPayoutsPass(cfg) && (f.overlap || !Busy(first, id))
    requires Reached(cfg, Under(f, id), Scene(Ledgers(id, status, reversed), [first], [], calls))
    ensures Reached(cfg, Under(f, id), Scene(Ledgers(id, status, reversed), [first, Repeat(id, Held(1))], [], calls))
  {
    var book := Ledgers(id, status, reversed);
    var g := Scene(book, [first, Repeat(id, GatesOk)], [], calls);
    var u := Scene(book, [first, Repeat(id, Recheck(1))], [], calls);
    RepeatReads(cfg, id, status, reversed, first, calls);
    hide Reached, Under, Advance, Ledgers;
    RepeatWaits(cfg, f, id, status, reversed, first, calls);
    StepsTo(cfg, f, id, g, 1, No, u);
    StepsTo(cfg, f, id, u, 1, No, Scene(book, [first, Repeat(id, Held(1))], [], calls));
  }

  // ------------------------------------------------------- a death at any point

  function PhaseAt(p: Point): Phase {
    match p
    case AtHeld => Held(1)
    case AtAccepted => Accepted(1)
    case AtDeclined => Declined(1)
    case AtConfirmed => Confirmed(1)
    case AtRefunded => Refunded(1, 2)
  }

  function StatusAt(p: Point): Status {
    match p
    case AtConfirmed => Completed
    case AtRefunded => Reversed
    case _ => Pending
  }

  function CallsAt(p: Point): seq<PayCall> {
    match p
    case AtHeld => []
    case AtDeclined => [PayCall(1, 0, 1, false)]
    case AtRefunded => [PayCall(1, 0, 1, false)]
    case _ => [PayCall(1, 0, 1, true)]
  }

  /** The first request stands at `p`, or died there. */
  function StoryAt(id: RequestId, p: Point, phase: Phase): State {
    Scene(Ledgers(id, StatusAt(p), p.AtRefunded?), [FirstRequest(id, phase)], [], CallsAt(p))
  }

  lemma FirstAnswered(cfg: Config, f: Faults, id: RequestId, yes: bool)
    requires SmallPayoutsPass(cfg)
    ensures var p := if yes then AtAccepted else AtDeclined;
            Reached(cfg, Under(f, id), StoryAt(id, p, PhaseAt(p)))
  {
    FirstHolds(cfg, f, id);
    var a, b := FirstRequest(id, Held(1)), FirstRequest(id, if yes then Accepted(1) else Declined(1));
    assert [a][0 := b] == [b] && [] + [PayCall(1, 0, 1, yes)] == [PayCall(1, 0, 1, yes)];
    hide Reached, Under, Ledgers, Scene;
    Asks(cfg, f, id, Ledgers(id, Pending, false), [a], 0, [], if yes then Yes else No);
  }

  lemma FirstArrives(cfg: Config, f: Faults, id: RequestId, p: Point)
    requires SmallPayoutsPass(cfg)
    ensures Reached(cfg, Under(f, id), StoryAt(id, p, PhaseAt(p)))
  {
    FirstHolds(cfg, f, id);
    FirstAnswered(cfg, f, id, true);
    FirstAnswered(cfg, f, id, false);
    var yes, no := FirstRequest(id, Accepted(1)), FirstRequest(id, Declined(1));
    assert [yes][0 := FirstRequest(id, Confirmed(1))] == [FirstRequest(id, Confirmed(1))];
    assert [no][0 := FirstRequest(id, Refunded(1, 2))] == [FirstRequest(id, Refunded(1, 2))];
    hide Reached, Under, Ledgers, Scene;
    if p.AtConfirmed? {
      Confirms(cfg, f, id, Pending, false, [yes], 0, CallsAt(p));
    } else if p.AtRefunded? {
      Refunds(cfg, f, id, Pending, [no], 0, CallsAt(p));
    }
  }

  /** It dies; the payout is neither paid nor given back as its row should tell. */
  lemma FirstDies(cfg: Config, f: Faults, id: RequestId, p: Point)
    requires SmallPayoutsPass(cfg) && p in f.crashes
    ensures Reached(cfg, Under(f, id), StoryAt(id, p, Stopped(Died)))
    ensures !ClosedAtRest(StoryAt(id, p, Stopped(Died)), id) && !SettledAtRest(StoryAt(id, p, Stopped(Died)), id)
  {
    DeathPermitted(cfg, f, id, p);
    FoundReserve(id, StatusAt(p), p.AtRefunded?);
    hide Reached, Under, Next, Ledgers;
    FirstArrives(cfg, f, id, p);
    ReachedNext(cfg, Under(f, id), StoryAt(id, p, PhaseAt(p)), Crash(0));
  }

  lemma DeathPermitted(cfg: Config, f: Faults, id: RequestId, p: Point)
    requires p in f.crashes
    ensures Under(f, id)(StoryAt(id, p, PhaseAt(p)), Crash(0))
    ensures Next(cfg, StoryAt(id, p, PhaseAt(p)), Crash(0)) == StoryAt(id, p, Stopped(Died))
  {
    hide Ledgers;
  }

  function Again(paid: bool): PayCall {
    PayCall(1, 0, 2, paid)
  }

  /** The repeat asks MonCash once more than the first did, and for more than was reserved. */
  lemma RepeatAsks(cfg: Config, f: Faults, id: RequestId, p: Point, paid: bool)
    requires SmallPayoutsPass(cfg) && p in f.crashes
    ensures var s := AskedAgain(id, p, paid);
            && Reached(cfg, Under(f, id), s)
            && !AsReserved(s, id)
            && (!p.AtHeld? ==> !AskedOnce(s, id))
            && (p.AtRefunded? && paid ==> !NotPaidAndGivenBack(s, id))
  {
    FirstDies(cfg, f, id, p);
    var dead, book := FirstRequest(id, Stopped(Died)), Ledgers(id, StatusAt(p), p.AtRefunded?);
    assert Reached(cfg, Under(f, id), AskedAgain(id, p, paid)) by {
      hide Reached, Under, Ledgers;
      RepeatHolds(cfg, f, id, StatusAt(p), p.AtRefunded?, dead, CallsAt(p));
      Asks(cfg, f, id, book, [dead, Repeat(id, Held(1))], 1, CallsAt(p), if paid then Yes else No);
    }
    hide Reached, Under;
    AskedAgainFacts(id, p, paid);
  }

  function AskedAgain(id: RequestId, p: Point, paid: bool): State {
    Scene(Ledgers(id, StatusAt(p), p.AtRefunded?),
          [FirstRequest(id, Stopped(Died)), Repeat(id, if paid then Accepted(1) else Declined(1))], [],
          CallsAt(p) + [Again(paid)])
  }

  lemma AskedAgainFacts(id: RequestId, p: Point, paid: bool)
    ensures var s := AskedAgain(id, p, paid);
            && !AsReserved(s, id)
            && (!p.AtHeld? ==> !AskedOnce(s, id))
            && (p.AtRefunded? && paid ==> !NotPaidAndGivenBack(s, id))
  {
    var s := AskedAgain(id, p, paid);
    var calls := s.monCashCalls;
    FoundReserve(id, StatusAt(p), p.AtRefunded?);
    assert Again(paid) in calls;
    assert calls[..|calls| - 1] == CallsAt(p);
    if !p.AtHeld? {
      assert CallsAt(p)[..0] == [];
      assert Asked(CallsAt(p), 1) == 1;
    }
    if p.AtRefunded? && paid {
      assert calls[1] == Again(true);
      assert s.book.journal[2].reversalOf == Some(1);
    }
  }

  /** After a death past MonCash's yes, a refusal of the repeat gives the money back as well. */
  lemma RepeatRefunded(cfg: Config, f: Faults, id: RequestId, p: Point)
    requires SmallPayoutsPass(cfg) && p in f.crashes && (p.AtAccepted? || p.AtConfirmed?)
    ensures exists s :: Reached(cfg, Under(f, id), s) && !NotPaidAndGivenBack(s, id)
  {
    RepeatAsks(cfg, f, id, p, false);
    var requests := [FirstRequest(id, Stopped(Died)), Repeat(id, Declined(1))];
    var calls := CallsAt(p) + [Again(false)];
    var t := Scene(Ledgers(id, Reversed, true), requests[1 := Repeat(id, Refunded(1, 2))], [], calls);
    assert Reached(cfg, Under(f, id), t) by {
      hide Reached, Under, Ledgers;
      Refunds(cfg, f, id, StatusAt(p), requests, 1, calls);
    }
    hide Reached, Under;
    FoundReserve(id, Reversed, true);
    assert calls[0].paid && t.book.journal[2].reversalOf == Some(1);
  }

  // ------------------------------------------------------------- an overlap

  /** Both at work: the repeat is refused and gives back, the first is paid and records it. */
  lemma BothWork(cfg: Config, f: Faults, id: RequestId)
    requires SmallPayoutsPass(cfg) && f.overlap
    ensures Reached(cfg, Under(f, id), BothDone(id))
  {
    FirstArrives(cfg, f, id, AtHeld);
    hide Reached, Under, Ledgers;
    RepeatHolds(cfg, f, id, Pending, false, FirstRequest(id, Held(1)), []);
    RepeatGivesBack(cfg, f, id);
    FirstIsPaid(cfg, f, id);
    RecordsTwice(cfg, f, id);
  }

  lemma RepeatGivesBack(cfg: Config, f: Faults, id: RequestId)
    requires Reached(cfg, Under(f, id),
                     Scene(Ledgers(id, Pending, false), [FirstRequest(id, Held(1)), Repeat(id, Held(1))], [], []))
    ensures Reached(cfg, Under(f, id),
                    Scene(Ledgers(id, Reversed, true), [FirstRequest(id, Held(1)), Repeat(id, Refunded(1, 2))], [],
                          [Again(false)]))
  {
    var a, b := FirstRequest(id, Held(1)), Repeat(id, Held(1));
    var b1 := b.(phase := Declined(1));
    assert [a, b][1 := b1] == [a, b1] && [] + [Again(false)] == [Again(false)];
    assert [a, b1][1 := Repeat(id, Refunded(1, 2))] == [a, Repeat(id, Refunded(1, 2))];
    hide Reached, Under, Ledgers, Scene;
    Asks(cfg, f, id, Ledgers(id, Pending, false), [a, b], 1, [], No);
    Refunds(cfg, f, id, Pending, [a, b1], 1, [Again(false)]);
  }

  lemma FirstIsPaid(cfg: Config, f: Faults, id: RequestId)
    requires Reached(cfg, Under(f, id),
                     Scene(Ledgers(id, Reversed, true), [FirstRequest(id, Held(1)), Repeat(id, Refunded(1, 2))], [],
                           [Again(false)]))
    ensures Reached(cfg, Under(f, id),
                    Scene(Ledgers(id, Reversed, true), [FirstRequest(id, Confirmed(1)), Repeat(id, Refunded(1, 2))], [],
                          [Again(false), PayCall(1, 0, 1, true)]))
  {
    var a, b := FirstRequest(id, Held(1)), Repeat(id, Refunded(1, 2));
    var a1, a2, yes := FirstRequest(id, Accepted(1)), FirstRequest(id, Confirmed(1)), PayCall(1, 0, 1, true);
    assert [a, b][0 := a1] == [a1, b] && [Again(false)] + [yes] == [Again(false), yes] && [a1, b][0 := a2] == [a2, b];
    hide Reached, Under, Ledgers, Scene;
    Asks(cfg, f, id, Ledgers(id, Reversed, true), [a, b], 0, [Again(false)], Yes);
    Confirms(cfg, f, id, Reversed, true, [a1, b], 0, [Again(false), yes]);
  }

  function BothDone(id: RequestId): State {
    Scene(Ledgers(id, Reversed, true),
          [FirstRequest(id, Done(PaidOut(1, PayoutCompleted))), Repeat(id, Stopped(RowExists))],
          [PayoutRow(1, 0, 100, PayoutCompleted, None)], [Again(false), PayCall(1, 0, 1, true)])
  }

  lemma RecordsTwice(cfg: Config, f: Faults, id: RequestId)
    requires Reached(cfg, Under(f, id),
                     Scene(Ledgers(id, Reversed, true), [FirstRequest(id, Confirmed(1)), Repeat(id, Refunded(1, 2))], [],
                           [Again(false), PayCall(1, 0, 1, true)]))
    ensures Reached(cfg, Under(f, id), BothDone(id))
  {
    var calls := [Again(false), PayCall(1, 0, 1, true)];
    var book, rows := Ledgers(id, Reversed, true), [PayoutRow(1, 0, 100, PayoutCompleted, None)];
    var a, b := FirstRequest(id, Done(PaidOut(1, PayoutCompleted))), Repeat(id, Refunded(1, 2));
    var s := Scene(book, [FirstRequest(id, Confirmed(1)), b], [], calls);
    var u := Scene(book, [a, b], rows, calls);
    FirstRecords(cfg, id);
    hide Reached, Under, Ledgers, Advance;
    StepsTo(cfg, f, id, s, 0, No, u);
    StepsTo(cfg, f, id, u, 1, No, BothDone(id));
  }

  lemma FirstRecords(cfg: Config, id: RequestId)
    ensures var calls := [Again(false), PayCall(1, 0, 1, true)];
            var book, rows := Ledgers(id, Reversed, true), [PayoutRow(1, 0, 100, PayoutCompleted, None)];
            var b := Repeat(id, Refunded(1, 2));
            var s := Scene(book, [FirstRequest(id, Confirmed(1)), b], [], calls);
            var u := Scene(book, [FirstRequest(id, Done(PaidOut(1, PayoutCompleted))), b], rows, calls);
            Advance(cfg, s, 0, No) == u && Advance(cfg, u, 1, No) == BothDone(id)
  {
    hide Ledgers;
  }

  /** Asked twice, for more than was reserved, paid and given back, and the row tells half of it. */
  lemma BothDoneFacts(id: RequestId)
    ensures var s := BothDone(id);
            && !AskedOnce(s, id) && !NotPaidAndGivenBack(s, id) && !AsReserved(s, id)
            && !ClosedAtRest(s, id) && !SettledAtRest(s, id)
  {
    var s := BothDone(id);
    var calls := s.monCashCalls;
    FoundReserve(id, Reversed, true);
    assert Again(false) in calls;
    assert calls[..1] == [Again(false)] && calls[..1][..0] == [];
    assert calls[1].paid;
    assert s.book.journal[2].reversalOf == Some(1);
    assert NoneBusy(s.requests, id);
  }

  // ------------------------------------------------------------ a lost answer

  /** MonCash paid, and its answer never came: the money went back as well, and the row says FAILED. */
  function LostDone(id: RequestId): State {
    Scene(Ledgers(id, Reversed, true), [FirstRequest(id, Done(PaidOut(1, PayoutFailed)))],
          [PayoutRow(1, 0, 100, PayoutFailed, Some(2))], [PayCall(1, 0, 1, true)])
  }

  lemma AnswerLost(cfg: Config, f: Faults, id: RequestId)
    requires SmallPayoutsPass(cfg) && f.lostAnswers
    ensures Reached(cfg, Under(f, id), LostDone(id))
  {
    var a, b, c := FirstRequest(id, Held(1)), FirstRequest(id, Declined(1)), FirstRequest(id, Refunded(1, 2));
    var call := PayCall(1, 0, 1, true);
    FirstHolds(cfg, f, id);
    assert [a][0 := b] == [b] && [b][0 := c] == [c] && [] + [call] == [call];
    FailureRecorded(cfg, id);
    hide Reached, Under, Ledgers, Advance;
    Asks(cfg, f, id, Ledgers(id, Pending, false), [a], 0, [], Lost);
    Refunds(cfg, f, id, Pending, [b], 0, [call]);
    StepsTo(cfg, f, id, Scene(Ledgers(id, Reversed, true), [c], [], [call]), 0, No, LostDone(id));
  }

  lemma FailureRecorded(cfg: Config, id: RequestId)
    ensures var s := Scene(Ledgers(id, Reversed, true), [FirstRequest(id, Refunded(1, 2))], [], [PayCall(1, 0, 1, true)]);
            Advance(cfg, s, 0, No) == LostDone(id)
  {
    hide Ledgers;
  }

  lemma LostDoneFacts(id: RequestId)
    ensures !NotPaidAndGivenBack(LostDone(id), id) && !SettledAtRest(LostDone(id), id)
  {
    var s := LostDone(id);
    FoundReserve(id, Reversed, true);
    assert s.monCashCalls[0].paid && s.book.journal[2].reversalOf == Some(1);
    assert NoneBusy(s.requests, id);
  }

  // --------------------------------------------------------- no way forward

  /** The first died with the reversal made and no row: the repeat, refused, cannot reverse again. */
  function Stuck(id: RequestId): State {
    Scene(Ledgers(id, Reversed, true),
          [FirstRequest(id, Stopped(Died)), Repeat(id, Stopped(LedgerRefused(DuplicateKey)))], [],
          CallsAt(AtRefunded) + [Again(false)])
  }

  lemma RepeatStuck(cfg: Config, f: Faults, id: RequestId)
    requires SmallPayoutsPass(cfg) && AtRefunded in f.crashes
    ensures Reached(cfg, Under(f, id), Stuck(id)) && !NoneTurnedAway(Stuck(id).requests, id)
  {
    RepeatAsks(cfg, f, id, AtRefunded, false);
    SecondReversalRefused(cfg, id);
    assert Mine(Stuck(id).requests[1], id);
    hide Reached, Under, Advance, Ledgers;
    StepsTo(cfg, f, id, AskedAgain(id, AtRefunded, false), 1, No, Stuck(id));
  }

  lemma SecondReversalRefused(cfg: Config, id: RequestId)
    ensures Advance(cfg, AskedAgain(id, AtRefunded, false), 1, No) == Stuck(id)
  {
    var legs := ReservePosting(id).legs;
    FoundReserve(id, Reversed, true);
    PairLegs(Wallet(0), FLOAT, 100);
    MirrorBalanced(legs);
    hide FindKey, BalancedLegs, Objection;
  }

  // --------------------------------------------- what each promise depends on

  lemma ReachedOrderly(cfg: Config, f: Faults, id: RequestId, s: State)
    requires ConfigOk(cfg) && Reached(cfg, Under(f, id), s) && Harmless(f)
    ensures !f.lostAnswers ==> NotPaidAndGivenBack(s, id)
    ensures AtDeclined !in f.crashes ==> AskedOnce(s, id)
    ensures f.crashes == {} ==> ClosedAtRest(s, id) && AsReserved(s, id)
    ensures f.crashes == {} && !f.lostAnswers ==> SettledAtRest(s, id)
  {
    var run: seq<State>, events: seq<Event> :|
      IsRun(cfg, run, events) && KeepsRule(Under(f, id), run, events) && run[|events|] == s;
    OrderlyPayout(cfg, run, events, |events|, id, f);
  }

  /**
   MonCash is asked at most once per request id, in all runs, exactly when no request looks for the row
   while another is at work, and none dies at work after the question was put. Lost answers do not matter.
   */
  lemma AskedOnceWhen(cfg: Config, f: Faults, id: RequestId)
    requires SmallPayoutsPass(cfg)
    ensures (forall s :: Reached(cfg, Under(f, id), s) ==> AskedOnce(s, id)) <==> !f.overlap && f.crashes <= {AtHeld}
  {
    hide Reached, Under, AskedOnce, NotPaidAndGivenBack, SettledAtRest, AsReserved, BothDone, AskedAgain;
    if !f.overlap && f.crashes <= {AtHeld} {
      forall s | Reached(cfg, Under(f, id), s) ensures AskedOnce(s, id) {
        ReachedOrderly(cfg, f, id, s);
      }
    } else if f.overlap {
      BothWork(cfg, f, id);
      BothDoneFacts(id);
    } else {
      var p :| p in f.crashes && p != AtHeld;
      RepeatAsks(cfg, f, id, p, false);
    }
  }

  /**
   No payout is both paid and given back, in all runs, exactly when there is no such overlap, no request
   dies between MonCash's yes, or the reversal, and its row, and no answer of MonCash's is lost.
   */
  lemma NeverBothWhen(cfg: Config, f: Faults, id: RequestId)
    requires SmallPayoutsPass(cfg)
    ensures (forall s :: Reached(cfg, Under(f, id), s) ==> NotPaidAndGivenBack(s, id)) <==>
            Harmless(f) && !f.lostAnswers
  {
    hide Reached, Under, AskedOnce, NotPaidAndGivenBack, SettledAtRest, AsReserved, BothDone, AskedAgain, LostDone;
    if Harmless(f) && !f.lostAnswers {
      forall s | Reached(cfg, Under(f, id), s) ensures NotPaidAndGivenBack(s, id) {
        ReachedOrderly(cfg, f, id, s);
      }
    } else if f.overlap {
      BothWork(cfg, f, id);
      BothDoneFacts(id);
    } else if f.lostAnswers {
      AnswerLost(cfg, f, id);
      LostDoneFacts(id);
    } else {
      var p :| p in f.crashes && p != AtHeld && p != AtDeclined;
      if p.AtRefunded? {
        RepeatAsks(cfg, f, id, p, true);
      } else {
        RepeatRefunded(cfg, f, id, p);
      }
    }
  }

  /**
   A payout with nobody at work is paid and kept, or unpaid and given back, in all runs, exactly when there
   is no such overlap, no death at work and no lost answer.
   */
  lemma SettledWhen(cfg: Config, f: Faults, id: RequestId)
    requires SmallPayoutsPass(cfg)
    ensures (forall s :: Reached(cfg, Under(f, id), s) ==> SettledAtRest(s, id)) <==>
            !f.overlap && f.crashes == {} && !f.lostAnswers
  {
    hide Reached, Under, AskedOnce, NotPaidAndGivenBack, SettledAtRest, AsReserved, BothDone, StoryAt, LostDone;
    if !f.overlap && f.crashes == {} && !f.lostAnswers {
      forall s | Reached(cfg, Under(f, id), s) ensures SettledAtRest(s, id) {
        ReachedOrderly(cfg, f, id, s);
      }
    } else if f.overlap {
      BothWork(cfg, f, id);
      BothDoneFacts(id);
    } else if f.lostAnswers {
      AnswerLost(cfg, f, id);
      LostDoneFacts(id);
    } else {
      var p :| p in f.crashes;
      FirstDies(cfg, f, id, p);
    }
  }

  /** Row, operation and reversal tell one story at rest, in all runs, exactly without such an overlap or death. */
  lemma ClosedWhen(cfg: Config, f: Faults, id: RequestId)
    requires SmallPayoutsPass(cfg)
    ensures (forall s :: Reached(cfg, Under(f, id), s) ==> ClosedAtRest(s, id)) <==> !f.overlap && f.crashes == {}
  {
    hide Reached, Under, AskedOnce, NotPaidAndGivenBack, ClosedAtRest, SettledAtRest, AsReserved, BothDone, StoryAt;
    if !f.overlap && f.crashes == {} {
      forall s | Reached(cfg, Under(f, id), s) ensures ClosedAtRest(s, id) {
        ReachedOrderly(cfg, f, id, s);
      }
    } else if f.overlap {
      BothWork(cfg, f, id);
      BothDoneFacts(id);
    } else {
      var p :| p in f.crashes;
      FirstDies(cfg, f, id, p);
    }
  }

  /** MonCash is asked for, and the row records, what was reserved, in all runs, exactly under the same condition. */
  lemma AsReservedWhen(cfg: Config, f: Faults, id: RequestId)
    requires SmallPayoutsPass(cfg)
    ensures (forall s :: Reached(cfg, Under(f, id), s) ==> AsReserved(s, id)) <==> !f.overlap && f.crashes == {}
  {
    hide Reached, Under, AskedOnce, NotPaidAndGivenBack, SettledAtRest, AsReserved, BothDone, AskedAgain;
    if !f.overlap && f.crashes == {} {
      forall s | Reached(cfg, Under(f, id), s) ensures AsReserved(s, id) {
        ReachedOrderly(cfg, f, id, s);
      }
    } else if f.overlap {
      BothWork(cfg, f, id);
      BothDoneFacts(id);
    } else {
      var p :| p in f.crashes;
      RepeatAsks(cfg, f, id, p, false);
    }
  }

  /**
   No request that passed its gates is turned away, in all runs, exactly when no request looks for the row
   while another is at work and none dies between the reversal and its row.
   */
  lemma NobodyTurnedAwayWhen(cfg: Config, f: Faults, id: RequestId)
    requires SmallPayoutsPass(cfg)
    ensures (forall s :: Reached(cfg, Under(f, id), s) ==> NoneTurnedAway(s.requests, id)) <==> Answerable(f)
  {
    hide Reached, Under;
    if Answerable(f) {
      forall s | Reached(cfg, Under(f, id), s) ensures NoneTurnedAway(s.requests, id) {
        ReachedAnswered(cfg, f, id, s);
      }
    } else if f.overlap {
      BothWork(cfg, f, id);
      assert Mine(BothDone(id).requests[1], id) && TurnedAway(BothDone(id).requests[1].phase.why);
    } else {
      RepeatStuck(cfg, f, id);
    }
  }

  lemma ReachedAnswered(cfg: Config, f: Faults, id: RequestId, s: State)
    requires ConfigOk(cfg) && Reached(cfg, Under(f, id), s) && Answerable(f)
    ensures NoneTurnedAway(s.requests, id)
  {
    var run: seq<State>, events: seq<Event> :|
      IsRun(cfg, run, events) && KeepsRule(Under(f, id), run, events) && run[|events|] == s;
    hide IsRun, KeepsRule, NoneTurnedAway;
    NobodyTurnedAway(cfg, run, events, |events|, id, f);
  }
}
