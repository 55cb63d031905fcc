/**
 What a payout request gets for passing its gates: the answer on record, in every run in which no request
 looks for the row while another is at work, and none dies between the reversal and its row.
 */
module EngineAnswers {
  import opened Common
  import opened Ledger
  import opened Engine
  import opened EngineCore
  import opened EnginePayout
  import opened EngineReach
  import opened EngineFaults
  import opened Undisturbed
  import Topup

  /** The faults that leave nobody without an answer. */
  predicate Answerable(f: Faults) {
    !f.overlap && AtRefunded !in f.crashes
  }

  /** No request for `id` was refused by the ledger or by the table of rows. */
  predicate NoneTurnedAway(requests: seq<Request>, id: RequestId) {
    forall i :: 0 <= i < |requests| && Mine(requests[i], id) && requests[i].phase.Stopped? ==>
      !TurnedAway(requests[i].phase.why)
  }

  /** Nothing stands in the way of what a request at phase `p` has left to do. */
  predicate WayIsClear(v: View, p: Phase) {
    match p
    case Recheck(op) => v.Present? && v.op == op
    case Held(op) => v.Present? && v.op == op && v.row == None && v.reversal == None
    case Accepted(op) => v.Present? && v.op == op && v.row == None && v.reversal == None
    case Declined(op) => v.Present? && v.op == op && v.row == None && v.reversal == None
    case Confirmed(op) => v.Present? && v.op == op && v.row == None && v.reversal == None
    case Refunded(op, _) => v.Present? && v.op == op && v.row == None
    case Stopped(why) => !TurnedAway(why)
    case _ => true
  }

  /** A reserve nobody works on has its row, or has not been given back. */
  predicate Reopens(v: View) {
    v.Absent? || v.row.Some? || v.reversal == None
  }

  predicate OpenIn(v: View, requests: seq<Request>, id: RequestId) {
    && (forall i :: 0 <= i < |requests| && Mine(requests[i], id) ==> WayIsClear(v, requests[i].phase))
    && OneBusy(requests, id)
    && (NoneBusy(requests, id) ==> Reopens(v))
  }

  ghost predicate Open(s: State, id: RequestId) {
    |s.book.status| == |s.book.journal| && OpenIn(ViewOf(s, id), s.requests, id)
  }

  /** Past its gates and still on its way, or there. */
  predicate OnItsWay(p: Phase) {
    p.GatesOk? || p.Recheck? || PointOf(p).Some? || (p.Done? && p.answer.PaidOut?)
  }

  // ------------------------------------------------------------ one step keeps it

  lemma WorkGoesOn(v: View, v': View, p: Phase, p': Phase, reply: Reply)
    requires ViewAfter(v, v', p, p', true, reply) && PointOf(p).Some? && WayIsClear(v, p)
    ensures v.row == None && v'.Present? && v'.op == v.op && WayIsClear(v', p') && OnItsWay(p')
    ensures PointOf(p').Some? || v'.row.Some?
  {
  }

  lemma WorkBegins(v: View, v': View, p: Phase, p': Phase, reply: Reply)
    requires ViewAfter(v, v', p, p', true, reply) && PointOf(p).None? && WayIsClear(v, p)
    requires p.Recheck? ==> Reopens(v)
    ensures WayIsClear(v', p')
    ensures v' == v || (v.Absent? && PointOf(p').Some?)
    ensures PointOf(p').Some? ==> v.Absent? || p.Recheck?
    ensures p.GatesOk? || p.Recheck? ==> OnItsWay(p')
  {
  }

  lemma OpenMove(v: View, v': View, requests: seq<Request>, i: nat, r': Request, id: RequestId, reply: Reply)
    requires i < |requests| && r'.job == requests[i].job && OpenIn(v, requests, id)
    requires ViewAfter(v, v', requests[i].phase, r'.phase, Mine(requests[i], id), reply)
    requires Mine(requests[i], id) && requests[i].phase.Recheck? ==> NoneBusy(requests, id)
    ensures OpenIn(v', requests[i := r'], id)
    ensures Mine(requests[i], id) && OnItsWay(requests[i].phase) && !requests[i].phase.Done? ==> OnItsWay(r'.phase)
  {
    var r, after := requests[i], requests[i := r'];
    assert forall j :: 0 <= j < |requests| && j != i ==> after[j] == requests[j];
    if !Mine(r, id) {
      OthersStay(v, v', r.phase, r'.phase, reply);
      assert forall j :: 0 <= j < |after| ==> Busy(after[j], id) == Busy(requests[j], id);
    } else {
      assert WayIsClear(v, r.phase);
      if PointOf(r.phase).Some? {
        assert Busy(r, id);
        WorkGoesOn(v, v', r.phase, r'.phase, reply);
      } else {
        WorkBegins(v, v', r.phase, r'.phase, reply);
        assert !Busy(r, id);
        if v.Absent? {
          AbsentIsIdle(v, requests, id);
        }
      }
      hide ViewAfter;
      ClearAfter(v, v', requests, i, r', id);
      MovedBusy(requests, i, r', id);
      ReopensAfter(v, v', requests, i, r', id);
    }
  }

  lemma AbsentIsIdle(v: View, requests: seq<Request>, id: RequestId)
    requires OpenIn(v, requests, id) && v.Absent?
    ensures NoneBusy(requests, id)
  {
    forall j | 0 <= j < |requests| ensures !Busy(requests[j], id) {
      assert Mine(requests[j], id) ==> WayIsClear(v, requests[j].phase);
    }
  }

  lemma ClearAfter(v: View, v': View, requests: seq<Request>, i: nat, r': Request, id: RequestId)
    requires i < |requests| && r'.job == requests[i].job && OpenIn(v, requests, id) && WayIsClear(v', r'.phase)
    requires v' == v || v.Absent? || (Busy(requests[i], id) && v.row == None && v'.Present? && v'.op == v.op)
    ensures var after := requests[i := r'];
            forall j :: 0 <= j < |after| && Mine(after[j], id) ==> WayIsClear(v', after[j].phase)
  {
    forall j | 0 <= j < |requests| && j != i && Mine(requests[j], id) ensures WayIsClear(v', requests[j].phase) {
      assert WayIsClear(v, requests[j].phase);
      assert Busy(requests[i], id) ==> !Busy(requests[j], id);
    }
  }

  lemma ReopensAfter(v: View, v': View, requests: seq<Request>, i: nat, r': Request, id: RequestId)
    requires i < |requests| && r'.job == requests[i].job && OpenIn(v, requests, id)
    requires Busy(requests[i], id) ==> Busy(r', id) || (v'.Present? && v'.row.Some?)
    requires !Busy(requests[i], id) ==> v' == v || Busy(r', id)
    ensures NoneBusy(requests[i := r'], id) ==> Reopens(v')
  {
    var after := requests[i := r'];
    if NoneBusy(after, id) {
      assert !Busy(after[i], id);
      forall j | 0 <= j < |requests| && j != i ensures !Busy(requests[j], id) {
        assert !Busy(after[j], id);
      }
    }
  }

  lemma OpenAdvance(cfg: Config, s: State, i: nat, reply: Reply, id: RequestId)
    requires Core(cfg, s) && RowsOk(s) && i < |s.requests| && Open(s, id) && !LooksTooSoon(s, i, id)
    ensures var t := Advance(cfg, s, i, reply);
            && Open(t, id) && |t.requests| == |s.requests| && t.requests == s.requests[i := t.requests[i]]
            && t.requests[i].job == s.requests[i].job
            && (Mine(s.requests[i], id) && OnItsWay(s.requests[i].phase) && !s.requests[i].phase.Done? ==>
                  OnItsWay(t.requests[i].phase))
  {
    var t := Advance(cfg, s, i, reply);
    StepView(cfg, s, i, reply, id);
    AdvanceKeepsJob(cfg, s, i, reply);
    hide Advance, Core, BookOk, RequestOk, RowsOk, ViewFrom, ViewAfter, OpenIn, WayIsClear;
    if Mine(s.requests[i], id) && s.requests[i].phase.Recheck? {
      assert NoneBusy(s.requests, id);
    }
    OpenMove(ViewOf(s, id), ViewOf(t, id), s.requests, i, t.requests[i], id, reply);
  }

  lemma OpenCrash(v: View, requests: seq<Request>, i: nat, id: RequestId)
    requires i < |requests| && OpenIn(v, requests, id)
    requires Busy(requests[i], id) ==> !requests[i].phase.Refunded?
    ensures OpenIn(v, requests[i := requests[i].(phase := Stopped(Died))], id)
  {
    var after := requests[i := requests[i].(phase := Stopped(Died))];
    assert Mine(requests[i], id) ==> WayIsClear(v, requests[i].phase);
    assert forall j :: 0 <= j < |after| && j != i ==> after[j] == requests[j];
    if NoneBusy(after, id) {
      assert forall j :: 0 <= j < |requests| && j != i ==> !Busy(after[j], id);
      assert !Busy(requests[i], id) ==> NoneBusy(requests, id);
    }
  }

  lemma OpenSubmit(v: View, requests: seq<Request>, r: Request, id: RequestId)
    requires OpenIn(v, requests, id) && r.phase == Started
    ensures OpenIn(v, requests + [r], id)
  {
    var after := requests + [r];
    assert forall j :: 0 <= j < |requests| ==> after[j] == requests[j];
    if NoneBusy(after, id) {
      assert forall j :: 0 <= j < |requests| ==> !Busy(after[j], id);
    }
  }

  lemma {:induction false} OpenNext(cfg: Config, s: State, e: Event, id: RequestId, f: Faults)
    requires Core(cfg, s) && RowsOk(s) && Open(s, id) && Answerable(f) && Permits(f, id, s, e)
    ensures Open(Next(cfg, s, e), id)
  {
    var t := Next(cfg, s, e);
    hide Advance, BookOk, RequestOk, RowsOk, ViewFrom, Topup.Commit, OpenIn;
    match e
    case Step(i, reply) =>
      if i < |s.requests| {
        OpenAdvance(cfg, s, i, reply, id);
      }
    case TopupEvent(event) => TopupView(cfg, s, event, id);
    case Crash(i) =>
      if i < |s.requests| && !s.requests[i].phase.Done? {
        OpenCrash(ViewOf(s, id), s.requests, i, id);
      }
    case Submit(job) =>
      if t.requests != s.requests {
        OpenSubmit(ViewOf(s, id), s.requests, t.requests[|s.requests|], id);
      }
    case _ =>
  }

  lemma StartOpen(id: RequestId)
    ensures Open(INITIAL, id)
  {
  }

  lemma {:induction false} RunOpen(cfg: Config, run: seq<State>, events: seq<Event>, n: nat, id: RequestId, f: Faults)
    requires ConfigOk(cfg) && IsRun(cfg, run, events) && KeepsRule(Under(f, id), run, events) && n < |run|
    requires Answerable(f)
    ensures Open(run[n], id)
  {
    hide Next, Core, RowsOk, Open, Permits, Under, KeepsRule;
    if n == 0 {
      StartOpen(id);
    } else {
      RunOpen(cfg, run, events, n - 1, id, f);
      RunCore(cfg, run, events, n - 1);
      RunRowsOk(cfg, run, events, n - 1);
      KeptAt(f, id, run, events, n - 1);
      OpenNext(cfg, run[n - 1], events[n - 1], id, f);
    }
  }

  /**
   In every run in which no request looks for the row while another is at work, and none dies between the
   reversal and its row: no request for `id` that passed its gates is ever turned away. It is answered, and
   then with the outcome on record, or it is still at work, or it died.
   */
  lemma {:induction false} NobodyTurnedAway(cfg: Config, run: seq<State>, events: seq<Event>, n: nat, id: RequestId,
                                            f: Faults)
    requires ConfigOk(cfg) && IsRun(cfg, run, events) && KeepsRule(Under(f, id), run, events) && n < |run|
    requires Answerable(f)
    ensures NoneTurnedAway(run[n].requests, id) && AnswersRecorded(run[n], id)
  {
    RunOpen(cfg, run, events, n, id, f);
    EveryAnswerRecorded(cfg, run, events, n, id);
    hide IsRun, KeepsRule, ViewFrom;
    var s := run[n];
    assert forall i :: 0 <= i < |s.requests| && Mine(s.requests[i], id) ==>
             WayIsClear(ViewOf(s, id), s.requests[i].phase);
  }

  // ------------------------------------------------------- and it does get there

  /** Request `i` alone is at work on the payout, or nobody is. */
  predicate AloneAtWork(requests: seq<Request>, i: nat, id: RequestId) {
    forall j :: 0 <= j < |requests| && j != i ==> !Busy(requests[j], id)
  }

  ghost predicate Fine(cfg: Config, s: State, id: RequestId) {
    ConfigOk(cfg) && Core(cfg, s) && RowsOk(s) && Open(s, id) && AnswersStand(s.requests, s.rows)
  }

  lemma FineAdvance(cfg: Config, s: State, i: nat, reply: Reply, id: RequestId)
    requires Fine(cfg, s, id) && i < |s.requests| && AloneAtWork(s.requests, i, id)
    requires Mine(s.requests[i], id) && OnItsWay(s.requests[i].phase) && !s.requests[i].phase.Done?
    ensures var t := Advance(cfg, s, i, reply);
            && Fine(cfg, t, id) && i < |t.requests| && AloneAtWork(t.requests, i, id)
            && Mine(t.requests[i], id) && OnItsWay(t.requests[i].phase)
            && RowsGrow(s.book.journal, s.rows, t.rows) && s.book.journal <= t.book.journal
  {
    var t, e := Advance(cfg, s, i, reply), Step(i, reply);
    assert t == Next(cfg, s, e) by { hide Advance; }
    hide Advance, Next, Open, RowsOk, AnswersStand, RowsGrow;
    NextCore(cfg, s, e);
    NextRowsOk(cfg, s, e);
    RowsStep(cfg, s, e);
    AnswersNext(cfg, s, e);
    OpenAdvance(cfg, s, i, reply, id);
    assert forall j :: 0 <= j < |t.requests| && j != i ==> t.requests[j] == s.requests[j];
  }

  /**
   A request that passed its gates and is left to run with nobody else at work on its payout ends with the
   outcome on record, whatever MonCash replies: the one that was there before, if there was one.
   */
  lemma {:induction false} RunsToAnswer(cfg: Config, s: State, i: nat, reply: Reply, id: RequestId)
    requires Fine(cfg, s, id) && i < |s.requests| && AloneAtWork(s.requests, i, id)
    requires Mine(s.requests[i], id) && OnItsWay(s.requests[i].phase)
    ensures var t := Complete(cfg, s, i, reply);
            && i < |t.requests| && t.requests[i].phase.Done? && t.requests[i].phase.answer.PaidOut?
            && var answer := t.requests[i].phase.answer;
               && Reserve(t, id) == Some(answer.operation)
               && RowStatus(t.rows, answer.operation) == Some(answer.status)
               && (RowStatus(s.rows, answer.operation).Some? ==>
                     RowStatus(s.rows, answer.operation) == Some(answer.status))
    decreases StepsLeft(s.requests[i].phase)
  {
    var r := s.requests[i];
    if r.phase.Done? {
      CompleteEnd(cfg, s, i, reply);
      assert RequestOk(cfg, s, r);
      OwnReserve(cfg, s, r, id);
    } else {
      var t := Advance(cfg, s, i, reply);
      StepsRunOut(cfg, s, i, reply);
      CompleteStep(cfg, s, i, reply);
      FineAdvance(cfg, s, i, reply, id);
      hide Advance, Fine, RowsGrow, RowStatus;
      RunsToAnswer(cfg, t, i, reply, id);
      var op := Complete(cfg, t, i, reply).requests[i].phase.answer.operation;
      if RowStatus(s.rows, op).Some? {
        RowStands(s.book.journal, s.rows, t.rows, op);
      }
    }
  }

  /**
   In every such run, a request through its gates while nobody works on its payout is answered with the
   recorded outcome.
   */
  lemma {:induction false} RetryAnswered(cfg: Config, run: seq<State>, events: seq<Event>, n: nat, id: RequestId,
                                         f: Faults, i: nat, reply: Reply)
    requires ConfigOk(cfg) && IsRun(cfg, run, events) && KeepsRule(Under(f, id), run, events) && n < |run|
    requires Answerable(f) && NoneBusy(run[n].requests, id)
    requires i < |run[n].requests| && Mine(run[n].requests[i], id) && run[n].requests[i].phase.GatesOk?
    ensures var s, t := run[n], Complete(cfg, run[n], i, reply);
            && i < |t.requests| && t.requests[i].phase.Done? && t.requests[i].phase.answer.PaidOut?
            && var answer := t.requests[i].phase.answer;
               && Reserve(t, id) == Some(answer.operation)
               && RowStatus(t.rows, answer.operation) == Some(answer.status)
               && (RowStatus(s.rows, answer.operation).Some? ==>
                     RowStatus(s.rows, answer.operation) == Some(answer.status))
  {
    RunOpen(cfg, run, events, n, id, f);
    RunCore(cfg, run, events, n);
    RunRowsOk(cfg, run, events, n);
    RunAnswers(cfg, run, events, n);
    hide IsRun, KeepsRule, Core, RowsOk, Open, AnswersStand, Complete, Reserve, RowStatus;
    RunsToAnswer(cfg, run[n], i, reply, id);
  }
}
