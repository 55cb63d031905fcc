/**
 What becomes of one payout request id when requests overlap or die at work. The faults a run may
 show are named, and a payout is followed through every run that shows none of the harmful ones.
 */
module EngineFaults {
  import opened Common
  import opened Ledger
  import opened Engine
  import opened EngineCore
  import opened EnginePayout
  import opened EngineReach
  import Topup

  // ----------------------------------------------------------------- the faults

  /** Where a request at work on a reserve may die; each is the point after one commit or call. */
  datatype Point = AtHeld | AtAccepted | AtDeclined | AtConfirmed | AtRefunded

  function PointOf(p: Phase): Option<Point> {
    match p
    case Held(_) => Some(AtHeld)
    case Accepted(_) => Some(AtAccepted)
    case Declined(_) => Some(AtDeclined)
    case Confirmed(_) => Some(AtConfirmed)
    case Refunded(_, _) => Some(AtRefunded)
    case _ => None
  }

  /**
   `overlap`: a repeated request may look for the recorded row while another is at work on the reserve.
   `crashes`: the points at which a request at work may die; requests may die anywhere else regardless.
   `lostAnswers`: MonCash may pay and its answer come too late, not at all, or unreadable.
   */
  datatype Faults = Faults(overlap: bool, crashes: set<Point>, lostAnswers: bool)

  /** Request `i` is about to look for the row of a reserve that another request is at work on. */
  predicate LooksTooSoon(s: State, i: nat, id: RequestId) {
    && i < |s.requests| && Mine(s.requests[i], id) && s.requests[i].phase.Recheck?
    && exists j :: 0 <= j < |s.requests| && j != i && Busy(s.requests[j], id)
  }

  /** Request `i` asks, is paid, and does not learn it. */
  predicate LosesAnswer(s: State, i: nat, reply: Reply, id: RequestId) {
    i < |s.requests| && Mine(s.requests[i], id) && s.requests[i].phase.Held? && reply.Lost?
  }

  predicate Permits(f: Faults, id: RequestId, s: State, e: Event) {
    match e
    case Step(i, reply) => (LooksTooSoon(s, i, id) ==> f.overlap) && (LosesAnswer(s, i, reply, id) ==> f.lostAnswers)
    case Crash(i) => i < |s.requests| && Busy(s.requests[i], id) ==> PointOf(s.requests[i].phase).value in f.crashes
    case _ => true
  }

  ghost function Under(f: Faults, id: RequestId): Rule {
    (s: State, e: Event) => Permits(f, id, s, e)
  }

  /** No overlap, and no death between MonCash's yes, or the reversal, and its row. */
  predicate Harmless(f: Faults) {
    !f.overlap && f.crashes <= {AtHeld, AtDeclined}
  }

  // ------------------------------------------------- what fits what in such runs

  /** Without deaths after a refusal, MonCash was asked exactly `n` times. */
  predicate AskedTimes(v: View, f: Faults, n: nat)
    requires v.Present?
  {
    AtDeclined in f.crashes || v.asked == n
  }

  /** What the caller was told is so: no payment went unheard. */
  predicate Unpaid(v: View, f: Faults)
    requires v.Present?
  {
    f.lostAnswers || !v.paid
  }

  /** Reserved, and nothing that lasts has happened since. */
  predicate Untouched(v: View, f: Faults) {
    v.Present? && v.status == Pending && v.reversal == None && v.row == None && Unpaid(v, f) && AskedTimes(v, f, 0)
  }

  /** Paid and kept, or refused and given back. */
  predicate Settled(v: View, f: Faults) {
    && v.Present? && AskedTimes(v, f, 1)
    && ((v.row == Some(PayoutCompleted) && v.status == Completed && v.reversal == None && v.paid)
        || (v.row == Some(PayoutFailed) && v.status == Reversed && v.reversal.Some? && Unpaid(v, f)))
  }

  /** What a request at phase `p` may find in the store. */
  predicate Fits(v: View, p: Phase, f: Faults) {
    match p
    case Recheck(op) => v.Present? && v.op == op
    case Held(op) => Untouched(v, f) && v.op == op
    case Accepted(op) => v.Present? && v == Present(op, Pending, None, None, v.asked, true) && AskedTimes(v, f, 1)
    case Declined(op) =>
      v.Present? && v == Present(op, Pending, None, None, v.asked, v.paid) && Unpaid(v, f) && AskedTimes(v, f, 1)
    case Confirmed(op) => v.Present? && v == Present(op, Completed, None, None, v.asked, true) && AskedTimes(v, f, 1)
    case Refunded(op, rev) =>
      && v.Present? && v == Present(op, Reversed, Some(rev), None, v.asked, v.paid)
      && Unpaid(v, f) && AskedTimes(v, f, 1)
    case Done(PaidOut(op, status)) => v.Present? && v.op == op && v.row == Some(status)
    case _ => true
  }

  predicate NoneBusy(requests: seq<Request>, id: RequestId) {
    forall i :: 0 <= i < |requests| ==> !Busy(requests[i], id)
  }

  predicate OneBusy(requests: seq<Request>, id: RequestId) {
    forall i, j :: 0 <= i < j < |requests| ==> !Busy(requests[i], id) || !Busy(requests[j], id)
  }

  predicate AtRest(v: View, f: Faults) {
    v.Absent? || Settled(v, f) || (f.crashes != {} && Untouched(v, f))
  }

  /** One request is at work at most, each fits what the store shows, and at rest the payout is settled or untouched. */
  predicate OrderlyIn(v: View, requests: seq<Request>, id: RequestId, f: Faults) {
    && (forall i :: 0 <= i < |requests| && Mine(requests[i], id) ==> Fits(v, requests[i].phase, f))
    && OneBusy(requests, id)
    && (NoneBusy(requests, id) ==> AtRest(v, f))
  }

  ghost predicate Orderly(s: State, id: RequestId, f: Faults) {
    |s.book.status| == |s.book.journal| && OrderlyIn(ViewOf(s, id), s.requests, id, f)
  }

  // ------------------------------------------------------------ one step keeps it

  /** A request at work leads to a view its next phase fits; only then does a view with no row change. */
  lemma WorkMoves(v: View, v': View, p: Phase, p': Phase, f: Faults, reply: Reply)
    requires ViewAfter(v, v', p, p', true, reply) && PointOf(p).Some? && Fits(v, p, f)
    requires p.Held? && reply.Lost? ==> f.lostAnswers
    ensures v.row == None && v'.Present? && v'.op == v.op && Fits(v', p', f)
    ensures PointOf(p').Some? || Settled(v', f)
  {
  }

  /** Outside that, the view changes only with the reserve itself. */
  lemma OtherMoves(v: View, v': View, p: Phase, p': Phase, f: Faults, reply: Reply)
    requires ViewAfter(v, v', p, p', true, reply) && PointOf(p).None? && Fits(v, p, f)
    requires p.Recheck? ==> AtRest(v, f)
    ensures Fits(v', p', f)
    ensures v' == v || (v.Absent? && PointOf(p').Some?)
    ensures PointOf(p').Some? ==> v.Absent? || p.Recheck?
  {
  }

  lemma OthersStay(v: View, v': View, p: Phase, p': Phase, reply: Reply)
    requires ViewAfter(v, v', p, p', false, reply)
    ensures v' == v
  {
  }

  lemma OrderlyMove(v: View, v': View, requests: seq<Request>, i: nat, r': Request, id: RequestId, f: Faults,
                    reply: Reply)
    requires i < |requests| && r'.job == requests[i].job && OrderlyIn(v, requests, id, f)
    requires ViewAfter(v, v', requests[i].phase, r'.phase, Mine(requests[i], id), reply)
    requires Mine(requests[i], id) && requests[i].phase.Held? && reply.Lost? ==> f.lostAnswers
    requires Mine(requests[i], id) && requests[i].phase.Recheck? ==> NoneBusy(requests, id)
    ensures OrderlyIn(v', requests[i := r'], id, f)
  {
    var r, after := requests[i], requests[i := r'];
    forall j | 0 <= j < |requests| && j != i ensures after[j] == requests[j] {
    }
    if !Mine(r, id) {
      OthersStay(v, v', r.phase, r'.phase, reply);
      assert forall j :: 0 <= j < |after| ==> Busy(after[j], id) == Busy(requests[j], id);
    } else {
      assert Fits(v, r.phase, f);
      hide ViewAfter;
      if PointOf(r.phase).Some? {
        WorkMoves(v, v', r.phase, r'.phase, f, reply);
        assert Busy(r, id);
      } else {
        OtherMoves(v, v', r.phase, r'.phase, f, reply);
        if PointOf(r'.phase).Some? && v.Absent? {
          assert NoneBusy(requests, id) by {
            forall j | 0 <= j < |requests| ensures !Busy(requests[j], id) {
              assert Mine(requests[j], id) ==> Fits(v, requests[j].phase, f);
            }
          }
        }
        assert !Busy(r, id);
      }
      MovedFits(v, v', requests, i, r', id, f);
      MovedBusy(requests, i, r', id);
      RestAfter(v, v', requests, i, r', id, f);
    }
  }

  lemma MovedFits(v: View, v': View, requests: seq<Request>, i: nat, r': Request, id: RequestId, f: Faults)
    requires i < |requests| && r'.job == requests[i].job && OrderlyIn(v, requests, id, f) && Fits(v', r'.phase, f)
    requires v' == v || v.Absent? || (Busy(requests[i], id) && v.row == None && v'.Present? && v'.op == v.op)
    ensures var after := requests[i := r'];
            forall j :: 0 <= j < |after| && Mine(after[j], id) ==> Fits(v', after[j].phase, f)
  {
    forall j | 0 <= j < |requests| && j != i && Mine(requests[j], id) ensures Fits(v', requests[j].phase, f) {
      assert Fits(v, requests[j].phase, f);
      assert Busy(requests[i], id) ==> !Busy(requests[j], id);
    }
  }

  lemma MovedBusy(requests: seq<Request>, i: nat, r': Request, id: RequestId)
    requires i < |requests| && r'.job == requests[i].job && OneBusy(requests, id)
    requires Busy(r', id) ==> Busy(requests[i], id) || NoneBusy(requests, id)
    ensures OneBusy(requests[i := r'], id)
  {
  }

  lemma RestAfter(v: View, v': View, requests: seq<Request>, i: nat, r': Request, id: RequestId, f: Faults)
    requires i < |requests| && r'.job == requests[i].job && OrderlyIn(v, requests, id, f)
    requires Busy(requests[i], id) ==> Busy(r', id) || Settled(v', f)
    requires !Busy(requests[i], id) ==> v' == v || Busy(r', id)
    ensures NoneBusy(requests[i := r'], id) ==> AtRest(v', f)
  {
    var after := requests[i := r'];
    if NoneBusy(after, id) {
      assert !Busy(after[i], id);
      forall j | 0 <= j < |requests| && j != i ensures !Busy(requests[j], id) {
        assert !Busy(after[j], id);
      }
    }
  }

  lemma OrderlyAdvance(cfg: Config, s: State, i: nat, reply: Reply, id: RequestId, f: Faults)
    requires Core(cfg, s) && RowsOk(s) && i < |s.requests| && Orderly(s, id, f) && !f.overlap
    requires Permits(f, id, s, Step(i, reply))
    ensures Orderly(Advance(cfg, s, i, reply), id, f)
  {
    var t := Advance(cfg, s, i, reply);
    StepView(cfg, s, i, reply, id);
    AdvanceKeepsJob(cfg, s, i, reply);
    hide Advance, Core, BookOk, RequestOk, RowsOk, ViewFrom, ViewAfter, OrderlyIn, Fits;
    if Mine(s.requests[i], id) && s.requests[i].phase.Recheck? {
      assert !LooksTooSoon(s, i, id);
      assert NoneBusy(s.requests, id);
    }
    assert !LosesAnswer(s, i, reply, id) || f.lostAnswers;
    OrderlyMove(ViewOf(s, id), ViewOf(t, id), s.requests, i, t.requests[i], id, f, reply);
  }

  lemma OrderlyCrash(v: View, requests: seq<Request>, i: nat, id: RequestId, f: Faults)
    requires i < |requests| && OrderlyIn(v, requests, id, f) && Harmless(f)
    requires Busy(requests[i], id) ==> PointOf(requests[i].phase).value in f.crashes
    ensures OrderlyIn(v, requests[i := requests[i].(phase := Stopped(Died))], id, f)
  {
    var after := requests[i := requests[i].(phase := Stopped(Died))];
    assert Mine(requests[i], id) ==> Fits(v, requests[i].phase, f);
    assert forall j :: 0 <= j < |after| && j != i ==> after[j] == requests[j];
    if NoneBusy(after, id) {
      assert forall j :: 0 <= j < |requests| && j != i ==> !Busy(after[j], id);
      assert !Busy(requests[i], id) ==> NoneBusy(requests, id);
    }
  }

  lemma OrderlySubmit(v: View, requests: seq<Request>, r: Request, id: RequestId, f: Faults)
    requires OrderlyIn(v, requests, id, f) && r.phase == Started
    ensures OrderlyIn(v, requests + [r], id, f)
  {
    var after := requests + [r];
    assert forall j :: 0 <= j < |requests| ==> after[j] == requests[j];
    if NoneBusy(after, id) {
      assert forall j :: 0 <= j < |requests| ==> !Busy(after[j], id);
    }
  }

  lemma {:induction false} OrderlyNext(cfg: Config, s: State, e: Event, id: RequestId, f: Faults)
    requires Core(cfg, s) && RowsOk(s) && Orderly(s, id, f) && Harmless(f) && Permits(f, id, s, e)
    ensures Orderly(Next(cfg, s, e), id, f)
  {
    var t := Next(cfg, s, e);
    hide Advance, BookOk, RequestOk, RowsOk, ViewFrom, Topup.Commit, OrderlyIn;
    match e
    case Step(i, reply) =>
      if i < |s.requests| {
        OrderlyAdvance(cfg, s, i, reply, id, f);
      }
    case TopupEvent(event) => TopupView(cfg, s, event, id);
    case Crash(i) =>
      if i < |s.requests| && !s.requests[i].phase.Done? {
        OrderlyCrash(ViewOf(s, id), s.requests, i, id, f);
      }
    case Submit(job) =>
      if t.requests != s.requests {
        OrderlySubmit(ViewOf(s, id), s.requests, t.requests[|s.requests|], id, f);
      }
    case _ =>
  }

  lemma StartOrderly(id: RequestId, f: Faults)
    ensures Orderly(INITIAL, id, f)
  {
  }

  lemma KeptAt(f: Faults, id: RequestId, run: seq<State>, events: seq<Event>, k: nat)
    requires |run| == |events| + 1 && KeepsRule(Under(f, id), run, events) && k < |events|
    ensures Permits(f, id, run[k], events[k])
  {
    assert Under(f, id)(run[k], events[k]);
  }

  lemma {:induction false} RunOrderly(cfg: Config, run: seq<State>, events: seq<Event>, n: nat, id: RequestId,
                                      f: Faults)
    requires ConfigOk(cfg) && IsRun(cfg, run, events) && KeepsRule(Under(f, id), run, events) && n < |run|
    requires Harmless(f)
    ensures Orderly(run[n], id, f)
  {
    hide Next, Core, RowsOk, Orderly, Permits, Under, KeepsRule;
    if n == 0 {
      StartOrderly(id, f);
    } else {
      RunOrderly(cfg, run, events, n - 1, id, f);
      RunCore(cfg, run, events, n - 1);
      RunRowsOk(cfg, run, events, n - 1);
      KeptAt(f, id, run, events, n - 1);
      OrderlyNext(cfg, run[n - 1], events[n - 1], id, f);
    }
  }

  // ------------------------------------------------- what was asked and recorded

  /** A payer and an amount are those of a posting. */
  predicate Matches(p: Posting, user: UserId, amount: int) {
    p.legs != [] && p.legs[0].account == Wallet(user) && p.legs[0].amount == amount
  }

  ghost predicate CallsMatch(journal: seq<Posting>, calls: seq<PayCall>, op: OpId)
    requires op < |journal|
  {
    forall c :: c in calls && c.operation == op ==> Matches(journal[op], c.user, Minor(c.amountHTG))
  }

  ghost predicate RowsMatch(journal: seq<Posting>, rows: seq<PayoutRow>, op: OpId)
    requires op < |journal|
  {
    forall row :: row in rows && row.operation == op ==> Matches(journal[op], row.user, row.amount)
  }

  /** MonCash was asked for, and the row records, what the reserve took and from whom. */
  ghost predicate AsReserved(s: State, id: RequestId) {
    var reserve := FindKey(s.book.journal, PayoutReserve(id));
    reserve.Some? ==>
      CallsMatch(s.book.journal, s.monCashCalls, reserve.value) && RowsMatch(s.book.journal, s.rows, reserve.value)
  }

  /** Whoever is at work on the reserve wrote it. */
  predicate WorkedByAuthor(requests: seq<Request>, id: RequestId) {
    forall i :: 0 <= i < |requests| && Busy(requests[i], id) ==> requests[i].posted == ReserveOf(requests[i].phase)
  }

  /** What a step of request `r` may ask and record. */
  ghost predicate AsksForItself(s: State, t: State, r: Request) {
    && (t.monCashCalls == s.monCashCalls
        || exists paid :: r.phase.Held?
             && t.monCashCalls == s.monCashCalls + [PayCall(r.phase.op, r.job.payer, r.job.amountHTG, paid)])
    && (t.rows == s.rows
        || exists row :: (r.phase.Confirmed? || r.phase.Refunded?) && t.rows == s.rows + [row]
             && row.operation == r.phase.op && row.user == r.job.payer && row.amount == Amount(r.job))
  }

  lemma StepAsks(cfg: Config, s: State, i: nat, reply: Reply)
    requires i < |s.requests|
    ensures AsksForItself(s, Advance(cfg, s, i, reply), s.requests[i])
  {
    hide Post, Reverse, Balance, DebitsSince, DailyCap, MonthlyCap, RowFor;
  }

  /** A request comes to work on a reserve by writing it, or by finding it with no row; at work, it keeps it. */
  ghost predicate ComesToWork(s: State, r: Request, r': Request) {
    && r'.job == r.job
    && (PointOf(r'.phase).Some? ==>
          || (r.phase.GatesOk? && r'.posted == ReserveOf(r'.phase))
          || (r.phase.Recheck? && RowFor(s.rows, r.phase.op).None?)
          || (PointOf(r.phase).Some? && r'.posted == r.posted && ReserveOf(r'.phase) == ReserveOf(r.phase)))
  }

  lemma GateWork(cfg: Config, s: State, i: nat, reply: Reply)
    requires i < |s.requests| && BeforePost(s.requests[i].phase)
    ensures |Advance(cfg, s, i, reply).requests| == |s.requests|
    ensures ComesToWork(s, s.requests[i], Advance(cfg, s, i, reply).requests[i])
  {
    hide Post, Balance, DebitsSince, DailyCap, MonthlyCap;
  }

  lemma SagaWork(cfg: Config, s: State, i: nat, reply: Reply)
    requires i < |s.requests| && !BeforePost(s.requests[i].phase)
    ensures |Advance(cfg, s, i, reply).requests| == |s.requests|
    ensures ComesToWork(s, s.requests[i], Advance(cfg, s, i, reply).requests[i])
  {
    hide Reverse, RowFor;
  }

  lemma StepWork(cfg: Config, s: State, i: nat, reply: Reply)
    requires i < |s.requests|
    ensures |Advance(cfg, s, i, reply).requests| == |s.requests|
    ensures ComesToWork(s, s.requests[i], Advance(cfg, s, i, reply).requests[i])
  {
    hide Advance, ComesToWork;
    if BeforePost(s.requests[i].phase) {
      GateWork(cfg, s, i, reply);
    } else {
      SagaWork(cfg, s, i, reply);
    }
  }

  /** The reserve of an id, once there, stays the same posting; a new one is at the journal's end. */
  lemma ReserveStays(s: State, t: State, id: RequestId)
    requires s.book.journal <= t.book.journal
    ensures var before, after := FindKey(s.book.journal, PayoutReserve(id)), FindKey(t.book.journal, PayoutReserve(id));
            if before.Some? then after == before else after.Some? ==> after.value >= |s.book.journal|
  {
    var n, key := |s.book.journal|, PayoutReserve(id);
    assert t.book.journal[..n] == s.book.journal;
    if FindKey(s.book.journal, key).Some? {
      FindKeyPrefix(t.book.journal, n, key);
    }
  }

  lemma AsReservedStep(cfg: Config, s: State, t: State, r: Request, id: RequestId)
    requires BookOk(s.book, s.now) && RowsOk(s) && AsReserved(s, id) && AsksForItself(s, t, r)
    requires s.book.journal <= t.book.journal && RequestOk(cfg, s, r)
    requires Busy(r, id) ==> r.posted == ReserveOf(r.phase)
    ensures AsReserved(t, id)
  {
    ReserveStays(s, t, id);
    var reserve := FindKey(s.book.journal, PayoutReserve(id));
    if PointOf(r.phase).Some? {
      OwnReserve(cfg, s, r, id);
    }
    hide BookOk;
    if reserve.Some? && PointOf(r.phase).Some? && ReserveOf(r.phase) == reserve {
      assert Busy(r, id);
      assert Matches(s.book.journal[reserve.value], r.job.payer, Amount(r.job));
    }
  }

  lemma AsReservedGrows(s: State, t: State, id: RequestId)
    requires RowsOk(s) && AsReserved(s, id) && s.book.journal <= t.book.journal
    requires t.monCashCalls == s.monCashCalls && t.rows == s.rows
    ensures AsReserved(t, id)
  {
    ReserveStays(s, t, id);
  }

  /** With no deaths at work, a repeated request finds the row, and only the author ever works. */
  lemma RecheckFindsRow(cfg: Config, s: State, i: nat, id: RequestId, f: Faults)
    requires Core(cfg, s) && Orderly(s, id, f) && i < |s.requests| && f.crashes == {}
    requires Mine(s.requests[i], id) && s.requests[i].phase.Recheck? && NoneBusy(s.requests, id)
    ensures RowFor(s.rows, s.requests[i].phase.op).Some?
  {
    assert Fits(ViewOf(s, id), s.requests[i].phase, f);
    hide Core;
  }

  lemma ReservedAdvance(cfg: Config, s: State, i: nat, reply: Reply, id: RequestId, f: Faults)
    requires ConfigOk(cfg) && Core(cfg, s) && RowsOk(s) && i < |s.requests|
    requires Orderly(s, id, f) && AsReserved(s, id) && WorkedByAuthor(s.requests, id)
    requires Permits(f, id, s, Step(i, reply)) && !f.overlap && f.crashes == {}
    ensures var t := Advance(cfg, s, i, reply); AsReserved(t, id) && WorkedByAuthor(t.requests, id)
  {
    var t, r := Advance(cfg, s, i, reply), s.requests[i];
    assert BookOk(s.book, s.now) && RequestOk(cfg, s, r);
    hide Core, RowsOk, BookOk, RequestOk, Orderly, AsReserved, AsksForItself, ComesToWork, Advance;
    AdvanceCore(cfg, s, i, reply);
    StepAsks(cfg, s, i, reply);
    StepWork(cfg, s, i, reply);
    AdvanceKeepsJob(cfg, s, i, reply);
    if Mine(r, id) && r.phase.Recheck? {
      assert !LooksTooSoon(s, i, id);
      RecheckFindsRow(cfg, s, i, id, f);
    }
    assert Busy(r, id) ==> r.posted == ReserveOf(r.phase);
    AsReservedStep(cfg, s, t, r, id);
    AuthorStays(s, t, i, id);
  }

  lemma AuthorStays(s: State, t: State, i: nat, id: RequestId)
    requires i < |s.requests| && |t.requests| == |s.requests| && t.requests == s.requests[i := t.requests[i]]
    requires WorkedByAuthor(s.requests, id) && ComesToWork(s, s.requests[i], t.requests[i])
    requires Mine(s.requests[i], id) && s.requests[i].phase.Recheck? ==> RowFor(s.rows, s.requests[i].phase.op).Some?
    ensures WorkedByAuthor(t.requests, id)
  {
    forall j | 0 <= j < |t.requests| && Busy(t.requests[j], id)
      ensures t.requests[j].posted == ReserveOf(t.requests[j].phase)
    {
      if j != i {
        assert t.requests[j] == s.requests[j];
      } else {
        assert Busy(s.requests[i], id) ==> s.requests[i].posted == ReserveOf(s.requests[i].phase);
      }
    }
  }

  lemma {:induction false} ReservedNext(cfg: Config, s: State, e: Event, id: RequestId, f: Faults)
    requires ConfigOk(cfg) && Core(cfg, s) && RowsOk(s)
    requires Orderly(s, id, f) && AsReserved(s, id) && WorkedByAuthor(s.requests, id)
    requires Permits(f, id, s, e) && !f.overlap && f.crashes == {}
    ensures AsReserved(Next(cfg, s, e), id) && WorkedByAuthor(Next(cfg, s, e).requests, id)
  {
    var t := Next(cfg, s, e);
    hide Advance, Core, BookOk, RequestOk, RowsOk, Orderly, AsReserved, Topup.Commit;
    if e.Step? {
      if e.request < |s.requests| {
        ReservedAdvance(cfg, s, e.request, e.reply, id, f);
      }
    } else {
      assert s.book.journal <= t.book.journal by { NextCore(cfg, s, e); }
      AsReservedGrows(s, t, id);
      forall j | 0 <= j < |t.requests| && Busy(t.requests[j], id)
        ensures j < |s.requests| && t.requests[j] == s.requests[j]
      {
      }
    }
  }

  lemma {:induction false} RunReserved(cfg: Config, run: seq<State>, events: seq<Event>, n: nat, id: RequestId,
                                       f: Faults)
    requires ConfigOk(cfg) && IsRun(cfg, run, events) && KeepsRule(Under(f, id), run, events) && n < |run|
    requires !f.overlap && f.crashes == {}
    ensures AsReserved(run[n], id) && WorkedByAuthor(run[n].requests, id)
  {
    hide Next, Core, RowsOk, Orderly, Permits, Under, KeepsRule;
    if n == 0 {
    } else {
      hide AsReserved, WorkedByAuthor;
      RunReserved(cfg, run, events, n - 1, id, f);
      RunOrderly(cfg, run, events, n - 1, id, f);
      RunCore(cfg, run, events, n - 1);
      RunRowsOk(cfg, run, events, n - 1);
      KeptAt(f, id, run, events, n - 1);
      ReservedNext(cfg, run[n - 1], events[n - 1], id, f);
    }
  }

  // --------------------------------------------------------------- the outcomes

  function Reserve(s: State, id: RequestId): Option<OpId> {
    FindKey(s.book.journal, PayoutReserve(id))
  }

  ghost predicate AskedOnce(s: State, id: RequestId) {
    Reserve(s, id).Some? ==> Asked(s.monCashCalls, Reserve(s, id).value) <= 1
  }

  ghost predicate NotPaidAndGivenBack(s: State, id: RequestId) {
    Reserve(s, id).Some? ==>
      !PaidBy(s.monCashCalls, Reserve(s, id).value) || !HasReversal(s.book.journal, Reserve(s, id).value)
  }

  /**
   Row, operation and reversal tell one story: kept and paid by MonCash, or given back with every wallet
   where it was.
   */
  ghost predicate KeptOrGivenBack(s: State, id: RequestId, op: OpId) {
    && op < |s.book.status|
    && ((&& RowStatus(s.rows, op) == Some(PayoutCompleted) && s.book.status[op] == Completed
         && !HasReversal(s.book.journal, op) && PaidBy(s.monCashCalls, op))
        || (&& RowStatus(s.rows, op) == Some(PayoutFailed) && s.book.status[op] == Reversed
            && HasReversal(s.book.journal, op)
            && forall u: UserId :: Sum(s.book.journal, OfPayout(id, Wallet(u), HTG)) == 0))
  }

  /** And what was given back was not paid. */
  ghost predicate PaidOrGivenBack(s: State, id: RequestId, op: OpId) {
    KeptOrGivenBack(s, id, op) && (HasReversal(s.book.journal, op) ==> !PaidBy(s.monCashCalls, op))
  }

  ghost predicate ClosedAtRest(s: State, id: RequestId) {
    Reserve(s, id).Some? && NoneBusy(s.requests, id) ==> KeptOrGivenBack(s, id, Reserve(s, id).value)
  }

  ghost predicate SettledAtRest(s: State, id: RequestId) {
    Reserve(s, id).Some? && NoneBusy(s.requests, id) ==> PaidOrGivenBack(s, id, Reserve(s, id).value)
  }

  /** Every answer given to a request for `id` is the outcome on record for its reserve. */
  ghost predicate AnswersRecorded(s: State, id: RequestId) {
    forall i :: 0 <= i < |s.requests| && Mine(s.requests[i], id) && s.requests[i].phase.Done? ==>
      && Reserve(s, id).Some? && s.requests[i].phase.answer.PaidOut?
      && s.requests[i].phase.answer.operation == Reserve(s, id).value
      && RowStatus(s.rows, Reserve(s, id).value) == Some(s.requests[i].phase.answer.status)
  }

  lemma ViewPresent(s: State, id: RequestId)
    requires BookOk(s.book, s.now)
    ensures Reserve(s, id).None? <==> ViewOf(s, id).Absent?
    ensures Reserve(s, id).Some? ==>
              var op, v := Reserve(s, id).value, ViewOf(s, id);
              && v.op == op && v.status == s.book.status[op] && v.row == RowStatus(s.rows, op)
              && v.asked == Asked(s.monCashCalls, op) && v.paid == PaidBy(s.monCashCalls, op)
              && (v.reversal.Some? <==> HasReversal(s.book.journal, op))
  {
    if Reserve(s, id).Some? && HasReversal(s.book.journal, Reserve(s, id).value) {
      var op := Reserve(s, id).value;
      var j :| 0 <= j < |s.book.journal| && s.book.journal[j].reversalOf == Some(op);
      assert Shape(s.book.journal[j]);
    }
  }

  lemma GivenBackIsNothing(s: State, id: RequestId, op: OpId)
    requires BookOk(s.book, s.now) && Reserve(s, id) == Some(op) && HasReversal(s.book.journal, op)
    ensures forall u: UserId :: Sum(s.book.journal, OfPayout(id, Wallet(u), HTG)) == 0
  {
    ViewPresent(s, id);
    forall u: UserId ensures Sum(s.book.journal, OfPayout(id, Wallet(u), HTG)) == 0 {
      PayoutEffect(s.book, s.now, id, Wallet(u), HTG);
    }
  }

  lemma DoneAnswers(cfg: Config, s: State, r: Request)
    requires RequestOk(cfg, s, r) && r.job.purpose.CashOut? && r.phase.Done?
    ensures r.phase.answer.PaidOut?
  {
  }

  // ---------------------------------------------- answers, whatever goes wrong

  /** Answers given stand on record. */
  ghost predicate AnswersStand(requests: seq<Request>, rows: seq<PayoutRow>) {
    forall i :: 0 <= i < |requests| && requests[i].phase.Done? && requests[i].phase.answer.PaidOut? ==>
      RowStatus(rows, requests[i].phase.answer.operation) == Some(requests[i].phase.answer.status)
  }

  /** A row, once there, is what every later look finds. */
  lemma RowStands(journal: seq<Posting>, rows: seq<PayoutRow>, rows': seq<PayoutRow>, op: OpId)
    requires RowsGrow(journal, rows, rows') && RowStatus(rows, op).Some?
    ensures RowStatus(rows', op) == RowStatus(rows, op)
  {
    if rows' != rows {
      assert rows'[..|rows|] == rows;
    }
  }

  /** An answer just given is on record. */
  ghost predicate AnswerOnRecord(rows: seq<PayoutRow>, p: Phase) {
    p.Done? && p.answer.PaidOut? ==> RowStatus(rows, p.answer.operation) == Some(p.answer.status)
  }

  lemma GateAnswers(cfg: Config, s: State, i: nat, reply: Reply)
    requires i < |s.requests| && BeforePost(s.requests[i].phase)
    ensures |Advance(cfg, s, i, reply).requests| == |s.requests|
    ensures AnswerOnRecord(Advance(cfg, s, i, reply).rows, Advance(cfg, s, i, reply).requests[i].phase)
  {
    hide Post, Balance, DebitsSince, DailyCap, MonthlyCap, RowStatus;
  }

  lemma SavedAnswer(s: State, i: nat, op: OpId, status: PayoutStatus, reversal: Option<OpId>)
    requires i < |s.requests|
    ensures var t := SaveRow(s, i, op, status, reversal);
            |t.requests| == |s.requests| && AnswerOnRecord(t.rows, t.requests[i].phase)
  {
    if RowFor(s.rows, op).None? {
      var row := PayoutRow(op, s.requests[i].job.payer, Amount(s.requests[i].job), status, reversal);
      assert (s.rows + [row])[|s.rows|] == row;
    }
  }

  lemma LookedUpAnswer(s: State, i: nat, op: OpId)
    requires i < |s.requests|
    ensures var t := LookUpRow(s, i, op);
            |t.requests| == |s.requests| && AnswerOnRecord(t.rows, t.requests[i].phase)
  {
  }

  lemma SagaAnswers(cfg: Config, s: State, i: nat, reply: Reply)
    requires i < |s.requests| && !BeforePost(s.requests[i].phase) && !s.requests[i].phase.Done?
    ensures |Advance(cfg, s, i, reply).requests| == |s.requests|
    ensures AnswerOnRecord(Advance(cfg, s, i, reply).rows, Advance(cfg, s, i, reply).requests[i].phase)
  {
    hide Reverse, RowStatus, SaveRow, LookUpRow;
    match s.requests[i].phase
    case Recheck(op) => LookedUpAnswer(s, i, op);
    case Confirmed(op) => SavedAnswer(s, i, op, PayoutCompleted, None);
    case Refunded(op, reversal) => SavedAnswer(s, i, op, PayoutFailed, Some(reversal));
    case _ =>
  }

  lemma AnswerGiven(cfg: Config, s: State, i: nat, reply: Reply)
    requires i < |s.requests| && !s.requests[i].phase.Done?
    ensures |Advance(cfg, s, i, reply).requests| == |s.requests|
    ensures AnswerOnRecord(Advance(cfg, s, i, reply).rows, Advance(cfg, s, i, reply).requests[i].phase)
  {
    hide Advance, AnswerOnRecord;
    if BeforePost(s.requests[i].phase) {
      GateAnswers(cfg, s, i, reply);
    } else {
      SagaAnswers(cfg, s, i, reply);
    }
  }

  lemma {:induction false} AnswersNext(cfg: Config, s: State, e: Event)
    requires Core(cfg, s) && AnswersStand(s.requests, s.rows)
    ensures AnswersStand(Next(cfg, s, e).requests, Next(cfg, s, e).rows)
  {
    var t := Next(cfg, s, e);
    RowsStep(cfg, s, e);
    hide Advance, Core, RowStatus, Topup.Commit, RowsGrow, Inadmissible;
    if e.Step? && e.request < |s.requests| {
      AdvanceKeepsJob(cfg, s, e.request, e.reply);
      if !s.requests[e.request].phase.Done? {
        AnswerGiven(cfg, s, e.request, e.reply);
      } else {
        assert t == s by { DoneStays(cfg, s, e.request, e.reply); }
      }
    }
    forall j | 0 <= j < |t.requests| && t.requests[j].phase.Done? && t.requests[j].phase.answer.PaidOut?
      ensures RowStatus(t.rows, t.requests[j].phase.answer.operation) == Some(t.requests[j].phase.answer.status)
    {
      if j < |s.requests| && t.requests[j] == s.requests[j] {
        RowStands(s.book.journal, s.rows, t.rows, s.requests[j].phase.answer.operation);
      }
    }
  }

  lemma DoneStays(cfg: Config, s: State, i: nat, reply: Reply)
    requires i < |s.requests| && s.requests[i].phase.Done?
    ensures Advance(cfg, s, i, reply) == s
  {
  }

  lemma {:induction false} RunAnswers(cfg: Config, run: seq<State>, events: seq<Event>, n: nat)
    requires ConfigOk(cfg) && IsRun(cfg, run, events) && n < |run|
    ensures AnswersStand(run[n].requests, run[n].rows)
  {
    if n == 0 {
    } else {
      RunAnswers(cfg, run, events, n - 1);
      RunCore(cfg, run, events, n - 1);
      hide Next, Core, AnswersStand;
      AnswersNext(cfg, run[n - 1], events[n - 1]);
    }
  }

  /**
   In every run, whatever overlaps and whoever dies, every answer ever given to a payout request is the
   recorded outcome.
   */
  lemma {:induction false} EveryAnswerRecorded(cfg: Config, run: seq<State>, events: seq<Event>, n: nat, id: RequestId)
    requires ConfigOk(cfg) && IsRun(cfg, run, events) && n < |run|
    ensures AnswersRecorded(run[n], id)
  {
    RunAnswers(cfg, run, events, n);
    RunCore(cfg, run, events, n);
    var s := run[n];
    hide IsRun;
    forall i | 0 <= i < |s.requests| && Mine(s.requests[i], id) && s.requests[i].phase.Done?
      ensures Reserve(s, id).Some? && s.requests[i].phase.answer.PaidOut?
              && s.requests[i].phase.answer.operation == Reserve(s, id).value
    {
      assert RequestOk(cfg, s, s.requests[i]);
      DoneAnswers(cfg, s, s.requests[i]);
      OwnReserve(cfg, s, s.requests[i], id);
    }
  }

  /** What the view of an orderly payout cannot show. */
  lemma OrderlyFacts(v: View, requests: seq<Request>, id: RequestId, f: Faults)
    requires OrderlyIn(v, requests, id, f) && v.Present?
    ensures f.lostAnswers || !v.paid || v.reversal.None?
    ensures AtDeclined in f.crashes || v.asked <= 1
    ensures f.crashes == {} && NoneBusy(requests, id) ==> Settled(v, f)
  {
    if i :| 0 <= i < |requests| && Busy(requests[i], id) {
      assert Fits(v, requests[i].phase, f);
    } else {
      assert NoneBusy(requests, id);
    }
  }

  /**
   In every run in which no request looks for the row while another is at work, and none dies between
   MonCash's yes, or the reversal, and its row: if no answer is lost, a payout is never both paid and given
   back; and if none dies on a refusal, MonCash is asked at most once. If none dies at work at all, then
   whenever none is at work the payout is kept (row and operation COMPLETED, no reversal, paid) or given
   back (row FAILED, operation REVERSED, nothing moved), the latter unpaid if no answer is lost; and MonCash
   was asked for, and the row records, exactly what the reserve took.
   */
  lemma {:induction false} OrderlyPayout(cfg: Config, run: seq<State>, events: seq<Event>, n: nat, id: RequestId,
                                         f: Faults)
    requires ConfigOk(cfg) && IsRun(cfg, run, events) && KeepsRule(Under(f, id), run, events) && n < |run|
    requires Harmless(f)
    ensures !f.lostAnswers ==> NotPaidAndGivenBack(run[n], id)
    ensures AtDeclined !in f.crashes ==> AskedOnce(run[n], id)
    ensures f.crashes == {} ==> ClosedAtRest(run[n], id) && AsReserved(run[n], id)
    ensures f.crashes == {} && !f.lostAnswers ==> SettledAtRest(run[n], id)
  {
    RunOrderly(cfg, run, events, n, id, f);
    RunCore(cfg, run, events, n);
    if f.crashes == {} {
      RunReserved(cfg, run, events, n, id, f);
    }
    hide IsRun, KeepsRule, AsReserved;
    OrderlyOutcome(cfg, run[n], id, f);
  }

  lemma OrderlyOutcome(cfg: Config, s: State, id: RequestId, f: Faults)
    requires Core(cfg, s) && Orderly(s, id, f)
    ensures !f.lostAnswers ==> NotPaidAndGivenBack(s, id)
    ensures AtDeclined !in f.crashes ==> AskedOnce(s, id)
    ensures f.crashes == {} ==> ClosedAtRest(s, id)
    ensures f.crashes == {} && !f.lostAnswers ==> SettledAtRest(s, id)
  {
    ViewPresent(s, id);
    if Reserve(s, id).Some? {
      if HasReversal(s.book.journal, Reserve(s, id).value) {
        GivenBackIsNothing(s, id, Reserve(s, id).value);
      }
      hide Core, BookOk, RequestOk, ViewFrom, RowStatus, PaidBy, Asked, HasReversal, Reserve;
      OrderlyFacts(ViewOf(s, id), s.requests, id, f);
    }
  }
}
