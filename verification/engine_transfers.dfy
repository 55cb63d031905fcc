/**
 What becomes of one transfer request id: however requests that share it interleave or die, one of them at
 most moves the money.
 */
module EngineTransfers {
  import opened Common
  import opened Ledger
  import opened Engine
  import opened EngineCore
  import opened EngineOtp
  import Topup

  /** What a request's answer says it wrote or found. */
  ghost predicate SentOk(journal: seq<Posting>, r: Request) {
    r.phase.Done? && r.phase.answer.Sent? ==>
      && r.job.purpose.SendTo?
      && r.phase.answer.operation < |journal|
      && journal[r.phase.answer.operation].key == KeyOf(r.job)
      && r.posted == if r.phase.answer.idempotent then None else Some(r.phase.answer.operation)
  }

  /** No two requests wrote the same operation, and none has written before its post. */
  predicate AuthorsDistinct(requests: seq<Request>) {
    forall i, j :: 0 <= i < j < |requests| && requests[i].posted.Some? ==> requests[i].posted != requests[j].posted
  }

  predicate PostedOnce(requests: seq<Request>) {
    forall i :: 0 <= i < |requests| && BeforePost(requests[i].phase) ==> requests[i].posted == None
  }

  ghost predicate SentInv(s: State) {
    && (forall i :: 0 <= i < |s.requests| ==> SentOk(s.book.journal, s.requests[i]))
    && AuthorsDistinct(s.requests) && PostedOnce(s.requests)
    && (forall i :: 0 <= i < |s.requests| && s.requests[i].posted.Some? ==> s.requests[i].posted.value < |s.book.journal|)
  }

  /** How a step bears on what a request wrote and was told. */
  ghost predicate WroteStep(s: State, t: State, r: Request, r': Request) {
    && r'.job == r.job
    && SentOk(t.book.journal, r')
    && (BeforePost(r'.phase) ==> BeforePost(r.phase) && r'.posted == r.posted)
    && (r'.posted == r.posted || (r.phase.GatesOk? && r'.posted == Some(|s.book.journal|)
                                  && |t.book.journal| == |s.book.journal| + 1))
  }

  lemma PostWrote(cfg: Config, s: State, i: nat, reply: Reply)
    requires Core(cfg, s) && SentInv(s) && i < |s.requests| && s.requests[i].phase.GatesOk?
    ensures |Advance(cfg, s, i, reply).requests| == |s.requests|
    ensures WroteStep(s, Advance(cfg, s, i, reply), s.requests[i], Advance(cfg, s, i, reply).requests[i])
  {
    assert RequestOk(cfg, s, s.requests[i]);
    PostAnswers(s.book, s.requests[i].job, s.now);
    hide Post, Core;
  }

  lemma GateWrote(cfg: Config, s: State, i: nat, reply: Reply)
    requires i < |s.requests| && BeforePost(s.requests[i].phase) && !s.requests[i].phase.GatesOk?
    ensures |Advance(cfg, s, i, reply).requests| == |s.requests|
    ensures WroteStep(s, Advance(cfg, s, i, reply), s.requests[i], Advance(cfg, s, i, reply).requests[i])
  {
    hide Balance, DebitsSince, DailyCap, MonthlyCap;
  }

  lemma SagaWrote(cfg: Config, s: State, i: nat, reply: Reply)
    requires SentInv(s) && i < |s.requests| && !BeforePost(s.requests[i].phase)
    requires s.book.journal <= Advance(cfg, s, i, reply).book.journal
    ensures |Advance(cfg, s, i, reply).requests| == |s.requests|
    ensures WroteStep(s, Advance(cfg, s, i, reply), s.requests[i], Advance(cfg, s, i, reply).requests[i])
  {
    assert SentOk(s.book.journal, s.requests[i]);
    hide Reverse, RowFor, AuthorsDistinct, PostedOnce;
  }

  lemma OtherWrote(cfg: Config, s: State, i: nat, reply: Reply)
    requires SentInv(s) && i < |s.requests| && !s.requests[i].phase.GatesOk?
    requires s.book.journal <= Advance(cfg, s, i, reply).book.journal
    ensures |Advance(cfg, s, i, reply).requests| == |s.requests|
    ensures WroteStep(s, Advance(cfg, s, i, reply), s.requests[i], Advance(cfg, s, i, reply).requests[i])
  {
    hide Advance, SentInv, WroteStep;
    if BeforePost(s.requests[i].phase) {
      GateWrote(cfg, s, i, reply);
    } else {
      SagaWrote(cfg, s, i, reply);
    }
  }

  lemma WroteInv(s: State, t: State, i: nat)
    requires SentInv(s) && s.book.journal <= t.book.journal && i < |s.requests| && |t.requests| == |s.requests|
    requires t.requests == s.requests[i := t.requests[i]] && WroteStep(s, t, s.requests[i], t.requests[i])
    ensures SentInv(t)
  {
    forall j | 0 <= j < |t.requests| ensures SentOk(t.book.journal, t.requests[j]) {
      if j != i {
        assert SentOk(s.book.journal, s.requests[j]);
      }
    }
  }

  lemma {:induction false} SentNext(cfg: Config, s: State, e: Event)
    requires ConfigOk(cfg) && Core(cfg, s) && SentInv(s)
    ensures SentInv(Next(cfg, s, e))
  {
    var t := Next(cfg, s, e);
    NextCore(cfg, s, e);
    hide Advance, Core, Topup.Commit, SentOk;
    if e.Step? && e.request < |s.requests| {
      AdvanceKeepsJob(cfg, s, e.request, e.reply);
      if s.requests[e.request].phase.GatesOk? {
        PostWrote(cfg, s, e.request, e.reply);
      } else {
        OtherWrote(cfg, s, e.request, e.reply);
      }
      WroteInv(s, t, e.request);
    } else {
      QuietEvent(cfg, s, e);
    }
  }

  lemma QuietEvent(cfg: Config, s: State, e: Event)
    requires SentInv(s) && (e.Step? ==> e.request >= |s.requests|) && s.book.journal <= Next(cfg, s, e).book.journal
    ensures SentInv(Next(cfg, s, e))
  {
    var t := Next(cfg, s, e);
    hide Topup.Commit;
    forall j | 0 <= j < |t.requests| ensures SentOk(t.book.journal, t.requests[j]) {
      if j < |s.requests| {
        assert SentOk(s.book.journal, s.requests[j]);
      }
    }
  }

  lemma {:induction false} RunSent(cfg: Config, run: seq<State>, events: seq<Event>, n: nat)
    requires ConfigOk(cfg) && IsRun(cfg, run, events) && n < |run|
    ensures SentInv(run[n])
  {
    if n == 0 {
    } else {
      hide Next, Core, SentInv;
      RunSent(cfg, run, events, n - 1);
      RunCore(cfg, run, events, n - 1);
      SentNext(cfg, run[n - 1], events[n - 1]);
    }
  }

  /** A transfer request for `id` that was answered. */
  predicate SentFor(r: Request, id: RequestId) {
    r.job.purpose.SendTo? && r.job.id == id && r.phase.Done? && r.phase.answer.Sent?
  }

  /** Answers to one id name its one operation, and one of them at most claims to have made it. */
  ghost predicate OneTransfer(s: State, id: RequestId) {
    var transfer := FindKey(s.book.journal, WalletTransfer(id));
    && (forall i, j :: 0 <= i < j < |s.book.journal| ==>
          s.book.journal[i].key != WalletTransfer(id) || s.book.journal[j].key != WalletTransfer(id))
    && (forall i :: 0 <= i < |s.requests| && SentFor(s.requests[i], id) ==>
          transfer == Some(s.requests[i].phase.answer.operation))
    && (forall i, j :: 0 <= i < j < |s.requests| && SentFor(s.requests[i], id) && SentFor(s.requests[j], id) ==>
          s.requests[i].phase.answer.idempotent || s.requests[j].phase.answer.idempotent)
  }

  /** Who is told the transfer is theirs wrote it: with the payer, the amount and the payee of its own request. */
  ghost predicate FirstIsAuthor(s: State, id: RequestId) {
    forall i :: 0 <= i < |s.requests| && SentFor(s.requests[i], id) && !s.requests[i].phase.answer.idempotent ==>
      && s.requests[i].phase.answer.operation < |s.book.journal|
      && s.book.journal[s.requests[i].phase.answer.operation].legs == LegsFor(s.requests[i].job)
  }

  /**
   In every run, for every transfer request id: at most one operation under it; every answer names that
   operation; at most one answer, the author's, says it was not a repeat, and the operation is what its
   request asked for.
   */
  lemma {:induction false} TransferOnce(cfg: Config, run: seq<State>, events: seq<Event>, n: nat, id: RequestId)
    requires ConfigOk(cfg) && IsRun(cfg, run, events) && n < |run|
    ensures OneTransfer(run[n], id) && FirstIsAuthor(run[n], id)
  {
    RunSent(cfg, run, events, n);
    RunCore(cfg, run, events, n);
    hide IsRun;
    var s := run[n];
    forall i | 0 <= i < |s.requests| && SentFor(s.requests[i], id)
      ensures FindKey(s.book.journal, WalletTransfer(id)) == Some(s.requests[i].phase.answer.operation)
    {
      assert SentOk(s.book.journal, s.requests[i]);
      KeyIsAt(s.book.journal, s.requests[i].phase.answer.operation);
    }
    forall i | 0 <= i < |s.requests| && SentFor(s.requests[i], id) && !s.requests[i].phase.answer.idempotent
      ensures s.book.journal[s.requests[i].phase.answer.operation].legs == LegsFor(s.requests[i].job)
    {
      assert SentOk(s.book.journal, s.requests[i]) && RequestOk(cfg, s, s.requests[i]);
    }
  }
}
