/**
 What may enter the system, read back from what the system holds: over every run, who may move money to
 whom and how much, who is verified, and what every one-time code on record is.
 */
module EngineAdmission {
  import opened Common
  import opened Ledger
  import opened Engine
  import opened EngineCore
  import opened EngineOtp
  import EngineFaults
  import Topup

  // -------------------------------------------------------------- admission

  /**
   Each objection with its own reason, in the order they are raised; the payout maximum bears on payouts,
   the recipient on transfers.
   */
  lemma InadmissibleWhen(cfg: Config, tiers: seq<Tier>, job: Job)
    ensures var why := Inadmissible(cfg, tiers, job);
            && (why == Some(NotPositive) <==> job.amountHTG < 1)
            && (job.amountHTG >= 1 ==>
                  match job.purpose
                  case SendTo(payee) =>
                    && (why == Some(UnknownUser) <==> job.payer >= |tiers|)
                    && (why == Some(UnknownRecipient) <==> job.payer < |tiers| && payee >= |tiers|)
                    && (why == Some(OwnAccount) <==> job.payer < |tiers| && payee == job.payer)
                    && (why == None <==> job.payer < |tiers| && payee < |tiers| && payee != job.payer)
                  case CashOut =>
                    && (why == Some(OverPayoutMaximum) <==> job.amountHTG > cfg.maxPayoutHTG)
                    && (why == Some(UnknownUser) <==> job.amountHTG <= cfg.maxPayoutHTG && job.payer >= |tiers|)
                    && (why == None <==> job.amountHTG <= cfg.maxPayoutHTG && job.payer < |tiers|))
  {
  }

  /** A request on record asks for something it may ask for. */
  predicate Admitted(cfg: Config, users: nat, job: Job) {
    && job.amountHTG >= 1 && job.payer < users
    && match job.purpose
       case SendTo(payee) => payee < users && payee != job.payer
       case CashOut => job.amountHTG <= cfg.maxPayoutHTG
  }

  ghost predicate AllAdmitted(cfg: Config, s: State) {
    && (forall i :: 0 <= i < |s.requests| ==> Admitted(cfg, |s.tiers|, s.requests[i].job))
    && (forall k :: 0 <= k < |s.monCashCalls| ==>
          1 <= s.monCashCalls[k].amountHTG <= cfg.maxPayoutHTG && s.monCashCalls[k].user < |s.tiers|)
    && (forall k :: 0 <= k < |s.rows| ==>
          100 <= s.rows[k].amount <= cfg.maxPayoutHTG * 100 && s.rows[k].user < |s.tiers|)
  }

  lemma StepKeepsTiers(cfg: Config, s: State, i: nat, reply: Reply)
    requires i < |s.requests|
    ensures Advance(cfg, s, i, reply).tiers == s.tiers
  {
    hide Post, Reverse, Balance, DebitsSince, RowFor;
  }

  lemma StepAdmitted(cfg: Config, s: State, i: nat, reply: Reply)
    requires i < |s.requests| && AllAdmitted(cfg, s) && RequestOk(cfg, s, s.requests[i])
    ensures AllAdmitted(cfg, Advance(cfg, s, i, reply))
  {
    var t, r := Advance(cfg, s, i, reply), s.requests[i];
    StepKeepsTiers(cfg, s, i, reply);
    AdvanceKeepsJob(cfg, s, i, reply);
    EngineFaults.StepAsks(cfg, s, i, reply);
    assert EngineFaults.PointOf(r.phase).Some? ==> r.job.purpose.CashOut?;
    hide Advance, RequestOk;
    assert Admitted(cfg, |s.tiers|, r.job);
    assert forall k :: 0 <= k < |s.monCashCalls| ==> t.monCashCalls[k] == s.monCashCalls[k];
    assert forall k :: 0 <= k < |s.rows| ==> t.rows[k] == s.rows[k];
  }

  lemma {:induction false} NextAdmitted(cfg: Config, s: State, e: Event)
    requires Core(cfg, s) && AllAdmitted(cfg, s)
    ensures AllAdmitted(cfg, Next(cfg, s, e))
  {
    hide Advance, Topup.Commit;
    if e.Step? && e.request < |s.requests| {
      StepAdmitted(cfg, s, e.request, e.reply);
    }
  }

  lemma {:induction false} RunAdmitted(cfg: Config, run: seq<State>, events: seq<Event>, k: nat)
    requires ConfigOk(cfg) && IsRun(cfg, run, events) && k < |run|
    ensures AllAdmitted(cfg, run[k])
  {
    if k == 0 {
    } else {
      RunAdmitted(cfg, run, events, k - 1);
      RunCore(cfg, run, events, k - 1);
      hide Next, Core, AllAdmitted;
      NextAdmitted(cfg, run[k - 1], events[k - 1]);
    }
  }

  /** A transfer: between two different registered users, in whole gourdes. */
  predicate IsTransfer(users: nat, legs: seq<Leg>) {
    && |legs| == 2 && legs[0].account.Wallet? && legs[1].account.Wallet?
    && legs[0].account.user < users && legs[1].account.user < users && legs[0].account != legs[1].account
    && legs[0].amount == legs[1].amount >= 100 && legs[0].amount % 100 == 0
    && legs[0].direction == Debit && legs[1].direction == Credit
  }

  /** A payout's reserve: from a registered user to the float, in whole gourdes up to the maximum. */
  predicate IsReserve(users: nat, most: int, legs: seq<Leg>) {
    && |legs| == 2 && legs[0].account.Wallet? && legs[1].account == System("moncash_float")
    && legs[0].account.user < users
    && 100 <= legs[0].amount == legs[1].amount <= most * 100 && legs[0].amount % 100 == 0
    && legs[0].direction == Debit && legs[1].direction == Credit
  }

  /**
   In every state of every run: every transfer in the ledger is between two different registered users;
   no payout reserves, asks MonCash for, or records more than the maximum for one payout.
   */
  lemma OnlyAdmittedMoves(cfg: Config, run: seq<State>, events: seq<Event>, k: nat)
    requires ConfigOk(cfg) && IsRun(cfg, run, events) && k < |run|
    ensures var s := run[k];
            && (forall op :: 0 <= op < |s.book.journal| ==>
                  && (s.book.journal[op].key.WalletTransfer? ==> IsTransfer(|s.tiers|, s.book.journal[op].legs))
                  && (s.book.journal[op].key.PayoutReserve? ==>
                        IsReserve(|s.tiers|, cfg.maxPayoutHTG, s.book.journal[op].legs)))
            && (forall c :: 0 <= c < |s.monCashCalls| ==> s.monCashCalls[c].amountHTG <= cfg.maxPayoutHTG)
            && (forall n :: 0 <= n < |s.rows| ==> s.rows[n].amount <= cfg.maxPayoutHTG * 100)
  {
    RunAdmitted(cfg, run, events, k);
    RunCore(cfg, run, events, k);
    RunAuthored(cfg, run, events, k);
    hide IsRun, ConfigOk;
    var s := run[k];
    forall op | 0 <= op < |s.book.journal| && MovedByRequest(s.book.journal[op])
      ensures s.book.journal[op].key.WalletTransfer? ==> IsTransfer(|s.tiers|, s.book.journal[op].legs)
      ensures s.book.journal[op].key.PayoutReserve? ==> IsReserve(|s.tiers|, cfg.maxPayoutHTG, s.book.journal[op].legs)
    {
      var i :| 0 <= i < |s.requests| && s.requests[i].posted == Some(op);
      AuthorsPosting(cfg, s, i, op);
    }
  }

  lemma AuthorsPosting(cfg: Config, s: State, i: nat, op: OpId)
    requires i < |s.requests| && op < |s.book.journal| && s.requests[i].posted == Some(op)
    requires RequestOk(cfg, s, s.requests[i]) && Admitted(cfg, |s.tiers|, s.requests[i].job)
    ensures s.book.journal[op].key.WalletTransfer? ==> IsTransfer(|s.tiers|, s.book.journal[op].legs)
    ensures s.book.journal[op].key.PayoutReserve? ==> IsReserve(|s.tiers|, cfg.maxPayoutHTG, s.book.journal[op].legs)
  {
  }

  // ------------------------------------------------------------------- tiers

  /** The event verifies a registered user. */
  predicate Upgrades(s: State, e: Event, u: UserId) {
    e == Upgrade(u) && u < |s.tiers|
  }

  ghost predicate Upgraded(run: seq<State>, events: seq<Event>, k: nat, u: UserId)
    requires |run| == |events| + 1 && k <= |events|
  {
    exists j :: 0 <= j < k && Upgrades(run[j], events[j], u)
  }

  lemma TierStep(cfg: Config, s: State, e: Event, u: UserId)
    ensures var t := Next(cfg, s, e);
            && |s.tiers| <= |t.tiers|
            && (u < |t.tiers| ==>
                  (t.tiers[u] == Verified <==> (u < |s.tiers| && s.tiers[u] == Verified) || Upgrades(s, e, u)))
  {
    hide Advance, Topup.Commit;
    if e.Step? && e.request < |s.requests| {
      StepKeepsTiers(cfg, s, e.request, e.reply);
    }
  }

  /** In every run a user is verified exactly if some event verified them: nobody starts out so, and it lasts. */
  lemma {:induction false} VerifiedWhen(cfg: Config, run: seq<State>, events: seq<Event>, k: nat, u: UserId)
    requires IsRun(cfg, run, events) && k < |run|
    ensures u < |run[k].tiers| && run[k].tiers[u] == Verified <==> Upgraded(run, events, k, u)
  {
    if k == 0 {
    } else {
      VerifiedWhen(cfg, run, events, k - 1, u);
      TierStep(cfg, run[k - 1], events[k - 1], u);
      hide Next, Upgraded;
      UpgradedLater(run, events, k, u);
    }
  }

  lemma UpgradedLater(run: seq<State>, events: seq<Event>, k: nat, u: UserId)
    requires |run| == |events| + 1 && 0 < k <= |events|
    ensures Upgraded(run, events, k, u) <==>
              Upgraded(run, events, k - 1, u) || Upgrades(run[k - 1], events[k - 1], u)
  {
  }

  // ---------------------------------------------------------- one-time codes

  /** The code on record is the one sent then: it lasts five minutes and takes three tries. */
  ghost predicate SentAs(s: State, e: Event, otp: Otp) {
    && e == SendCode(otp.user, otp.purpose, otp.codeHash) && otp.user < |s.tiers|
    && otp.maxAttempts == 3 && otp.expiresAt == s.now + 300_000
  }

  /** What neither a try nor its use changes of a code. */
  predicate SameCode(a: Otp, b: Otp) {
    && a.user == b.user && a.purpose == b.purpose && a.codeHash == b.codeHash
    && a.maxAttempts == b.maxAttempts && a.expiresAt == b.expiresAt
  }

  lemma CodesStay(cfg: Config, s: State, e: Event)
    ensures var t := Next(cfg, s, e);
            && |s.otps| <= |t.otps| <= |s.otps| + 1
            && (forall o :: 0 <= o < |s.otps| ==> SameCode(s.otps[o], t.otps[o]))
            && (|t.otps| > |s.otps| ==>
                  var sent := t.otps[|s.otps|];
                  SentAs(s, e, sent) && sent.attempts == 0 && sent.consumedAt == None)
  {
    hide Advance, Topup.Commit;
    if e.Step? && e.request < |s.requests| {
      AdvanceCodes(cfg, s, e.request, e.reply);
    }
  }

  /** In every run every code on record was sent to its owner, with three tries and five minutes from then. */
  lemma {:induction false} CodesAsSent(cfg: Config, run: seq<State>, events: seq<Event>, k: nat, o: OtpId)
    requires IsRun(cfg, run, events) && k < |run| && o < |run[k].otps|
    ensures exists j :: 0 <= j < k && SentAs(run[j], events[j], run[k].otps[o])
  {
    CodesStay(cfg, run[k - 1], events[k - 1]);
    assert run[k] == Next(cfg, run[k - 1], events[k - 1]);
    hide Next;
    if o < |run[k - 1].otps| {
      CodesAsSent(cfg, run, events, k - 1, o);
      hide IsRun;
      var j :| 0 <= j < k - 1 && SentAs(run[j], events[j], run[k - 1].otps[o]);
      assert SentAs(run[j], events[j], run[k].otps[o]);
    } else {
      assert SentAs(run[k - 1], events[k - 1], run[k].otps[o]);
    }
  }
}
