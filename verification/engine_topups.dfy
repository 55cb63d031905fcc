/**
 Top-ups in the midst of everything else: transfers, payouts and new references between the notices.
 What top-ups bring to an account depends on nothing but which of the known references completed.
 */
module EngineTopups {
  import opened Common
  import opened Ledger
  import opened Engine
  import opened EngineCore
  import Topup

  /** What a top-up posting does to an account; other postings are not counted. */
  function OfTopup(a: AccountId, c: Currency): Posting -> int {
    (p: Posting) => if p.key.MonCash? then Sum(p.legs, LegOn(a, c)) else 0
  }

  /** Row `t` has a reference under which money was posted. */
  ghost predicate Credited(s: State, t: nat)
    requires t < |s.topups|
  {
    Topup.Credited(Topup.Desk(s.book, s.topups), t)
  }

  /** Event `j` of the run posts for a completed notice about row `t`. */
  ghost predicate NoticePosts(s: State, e: Event, t: nat) {
    e == TopupEvent(Topup.CreditRow(t)) && t < |s.topups| && s.topups[t].reference.Some?
  }

  /** A completed notice about row `t` reached its post within the first `k` events. */
  ghost predicate Completed(run: seq<State>, events: seq<Event>, k: nat, t: nat)
    requires |run| == |events| + 1 && k <= |events|
  {
    exists j :: 0 <= j < k && NoticePosts(run[j], events[j], t)
  }

  /** What the first `n` rows bring to an account, those that count each once. */
  ghost function Brought(rows: seq<Topup.TopupRow>, counts: nat -> bool, n: nat, a: AccountId, c: Currency): int
    requires n <= |rows|
  {
    if n == 0 then 0
    else Brought(rows, counts, n - 1, a, c) + if counts(n - 1) then Topup.Move(rows[n - 1], a, c) else 0
  }

  ghost function CreditedIn(s: State): nat -> bool {
    (t: nat) => t < |s.topups| && Credited(s, t)
  }

  /** Every reference posted under is that of a row. */
  ghost predicate ReferencesKnown(s: State) {
    forall i :: 0 <= i < |s.book.journal| && s.book.journal[i].key.MonCash? ==>
      Topup.ReferenceTaken(s.topups, s.book.journal[i].key.reference)
  }

  ghost predicate TopupInv(s: State, a: AccountId, c: Currency) {
    && ReferencesKnown(s)
    && Sum(s.book.journal, OfTopup(a, c)) == Brought(s.topups, CreditedIn(s), |s.topups|, a, c)
  }

  lemma {:induction false} BroughtSame(rows: seq<Topup.TopupRow>, rows': seq<Topup.TopupRow>, counts: nat -> bool,
                                       counts': nat -> bool, n: nat, a: AccountId, c: Currency)
    requires n <= |rows| && n <= |rows'|
    requires forall t :: 0 <= t < n ==> rows'[t].user == rows[t].user && rows'[t].amountMinor == rows[t].amountMinor
    requires forall t: nat :: t < n ==> counts'(t) == counts(t)
    ensures Brought(rows', counts', n, a, c) == Brought(rows, counts, n, a, c)
  {
    if n == 0 {
    } else {
      BroughtSame(rows, rows', counts, counts', n - 1, a, c);
    }
  }

  lemma {:induction false} BroughtOneMore(rows: seq<Topup.TopupRow>, counts: nat -> bool, counts': nat -> bool, n: nat,
                                          u: nat, a: AccountId, c: Currency)
    requires n <= |rows| && u < |rows| && !counts(u) && counts'(u)
    requires forall t: nat :: t < |rows| && t != u ==> counts'(t) == counts(t)
    ensures Brought(rows, counts', n, a, c) == Brought(rows, counts, n, a, c) + if u < n then Topup.Move(rows[u], a, c) else 0
  {
    if n == 0 {
    } else {
      BroughtOneMore(rows, counts, counts', n - 1, u, a, c);
    }
  }

  // -------------------------------------------------------------- what each event does

  /** The journal stays, or gains one posting that is not a top-up. */
  ghost predicate NoTopupPosted(s: State, t: State) {
    t.book.journal == s.book.journal
    || exists p: Posting :: t.book.journal == s.book.journal + [p] && !p.key.MonCash?
  }

  lemma RequestPostsNoTopup(cfg: Config, s: State, i: nat, reply: Reply)
    requires Core(cfg, s) && i < |s.requests|
    ensures NoTopupPosted(s, Advance(cfg, s, i, reply)) && Advance(cfg, s, i, reply).topups == s.topups
  {
    var r := s.requests[i];
    assert RequestOk(cfg, s, r);
    if r.phase.GatesOk? {
      PostAnswers(s.book, r.job, s.now);
      hide Post, Core;
    } else if r.phase.Declined? {
      ReverseBookOk(s.book, r.phase.op, r.job.id, s.now);
      RefundPosts(cfg, s, i, reply);
    } else if r.phase.Accepted? {
      hide Core, RequestOk;
    } else {
      QuietCore(cfg, s, i, reply);
      QuietTopups(cfg, s, i, reply);
      hide Advance, Core, RequestOk;
    }
  }

  lemma RefundPosts(cfg: Config, s: State, i: nat, reply: Reply)
    requires Core(cfg, s) && i < |s.requests| && s.requests[i].phase.Declined?
    ensures NoTopupPosted(s, Advance(cfg, s, i, reply)) && Advance(cfg, s, i, reply).topups == s.topups
  {
    hide Core, Balance, DebitsSince;
  }

  lemma QuietTopups(cfg: Config, s: State, i: nat, reply: Reply)
    requires i < |s.requests| && !s.requests[i].phase.GatesOk?
    ensures Advance(cfg, s, i, reply).topups == s.topups
  {
    hide Post, Reverse, RowFor, Balance, DebitsSince;
  }

  lemma OtherEvents(cfg: Config, s: State, e: Event)
    requires Core(cfg, s) && !e.TopupEvent?
    ensures NoTopupPosted(s, Next(cfg, s, e)) && Next(cfg, s, e).topups == s.topups
  {
    hide Advance, Core;
    if e.Step? && e.request < |s.requests| {
      RequestPostsNoTopup(cfg, s, e.request, e.reply);
    }
  }

  lemma SameCredits(s: State, t: State, a: AccountId, c: Currency)
    requires TopupInv(s, a, c) && NoTopupPosted(s, t) && t.topups == s.topups
    ensures TopupInv(t, a, c)
    ensures forall u: nat :: u < |s.topups| ==> Credited(t, u) == Credited(s, u)
  {
    if t.book.journal != s.book.journal {
      var p: Posting :| t.book.journal == s.book.journal + [p] && !p.key.MonCash?;
      SumAppend(s.book.journal, p, OfTopup(a, c));
      forall u: nat | u < |s.topups| && s.topups[u].reference.Some? ensures Credited(t, u) == Credited(s, u) {
        FindKeyAppend(s.book.journal, p, MonCash(s.topups[u].reference.value));
      }
    }
    BroughtSame(s.topups, t.topups, CreditedIn(s), CreditedIn(t), |s.topups|, a, c);
  }

  /** Rows come and get references without moving money. */
  lemma RowEvents(cfg: Config, s: State, e: Topup.Event, a: AccountId, c: Currency)
    requires TopupInv(s, a, c) && Topup.RowsOk(s.topups) && !e.CreditRow?
    ensures var t := Next(cfg, s, TopupEvent(e));
            && TopupInv(t, a, c) && |s.topups| <= |t.topups|
            && (forall u: nat :: u < |t.topups| ==> Credited(t, u) == (u < |s.topups| && Credited(s, u)))
  {
    var t := Next(cfg, s, TopupEvent(e));
    RowsCome(cfg, s, e);
    hide Next, Sum, Credited, ReferencesKnown;
    BroughtSame(s.topups, t.topups, CreditedIn(s), CreditedIn(t), |s.topups|, a, c);
  }

  lemma RowsCome(cfg: Config, s: State, e: Topup.Event)
    requires ReferencesKnown(s) && Topup.RowsOk(s.topups) && !e.CreditRow?
    ensures var t := Next(cfg, s, TopupEvent(e));
            && t.book == s.book && ReferencesKnown(t) && |s.topups| <= |t.topups| <= |s.topups| + 1
            && (forall u: nat :: u < |s.topups| ==>
                  t.topups[u].user == s.topups[u].user && t.topups[u].amountMinor == s.topups[u].amountMinor)
            && (forall u: nat :: u < |t.topups| ==> Credited(t, u) == (u < |s.topups| && Credited(s, u)))
  {
    var t := Next(cfg, s, TopupEvent(e));
    Topup.CommitRowsOk(Topup.Desk(s.book, s.topups), e, s.now);
    forall u: nat | u < |t.topups| ensures Credited(t, u) == (u < |s.topups| && Credited(s, u)) {
      if t.topups[u].reference.Some? && (u >= |s.topups| || s.topups[u].reference.None?) {
        assert !Topup.ReferenceTaken(s.topups, t.topups[u].reference.value);
        assert FindKey(s.book.journal, MonCash(t.topups[u].reference.value)).None?;
      }
    }
    forall i | 0 <= i < |t.book.journal| && t.book.journal[i].key.MonCash?
      ensures Topup.ReferenceTaken(t.topups, t.book.journal[i].key.reference)
    {
      var u :| 0 <= u < |s.topups| && s.topups[u].reference == Some(t.book.journal[i].key.reference);
      assert t.topups[u].reference == s.topups[u].reference;
    }
  }

  /** A completed notice posts its row's amount the first time, and nothing after. */
  lemma CreditEvent(cfg: Config, s: State, u: nat, a: AccountId, c: Currency)
    requires TopupInv(s, a, c) && Topup.RowsOk(s.topups)
    ensures var t := Next(cfg, s, TopupEvent(Topup.CreditRow(u)));
            && TopupInv(t, a, c) && t.topups == s.topups
            && (forall v: nat :: v < |s.topups| ==>
                  Credited(t, v) == (Credited(s, v) || (v == u && s.topups[v].reference.Some?)))
  {
    var t := Next(cfg, s, TopupEvent(Topup.CreditRow(u)));
    if u < |s.topups| && s.topups[u].reference.Some? && !Credited(s, u) {
      var row := s.topups[u];
      var input := Topup.CreditInput(row);
      CreditPairLegs(Wallet(row.user), FLOAT, row.amountMinor);
      var p := Posting(input.key, Kind.Topup, StoredAll(input.entries), None, s.now);
      assert t.book.journal == s.book.journal + [p];
      forall v: nat | v < |s.topups| && s.topups[v].reference.Some?
        ensures Credited(t, v) == (Credited(s, v) || v == u)
      {
        FindKeyAppend(s.book.journal, p, MonCash(s.topups[v].reference.value));
      }
      CreditSum(s.book.journal, p, row, a, c);
      BroughtOneMore(s.topups, CreditedIn(s), CreditedIn(t), |s.topups|, u, a, c);
      KnownAfter(s, t, p, u);
    } else {
      BroughtSame(s.topups, t.topups, CreditedIn(s), CreditedIn(t), |s.topups|, a, c);
    }
  }

  lemma CreditSum(journal: seq<Posting>, p: Posting, row: Topup.TopupRow, a: AccountId, c: Currency)
    requires p.key.MonCash?
    requires p.legs == [Leg(Wallet(row.user), Credit, row.amountMinor, HTG), Leg(FLOAT, Debit, row.amountMinor, HTG)]
    ensures Sum(journal + [p], OfTopup(a, c)) == Sum(journal, OfTopup(a, c)) + Topup.Move(row, a, c)
  {
    SumAppend(journal, p, OfTopup(a, c));
    SumOfTwo(p.legs, LegOn(a, c));
  }

  lemma KnownAfter(s: State, t: State, p: Posting, u: nat)
    requires ReferencesKnown(s) && t.topups == s.topups && t.book.journal == s.book.journal + [p]
    requires u < |s.topups| && s.topups[u].reference.Some? && p.key == MonCash(s.topups[u].reference.value)
    ensures ReferencesKnown(t)
  {
    forall i | 0 <= i < |t.book.journal| && t.book.journal[i].key.MonCash?
      ensures Topup.ReferenceTaken(t.topups, t.book.journal[i].key.reference)
    {
      if i < |s.book.journal| {
        assert t.book.journal[i] == s.book.journal[i];
      } else {
        assert t.topups[u].reference == Some(t.book.journal[i].key.reference);
      }
    }
  }

  lemma {:induction false} NextCredits(cfg: Config, s: State, e: Event, a: AccountId, c: Currency)
    requires Core(cfg, s) && TopupInv(s, a, c)
    ensures var t := Next(cfg, s, e);
            && TopupInv(t, a, c) && |s.topups| <= |t.topups|
            && (forall u: nat :: u < |t.topups| ==>
                  Credited(t, u) == (u < |s.topups| && (Credited(s, u) || NoticePosts(s, e, u))))
  {
    var t := Next(cfg, s, e);
    if !e.TopupEvent? {
      OtherEvents(cfg, s, e);
      hide Next, Core, TopupInv, NoTopupPosted, Credited;
      SameCredits(s, t, a, c);
    } else if e.event.CreditRow? {
      hide Next, BookOk, RequestOk, TopupInv, Credited;
      CreditEvent(cfg, s, e.event.row, a, c);
    } else {
      hide Next, BookOk, RequestOk, TopupInv, Credited;
      RowEvents(cfg, s, e.event, a, c);
    }
  }

  // ------------------------------------------------------------------ whole runs

  lemma {:induction false} RunCredits(cfg: Config, run: seq<State>, events: seq<Event>, k: nat, a: AccountId,
                                      c: Currency)
    requires ConfigOk(cfg) && IsRun(cfg, run, events) && k < |run|
    ensures TopupInv(run[k], a, c)
    ensures forall t: nat :: Completed(run, events, k, t) ==> t < |run[k].topups|
    ensures forall t: nat :: t < |run[k].topups| ==> Credited(run[k], t) == Completed(run, events, k, t)
  {
    if k == 0 {
    } else {
      RunCredits(cfg, run, events, k - 1, a, c);
      RunCore(cfg, run, events, k - 1);
      var s, t, e := run[k - 1], run[k], events[k - 1];
      NextCredits(cfg, s, e, a, c);
      hide Next, Core, TopupInv, NoticePosts, Credited;
      forall u: nat
        ensures Completed(run, events, k, u) <==> Completed(run, events, k - 1, u) || NoticePosts(s, e, u)
      {
        CompletedLater(run, events, k, u);
      }
      forall u: nat | NoticePosts(s, e, u) ensures u < |s.topups| {
        NoticeHasRow(s, e, u);
      }
    }
  }

  lemma NoticeHasRow(s: State, e: Event, u: nat)
    requires NoticePosts(s, e, u)
    ensures u < |s.topups|
  {
  }

  lemma CompletedLater(run: seq<State>, events: seq<Event>, k: nat, u: nat)
    requires |run| == |events| + 1 && 0 < k <= |events|
    ensures Completed(run, events, k, u) <==>
            Completed(run, events, k - 1, u) || NoticePosts(run[k - 1], events[k - 1], u)
  {
    if Completed(run, events, k, u) {
      var j :| 0 <= j < k && NoticePosts(run[j], events[j], u);
      assert j == k - 1 || Completed(run, events, k - 1, u);
    }
  }

  ghost function CompletedIn(run: seq<State>, events: seq<Event>, k: nat): nat -> bool
    requires |run| == |events| + 1 && k <= |events|
  {
    (t: nat) => Completed(run, events, k, t)
  }

  /**
   In every run, whatever transfers, payouts, new references, repeated or failed notices and crashes come
   between, top-ups have brought each account exactly the amounts of the rows with a completed notice,
   each once.
   */
  lemma {:induction false} TopupsBring(cfg: Config, run: seq<State>, events: seq<Event>, k: nat, a: AccountId,
                                       c: Currency)
    requires ConfigOk(cfg) && IsRun(cfg, run, events) && k < |run|
    ensures Sum(run[k].book.journal, OfTopup(a, c)) ==
            Brought(run[k].topups, CompletedIn(run, events, k), |run[k].topups|, a, c)
  {
    RunCredits(cfg, run, events, k, a, c);
    var s := run[k];
    BroughtSame(s.topups, s.topups, CreditedIn(s), CompletedIn(run, events, k), |s.topups|, a, c);
  }

  /** Two runs over the same rows in which the same rows completed end with the same top-ups on every account. */
  lemma {:induction false} TopupsConfluent(cfg: Config, run: seq<State>, events: seq<Event>, k: nat, cfg': Config,
                                           run': seq<State>, events': seq<Event>, k': nat, a: AccountId, c: Currency)
    requires ConfigOk(cfg) && IsRun(cfg, run, events) && k < |run|
    requires ConfigOk(cfg') && IsRun(cfg', run', events') && k' < |run'|
    requires |run[k].topups| == |run'[k'].topups|
    requires forall t :: 0 <= t < |run[k].topups| ==>
               && run'[k'].topups[t].user == run[k].topups[t].user
               && run'[k'].topups[t].amountMinor == run[k].topups[t].amountMinor
               && (Completed(run', events', k', t) <==> Completed(run, events, k, t))
    ensures Sum(run'[k'].book.journal, OfTopup(a, c)) == Sum(run[k].book.journal, OfTopup(a, c))
  {
    TopupsBring(cfg, run, events, k, a, c);
    TopupsBring(cfg', run', events', k', a, c);
    hide IsRun, ConfigOk, Completed;
    BroughtSame(run[k].topups, run'[k'].topups, CompletedIn(run, events, k), CompletedIn(run', events', k'),
                |run[k].topups|, a, c);
  }

  // -------------------------------------------------------------- what rows say

  /** The event saves a status for row `t`: a notice, if the row has a reference, or its last attempt to get one. */
  ghost predicate Decides(s: State, e: Event, t: nat) {
    && e.TopupEvent? && t < |s.topups|
    && ((s.topups[t].reference.Some?
         && ((e.event.MarkCompleted? && e.event.row == t) || e.event == Topup.MarkFailed(t)))
        || (s.topups[t].reference.None? && s.topups[t].status == Topup.TopupPending && e.event == Topup.GiveUp(t)))
  }

  ghost predicate Completes(s: State, e: Event, t: nat) {
    Decides(s, e, t) && e.event.MarkCompleted?
  }

  /** The last event that decided about row `t` completed it. */
  ghost predicate CompletedLast(run: seq<State>, events: seq<Event>, k: nat, t: nat)
    requires |run| == |events| + 1 && k <= |events|
  {
    exists j :: 0 <= j < k && Completes(run[j], events[j], t)
                && forall i :: j < i < k ==> !Decides(run[i], events[i], t)
  }

  ghost predicate Undecided(run: seq<State>, events: seq<Event>, k: nat, t: nat)
    requires |run| == |events| + 1 && k <= |events|
  {
    forall j :: 0 <= j < k ==> !Decides(run[j], events[j], t)
  }

  lemma DecidedLater(run: seq<State>, events: seq<Event>, k: nat, t: nat)
    requires |run| == |events| + 1 && 0 < k <= |events|
    ensures var s, e := run[k - 1], events[k - 1];
            && (Undecided(run, events, k, t) <==> Undecided(run, events, k - 1, t) && !Decides(s, e, t))
            && (CompletedLast(run, events, k, t) <==>
                  Completes(s, e, t) || (CompletedLast(run, events, k - 1, t) && !Decides(s, e, t)))
  {
    hide Decides;
    if CompletedLast(run, events, k, t) {
      var j :| 0 <= j < k && Completes(run[j], events[j], t)
               && forall i :: j < i < k ==> !Decides(run[i], events[i], t);
      assert j == k - 1 || CompletedLast(run, events, k - 1, t);
      assert j < k - 1 ==> !Decides(run[k - 1], events[k - 1], t);
    }
  }

  lemma StatusStep(cfg: Config, s: State, e: Event, t: nat)
    requires Core(cfg, s) && t < |Next(cfg, s, e).topups|
    ensures var status := Next(cfg, s, e).topups[t].status;
            status == if t >= |s.topups| then Topup.TopupPending
                      else if !Decides(s, e, t) then s.topups[t].status
                      else if Completes(s, e, t) then Topup.TopupCompleted
                      else Topup.TopupFailed
  {
    if e.TopupEvent? {
      Topup.StatusAfter(Topup.Desk(s.book, s.topups), e.event, s.now, t);
      hide Topup.Commit;
    } else {
      OtherEvents(cfg, s, e);
      hide Next;
    }
  }

  /**
   In every run, whatever comes between: a top-up is COMPLETED exactly if the last event that decided about
   it was a completed notice, PENDING if none has, and FAILED if it was a failure notice or the last attempt
   that never got a reference.
   */
  lemma {:induction false} StatusIsLastWord(cfg: Config, run: seq<State>, events: seq<Event>, k: nat, t: nat)
    requires ConfigOk(cfg) && IsRun(cfg, run, events) && k < |run|
    ensures t >= |run[k].topups| ==> Undecided(run, events, k, t)
    ensures t < |run[k].topups| ==>
              run[k].topups[t].status == if Undecided(run, events, k, t) then Topup.TopupPending
                                         else if CompletedLast(run, events, k, t) then Topup.TopupCompleted
                                         else Topup.TopupFailed
  {
    if k == 0 {
    } else {
      StatusIsLastWord(cfg, run, events, k - 1, t);
      RunCore(cfg, run, events, k - 1);
      hide Next, Core, IsRun, ConfigOk, Undecided, CompletedLast, Decides;
      LastWordStep(cfg, run, events, k, t);
    }
  }

  ghost predicate LastWord(run: seq<State>, events: seq<Event>, k: nat, t: nat)
    requires |run| == |events| + 1 && k <= |events|
  {
    if t >= |run[k].topups| then Undecided(run, events, k, t)
    else run[k].topups[t].status == if Undecided(run, events, k, t) then Topup.TopupPending
                                    else if CompletedLast(run, events, k, t) then Topup.TopupCompleted
                                    else Topup.TopupFailed
  }

  lemma LastWordStep(cfg: Config, run: seq<State>, events: seq<Event>, k: nat, t: nat)
    requires |run| == |events| + 1 && 0 < k < |run| && Core(cfg, run[k - 1])
    requires run[k] == Next(cfg, run[k - 1], events[k - 1])
    requires LastWord(run, events, k - 1, t)
    ensures LastWord(run, events, k, t)
  {
    hide Next, Core;
    var s, e := run[k - 1], events[k - 1];
    RowsStay(cfg, s, e, t);
    DecidedLater(run, events, k, t);
    if t < |run[k].topups| {
      StatusStep(cfg, s, e, t);
    }
    hide Decides, Undecided, CompletedLast;
    if Undecided(run, events, k - 1, t) {
      NotYet(run, events, k - 1, t);
    }
  }

  lemma NotYet(run: seq<State>, events: seq<Event>, k: nat, t: nat)
    requires |run| == |events| + 1 && k <= |events| && Undecided(run, events, k, t)
    ensures !CompletedLast(run, events, k, t)
  {
  }

  lemma RowsStay(cfg: Config, s: State, e: Event, t: nat)
    requires Core(cfg, s)
    ensures |s.topups| <= |Next(cfg, s, e).topups|
    ensures t >= |s.topups| ==> !Decides(s, e, t)
  {
    if e.TopupEvent? {
      Topup.CommitRowsOk(Topup.Desk(s.book, s.topups), e.event, s.now);
      hide Topup.Commit;
    } else {
      OtherEvents(cfg, s, e);
      hide Next;
    }
  }
}
