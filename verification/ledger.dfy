/**
 The double-entry ledger as a value: the append-only journal, the one mutable column beside it,
 and the calls of `LedgerService` as functions from one book to the next.
 */
module Ledger {
  import opened Common

  /** An accounts row is named by its owner: `AccountsService` keeps one row per owner (module Accounts). */
  datatype AccountId = Wallet(user: nat) | System(name: string)

  /** An operation's id is its position in the journal: rows are never deleted. */
  type OpId = nat

  type Currency = string

  const HTG: Currency := "HTG"

  datatype Direction = Debit | Credit

  datatype Kind = Topup | Payout | Transfer | Adjustment

  datatype Status = Pending | Completed | Reversed | Failed

  /** The four families of idempotency keys; the prefixes of the source are the constructors. */
  datatype Key =
    | WalletTransfer(request: nat)
    | PayoutReserve(request: nat)
    | PayoutReversal(request: nat)
    | MonCash(reference: nat)

  datatype Error = TooFewEntries | NonPositiveAmount | Unbalanced | NotFound | NothingToReverse | DuplicateKey

  /** One leg as a caller passes it: the currency may be left out. */
  datatype LegInput = LegInput(account: AccountId, direction: Direction, amount: int, currency: Option<Currency>)

  /** One leg as it is stored. */
  datatype Leg = Leg(account: AccountId, direction: Direction, amount: int, currency: Currency)

  datatype PostInput = PostInput(key: Key, kind: Kind, entries: seq<LegInput>, status: Option<Status>)

  datatype Posting = Posting(key: Key, kind: Kind, legs: seq<Leg>, reversalOf: Option<OpId>, at: int)

  datatype Receipt = Receipt(op: OpId, legs: seq<Leg>, idempotent: bool)

  datatype Book = Book(journal: seq<Posting>, status: seq<Status>)

  const EMPTY_BOOK := Book([], [])

  // ---------------------------------------------------------------- amounts

  function CurrencyOf(c: Option<Currency>): Currency {
    match c
    case Some(name) => name
    case None => HTG
  }

  function Stored(e: LegInput): Leg {
    Leg(e.account, e.direction, e.amount, CurrencyOf(e.currency))
  }

  function StoredAll(es: seq<LegInput>): seq<Leg> {
    seq(|es|, i requires 0 <= i < |es| => Stored(es[i]))
  }

  function Signed(l: Leg): int {
    if l.direction == Credit then l.amount else -l.amount
  }

  /** Effect of one leg on the total of a currency. */
  function LegIn(c: Currency): Leg -> int {
    (l: Leg) => if l.currency == c then Signed(l) else 0
  }

  /** Effect of one leg on one account. */
  function LegOn(a: AccountId, c: Currency): Leg -> int {
    (l: Leg) => if l.account == a && l.currency == c then Signed(l) else 0
  }

  /** What one leg moves into or out of an account. */
  function SideOn(d: Direction, a: AccountId, c: Currency): Leg -> int {
    (l: Leg) => if l.account == a && l.currency == c && l.direction == d then l.amount else 0
  }

  function Net(legs: seq<Leg>, c: Currency): int {
    Sum(legs, LegIn(c))
  }

  function PostingIn(c: Currency): Posting -> int {
    (p: Posting) => Net(p.legs, c)
  }

  function PostingOn(a: AccountId, c: Currency): Posting -> int {
    (p: Posting) => Sum(p.legs, LegOn(a, c))
  }

  function PostingSideSince(d: Direction, a: AccountId, since: int, c: Currency): Posting -> int {
    (p: Posting) => if p.at >= since then Sum(p.legs, SideOn(d, a, c)) else 0
  }

  /** Credits minus debits, always derived. */
  function Balance(journal: seq<Posting>, a: AccountId, c: Currency): int {
    Sum(journal, PostingOn(a, c))
  }

  /** Money moved in one direction on an account since an instant. */
  function MovedSince(journal: seq<Posting>, d: Direction, a: AccountId, since: int, c: Currency): int {
    Sum(journal, PostingSideSince(d, a, since, c))
  }

  /** Money moved out of an account since an instant. */
  function DebitsSince(journal: seq<Posting>, a: AccountId, since: int, c: Currency): int {
    MovedSince(journal, Debit, a, since, c)
  }

  // --------------------------------------------------------- double entry

  ghost predicate BalancedLegs(legs: seq<Leg>) {
    && |legs| >= 2
    && (forall i :: 0 <= i < |legs| ==> legs[i].amount > 0)
    && (forall c: Currency :: Net(legs, c) == 0)
  }

  /** What `assertBalanced` decides, first objection first. */
  ghost function Objection(legs: seq<Leg>): Option<Error> {
    if |legs| < 2 then Some(TooFewEntries)
    else if exists i :: 0 <= i < |legs| && legs[i].amount <= 0 then Some(NonPositiveAmount)
    else if exists c: Currency :: Net(legs, c) != 0 then Some(Unbalanced)
    else None
  }

  function Flip(d: Direction): Direction {
    if d == Debit then Credit else Debit
  }

  function Mirror(legs: seq<Leg>): (m: seq<Leg>)
    ensures |m| == |legs|
    ensures forall i :: 0 <= i < |m| ==> m[i] == legs[i].(direction := Flip(legs[i].direction))
  {
    seq(|legs|, i requires 0 <= i < |legs| => legs[i].(direction := Flip(legs[i].direction)))
  }

  lemma MirrorTwice(legs: seq<Leg>)
    ensures Mirror(Mirror(legs)) == legs
  {
  }

  /** An operation and one reversal of it cancel on every account, and in every currency. */
  lemma {:induction false} MirrorCancels(legs: seq<Leg>, a: AccountId, c: Currency)
    ensures Sum(legs, LegOn(a, c)) + Sum(Mirror(legs), LegOn(a, c)) == 0
    ensures Net(legs, c) + Net(Mirror(legs), c) == 0
  {
    if legs == [] {
    } else {
      var n := |legs| - 1;
      assert Mirror(legs)[..n] == Mirror(legs[..n]);
      MirrorCancels(legs[..n], a, c);
    }
  }

  lemma MirrorBalanced(legs: seq<Leg>)
    requires BalancedLegs(legs)
    ensures BalancedLegs(Mirror(legs)) && Objection(Mirror(legs)) == None
  {
    forall c: Currency ensures Net(Mirror(legs), c) == 0 {
      MirrorCancels(legs, Wallet(0), c);
    }
  }

  // ------------------------------------------------------------ the calls

  function FindKey(journal: seq<Posting>, key: Key): (r: Option<OpId>)
    ensures r.Some? ==> r.value < |journal| && journal[r.value].key == key
    ensures r.None? ==> forall i :: 0 <= i < |journal| ==> journal[i].key != key
  {
    if journal == [] then None
    else
      var n := |journal| - 1;
      var earlier := FindKey(journal[..n], key);
      if earlier.Some? then earlier
      else if journal[n].key == key then Some(n)
      else None
  }

  lemma {:induction false} FindKeyPrefix(journal: seq<Posting>, n: nat, key: Key)
    requires n <= |journal| && FindKey(journal[..n], key).Some?
    ensures FindKey(journal, key) == FindKey(journal[..n], key)
    decreases |journal|
  {
    if n == |journal| {
      assert journal[..n] == journal;
    } else {
      var m := |journal| - 1;
      assert journal[..m][..n] == journal[..n];
      FindKeyPrefix(journal[..m], n, key);
    }
  }

  function Append(b: Book, p: Posting, st: Status): Book {
    Book(b.journal + [p], b.status + [st])
  }

  function StatusOf(input: PostInput): Status {
    match input.status
    case Some(st) => st
    case None => Completed
  }

  /** `postOperation`: check, insert, and on a unique violation re-read. */
  ghost function Post(b: Book, input: PostInput, now: int): (Book, Result<Receipt, Error>) {
    var legs := StoredAll(input.entries);
    match Objection(legs)
    case Some(e) => (b, Err(e))
    case None =>
      match FindKey(b.journal, input.key)
      case Some(op) => (b, Ok(Receipt(op, b.journal[op].legs, true)))
      case None =>
        (Append(b, Posting(input.key, input.kind, legs, None, now), StatusOf(input)),
         Ok(Receipt(|b.journal|, legs, false)))
  }

  /** Whoever is told an operation is told the legs it is stored with: a repeat, those of the first call. */
  lemma ReceiptIsStored(b: Book, input: PostInput, now: int)
    ensures var (after, r) := Post(b, input, now);
            r.Ok? ==>
              && r.value.op < |after.journal| && after.journal[r.value.op].key == input.key
              && r.value.legs == after.journal[r.value.op].legs
              && b.journal <= after.journal
              && (r.value.idempotent ==> after == b)
  {
  }

  /** `reverseOperation`: post the mirror, then mark the original; all or nothing. */
  ghost function Reverse(b: Book, op: OpId, key: Key, now: int): (Book, Result<Receipt, Error>) {
    if op >= |b.journal| || op >= |b.status| then (b, Err(NotFound))
    else if b.journal[op].legs == [] then (b, Err(NothingToReverse))
    else
      var mirrored := Mirror(b.journal[op].legs);
      match Objection(mirrored)
      case Some(e) => (b, Err(e))
      case None =>
        if FindKey(b.journal, key).Some? then (b, Err(DuplicateKey))
        else
          var posted := Append(b, Posting(key, Adjustment, mirrored, Some(op), now), Completed);
          (posted.(status := posted.status[op := Reversed]), Ok(Receipt(|b.journal|, mirrored, false)))
  }

  /** `confirmOperation`: only a pending operation becomes completed. */
  function Confirm(b: Book, op: OpId): Book {
    if op < |b.status| && b.status[op] == Pending then b.(status := b.status[op := Completed]) else b
  }

  /** And so it is for a reversal, which is the mirror of the original, appended, and the original marked. */
  lemma ReversalReceiptIsStored(b: Book, op: OpId, key: Key, now: int)
    ensures var (after, r) := Reverse(b, op, key, now);
            r.Ok? ==>
              && op < |b.journal| && r.value.op == |b.journal| && !r.value.idempotent
              && after.journal == b.journal + [Posting(key, Adjustment, r.value.legs, Some(op), now)]
              && Mirror(r.value.legs) == b.journal[op].legs
              && after.status[op] == Reversed
  {
  }

  // ------------------------------------------------------- well-formedness

  ghost predicate UniqueKeys(journal: seq<Posting>) {
    forall i, j :: 0 <= i < j < |journal| ==> journal[i].key != journal[j].key
  }

  ghost predicate HasReversal(journal: seq<Posting>, op: OpId) {
    exists j :: 0 <= j < |journal| && journal[j].reversalOf == Some(op)
  }

  ghost predicate ReversalsMirror(journal: seq<Posting>) {
    forall j :: 0 <= j < |journal| && journal[j].reversalOf.Some? ==>
      && journal[j].reversalOf.value < j
      && journal[j].kind == Adjustment
      && journal[j].legs == Mirror(journal[journal[j].reversalOf.value].legs)
  }

  ghost predicate WellFormed(b: Book) {
    && |b.status| == |b.journal|
    && (forall i :: 0 <= i < |b.journal| ==> BalancedLegs(b.journal[i].legs))
    && UniqueKeys(b.journal)
    && ReversalsMirror(b.journal)
    && (forall i :: 0 <= i < |b.journal| ==> (b.status[i] == Reversed <==> HasReversal(b.journal, i)))
  }

  /** With unique keys the search finds the one posting that carries the key. */
  lemma KeyIsAt(journal: seq<Posting>, op: OpId)
    requires UniqueKeys(journal) && op < |journal|
    ensures FindKey(journal, journal[op].key) == Some(op)
  {
  }

  lemma FindKeyAppend(journal: seq<Posting>, p: Posting, key: Key)
    ensures FindKey(journal + [p], key) ==
            if FindKey(journal, key).Some? then FindKey(journal, key)
            else if p.key == key then Some(|journal|) else None
  {
  }

  lemma AppendWellFormed(b: Book, p: Posting, st: Status)
    requires WellFormed(b) && BalancedLegs(p.legs) && FindKey(b.journal, p.key).None?
    requires p.reversalOf == None && st != Reversed
    ensures WellFormed(Append(b, p, st))
  {
    var b' := Append(b, p, st);
    assert forall j :: 0 <= j < |b.journal| ==> b'.journal[j] == b.journal[j];
    forall i | 0 <= i < |b'.journal|
      ensures b'.status[i] == Reversed <==> HasReversal(b'.journal, i)
    {
      if i < |b.journal| && HasReversal(b.journal, i) {
        var j :| 0 <= j < |b.journal| && b.journal[j].reversalOf == Some(i);
        assert b'.journal[j].reversalOf == Some(i);
      }
    }
  }

  lemma {:induction false} PostWellFormed(b: Book, input: PostInput, now: int)
    requires WellFormed(b) && StatusOf(input) != Reversed
    ensures WellFormed(Post(b, input, now).0)
  {
    var legs := StoredAll(input.entries);
    if Objection(legs).None? && FindKey(b.journal, input.key).None? {
      AppendWellFormed(b, Posting(input.key, input.kind, legs, None, now), StatusOf(input));
    }
  }

  lemma ReverseWellFormed(b: Book, op: OpId, key: Key, now: int)
    requires WellFormed(b)
    ensures WellFormed(Reverse(b, op, key, now).0)
  {
    var (b', r) := Reverse(b, op, key, now);
    if r.Ok? {
      var n := |b.journal|;
      MirrorBalanced(b.journal[op].legs);
      assert forall j :: 0 <= j < n ==> b'.journal[j] == b.journal[j];
      assert b'.journal[n].reversalOf == Some(op);
      assert HasReversal(b'.journal, op);
      forall i | 0 <= i <= n
        ensures b'.status[i] == Reversed <==> HasReversal(b'.journal, i)
      {
        if i < n && HasReversal(b.journal, i) {
          var j :| 0 <= j < n && b.journal[j].reversalOf == Some(i);
          assert b'.journal[j].reversalOf == Some(i);
        }
      }
    }
  }

  lemma ConfirmWellFormed(b: Book, op: OpId)
    requires WellFormed(b)
    ensures WellFormed(Confirm(b, op))
  {
  }

  /** The mirror of a stored operation always passes the balance check: only the key can be refused. */
  lemma ReversalRefusedOnlyForItsKey(b: Book, op: OpId, key: Key, now: int)
    requires WellFormed(b)
    ensures var r := Reverse(b, op, key, now).1;
            && (r == Err(NotFound) <==> op >= |b.journal|)
            && (r == Err(DuplicateKey) <==> op < |b.journal| && FindKey(b.journal, key).Some?)
            && (r.Err? ==> r.error == NotFound || r.error == DuplicateKey)
  {
    if op < |b.journal| {
      assert BalancedLegs(b.journal[op].legs);
      MirrorBalanced(b.journal[op].legs);
    }
  }

  // -------------------------------------------------------------- whole runs

  datatype Call =
    | CallPost(input: PostInput, now: int)
    | CallReverse(op: OpId, key: Key, now: int)
    | CallConfirm(op: OpId)

  ghost function ApplyCall(b: Book, call: Call): Book {
    match call
    case CallPost(input, now) => Post(b, input, now).0
    case CallReverse(op, key, now) => Reverse(b, op, key, now).0
    case CallConfirm(op) => Confirm(b, op)
  }

  ghost function RunCalls(b: Book, calls: seq<Call>): Book
    decreases |calls|
  {
    if calls == [] then b else ApplyCall(RunCalls(b, calls[..|calls| - 1]), calls[|calls| - 1])
  }

  /** Callers post as pending or leave the default; nobody posts an operation as already reversed. */
  predicate Admissible(call: Call) {
    call.CallPost? ==> StatusOf(call.input) != Reversed
  }

  lemma CallKeeps(b: Book, call: Call)
    requires WellFormed(b) && Admissible(call)
    ensures WellFormed(ApplyCall(b, call))
    ensures b.journal <= ApplyCall(b, call).journal
    ensures forall i :: 0 <= i < |b.status| && b.status[i] == Reversed ==> ApplyCall(b, call).status[i] == Reversed
  {
    match call
    case CallPost(input, now) => PostWellFormed(b, input, now);
    case CallReverse(op, key, now) => ReverseWellFormed(b, op, key, now);
    case CallConfirm(op) => ConfirmWellFormed(b, op);
  }

  /**
   Over every run: the book stays well formed (so an operation is REVERSED exactly when an
   adjustment pointing at it exists), posted entries never change, and REVERSED is never undone.
   */
  lemma {:induction false} RunKeeps(b: Book, calls: seq<Call>)
    requires WellFormed(b) && forall i :: 0 <= i < |calls| ==> Admissible(calls[i])
    ensures WellFormed(RunCalls(b, calls))
    ensures b.journal <= RunCalls(b, calls).journal
    ensures forall i :: 0 <= i < |b.status| && b.status[i] == Reversed ==> RunCalls(b, calls).status[i] == Reversed
    decreases |calls|
  {
    if calls == [] {
    } else {
      var n := |calls| - 1;
      RunKeeps(b, calls[..n]);
      CallKeeps(RunCalls(b, calls[..n]), calls[n]);
    }
  }

  // ------------------------------------------------------- sums over a book

  lemma BalanceAppend(journal: seq<Posting>, p: Posting, a: AccountId, c: Currency)
    ensures Balance(journal + [p], a, c) == Balance(journal, a, c) + Sum(p.legs, LegOn(a, c))
  {
  }

  lemma DebitsAppend(journal: seq<Posting>, p: Posting, a: AccountId, since: int, c: Currency)
    ensures DebitsSince(journal + [p], a, since, c) ==
            DebitsSince(journal, a, since, c) + (if p.at >= since then Sum(p.legs, SideOn(Debit, a, c)) else 0)
  {
  }

  lemma PostingDebitNonNegative(p: Posting, a: AccountId, c: Currency)
    requires BalancedLegs(p.legs)
    ensures Sum(p.legs, SideOn(Debit, a, c)) >= 0
  {
    SumNonNegative(p.legs, SideOn(Debit, a, c));
  }

  /** Spending since a later instant is no larger. */
  lemma DebitsSinceLater(b: Book, a: AccountId, since: int, later: int, c: Currency)
    requires WellFormed(b) && since <= later
    ensures 0 <= DebitsSince(b.journal, a, later, c) <= DebitsSince(b.journal, a, since, c)
  {
    forall i | 0 <= i < |b.journal|
      ensures 0 <= PostingSideSince(Debit, a, later, c)(b.journal[i]) <= PostingSideSince(Debit, a, since, c)(b.journal[i])
    {
      PostingDebitNonNegative(b.journal[i], a, c);
    }
    SumNonNegative(b.journal, PostingSideSince(Debit, a, later, c));
    SumMonotone(b.journal, PostingSideSince(Debit, a, later, c), PostingSideSince(Debit, a, since, c));
  }

  /** In every well-formed book all entries of a currency sum to zero. */
  lemma EntriesSumToZero(b: Book, c: Currency)
    requires WellFormed(b)
    ensures Sum(b.journal, PostingIn(c)) == 0
  {
    var zero := (p: Posting) => 0;
    SumCongruent(b.journal, PostingIn(c), zero);
    SumZero(b.journal, zero);
  }

  /** A debit of one account and the matching credit of another, in the default currency. */
  function Pair(payer: AccountId, payee: AccountId, amount: int): seq<LegInput> {
    [LegInput(payer, Debit, amount, None), LegInput(payee, Credit, amount, None)]
  }

  lemma SumOfTwo<T>(s: seq<T>, f: T -> int)
    requires |s| == 2
    ensures Sum(s, f) == f(s[0]) + f(s[1])
  {
    assert s[..1] == [] + [s[0]];
    SumAppend([], s[0], f);
  }

  lemma PairLegs(payer: AccountId, payee: AccountId, amount: int)
    ensures var legs := StoredAll(Pair(payer, payee, amount));
            && legs == [Leg(payer, Debit, amount, HTG), Leg(payee, Credit, amount, HTG)]
            && (amount > 0 ==> BalancedLegs(legs) && Objection(legs) == None)
            && (amount <= 0 ==> Objection(legs) == Some(NonPositiveAmount))
  {
    var legs := StoredAll(Pair(payer, payee, amount));
    assert legs == [Leg(payer, Debit, amount, HTG), Leg(payee, Credit, amount, HTG)];
    if amount <= 0 {
      assert legs[0].amount <= 0;
    }
    forall c: Currency ensures Net(legs, c) == 0 {
      SumOfTwo(legs, LegIn(c));
    }
  }

  lemma PairEffect(payer: AccountId, payee: AccountId, amount: int, a: AccountId, c: Currency)
    ensures var legs := [Leg(payer, Debit, amount, HTG), Leg(payee, Credit, amount, HTG)];
            && Sum(legs, LegOn(a, c)) ==
               (if c == HTG then (if a == payee then amount else 0) - (if a == payer then amount else 0) else 0)
            && Sum(legs, SideOn(Debit, a, c)) == (if c == HTG && a == payer then amount else 0)
  {
    var legs := [Leg(payer, Debit, amount, HTG), Leg(payee, Credit, amount, HTG)];
    SumOfTwo(legs, LegOn(a, c));
    SumOfTwo(legs, SideOn(Debit, a, c));
  }

  /** A credit listed before the matching debit, as a top-up posts them. */
  function CreditPair(payee: AccountId, payer: AccountId, amount: int): seq<LegInput> {
    [LegInput(payee, Credit, amount, None), LegInput(payer, Debit, amount, None)]
  }

  lemma CreditPairLegs(payee: AccountId, payer: AccountId, amount: int)
    ensures var legs := StoredAll(CreditPair(payee, payer, amount));
            && legs == [Leg(payee, Credit, amount, HTG), Leg(payer, Debit, amount, HTG)]
            && (amount > 0 ==> BalancedLegs(legs) && Objection(legs) == None)
  {
    var legs := StoredAll(CreditPair(payee, payer, amount));
    assert legs == [Leg(payee, Credit, amount, HTG), Leg(payer, Debit, amount, HTG)];
    forall c: Currency ensures Net(legs, c) == 0 {
      SumOfTwo(legs, LegIn(c));
    }
  }
}
