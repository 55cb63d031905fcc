/** Lists read page by page: the clamp, the stable newest-first order, and the walks that must lose nothing. */
module Paging {
  import opened Common

  const DEFAULT_PAGE_SIZE := 20
  const MAX_PAGE_SIZE := 100
  const TICKET_PAGE_SIZE := 25
  const MAX_THREAD_MESSAGES := 500

  datatype Paging = Paging(take: int, skip: int)

  /** `toFindPaging`. */
  function ToFindPaging(limit: Option<int>, offset: Option<int>): Paging {
    Paging(Min(if limit.Some? then limit.value else DEFAULT_PAGE_SIZE, MAX_PAGE_SIZE),
           if offset.Some? then offset.value else 0)
  }

  /** `slice(skip).slice(0, take)`. */
  function Page<T>(rows: seq<T>, take: nat, skip: nat): (page: seq<T>)
    ensures forall x :: x in page ==> x in rows
    ensures |page| == if skip >= |rows| then 0 else Min(take, |rows| - skip)
  {
    if skip >= |rows| then []
    else if take >= |rows| - skip then rows[skip..]
    else rows[skip..skip + take]
  }

  /** What a list endpoint answers to a `limit` and an `offset`. */
  function Served<T>(rows: seq<T>, limit: nat, offset: nat): (page: seq<T>)
    ensures |page| <= 100
    ensures forall x :: x in page ==> x in rows
  {
    var paging := ToFindPaging(Some(limit), Some(offset));
    Page(rows, paging.take, paging.skip)
  }

  // ---------------------------------------------------------------- full walks

  /** Asking for `limit` rows at a time until an answer comes back short, or empty. */
  function Walk<T>(rows: seq<T>, limit: nat, offset: nat): seq<T>
    decreases |rows| - offset
  {
    var page := Served(rows, limit, offset);
    if |page| < limit || page == [] then page else page + Walk(rows, limit, offset + limit)
  }

  /** Within the clamp, the answers cover every row exactly once, in order, wherever the walk starts. */
  lemma {:induction false} WalkCovers<T>(rows: seq<T>, limit: nat, offset: nat)
    requires 1 <= limit <= 100 && offset <= |rows|
    ensures Walk(rows, limit, offset) == rows[offset..]
    decreases |rows| - offset
  {
    var page := Served(rows, limit, offset);
    if |page| < limit {
    } else {
      WalkCovers(rows, limit, offset + limit);
      assert rows[offset..] == rows[offset..offset + limit] + rows[offset + limit..];
    }
  }

  ghost predicate WalkIsComplete(limit: nat) {
    forall rows: seq<int> :: Walk(rows, limit, 0) == rows
  }

  /** A walk covers every list if and only if it asks for at least one row and for no more than the clamp. */
  lemma WalkCoversWhen(limit: nat)
    ensures WalkIsComplete(limit) <==> 1 <= limit <= 100
  {
    if 1 <= limit <= MAX_PAGE_SIZE {
      forall rows: seq<int> ensures Walk(rows, limit, 0) == rows {
        WalkCovers(rows, limit, 0);
      }
    } else {
      var rows := seq(MAX_PAGE_SIZE + 1, i => i);
      assert |Walk(rows, limit, 0)| <= MAX_PAGE_SIZE;
    }
  }

  // ------------------------------------------------------------- ticket queue

  datatype Queue<T> = Queue(items: seq<T>, hasMore: bool)

  /** `getTicketQueue` with a page size: one row more than it shows is asked of a server that clamps. */
  function TicketQueue<T>(tickets: seq<T>, pageSize: nat, offset: nat): Queue<T> {
    var rows := Served(tickets, pageSize + 1, offset);
    Queue(if |rows| <= pageSize then rows else rows[..pageSize], |rows| > pageSize)
  }

  ghost predicate HasMoreIsExact(tickets: seq<int>, pageSize: nat, offset: nat) {
    TicketQueue(tickets, pageSize, offset).hasMore <==> offset + pageSize < |tickets|
  }

  lemma ExtraRowShows<T>(tickets: seq<T>, pageSize: nat, offset: nat)
    requires pageSize < 100
    ensures var q := TicketQueue(tickets, pageSize, offset);
            && q.items == Page(tickets, pageSize, offset)
            && (q.hasMore <==> offset + pageSize < |tickets|)
  {
  }

  /** `hasMore` is exact for every queue and offset if and only if the clamp leaves room for the extra row. */
  lemma HasMoreExactWhen(pageSize: nat)
    ensures (forall tickets: seq<int>, offset: nat :: HasMoreIsExact(tickets, pageSize, offset))
            <==> pageSize < 100
  {
    if pageSize < MAX_PAGE_SIZE {
      forall tickets: seq<int>, offset: nat ensures HasMoreIsExact(tickets, pageSize, offset) {
        ExtraRowShows(tickets, pageSize, offset);
      }
    } else {
      var tickets := seq(pageSize + 1, i => i);
      assert !HasMoreIsExact(tickets, pageSize, 0);
    }
  }

  /** "Load more" until there is no more. */
  function LoadAll<T>(tickets: seq<T>, loaded: seq<T>): seq<T>
    decreases |tickets| - |loaded|
  {
    var q := TicketQueue(tickets, TICKET_PAGE_SIZE, |loaded|);
    var all := loaded + q.items;
    if q.hasMore && |all| > |loaded| then LoadAll(tickets, all) else all
  }

  /** Repeated loading rebuilds the whole queue. */
  lemma {:induction false} LoadAllRebuilds<T>(tickets: seq<T>, n: nat)
    requires n <= |tickets|
    ensures LoadAll(tickets, tickets[..n]) == tickets
    decreases |tickets| - n
  {
    ExtraRowShows(tickets, TICKET_PAGE_SIZE, n);
    var q := TicketQueue(tickets, TICKET_PAGE_SIZE, n);
    if q.hasMore {
      assert tickets[..n] + q.items == tickets[..n + TICKET_PAGE_SIZE];
      LoadAllRebuilds(tickets, n + TICKET_PAGE_SIZE);
    } else {
      assert tickets[..n] + q.items == tickets;
    }
  }

  // ------------------------------------------------------------ support thread

  function Reversed<T>(s: seq<T>): (r: seq<T>)
    ensures |r| == |s| && forall i :: 0 <= i < |s| ==> r[i] == s[|s| - 1 - i]
  {
    seq(|s|, i requires 0 <= i < |s| => s[|s| - 1 - i])
  }

  /** `getTicket`: the newest messages are fetched first, then shown oldest first. */
  function Thread<T>(messages: seq<T>, at: T -> int): seq<T> {
    Reversed(Page(NewestFirst(messages, at), MAX_THREAD_MESSAGES, 0))
  }

  ghost predicate IsOldestFirst<T>(s: seq<T>, at: T -> int) {
    forall i, j :: 0 <= i < j < |s| ==> at(s[i]) <= at(s[j])
  }

  lemma ReversedRows<T>(s: seq<T>)
    ensures multiset(Reversed(s)) == multiset(s)
  {
    if s == [] {
    } else {
      var n := |s| - 1;
      ReversedRows(s[..n]);
      assert Reversed(s) == [s[n]] + Reversed(s[..n]);
      assert s == s[..n] + [s[n]];
    }
  }

  /** What is shown is the newest five hundred messages, oldest first; what is not shown is no newer. */
  lemma ThreadIsNewest<T>(messages: seq<T>, at: T -> int) returns (unseen: seq<T>)
    ensures |Thread(messages, at)| == if |messages| < 500 then |messages| else 500
    ensures IsOldestFirst(Thread(messages, at), at)
    ensures multiset(messages) == multiset(Thread(messages, at)) + multiset(unseen)
    ensures forall i, j :: 0 <= i < |Thread(messages, at)| && 0 <= j < |unseen| ==>
              at(unseen[j]) <= at(Thread(messages, at)[i])
  {
    var newest := NewestFirst(messages, at);
    var shown := Page(newest, MAX_THREAD_MESSAGES, 0);
    NewestFirstSorted(messages, at);
    NewestFirstKeepsRows(messages, at);
    ReversedRows(shown);
    unseen := newest[|shown|..];
    assert newest == shown + unseen;
  }

  // ------------------------------------------------- filtering and stable order

  function Filter<T>(s: seq<T>, keep: T -> bool): (kept: seq<T>)
    ensures forall x :: x in kept ==> x in s
  {
    if s == [] then []
    else var n := |s| - 1; Filter(s[..n], keep) + if keep(s[n]) then [s[n]] else []
  }

  /** Behind every row at least as new. */
  function InsertNewest<T>(sorted: seq<T>, x: T, at: T -> int): (r: seq<T>)
    ensures |r| == |sorted| + 1
    ensures forall y :: y in r ==> y in sorted || y == x
  {
    if sorted == [] || at(sorted[|sorted| - 1]) >= at(x) then sorted + [x]
    else var n := |sorted| - 1; InsertNewest(sorted[..n], x, at) + [sorted[n]]
  }

  /** Newest first; rows of the same instant keep their table order. */
  function NewestFirst<T>(s: seq<T>, at: T -> int): (r: seq<T>)
    ensures |r| == |s|
    ensures forall y :: y in r ==> y in s
  {
    if s == [] then [] else InsertNewest(NewestFirst(s[..|s| - 1], at), s[|s| - 1], at)
  }

  ghost predicate IsNewestFirst<T>(s: seq<T>, at: T -> int) {
    forall i, j :: 0 <= i < j < |s| ==> at(s[i]) >= at(s[j])
  }

  lemma FilterAppend<T>(s: seq<T>, x: T, keep: T -> bool)
    ensures Filter(s + [x], keep) == Filter(s, keep) + if keep(x) then [x] else []
  {
  }

  /** How often a row is kept. */
  lemma {:induction false} FilterCounts<T>(s: seq<T>, keep: T -> bool, x: T)
    ensures multiset(Filter(s, keep))[x] == if keep(x) then multiset(s)[x] else 0
  {
    if s == [] {
    } else {
      var n := |s| - 1;
      FilterCounts(s[..n], keep, x);
      assert s == s[..n] + [s[n]];
    }
  }

  lemma {:induction false} InsertKeepsRows<T>(sorted: seq<T>, x: T, at: T -> int)
    ensures multiset(InsertNewest(sorted, x, at)) == multiset(sorted) + multiset{x}
  {
    if sorted == [] || at(sorted[|sorted| - 1]) >= at(x) {
    } else {
      var n := |sorted| - 1;
      InsertKeepsRows(sorted[..n], x, at);
      assert sorted == sorted[..n] + [sorted[n]];
    }
  }

  ghost predicate NoOlderThan<T>(s: seq<T>, at: T -> int, t: int) {
    forall i :: 0 <= i < |s| ==> at(s[i]) >= t
  }

  lemma {:induction false} InsertSorted<T>(sorted: seq<T>, x: T, at: T -> int, t: int)
    requires IsNewestFirst(sorted, at) && NoOlderThan(sorted, at, t) && at(x) >= t
    ensures IsNewestFirst(InsertNewest(sorted, x, at), at) && NoOlderThan(InsertNewest(sorted, x, at), at, t)
  {
    if sorted == [] || at(sorted[|sorted| - 1]) >= at(x) {
    } else {
      var n := |sorted| - 1;
      InsertSorted(sorted[..n], x, at, at(sorted[n]));
    }
  }

  lemma NewestIsBound<T>(sorted: seq<T>, x: T, at: T -> int) returns (t: int)
    requires IsNewestFirst(sorted, at)
    ensures NoOlderThan(sorted, at, t) && at(x) >= t
  {
    t := if sorted == [] then at(x) else Min(at(x), at(sorted[|sorted| - 1]));
  }

  lemma {:induction false} InsertSum<T>(sorted: seq<T>, x: T, at: T -> int, f: T -> int)
    ensures Sum(InsertNewest(sorted, x, at), f) == Sum(sorted, f) + f(x)
  {
    if sorted == [] || at(sorted[|sorted| - 1]) >= at(x) {
      SumAppend(sorted, x, f);
    } else {
      var n := |sorted| - 1;
      InsertSum(sorted[..n], x, at, f);
      SumAppend(InsertNewest(sorted[..n], x, at), sorted[n], f);
    }
  }

  lemma {:induction false} InsertStable<T>(sorted: seq<T>, x: T, at: T -> int, t: int, same: T -> bool)
    requires IsNewestFirst(sorted, at) && forall y :: same(y) <==> at(y) == t
    ensures Filter(InsertNewest(sorted, x, at), same) == Filter(sorted, same) + if same(x) then [x] else []
  {
    if sorted == [] || at(sorted[|sorted| - 1]) >= at(x) {
      FilterAppend(sorted, x, same);
    } else {
      var n := |sorted| - 1;
      InsertStable(sorted[..n], x, at, t, same);
      FilterAppend(InsertNewest(sorted[..n], x, at), sorted[n], same);
    }
  }

  lemma {:induction false} NewestFirstSorted<T>(s: seq<T>, at: T -> int)
    ensures IsNewestFirst(NewestFirst(s, at), at)
  {
    if s == [] {
    } else {
      var n := |s| - 1;
      NewestFirstSorted(s[..n], at);
      var t := NewestIsBound(NewestFirst(s[..n], at), s[n], at);
      InsertSorted(NewestFirst(s[..n], at), s[n], at, t);
    }
  }

  lemma {:induction false} NewestFirstKeepsRows<T>(s: seq<T>, at: T -> int)
    ensures multiset(NewestFirst(s, at)) == multiset(s)
  {
    if s == [] {
    } else {
      var n := |s| - 1;
      NewestFirstKeepsRows(s[..n], at);
      InsertKeepsRows(NewestFirst(s[..n], at), s[n], at);
      assert s == s[..n] + [s[n]];
    }
  }

  lemma {:induction false} NewestFirstStable<T>(s: seq<T>, at: T -> int, t: int, same: T -> bool)
    requires forall y :: same(y) <==> at(y) == t
    ensures Filter(NewestFirst(s, at), same) == Filter(s, same)
  {
    if s == [] {
    } else {
      var n := |s| - 1;
      NewestFirstStable(s[..n], at, t, same);
      NewestFirstSorted(s[..n], at);
      InsertStable(NewestFirst(s[..n], at), s[n], at, t, same);
    }
  }

  /** The order is newest first, loses no row, and is stable: each instant's rows stay in table order. */
  lemma NewestFirstOrders<T>(s: seq<T>, at: T -> int, t: int, same: T -> bool)
    requires forall y :: same(y) <==> at(y) == t
    ensures IsNewestFirst(NewestFirst(s, at), at)
    ensures multiset(NewestFirst(s, at)) == multiset(s)
    ensures Filter(NewestFirst(s, at), same) == Filter(s, same)
  {
    NewestFirstSorted(s, at);
    NewestFirstKeepsRows(s, at);
    NewestFirstStable(s, at, t, same);
  }

  lemma {:induction false} NewestFirstSum<T>(s: seq<T>, at: T -> int, f: T -> int)
    ensures Sum(NewestFirst(s, at), f) == Sum(s, f)
  {
    if s == [] {
    } else {
      var n := |s| - 1;
      NewestFirstSum(s[..n], at, f);
      InsertSum(NewestFirst(s[..n], at), s[n], at, f);
    }
  }

  lemma {:induction false} FilterSum<T>(s: seq<T>, keep: T -> bool, f: T -> int, g: T -> int)
    requires forall x :: g(x) == if keep(x) then f(x) else 0
    ensures Sum(Filter(s, keep), f) == Sum(s, g)
  {
    if s == [] {
    } else {
      var n := |s| - 1;
      FilterSum(s[..n], keep, f, g);
      if keep(s[n]) {
        SumAppend(Filter(s[..n], keep), s[n], f);
      } else {
        assert Filter(s, keep) == Filter(s[..n], keep);
      }
    }
  }
}
