/**
 "Commit, or on a unique violation re-read": how `postOperation` and `getOrCreate` stay idempotent
 when calls with the same key race. Calls take their reads and writes one at a time, in any order.
 */
module CommitOrReread {
  import opened Common

  /** A row is its key; rows are only ever appended, so a row's id is its position. */
  function Position<K(==)>(rows: seq<K>, key: K): (r: Option<nat>)
    ensures r.Some? ==> r.value < |rows| && rows[r.value] == key
    ensures r.None? ==> key !in rows
  {
    if rows == [] then None
    else
      var n := |rows| - 1;
      var earlier := Position(rows[..n], key);
      if earlier.Some? then earlier else if rows[n] == key then Some(n) else None
  }

  /** The search from the front stops at the position. */
  lemma {:induction false} FirstPosition<K>(rows: seq<K>, i: nat, key: K)
    requires i < |rows| && rows[i] == key && Position(rows[..i], key) == None
    ensures Position(rows, key) == Some(i)
    decreases |rows|
  {
    var n := |rows| - 1;
    if i == n {
    } else {
      assert rows[..n][..i] == rows[..i];
      FirstPosition(rows[..n], i, key);
    }
  }

  // ---------------------------------------------------- one call after another

  datatype Result = Result(row: nat, inserted: bool)

  /** What a call returns when it runs alone on a table: the row under its key, inserted if need be. */
  function Alone<K(==)>(rows: seq<K>, key: K): Result {
    match Position(rows, key)
    case Some(row) => Result(row, false)
    case None => Result(|rows|, true)
  }

  /** A call that returned. */
  datatype Entry<K> = Entry(call: nat, key: K, result: Result)

  /** The table after calls that ran one after another. */
  function TableOf<K(==)>(log: seq<Entry<K>>): seq<K> {
    if log == [] then []
    else
      var rows := TableOf(log[..|log| - 1]);
      var key := log[|log| - 1].key;
      if Position(rows, key).Some? then rows else rows + [key]
  }

  /** Each call returned what it returns alone on the table its predecessors left. */
  ghost predicate Sequential<K>(log: seq<Entry<K>>) {
    log != [] ==>
      var n := |log| - 1;
      Sequential(log[..n]) && log[n].result == Alone(TableOf(log[..n]), log[n].key)
  }

  // ------------------------------------------------------------- racing calls

  datatype Phase = Looking | Inserting | Rereading | Returned(result: Result) | Dead | Lost

  datatype Call<K> = Call(key: K, phase: Phase)

  /** `log` lists the calls that returned, in the order of the read or write that decided them. */
  datatype Race<K> = Race(rows: seq<K>, calls: seq<Call<K>>, log: seq<Entry<K>>)

  /** `Begin` with `look` reads first, as `getOrCreate` does; without, it inserts at once, as `postOperation`. */
  datatype Event<K> = Begin(key: K, look: bool) | Step(call: nat) | Die(call: nat)

  function Put<K>(r: Race<K>, i: nat, phase: Phase): Race<K>
    requires i < |r.calls|
  {
    r.(calls := r.calls[i := r.calls[i].(phase := phase)])
  }

  function Return<K>(r: Race<K>, i: nat, result: Result, rows: seq<K>): Race<K>
    requires i < |r.calls|
  {
    Put(r, i, Returned(result)).(log := r.log + [Entry(i, r.calls[i].key, result)], rows := rows)
  }

  function StepCall<K(==)>(r: Race<K>, i: nat): Race<K>
    requires i < |r.calls|
  {
    var key := r.calls[i].key;
    var row := Position(r.rows, key);
    match r.calls[i].phase
    case Looking => if row.Some? then Return(r, i, Result(row.value, false), r.rows) else Put(r, i, Inserting)
    case Inserting =>
      if row.Some? then Put(r, i, Rereading)
      else Return(r, i, Result(|r.rows|, true), r.rows + [key])
    case Rereading => if row.Some? then Return(r, i, Result(row.value, false), r.rows) else Put(r, i, Lost)
    case _ => r
  }

  function Next<K(==)>(r: Race<K>, e: Event<K>): Race<K> {
    match e
    case Begin(key, look) => r.(calls := r.calls + [Call(key, if look then Looking else Inserting)])
    case Step(i) => if i < |r.calls| then StepCall(r, i) else r
    case Die(i) => if i < |r.calls| && !r.calls[i].phase.Returned? then Put(r, i, Dead) else r
  }

  function RunRace<K(==)>(events: seq<Event<K>>): Race<K> {
    if events == [] then Race([], [], [])
    else Next(RunRace(events[..|events| - 1]), events[|events| - 1])
  }

  // ---------------------------------------------------------- linearizability

  /** The log tells of every call that returned, once, and of no other. */
  ghost predicate Faithful<K>(calls: seq<Call<K>>, log: seq<Entry<K>>) {
    && (forall p :: 0 <= p < |log| ==>
          log[p].call < |calls| && calls[log[p].call] == Call(log[p].key, Returned(log[p].result)))
    && (forall p, q :: 0 <= p < q < |log| ==> log[p].call != log[q].call)
    && (forall i :: 0 <= i < |calls| && calls[i].phase.Returned? ==> Logged(log, i))
  }

  ghost predicate Logged<K>(log: seq<Entry<K>>, i: nat) {
    exists p :: 0 <= p < |log| && log[p].call == i
  }

  /** The race looks as if its finished calls had run one after another, in the order of the log. */
  ghost predicate AsIfSequential<K>(r: Race<K>) {
    Sequential(r.log) && r.rows == TableOf(r.log) && Faithful(r.calls, r.log)
  }

  /** A call that re-reads has seen the row, and rows stay. */
  ghost predicate NeverLost<K>(r: Race<K>) {
    forall i :: 0 <= i < |r.calls| ==>
      r.calls[i].phase != Lost && (r.calls[i].phase.Rereading? ==> r.calls[i].key in r.rows)
  }

  lemma FaithfulReturn<K>(calls: seq<Call<K>>, log: seq<Entry<K>>, i: nat, result: Result)
    requires Faithful(calls, log) && i < |calls| && !calls[i].phase.Returned?
    ensures Faithful(calls[i := calls[i].(phase := Returned(result))], log + [Entry(i, calls[i].key, result)])
  {
    var log' := log + [Entry(i, calls[i].key, result)];
    assert log'[|log|].call == i;
    forall k | 0 <= k < |calls| && Logged(log, k) ensures Logged(log', k) {
      var p :| 0 <= p < |log| && log[p].call == k;
      assert log'[p].call == k;
    }
  }

  lemma FaithfulPut<K>(calls: seq<Call<K>>, log: seq<Entry<K>>, i: nat, phase: Phase)
    requires Faithful(calls, log) && i < |calls| && !calls[i].phase.Returned? && !phase.Returned?
    ensures Faithful(calls[i := calls[i].(phase := phase)], log)
  {
  }

  lemma LogAppend<K>(log: seq<Entry<K>>, e: Entry<K>)
    ensures TableOf(log + [e]) == if Position(TableOf(log), e.key).Some? then TableOf(log) else TableOf(log) + [e.key]
    ensures Sequential(log + [e]) <==> Sequential(log) && e.result == Alone(TableOf(log), e.key)
  {
  }

  lemma {:induction false} NextKeeps<K>(r: Race<K>, e: Event<K>)
    requires AsIfSequential(r) && NeverLost(r)
    ensures AsIfSequential(Next(r, e)) && NeverLost(Next(r, e))
  {
    hide Faithful, Sequential, TableOf;
    match e
    case Begin(key, look) => FaithfulBegin(r.calls, r.log, Call(key, if look then Looking else Inserting));
    case Step(i) =>
      if i < |r.calls| {
        var key, phase := r.calls[i].key, r.calls[i].phase;
        var result := Alone(r.rows, key);
        LogAppend(r.log, Entry(i, key, result));
        if !phase.Returned? {
          FaithfulReturn(r.calls, r.log, i, result);
          FaithfulPut(r.calls, r.log, i, Inserting);
          FaithfulPut(r.calls, r.log, i, Rereading);
        }
      }
    case Die(i) =>
      if i < |r.calls| && !r.calls[i].phase.Returned? {
        FaithfulPut(r.calls, r.log, i, Dead);
      }
  }

  lemma FaithfulBegin<K>(calls: seq<Call<K>>, log: seq<Entry<K>>, call: Call<K>)
    requires Faithful(calls, log) && !call.phase.Returned?
    ensures Faithful(calls + [call], log)
  {
  }

  /**
   Every interleaving is equivalent to a sequential run: the first call per key inserts, every other
   returns the same row, and no re-read ever comes back empty.
   */
  lemma {:induction false} Linearizable<K>(events: seq<Event<K>>)
    ensures AsIfSequential(RunRace(events)) && NeverLost(RunRace(events))
  {
    if events == [] {
    } else {
      Linearizable(events[..|events| - 1]);
      NextKeeps(RunRace(events[..|events| - 1]), events[|events| - 1]);
    }
  }

  lemma {:induction false} TableDistinct<K>(log: seq<Entry<K>>)
    ensures Distinct(TableOf(log))
  {
    if log == [] {
    } else {
      TableDistinct(log[..|log| - 1]);
    }
  }

  /** In a sequential log every call names a row that holds its key. */
  lemma {:induction false} NamesItsRow<K>(log: seq<Entry<K>>, p: nat)
    requires Sequential(log) && p < |log|
    ensures log[p].result.row < |TableOf(log)| && TableOf(log)[log[p].result.row] == log[p].key
    decreases |log|
  {
    var n := |log| - 1;
    if p == n {
    } else {
      NamesItsRow(log[..n], p);
    }
  }

  lemma {:induction false} SequentialPrefix<K>(log: seq<Entry<K>>, n: nat)
    requires Sequential(log) && n <= |log|
    ensures Sequential(log[..n])
    decreases |log|
  {
    if n == |log| {
      assert log[..n] == log;
    } else {
      var m := |log| - 1;
      assert log[..m][..n] == log[..n];
      SequentialPrefix(log[..m], n);
    }
  }

  /** Only the first call of a key inserted. */
  lemma {:induction false} LaterDidNotInsert<K>(log: seq<Entry<K>>, p: nat, q: nat)
    requires Sequential(log) && p < q < |log| && log[p].key == log[q].key
    ensures !log[q].result.inserted
  {
    hide TableOf, Sequential;
    var upTo := log[..q + 1];
    SequentialPrefix(log, q + 1);
    LastAlone(upTo);
    assert upTo[..q] == log[..q] && upTo[q] == log[q];
    NamesItsRow(log[..q], p);
  }

  lemma LastAlone<K>(log: seq<Entry<K>>)
    requires log != [] && Sequential(log)
    ensures Sequential(log[..|log| - 1])
    ensures log[|log| - 1].result == Alone(TableOf(log[..|log| - 1]), log[|log| - 1].key)
  {
  }

  /** Racing calls under one key agree on the row; at most one of them inserted it. */
  lemma SameKeySameRow<K>(events: seq<Event<K>>, i: nat, j: nat)
    requires var r := RunRace(events);
             && i < |r.calls| && j < |r.calls| && i != j && r.calls[i].key == r.calls[j].key
             && r.calls[i].phase.Returned? && r.calls[j].phase.Returned?
    ensures var r := RunRace(events);
            var x, y := r.calls[i].phase.result, r.calls[j].phase.result;
            && x.row == y.row && x.row < |r.rows| && r.rows[x.row] == r.calls[i].key
            && !(x.inserted && y.inserted)
  {
    Linearizable(events);
    var r := RunRace(events);
    hide RunRace, TableOf, Sequential;
    assert Logged(r.log, i) && Logged(r.log, j);
    var p :| 0 <= p < |r.log| && r.log[p].call == i;
    var q :| 0 <= q < |r.log| && r.log[q].call == j;
    NamesItsRow(r.log, p);
    NamesItsRow(r.log, q);
    TableDistinct(r.log);
    if p < q {
      LaterDidNotInsert(r.log, p, q);
    } else {
      LaterDidNotInsert(r.log, q, p);
    }
  }
}

/** The race applied: what `postOperation` does is what a call of the race does alone on the column of keys. */
module PostRace {
  import opened Common
  import opened Ledger
  import CommitOrReread

  /** The unique column. */
  function Keys(journal: seq<Posting>): (keys: seq<Key>)
    ensures |keys| == |journal|
  {
    seq(|journal|, i requires 0 <= i < |journal| => journal[i].key)
  }

  lemma {:induction false} FindKeyIsPosition(journal: seq<Posting>, key: Key)
    ensures FindKey(journal, key) == CommitOrReread.Position(Keys(journal), key)
  {
    if journal == [] {
    } else {
      var n := |journal| - 1;
      FindKeyIsPosition(journal[..n], key);
      assert Keys(journal)[..n] == Keys(journal[..n]);
    }
  }

  /**
   A post that is not refused answers with the row and the idempotent flag of a call that runs alone, and
   leaves the column of keys as such a call does.
   */
  lemma PostIsAlone(b: Book, input: PostInput, now: int)
    ensures var (after, r) := Post(b, input, now);
            r.Ok? ==>
              var alone := CommitOrReread.Alone(Keys(b.journal), input.key);
              && r.value.op == alone.row && r.value.idempotent == !alone.inserted
              && Keys(after.journal) == if alone.inserted then Keys(b.journal) + [input.key] else Keys(b.journal)
  {
    FindKeyIsPosition(b.journal, input.key);
    hide FindKey, Objection;
  }
}

/** `AccountsService`: the accounts table, one row per owner. */
module Accounts {
  import opened Common
  import opened Ledger
  import CommitOrReread

  datatype AccountRow = AccountRow(owner: AccountId, currency: Currency)

  function Owners(rows: seq<AccountRow>): seq<AccountId> {
    seq(|rows|, i requires 0 <= i < |rows| => rows[i].owner)
  }

  /** The partial unique indexes on (ownerId, name) and on the system names. */
  ghost predicate OneRowPerOwner(rows: seq<AccountRow>) {
    Distinct(Owners(rows))
  }

  class AccountsService {
    var accounts: seq<AccountRow>

    ghost predicate Valid()
      reads this
    {
      OneRowPerOwner(accounts)
    }

    constructor ()
      ensures Valid() && accounts == []
    {
      accounts := [];
    }

    method FindOne(owner: AccountId) returns (found: Option<nat>)
      ensures found == CommitOrReread.Position(Owners(accounts), owner)
    {
      ghost var owners := Owners(accounts);
      for i := 0 to |accounts|
        invariant CommitOrReread.Position(owners[..i], owner) == None
      {
        assert owners[..i + 1][..i] == owners[..i];
        if accounts[i].owner == owner {
          CommitOrReread.FirstPosition(owners, i, owner);
          return Some(i);
        }
      }
      assert owners[..|accounts|] == owners;
      return None;
    }

    /**
     Reads, inserts, and re-reads when another connection inserted first. `meanwhile` is what other
     connections commit between the read and the insert.
     */
    method GetOrCreate(owner: AccountId, currency: Currency, meanwhile: seq<AccountRow>) returns (id: nat)
      requires Valid() && OneRowPerOwner(accounts + meanwhile)
      modifies this
      ensures Valid()
      ensures id < |accounts| && accounts[id].owner == owner
      ensures var seen := CommitOrReread.Position(Owners(old(accounts)), owner);
              var raced := old(accounts) + meanwhile;
              if seen.Some? then accounts == old(accounts) && id == seen.value
              else if CommitOrReread.Position(Owners(raced), owner).Some? then accounts == raced
              else accounts == raced + [AccountRow(owner, currency)] && id == |raced|
    {
      var existing := FindOne(owner);
      if existing.Some? {
        return existing.value;
      }
      accounts := accounts + meanwhile;
      var conflict := FindOne(owner);
      if conflict.Some? {
        return conflict.value;
      }
      assert forall i :: 0 <= i < |accounts| ==> Owners(accounts)[i] == accounts[i].owner;
      accounts := accounts + [AccountRow(owner, currency)];
      return |accounts| - 1;
    }
  }
}
