/** `TopupService`: the handlers, run to completion, as sequences of the commits of module `Topup`. */
module TopupService {
  import opened Common
  import opened Ledger
  import opened Topup
  import L = LedgerService

  datatype Outcome = Reference(reference: nat) | Unavailable

  datatype Answer = Created(row: nat, reached: bool, queued: bool) | Refused | RaisedDuplicateReference

  class TopupService {
    const ledger: L.LedgerService
    var rows: seq<TopupRow>

    ghost predicate Valid()
      reads this, ledger
    {
      ledger.Valid() && RowsOk(rows)
    }

    ghost function Contents(): Desk
      reads this, ledger
    {
      Desk(ledger.Contents(), rows)
    }

    constructor (ledger: L.LedgerService)
      requires ledger.Valid()
      ensures Valid() && this.ledger == ledger && rows == []
    {
      this.ledger := ledger;
      rows := [];
    }

    /** Saves the row first; reports success only with a reference in hand, else queues a retry. */
    method Initiate(user: nat, amountHTG: int, monCash: Outcome, now: int) returns (answer: Answer)
      requires Valid()
      modifies this
      ensures Valid()
      ensures amountHTG < 25 ==> answer == Refused && Contents() == old(Contents())
      ensures amountHTG >= 25 ==>
                var known := match monCash
                             case Reference(ref) =>
                               if exists t :: 0 <= t < |old(rows)| && old(rows)[t].reference == Some(ref) then None
                               else Some(ref)
                             case Unavailable => None;
                && rows == old(rows) + [TopupRow(user, amountHTG * 100, TopupPending, known, None)]
                && ledger.Contents() == old(ledger.Contents())
                && (answer == Created(|old(rows)|, true, false) <==> known.Some?)
      ensures amountHTG >= 25 ==>
                var row := |old(rows)|;
                var saved := Commit(old(Contents()), Event.Initiate(user, amountHTG), now);
                match monCash
                case Unavailable => Contents() == saved && answer == Created(row, false, true)
                case Reference(ref) =>
                  && Contents() == Commit(saved, Refer(row, ref), now)
                  && answer == if ReferenceTaken(old(rows), ref) then RaisedDuplicateReference
                               else Created(row, true, false)
    {
      if amountHTG < MIN_TOPUP_HTG {
        return Refused;
      }
      var id := |rows|;
      rows := rows + [TopupRow(user, amountHTG * 100, TopupPending, None, None)];
      match monCash
      case Unavailable =>
        return Created(id, false, true);
      case Reference(reference) =>
        var taken := IsTaken(reference);
        if taken {
          var t :| 0 <= t < |rows| && rows[t].reference == Some(reference);
          assert old(rows)[t].reference == Some(reference);
          return RaisedDuplicateReference;
        }
        assert forall t :: 0 <= t < |old(rows)| ==> old(rows)[t] == rows[t];
        rows := rows[id := rows[id].(reference := Some(reference))];
        return Created(id, true, false);
    }

    method IsTaken(reference: nat) returns (taken: bool)
      ensures taken == ReferenceTaken(rows, reference)
    {
      for t := 0 to |rows|
        invariant forall u :: 0 <= u < t ==> rows[u].reference != Some(reference)
      {
        if rows[t].reference == Some(reference) {
          return true;
        }
      }
      return false;
    }

    /**
     One job attempt. `rethrow` hands the failure back to the queue: always for a reference the unique
     index refuses, and for an unreachable MonCash on every attempt but the last, which fails the row.
     */
    method RetryInitiation(row: nat, monCash: Outcome, isFinalAttempt: bool, now: int) returns (rethrow: bool)
      requires Valid()
      modifies this
      ensures Valid()
      ensures var open := row < |old(rows)| && old(rows)[row].status == TopupPending && old(rows)[row].reference == None;
              && rethrow == (open && (if monCash.Reference? then ReferenceTaken(old(rows), monCash.reference)
                                      else !isFinalAttempt))
              && Contents() ==
                 if !open || rethrow then old(Contents())
                 else if monCash.Reference? then Commit(old(Contents()), Refer(row, monCash.reference), now)
                 else Commit(old(Contents()), GiveUp(row), now)
      ensures ledger.Contents() == old(ledger.Contents()) && |rows| == |old(rows)|
      ensures forall t :: 0 <= t < |rows| && t != row ==> rows[t] == old(rows)[t]
      ensures row < |rows| ==>
                var before := old(rows)[row];
                rows[row] ==
                if rethrow || before.status != TopupPending || before.reference.Some? then before
                else if monCash.Reference? then before.(reference := Some(monCash.reference))
                else before.(status := TopupFailed)
    {
      if row >= |rows| || rows[row].status != TopupPending || rows[row].reference.Some? {
        return false;
      }
      match monCash
      case Reference(reference) =>
        var taken := IsTaken(reference);
        if taken {
          return true;
        }
        rows := rows[row := rows[row].(reference := Some(reference))];
        return false;
      case Unavailable =>
        if !isFinalAttempt {
          return true;
        }
        rows := rows[row := rows[row].(status := TopupFailed)];
        return false;
    }

    /**
     A verified notice. Unknown references are ignored; the status "failed" only marks the row, even one
     that was completed; any other status posts under the reference as key and then marks the row.
     */
    method HandleWebhook(signatureOk: bool, reference: nat, status: string, now: int) returns (accepted: bool)
      requires Valid()
      modifies this, ledger
      ensures Valid()
      ensures accepted == signatureOk
      ensures !signatureOk || !ReferenceTaken(old(rows), reference) ==> Contents() == old(Contents())
      ensures signatureOk ==> forall t :: 0 <= t < |old(rows)| && old(rows)[t].reference == Some(reference) ==>
                Contents() ==
                if status == "failed" then Commit(old(Contents()), MarkFailed(t), now)
                else Commit(Commit(old(Contents()), CreditRow(t), now),
                           MarkCompleted(t, PostedAs(old(Contents()).book, reference)), now)
      ensures signatureOk ==> forall t :: 0 <= t < |old(rows)| && old(rows)[t].reference == Some(reference) ==>
                && |rows| == |old(rows)|
                && (forall u :: 0 <= u < |rows| && u != t ==> rows[u] == old(rows)[u])
                && if status == "failed"
                   then rows[t] == old(rows)[t].(status := TopupFailed) && ledger.Contents() == old(ledger.Contents())
                   else && rows[t].operation.Some?
                        && rows[t] == old(rows)[t].(status := TopupCompleted, operation := rows[t].operation)
                        && rows[t].operation.value < |ledger.Contents().journal|
                        && ledger.Contents().journal[rows[t].operation.value].key == MonCash(reference)
                        && (ledger.Contents() == old(ledger.Contents())
                            || ledger.Contents() ==
                               Book(old(ledger.Contents()).journal
                                    + [Posting(MonCash(reference), Kind.Topup,
                                               [Leg(Wallet(rows[t].user), Credit, rows[t].amountMinor, HTG),
                                                Leg(System("moncash_float"), Debit, rows[t].amountMinor, HTG)],
                                               None, now)],
                                    old(ledger.Contents()).status + [Completed]))
    {
      if !signatureOk {
        return false;
      }
      var found: Option<nat> := None;
      for t := 0 to |rows|
        invariant found == None
        invariant forall u :: 0 <= u < t ==> rows[u].reference != Some(reference)
      {
        if rows[t].reference == Some(reference) {
          found := Some(t);
          break;
        }
      }
      if found == None {
        return true;
      }
      var t := found.value;
      if status == "failed" {
        rows := rows[t := rows[t].(status := TopupFailed)];
        return true;
      }
      var row := rows[t];
      CreditPairLegs(Wallet(row.user), FLOAT, row.amountMinor);
      var r := ledger.PostOperation(
        PostInput(MonCash(reference), Kind.Topup, CreditPair(Wallet(row.user), FLOAT, row.amountMinor), None), now);
      rows := rows[t := row.(status := TopupCompleted, operation := Some(r.value.op))];
      return true;
    }
  }

  /** The operation a completed notice resolves to: the recorded one, or the next to be posted. */
  function PostedAs(book: Book, reference: nat): OpId {
    var r := FindKey(book.journal, MonCash(reference));
    if r.Some? then r.value else |book.journal|
  }

  // -------------------------------------------------------- the retry queue

  /** `process`: whether this run of the job is its last. BullMQ counts the attempts already made. */
  predicate IsFinalAttempt(attemptsMade: nat, attempts: Option<nat>) {
    attemptsMade + 1 >= (if attempts.Some? then attempts.value else 1)
  }

  /** Runs of a job whose MonCash call never succeeds, until one does not rethrow. */
  function FailingRuns(attemptsMade: nat, attempts: Option<nat>): nat
    decreases (if attempts.Some? then attempts.value else 1) - attemptsMade
  {
    if IsFinalAttempt(attemptsMade, attempts) then 1 else 1 + FailingRuns(attemptsMade + 1, attempts)
  }

  /** A job is run exactly as often as it was configured for (once when it was not) before it gives up. */
  lemma {:induction false} GivesUpOnTheLastAttempt(attemptsMade: nat, attempts: Option<nat>)
    requires attempts.Some? ==> attempts.value >= 1
    requires attemptsMade < (if attempts.Some? then attempts.value else 1)
    ensures attemptsMade + FailingRuns(attemptsMade, attempts) == if attempts.Some? then attempts.value else 1
    decreases (if attempts.Some? then attempts.value else 1) - attemptsMade
  {
    if !IsFinalAttempt(attemptsMade, attempts) {
      GivesUpOnTheLastAttempt(attemptsMade + 1, attempts);
    }
  }
}
