/** `AuthService`: accounts under canonical numbers, and the lock after five wrong PINs. */
module Auth {
  import opened Common
  import CommitOrReread
  import Phone

  const MAX_FAILURES := 5
  const LOCK_MS := 15 * 60 * 1000

  datatype Lock = Lock(failed: nat, lockedUntil: Option<int>)

  /** `pin` stands for what argon2 verifies. */
  datatype User = User(phone: string, pin: int, lock: Lock)

  datatype RegisterResult =
    | Registered(phone: string)
    | Conflict
    | RaisedUniqueViolation
    | BadPhone(error: Phone.PhoneError)

  datatype LoginResult = LoggedIn | InvalidCredentials | TemporarilyLocked | Malformed(error: Phone.PhoneError)

  const FRESH := Lock(0, None)

  /** What one attempt on an existing account does: the PIN is verified before the lock is looked at. */
  function Attempt(lock: Lock, pinOk: bool, now: int): (Lock, LoginResult) {
    if !pinOk then
      var failed := lock.failed + 1;
      (Lock(failed, if failed >= MAX_FAILURES then Some(now + LOCK_MS) else lock.lockedUntil), InvalidCredentials)
    else if lock.lockedUntil.Some? && lock.lockedUntil.value > now then (lock, TemporarilyLocked)
    else (if lock.failed > 0 then FRESH else lock, LoggedIn)
  }

  function Phones(users: seq<User>): seq<string> {
    seq(|users|, i requires 0 <= i < |users| => users[i].phone)
  }

  lemma LocksKeepPhones(users: seq<User>, i: nat)
    requires i < |users|
    ensures forall lock :: Phones(users[i := users[i].(lock := lock)]) == Phones(users)
  {
  }

  class AuthService {
    var users: seq<User>

    /** The unique index on `phone`. */
    ghost predicate Valid()
      reads this
    {
      Distinct(Phones(users))
    }

    constructor ()
      ensures Valid() && users == []
    {
      users := [];
    }

    /** `findOneBy({ phone })`. */
    method FindByPhone(phone: string) returns (found: Option<nat>)
      ensures found == CommitOrReread.Position(Phones(users), phone)
    {
      ghost var phones := Phones(users);
      for i := 0 to |users|
        invariant CommitOrReread.Position(phones[..i], phone) == None
      {
        assert phones[..i + 1][..i] == phones[..i];
        if users[i].phone == phone {
          CommitOrReread.FirstPosition(phones, i, phone);
          return Some(i);
        }
      }
      assert phones[..|users|] == phones;
      return None;
    }

    /**
     Reads, then inserts under the canonical number. `meanwhile` is what other connections insert in
     between: the same number among them makes the insert fail, and nothing here catches that.
     */
    method Register(phone: string, pin: int, meanwhile: seq<User>) returns (r: RegisterResult)
      requires Valid() && Distinct(Phones(users + meanwhile))
      modifies this
      ensures Valid()
      ensures match Phone.NormalizePhone(phone)
              case Err(e) => r == BadPhone(e) && users == old(users)
              case Ok(p) =>
                if p in Phones(old(users)) then r == Conflict && users == old(users)
                else if p in Phones(meanwhile) then r == RaisedUniqueViolation && users == old(users) + meanwhile
                else r == Registered(p) && users == old(users) + meanwhile + [User(p, pin, FRESH)]
    {
      var normalized := Phone.NormalizePhone(phone);
      if normalized.Err? {
        return BadPhone(normalized.error);
      }
      var p := normalized.value;
      var existing := FindByPhone(p);
      if existing.Some? {
        return Conflict;
      }
      ghost var before := users;
      users := users + meanwhile;
      assert Phones(users) == Phones(before) + Phones(meanwhile);
      var taken := FindByPhone(p);
      if taken.Some? {
        return RaisedUniqueViolation;
      }
      assert Phones(users + [User(p, pin, FRESH)]) == Phones(users) + [p];
      users := users + [User(p, pin, FRESH)];
      return Registered(p);
    }

    method Login(phone: string, pin: int, now: int) returns (r: LoginResult)
      requires Valid()
      modifies this
      ensures Valid() && Phones(users) == Phones(old(users))
      ensures match Phone.NormalizePhone(phone)
              case Err(e) => r == Malformed(e) && users == old(users)
              case Ok(p) =>
                match CommitOrReread.Position(Phones(old(users)), p)
                case None => r == InvalidCredentials && users == old(users)
                case Some(i) =>
                  var user := old(users)[i];
                  var (lock, result) := Attempt(user.lock, pin == user.pin, now);
                  r == result && users == old(users)[i := user.(lock := lock)]
      ensures match Phone.NormalizePhone(phone)
              case Err(_) => true
              case Ok(p) =>
                forall i :: 0 <= i < |old(users)| && old(users)[i].phone == p ==>
                  var was, lock := old(users)[i], users[i].lock;
                  var open := was.lock.lockedUntil.None? || was.lock.lockedUntil.value <= now;
                  && (pin != was.pin ==>
                        && r == InvalidCredentials && lock.failed == was.lock.failed + 1
                        && lock.lockedUntil == if lock.failed >= 5 then Some(now + 900_000) else was.lock.lockedUntil)
                  && (pin == was.pin && !open ==> r == TemporarilyLocked && lock == was.lock)
                  && (pin == was.pin && open ==>
                        r == LoggedIn && lock == if was.lock.failed > 0 then Lock(0, None) else was.lock)
    {
      var normalized := Phone.NormalizePhone(phone);
      if normalized.Err? {
        return Malformed(normalized.error);
      }
      var found := FindByPhone(normalized.value);
      assert forall k :: 0 <= k < |users| ==> Phones(users)[k] == users[k].phone;
      if found.None? {
        return InvalidCredentials;
      }
      var i := found.value;
      var user := users[i];
      LocksKeepPhones(users, i);
      if pin != user.pin {
        var failed := user.lock.failed + 1;
        var lockedUntil := user.lock.lockedUntil;
        if failed >= MAX_FAILURES {
          lockedUntil := Some(now + LOCK_MS);
        }
        users := users[i := user.(lock := Lock(failed, lockedUntil))];
        return InvalidCredentials;
      }
      if user.lock.lockedUntil.Some? && user.lock.lockedUntil.value > now {
        return TemporarilyLocked;
      }
      if user.lock.failed > 0 {
        users := users[i := user.(lock := FRESH)];
      }
      return LoggedIn;
    }
  }

  // ---------------------------------------------------------- login histories

  datatype Try = Try(at: int, pinOk: bool)

  /** The stored lock after a history of attempts on one account. */
  function LockAfter(history: seq<Try>): Lock {
    if history == [] then FRESH
    else var n := |history| - 1; Attempt(LockAfter(history[..n]), history[n].pinOk, history[n].at).0
  }

  function ResultOf(history: seq<Try>, next: Try): LoginResult {
    Attempt(LockAfter(history), next.pinOk, next.at).1
  }

  // The rule in its own terms, without the stored fields.

  /** When the last wrong PIN was entered. */
  function LastWrong(history: seq<Try>): Option<int> {
    if history == [] then None
    else
      var n := |history| - 1;
      if history[n].pinOk then LastWrong(history[..n]) else Some(history[n].at)
  }

  /** Wrong PINs since the last time someone got in. */
  function WrongSinceSuccess(history: seq<Try>): nat
    decreases |history|, 0
  {
    if history == [] then 0
    else
      var n := |history| - 1;
      if !history[n].pinOk then WrongSinceSuccess(history[..n]) + 1
      else if LocksOut(history[..n], history[n].at) then WrongSinceSuccess(history[..n])
      else 0
  }

  /** Five or more wrong PINs in a row, the last less than a quarter of an hour ago. */
  predicate LocksOut(history: seq<Try>, now: int)
    decreases |history|, 1
  {
    && WrongSinceSuccess(history) >= 5
    && LastWrong(history).Some? && now < LastWrong(history).value + 900_000
  }

  /** The stored fields say what the rule says. */
  lemma {:induction false} LockIsTheRule(history: seq<Try>)
    ensures LockAfter(history).failed == WrongSinceSuccess(history)
    ensures LockAfter(history).lockedUntil ==
            if WrongSinceSuccess(history) >= 5 && LastWrong(history).Some?
            then Some(LastWrong(history).value + 900_000) else None
    ensures WrongSinceSuccess(history) > 0 ==> LastWrong(history).Some?
  {
    if history == [] {
    } else {
      LockIsTheRule(history[..|history| - 1]);
    }
  }

  /**
   In every history a right PIN gets in exactly when fewer than five wrong ones came since the last
   success, or the last wrong one is at least fifteen minutes old.
   */
  lemma RightPinGetsIn(history: seq<Try>, now: int)
    ensures ResultOf(history, Try(now, true)) ==
            if LocksOut(history, now) then TemporarilyLocked else LoggedIn
    ensures ResultOf(history, Try(now, true)) == LoggedIn && WrongSinceSuccess(history) >= 5 ==>
              LastWrong(history).Some? && now >= LastWrong(history).value + 900_000
  {
    LockIsTheRule(history);
  }

  /** Every spelling of a national number reaches the account registered under any of them. */
  lemma SpellingsShareAnAccount(d: string, users: seq<User>, s: string)
    requires Phone.AllDigits(d) && |d| == Phone.NATIONAL_LENGTH && "+509" + d in Phones(users)
    requires s == d || s == "509" + d || s == "00509" + d || s == "+509" + d
    ensures Phone.NormalizePhone(s).Ok?
    ensures var found := CommitOrReread.Position(Phones(users), Phone.NormalizePhone(s).value);
            found.Some? && users[found.value].phone == "+509" + d
  {
    Phone.FourSpellings(d);
  }
}

/**
 Logins on one account that overlap: each reads the row, compares the PIN, and saves what it read with
 its own change. The count of wrong PINs is right exactly when they come one after another and finish.
 */
module LoginRace {
  import opened Common
  import opened Auth

  datatype Login = Reading(seen: Lock, pinOk: bool, at: int) | Closed

  /** The stored lock, the logins begun, and the wrong PINs compared since someone got in. */
  datatype Race = Race(lock: Lock, logins: seq<Login>, tried: nat)

  datatype Event = Read(pinOk: bool, at: int) | Save(login: nat) | Die(login: nat)

  const START := Race(FRESH, [], 0)

  /** A right PIN with nothing to reset, or refused by the lock, saves nothing. */
  function Saved(r: Race, l: Login): Race
    requires l.Reading?
  {
    var (lock, result) := Attempt(l.seen, l.pinOk, l.at);
    match result
    case InvalidCredentials => r.(lock := lock)
    case LoggedIn => r.(lock := if l.seen.failed > 0 then lock else r.lock, tried := 0)
    case _ => r
  }

  function Next(r: Race, e: Event): Race {
    match e
    case Read(pinOk, at) =>
      Race(r.lock, r.logins + [Reading(r.lock, pinOk, at)], if pinOk then r.tried else r.tried + 1)
    case Save(i) =>
      if i < |r.logins| && r.logins[i].Reading? then Saved(r, r.logins[i]).(logins := r.logins[i := Closed]) else r
    case Die(i) => if i < |r.logins| then r.(logins := r.logins[i := Closed]) else r
  }

  function After(events: seq<Event>): Race {
    if events == [] then START else Next(After(events[..|events| - 1]), events[|events| - 1])
  }

  predicate Quiet(logins: seq<Login>) {
    forall i :: 0 <= i < |logins| ==> logins[i].Closed?
  }

  /** `overlap`: a login may begin while another has read and not saved. `dieWrong`: one may die on a wrong PIN. */
  datatype Slips = Slips(overlap: bool, dieWrong: bool)

  predicate Permits(f: Slips, r: Race, e: Event) {
    match e
    case Read(_, _) => Quiet(r.logins) || f.overlap
    case Save(_) => true
    case Die(i) => i < |r.logins| && r.logins[i].Reading? && !r.logins[i].pinOk ==> f.dieWrong
  }

  ghost predicate Permitted(f: Slips, events: seq<Event>) {
    events != [] ==>
      var n := |events| - 1;
      Permitted(f, events[..n]) && Permits(f, After(events[..n]), events[n])
  }

  /** With nobody in between, the stored count is the wrong PINs tried since someone got in. */
  predicate AllCounted(r: Race) {
    Quiet(r.logins) ==> r.lock.failed == r.tried
  }

  /** One login at most is in between, it read the lock as it is, and its own wrong PIN is all that is not counted. */
  ghost predicate Serial(r: Race) {
    && AllCounted(r)
    && (forall i, j :: 0 <= i < j < |r.logins| ==> r.logins[i].Closed? || r.logins[j].Closed?)
    && (forall i :: 0 <= i < |r.logins| && r.logins[i].Reading? ==>
          r.logins[i].seen == r.lock && r.tried == r.lock.failed + if r.logins[i].pinOk then 0 else 1)
  }

  lemma SerialNext(r: Race, e: Event)
    requires Serial(r) && Permits(Slips(false, false), r, e)
    ensures Serial(Next(r, e))
  {
    var t := Next(r, e);
    if (e.Save? || e.Die?) && e.login < |r.logins| && r.logins[e.login].Reading? {
      assert Quiet(t.logins) by {
        assert forall j :: 0 <= j < |r.logins| && j != e.login ==> r.logins[j].Closed?;
      }
    } else if e.Die? && e.login < |r.logins| {
      assert t.logins == r.logins;
    } else if e.Read? {
      assert !Quiet(t.logins) by { assert t.logins[|r.logins|].Reading?; }
    }
  }

  lemma {:induction false} AfterSerial(events: seq<Event>)
    requires Permitted(Slips(false, false), events)
    ensures Serial(After(events))
  {
    if events == [] {
    } else {
      var n := |events| - 1;
      AfterSerial(events[..n]);
      hide Next, Serial, Permits;
      SerialNext(After(events[..n]), events[n]);
    }
  }

  lemma More(f: Slips, events: seq<Event>, e: Event)
    requires Permitted(f, events) && Permits(f, After(events), e)
    ensures Permitted(f, events + [e]) && After(events + [e]) == Next(After(events), e)
  {
    assert (events + [e])[..|events|] == events;
  }

  /** `n` wrong PINs read at once. */
  lemma {:induction false} AllReading(n: nat) returns (events: seq<Event>)
    ensures Permitted(Slips(true, false), events)
    ensures After(events) == Race(FRESH, seq(n, i => Reading(FRESH, false, 0)), n)
  {
    if n == 0 {
      events := [];
    } else {
      events := AllReading(n - 1);
      More(Slips(true, false), events, Read(false, 0));
      events := events + [Read(false, 0)];
      assert seq(n, i => Reading(FRESH, false, 0)) ==
             seq(n - 1, i => Reading(FRESH, false, 0)) + [Reading(FRESH, false, 0)];
    }
  }

  function OneSaved(n: nat, k: nat): Race {
    Race(if k == 0 then FRESH else Lock(1, None), seq(n, i => if i < k then Closed else Reading(FRESH, false, 0)), n)
  }

  /** All saved one after the other, each over what it had read: one wrong PIN is on record. */
  lemma {:induction false} AllSaved(n: nat, k: nat) returns (events: seq<Event>)
    requires k <= n
    ensures Permitted(Slips(true, false), events) && After(events) == OneSaved(n, k)
  {
    if k == 0 {
      events := AllReading(n);
      assert seq(n, i => Reading(FRESH, false, 0)) == OneSaved(n, 0).logins;
    } else {
      events := AllSaved(n, k - 1);
      More(Slips(true, false), events, Save(k - 1));
      events := events + [Save(k - 1)];
      var r := OneSaved(n, k - 1);
      assert r.logins[k - 1] == Reading(FRESH, false, 0);
      assert r.logins[k - 1 := Closed] == OneSaved(n, k).logins;
    }
  }

  /** Any number of wrong PINs can overlap and leave one on record, and the account unlocked. */
  lemma OverlapHidesWrongPins(n: nat) returns (events: seq<Event>)
    requires n >= 1
    ensures Permitted(Slips(true, false), events)
    ensures Quiet(After(events).logins) && After(events).tried == n && After(events).lock == Lock(1, None)
  {
    events := AllSaved(n, n);
  }

  lemma Looser(f: Slips, g: Slips, events: seq<Event>)
    requires Permitted(f, events) && (f.overlap ==> g.overlap) && (f.dieWrong ==> g.dieWrong)
    ensures Permitted(g, events)
  {
  }

  /**
   The count on record is that of the wrong PINs tried since someone got in, after every history, exactly
   when logins on the account do not overlap and none dies on a wrong PIN.
   */
  lemma AllCountedWhen(f: Slips)
    ensures (forall events :: Permitted(f, events) ==> AllCounted(After(events))) <==> !f.overlap && !f.dieWrong
  {
    if !f.overlap && !f.dieWrong {
      forall events | Permitted(f, events) ensures AllCounted(After(events)) {
        AfterSerial(events);
      }
    } else if f.overlap {
      var events := OverlapHidesWrongPins(2);
      Looser(Slips(true, false), f, events);
      assert !AllCounted(After(events));
    } else {
      More(f, [], Read(false, 0));
      More(f, [Read(false, 0)], Die(0));
      var events := [Read(false, 0)] + [Die(0)];
      assert [] + [Read(false, 0)] == [Read(false, 0)];
      assert Permitted(f, events) && After(events) == Race(FRESH, [Closed], 1);
      assert !AllCounted(After(events));
    }
  }
}
