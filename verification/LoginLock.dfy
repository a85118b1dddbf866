/**
 The login lock (_lock_remaining, _register_fail, _clear_fail and their use in login, in
 secure-coding/app/blueprints/auth.py).

 The module keeps one (count, first failure) pair per key and throws expired pairs away, one by one
 and in bulk. Main results: it answers every attempt as the full history of failures would; a key's
 pair counts exactly the failures of its current window; and up to one second before the window
 ends no run records more than MAX_FAILED failures for a key without a success in between. Each
 attempt is one step, and the clock does not run backwards.
 */
module LoginLock {
  import opened Base

  const MAX_FAILED := 5
  const LOCK_WINDOW := 300.0
  const CROWD := 1000

  datatype Key = Key(address: string, username: string)
  datatype Rec = Rec(count: nat, first: real)

  /** int() of a float: towards zero. */
  function Truncate(x: real): int {
    if x >= 0.0 then x.Floor else -(-x).Floor
  }

  function Lookup(failed: map<Key, Rec>, key: Key): Option<Rec> {
    if key in failed then Some(failed[key]) else None
  }

  predicate Expired(rec: Rec, now: real) {
    now - rec.first > LOCK_WINDOW
  }

  // ----------------------------------------------------------- the three functions of the module

  /** time.time() is read at `now` for the expiry test and again at `then` for the remaining time. */
  function LockRemaining(failed: map<Key, Rec>, key: Key, now: real, later: real): (map<Key, Rec>, int) {
    if key !in failed then (failed, 0)
    else if Expired(failed[key], now) then (failed - {key}, 0)
    else if failed[key].count >= MAX_FAILED then (failed, Truncate(LOCK_WINDOW - (later - failed[key].first)))
    else (failed, 0)
  }

  function Prune(failed: map<Key, Rec>, now: real): map<Key, Rec> {
    map k | k in failed && !Expired(failed[k], now) :: failed[k]
  }

  function RegisterFail(failed: map<Key, Rec>, key: Key, now: real): map<Key, Rec> {
    var kept := if |failed| > CROWD then Prune(failed, now) else failed;
    if key in kept && !Expired(kept[key], now)
    then kept[key := Rec(kept[key].count + 1, kept[key].first)]
    else kept[key := Rec(1, now)]
  }

  // --------------------------------------------------------------------------- the full history

  datatype Event = Fail(key: Key, at: real) | Success(key: Key)

  /** The window a key is in after the events: opened by its first failure, closed by age or success. */
  function Window(history: seq<Event>, key: Key): Option<Rec> {
    if history == [] then None
    else
      var before := Window(history[..|history| - 1], key);
      var e := history[|history| - 1];
      if e.key != key then before
      else if e.Success? then None
      else if before.Some? && !Expired(before.value, e.at) then Some(Rec(before.value.count + 1, before.value.first))
      else Some(Rec(1, e.at))
  }

  function Failures(history: seq<Event>, key: Key): nat {
    if history == [] then 0
    else
      Failures(history[..|history| - 1], key)
      + (if history[|history| - 1].Fail? && history[|history| - 1].key == key then 1 else 0)
  }

  // ------------------------------------------------------------------------------------ attempts

  datatype Verdict = NoUser | WrongPassword | DormantAccount | Good
  datatype Answer = Locked(wait: int) | Refused | Suspended | LoggedIn

  /** One POST to /login, the clock read for expiry, remaining time and failure in this order. */
  datatype Attempt = Attempt(key: Key, t1: real, t2: real, t3: real, verdict: Verdict)

  function Try(failed: map<Key, Rec>, a: Attempt): (map<Key, Rec>, Answer) {
    var (failed1, wait) := LockRemaining(failed, a.key, a.t1, a.t2);
    if wait > 0 then (failed1, Locked(wait))
    else
      match a.verdict
      case NoUser | WrongPassword => (RegisterFail(failed1, a.key, a.t3), Refused)
      case DormantAccount => (failed1, Suspended)
      case Good => (failed1 - {a.key}, LoggedIn)
  }

  /** The remaining lock time by the full history. */
  function HistoryWait(history: seq<Event>, key: Key, now: real, later: real): int {
    var w := Window(history, key);
    if w.Some? && !Expired(w.value, now) && w.value.count >= MAX_FAILED
    then Truncate(LOCK_WINDOW - (later - w.value.first))
    else 0
  }

  /** The same attempt judged by the full history, nothing ever being forgotten. */
  function Judge(history: seq<Event>, a: Attempt): (seq<Event>, Answer) {
    var wait := HistoryWait(history, a.key, a.t1, a.t2);
    if wait > 0 then (history, Locked(wait))
    else
      match a.verdict
      case NoUser | WrongPassword => (history + [Fail(a.key, a.t3)], Refused)
      case DormantAccount => (history, Suspended)
      case Good => (history + [Success(a.key)], LoggedIn)
  }

  datatype Trace = Trace(failed: map<Key, Rec>, history: seq<Event>, kept: seq<Answer>, full: seq<Answer>)

  function Play(attempts: seq<Attempt>): Trace {
    if attempts == [] then Trace(map[], [], [], [])
    else
      var before := Play(attempts[..|attempts| - 1]);
      var a := attempts[|attempts| - 1];
      var (failed, answer) := Try(before.failed, a);
      var (history, judged) := Judge(before.history, a);
      Trace(failed, history, before.kept + [answer], before.full + [judged])
  }

  predicate Clocked(attempts: seq<Attempt>) {
    && (forall i :: 0 <= i < |attempts| ==> attempts[i].t1 <= attempts[i].t2 <= attempts[i].t3)
    && (forall i, j :: 0 <= i < j < |attempts| ==> attempts[i].t3 <= attempts[j].t1)
  }

  // ------------------------------------------------------------------------------- the refinement

  function Live(rec: Option<Rec>, now: real): Option<Rec> {
    if rec.Some? && !Expired(rec.value, now) then rec else None
  }

  /** From `clock` on the table and the history know the same unexpired windows. */
  ghost predicate Agree(failed: map<Key, Rec>, history: seq<Event>, clock: real) {
    forall k, now :: clock <= now ==> Live(Lookup(failed, k), now) == Live(Window(history, k), now)
  }

  lemma {:induction false} WindowAppend(history: seq<Event>, e: Event, key: Key)
    ensures Window(history + [e], key) ==
            (if e.key != key then Window(history, key)
             else if e.Success? then None
             else if Window(history, key).Some? && !Expired(Window(history, key).value, e.at)
             then Some(Rec(Window(history, key).value.count + 1, Window(history, key).value.first))
             else Some(Rec(1, e.at)))
  {
    assert (history + [e])[..|history|] == history;
  }

  /** Forgetting what has expired costs nothing from then on. */
  lemma {:induction false} ForgettingAgrees(
      failed: map<Key, Rec>, kept: map<Key, Rec>, history: seq<Event>, clock: real, now: real)
    requires Agree(failed, history, clock) && clock <= now
    requires forall k :: k in kept ==> k in failed && kept[k] == failed[k]
    requires forall k :: k in failed && k !in kept ==> Expired(failed[k], now)
    ensures Agree(kept, history, now)
  {
    forall k, later | now <= later
      ensures Live(Lookup(kept, k), later) == Live(Window(history, k), later)
    {
      assert Live(Lookup(failed, k), later) == Live(Window(history, k), later);
    }
  }

  lemma {:induction false} LockCheckAgrees(
      failed: map<Key, Rec>, history: seq<Event>, key: Key, now: real, later: real, clock: real)
    requires Agree(failed, history, clock) && clock <= now
    ensures LockRemaining(failed, key, now, later).1 == HistoryWait(history, key, now, later)
    ensures Agree(LockRemaining(failed, key, now, later).0, history, now)
  {
    assert Live(Lookup(failed, key), now) == Live(Window(history, key), now);
    ForgettingAgrees(failed, LockRemaining(failed, key, now, later).0, history, clock, now);
  }

  lemma {:induction false} FailAgrees(failed: map<Key, Rec>, history: seq<Event>, key: Key, now: real, clock: real)
    requires Agree(failed, history, clock) && clock <= now
    ensures Agree(RegisterFail(failed, key, now), history + [Fail(key, now)], now)
  {
    var kept := if |failed| > CROWD then Prune(failed, now) else failed;
    ForgettingAgrees(failed, kept, history, clock, now);
    assert Live(Lookup(kept, key), now) == Live(Window(history, key), now);
    forall k, later | now <= later
      ensures Live(Lookup(RegisterFail(failed, key, now), k), later)
           == Live(Window(history + [Fail(key, now)], k), later)
    {
      WindowAppend(history, Fail(key, now), k);
      assert Live(Lookup(kept, k), later) == Live(Window(history, k), later);
    }
  }

  lemma {:induction false} ClearAgrees(failed: map<Key, Rec>, history: seq<Event>, key: Key, clock: real)
    requires Agree(failed, history, clock)
    ensures Agree(failed - {key}, history + [Success(key)], clock)
  {
    forall k, later | clock <= later
      ensures Live(Lookup(failed - {key}, k), later) == Live(Window(history + [Success(key)], k), later)
    {
      WindowAppend(history, Success(key), k);
      assert Live(Lookup(failed, k), later) == Live(Window(history, k), later);
    }
  }

  lemma {:induction false} Later(failed: map<Key, Rec>, history: seq<Event>, clock: real, now: real)
    requires Agree(failed, history, clock) && clock <= now
    ensures Agree(failed, history, now)
  {
  }

  lemma {:induction false} TryAgrees(failed: map<Key, Rec>, history: seq<Event>, a: Attempt, clock: real)
    requires Agree(failed, history, clock) && clock <= a.t1 <= a.t2 <= a.t3
    ensures Try(failed, a).1 == Judge(history, a).1
    ensures Agree(Try(failed, a).0, Judge(history, a).0, a.t3)
  {
    LockCheckAgrees(failed, history, a.key, a.t1, a.t2, clock);
    var failed1 := LockRemaining(failed, a.key, a.t1, a.t2).0;
    Later(failed1, history, a.t1, a.t3);
    if Judge(history, a).1.Refused? {
      FailAgrees(failed1, history, a.key, a.t3, a.t1);
    } else if Judge(history, a).1.LoggedIn? {
      ClearAgrees(failed1, history, a.key, a.t3);
    }
  }

  /**
   Refinement: whatever attempts come, for whatever keys, the pruned table gives the answers the
   full history gives; in particular the bulk eviction never changes one.
   */
  lemma {:induction false} PrunedAnswersLikeFull(attempts: seq<Attempt>)
    requires Clocked(attempts)
    ensures Play(attempts).kept == Play(attempts).full
    ensures attempts != [] ==> Agree(Play(attempts).failed, Play(attempts).history, attempts[|attempts| - 1].t3)
    ensures attempts == [] ==> forall clock :: Agree(Play(attempts).failed, Play(attempts).history, clock)
  {
    if attempts != [] {
      var front, a := attempts[..|attempts| - 1], attempts[|attempts| - 1];
      PrunedAnswersLikeFull(front);
      TryAgrees(Play(front).failed, Play(front).history, a, if front == [] then a.t1 else front[|front| - 1].t3);
    }
  }

  // -------------------------------------------------------------------------- what a window counts

  /** Event i opened the window `rec` of `key`, and nothing has closed it since. */
  ghost predicate OpenedBy(history: seq<Event>, key: Key, rec: Rec, i: int) {
    && 0 <= i < |history|
    && history[i] == Fail(key, rec.first)
    && (Window(history[..i], key).Some? ==> rec.first - Window(history[..i], key).value.first > 300.0)
    && rec.count == Failures(history[i..], key)
    && (forall j :: i <= j < |history| && history[j].key == key ==>
         history[j].Fail? && history[j].at - rec.first <= 300.0)
  }

  /** Times of failures do not decrease. */
  predicate Ordered(history: seq<Event>) {
    forall i, j :: 0 <= i <= j < |history| && history[i].Fail? && history[j].Fail? ==> history[i].at <= history[j].at
  }

  /** A window stays the one its opening event opened, if the last event did not close it. */
  lemma {:induction false} WindowGoesOn(history: seq<Event>, e: Event, key: Key, rec: Rec, i: int)
    requires OpenedBy(history, key, rec, i)
    requires e.key == key ==> e.Fail? && !Expired(rec, e.at)
    ensures OpenedBy(history + [e], key, if e.key == key then Rec(rec.count + 1, rec.first) else rec, i)
  {
    var after := history + [e];
    assert after[..i] == history[..i];
    assert after[i..] == history[i..] + [e];
    assert (history[i..] + [e])[..|history| - i] == history[i..];
  }

  lemma {:induction false} WindowOpens(history: seq<Event>, key: Key, at: real)
    requires Live(Window(history, key), at).None?
    ensures OpenedBy(history + [Fail(key, at)], key, Rec(1, at), |history|)
  {
    var after := history + [Fail(key, at)];
    assert after[..|history|] == history;
    assert after[|history|..] == [Fail(key, at)];
    assert [Fail(key, at)][..0] == [];
  }

  /**
   A window is the failures of its key since the one that opened it, all within LOCK_WINDOW of
   that one and without a success among them; and it opened because none was open then.
   */
  lemma {:induction false} WindowCounts(history: seq<Event>, key: Key)
    requires Window(history, key).Some?
    ensures exists i :: OpenedBy(history, key, Window(history, key).value, i)
  {
    var n := |history| - 1;
    var front, e := history[..n], history[n];
    assert history == front + [e];
    WindowAppend(front, e, key);
    if e.key == key && Live(Window(front, key), e.at).None? {
      WindowOpens(front, key, e.at);
    } else {
      WindowCounts(front, key);
      var i :| OpenedBy(front, key, Window(front, key).value, i);
      WindowGoesOn(front, e, key, Window(front, key).value, i);
    }
  }

  /**
   A failure counts into the window of its key if that was opened 300 seconds ago at most, and opens a
   new one, with itself alone, if there is none or it was opened earlier than that.
   */
  lemma {:induction false} WindowsAreShort(history: seq<Event>, i: int, key: Key)
    requires 0 <= i < |history| && history[i].Fail? && history[i].key == key
    ensures var before, after := Window(history[..i], key), Window(history[..i + 1], key);
      && after.Some? && history[i].at - after.value.first <= 300.0
      && after.value == if before.Some? && history[i].at - before.value.first <= 300.0
                        then Rec(before.value.count + 1, before.value.first) else Rec(1, history[i].at)
  {
    assert history[..i + 1] == history[..i] + [history[i]];
    WindowAppend(history[..i], history[i], key);
  }

  /** No window means no failure since the key's last success. */
  lemma {:induction false} NoWindowNoFailure(history: seq<Event>, key: Key, j: int)
    requires Window(history, key).None?
    requires 0 <= j < |history| && history[j].Fail? && history[j].key == key
    ensures exists k :: j < k < |history| && history[k] == Success(key)
  {
    var n := |history| - 1;
    if history[n].key != key {
      NoWindowNoFailure(history[..n], key, j);
      var k :| j < k < n && history[..n][k] == Success(key);
      assert history[k] == Success(key);
    } else {
      assert history[n] == Success(key);
    }
  }

  // ------------------------------------------------------------------------------------- the lock

  /** The lock is on exactly for full windows until one second before they end. */
  lemma {:induction false} LockedExactly(history: seq<Event>, key: Key, now: real, later: real)
    requires now <= later
    ensures HistoryWait(history, key, now, later) > 0 <==>
      && Window(history, key).Some?
      && Window(history, key).value.count >= 5
      && later - Window(history, key).value.first <= 299.0
  {
  }

  /** The wait announced: what is left of the 300 seconds, rounded down to whole ones. */
  lemma {:induction false} WaitValue(history: seq<Event>, key: Key, now: real, later: real)
    requires now <= later && HistoryWait(history, key, now, later) > 0
    ensures var wait, left := HistoryWait(history, key, now, later), 300.0 - (later - Window(history, key).value.first);
      wait as real <= left < wait as real + 1.0
  {
    LockedExactly(history, key, now, later);
  }

  /**
   One attempt by the full history: turned away if the window holds five failures and is 299 seconds old at
   most; otherwise a wrong name or password is recorded, a dormant account is told so, and a good login
   clears the key.
   */
  lemma {:induction false} AttemptOutcome(history: seq<Event>, a: Attempt)
    requires a.t1 <= a.t2 <= a.t3
    ensures var w := Window(history, a.key);
      var (after, answer) := Judge(history, a);
      if w.Some? && w.value.count >= 5 && a.t2 - w.value.first <= 299.0 then answer.Locked? && after == history
      else
        match a.verdict
        case NoUser | WrongPassword => answer == Refused && after == history + [Fail(a.key, a.t3)]
        case DormantAccount => answer == Suspended && after == history
        case Good => answer == LoggedIn && after == history + [Success(a.key)]
  {
    LockedExactly(history, a.key, a.t1, a.t2);
  }

  /** A good login leaves no window, a failure always one. */
  lemma {:induction false} AttemptWindow(history: seq<Event>, a: Attempt)
    ensures Judge(history, a).1.LoggedIn? ==> Window(Judge(history, a).0, a.key).None?
    ensures Judge(history, a).1.Refused? ==> Window(Judge(history, a).0, a.key).Some?
  {
    if Judge(history, a).1.LoggedIn? {
      WindowAppend(history, Success(a.key), a.key);
    } else if Judge(history, a).1.Refused? {
      WindowAppend(history, Fail(a.key, a.t3), a.key);
    }
  }

  /** A locked attempt is turned away before the password is looked at, and leaves no event. */
  lemma {:induction false} LockedBeforeVerification(failed: map<Key, Rec>, a: Attempt, verdict: Verdict)
    requires Try(failed, a).1.Locked?
    ensures Try(failed, a.(verdict := verdict)) == Try(failed, a)
    ensures forall k :: k in Try(failed, a).0 ==> k in failed && Try(failed, a).0[k] == failed[k]
  {
  }

  /** No failure beyond the limit was recorded earlier than one second before its window's end. */
  ghost predicate LimitedEarly(history: seq<Event>) {
    forall i :: 0 <= i < |history| && history[i].Fail? ==>
      var w := Window(history[..i + 1], history[i].key);
      w.Some? && (w.value.count > 5 ==> history[i].at - w.value.first > 299.0)
  }

  lemma {:induction false} JudgeLimits(history: seq<Event>, a: Attempt)
    requires LimitedEarly(history) && a.t1 <= a.t2 <= a.t3
    ensures LimitedEarly(Judge(history, a).0)
  {
    var after := Judge(history, a).0;
    forall i | 0 <= i < |after| && after[i].Fail?
      ensures var w := Window(after[..i + 1], after[i].key);
        w.Some? && (w.value.count > 5 ==> after[i].at - w.value.first > 299.0)
    {
      if i < |history| {
        assert after[..i + 1] == history[..i + 1];
      } else {
        assert after[..i + 1] == history + [Fail(a.key, a.t3)];
        WindowAppend(history, Fail(a.key, a.t3), a.key);
        LockedExactly(history, a.key, a.t1, a.t2);
      }
    }
  }

  /**
   In every run of attempts, with the table as it is pruned, a failure takes its window beyond
   MAX_FAILED only in the window's last second.
   */
  lemma {:induction false} AtMostMaxFailedEarly(attempts: seq<Attempt>)
    requires Clocked(attempts)
    ensures LimitedEarly(Play(attempts).history) && Ordered(Play(attempts).history)
    ensures Play(attempts).kept == Play(attempts).full
  {
    PrunedAnswersLikeFull(attempts);
    PlayLimits(attempts);
  }

  lemma {:induction false} PlayLimits(attempts: seq<Attempt>)
    requires Clocked(attempts)
    ensures LimitedEarly(Play(attempts).history) && Ordered(Play(attempts).history)
    ensures Past(Play(attempts).history, if attempts == [] then 0.0 else attempts[|attempts| - 1].t3)
  {
    if attempts != [] {
      var front, a := attempts[..|attempts| - 1], attempts[|attempts| - 1];
      PlayLimits(front);
      JudgeLimits(Play(front).history, a);
      if front == [] {
        assert Play(front).history == [];
      }
      JudgeOrdered(Play(front).history, a);
    }
  }

  predicate Past(history: seq<Event>, clock: real) {
    forall i :: 0 <= i < |history| && history[i].Fail? ==> history[i].at <= clock
  }

  lemma {:induction false} JudgeOrdered(history: seq<Event>, a: Attempt)
    requires Ordered(history) && Past(history, a.t3)
    ensures Ordered(Judge(history, a).0) && Past(Judge(history, a).0, a.t3)
  {
  }

  /** n failed attempts for one key at one time. */
  function Guesses(key: Key, at: real, n: nat): seq<Attempt> {
    seq(n, i => Attempt(key, at, at, at, WrongPassword))
  }

  /** Up to five guesses after whatever has been, if no window is open any more, make a window of their own. */
  lemma {:induction false} GuessesFail(before: seq<Attempt>, key: Key, at: real, n: nat)
    requires n <= 5
    requires var w := Window(Play(before).history, key); w.Some? ==> at - w.value.first > 300.0
    ensures Window(Play(before + Guesses(key, at, n)).history, key) ==
            if n == 0 then Window(Play(before).history, key) else Some(Rec(n, at))
  {
    if n == 0 {
      assert before + Guesses(key, at, 0) == before;
    } else {
      GuessesFail(before, key, at, n - 1);
      LastGuess(before, key, at, n);
      GuessCounts(Play(before + Guesses(key, at, n - 1)).history, key, at, n - 1);
    }
  }

  lemma {:induction false} LastGuess(before: seq<Attempt>, key: Key, at: real, n: nat)
    requires n > 0
    ensures Play(before + Guesses(key, at, n)).history ==
            Judge(Play(before + Guesses(key, at, n - 1)).history, Attempt(key, at, at, at, WrongPassword)).0
  {
    var all := before + Guesses(key, at, n);
    assert all[..|all| - 1] == before + Guesses(key, at, n - 1);
  }

  lemma {:induction false} GuessCounts(history: seq<Event>, key: Key, at: real, n: nat)
    requires n < 5
    requires var w := Window(history, key);
      if n == 0 then w.Some? ==> at - w.value.first > 300.0 else w == Some(Rec(n, at))
    ensures Window(Judge(history, Attempt(key, at, at, at, WrongPassword)).0, key) == Some(Rec(n + 1, at))
  {
    WindowAppend(history, Fail(key, at), key);
  }

  lemma {:induction false} LastAnswer(before: seq<Attempt>, a: Attempt)
    ensures Play(before + [a]).full == Play(before).full + [Judge(Play(before).history, a).1]
    ensures Play(before + [a]).history == Judge(Play(before).history, a).0
  {
    assert (before + [a])[..|before|] == before;
  }

  /**
   The full LOCK_WINDOW is not kept: int() rounds the last second down to no wait at all, so a sixth
   guess half a second before the end is verified and counted.
   */
  lemma {:induction false} FinalSecondOpen(key: Key)
    ensures var five, sixth := Guesses(key, 0.0, 5), Attempt(key, 299.5, 299.5, 299.5, WrongPassword);
      && Clocked(five + [sixth])
      && Play(five + [sixth]).kept == Play(five + [sixth]).full == Play(five).full + [Refused]
      && Window(Play(five + [sixth]).history, key) == Some(Rec(6, 0.0))
  {
    var five, sixth := Guesses(key, 0.0, 5), Attempt(key, 299.5, 299.5, 299.5, WrongPassword);
    assert [] + five == five;
    GuessesFail([], key, 0.0, 5);
    PrunedAnswersLikeFull(five + [sixth]);
    LastAnswer(five, sixth);
    LockedExactly(Play(five).history, key, 299.5, 299.5);
    WindowAppend(Play(five).history, Fail(key, 299.5), key);
  }

  lemma {:induction false} TwoRounds(key: Key)
    ensures Window(Play(Guesses(key, 0.0, 5) + Guesses(key, 310.0, 5)).history, key) == Some(Rec(5, 310.0))
  {
    var five := Guesses(key, 0.0, 5);
    assert [] + five == five;
    GuessesFail([], key, 0.0, 5);
    GuessesFail(five, key, 310.0, 5);
  }

  lemma {:induction false} WaitsNow(history: seq<Event>, key: Key, verdict: Verdict)
    requires Window(history, key) == Some(Rec(5, 310.0))
    ensures Judge(history, Attempt(key, 311.0, 311.0, 311.0, verdict)).1 == Locked(299)
  {
    LockedExactly(history, key, 311.0, 311.0);
    WaitValue(history, key, 311.0, 311.0);
  }

  lemma {:induction false} InOrder(key: Key, verdict: Verdict)
    ensures Clocked(Guesses(key, 0.0, 5) + Guesses(key, 310.0, 5) + [Attempt(key, 311.0, 311.0, 311.0, verdict)])
  {
  }

  /** Five guesses, and five more when the first ones' window is over: the next attempt waits 299 seconds. */
  lemma {:induction false} NextWindowLocks(key: Key, verdict: Verdict)
    ensures var ten, last := Guesses(key, 0.0, 5) + Guesses(key, 310.0, 5), Attempt(key, 311.0, 311.0, 311.0, verdict);
      && Clocked(ten + [last])
      && Play(ten + [last]).kept == Play(ten + [last]).full == Play(ten).full + [Locked(299)]
  {
    var ten, last := Guesses(key, 0.0, 5) + Guesses(key, 310.0, 5), Attempt(key, 311.0, 311.0, 311.0, verdict);
    InOrder(key, verdict);
    TwoRounds(key);
    WaitsNow(Play(ten).history, key, verdict);
    LastAnswer(ten, last);
    SameAnswers(ten + [last]);
  }

  lemma {:induction false} SameAnswers(attempts: seq<Attempt>)
    requires Clocked(attempts)
    ensures Play(attempts).kept == Play(attempts).full
  {
    PrunedAnswersLikeFull(attempts);
  }

  // ------------------------------------------------------------------------------ the module itself

  class Throttle {
    var failed: map<Key, Rec>
    ghost var history: seq<Event>
    ghost var clock: real

    ghost predicate Valid()
      reads this
    {
      Agree(failed, history, clock) && LimitedEarly(history)
    }

    constructor ()
      ensures Valid() && failed == map[] && history == [] && clock == 0.0
    {
      failed, history, clock := map[], [], 0.0;
    }

    method AskLock(key: Key, now: real, later: real) returns (wait: int)
      modifies this`failed
      ensures (failed, wait) == LockRemaining(old(failed), key, now, later)
      ensures failed == if key in old(failed) && now - old(failed)[key].first > 300.0
                        then old(failed) - {key} else old(failed)
      ensures
        if key in old(failed) && now - old(failed)[key].first <= 300.0 && old(failed)[key].count >= 5 then
          var left := 300.0 - (later - old(failed)[key].first);
          if left >= 0.0 then wait as real <= left < wait as real + 1.0 else wait <= 0
        else wait == 0
    {
      if key !in failed {
        return 0;
      }
      var rec := failed[key];
      if now - rec.first > LOCK_WINDOW {
        failed := failed - {key};
        return 0;
      }
      if rec.count >= MAX_FAILED {
        return Truncate(LOCK_WINDOW - (later - rec.first));
      }
      return 0;
    }

    method NoteFailure(key: Key, now: real)
      modifies this`failed
      ensures failed == RegisterFail(old(failed), key, now)
      ensures key in failed && failed[key] ==
        if key in old(failed) && now - old(failed)[key].first <= 300.0
        then Rec(old(failed)[key].count + 1, old(failed)[key].first) else Rec(1, now)
      ensures forall k :: k != key ==>
        (k in failed <==> k in old(failed) && (|old(failed)| > 1000 ==> now - old(failed)[k].first <= 300.0))
      ensures forall k :: k != key && k in failed ==> failed[k] == old(failed)[k]
    {
      if |failed| > CROWD {
        var items := failed;
        var rest := items.Keys;
        while rest != {}
          invariant rest <= items.Keys
          invariant failed == map k | k in items && (k in rest || !Expired(items[k], now)) :: items[k]
          decreases rest
        {
          var k :| k in rest;
          if now - items[k].first > LOCK_WINDOW {
            failed := failed - {k};
          }
          rest := rest - {k};
        }
        assert failed == Prune(items, now);
      }
      if key in failed && now - failed[key].first <= LOCK_WINDOW {
        failed := failed[key := Rec(failed[key].count + 1, failed[key].first)];
      } else {
        failed := failed[key := Rec(1, now)];
      }
    }

    /** login: the lock first, then the verdict on user and password. */
    method Login(a: Attempt) returns (answer: Answer)
      requires Valid() && clock <= a.t1 <= a.t2 <= a.t3
      modifies this
      ensures Valid() && clock == a.t3
      ensures (history, answer) == Judge(old(history), a)
      ensures (failed, answer) == Try(old(failed), a)
      ensures
        var w := Window(old(history), a.key);
        if w.Some? && w.value.count >= 5 && a.t2 - w.value.first <= 299.0 then
          answer.Locked? && history == old(history)
        else
          match a.verdict
          case NoUser | WrongPassword => answer == Refused && history == old(history) + [Fail(a.key, a.t3)]
          case DormantAccount => answer == Suspended && history == old(history)
          case Good => answer == LoggedIn && history == old(history) + [Success(a.key)] && a.key !in failed
    {
      AttemptOutcome(history, a);
      TryAgrees(failed, history, a, clock);
      JudgeLimits(history, a);
      var wait := AskLock(a.key, a.t1, a.t2);
      if wait > 0 {
        answer := Locked(wait);
      } else {
        match a.verdict {
          case NoUser | WrongPassword =>
            NoteFailure(a.key, a.t3);
            answer := Refused;
          case DormantAccount =>
            answer := Suspended;
          case Good =>
            failed := failed - {a.key};
            answer := LoggedIn;
        }
      }
      history := Judge(history, a).0;
      clock := a.t3;
    }
  }
}
