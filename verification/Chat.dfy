/**
 The chat's send limit (_rate_ok and the socket handlers of secure-coding/app/blueprints/chat.py).

 The module keeps, per sender, only the acceptances of the last RATE_WINDOW seconds, pruned at each
 call. Main results: those pruned lists decide exactly as the full log of acceptances would; no
 stretch of k windows holds more than k * RATE_MAX messages of one sender; a rejected attempt
 changes no later decision. Each call of _rate_ok is one step, and the clock does not run backwards.
 */
module Chat {
  import opened Base
  import opened Schema

  const RATE_MAX := 5
  const RATE_WINDOW := 5.0
  const MAX_LEN := 500

  /** [t for t in times if now - t < RATE_WINDOW] */
  function Within(times: seq<real>, now: real): seq<real> {
    if times == [] then []
    else
      var rest := Within(times[..|times| - 1], now);
      if now - times[|times| - 1] < RATE_WINDOW then rest + [times[|times| - 1]] else rest
  }

  /** The rule the limit stands for, over everything ever accepted for one sender. */
  predicate Allowed(accepted: seq<real>, now: real) {
    |Within(accepted, now)| < RATE_MAX
  }

  function Recent(recent: map<UserId, seq<real>>, uid: UserId): seq<real> {
    if uid in recent then recent[uid] else []
  }

  /** The rule, counted: of the acceptances fewer than five are less than five seconds old. */
  lemma {:induction false} AllowedMeaning(accepted: seq<real>, now: real)
    ensures Allowed(accepted, now) <==> |set i | 0 <= i < |accepted| && now - accepted[i] < 5.0| < 5
  {
    WithinCounts(accepted, now);
  }

  lemma {:induction false} WithinCounts(times: seq<real>, now: real)
    ensures |Within(times, now)| == |set i | 0 <= i < |times| && now - times[i] < 5.0|
  {
    if times != [] {
      var n := |times| - 1;
      WithinCounts(times[..n], now);
      var before := set i | 0 <= i < n && now - times[..n][i] < 5.0;
      assert (set i | 0 <= i < |times| && now - times[i] < 5.0)
          == before + (if now - times[n] < 5.0 then {n} else {});
    }
  }

  datatype Call = Call(uid: UserId, now: real)

  /** _rate_ok on the pruned lists. */
  function RateOk(recent: map<UserId, seq<real>>, c: Call): (map<UserId, seq<real>>, bool) {
    var times := Within(Recent(recent, c.uid), c.now);
    if |times| >= RATE_MAX then (recent[c.uid := times], false)
    else (recent[c.uid := times + [c.now]], true)
  }

  /** The same call on the full logs. */
  function Admit(log: map<UserId, seq<real>>, c: Call): (map<UserId, seq<real>>, bool) {
    if Allowed(Recent(log, c.uid), c.now) then (log[c.uid := Recent(log, c.uid) + [c.now]], true)
    else (log, false)
  }

  datatype Trace = Trace(
    recent: map<UserId, seq<real>>, log: map<UserId, seq<real>>, pruned: seq<bool>, full: seq<bool>)

  /** A series of calls decided both ways. */
  function Play(calls: seq<Call>): Trace {
    if calls == [] then Trace(map[], map[], [], [])
    else
      var before := Play(calls[..|calls| - 1]);
      var c := calls[|calls| - 1];
      var (recent, ok) := RateOk(before.recent, c);
      var (log, allowed) := Admit(before.log, c);
      Trace(recent, log, before.pruned + [ok], before.full + [allowed])
  }

  predicate Clocked(calls: seq<Call>) {
    forall i, j :: 0 <= i <= j < |calls| ==> calls[i].now <= calls[j].now
  }

  // ------------------------------------------------------------------------- pruning is harmless

  lemma {:induction false} WithinAppend(xs: seq<real>, t: real, now: real)
    ensures Within(xs + [t], now) == Within(xs, now) + (if now - t < RATE_WINDOW then [t] else [])
  {
    assert (xs + [t])[..|xs|] == xs;
  }

  /** What has been pruned once would be pruned at any later time too. */
  lemma {:induction false} PruneTwice(xs: seq<real>, now: real, later: real)
    requires now <= later
    ensures Within(Within(xs, now), later) == Within(xs, later)
  {
    if xs != [] {
      var front, t := xs[..|xs| - 1], xs[|xs| - 1];
      PruneTwice(front, now, later);
      if now - t < RATE_WINDOW {
        WithinAppend(Within(front, now), t, later);
      }
    }
  }

  /** The pruned list of a sender is as good as his full log from `clock` on. */
  ghost predicate Agree(recent: map<UserId, seq<real>>, log: map<UserId, seq<real>>, clock: real) {
    forall uid, now :: clock <= now ==> Within(Recent(recent, uid), now) == Within(Recent(log, uid), now)
  }

  lemma {:induction false} CallAgrees(
      recent: map<UserId, seq<real>>, log: map<UserId, seq<real>>, c: Call, clock: real)
    requires Agree(recent, log, clock) && clock <= c.now
    ensures RateOk(recent, c).1 == Admit(log, c).1
    ensures Agree(RateOk(recent, c).0, Admit(log, c).0, c.now)
  {
    var recent', log' := RateOk(recent, c).0, Admit(log, c).0;
    var times := Within(Recent(recent, c.uid), c.now);
    assert times == Within(Recent(log, c.uid), c.now);
    forall uid, now | c.now <= now
      ensures Within(Recent(recent', uid), now) == Within(Recent(log', uid), now)
    {
      assert Within(Recent(recent, uid), now) == Within(Recent(log, uid), now);
      if uid == c.uid {
        PruneTwice(Recent(recent, uid), c.now, now);
        WithinAppend(times, c.now, now);
        WithinAppend(Recent(log, uid), c.now, now);
      }
    }
  }

  /**
   Refinement: in every series of calls, by any senders, the pruned lists take the decisions the
   full acceptance logs would.
   */
  lemma {:induction false} PrunedDecidesLikeFull(calls: seq<Call>)
    requires Clocked(calls)
    ensures Play(calls).pruned == Play(calls).full
    ensures |Play(calls).full| == |calls|
    ensures calls != [] ==> Agree(Play(calls).recent, Play(calls).log, calls[|calls| - 1].now)
    ensures calls == [] ==> forall clock :: Agree(Play(calls).recent, Play(calls).log, clock)
  {
    if calls != [] {
      var front, c := calls[..|calls| - 1], calls[|calls| - 1];
      PrunedDecidesLikeFull(front);
      var clock := if front == [] then c.now else front[|front| - 1].now;
      CallAgrees(Play(front).recent, Play(front).log, c, clock);
    }
  }

  // ------------------------------------------------------------------------------ how many fit in

  /** Entries in the half-open interval [lo, hi). */
  function CountIn(times: seq<real>, lo: real, hi: real): nat {
    if times == [] then 0
    else
      var t := times[|times| - 1];
      CountIn(times[..|times| - 1], lo, hi) + (if lo <= t < hi then 1 else 0)
  }

  /** Every entry was allowed by the ones before it, none of which is later. */
  ghost predicate Lawful(log: seq<real>) {
    && (forall i, j :: 0 <= i <= j < |log| ==> log[i] <= log[j])
    && (forall i :: 0 <= i < |log| ==> Allowed(log[..i], log[i]))
  }

  lemma {:induction false} CountAtMostWithin(log: seq<real>, lo: real, hi: real, now: real)
    requires now - lo < RATE_WINDOW
    ensures CountIn(log, lo, hi) <= |Within(log, now)|
  {
    if log != [] {
      CountAtMostWithin(log[..|log| - 1], lo, hi, now);
    }
  }

  lemma {:induction false} LawfulPrefix(log: seq<real>, n: nat)
    requires Lawful(log) && n <= |log|
    ensures Lawful(log[..n])
  {
    forall i | 0 <= i < n
      ensures Allowed(log[..n][..i], log[..n][i])
    {
      assert log[..n][..i] == log[..i];
    }
  }

  lemma {:induction false} OneWindow(log: seq<real>, lo: real, hi: real)
    requires Lawful(log) && hi - lo <= RATE_WINDOW
    ensures CountIn(log, lo, hi) <= RATE_MAX
  {
    if log != [] {
      var front, t := log[..|log| - 1], log[|log| - 1];
      if lo <= t < hi {
        assert Allowed(log[..|log| - 1], t);
        CountAtMostWithin(front, lo, hi, t);
      } else {
        LawfulPrefix(log, |log| - 1);
        OneWindow(front, lo, hi);
      }
    }
  }

  lemma {:induction false} CountSplits(log: seq<real>, lo: real, mid: real, hi: real)
    requires lo <= mid <= hi
    ensures CountIn(log, lo, hi) == CountIn(log, lo, mid) + CountIn(log, mid, hi)
  {
    if log != [] {
      CountSplits(log[..|log| - 1], lo, mid, hi);
    }
  }

  lemma {:induction false} ManyWindows(log: seq<real>, lo: real, k: nat)
    requires Lawful(log)
    ensures CountIn(log, lo, lo + k as real * RATE_WINDOW) <= k * RATE_MAX
  {
    if k == 0 {
      NothingInside(log, lo);
    } else {
      var mid := lo + (k - 1) as real * RATE_WINDOW;
      var hi := lo + k as real * RATE_WINDOW;
      ManyWindows(log, lo, k - 1);
      OneWindow(log, mid, hi);
      CountSplits(log, lo, mid, hi);
    }
  }

  lemma {:induction false} NothingInside(log: seq<real>, lo: real)
    ensures CountIn(log, lo, lo) == 0
  {
    if log != [] {
      NothingInside(log[..|log| - 1], lo);
    }
  }

  ghost predicate NoneAfter(times: seq<real>, clock: real) {
    forall i :: 0 <= i < |times| ==> times[i] <= clock
  }

  ghost predicate AllLawful(log: map<UserId, seq<real>>, clock: real) {
    forall uid :: Lawful(Recent(log, uid)) && NoneAfter(Recent(log, uid), clock)
  }

  lemma {:induction false} OneMoreLawful(times: seq<real>, now: real)
    requires Lawful(times) && NoneAfter(times, now) && Allowed(times, now)
    ensures Lawful(times + [now]) && NoneAfter(times + [now], now)
  {
    var after := times + [now];
    forall i | 0 <= i < |after|
      ensures Allowed(after[..i], after[i])
    {
      if i < |times| {
        assert after[..i] == times[..i];
      } else {
        assert after[..i] == times;
      }
    }
  }

  lemma {:induction false} AdmitLawful(log: map<UserId, seq<real>>, c: Call, clock: real)
    requires AllLawful(log, clock) && clock <= c.now
    ensures AllLawful(Admit(log, c).0, c.now)
  {
    var log' := Admit(log, c).0;
    var times := Recent(log, c.uid);
    assert NoneAfter(times, c.now);
    if Allowed(times, c.now) {
      OneMoreLawful(times, c.now);
    }
    forall uid
      ensures Lawful(Recent(log', uid)) && NoneAfter(Recent(log', uid), c.now)
    {
      assert Lawful(Recent(log, uid)) && NoneAfter(Recent(log, uid), clock);
    }
  }

  lemma {:induction false} PlayLawful(calls: seq<Call>)
    requires Clocked(calls)
    ensures calls != [] ==> AllLawful(Play(calls).log, calls[|calls| - 1].now)
    ensures calls == [] ==> forall clock :: AllLawful(Play(calls).log, clock)
  {
    if calls != [] {
      var front, c := calls[..|calls| - 1], calls[|calls| - 1];
      PlayLawful(front);
      var clock := if front == [] then c.now else front[|front| - 1].now;
      AdmitLawful(Play(front).log, c, clock);
    }
  }

  /** The acceptances of one sender among the calls, in order. */
  function AcceptedTimes(calls: seq<Call>, decisions: seq<bool>, uid: UserId): seq<real>
    requires |calls| == |decisions|
  {
    if calls == [] then []
    else
      var n := |calls| - 1;
      AcceptedTimes(calls[..n], decisions[..n], uid)
      + (if calls[n].uid == uid && decisions[n] then [calls[n].now] else [])
  }

  lemma {:induction false} LogIsAccepted(calls: seq<Call>, uid: UserId)
    ensures |Play(calls).full| == |calls|
    ensures Recent(Play(calls).log, uid) == AcceptedTimes(calls, Play(calls).full, uid)
  {
    if calls != [] {
      LogIsAccepted(calls[..|calls| - 1], uid);
      assert Play(calls).full[..|calls| - 1] == Play(calls[..|calls| - 1]).full;
    }
  }

  /** At most k * RATE_MAX acceptances of one sender in any stretch of k windows. */
  lemma {:induction false} RateBound(calls: seq<Call>, uid: UserId, lo: real, k: nat)
    requires Clocked(calls)
    ensures |Play(calls).pruned| == |calls|
    ensures CountIn(AcceptedTimes(calls, Play(calls).pruned, uid), lo, lo + k as real * 5.0) <= k * 5
  {
    PrunedDecidesLikeFull(calls);
    LogIsAccepted(calls, uid);
    PlayLawful(calls);
    ManyWindows(Recent(Play(calls).log, uid), lo, k);
  }

  // ------------------------------------------------------------------------- rejections don't count

  function Decisions(recent: map<UserId, seq<real>>, calls: seq<Call>): seq<bool>
    decreases |calls|
  {
    if calls == [] then []
    else [RateOk(recent, calls[0]).1] + Decisions(RateOk(recent, calls[0]).0, calls[1..])
  }

  /** Lists that agree from now on decide the same from now on. */
  lemma {:induction false} AgreeingDecide(
      a: map<UserId, seq<real>>, b: map<UserId, seq<real>>, calls: seq<Call>, clock: real)
    requires Agree(a, b, clock) && Clocked(calls) && (calls != [] ==> clock <= calls[0].now)
    ensures Decisions(a, calls) == Decisions(b, calls)
    decreases |calls|
  {
    if calls != [] {
      var c := calls[0];
      assert Within(Recent(a, c.uid), c.now) == Within(Recent(b, c.uid), c.now);
      var a', b' := RateOk(a, c).0, RateOk(b, c).0;
      forall uid, now | c.now <= now
        ensures Within(Recent(a', uid), now) == Within(Recent(b', uid), now)
      {
        assert Within(Recent(a, uid), now) == Within(Recent(b, uid), now);
      }
      AgreeingDecide(a', b', calls[1..], c.now);
    }
  }

  /** A rejected attempt prolongs nothing: all later decisions are as if it had not been made. */
  lemma {:induction false} RejectionLeavesNoTrace(recent: map<UserId, seq<real>>, c: Call, later: seq<Call>)
    requires !RateOk(recent, c).1 && Clocked([c] + later)
    ensures Decisions(RateOk(recent, c).0, later) == Decisions(recent, later)
  {
    var pruned := RateOk(recent, c).0;
    forall uid, now | c.now <= now
      ensures Within(Recent(pruned, uid), now) == Within(Recent(recent, uid), now)
    {
      if uid == c.uid {
        PruneTwice(Recent(recent, uid), c.now, now);
      }
    }
    assert forall i :: 0 <= i < |later| ==> later[i] == ([c] + later)[i + 1];
    assert ([c] + later)[0] == c;
    AgreeingDecide(pruned, recent, later, c.now);
  }

  // ------------------------------------------------------------------------------ the module itself

  /** accepted: when _rate_ok let it through; at: created_at, the clock read again for the INSERT. */
  datatype Message = Message(
    sender: UserId, receiver: Option<UserId>, content: string, accepted: real, at: real)

  /** Messages of one sender accepted in [lo, hi), global and private together. */
  function SentIn(messages: seq<Message>, uid: UserId, lo: real, hi: real): nat {
    if messages == [] then 0
    else
      var m := messages[|messages| - 1];
      SentIn(messages[..|messages| - 1], uid, lo, hi) + (if m.sender == uid && lo <= m.accepted < hi then 1 else 0)
  }

  /** The same by created_at. */
  function StampedIn(messages: seq<Message>, uid: UserId, lo: real, hi: real): nat {
    if messages == [] then 0
    else
      var m := messages[|messages| - 1];
      StampedIn(messages[..|messages| - 1], uid, lo, hi) + (if m.sender == uid && lo <= m.at < hi then 1 else 0)
  }

  /** Each message is stamped no earlier than it was accepted, and before the next one is. */
  ghost predicate InTurn(messages: seq<Message>, clock: real) {
    && (forall i :: 0 <= i < |messages| ==> messages[i].accepted <= messages[i].at <= clock)
    && (forall i, j :: 0 <= i < j < |messages| ==> messages[i].at <= messages[j].accepted)
  }

  /** Messages of one sender accepted before `moment` and stamped at or after it. */
  function InFlight(messages: seq<Message>, uid: UserId, moment: real): nat {
    if messages == [] then 0
    else
      var m := messages[|messages| - 1];
      InFlight(messages[..|messages| - 1], uid, moment)
      + (if m.sender == uid && m.accepted < moment <= m.at then 1 else 0)
  }

  /**
   Between acceptance and stamp nothing is lost: what was accepted in an interval or was in flight at
   its start is stamped in it or in flight at its end. This needs no order among the handlers.
   */
  lemma {:induction false} StampsConserved(messages: seq<Message>, uid: UserId, lo: real, hi: real)
    requires lo <= hi && forall m :: m in messages ==> m.accepted <= m.at
    ensures SentIn(messages, uid, lo, hi) + InFlight(messages, uid, lo) ==
            StampedIn(messages, uid, lo, hi) + InFlight(messages, uid, hi)
  {
    if messages != [] {
      assert messages[|messages| - 1] in messages;
      StampsConserved(messages[..|messages| - 1], uid, lo, hi);
    }
  }

  lemma {:induction false} StampedBefore(messages: seq<Message>, uid: UserId, moment: real)
    requires forall m :: m in messages ==> m.at < moment
    ensures InFlight(messages, uid, moment) == 0
  {
    if messages != [] {
      assert messages[|messages| - 1] in messages;
      StampedBefore(messages[..|messages| - 1], uid, moment);
    }
  }

  /** Handlers that run one after the other have one message in flight at most. */
  lemma {:induction false} OneInFlight(messages: seq<Message>, uid: UserId, moment: real, clock: real)
    requires InTurn(messages, clock)
    ensures InFlight(messages, uid, moment) <= 1
  {
    if messages != [] {
      var front, m := messages[..|messages| - 1], messages[|messages| - 1];
      if m.accepted < moment <= m.at {
        StampedBefore(front, uid, moment);
      } else {
        OneInFlight(front, uid, moment, clock);
      }
    }
  }

  /** No more stored messages than acceptances, in any interval; private ones go to somebody else. */
  ghost predicate Backed(messages: seq<Message>, log: map<UserId, seq<real>>) {
    && (forall uid, lo, hi :: SentIn(messages, uid, lo, hi) <= CountIn(Recent(log, uid), lo, hi))
    && (forall m :: m in messages ==> m.receiver != Some(m.sender))
  }

  ghost predicate Sane(
      recent: map<UserId, seq<real>>, messages: seq<Message>, log: map<UserId, seq<real>>, clock: real)
  {
    Agree(recent, log, clock) && AllLawful(log, clock) && Backed(messages, log) && InTurn(messages, clock)
  }

  lemma {:induction false} CallKeeps(
      recent: map<UserId, seq<real>>, messages: seq<Message>, log: map<UserId, seq<real>>, clock: real, c: Call)
    requires Sane(recent, messages, log, clock) && clock <= c.now
    ensures Sane(RateOk(recent, c).0, messages, Admit(log, c).0, c.now)
    ensures RateOk(recent, c).1 == Admit(log, c).1
  {
    CallAgrees(recent, log, c, clock);
    AdmitLawful(log, c, clock);
    MoreBacked(messages, log, c.uid, c.now);
  }

  /** Storing the message whose acceptance has just been logged. */
  lemma {:induction false} StoreKeeps(
      recent: map<UserId, seq<real>>, messages: seq<Message>, log: map<UserId, seq<real>>, m: Message,
      log': map<UserId, seq<real>>)
    requires Sane(recent, messages, log', m.accepted) && Backed(messages, log)
    requires log' == log[m.sender := Recent(log, m.sender) + [m.accepted]]
    requires m.accepted <= m.at && m.receiver != Some(m.sender)
    ensures Sane(recent, messages + [m], log', m.at)
  {
    StoredBacked(messages, log, m, log');
    LaterAgree(recent, log', m.accepted, m.at);
    LaterLawful(log', m.accepted, m.at);
  }

  lemma {:induction false} LaterAgree(
      recent: map<UserId, seq<real>>, log: map<UserId, seq<real>>, clock: real, later: real)
    requires Agree(recent, log, clock) && clock <= later
    ensures Agree(recent, log, later)
  {
  }

  lemma {:induction false} LaterLawful(log: map<UserId, seq<real>>, clock: real, later: real)
    requires AllLawful(log, clock) && clock <= later
    ensures AllLawful(log, later)
  {
    forall uid
      ensures Lawful(Recent(log, uid)) && NoneAfter(Recent(log, uid), later)
    {
      assert Lawful(Recent(log, uid)) && NoneAfter(Recent(log, uid), clock);
    }
  }

  class Room {
    var recent: map<UserId, seq<real>>
    var messages: seq<Message>
    ghost var log: map<UserId, seq<real>>
    ghost var clock: real

    ghost predicate Valid()
      reads this
    {
      Sane(recent, messages, log, clock)
    }

    constructor ()
      ensures Valid() && messages == [] && recent == map[] && log == map[] && clock == 0.0
    {
      recent, messages, log, clock := map[], [], map[], 0.0;
    }

    method AskRate(uid: UserId, now: real) returns (ok: bool)
      requires Valid() && clock <= now
      modifies this`recent, this`log, this`clock
      ensures Valid() && clock == now
      ensures ok == Allowed(Recent(old(log), uid), now)
      ensures log == if ok then old(log)[uid := Recent(old(log), uid) + [now]] else old(log)
      ensures (recent, ok) == RateOk(old(recent), Call(uid, now))
    {
      CallKeeps(recent, messages, log, clock, Call(uid, now));
      var times := Prune(Recent(recent, uid), now);
      if |times| >= RATE_MAX {
        recent := recent[uid := times];
        ok := false;
      } else {
        recent := recent[uid := times + [now]];
        log := log[uid := Recent(log, uid) + [now]];
        ok := true;
      }
      clock := now;
    }

    /** The list comprehension, element by element. */
    method Prune(times: seq<real>, now: real) returns (kept: seq<real>)
      ensures kept == Within(times, now)
    {
      kept := [];
      for i := 0 to |times|
        invariant kept == Within(times[..i], now)
      {
        assert times[..i + 1][..i] == times[..i];
        if now - times[i] < RATE_WINDOW {
          kept := kept + [times[i]];
        }
      }
      assert times[..|times|] == times;
    }

    /** The INSERT of a message just accepted, `before` being the log without its acceptance. */
    method Store(message: Message, ghost before: map<UserId, seq<real>>)
      requires Valid() && clock == message.accepted <= message.at && message.receiver != Some(message.sender)
      requires Backed(messages, before)
      requires log == before[message.sender := Recent(before, message.sender) + [message.accepted]]
      modifies this`messages, this`clock
      ensures Valid() && clock == message.at && messages == old(messages) + [message]
    {
      StoreKeeps(recent, messages, before, message, log);
      messages := messages + [message];
      clock := message.at;
    }

    /**
     on_global_message (to: None) and on_private_message, `uid` being an active account or None.
     A message is stored exactly when the form is fine, the limit allows it and the INSERT succeeds.
     */
    method Post(
        uid: Option<UserId>, to: Option<UserId>, known: bool, content: string, now: real, stamp: real, lockFree: bool)
      returns (stored: bool)
      requires Valid() && clock <= now <= stamp
      modifies this
      ensures Valid()
      ensures stored <==>
        && uid.Some? && 1 <= |content| <= 500 && (to.Some? ==> known && to.value != uid.value)
        && Allowed(Recent(old(log), uid.value), now) && lockFree
      ensures messages ==
        if stored then old(messages) + [Message(uid.value, to, content, now, stamp)] else old(messages)
      ensures log ==
        if uid.Some? && 1 <= |content| <= 500 && (to.Some? ==> known && to.value != uid.value)
           && Allowed(Recent(old(log), uid.value), now)
        then old(log)[uid.value := Recent(old(log), uid.value) + [now]] else old(log)
      ensures recent ==
        if uid.Some? && 1 <= |content| <= 500 && (to.Some? ==> known && to.value != uid.value)
        then RateOk(old(recent), Call(uid.value, now)).0 else old(recent)
      ensures old(clock) <= clock <= stamp
    {
      stored := false;
      if uid.None? || content == "" || |content| > MAX_LEN {
        return;
      }
      if to.Some? && (!known || to.value == uid.value) {
        return;
      }
      ghost var before := log;
      assert Backed(messages, before);
      var ok := AskRate(uid.value, now);
      assert recent == RateOk(old(recent), Call(uid.value, now)).0;
      if !ok || !lockFree {
        return;
      }
      Store(Message(uid.value, to, content, now, stamp), before);
      stored := true;
    }

    /** However long the room has been open, k windows hold at most k * RATE_MAX accepted messages of anybody. */
    lemma {:induction false} MessagesBounded(uid: UserId, lo: real, k: nat)
      requires Valid()
      ensures SentIn(messages, uid, lo, lo + k as real * 5.0) <= k * 5
    {
      ManyWindows(Recent(log, uid), lo, k);
    }

    /** By created_at, a second and later reading of the clock, there may be one message more. */
    lemma {:induction false} StampsBounded(uid: UserId, lo: real, k: nat)
      requires Valid()
      ensures StampedIn(messages, uid, lo, lo + k as real * 5.0) <= k * 5 + 1
    {
      MessagesBounded(uid, lo, k);
      assert forall m :: m in messages ==> m.accepted <= m.at;
      StampsConserved(messages, uid, lo, lo + k as real * RATE_WINDOW);
      OneInFlight(messages, uid, lo, clock);
    }
  }

  lemma {:induction false} WithinShorter(times: seq<real>, now: real)
    ensures |Within(times, now)| <= |times|
  {
    if times != [] {
      WithinShorter(times[..|times| - 1], now);
    }
  }

  lemma {:induction false} StampedAppend(messages: seq<Message>, m: Message, uid: UserId, lo: real, hi: real)
    ensures StampedIn(messages + [m], uid, lo, hi) ==
            StampedIn(messages, uid, lo, hi) + (if m.sender == uid && lo <= m.at < hi then 1 else 0)
  {
    assert (messages + [m])[..|messages|] == messages;
  }

  /** Whoever is in the room and has sent nothing yet gets a message to a known other account stored. */
  method OnePrivate(uid: UserId, to: UserId, content: string) returns (room: Room)
    requires uid != to && 1 <= |content| <= 500
    ensures room.Valid() && room.messages == [Message(uid, Some(to), content, 1.0, 1.0)]
  {
    room := new Room();
    var stored := room.Post(Some(uid), Some(to), true, content, 1.0, 1.0, true);
  }

  /** The one more is possible: a first message accepted at 0.5 and stamped at 1.0, four at 1.5, one at 5.5. */
  method OneStampMore(uid: UserId) returns (room: Room)
    ensures room.Valid() && StampedIn(room.messages, uid, 1.0, 6.0) == 6
  {
    room := new Room();
    WithinAppend([], 0.5, 5.5);
    StampedAppend([], Message(uid, None, "hi", 0.5, 1.0), uid, 1.0, 6.0);
    var stored := room.Post(Some(uid), None, false, "hi", 0.5, 1.0, true);
    for i := 1 to RATE_MAX
      invariant fresh(room) && room.Valid() && room.clock <= 1.5
      invariant |Recent(room.log, uid)| == i && |Within(Recent(room.log, uid), 5.5)| == i - 1
      invariant StampedIn(room.messages, uid, 1.0, 6.0) == i
    {
      WithinShorter(Recent(room.log, uid), 1.5);
      WithinAppend(Recent(room.log, uid), 1.5, 5.5);
      StampedAppend(room.messages, Message(uid, None, "hi", 1.5, 1.5), uid, 1.0, 6.0);
      stored := room.Post(Some(uid), None, false, "hi", 1.5, 1.5, true);
    }
    StampedAppend(room.messages, Message(uid, None, "hi", 5.5, 5.5), uid, 1.0, 6.0);
    stored := room.Post(Some(uid), None, false, "hi", 5.5, 5.5, true);
  }

  lemma {:induction false} CountAppend(times: seq<real>, t: real, lo: real, hi: real)
    ensures CountIn(times + [t], lo, hi) == CountIn(times, lo, hi) + (if lo <= t < hi then 1 else 0)
  {
    assert (times + [t])[..|times|] == times;
  }

  lemma {:induction false} MoreBacked(messages: seq<Message>, log: map<UserId, seq<real>>, uid: UserId, now: real)
    requires Backed(messages, log)
    ensures Backed(messages, log[uid := Recent(log, uid) + [now]])
  {
    var log' := log[uid := Recent(log, uid) + [now]];
    forall u, lo, hi
      ensures SentIn(messages, u, lo, hi) <= CountIn(Recent(log', u), lo, hi)
    {
      CountAppend(Recent(log, uid), now, lo, hi);
    }
  }

  lemma {:induction false} StoredBacked(
      messages: seq<Message>, log: map<UserId, seq<real>>, m: Message, log': map<UserId, seq<real>>)
    requires Backed(messages, log) && log' == log[m.sender := Recent(log, m.sender) + [m.accepted]]
    requires m.receiver != Some(m.sender)
    ensures Backed(messages + [m], log')
  {
    assert (messages + [m])[..|messages|] == messages;
    forall u, lo, hi
      ensures SentIn(messages + [m], u, lo, hi) <= CountIn(Recent(log', u), lo, hi)
    {
      CountAppend(Recent(log, m.sender), m.accepted, lo, hi);
    }
  }
}
