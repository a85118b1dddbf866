/**
 The last active admin (toggle_dormant of secure-coding/app/blueprints/admin.py, the automatic
 dormancy of reports.py), statement by statement.

 An admin cannot suspend himself, but the suspension is written after the check that he is still
 active. Main results: exactly which unit of work takes the last active admin away, at its place in
 the serial order of any run; and that two admins can suspend each other.
 */
module Admins {
  import opened Schema
  import opened Engine
  import opened Checks

  ghost predicate ActiveAdmin(db: DB) {
    exists u :: IsActiveAdmin(db, u)
  }

  predicate IsActiveAdmin(db: DB, u: UserId) {
    u in db.users && db.users[u].isAdmin && !db.users[u].isDormant
  }

  ghost predicate OnlyActiveAdmin(db: DB, u: UserId) {
    forall v :: IsActiveAdmin(db, v) <==> v == u
  }

  lemma {:induction false} AutoKeepsAdmin(cfg: Config, db: DB, stmt: Stmt, u: UserId)
    requires IsActiveAdmin(db, u) && Admissible(cfg, db, Auto(stmt)) && stmt != MakeDormant(u)
    ensures IsActiveAdmin(Alone(cfg, db, Auto(stmt)).0, u)
  {
    AutoMeaning(cfg, db, stmt);
  }

  /** Reports sanction no admin, and only MakeDormant(u) makes admin u dormant. */
  lemma {:induction false} AloneKeepsAdmin(cfg: Config, db: DB, txn: Txn, u: UserId)
    requires IsActiveAdmin(db, u) && Admissible(cfg, db, txn) && txn != Auto(MakeDormant(u))
    ensures IsActiveAdmin(Alone(cfg, db, txn).0, u)
  {
    match txn
    case Pay(s, r, a) => PayFrame(cfg, db, s, r, a);
    case FileReport(me, target) => ReportMeaning(cfg, db, me, target);
    case Auto(stmt) => AutoKeepsAdmin(cfg, db, stmt, u);
  }

  lemma {:induction false} SuspensionMeaning(cfg: Config, db: DB, u: UserId, v: UserId)
    ensures IsActiveAdmin(Alone(cfg, db, Auto(MakeDormant(u))).0, v) <==> IsActiveAdmin(db, v) && v != u
  {
    AutoMeaning(cfg, db, MakeDormant(u));
  }

  /** The suspension of the only active admin. */
  ghost predicate Strikes(db: DB, txn: Txn) {
    txn.Auto? && txn.stmt.MakeDormant? && OnlyActiveAdmin(db, txn.stmt.uid)
  }

  /** A unit of work leaves an active admin unless it suspends the only one. */
  lemma {:induction false} LastAdminExactly(cfg: Config, db: DB, txn: Txn)
    requires ActiveAdmin(db) && Admissible(cfg, db, txn)
    ensures ActiveAdmin(Alone(cfg, db, txn).0) <==> !Strikes(db, txn)
  {
    if txn.Auto? && txn.stmt.MakeDormant? {
      forall v
        ensures IsActiveAdmin(Alone(cfg, db, txn).0, v) <==> IsActiveAdmin(db, v) && v != txn.stmt.uid
      {
        SuspensionMeaning(cfg, db, txn.stmt.uid, v);
      }
    } else {
      var u :| IsActiveAdmin(db, u);
      AloneKeepsAdmin(cfg, db, txn, u);
    }
  }

  /** There is an active admin after the first n units of work of the log. */
  ghost predicate ActiveAt(cfg: Config, log: seq<Entry>, n: nat)
    requires n <= |log|
  {
    ActiveAdmin(Replay(cfg, EMPTY_DB, log[..n]))
  }

  /** The unit of work at place i suspends the only active admin. */
  ghost predicate StrikesAt(cfg: Config, log: seq<Entry>, i: nat)
    requires i < |log|
  {
    Strikes(Replay(cfg, EMPTY_DB, log[..i]), log[i].txn)
  }

  lemma {:induction false} PlaceByPlace(cfg: Config, labels: seq<Label>, t: State, i: nat)
    requires Runs(cfg, INITIAL, labels, t) && i < |t.log| && ActiveAt(cfg, t.log, i)
    ensures ActiveAt(cfg, t.log, i + 1) <==> !StrikesAt(cfg, t.log, i)
  {
    Serializable(cfg, labels, t);
    ReplayNext(cfg, EMPTY_DB, t.log, i);
    LastAdminExactly(cfg, Replay(cfg, EMPTY_DB, t.log[..i]), t.log[i].txn);
  }

  lemma {:induction false} Unstruck(cfg: Config, labels: seq<Label>, t: State, k: nat, n: nat)
    requires Runs(cfg, INITIAL, labels, t) && k <= n <= |t.log| && ActiveAt(cfg, t.log, k)
    requires forall i :: k <= i < |t.log| ==> !StrikesAt(cfg, t.log, i)
    ensures ActiveAt(cfg, t.log, n)
  {
    if k < n {
      Unstruck(cfg, labels, t, k, n - 1);
      PlaceByPlace(cfg, labels, t, n - 1);
    }
  }

  /**
   In any run with an active admin at place k of the serial order: there is one at every place from k
   on if and only if no unit of work from k on suspends the only one.
   */
  lemma {:induction false} AdminRemains(cfg: Config, labels: seq<Label>, t: State, k: nat)
    requires Runs(cfg, INITIAL, labels, t) && k <= |t.log| && ActiveAt(cfg, t.log, k)
    ensures (forall n :: k <= n <= |t.log| ==> ActiveAt(cfg, t.log, n)) <==>
            (forall i :: k <= i < |t.log| ==> !StrikesAt(cfg, t.log, i))
  {
    if forall n :: k <= n <= |t.log| ==> ActiveAt(cfg, t.log, n) {
      forall i | k <= i < |t.log|
        ensures !StrikesAt(cfg, t.log, i)
      {
        assert ActiveAt(cfg, t.log, i + 1);
        PlaceByPlace(cfg, labels, t, i);
      }
    } else if forall i :: k <= i < |t.log| ==> !StrikesAt(cfg, t.log, i) {
      forall n | k <= n <= |t.log|
        ensures ActiveAt(cfg, t.log, n)
      {
        Unstruck(cfg, labels, t, k, n);
      }
    }
  }

  // ------------------------------------------------------------------- who strikes must be struck

  /** Somewhere along the run the suspension of u is written. */
  ghost predicate SuspendedIn(cfg: Config, s: State, labels: seq<Label>, t: State, u: UserId)
    requires Runs(cfg, s, labels, t)
    decreases |labels|
  {
    labels != [] &&
    (WritesSuspension(s, labels[0], u) || SuspendedIn(cfg, Next(cfg, s, labels[0]), labels[1..], t, u))
  }

  ghost predicate WritesSuspension(s: State, l: Label, u: UserId) {
    l.Autocommit? && l.pid in s.procs && s.procs[l.pid] == Ready(Auto(MakeDormant(u)))
  }

  /** Nothing else makes an active admin inactive, one step at a time. */
  lemma {:induction false} StepKeepsAdmin(cfg: Config, s: State, l: Label, u: UserId)
    requires Inv(cfg, EMPTY_DB, s) && Enabled(cfg, s, l) && IsActiveAdmin(s.db, u)
    requires !WritesSuspension(s, l, u)
    ensures IsActiveAdmin(Next(cfg, s, l).db, u)
  {
    if Next(cfg, s, l).db != s.db {
      OnlyFinishingChanges(cfg, s, l);
      FinishingStep(cfg, s, l);
      AloneKeepsAdmin(cfg, s.db, s.procs[l.pid].txn, u);
    }
  }

  lemma {:induction false} RunKeepsAdmin(cfg: Config, s: State, labels: seq<Label>, t: State, u: UserId)
    requires Inv(cfg, EMPTY_DB, s) && Runs(cfg, s, labels, t) && IsActiveAdmin(s.db, u)
    requires !SuspendedIn(cfg, s, labels, t, u)
    ensures IsActiveAdmin(t.db, u)
    decreases |labels|
  {
    if labels != [] {
      StepKeeps(cfg, EMPTY_DB, s, labels[0]);
      StepKeepsAdmin(cfg, s, labels[0], u);
      RunKeepsAdmin(cfg, Next(cfg, s, labels[0]), labels[1..], t, u);
    }
  }

  /** The point of a run at which request `pid` of an active admin u is admitted. */
  ghost predicate AdmittedAt(cfg: Config, s: State, pid: Pid, u: UserId, v: UserId) {
    && Enabled(cfg, s, Admit(pid)) && s.procs[pid].me == u && s.procs[pid].request == ToggleDormant(v)
    && IsActiveAdmin(s.db, u) && u != v
  }

  /** Every suspension ready to be written was admitted as the request of an active admin. */
  lemma {:induction false} SuspensionWasAdmitted(cfg: Config, labels: seq<Label>, t: State, pid: Pid, v: UserId)
    returns (before: seq<Label>, m: State, u: UserId, after: seq<Label>)
    requires Runs(cfg, INITIAL, labels, t) && pid in t.procs && t.procs[pid] == Ready(Auto(MakeDormant(v)))
    ensures labels == before + [Admit(pid)] + after && Runs(cfg, INITIAL, before, m)
    ensures AdmittedAt(cfg, m, pid, u, v) && Runs(cfg, Next(cfg, m, Admit(pid)), after, t)
  {
    before, m, after := AdmittedSince(cfg, INITIAL, labels, t, pid, Auto(MakeDormant(v)));
    u := m.procs[pid].me;
    var between, c, last :=
      CheckedSince(cfg, Next(cfg, m, Admit(pid)), after, t, pid, u, m.procs[pid].request, Auto(MakeDormant(v)));
    if m.procs[pid].request.ToggleDormant? {
      ToggleDecided(c.db, u, m.procs[pid].request.uid, Auto(MakeDormant(v)));
    }
  }

  /**
   What brings it about: whenever a suspension is ready that would hit the only active admin, the admin
   who asked for it was active when his request was admitted and has been suspended himself since.
   */
  lemma {:induction false} StrikerWasStruck(cfg: Config, labels: seq<Label>, t: State, pid: Pid, v: UserId)
    returns (before: seq<Label>, m: State, u: UserId, after: seq<Label>)
    requires Runs(cfg, INITIAL, labels, t)
    requires pid in t.procs && t.procs[pid] == Ready(Auto(MakeDormant(v))) && Strikes(t.db, Auto(MakeDormant(v)))
    ensures labels == before + [Admit(pid)] + after
    ensures Runs(cfg, INITIAL, before, m) && AdmittedAt(cfg, m, pid, u, v)
    ensures Runs(cfg, Next(cfg, m, Admit(pid)), after, t) && SuspendedIn(cfg, Next(cfg, m, Admit(pid)), after, t, u)
  {
    RunKeeps(cfg, EMPTY_DB, INITIAL, [], INITIAL);
    before, m, u, after := SuspensionWasAdmitted(cfg, labels, t, pid, v);
    RunKeeps(cfg, EMPTY_DB, INITIAL, before, m);
    StepKeeps(cfg, EMPTY_DB, m, Admit(pid));
    if !SuspendedIn(cfg, Next(cfg, m, Admit(pid)), after, t, u) {
      RunKeepsAdmin(cfg, Next(cfg, m, Admit(pid)), after, t, u);
    }
  }

  // ------------------------------------------------------------------------- suspending each other

  /** One suspension by an admin: the request arrives, is admitted and passes its checks. */
  lemma {:induction false} SuspensionDecided(cfg: Config, s: State, a: Pid, u: UserId, v: UserId)
    requires a !in s.procs && u != v && IsActiveAdmin(s.db, u) && IsActiveAdmin(s.db, v)
    ensures var labels := [Arrive(a, u, s.db.users[u].sessionEpoch, ToggleDormant(v)), Admit(a), Check(a)];
      Runs(cfg, s, labels, Put(s, a, Ready(Auto(MakeDormant(v)))))
  {
    var arrive := Arrive(a, u, s.db.users[u].sessionEpoch, ToggleDormant(v));
    var t := Put(s, a, Ready(Auto(MakeDormant(v))));
    var s1 := Next(cfg, s, arrive);
    var s2 := Next(cfg, s1, Admit(a));
    assert Next(cfg, s2, Check(a)) == t by {
      assert s.procs[a := s1.procs[a]][a := s2.procs[a]][a := t.procs[a]] == t.procs;
    }
    RunsOn(cfg, s2, Check(a), [], t);
    RunsOn(cfg, s1, Admit(a), [Check(a)], t);
    RunsOn(cfg, s, arrive, [Admit(a), Check(a)], t);
  }

  /** A suspension that has passed its checks is written. */
  ghost function Suspended(cfg: Config, s: State, a: Pid, v: UserId): State {
    Finish(s, a, Auto(MakeDormant(v)), Alone(cfg, s.db, Auto(MakeDormant(v))).0, Committed)
  }

  lemma {:induction false} SuspensionWritten(cfg: Config, s: State, a: Pid, v: UserId)
    requires a in s.procs && s.procs[a] == Ready(Auto(MakeDormant(v))) && s.lock.None?
    ensures Runs(cfg, s, [Autocommit(a)], Suspended(cfg, s, a, v))
  {
    AutoMeaning(cfg, s.db, MakeDormant(v));
    RunsOn(cfg, s, Autocommit(a), [], Suspended(cfg, s, a, v));
  }

  /**
   Wherever two admins are active and the lock is free, both may check before either writes; then
   both suspensions are written and of the active admins these two are gone.
   */
  lemma {:induction false} MutualSuspension(cfg: Config, s: State, a: Pid, b: Pid, u: UserId, v: UserId)
    requires a !in s.procs && b !in s.procs && a != b && s.lock.None?
    requires u != v && IsActiveAdmin(s.db, u) && IsActiveAdmin(s.db, v)
    ensures exists labels: seq<Label>, t: State ::
      && Runs(cfg, s, labels, t) && t.lock.None?
      && t.procs == s.procs[a := Finished(Auto(MakeDormant(v)), Committed)]
                           [b := Finished(Auto(MakeDormant(u)), Committed)]
      && forall w :: IsActiveAdmin(t.db, w) <==> IsActiveAdmin(s.db, w) && w != u && w != v
  {
    var checkA := [Arrive(a, u, s.db.users[u].sessionEpoch, ToggleDormant(v)), Admit(a), Check(a)];
    var checkB := [Arrive(b, v, s.db.users[v].sessionEpoch, ToggleDormant(u)), Admit(b), Check(b)];
    var s1 := Put(s, a, Ready(Auto(MakeDormant(v))));
    var s2 := Put(s1, b, Ready(Auto(MakeDormant(u))));
    var s3 := Suspended(cfg, s2, a, v);
    var t := Suspended(cfg, s3, b, u);
    SuspensionDecided(cfg, s, a, u, v);
    SuspensionDecided(cfg, s1, b, v, u);
    SuspensionWritten(cfg, s2, a, v);
    SuspensionWritten(cfg, s3, b, u);
    RunsThen(cfg, s2, [Autocommit(a)], s3, [Autocommit(b)], t);
    RunsThen(cfg, s1, checkB, s2, [Autocommit(a)] + [Autocommit(b)], t);
    RunsThen(cfg, s, checkA, s1, checkB + ([Autocommit(a)] + [Autocommit(b)]), t);
    forall w
      ensures IsActiveAdmin(t.db, w) <==> IsActiveAdmin(s.db, w) && w != u && w != v
    {
      SuspensionMeaning(cfg, s.db, v, w);
      SuspensionMeaning(cfg, s3.db, u, w);
    }
    assert t.procs == s.procs[a := Finished(Auto(MakeDormant(v)), Committed)]
                             [b := Finished(Auto(MakeDormant(u)), Committed)];
  }

  const FIRST: Stmt := InsertUser(1, "first", 0, 0, true)
  const SECOND: Stmt := InsertUser(2, "second", 0, 0, true)

  lemma {:induction false} TwoAdmins(cfg: Config)
    ensures var db := Alone(cfg, Alone(cfg, EMPTY_DB, Auto(FIRST)).0, Auto(SECOND)).0;
      && db.users.Keys == {1, 2} && IsActiveAdmin(db, 1) && IsActiveAdmin(db, 2)
  {
    AutoMeaning(cfg, EMPTY_DB, FIRST);
    AutoMeaning(cfg, Alone(cfg, EMPTY_DB, Auto(FIRST)).0, SECOND);
  }

  lemma {:induction false} TwoAdminsReachable(cfg: Config) returns (labels: seq<Label>, s: State)
    ensures Runs(cfg, INITIAL, labels, s) && s.lock.None? && s.procs.Keys == {0, 1}
    ensures forall w :: IsActiveAdmin(s.db, w) <==> w == 1 || w == 2
  {
    var s1 := ServeWrite(cfg, INITIAL, 0, FIRST);
    s := ServeWrite(cfg, s1, 1, SECOND);
    var last := [Arrive(1, 0, 0, OtherWrite(SECOND)), Autocommit(1)] + [];
    labels := [Arrive(0, 0, 0, OtherWrite(FIRST)), Autocommit(0)] + last;
    RunServes(cfg, s1, 1, SECOND, [], s);
    RunServes(cfg, INITIAL, 0, FIRST, last, s);
    TwoAdmins(cfg);
  }

  /** Two registered admins who suspend each other leave no active admin. */
  lemma {:induction false} NoAdminLeft(cfg: Config)
    ensures exists before: seq<Label>, s: State, labels: seq<Label>, t: State ::
      Runs(cfg, INITIAL, before, s) && ActiveAdmin(s.db) && Runs(cfg, s, labels, t) && !ActiveAdmin(t.db)
  {
    var before, s := TwoAdminsReachable(cfg);
    MutualSuspension(cfg, s, 2, 3, 1, 2);
    var labels, t :|
      Runs(cfg, s, labels, t) && forall w :: IsActiveAdmin(t.db, w) <==> IsActiveAdmin(s.db, w) && w != 1 && w != 2;
    assert Runs(cfg, INITIAL, before, s) && ActiveAdmin(s.db) && Runs(cfg, s, labels, t) && !ActiveAdmin(t.db);
  }
}
