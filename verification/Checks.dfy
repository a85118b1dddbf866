/**
 What the check phases let through (transfer.py, reports.py and admin.py under
 secure-coding/app/blueprints, the decorators of secure-coding/app/security.py).

 Every condition is written out over the columns. Main results: exactly which unit of work each request
 comes to; that in any run each unit of work on its way was admitted for somebody logged in, and for an
 admin where one is needed, and was checked; and that a request nobody disturbs is served to its end.
 */
module Checks {
  import opened Base
  import opened Schema
  import opened Engine

  // ---------------------------------------------------------------------- what a request comes to

  lemma {:induction false} FoundExactly(db: DB, to: string, uid: UserId)
    requires Listed(db)
    ensures FindUser(db, to) == Some(uid) <==> uid in db.users && db.users[uid].username == to
  {
    FindUserFinds(db, to);
  }

  /** A form comes to a payment exactly if it names another, active account and an amount within the limits. */
  lemma {:induction false} PaymentDecided(db: DB, me: UserId, to: string, amount: Option<int>, txn: Txn)
    requires Listed(db)
    ensures Decide(db, me, SendPoints(to, amount)) == Some(txn) <==>
      && txn.Pay? && txn.sender == me && amount == Some(txn.amount) && 1 <= txn.amount <= 1_000_000_000
      && to != "" && txn.receiver in db.users && db.users[txn.receiver].username == to
      && txn.receiver != me && !db.users[txn.receiver].isDormant
  {
    FindUserFinds(db, to);
    if txn.Pay? {
      FoundExactly(db, to, txn.receiver);
    }
  }

  /** A form comes to a report exactly if it has a reason and names somebody else's account or product. */
  lemma {:induction false} ReportDecided(db: DB, me: UserId, target: Option<Target>, hasReason: bool, txn: Txn)
    ensures Decide(db, me, SendReport(target, hasReason)) == Some(txn) <==>
      && target.Some? && hasReason && txn == FileReport(me, target.value)
      && (match target.value
          case OnUser(uid) => uid in db.users && uid != me
          case OnProduct(pid) => pid in db.products && db.products[pid].seller != me)
  {
  }

  lemma {:induction false} UnblockDecided(db: DB, me: UserId, pid: ProductId, txn: Txn)
    ensures Decide(db, me, Unblock(pid)) == Some(txn) <==> pid in db.products && txn == Auto(ResetProduct(pid))
  {
  }

  /** Another account is restored if it is dormant, and made dormant if it is not. */
  lemma {:induction false} ToggleDecided(db: DB, me: UserId, uid: UserId, txn: Txn)
    ensures Decide(db, me, ToggleDormant(uid)) == Some(txn) <==>
      && uid in db.users && uid != me
      && txn == if db.users[uid].isDormant then Auto(ResetUser(uid)) else Auto(MakeDormant(uid))
  {
  }

  // ------------------------------------------------------------------ where a unit of work comes from

  /** A request that has passed its checks keeps its unit of work. */
  lemma {:induction false} ReadyStays(cfg: Config, s: State, labels: seq<Label>, t: State, pid: Pid)
    requires Runs(cfg, s, labels, t) && pid in s.procs && TxnOf(s.procs[pid]).Some?
    ensures pid in t.procs && TxnOf(t.procs[pid]) == TxnOf(s.procs[pid])
    decreases |labels|
  {
    if labels != [] {
      ReadyStays(cfg, Next(cfg, s, labels[0]), labels[1..], t, pid);
    }
  }

  lemma {:induction false} TurnedAwayStays(cfg: Config, s: State, labels: seq<Label>, t: State, pid: Pid)
    requires Runs(cfg, s, labels, t) && pid in s.procs && s.procs[pid].TurnedAway?
    ensures pid in t.procs && t.procs[pid].TurnedAway?
    decreases |labels|
  {
    if labels != [] {
      TurnedAwayStays(cfg, Next(cfg, s, labels[0]), labels[1..], t, pid);
    }
  }

  /** Where an admitted request gets its unit of work: at its check. */
  lemma {:induction false} CheckedSince(
      cfg: Config, s: State, labels: seq<Label>, t: State, pid: Pid, me: UserId, request: Request, txn: Txn)
    returns (before: seq<Label>, c: State, after: seq<Label>)
    requires Runs(cfg, s, labels, t) && pid in s.procs && s.procs[pid] == Admitted(me, request)
    requires pid in t.procs && TxnOf(t.procs[pid]) == Some(txn)
    ensures labels == before + [Check(pid)] + after && Runs(cfg, s, before, c)
    ensures pid in c.procs && c.procs[pid] == Admitted(me, request) && Decide(c.db, me, request) == Some(txn)
    ensures Runs(cfg, Next(cfg, c, Check(pid)), after, t)
    decreases |labels|
  {
    var l := labels[0];
    var n := Next(cfg, s, l);
    if l == Check(pid) {
      before, c, after := [], s, labels[1..];
      if n.procs[pid].TurnedAway? {
        TurnedAwayStays(cfg, n, after, t, pid);
      } else {
        ReadyStays(cfg, n, after, t, pid);
      }
    } else {
      before, c, after := CheckedSince(cfg, n, labels[1..], t, pid, me, request, txn);
      RunsOn(cfg, s, l, before, c);
      assert labels == [l] + labels[1..] == [l] + before + [Check(pid)] + after;
      before := [l] + before;
    }
  }

  ghost predicate NotYetAdmitted(s: State, pid: Pid) {
    pid in s.procs ==> s.procs[pid].Entered? && !s.procs[pid].request.OtherWrite?
  }

  /** The writes that no check phase decides on. */
  predicate Unchecked(cfg: Config, txn: Txn) {
    txn.Auto? && Independent(cfg, txn.stmt)
  }

  lemma {:induction false} StillNotAdmitted(
      cfg: Config, s: State, l: Label, rest: seq<Label>, t: State, pid: Pid, txn: Txn)
    requires Enabled(cfg, s, l) && l != Admit(pid) && Runs(cfg, Next(cfg, s, l), rest, t)
    requires NotYetAdmitted(s, pid) && pid in t.procs && TxnOf(t.procs[pid]) == Some(txn) && !Unchecked(cfg, txn)
    ensures NotYetAdmitted(Next(cfg, s, l), pid)
  {
    var n := Next(cfg, s, l);
    if pid in n.procs && !n.procs[pid].Entered? {
      ReadyStays(cfg, n, rest, t, pid);
    }
  }

  lemma {:induction false} AdmittedSince(
      cfg: Config, s: State, labels: seq<Label>, t: State, pid: Pid, txn: Txn)
    returns (before: seq<Label>, m: State, after: seq<Label>)
    requires Runs(cfg, s, labels, t) && NotYetAdmitted(s, pid)
    requires pid in t.procs && TxnOf(t.procs[pid]) == Some(txn) && !Unchecked(cfg, txn)
    ensures labels == before + [Admit(pid)] + after && Runs(cfg, s, before, m)
    ensures Enabled(cfg, m, Admit(pid)) && Runs(cfg, Next(cfg, m, Admit(pid)), after, t)
    ensures var p := m.procs[pid]; Admits(m.db, p.me, p.sv, p.request) && !p.request.OtherWrite?
    decreases |labels|
  {
    var l := labels[0];
    var n := Next(cfg, s, l);
    if l == Admit(pid) {
      before, m, after := [], s, labels[1..];
      if n.procs[pid].TurnedAway? {
        TurnedAwayStays(cfg, n, after, t, pid);
      }
    } else {
      StillNotAdmitted(cfg, s, l, labels[1..], t, pid, txn);
      before, m, after := AdmittedSince(cfg, n, labels[1..], t, pid, txn);
      RunsOn(cfg, s, l, before, m);
      assert labels == [l] + labels[1..] == [l] + before + [Admit(pid)] + after;
      before := [l] + before;
    }
  }

  /** A run with the admission of request `pid` at m and its check at c. */
  datatype Trail = Trail(before: seq<Label>, m: State, between: seq<Label>, c: State, after: seq<Label>)

  ghost predicate Follows(cfg: Config, labels: seq<Label>, t: State, pid: Pid, trail: Trail) {
    && labels == trail.before + [Admit(pid)] + trail.between + [Check(pid)] + trail.after
    && Runs(cfg, INITIAL, trail.before, trail.m) && Enabled(cfg, trail.m, Admit(pid))
    && Runs(cfg, Next(cfg, trail.m, Admit(pid)), trail.between, trail.c) && Enabled(cfg, trail.c, Check(pid))
    && Runs(cfg, Next(cfg, trail.c, Check(pid)), trail.after, t)
    && trail.c.procs[pid] == Admitted(trail.m.procs[pid].me, trail.m.procs[pid].request)
  }

  lemma {:induction false} TrailOf(cfg: Config, labels: seq<Label>, t: State, pid: Pid, txn: Txn)
    returns (trail: Trail)
    requires Runs(cfg, INITIAL, labels, t)
    requires pid in t.procs && TxnOf(t.procs[pid]) == Some(txn) && !Unchecked(cfg, txn)
    ensures Follows(cfg, labels, t, pid, trail)
    ensures var p := trail.m.procs[pid];
      && Admits(trail.m.db, p.me, p.sv, p.request) && !p.request.OtherWrite?
      && Decide(trail.c.db, p.me, p.request) == Some(txn)
  {
    var before, m, rest := AdmittedSince(cfg, INITIAL, labels, t, pid, txn);
    var p, n := m.procs[pid], Next(cfg, m, Admit(pid));
    var between, c, after := CheckedSince(cfg, n, rest, t, pid, p.me, p.request, txn);
    trail := Trail(before, m, between, c, after);
    assert labels == before + [Admit(pid)] + (between + [Check(pid)] + after);
  }

  /**
   Every payment on its way was admitted for its sender, logged in at that moment, and checked at a
   state in which its receiver was the active account of the name given in the form.
   */
  lemma {:induction false} PaymentWasChecked(
      cfg: Config, labels: seq<Label>, t: State, pid: Pid, s: UserId, r: UserId, a: int)
    returns (trail: Trail)
    requires Runs(cfg, INITIAL, labels, t) && pid in t.procs && TxnOf(t.procs[pid]) == Some(Pay(s, r, a))
    ensures Follows(cfg, labels, t, pid, trail)
    ensures var p, users := trail.m.procs[pid], trail.m.db.users;
      s in users && !users[s].isDormant && users[s].sessionEpoch == p.sv && p.me == s
    ensures var p, users := trail.m.procs[pid], trail.c.db.users;
      && p.request.SendPoints? && p.request.amount == Some(a) && 1 <= a <= 1_000_000_000
      && r in users && r != s && users[r].username == p.request.to && !users[r].isDormant
  {
    trail := TrailOf(cfg, labels, t, pid, Pay(s, r, a));
    CheckAdmissible(cfg, labels, t, pid, trail);
    var p := trail.m.procs[pid];
    DecidedKind(trail.c.db, p.me, p.request, Pay(s, r, a));
    PaymentDecided(trail.c.db, p.me, p.request.to, p.request.amount, Pay(s, r, a));
  }

  /** Every report on its way was checked at a state in which its target existed and was somebody else's. */
  lemma {:induction false} ReportWasChecked(
      cfg: Config, labels: seq<Label>, t: State, pid: Pid, me: UserId, target: Target)
    returns (trail: Trail)
    requires Runs(cfg, INITIAL, labels, t) && pid in t.procs && TxnOf(t.procs[pid]) == Some(FileReport(me, target))
    ensures Follows(cfg, labels, t, pid, trail)
    ensures var p, users := trail.m.procs[pid], trail.m.db.users;
      me in users && !users[me].isDormant && users[me].sessionEpoch == p.sv && p.me == me
    ensures trail.m.procs[pid].request == SendReport(Some(target), true)
    ensures match target
      case OnUser(uid) => uid in trail.c.db.users && uid != me
      case OnProduct(p) => p in trail.c.db.products && trail.c.db.products[p].seller != me
  {
    trail := TrailOf(cfg, labels, t, pid, FileReport(me, target));
    var p := trail.m.procs[pid];
    DecidedKind(trail.c.db, p.me, p.request, FileReport(me, target));
    ReportDecided(trail.c.db, p.me, p.request.target, p.request.hasReason, FileReport(me, target));
  }

  /**
   Every reset and every suspension on its way was admitted as the request of somebody who was an
   active admin at that moment, and decided on what its check then read.
   */
  lemma {:induction false} AdminActWasAdmitted(cfg: Config, labels: seq<Label>, t: State, pid: Pid, stmt: Stmt)
    returns (trail: Trail)
    requires Runs(cfg, INITIAL, labels, t) && pid in t.procs && TxnOf(t.procs[pid]) == Some(Auto(stmt))
    requires stmt.ResetProduct? || stmt.ResetUser? || stmt.MakeDormant?
    ensures Follows(cfg, labels, t, pid, trail)
    ensures var p, users := trail.m.procs[pid], trail.m.db.users;
      p.me in users && users[p.me].isAdmin && !users[p.me].isDormant && users[p.me].sessionEpoch == p.sv
    ensures var p, db := trail.m.procs[pid], trail.c.db;
      if stmt.ResetProduct? then p.request == Unblock(stmt.pid) && stmt.pid in db.products
      else
        && p.request == ToggleDormant(stmt.uid) && stmt.uid in db.users && stmt.uid != p.me
        && (stmt.ResetUser? <==> db.users[stmt.uid].isDormant)
  {
    trail := TrailOf(cfg, labels, t, pid, Auto(stmt));
    var p := trail.m.procs[pid];
    DecidedKind(trail.c.db, p.me, p.request, Auto(stmt));
    if p.request.Unblock? {
      UnblockDecided(trail.c.db, p.me, p.request.pid, Auto(stmt));
    } else {
      ToggleDecided(trail.c.db, p.me, p.request.uid, Auto(stmt));
    }
  }

  /** The kind of form a unit of work comes from. */
  lemma {:induction false} DecidedKind(db: DB, me: UserId, request: Request, txn: Txn)
    requires Decide(db, me, request) == Some(txn) && !request.OtherWrite?
    ensures txn.Pay? <==> request.SendPoints?
    ensures txn.FileReport? <==> request.SendReport?
  {
  }

  lemma {:induction false} CheckAdmissible(cfg: Config, labels: seq<Label>, t: State, pid: Pid, trail: Trail)
    requires Follows(cfg, labels, t, pid, trail)
    ensures Listed(trail.m.db) && Listed(trail.c.db)
  {
    RunKeeps(cfg, EMPTY_DB, INITIAL, [], INITIAL);
    RunKeeps(cfg, EMPTY_DB, INITIAL, trail.before, trail.m);
    StepKeeps(cfg, EMPTY_DB, trail.m, Admit(pid));
    RunKeeps(cfg, EMPTY_DB, Next(cfg, trail.m, Admit(pid)), trail.between, trail.c);
  }

  // --------------------------------------------------------------------------- served to the end

  /** Inside its transaction a request gets to COMMIT, or to ROLLBACK at the statement that raises. */
  lemma {:induction false} TransactionEnds(cfg: Config, s: State, pid: Pid) returns (labels: seq<Label>, t: State)
    requires pid in s.procs && s.procs[pid].Running? && s.lock == Some(pid)
    requires var p := s.procs[pid];
      p.next <= |Statements(p.txn)| && Run(cfg, Start(s.db), Statements(p.txn)[..p.next]) == Ok(p.work)
    ensures Runs(cfg, s, labels, t) && forall l :: l in labels ==> l.pid == pid
    ensures var txn := s.procs[pid].txn;
      t == Finish(s, pid, txn, Alone(cfg, s.db, txn).0, Alone(cfg, s.db, txn).1)
    decreases |Statements(s.procs[pid].txn)| - s.procs[pid].next
  {
    var p := s.procs[pid];
    var stmts := Statements(p.txn);
    if p.next == |stmts| {
      assert stmts[..p.next] == stmts;
      t := Next(cfg, s, Commit(pid));
      RunsOn(cfg, s, Commit(pid), [], t);
      labels := [Commit(pid)] + [];
    } else {
      var n := Next(cfg, s, Execute(pid));
      StatementRuns(cfg, s, pid);
      var rest;
      if n.procs[pid].Raised? {
        t := Next(cfg, n, Rollback(pid));
        rest := [Rollback(pid)] + [];
        RunsOn(cfg, n, Rollback(pid), [], t);
      } else {
        rest, t := TransactionEnds(cfg, n, pid);
      }
      RunsOn(cfg, s, Execute(pid), rest, t);
      labels := [Execute(pid)] + rest;
      assert n.procs[pid := t.procs[pid]] == s.procs[pid := t.procs[pid]];
    }
  }

  lemma {:induction false} StatementRuns(cfg: Config, s: State, pid: Pid)
    requires Enabled(cfg, s, Execute(pid))
    requires var p := s.procs[pid]; Run(cfg, Start(s.db), Statements(p.txn)[..p.next]) == Ok(p.work)
    ensures var p, q := s.procs[pid], Next(cfg, s, Execute(pid)).procs[pid];
      if q.Raised? then Run(cfg, Start(s.db), Statements(p.txn)) == Err(q.error)
      else q.Running? && Run(cfg, Start(s.db), Statements(p.txn)[..p.next + 1]) == Ok(q.work)
  {
    var p := s.procs[pid];
    var upTo := Statements(p.txn)[..p.next + 1];
    assert upTo[..|upTo| - 1] == Statements(p.txn)[..p.next];
    if Exec(cfg, p.work, Statements(p.txn)[p.next]).Err? {
      RaisingPrefix(cfg, Start(s.db), Statements(p.txn), p.next + 1);
    }
  }

  /** A request that has passed its checks and finds the lock free is served to its end. */
  lemma {:induction false} ReadyServed(cfg: Config, s: State, pid: Pid) returns (labels: seq<Label>, t: State)
    requires pid in s.procs && s.procs[pid].Ready? && s.lock.None?
    ensures Runs(cfg, s, labels, t) && forall l :: l in labels ==> l.pid == pid
    ensures var txn := s.procs[pid].txn;
      t == Finish(s, pid, txn, Alone(cfg, s.db, txn).0, Alone(cfg, s.db, txn).1)
  {
    if s.procs[pid].txn.Auto? {
      t := Next(cfg, s, Autocommit(pid));
      RunsOn(cfg, s, Autocommit(pid), [], t);
      labels := [Autocommit(pid)] + [];
    } else {
      var n := Next(cfg, s, Begin(pid));
      assert Statements(s.procs[pid].txn)[..0] == [];
      var rest;
      rest, t := TransactionEnds(cfg, n, pid);
      RunsOn(cfg, s, Begin(pid), rest, t);
      labels := [Begin(pid)] + rest;
      assert n.procs[pid := t.procs[pid]] == s.procs[pid := t.procs[pid]];
    }
  }

  /**
   A request that nobody disturbs: from any state in which the lock is free its own steps lead to its
   end, and it is turned away or its unit of work has the effect and outcome it has alone.
   */
  lemma {:induction false} ServedIsARun(cfg: Config, s: State, pid: Pid, me: UserId, sv: int, request: Request)
    returns (labels: seq<Label>, t: State)
    requires pid !in s.procs && s.lock.None? && !request.OtherWrite?
    ensures Runs(cfg, s, labels, t) && (forall l :: l in labels ==> l.pid == pid)
    ensures pid in t.procs && t.procs == s.procs[pid := t.procs[pid]] && t.lock.None?
    ensures
      if Admits(s.db, me, sv, request) && Decide(s.db, me, request).Some?
      then
        var txn := Decide(s.db, me, request).value;
        t.db == Alone(cfg, s.db, txn).0 && t.procs[pid] == Finished(txn, Alone(cfg, s.db, txn).1)
      else t.db == s.db && t.procs[pid].TurnedAway?
  {
    var arrive := Arrive(pid, me, sv, request);
    var s1 := Next(cfg, s, arrive);
    var s2 := Next(cfg, s1, Admit(pid));
    var rest: seq<Label>;
    if !Admits(s.db, me, sv, request) {
      rest, t := [], s2;
    } else {
      var s3 := Next(cfg, s2, Check(pid));
      var last: seq<Label>;
      if Decide(s.db, me, request).None? {
        last, t := [], s3;
      } else {
        last, t := ReadyServed(cfg, s3, pid);
      }
      rest := [Check(pid)] + last;
      RunsOn(cfg, s2, Check(pid), last, t);
    }
    RunsOn(cfg, s1, Admit(pid), rest, t);
    RunsOn(cfg, s, arrive, [Admit(pid)] + rest, t);
    labels := [arrive] + ([Admit(pid)] + rest);
    assert t.procs == s.procs[pid := t.procs[pid]];
  }
}
