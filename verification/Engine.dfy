/**
 Requests running concurrently against SQLite, one SQL statement at a time
 (secure-coding/app/db.py and the check phases of the blueprints).

 Reads see the committed tables. A write needs the single writer lock: an autocommit statement
 takes it for one step, BEGIN IMMEDIATE keeps it until COMMIT or ROLLBACK. BEGIN stands outside the
 `try`, so waiting for the lock in vain ends the request with no ROLLBACK and no effect.

 Main result: Serializable. Whatever the interleaving, the committed tables are those of running
 the finished units of work one after the other, each alone and each with the same outcome.
 */
module Engine {
  import opened Base
  import opened Schema

  type Pid = nat

  const MAX_AMOUNT := 1_000_000_000

  datatype Request =
    | SendPoints(to: string, amount: Option<int>)  // amount: None when the form field is no integer
    | SendReport(target: Option<Target>, hasReason: bool)
    | Unblock(pid: ProductId)
    | ToggleDormant(uid: UserId)
    | OtherWrite(stmt: Stmt)  // any other handler's autocommit write, at any time

  predicate NeedsAdmin(request: Request) {
    request.Unblock? || request.ToggleDormant?
  }

  /** The autocommit writes of auth.py, users.py, products.py and cli.py. */
  predicate Independent(cfg: Config, stmt: Stmt) {
    match stmt
    case InsertUser(_, _, _, balance, isAdmin) => balance == if isAdmin then 0 else cfg.bonus
    case SetBio(_, _) | SetHash(_, _) | SetPassword(_, _, _) => true
    case InsertProduct(_, _, _, _) | UpdateProduct(_, _, _) | DeleteProduct(_) => true
    case _ => false
  }

  /** current_user: an existing, active account whose epoch the session carries. */
  predicate LoggedIn(db: DB, me: UserId, sv: int) {
    me in db.users && !db.users[me].isDormant && db.users[me].sessionEpoch == sv
  }

  /** login_required / admin_required. */
  predicate Admits(db: DB, me: UserId, sv: int, request: Request) {
    LoggedIn(db, me, sv) && (NeedsAdmin(request) ==> db.users[me].isAdmin)
  }

  ghost function FindUser(db: DB, username: string): Option<UserId> {
    if exists uid :: uid in db.users && db.users[uid].username == username
    then var uid :| uid in db.users && db.users[uid].username == username; Some(uid)
    else None
  }

  /** The check phase: the unit of work to run, or None when the form is turned down. */
  ghost function Decide(db: DB, me: UserId, request: Request): Option<Txn> {
    match request
    case SendPoints(to, amount) =>
      var receiver := if to == "" then None else FindUser(db, to);
      if amount.None? || amount.value < 1 || amount.value > MAX_AMOUNT then None
      else if receiver.None? || receiver.value == me || db.users[receiver.value].isDormant then None
      else Some(Pay(me, receiver.value, amount.value))
    case SendReport(target, hasReason) =>
      if target.None? || !hasReason || !Exists(db, target.value) then None
      else (
        match target.value
        case OnUser(uid) => if uid == me then None else Some(FileReport(me, target.value))
        case OnProduct(pid) =>
          if db.products[pid].seller == me then None else Some(FileReport(me, target.value)))
    case Unblock(pid) => if pid in db.products then Some(Auto(ResetProduct(pid))) else None
    case ToggleDormant(uid) =>
      if uid !in db.users || uid == me then None
      else Some(Auto(if db.users[uid].isDormant then ResetUser(uid) else MakeDormant(uid)))
    case OtherWrite(stmt) => Some(Auto(stmt))
  }

  datatype Proc =
    | Entered(me: UserId, sv: int, request: Request)
    | Admitted(me: UserId, request: Request)
    | Ready(txn: Txn)
    | Running(txn: Txn, next: nat, work: Work)
    | Raised(txn: Txn, error: Error)
    | Finished(txn: Txn, outcome: Outcome)
    | TurnedAway

  /** The unit of work of a request that has passed its checks. */
  ghost function TxnOf(proc: Proc): Option<Txn> {
    match proc
    case Ready(txn) => Some(txn)
    case Running(txn, _, _) => Some(txn)
    case Raised(txn, _) => Some(txn)
    case Finished(txn, _) => Some(txn)
    case _ => None
  }

  datatype Entry = Entry(pid: Pid, txn: Txn, outcome: Outcome)

  /** log lists the units of work that ran to their COMMIT or to their own ROLLBACK. */
  datatype State = State(db: DB, lock: Option<Pid>, procs: map<Pid, Proc>, log: seq<Entry>)

  const INITIAL := State(EMPTY_DB, None, map[], [])

  datatype Label =
    | Arrive(pid: Pid, me: UserId, sv: int, request: Request)
    | Admit(pid: Pid)
    | Check(pid: Pid)
    | Autocommit(pid: Pid)
    | Begin(pid: Pid)
    | Execute(pid: Pid)
    | Commit(pid: Pid)
    | Rollback(pid: Pid)
    | Timeout(pid: Pid)  // busy_timeout expires while waiting for the lock
    | Fault(pid: Pid)    // a statement, or COMMIT, fails for a reason outside the tables

  ghost function Put(s: State, pid: Pid, proc: Proc): State {
    s.(procs := s.procs[pid := proc])
  }

  ghost function Finish(s: State, pid: Pid, txn: Txn, db: DB, outcome: Outcome): State {
    State(db, None, s.procs[pid := Finished(txn, outcome)], s.log + [Entry(pid, txn, outcome)])
  }

  ghost predicate Enabled(cfg: Config, s: State, l: Label) {
    if l.Arrive? then
      l.pid !in s.procs && (l.request.OtherWrite? ==> Independent(cfg, l.request.stmt))
    else
      l.pid in s.procs &&
      var proc := s.procs[l.pid];
      match l
      case Admit(_) => proc.Entered?
      case Check(_) => proc.Admitted?
      case Autocommit(_) => proc.Ready? && proc.txn.Auto? && s.lock.None?
      case Begin(_) => proc.Ready? && !proc.txn.Auto? && s.lock.None?
      case Timeout(_) => proc.Ready? && s.lock.Some?
      case Execute(_) => proc.Running? && proc.next < |Statements(proc.txn)|
      case Commit(_) => proc.Running? && proc.next == |Statements(proc.txn)|
      case Fault(_) => proc.Running?
      case Rollback(_) => proc.Raised?
  }

  ghost function Next(cfg: Config, s: State, l: Label): State
    requires Enabled(cfg, s, l)
  {
    match l
    case Arrive(pid, me, sv, request) =>
      // writes of the remaining handlers are let in unchecked
      Put(s, pid, if request.OtherWrite? then Ready(Auto(request.stmt)) else Entered(me, sv, request))
    case Admit(pid) =>
      var p := s.procs[pid];
      Put(s, pid, if Admits(s.db, p.me, p.sv, p.request) then Admitted(p.me, p.request) else TurnedAway)
    case Check(pid) =>
      var decision := Decide(s.db, s.procs[pid].me, s.procs[pid].request);
      Put(s, pid, if decision.Some? then Ready(decision.value) else TurnedAway)
    case Autocommit(pid) =>
      var txn := s.procs[pid].txn;
      var (db, outcome) := Alone(cfg, s.db, txn);
      Finish(s, pid, txn, db, outcome)
    case Begin(pid) => Put(s, pid, Running(s.procs[pid].txn, 0, Start(s.db))).(lock := Some(pid))
    case Timeout(pid) => Put(s, pid, Finished(s.procs[pid].txn, Busy))
    case Execute(pid) =>
      var p := s.procs[pid];
      (match Exec(cfg, p.work, Statements(p.txn)[p.next])
       case Ok(work) => Put(s, pid, Running(p.txn, p.next + 1, work))
       case Err(error) => Put(s, pid, Raised(p.txn, error)))
    case Commit(pid) => Finish(s, pid, s.procs[pid].txn, s.procs[pid].work.db, Committed)
    case Fault(pid) => Put(s, pid, Finished(s.procs[pid].txn, Interrupted)).(lock := None)
    case Rollback(pid) => Finish(s, pid, s.procs[pid].txn, s.db, RolledBack(s.procs[pid].error))
  }

  /** `labels` is a run from `s` to `t`. */
  ghost predicate Runs(cfg: Config, s: State, labels: seq<Label>, t: State)
    decreases |labels|
  {
    if labels == [] then s == t
    else
      Enabled(cfg, s, labels[0]) && Runs(cfg, Next(cfg, s, labels[0]), labels[1..], t)
  }

  /** A run may be put together step by step from its end. */
  lemma {:induction false} RunsOn(cfg: Config, s: State, l: Label, rest: seq<Label>, t: State)
    requires Enabled(cfg, s, l) && Runs(cfg, Next(cfg, s, l), rest, t)
    ensures Runs(cfg, s, [l] + rest, t)
  {
    assert ([l] + rest)[1..] == rest;
  }

  lemma {:induction false} RunsThen(cfg: Config, s: State, first: seq<Label>, t: State, second: seq<Label>, u: State)
    requires Runs(cfg, s, first, t) && Runs(cfg, t, second, u)
    ensures Runs(cfg, s, first + second, u)
    decreases |first|
  {
    if first == [] {
      assert first + second == second;
    } else {
      RunsThen(cfg, Next(cfg, s, first[0]), first[1..], t, second, u);
      assert (first + second)[1..] == first[1..] + second;
    }
  }

  // ------------------------------------------------------------------------------- serial replay

  function Replay(cfg: Config, db: DB, log: seq<Entry>): DB {
    if log == [] then db
    else Alone(cfg, Replay(cfg, db, log[..|log| - 1]), log[|log| - 1].txn).0
  }

  /** Facts the check phase established and that no later write can undo. */
  predicate Admissible(cfg: Config, db: DB, txn: Txn) {
    match txn
    case Pay(s, r, a) => s in db.users && r in db.users && s != r && 1 <= a <= MAX_AMOUNT
    case FileReport(me, OnUser(uid)) => me in db.users && uid in db.users && uid != me
    case FileReport(me, OnProduct(pid)) =>
      me in db.users && pid in db.history.sellers && db.history.sellers[pid] != me
    case Auto(stmt) =>
      stmt.ResetProduct? || stmt.ResetUser? || stmt.MakeDormant? || Independent(cfg, stmt)
  }

  /**
   Every logged unit of work met, at its place in the log, the facts its check phase had
   established earlier, and its outcome is the one it has there when run alone.
   */
  ghost predicate Faithful(cfg: Config, db: DB, log: seq<Entry>) {
    forall i :: 0 <= i < |log| ==> FaithfulAt(cfg, Replay(cfg, db, log[..i]), log[i])
  }

  predicate FaithfulAt(cfg: Config, db: DB, e: Entry) {
    Admissible(cfg, db, e.txn) && e.outcome == Alone(cfg, db, e.txn).1
  }

  /** Accounts are never removed, and a product id keeps its seller even once deleted. */
  predicate Grows(db: DB, db': DB) {
    && (forall u :: u in db.users ==>
         && u in db'.users
         && db'.users[u].username == db.users[u].username
         && db'.users[u].isAdmin == db.users[u].isAdmin)
    && (forall p :: p in db.history.sellers ==>
         p in db'.history.sellers && db'.history.sellers[p] == db.history.sellers[p])
  }

  predicate Listed(db: DB) {
    && (forall p :: p in db.products ==>
         p in db.history.sellers && db.history.sellers[p] == db.products[p].seller)
    && (forall p :: p in db.history.sellers ==> db.history.sellers[p] in db.users)
    && (forall u, v :: u in db.users && v in db.users && db.users[u].username == db.users[v].username ==> u == v)
  }

  /** Statements that add and remove no row leave every identity as it was. */
  predicate SameIdentities(db: DB, db': DB) {
    && db'.users.Keys == db.users.Keys
    && (forall u :: u in db.users ==>
         db'.users[u].username == db.users[u].username && db'.users[u].isAdmin == db.users[u].isAdmin)
    && db'.products.Keys == db.products.Keys
    && (forall p :: p in db.products ==> db'.products[p].seller == db.products[p].seller)
    && db'.history.sellers == db.history.sellers
  }

  lemma {:induction false} AccountStmtSame(cfg: Config, w: Work, stmt: Stmt)
    requires Exec(cfg, w, stmt).Ok? && AreaOf(stmt).Accounts? && !stmt.InsertUser?
    ensures SameIdentities(w.db, Exec(cfg, w, stmt).value.db)
  {
  }

  predicate ForUsers(stmt: Stmt) {
    stmt.BumpUser? || stmt.FetchUser? || stmt.SleepIfReached?
  }

  lemma {:induction false} UserReportSame(cfg: Config, w: Work, stmt: Stmt)
    requires Exec(cfg, w, stmt).Ok? && ForUsers(stmt)
    ensures SameIdentities(w.db, Exec(cfg, w, stmt).value.db)
  {
    match stmt
    case BumpUser(_) =>
    case FetchUser(_) =>
    case SleepIfReached(_) =>
  }

  lemma {:induction false} ProductReportSame(cfg: Config, w: Work, stmt: Stmt)
    requires Exec(cfg, w, stmt).Ok? && AreaOf(stmt).Reports? && !ForUsers(stmt)
    ensures SameIdentities(w.db, Exec(cfg, w, stmt).value.db)
  {
  }

  lemma {:induction false} ResetStmtSame(cfg: Config, w: Work, stmt: Stmt)
    requires Exec(cfg, w, stmt).Ok? && AreaOf(stmt).Resets?
    ensures SameIdentities(w.db, Exec(cfg, w, stmt).value.db)
  {
  }

  lemma {:induction false} ExecSame(cfg: Config, w: Work, stmt: Stmt)
    requires Exec(cfg, w, stmt).Ok?
    requires !stmt.InsertUser? && !stmt.InsertProduct? && !stmt.DeleteProduct?
    ensures SameIdentities(w.db, Exec(cfg, w, stmt).value.db)
  {
    match AreaOf(stmt)
    case Accounts => AccountStmtSame(cfg, w, stmt);
    case Reports =>
      if ForUsers(stmt) {
        UserReportSame(cfg, w, stmt);
      } else {
        ProductReportSame(cfg, w, stmt);
      }
    case Resets => ResetStmtSame(cfg, w, stmt);
    case Money =>
    case Catalog =>
  }

  lemma {:induction false} SameGrows(db: DB, db': DB)
    requires Listed(db) && SameIdentities(db, db')
    ensures Listed(db') && Grows(db, db')
  {
  }

  lemma {:induction false} NewUserGrows(cfg: Config, w: Work, stmt: Stmt)
    requires Listed(w.db) && Exec(cfg, w, stmt).Ok? && stmt.InsertUser?
    ensures Listed(Exec(cfg, w, stmt).value.db)
    ensures Grows(w.db, Exec(cfg, w, stmt).value.db)
  {
    var db' := Exec(cfg, w, stmt).value.db;
    assert !UsernameTaken(w.db, stmt.username);
    assert db'.users == w.db.users[stmt.uid := db'.users[stmt.uid]];
  }

  lemma {:induction false} NewProductGrows(cfg: Config, w: Work, stmt: Stmt)
    requires Listed(w.db) && Exec(cfg, w, stmt).Ok? && (stmt.InsertProduct? || stmt.DeleteProduct?)
    ensures Listed(Exec(cfg, w, stmt).value.db)
    ensures Grows(w.db, Exec(cfg, w, stmt).value.db)
  {
    var db' := Exec(cfg, w, stmt).value.db;
    if stmt.InsertProduct? {
      SellersGrow(w.db, db', stmt.pid, stmt.seller);
    } else {
      FewerProducts(w.db, db');
    }
  }

  lemma {:induction false} SellersGrow(db: DB, db': DB, pid: ProductId, seller: UserId)
    requires Listed(db) && pid !in db.history.sellers && seller in db.users && db'.users == db.users
    requires pid in db'.products && db'.products[pid].seller == seller
    requires db'.products == db.products[pid := db'.products[pid]]
    requires db'.history.sellers == db.history.sellers[pid := seller]
    ensures Listed(db') && Grows(db, db')
  {
  }

  lemma {:induction false} FewerProducts(db: DB, db': DB)
    requires Listed(db) && db'.users == db.users && db'.history == db.history
    requires forall p :: p in db'.products ==> p in db.products && db'.products[p] == db.products[p]
    ensures Listed(db') && Grows(db, db')
  {
  }

  lemma {:induction false} ExecGrows(cfg: Config, w: Work, stmt: Stmt)
    requires Listed(w.db) && Exec(cfg, w, stmt).Ok?
    ensures Listed(Exec(cfg, w, stmt).value.db)
    ensures Grows(w.db, Exec(cfg, w, stmt).value.db)
  {
    if stmt.InsertUser? {
      NewUserGrows(cfg, w, stmt);
    } else if stmt.InsertProduct? || stmt.DeleteProduct? {
      NewProductGrows(cfg, w, stmt);
    } else {
      ExecSame(cfg, w, stmt);
      SameGrows(w.db, Exec(cfg, w, stmt).value.db);
    }
  }

  lemma {:induction false} RunGrows(cfg: Config, w: Work, stmts: seq<Stmt>)
    requires Listed(w.db) && Run(cfg, w, stmts).Ok?
    ensures Listed(Run(cfg, w, stmts).value.db)
    ensures Grows(w.db, Run(cfg, w, stmts).value.db)
  {
    if stmts != [] {
      RunGrows(cfg, w, stmts[..|stmts| - 1]);
      ExecGrows(cfg, Run(cfg, w, stmts[..|stmts| - 1]).value, stmts[|stmts| - 1]);
    }
  }

  lemma {:induction false} AloneGrows(cfg: Config, db: DB, txn: Txn)
    requires Listed(db)
    ensures Listed(Alone(cfg, db, txn).0) && Grows(db, Alone(cfg, db, txn).0)
  {
    if Run(cfg, Start(db), Statements(txn)).Ok? {
      RunGrows(cfg, Start(db), Statements(txn));
    }
  }

  // ------------------------------------------------------------------------------------ invariant

  ghost predicate ProcOk(cfg: Config, s: State, pid: Pid, proc: Proc) {
    match proc
    case Entered(_, _, request) => !request.OtherWrite?
    case Admitted(me, request) => !request.OtherWrite? && me in s.db.users
    case Ready(txn) => Admissible(cfg, s.db, txn)
    case Running(txn, next, work) =>
      && Admissible(cfg, s.db, txn)
      && !txn.Auto?
      && s.lock == Some(pid)
      && next <= |Statements(txn)|
      && Run(cfg, Start(s.db), Statements(txn)[..next]) == Ok(work)
    case Raised(txn, error) =>
      && Admissible(cfg, s.db, txn)
      && s.lock == Some(pid)
      && Run(cfg, Start(s.db), Statements(txn)) == Err(error)
    case Finished(txn, outcome) =>
      && Admissible(cfg, s.db, txn)
      && (outcome.Committed? || outcome.RolledBack? ==> Entry(pid, txn, outcome) in s.log)
    case TurnedAway => true
  }

  ghost predicate LogOk(s: State) {
    && (forall i, j :: 0 <= i < j < |s.log| ==> s.log[i].pid != s.log[j].pid)
    && (forall e :: e in s.log ==> e.pid in s.procs && s.procs[e.pid] == Finished(e.txn, e.outcome))
  }

  ghost predicate Holding(s: State, pid: Pid) {
    pid in s.procs && (s.procs[pid].Running? || s.procs[pid].Raised?)
  }

  ghost predicate Inv(cfg: Config, db0: DB, s: State) {
    && s.db == Replay(cfg, db0, s.log)
    && Faithful(cfg, db0, s.log)
    && Listed(s.db)
    && LogOk(s)
    && (s.lock.Some? ==> Holding(s, s.lock.value))
    && (forall pid :: pid in s.procs ==> ProcOk(cfg, s, pid, s.procs[pid]))
  }

  lemma FindUserFinds(db: DB, username: string)
    ensures FindUser(db, username).Some? ==>
      FindUser(db, username).value in db.users && db.users[FindUser(db, username).value].username == username
  {
  }

  lemma {:induction false} DecisionAdmissible(cfg: Config, db: DB, me: UserId, request: Request)
    requires Listed(db) && me in db.users && !request.OtherWrite?
    ensures Decide(db, me, request).Some? ==> Admissible(cfg, db, Decide(db, me, request).value)
  {
  }

  lemma {:induction false} AdmissibleStays(cfg: Config, db: DB, db': DB, txn: Txn)
    requires Admissible(cfg, db, txn) && Grows(db, db')
    ensures Admissible(cfg, db', txn)
  {
  }

  lemma {:induction false} FaithfulPrefix(cfg: Config, db0: DB, log: seq<Entry>, n: nat)
    requires Faithful(cfg, db0, log) && n <= |log|
    ensures Faithful(cfg, db0, log[..n])
  {
    forall i | 0 <= i < n
      ensures FaithfulAt(cfg, Replay(cfg, db0, log[..n][..i]), log[..n][i])
    {
      assert log[..n][..i] == log[..i];
    }
  }

  lemma {:induction false} ReplayNext(cfg: Config, db0: DB, log: seq<Entry>, i: nat)
    requires Faithful(cfg, db0, log) && i < |log|
    ensures (Replay(cfg, db0, log[..i + 1]), log[i].outcome) == Alone(cfg, Replay(cfg, db0, log[..i]), log[i].txn)
    ensures Admissible(cfg, Replay(cfg, db0, log[..i]), log[i].txn)
  {
    assert FaithfulAt(cfg, Replay(cfg, db0, log[..i]), log[i]);
    assert log[..i + 1][..i] == log[..i];
  }

  lemma {:induction false} LastOfLog(cfg: Config, db0: DB, log: seq<Entry>)
    requires Faithful(cfg, db0, log) && log != []
    ensures var front, last := log[..|log| - 1], log[|log| - 1];
      && Faithful(cfg, db0, front)
      && Admissible(cfg, Replay(cfg, db0, front), last.txn)
      && Replay(cfg, db0, log) == Alone(cfg, Replay(cfg, db0, front), last.txn).0
  {
    FaithfulPrefix(cfg, db0, log, |log| - 1);
    assert FaithfulAt(cfg, Replay(cfg, db0, log[..|log| - 1]), log[|log| - 1]);
  }

  lemma {:induction false} LogGrows(cfg: Config, db0: DB, log: seq<Entry>, e: Entry)
    requires Faithful(cfg, db0, log)
    requires FaithfulAt(cfg, Replay(cfg, db0, log), e)
    ensures Faithful(cfg, db0, log + [e])
    ensures Replay(cfg, db0, log + [e]) == Alone(cfg, Replay(cfg, db0, log), e.txn).0
  {
    var log' := log + [e];
    assert log'[..|log|] == log;
    forall i | 0 <= i < |log'|
      ensures FaithfulAt(cfg, Replay(cfg, db0, log'[..i]), log'[i])
    {
      if i < |log| {
        assert log'[..i] == log[..i];
      }
    }
  }

  lemma {:induction false} FinishLogOk(s: State, pid: Pid, txn: Txn, db: DB, outcome: Outcome)
    requires LogOk(s) && pid in s.procs && !s.procs[pid].Finished?
    ensures LogOk(Finish(s, pid, txn, db, outcome))
  {
    var t := Finish(s, pid, txn, db, outcome);
    forall e | e in t.log
      ensures e.pid in t.procs && t.procs[e.pid] == Finished(e.txn, e.outcome)
    {
      assert e in s.log || e == Entry(pid, txn, outcome);
    }
    forall i, j | 0 <= i < j < |t.log|
      ensures t.log[i].pid != t.log[j].pid
    {
      assert t.log[i] in s.log;
    }
  }

  /** Ending a unit of work with the effect and outcome it has alone keeps the invariant. */
  lemma {:induction false} FinishKeeps(cfg: Config, db0: DB, s: State, pid: Pid, txn: Txn, db: DB, outcome: Outcome)
    requires Inv(cfg, db0, s) && pid in s.procs
    requires s.lock.None? || s.lock == Some(pid)
    requires !s.procs[pid].Finished? && Admissible(cfg, s.db, txn)
    requires (db, outcome) == Alone(cfg, s.db, txn)
    ensures Inv(cfg, db0, Finish(s, pid, txn, db, outcome))
    ensures Grows(s.db, db)
  {
    AloneGrows(cfg, s.db, txn);
    LogGrows(cfg, db0, s.log, Entry(pid, txn, outcome));
    FinishLogOk(s, pid, txn, db, outcome);
    FinishProcs(cfg, s, pid, txn, db, outcome);
  }

  lemma {:induction false} FinishProcs(cfg: Config, s: State, pid: Pid, txn: Txn, db: DB, outcome: Outcome)
    requires forall q :: q in s.procs ==> ProcOk(cfg, s, q, s.procs[q])
    requires s.lock.None? || s.lock == Some(pid)
    requires s.lock.Some? ==> Holding(s, s.lock.value)
    requires Admissible(cfg, s.db, txn) && Grows(s.db, db)
    ensures var t := Finish(s, pid, txn, db, outcome);
      forall q :: q in t.procs ==> ProcOk(cfg, t, q, t.procs[q])
  {
    var t := Finish(s, pid, txn, db, outcome);
    forall q | q in t.procs
      ensures ProcOk(cfg, t, q, t.procs[q])
    {
      if q == pid {
        assert t.log[|s.log|] == Entry(pid, txn, outcome);
        AdmissibleStays(cfg, s.db, db, txn);
      } else {
        OtherProcKeeps(cfg, s, t, q);
      }
    }
  }

  lemma {:induction false} OtherProcKeeps(cfg: Config, s: State, t: State, q: Pid)
    requires q in s.procs && ProcOk(cfg, s, q, s.procs[q])
    requires s.lock != Some(q)
    requires Grows(s.db, t.db) && forall e :: e in s.log ==> e in t.log
    ensures ProcOk(cfg, t, q, s.procs[q])
  {
    var proc := s.procs[q];
    if proc.Ready? || proc.Finished? {
      AdmissibleStays(cfg, s.db, t.db, proc.txn);
    }
  }

  lemma {:induction false} StepKeeps(cfg: Config, db0: DB, s: State, l: Label)
    requires Inv(cfg, db0, s) && Enabled(cfg, s, l)
    ensures Inv(cfg, db0, Next(cfg, s, l))
  {
    if l.Autocommit? {
      var (db, outcome) := Alone(cfg, s.db, s.procs[l.pid].txn);
      FinishKeeps(cfg, db0, s, l.pid, s.procs[l.pid].txn, db, outcome);
    } else if l.Commit? {
      var p := s.procs[l.pid];
      assert Statements(p.txn)[..p.next] == Statements(p.txn);
      FinishKeeps(cfg, db0, s, l.pid, p.txn, p.work.db, Committed);
    } else if l.Rollback? {
      var p := s.procs[l.pid];
      FinishKeeps(cfg, db0, s, l.pid, p.txn, s.db, RolledBack(p.error));
    } else {
      LocalStepKeeps(cfg, db0, s, l);
    }
  }

  /** Steps that leave the committed tables and the log alone. */
  lemma {:induction false} LocalStepKeeps(cfg: Config, db0: DB, s: State, l: Label)
    requires Inv(cfg, db0, s) && Enabled(cfg, s, l)
    requires !l.Autocommit? && !l.Commit? && !l.Rollback?
    ensures Inv(cfg, db0, Next(cfg, s, l))
  {
    var t := Next(cfg, s, l);
    LocalStepFrame(cfg, s, l);
    MovedProcKeeps(cfg, db0, s, l);
    forall q | q in t.procs && q != l.pid
      ensures ProcOk(cfg, t, q, t.procs[q])
    {
      assert ProcOk(cfg, s, q, s.procs[q]);
    }
  }

  lemma {:induction false} LocalStepFrame(cfg: Config, s: State, l: Label)
    requires Enabled(cfg, s, l)
    requires !l.Autocommit? && !l.Commit? && !l.Rollback?
    ensures var t := Next(cfg, s, l);
      && t.db == s.db && t.log == s.log
      && t.procs.Keys == s.procs.Keys + {l.pid}
      && (forall q :: q in s.procs && q != l.pid ==> t.procs[q] == s.procs[q])
      && t.lock == (if l.Begin? then Some(l.pid) else if l.Fault? then None else s.lock)
    ensures l.pid in s.procs ==> !s.procs[l.pid].Finished?
    ensures l.Begin? ==> s.lock.None?
  {
  }

  lemma {:induction false} MovedProcKeeps(cfg: Config, db0: DB, s: State, l: Label)
    requires Inv(cfg, db0, s) && Enabled(cfg, s, l)
    requires !l.Autocommit? && !l.Commit? && !l.Rollback?
    ensures ProcOk(cfg, Next(cfg, s, l), l.pid, Next(cfg, s, l).procs[l.pid])
  {
    assert l.pid in s.procs ==> ProcOk(cfg, s, l.pid, s.procs[l.pid]);
    if l.Execute? {
      ExecuteKeeps(cfg, s, l.pid);
    } else if l.Check? {
      DecisionAdmissible(cfg, s.db, s.procs[l.pid].me, s.procs[l.pid].request);
    } else if l.Begin? {
      assert Statements(s.procs[l.pid].txn)[..0] == [];
    }
  }

  lemma {:induction false} ExecuteKeeps(cfg: Config, s: State, pid: Pid)
    requires Enabled(cfg, s, Execute(pid)) && ProcOk(cfg, s, pid, s.procs[pid])
    ensures ProcOk(cfg, Next(cfg, s, Execute(pid)), pid, Next(cfg, s, Execute(pid)).procs[pid])
  {
    var p := s.procs[pid];
    var upTo := Statements(p.txn)[..p.next + 1];
    assert upTo[..|upTo| - 1] == Statements(p.txn)[..p.next];
    if Exec(cfg, p.work, Statements(p.txn)[p.next]).Err? {
      RaisingPrefix(cfg, Start(s.db), Statements(p.txn), p.next + 1);
    }
  }

  /** A finished unit of work leaves the same state as Finish, run alone. */
  lemma {:induction false} FinishingStep(cfg: Config, s: State, l: Label)
    requires Inv(cfg, EMPTY_DB, s) && Enabled(cfg, s, l)
    requires l.Autocommit? || l.Commit? || l.Rollback?
    ensures var txn := s.procs[l.pid].txn;
      && Admissible(cfg, s.db, txn)
      && Next(cfg, s, l) == Finish(s, l.pid, txn, Alone(cfg, s.db, txn).0, Alone(cfg, s.db, txn).1)
      && TxnOf(s.procs[l.pid]) == Some(txn) && !s.procs[l.pid].Finished?
  {
    var p := s.procs[l.pid];
    assert ProcOk(cfg, s, l.pid, p);
    if l.Commit? {
      assert Statements(p.txn)[..p.next] == Statements(p.txn);
    }
  }

  lemma {:induction false} RunKeeps(cfg: Config, db0: DB, s: State, labels: seq<Label>, t: State)
    requires Inv(cfg, db0, s) && Runs(cfg, s, labels, t)
    ensures Inv(cfg, db0, t)
    decreases |labels|
  {
    if labels != [] {
      StepKeeps(cfg, db0, s, labels[0]);
      RunKeeps(cfg, db0, Next(cfg, s, labels[0]), labels[1..], t);
    }
  }

  /**
   Serializability. The committed tables are those of the serial run of the log, and every logged
   unit of work has there, run alone, the outcome its request was given.
   */
  lemma {:induction false} Serializable(cfg: Config, labels: seq<Label>, t: State)
    requires Runs(cfg, INITIAL, labels, t)
    ensures t.db == Replay(cfg, EMPTY_DB, t.log)
    ensures Faithful(cfg, EMPTY_DB, t.log)
  {
    RunKeeps(cfg, EMPTY_DB, INITIAL, labels, t);
  }

  /**
   The log has exactly one entry for each request that committed or was rolled back by its own
   error, and none for a request that is under way, gave up waiting for the lock or was interrupted.
   */
  lemma {:induction false} LogComplete(cfg: Config, labels: seq<Label>, t: State, e: Entry)
    requires Runs(cfg, INITIAL, labels, t)
    ensures forall i, j :: 0 <= i < j < |t.log| ==> t.log[i].pid != t.log[j].pid
    ensures e in t.log <==>
      && e.pid in t.procs && t.procs[e.pid] == Finished(e.txn, e.outcome)
      && (e.outcome.Committed? || e.outcome.RolledBack?)
  {
    RunKeeps(cfg, EMPTY_DB, INITIAL, labels, t);
    if e in t.log {
      var i :| 0 <= i < |t.log| && t.log[i] == e;
      assert FaithfulAt(cfg, Replay(cfg, EMPTY_DB, t.log[..i]), t.log[i]);
    }
    if e.pid in t.procs {
      assert ProcOk(cfg, t, e.pid, t.procs[e.pid]);
    }
  }

  /** Nobody but the holder of the lock sees a transaction under way, and it undoes completely. */
  lemma {:induction false} OnlyFinishingChanges(cfg: Config, s: State, l: Label)
    requires Enabled(cfg, s, l) && Next(cfg, s, l).db != s.db
    ensures l.Autocommit? || l.Commit?
    ensures exists outcome :: Next(cfg, s, l).procs[l.pid] == Finished(s.procs[l.pid].txn, outcome)
  {
    var outcome := if l.Autocommit? then Alone(cfg, s.db, s.procs[l.pid].txn).1 else Committed;
    assert Next(cfg, s, l).procs[l.pid] == Finished(s.procs[l.pid].txn, outcome);
  }

  /** One autocommit request served from arrival to end. */
  ghost function ServeWrite(cfg: Config, s: State, pid: Pid, stmt: Stmt): State {
    Finish(s, pid, Auto(stmt), Alone(cfg, s.db, Auto(stmt)).0, Alone(cfg, s.db, Auto(stmt)).1)
  }

  lemma {:induction false} RunServes(cfg: Config, s: State, pid: Pid, stmt: Stmt, rest: seq<Label>, t: State)
    requires pid !in s.procs && s.lock.None? && Independent(cfg, stmt)
    requires Runs(cfg, ServeWrite(cfg, s, pid, stmt), rest, t)
    ensures Runs(cfg, s, [Arrive(pid, 0, 0, OtherWrite(stmt)), Autocommit(pid)] + rest, t)
  {
    var arrive := Arrive(pid, 0, 0, OtherWrite(stmt));
    var s1 := Next(cfg, s, arrive);
    var s2 := Next(cfg, s1, Autocommit(pid));
    assert s2 == ServeWrite(cfg, s, pid, stmt) by {
      assert s.procs[pid := Ready(Auto(stmt))][pid := s2.procs[pid]] == s.procs[pid := s2.procs[pid]];
    }
    RunsOn(cfg, s1, Autocommit(pid), rest, t);
    RunsOn(cfg, s, arrive, [Autocommit(pid)] + rest, t);
    assert [arrive] + ([Autocommit(pid)] + rest) == [arrive, Autocommit(pid)] + rest;
  }
}
