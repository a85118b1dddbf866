/**
 Reports, counters and automatic sanctions (secure-coding/app/blueprints/reports.py, admin.py).

 Admin handlers decide on what they read before their UPDATE, so a reset or a suspension may be
 stale. The invariants below hold in every committed state of every interleaving all the same.
 */
module Sanctions {
  import opened Base
  import opened Schema
  import opened Engine

  /** Report rows stored against a target, whether or not it still exists. */
  function Rows(reports: seq<Report>, target: Target): nat {
    if reports == [] then 0
    else Rows(reports[..|reports| - 1], target) + (if reports[|reports| - 1].target == target then 1 else 0)
  }

  // ------------------------------------------------------------- what concerns a single target

  /** One target as the report machinery sees it; mark is is_blocked or is_dormant. */
  datatype Face =
    | Live(count: int, mark: bool, admin: bool, cleared: int, rows: nat, sanctions: int)
    | Gone(rows: nat, sanctions: int)

  function FaceOf(db: DB, x: Target): Face {
    var rows, sanctions, cleared := Rows(db.reports, x), At(db.history.sanctions, x), At(db.history.cleared, x);
    if !Exists(db, x) then Gone(rows, sanctions)
    else
      match x
      case OnUser(u) =>
        Live(db.users[u].reportCount, db.users[u].isDormant, db.users[u].isAdmin, cleared, rows, sanctions)
      case OnProduct(p) =>
        Live(db.products[p].reportCount, db.products[p].isBlocked, false, cleared, rows, sanctions)
  }

  /** A product is blocked exactly from the threshold on; an ordinary account at the threshold is dormant. */
  predicate MarkOk(threshold: int, product: bool, f: Face)
    requires f.Live?
  {
    if product then f.mark <==> f.count >= threshold
    else !f.admin && f.count >= threshold ==> f.mark
  }

  /**
   - the counter and what resets wiped from it add up to the rows;
   - an admin is never sanctioned automatically;
   - each automatic sanction has used up a full threshold of rows of its own;
   - with a threshold of at least 1, marks agree with counters.
   */
  predicate FaceOk(threshold: int, product: bool, f: Face) {
    && f.sanctions >= 0
    && threshold * f.sanctions <= f.rows
    && (f.Live? ==>
         && f.count + f.cleared == f.rows
         && (f.admin ==> f.sanctions == 0 && !product)
         && (threshold >= 1 ==> MarkOk(threshold, product, f))
         && (threshold >= 1 && !f.mark ==> threshold * f.sanctions <= f.rows - f.count))
  }

  function AfterReport(threshold: int, f: Face): Face
    requires f.Live?
  {
    var reached := f.count + 1 >= threshold && !f.admin;
    Live(f.count + 1, f.mark || reached, f.admin, f.cleared, f.rows + 1,
         f.sanctions + (if reached && !f.mark then 1 else 0))
  }

  function AfterReset(f: Face): Face
    requires f.Live?
  {
    f.(count := 0, mark := false, cleared := f.cleared + f.count)
  }

  lemma {:induction false} ReportKeepsFace(threshold: int, product: bool, f: Face)
    requires f.Live? && FaceOk(threshold, product, f)
    ensures FaceOk(threshold, product, AfterReport(threshold, f))
  {
    assert threshold * (f.sanctions + 1) == threshold * f.sanctions + threshold;
    if threshold <= 0 {
      NotPositive(threshold, AfterReport(threshold, f).sanctions);
    }
  }

  lemma NotPositive(threshold: int, n: nat)
    requires threshold <= 0
    ensures threshold * n <= 0
  {
  }

  lemma {:induction false} ResetKeepsFace(threshold: int, product: bool, f: Face)
    requires f.Live? && FaceOk(threshold, product, f)
    ensures FaceOk(threshold, product, AfterReset(f))
  {
  }

  // ----------------------------------------------------------------------------- the invariant

  predicate KnownTarget(db: DB, target: Target) {
    match target
    case OnUser(u) => u in db.users
    case OnProduct(p) => p in db.history.sellers
  }

  function Owner(db: DB, target: Target): UserId
    requires KnownTarget(db, target)
  {
    match target
    case OnUser(u) => u
    case OnProduct(p) => db.history.sellers[p]
  }

  /** UNIQUE (reporter, target), and nobody reports himself or his own product. */
  predicate ReportsSound(db: DB) {
    && (forall i, j :: 0 <= i < j < |db.reports| ==> db.reports[i] != db.reports[j])
    && (forall r :: r in db.reports ==>
         r.reporter in db.users && KnownTarget(db, r.target) && Owner(db, r.target) != r.reporter)
  }

  /** History has nothing about a target that never existed. */
  ghost predicate HistoryKnown(db: DB) {
    forall x :: !KnownTarget(db, x) ==> At(db.history.cleared, x) == 0 && At(db.history.sanctions, x) == 0
  }

  predicate TargetOk(cfg: Config, db: DB, x: Target) {
    FaceOk(cfg.threshold, x.OnProduct?, FaceOf(db, x))
  }

  ghost predicate Sanctioned(cfg: Config, db: DB) {
    && Listed(db)
    && ReportsSound(db)
    && HistoryKnown(db)
    && (forall x :: TargetOk(cfg, db, x))
  }

  lemma {:induction false} ExistingIsKnown(db: DB, x: Target)
    requires Listed(db) && Exists(db, x)
    ensures KnownTarget(db, x)
  {
  }

  lemma {:induction false} SoundStays(db: DB, db': DB)
    requires ReportsSound(db) && Grows(db, db') && db'.reports == db.reports
    ensures ReportsSound(db')
  {
    assert forall x :: KnownTarget(db, x) ==> KnownTarget(db', x) && Owner(db', x) == Owner(db, x);
  }

  /** Nothing the report machinery reads or writes changes, except that products may go. */
  predicate SameReports(db: DB, db': DB) {
    && db'.users.Keys == db.users.Keys
    && (forall u :: u in db.users ==>
         && db'.users[u].isAdmin == db.users[u].isAdmin
         && db'.users[u].isDormant == db.users[u].isDormant
         && db'.users[u].reportCount == db.users[u].reportCount)
    && db'.products.Keys <= db.products.Keys
    && (forall p :: p in db'.products ==>
         && db'.products[p].isBlocked == db.products[p].isBlocked
         && db'.products[p].reportCount == db.products[p].reportCount)
    && db'.reports == db.reports
    && db'.history.sellers == db.history.sellers
    && db'.history.cleared == db.history.cleared
    && db'.history.sanctions == db.history.sanctions
  }

  lemma {:induction false} SameReportsKeeps(cfg: Config, db: DB, db': DB)
    requires Sanctioned(cfg, db) && SameReports(db, db') && Listed(db') && Grows(db, db')
    ensures Sanctioned(cfg, db')
  {
    SoundStays(db, db');
    assert forall x :: KnownTarget(db', x) <==> KnownTarget(db, x);
    forall x
      ensures TargetOk(cfg, db', x)
    {
      assert TargetOk(cfg, db, x);
      SameFace(db, db', x);
    }
  }

  lemma {:induction false} SameFace(db: DB, db': DB, x: Target)
    requires SameReports(db, db')
    ensures FaceOf(db', x) == FaceOf(db, x) ||
            FaceOf(db', x) == Gone(FaceOf(db, x).rows, FaceOf(db, x).sanctions)
  {
  }

  lemma {:induction false} WriteSameReports(cfg: Config, db: DB, stmt: Stmt)
    requires AreaOf(stmt).Accounts? || AreaOf(stmt).Catalog?
    requires !stmt.InsertUser? && !stmt.InsertProduct?
    ensures SameReports(db, Alone(cfg, db, Auto(stmt)).0)
  {
    AutoMeaning(cfg, db, stmt);
    if AreaOf(stmt).Accounts? {
      AccountStmtSameReports(cfg, db, stmt);
    } else {
      CatalogStmtSameReports(cfg, db, stmt);
    }
  }

  lemma {:induction false} AccountStmtSameReports(cfg: Config, db: DB, stmt: Stmt)
    requires AreaOf(stmt).Accounts? && !stmt.InsertUser? && Exec(cfg, Start(db), stmt).Ok?
    ensures SameReports(db, Exec(cfg, Start(db), stmt).value.db)
  {
  }

  lemma {:induction false} CatalogStmtSameReports(cfg: Config, db: DB, stmt: Stmt)
    requires AreaOf(stmt).Catalog? && !stmt.InsertProduct?
    ensures Exec(cfg, Start(db), stmt).Ok? ==> SameReports(db, Exec(cfg, Start(db), stmt).value.db)
  {
  }

  lemma {:induction false} PaySameReports(cfg: Config, db: DB, s: UserId, r: UserId, a: int)
    ensures SameReports(db, Alone(cfg, db, Pay(s, r, a)).0)
  {
    PayFrame(cfg, db, s, r, a);
  }

  // ------------------------------------------------------------------------------------- reports

  lemma {:induction false} RowsOneMore(reports: seq<Report>, r: Report, x: Target)
    ensures Rows(reports + [r], x) == Rows(reports, x) + (if r.target == x then 1 else 0)
  {
    assert (reports + [r])[..|reports|] == reports;
  }

  /** A report leaves the tables as they were but for its row, its target and its sanction. */
  lemma {:induction false} ReportLeaves(cfg: Config, db: DB, me: UserId, target: Target)
    requires Exists(db, target)
    ensures var db' := Reported(cfg, db, me, target);
      && db'.reports == db.reports + [Report(me, target)]
      && db'.history.cleared == db.history.cleared
      && (forall x :: x != target ==> At(db'.history.sanctions, x) == At(db.history.sanctions, x))
      && (match target
          case OnUser(u) => db'.products == db.products && db'.users == db.users[u := db'.users[u]]
          case OnProduct(p) => db'.users == db.users && db'.products == db.products[p := db'.products[p]])
  {
  }

  lemma {:induction false} OtherFace(db: DB, db': DB, me: UserId, target: Target, x: Target)
    requires x != target && Exists(db, target) && Exists(db', target)
    requires db'.reports == db.reports + [Report(me, target)] && db'.history.cleared == db.history.cleared
    requires At(db'.history.sanctions, x) == At(db.history.sanctions, x)
    requires match target
      case OnUser(u) => db'.products == db.products && db'.users == db.users[u := db'.users[u]]
      case OnProduct(p) => db'.users == db.users && db'.products == db.products[p := db'.products[p]]
    ensures FaceOf(db', x) == FaceOf(db, x)
  {
    RowsOneMore(db.reports, Report(me, target), x);
  }

  lemma {:induction false} TargetFace(cfg: Config, db: DB, me: UserId, target: Target)
    requires Exists(db, target)
    ensures FaceOf(Reported(cfg, db, me, target), target) == AfterReport(cfg.threshold, FaceOf(db, target))
  {
    ReportLeaves(cfg, db, me, target);
    RowsOneMore(db.reports, Report(me, target), target);
  }

  lemma {:induction false} ReportFace(cfg: Config, db: DB, me: UserId, target: Target, x: Target)
    requires Exists(db, target)
    ensures FaceOf(Reported(cfg, db, me, target), x) ==
            if x == target then AfterReport(cfg.threshold, FaceOf(db, x)) else FaceOf(db, x)
  {
    if x == target {
      TargetFace(cfg, db, me, target);
    } else {
      ReportLeaves(cfg, db, me, target);
      OtherFace(db, Reported(cfg, db, me, target), me, target, x);
    }
  }

  lemma {:induction false} ReportSound(cfg: Config, db: DB, me: UserId, target: Target)
    requires Exists(db, target) && Sanctioned(cfg, db) && Admissible(cfg, db, FileReport(me, target))
    requires Report(me, target) !in db.reports
    requires Grows(db, Reported(cfg, db, me, target))
    ensures ReportsSound(Reported(cfg, db, me, target))
  {
    var db' := Reported(cfg, db, me, target);
    ReportLeaves(cfg, db, me, target);
    assert KnownTarget(db, target) && Owner(db, target) != me;
    OneMoreSound(db, db', Report(me, target));
  }

  lemma {:induction false} OneMoreSound(db: DB, db': DB, r: Report)
    requires ReportsSound(db) && Grows(db, db') && db'.reports == db.reports + [r] && r !in db.reports
    requires r.reporter in db.users && KnownTarget(db, r.target) && Owner(db, r.target) != r.reporter
    ensures ReportsSound(db')
  {
    assert forall x :: KnownTarget(db, x) ==> KnownTarget(db', x) && Owner(db', x) == Owner(db, x);
    assert forall q :: q in db'.reports ==> q in db.reports || q == r;
  }

  lemma {:induction false} ReportHistory(cfg: Config, db: DB, me: UserId, target: Target)
    requires Listed(db) && HistoryKnown(db) && Exists(db, target)
    ensures HistoryKnown(Reported(cfg, db, me, target))
  {
    var db' := Reported(cfg, db, me, target);
    ExistingIsKnown(db, target);
    forall x | !KnownTarget(db', x)
      ensures At(db'.history.cleared, x) == 0 && At(db'.history.sanctions, x) == 0
    {
      assert !KnownTarget(db, x) && x != target;
    }
  }

  lemma {:induction false} ReportKeeps(cfg: Config, db: DB, me: UserId, target: Target)
    requires Sanctioned(cfg, db) && Admissible(cfg, db, FileReport(me, target))
    requires Report(me, target) !in db.reports && Exists(db, target)
    requires Listed(Reported(cfg, db, me, target)) && Grows(db, Reported(cfg, db, me, target))
    ensures Sanctioned(cfg, Reported(cfg, db, me, target))
  {
    var db' := Reported(cfg, db, me, target);
    ReportSound(cfg, db, me, target);
    ReportHistory(cfg, db, me, target);
    forall x
      ensures TargetOk(cfg, db', x)
    {
      assert TargetOk(cfg, db, x);
      ReportFace(cfg, db, me, target, x);
      if x == target {
        ReportKeepsFace(cfg.threshold, x.OnProduct?, FaceOf(db, x));
      }
    }
  }

  // ------------------------------------------------------------------------------ admin handlers

  function ResetOf(target: Target): Stmt {
    match target
    case OnUser(u) => ResetUser(u)
    case OnProduct(p) => ResetProduct(p)
  }

  /** The tables a reset leaves. */
  function Reset(db: DB, target: Target): DB {
    if !Exists(db, target) then db
    else
      match target
      case OnUser(u) => PutUser(NoteCleared(db, target), u, db.users[u].(isDormant := false, reportCount := 0))
      case OnProduct(p) =>
        PutProduct(NoteCleared(db, target), p, db.products[p].(isBlocked := false, reportCount := 0))
  }

  lemma {:induction false} ResetMeaning(cfg: Config, db: DB, target: Target)
    ensures Alone(cfg, db, Auto(ResetOf(target))) == (Reset(db, target), Committed)
  {
    AutoMeaning(cfg, db, ResetOf(target));
  }

  lemma {:induction false} ResetFace(cfg: Config, db: DB, target: Target, x: Target)
    ensures var db' := Alone(cfg, db, Auto(ResetOf(target))).0;
      && FaceOf(db', x) == (if x == target && Exists(db, x) then AfterReset(FaceOf(db, x)) else FaceOf(db, x))
      && db'.reports == db.reports
      && db'.history.sanctions == db.history.sanctions
      && (x != target || !Exists(db, x) ==> At(db'.history.cleared, x) == At(db.history.cleared, x))
  {
    ResetMeaning(cfg, db, target);
  }

  lemma {:induction false} ResetKeeps(cfg: Config, db: DB, target: Target)
    requires Sanctioned(cfg, db)
    ensures Sanctioned(cfg, Alone(cfg, db, Auto(ResetOf(target))).0)
  {
    var db' := Alone(cfg, db, Auto(ResetOf(target))).0;
    AloneGrows(cfg, db, Auto(ResetOf(target)));
    ResetFace(cfg, db, target, target);
    SoundStays(db, db');
    forall x
      ensures TargetOk(cfg, db', x)
      ensures !KnownTarget(db', x) ==> At(db'.history.cleared, x) == 0 && At(db'.history.sanctions, x) == 0
    {
      assert TargetOk(cfg, db, x);
      ResetFace(cfg, db, target, x);
      if Exists(db, x) {
        ExistingIsKnown(db, x);
        ResetKeepsFace(cfg.threshold, x.OnProduct?, FaceOf(db, x));
      }
      assert KnownTarget(db, x) ==> KnownTarget(db', x);
    }
  }

  lemma {:induction false} SuspendFace(cfg: Config, db: DB, uid: UserId, x: Target)
    ensures var db' := Alone(cfg, db, Auto(MakeDormant(uid))).0;
      && FaceOf(db', x) == (if x == OnUser(uid) && Exists(db, x) then FaceOf(db, x).(mark := true) else FaceOf(db, x))
      && db'.reports == db.reports && db'.history == db.history
  {
    AutoMeaning(cfg, db, MakeDormant(uid));
  }

  lemma {:induction false} SuspendKeeps(cfg: Config, db: DB, uid: UserId)
    requires Sanctioned(cfg, db)
    ensures Sanctioned(cfg, Alone(cfg, db, Auto(MakeDormant(uid))).0)
  {
    var db' := Alone(cfg, db, Auto(MakeDormant(uid))).0;
    AloneGrows(cfg, db, Auto(MakeDormant(uid)));
    SuspendFace(cfg, db, uid, OnUser(uid));
    SoundStays(db, db');
    assert forall x :: KnownTarget(db, x) ==> KnownTarget(db', x);
    forall x
      ensures TargetOk(cfg, db', x)
    {
      assert TargetOk(cfg, db, x);
      SuspendFace(cfg, db, uid, x);
    }
  }

  // ------------------------------------------------------------------------------- other writers

  /** A target nobody could name yet has no rows against it. */
  lemma {:induction false} NoRowsYet(db: DB, reports: seq<Report>, target: Target)
    requires !KnownTarget(db, target) && forall r :: r in reports ==> KnownTarget(db, r.target)
    ensures Rows(reports, target) == 0
  {
    if reports != [] {
      assert reports[|reports| - 1] in reports;
      NoRowsYet(db, reports[..|reports| - 1], target);
    }
  }

  /** What an INSERT does for the report machinery: a target may come to exist. */
  predicate OnlyAdds(db: DB, db': DB) {
    && (forall u :: u in db.users ==> u in db'.users && db'.users[u] == db.users[u])
    && (forall u :: u in db'.users && u !in db.users ==>
         !db'.users[u].isDormant && db'.users[u].reportCount == 0)
    && (forall p :: p in db.products ==> p in db'.products && db'.products[p] == db.products[p])
    && (forall p :: p in db'.products && p !in db.products ==>
         p !in db.history.sellers && !db'.products[p].isBlocked && db'.products[p].reportCount == 0)
    && db'.reports == db.reports
    && db'.history.cleared == db.history.cleared && db'.history.sanctions == db.history.sanctions
  }

  lemma {:induction false} InsertOnlyAdds(cfg: Config, db: DB, stmt: Stmt)
    requires Listed(db) && (stmt.InsertUser? || stmt.InsertProduct?)
    ensures OnlyAdds(db, Alone(cfg, db, Auto(stmt)).0)
  {
    AutoMeaning(cfg, db, stmt);
  }

  lemma {:induction false} InsertFace(cfg: Config, db: DB, db': DB, x: Target)
    requires Sanctioned(cfg, db) && OnlyAdds(db, db')
    ensures FaceOf(db', x) == FaceOf(db, x) || exists admin :: FaceOf(db', x) == Live(0, false, admin, 0, 0, 0)
  {
    if !Exists(db, x) && Exists(db', x) {
      assert !KnownTarget(db, x);
      NoRowsYet(db, db.reports, x);
      assert FaceOf(db', x) == Live(0, false, FaceOf(db', x).admin, 0, 0, 0);
    }
  }

  lemma {:induction false} InsertKeeps(cfg: Config, db: DB, stmt: Stmt)
    requires Sanctioned(cfg, db) && (stmt.InsertUser? || stmt.InsertProduct?)
    ensures Sanctioned(cfg, Alone(cfg, db, Auto(stmt)).0)
  {
    var db' := Alone(cfg, db, Auto(stmt)).0;
    AloneGrows(cfg, db, Auto(stmt));
    InsertOnlyAdds(cfg, db, stmt);
    SoundStays(db, db');
    assert forall x :: KnownTarget(db, x) ==> KnownTarget(db', x);
    forall x
      ensures TargetOk(cfg, db', x)
    {
      assert TargetOk(cfg, db, x);
      InsertFace(cfg, db, db', x);
    }
  }

  lemma {:induction false} AloneKeepsSanctioned(cfg: Config, db: DB, txn: Txn)
    requires Sanctioned(cfg, db) && Admissible(cfg, db, txn)
    ensures Sanctioned(cfg, Alone(cfg, db, txn).0)
  {
    AloneGrows(cfg, db, txn);
    match txn
    case Pay(s, r, a) =>
      PaySameReports(cfg, db, s, r, a);
      SameReportsKeeps(cfg, db, Alone(cfg, db, txn).0);
    case FileReport(me, target) =>
      ReportMeaning(cfg, db, me, target);
      if Report(me, target) !in db.reports && Exists(db, target) {
        ReportKeeps(cfg, db, me, target);
      }
    case Auto(stmt) =>
      match stmt {
        case ResetProduct(p) => ResetKeeps(cfg, db, OnProduct(p));
        case ResetUser(u) => ResetKeeps(cfg, db, OnUser(u));
        case MakeDormant(u) => SuspendKeeps(cfg, db, u);
        case _ =>
          if stmt.InsertUser? || stmt.InsertProduct? {
            InsertKeeps(cfg, db, stmt);
          } else {
            WriteSameReports(cfg, db, stmt);
            SameReportsKeeps(cfg, db, Alone(cfg, db, txn).0);
          }
      }
  }

  lemma {:induction false} EmptySanctioned(cfg: Config)
    ensures Sanctioned(cfg, EMPTY_DB)
  {
  }

  lemma {:induction false} ReplaySanctioned(cfg: Config, log: seq<Entry>)
    requires Faithful(cfg, EMPTY_DB, log)
    ensures Sanctioned(cfg, Replay(cfg, EMPTY_DB, log))
  {
    if log == [] {
      EmptySanctioned(cfg);
    } else {
      var front := log[..|log| - 1];
      LastOfLog(cfg, EMPTY_DB, log);
      ReplaySanctioned(cfg, front);
      AloneKeepsSanctioned(cfg, Replay(cfg, EMPTY_DB, front), log[|log| - 1].txn);
    }
  }

  // ------------------------------------------------------------------------------- main theorems

  /**
   In every committed state of every interleaving a product is blocked exactly when its counter
   has reached the threshold, and an ordinary account whose counter has is dormant.
   */
  lemma {:induction false} MarkedAtThreshold(cfg: Config, labels: seq<Label>, t: State)
    requires Runs(cfg, INITIAL, labels, t) && cfg.threshold >= 1
    ensures forall p :: p in t.db.products ==>
      (t.db.products[p].isBlocked <==> t.db.products[p].reportCount >= cfg.threshold)
    ensures forall u :: u in t.db.users && !t.db.users[u].isAdmin && t.db.users[u].reportCount >= cfg.threshold ==>
      t.db.users[u].isDormant
  {
    Serializable(cfg, labels, t);
    ReplaySanctioned(cfg, t.log);
    forall p | p in t.db.products
      ensures t.db.products[p].isBlocked <==> t.db.products[p].reportCount >= cfg.threshold
    {
      assert TargetOk(cfg, t.db, OnProduct(p));
    }
    forall u | u in t.db.users && !t.db.users[u].isAdmin && t.db.users[u].reportCount >= cfg.threshold
      ensures t.db.users[u].isDormant
    {
      assert TargetOk(cfg, t.db, OnUser(u));
    }
  }

  /** The current counter and everything resets wiped from it add up to the stored rows. */
  lemma {:induction false} CountsReconcile(cfg: Config, labels: seq<Label>, t: State, target: Target)
    requires Runs(cfg, INITIAL, labels, t) && Exists(t.db, target)
    ensures Count(t.db, target) + At(t.db.history.cleared, target) == Rows(t.db.reports, target)
  {
    Serializable(cfg, labels, t);
    ReplaySanctioned(cfg, t.log);
    assert TargetOk(cfg, t.db, target);
  }

  /**
   All or nothing: at its place in the serial order a report is stored, counted and acted on, or, if
   it is a second one or its product has been deleted since the check, leaves everything as it was.
   */
  lemma {:induction false} ReportsAllOrNothing(cfg: Config, labels: seq<Label>, t: State, i: nat)
    requires Runs(cfg, INITIAL, labels, t) && i < |t.log| && t.log[i].txn.FileReport?
    ensures var before, after := Replay(cfg, EMPTY_DB, t.log[..i]), Replay(cfg, EMPTY_DB, t.log[..i + 1]);
      var me, target := t.log[i].txn.reporter, t.log[i].txn.target;
      if Report(me, target) in before.reports
      then after == before && t.log[i].outcome == RolledBack(ConstraintFailed)
      else if !Exists(before, target)
      then after == before && t.log[i].outcome == RolledBack(NoSuchRow)
      else after == Reported(cfg, before, me, target) && t.log[i].outcome == Committed
  {
    Serializable(cfg, labels, t);
    ReplayNext(cfg, EMPTY_DB, t.log, i);
    ReportMeaning(cfg, Replay(cfg, EMPTY_DB, t.log[..i]), t.log[i].txn.reporter, t.log[i].txn.target);
  }

  /** The reporters of a target, one row each. */
  function Reporters(reports: seq<Report>, target: Target): set<UserId> {
    set r | r in reports && r.target == target :: r.reporter
  }

  lemma {:induction false} OneRowEach(reports: seq<Report>, target: Target)
    requires forall i, j :: 0 <= i < j < |reports| ==> reports[i] != reports[j]
    ensures Rows(reports, target) == |Reporters(reports, target)|
  {
    if reports == [] {
      assert Reporters(reports, target) == {};
    } else {
      var front, last := reports[..|reports| - 1], reports[|reports| - 1];
      OneRowEach(front, target);
      assert forall r :: r in reports <==> r in front || r == last;
      if last.target == target {
        assert last.reporter !in Reporters(front, target);
        assert Reporters(reports, target) == Reporters(front, target) + {last.reporter};
      } else {
        assert Reporters(reports, target) == Reporters(front, target);
      }
    }
  }

  lemma {:induction false} RowsBelowUsers(cfg: Config, db: DB, target: Target)
    requires Sanctioned(cfg, db) && db.users != map[]
    ensures Rows(db.reports, target) <= |db.users| - 1
  {
    OneRowEach(db.reports, target);
    if KnownTarget(db, target) {
      var others := db.users.Keys - {Owner(db, target)};
      assert Reporters(db.reports, target) <= others;
      Subset(Reporters(db.reports, target), others);
    } else {
      NoRowsYet(db, db.reports, target);
    }
  }

  lemma {:induction false} Subset(a: set<UserId>, b: set<UserId>)
    requires a <= b
    ensures |a| <= |b|
  {
    assert b == a + (b - a);
  }

  /**
   The amortised bound. However often admins reset a target, each automatic sanction of it needs a
   threshold of report rows of its own, and there are fewer rows against it than accounts.
   */
  lemma {:induction false} SanctionsAmortised(cfg: Config, labels: seq<Label>, t: State, target: Target)
    requires Runs(cfg, INITIAL, labels, t) && t.db.users != map[]
    ensures cfg.threshold * At(t.db.history.sanctions, target) <= Rows(t.db.reports, target) <= |t.db.users| - 1
  {
    Serializable(cfg, labels, t);
    ReplaySanctioned(cfg, t.log);
    assert TargetOk(cfg, t.db, target);
    RowsBelowUsers(cfg, t.db, target);
  }

  /** No run ever sanctions an admin automatically. */
  lemma {:induction false} AdminsExempt(cfg: Config, labels: seq<Label>, t: State, u: UserId)
    requires Runs(cfg, INITIAL, labels, t)
    requires u in t.db.users && t.db.users[u].isAdmin
    ensures At(t.db.history.sanctions, OnUser(u)) == 0
  {
    Serializable(cfg, labels, t);
    ReplaySanctioned(cfg, t.log);
    assert TargetOk(cfg, t.db, OnUser(u));
  }

  const REGISTER: Stmt := InsertUser(7, "seller", 0, 0, true)
  const OFFER: Stmt := InsertProduct(9, Listing("bag", "", 0), None, 7)

  lemma {:induction false} OfferStored(cfg: Config)
    ensures var db := Alone(cfg, Alone(cfg, EMPTY_DB, Auto(REGISTER)).0, Auto(OFFER)).0;
      9 in db.products && !db.products[9].isBlocked && db.products[9].reportCount == 0
  {
    AutoMeaning(cfg, EMPTY_DB, REGISTER);
    AutoMeaning(cfg, Alone(cfg, EMPTY_DB, Auto(REGISTER)).0, OFFER);
  }

  /**
   A threshold below 1 breaks the equivalence with one registration and one product: a new product
   is unblocked with a zero counter. So MarkedAtThreshold holds exactly for thresholds from 1 on.
   */
  lemma {:induction false} ThresholdMustBePositive(cfg: Config)
    requires cfg.threshold <= 0
    ensures exists labels: seq<Label>, t: State, p: ProductId ::
      Runs(cfg, INITIAL, labels, t) && p in t.db.products
      && !t.db.products[p].isBlocked && t.db.products[p].reportCount >= cfg.threshold
  {
    var s1 := ServeWrite(cfg, INITIAL, 0, REGISTER);
    var s2 := ServeWrite(cfg, s1, 1, OFFER);
    var last := [Arrive(1, 0, 0, OtherWrite(OFFER)), Autocommit(1)] + [];
    RunServes(cfg, s1, 1, OFFER, [], s2);
    RunServes(cfg, INITIAL, 0, REGISTER, last, s2);
    OfferStored(cfg);
    assert Runs(cfg, INITIAL, [Arrive(0, 0, 0, OtherWrite(REGISTER)), Autocommit(0)] + last, s2);
    assert 9 in s2.db.products;
  }
}
