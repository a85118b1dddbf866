/**
 The tables of the market database and every SQL statement that writes them, as functions on
 the table contents (secure-coding/app/schema.sql and the statements of the blueprints).

 A statement either yields new contents or raises. Next to the columns of schema.sql a database
 value carries History: bookkeeping that no statement reads, from which the theorems are stated.
 */
module Schema {
  import opened Base

  // UUIDs and random file names: only ever compared for equality.
  type UserId = nat
  type ProductId = nat
  type FileName = nat

  datatype Config = Config(threshold: int, bonus: int)  // REPORT_THRESHOLD, REGISTER_BONUS

  datatype User = User(
    username: string, passwordHash: nat, bio: string, balance: int,
    isAdmin: bool, isDormant: bool, reportCount: int, sessionEpoch: int)

  datatype Listing = Listing(title: string, description: string, price: int)

  datatype Product = Product(
    listing: Listing, image: Option<FileName>, seller: UserId, isBlocked: bool, reportCount: int)

  datatype Target = OnUser(uid: UserId) | OnProduct(pid: ProductId)
  datatype Report = Report(reporter: UserId, target: Target)
  datatype Transfer = Transfer(sender: UserId, receiver: UserId, amount: int)

  /**
   opening:   balance each account was created with;
   sellers:   seller of every product id ever inserted (ids are never drawn twice);
   cleared:   report counts wiped by admin resets, per target;
   sanctions: automatic 0-to-1 changes of is_blocked / is_dormant, per target.
   */
  datatype History = History(
    opening: map<UserId, int>, sellers: map<ProductId, UserId>,
    cleared: map<Target, int>, sanctions: map<Target, int>)

  datatype DB = DB(
    users: map<UserId, User>, products: map<ProductId, Product>,
    reports: seq<Report>, transfers: seq<Transfer>, history: History)

  const EMPTY_DB := DB(map[], map[], [], [], History(map[], map[], map[], map[]))

  datatype Stmt =
    // transfer.py
    | Debit(uid: UserId, amount: int)
    | Credit(uid: UserId, amount: int)
    | InsertTransfer(transfer: Transfer)
    // reports.py
    | InsertReport(report: Report)
    | BumpProduct(pid: ProductId)
    | FetchProduct(pid: ProductId)
    | BlockIfReached(pid: ProductId)
    | BumpUser(uid: UserId)
    | FetchUser(uid: UserId)
    | SleepIfReached(uid: UserId)
    // admin.py
    | ResetProduct(pid: ProductId)
    | ResetUser(uid: UserId)
    | MakeDormant(uid: UserId)
    // auth.py, users.py, cli.py
    | InsertUser(uid: UserId, username: string, passwordHash: nat, balance: int, isAdmin: bool)
    | SetBio(uid: UserId, bio: string)
    | SetHash(uid: UserId, passwordHash: nat)
    | SetPassword(uid: UserId, passwordHash: nat, epoch: int)
    // products.py
    | InsertProduct(pid: ProductId, listing: Listing, image: Option<FileName>, seller: UserId)
    | UpdateProduct(pid: ProductId, listing: Listing, image: Option<FileName>)
    | DeleteProduct(pid: ProductId)

  /** The part of the tables a statement works on. */
  datatype Area = Money | Reports | Resets | Accounts | Catalog

  function AreaOf(stmt: Stmt): Area {
    match stmt
    case Debit(_, _) | Credit(_, _) | InsertTransfer(_) => Money
    case InsertReport(_) | BumpProduct(_) | FetchProduct(_) | BlockIfReached(_) => Reports
    case BumpUser(_) | FetchUser(_) | SleepIfReached(_) => Reports
    case ResetProduct(_) | ResetUser(_) | MakeDormant(_) => Resets
    case InsertUser(_, _, _, _, _) | SetBio(_, _) | SetHash(_, _) | SetPassword(_, _, _) => Accounts
    case InsertProduct(_, _, _, _) | UpdateProduct(_, _, _) | DeleteProduct(_) => Catalog
  }

  /** Insufficient is the handler's own exception; NoSuchRow is indexing a missing fetched row. */
  datatype Error = Insufficient | ConstraintFailed | NoSuchRow

  /** What a handler holds inside a transaction: its view of the tables and the row it fetched. */
  datatype Work = Work(db: DB, count: int, isAdmin: bool)

  function Start(db: DB): Work {
    Work(db, 0, false)
  }

  function PutUser(db: DB, uid: UserId, user: User): DB {
    db.(users := db.users[uid := user])
  }

  function PutProduct(db: DB, pid: ProductId, product: Product): DB {
    db.(products := db.products[pid := product])
  }

  function Count(db: DB, target: Target): int
    requires Exists(db, target)
  {
    match target
    case OnUser(uid) => db.users[uid].reportCount
    case OnProduct(pid) => db.products[pid].reportCount
  }

  predicate Exists(db: DB, target: Target) {
    match target
    case OnUser(uid) => uid in db.users
    case OnProduct(pid) => pid in db.products
  }

  function NoteCleared(db: DB, target: Target): DB
    requires Exists(db, target)
  {
    db.(history := db.history.(
      cleared := db.history.cleared[target := At(db.history.cleared, target) + Count(db, target)]))
  }

  function NoteSanction(db: DB, target: Target, already: bool): DB {
    if already then db else
    db.(history := db.history.(
      sanctions := db.history.sanctions[target := At(db.history.sanctions, target) + 1]))
  }

  predicate UsernameTaken(db: DB, username: string) {
    exists uid :: uid in db.users && db.users[uid].username == username
  }

  function Exec(cfg: Config, w: Work, stmt: Stmt): Result<Work, Error> {
    var db := w.db;
    match stmt
    case Debit(uid, amount) =>
      // UPDATE ... WHERE id = ? AND balance >= ?, then rowcount != 1 raises
      if uid in db.users && db.users[uid].balance >= amount
      then Ok(w.(db := PutUser(db, uid, db.users[uid].(balance := db.users[uid].balance - amount))))
      else Err(Insufficient)
    case Credit(uid, amount) =>
      if uid !in db.users then Ok(w)
      else if db.users[uid].balance + amount < 0 then Err(ConstraintFailed)
      else Ok(w.(db := PutUser(db, uid, db.users[uid].(balance := db.users[uid].balance + amount))))
    case InsertTransfer(t) =>
      if t.sender in db.users && t.receiver in db.users && t.amount > 0 && t.sender != t.receiver
      then Ok(w.(db := db.(transfers := db.transfers + [t])))
      else Err(ConstraintFailed)
    case InsertReport(r) =>
      if r.reporter in db.users && r !in db.reports
      then Ok(w.(db := db.(reports := db.reports + [r])))
      else Err(ConstraintFailed)
    case BumpProduct(pid) =>
      if pid !in db.products then Ok(w) else
      Ok(w.(db := PutProduct(db, pid, db.products[pid].(reportCount := db.products[pid].reportCount + 1))))
    case FetchProduct(pid) =>
      if pid !in db.products then Err(NoSuchRow)
      else Ok(w.(count := db.products[pid].reportCount))
    case BlockIfReached(pid) =>
      if w.count < cfg.threshold || pid !in db.products then Ok(w) else
      Ok(w.(db := PutProduct(NoteSanction(db, OnProduct(pid), db.products[pid].isBlocked),
                             pid, db.products[pid].(isBlocked := true))))
    case BumpUser(uid) =>
      if uid !in db.users then Ok(w) else
      Ok(w.(db := PutUser(db, uid, db.users[uid].(reportCount := db.users[uid].reportCount + 1))))
    case FetchUser(uid) =>
      if uid !in db.users then Err(NoSuchRow)
      else Ok(w.(count := db.users[uid].reportCount, isAdmin := db.users[uid].isAdmin))
    case SleepIfReached(uid) =>
      if w.count < cfg.threshold || w.isAdmin || uid !in db.users then Ok(w) else
      Ok(w.(db := PutUser(NoteSanction(db, OnUser(uid), db.users[uid].isDormant),
                          uid, db.users[uid].(isDormant := true))))
    case ResetProduct(pid) =>
      if pid !in db.products then Ok(w) else
      Ok(w.(db := PutProduct(NoteCleared(db, OnProduct(pid)),
                             pid, db.products[pid].(isBlocked := false, reportCount := 0))))
    case ResetUser(uid) =>
      if uid !in db.users then Ok(w) else
      Ok(w.(db := PutUser(NoteCleared(db, OnUser(uid)),
                          uid, db.users[uid].(isDormant := false, reportCount := 0))))
    case MakeDormant(uid) =>
      if uid !in db.users then Ok(w) else
      Ok(w.(db := PutUser(db, uid, db.users[uid].(isDormant := true))))
    case InsertUser(uid, username, hash, balance, isAdmin) =>
      if uid in db.users || UsernameTaken(db, username) || balance < 0 then Err(ConstraintFailed) else
      Ok(w.(db := PutUser(db, uid, User(username, hash, "", balance, isAdmin, false, 0, 0))
                  .(history := db.history.(opening := db.history.opening[uid := balance]))))
    case SetBio(uid, bio) =>
      if uid !in db.users then Ok(w) else
      Ok(w.(db := PutUser(db, uid, db.users[uid].(bio := bio))))
    case SetHash(uid, hash) =>
      if uid !in db.users then Ok(w) else
      Ok(w.(db := PutUser(db, uid, db.users[uid].(passwordHash := hash))))
    case SetPassword(uid, hash, epoch) =>
      if uid !in db.users then Ok(w) else
      Ok(w.(db := PutUser(db, uid, db.users[uid].(passwordHash := hash, sessionEpoch := epoch))))
    case InsertProduct(pid, listing, image, seller) =>
      if pid in db.history.sellers || seller !in db.users || listing.price < 0 then Err(ConstraintFailed) else
      Ok(w.(db := PutProduct(db, pid, Product(listing, image, seller, false, 0))
                  .(history := db.history.(sellers := db.history.sellers[pid := seller]))))
    case UpdateProduct(pid, listing, image) =>
      // two forms of UPDATE: with and without image_path
      if pid !in db.products then Ok(w)
      else if listing.price < 0 then Err(ConstraintFailed)
      else var p := db.products[pid].(listing := listing);
           Ok(w.(db := PutProduct(db, pid, if image.Some? then p.(image := image) else p)))
    case DeleteProduct(pid) =>
      Ok(w.(db := db.(products := db.products - {pid})))
  }

  /** Statements in sequence; the first one that raises ends the run. */
  function Run(cfg: Config, w: Work, stmts: seq<Stmt>): Result<Work, Error> {
    if stmts == [] then Ok(w)
    else
      match Run(cfg, w, stmts[..|stmts| - 1])
      case Ok(w1) => Exec(cfg, w1, stmts[|stmts| - 1])
      case Err(e) => Err(e)
  }

  /** A unit of work against the database: an explicit transaction or one autocommit statement. */
  datatype Txn =
    | Pay(sender: UserId, receiver: UserId, amount: int)
    | FileReport(reporter: UserId, target: Target)
    | Auto(stmt: Stmt)

  function Statements(txn: Txn): seq<Stmt> {
    match txn
    case Pay(s, r, a) => [Debit(s, a), Credit(r, a), InsertTransfer(Transfer(s, r, a))]
    case FileReport(me, OnProduct(pid)) =>
      [InsertReport(Report(me, OnProduct(pid))), BumpProduct(pid), FetchProduct(pid), BlockIfReached(pid)]
    case FileReport(me, OnUser(uid)) =>
      [InsertReport(Report(me, OnUser(uid))), BumpUser(uid), FetchUser(uid), SleepIfReached(uid)]
    case Auto(stmt) => [stmt]
  }

  datatype Outcome = Committed | RolledBack(error: Error) | Interrupted | Busy

  /** The unit of work run with nobody else around. */
  function Alone(cfg: Config, db: DB, txn: Txn): (DB, Outcome) {
    match Run(cfg, Start(db), Statements(txn))
    case Ok(w) => (w.db, Committed)
    case Err(e) => (db, RolledBack(e))
  }

  // ---------------------------------------------------------------------- what each unit means

  lemma {:induction false} RaisingPrefix(cfg: Config, w: Work, stmts: seq<Stmt>, n: nat)
    requires n <= |stmts| && Run(cfg, w, stmts[..n]).Err?
    ensures Run(cfg, w, stmts) == Run(cfg, w, stmts[..n])
  {
    if n == |stmts| {
      assert stmts[..n] == stmts;
    } else {
      var front := stmts[..|stmts| - 1];
      assert front[..n] == stmts[..n];
      RaisingPrefix(cfg, w, front, n);
    }
  }

  lemma {:induction false} RunOne(cfg: Config, w: Work, a: Stmt)
    ensures Run(cfg, w, [a]) == Exec(cfg, w, a)
  {
    assert [a][..0] == [];
  }

  lemma {:induction false} RunFour(cfg: Config, w: Work, a: Stmt, b: Stmt, c: Stmt, d: Stmt)
    ensures Run(cfg, w, [a, b, c, d]) ==
            match Run(cfg, w, [a, b, c]) { case Ok(w1) => Exec(cfg, w1, d) case Err(e) => Err(e) }
  {
    assert [a, b, c, d][..3] == [a, b, c];
  }

  lemma {:induction false} RunThree(cfg: Config, w: Work, a: Stmt, b: Stmt, c: Stmt)
    ensures Run(cfg, w, [a, b, c]) ==
            match Run(cfg, w, [a, b]) { case Ok(w1) => Exec(cfg, w1, c) case Err(e) => Err(e) }
  {
    assert [a, b, c][..2] == [a, b];
  }

  lemma {:induction false} RunTwo(cfg: Config, w: Work, a: Stmt, b: Stmt)
    ensures Run(cfg, w, [a, b]) ==
            match Exec(cfg, w, a) { case Ok(w1) => Exec(cfg, w1, b) case Err(e) => Err(e) }
  {
    assert [a, b][..1] == [a];
    RunOne(cfg, w, a);
  }

  /** The tables after a payment that goes through. */
  function Paid(db: DB, s: UserId, r: UserId, a: int): DB
    requires s in db.users && r in db.users && s != r
  {
    db.(users := db.users[s := db.users[s].(balance := db.users[s].balance - a)]
                         [r := db.users[r].(balance := db.users[r].balance + a)],
        transfers := db.transfers + [Transfer(s, r, a)])
  }

  /** A payment moves the amount and records it, or leaves everything as it was. */
  lemma {:induction false} PayMeaning(cfg: Config, db: DB, s: UserId, r: UserId, a: int)
    requires s in db.users && r in db.users && s != r && a > 0 && db.users[r].balance >= 0
    ensures Alone(cfg, db, Pay(s, r, a)) ==
            if db.users[s].balance >= a then (Paid(db, s, r, a), Committed) else (db, RolledBack(Insufficient))
  {
    var t := InsertTransfer(Transfer(s, r, a));
    RunThree(cfg, Start(db), Debit(s, a), Credit(r, a), t);
    RunTwo(cfg, Start(db), Debit(s, a), Credit(r, a));
  }

  /** Whatever a payment comes to, it touches nothing but balances and the transfers table. */
  lemma {:induction false} PayFrame(cfg: Config, db: DB, s: UserId, r: UserId, a: int)
    ensures var db' := Alone(cfg, db, Pay(s, r, a)).0;
      && db'.users.Keys == db.users.Keys
      && (forall u :: u in db.users ==> db'.users[u] == db.users[u].(balance := db'.users[u].balance))
      && db'.products == db.products && db'.reports == db.reports && db'.history == db.history
  {
    var t := InsertTransfer(Transfer(s, r, a));
    RunThree(cfg, Start(db), Debit(s, a), Credit(r, a), t);
    RunTwo(cfg, Start(db), Debit(s, a), Credit(r, a));
  }

  /** The tables after a report on a target that exists, reporter not having reported it before. */
  function Reported(cfg: Config, db: DB, me: UserId, target: Target): DB
    requires Exists(db, target)
  {
    var db1 := db.(reports := db.reports + [Report(me, target)]);
    match target
    case OnProduct(pid) =>
      var p := db.products[pid].(reportCount := db.products[pid].reportCount + 1);
      if p.reportCount < cfg.threshold then PutProduct(db1, pid, p)
      else PutProduct(NoteSanction(db1, target, p.isBlocked), pid, p.(isBlocked := true))
    case OnUser(uid) =>
      var u := db.users[uid].(reportCount := db.users[uid].reportCount + 1);
      if u.reportCount < cfg.threshold || u.isAdmin then PutUser(db1, uid, u)
      else PutUser(NoteSanction(db1, target, u.isDormant), uid, u.(isDormant := true))
  }

  lemma {:induction false} ProductReportMeaning(cfg: Config, db: DB, me: UserId, pid: ProductId)
    requires me in db.users && Report(me, OnProduct(pid)) !in db.reports && pid in db.products
    ensures Alone(cfg, db, FileReport(me, OnProduct(pid))) ==
            (Reported(cfg, db, me, OnProduct(pid)), Committed)
  {
    var r := InsertReport(Report(me, OnProduct(pid)));
    RunFour(cfg, Start(db), r, BumpProduct(pid), FetchProduct(pid), BlockIfReached(pid));
    RunThree(cfg, Start(db), r, BumpProduct(pid), FetchProduct(pid));
    RunTwo(cfg, Start(db), r, BumpProduct(pid));
    var p := db.products[pid].(reportCount := db.products[pid].reportCount + 1);
    assert db.products[pid := p][pid := p.(isBlocked := true)] == db.products[pid := p.(isBlocked := true)];
  }

  lemma {:induction false} UserReportMeaning(cfg: Config, db: DB, me: UserId, uid: UserId)
    requires me in db.users && Report(me, OnUser(uid)) !in db.reports && uid in db.users
    ensures Alone(cfg, db, FileReport(me, OnUser(uid))) == (Reported(cfg, db, me, OnUser(uid)), Committed)
  {
    var r := InsertReport(Report(me, OnUser(uid)));
    RunFour(cfg, Start(db), r, BumpUser(uid), FetchUser(uid), SleepIfReached(uid));
    RunThree(cfg, Start(db), r, BumpUser(uid), FetchUser(uid));
    RunTwo(cfg, Start(db), r, BumpUser(uid));
    var u := db.users[uid].(reportCount := db.users[uid].reportCount + 1);
    assert db.users[uid := u][uid := u.(isDormant := true)] == db.users[uid := u.(isDormant := true)];
  }

  lemma {:induction false} RefusedReportMeaning(cfg: Config, db: DB, me: UserId, target: Target)
    requires me in db.users && (Report(me, target) in db.reports || !Exists(db, target))
    ensures Alone(cfg, db, FileReport(me, target)) ==
            (db, RolledBack(if Report(me, target) in db.reports then ConstraintFailed else NoSuchRow))
  {
    var stmts := Statements(FileReport(me, target));
    RunOne(cfg, Start(db), stmts[0]);
    RunTwo(cfg, Start(db), stmts[0], stmts[1]);
    RunThree(cfg, Start(db), stmts[0], stmts[1], stmts[2]);
    var n := if Report(me, target) in db.reports then 1 else 3;
    assert stmts[..n] == if n == 1 then [stmts[0]] else [stmts[0], stmts[1], stmts[2]];
    RaisingPrefix(cfg, Start(db), stmts, n);
  }

  /** A report is stored together with its count and sanction, or not at all. */
  lemma {:induction false} ReportMeaning(cfg: Config, db: DB, me: UserId, target: Target)
    requires me in db.users
    ensures Alone(cfg, db, FileReport(me, target)) ==
            if Report(me, target) in db.reports then (db, RolledBack(ConstraintFailed))
            else if !Exists(db, target) then (db, RolledBack(NoSuchRow))
            else (Reported(cfg, db, me, target), Committed)
  {
    if Report(me, target) in db.reports || !Exists(db, target) {
      RefusedReportMeaning(cfg, db, me, target);
    } else {
      match target
      case OnProduct(pid) => ProductReportMeaning(cfg, db, me, pid);
      case OnUser(uid) => UserReportMeaning(cfg, db, me, uid);
    }
  }

  /** One autocommit statement is its own transaction. */
  lemma {:induction false} AutoMeaning(cfg: Config, db: DB, stmt: Stmt)
    ensures Alone(cfg, db, Auto(stmt)) ==
            match Exec(cfg, Start(db), stmt) {
              case Ok(w) => (w.db, Committed)
              case Err(e) => (db, RolledBack(e))
            }
  {
    RunOne(cfg, Start(db), stmt);
  }

  /** The table's CHECK: no balance is negative. */
  predicate Funded(db: DB) {
    forall u :: u in db.users ==> db.users[u].balance >= 0
  }

  lemma {:induction false} ExecFunded(cfg: Config, w: Work, stmt: Stmt)
    requires Funded(w.db) && Exec(cfg, w, stmt).Ok?
    ensures Funded(Exec(cfg, w, stmt).value.db)
  {
    var db' := Exec(cfg, w, stmt).value.db;
    if stmt.Debit? || stmt.Credit? || stmt.InsertUser? {
      assert forall u :: u in db'.users && u != stmt.uid ==> u in w.db.users && db'.users[u] == w.db.users[u];
    }
  }

  lemma {:induction false} RunFunded(cfg: Config, w: Work, stmts: seq<Stmt>)
    requires Funded(w.db) && Run(cfg, w, stmts).Ok?
    ensures Funded(Run(cfg, w, stmts).value.db)
  {
    if stmts != [] {
      RunFunded(cfg, w, stmts[..|stmts| - 1]);
      ExecFunded(cfg, Run(cfg, w, stmts[..|stmts| - 1]).value, stmts[|stmts| - 1]);
    }
  }

  lemma {:induction false} AloneFunded(cfg: Config, db: DB, txn: Txn)
    requires Funded(db)
    ensures Funded(Alone(cfg, db, txn).0)
  {
    if Run(cfg, Start(db), Statements(txn)).Ok? {
      RunFunded(cfg, Start(db), Statements(txn));
    }
  }
}
