/**
 The request handlers themselves, as they run when nobody else is around: db.py's transaction
 block, transfer.py, reports.py, admin.py, products.py and uploads.py under secure-coding/app.

 Each handler is tied to the functions the concurrent model is made of, so the units of work whose
 interleavings Engine and Images reason about are the ones these bodies perform.
 */
module Handlers {
  import opened Base
  import opened Schema
  import opened Engine
  import opened Checks
  import Images

  datatype Reply = LoginRequired | Forbidden | NotFound | BadForm | Redirect | Done(outcome: Outcome)

  /** No unit of work took place, or exactly the one the check phase settled on, run alone. */
  ghost predicate Served(
      cfg: Config, db: DB, db': DB, me: UserId, sv: int, request: Request, lockFree: bool, reply: Reply)
  {
    if !Admits(db, me, sv, request) then
      db' == db && reply == if LoggedIn(db, me, sv) then Forbidden else LoginRequired
    else
      match Decide(db, me, request)
      case None => db' == db && !reply.Done? && !reply.LoginRequired? && !reply.Forbidden?
      case Some(txn) =>
        if !lockFree then db' == db && reply == Done(Busy)
        else reply == Done(Alone(cfg, db, txn).1) && db' == Alone(cfg, db, txn).0
  }

  /** The session names an account that is there, active and of the session's epoch. */
  predicate Authentic(db: DB, me: UserId, sv: int) {
    me in db.users && !db.users[me].isDormant && db.users[me].sessionEpoch == sv
  }

  /** What a transfer form comes to, over the columns. */
  ghost predicate PointsSent(
      db: DB, db': DB, me: UserId, sv: int, to: string, amount: Option<int>, lockFree: bool, reply: Reply)
  {
    && (reply.Done? <==>
         && Authentic(db, me, sv) && amount.Some? && 1 <= amount.value <= 1_000_000_000 && to != ""
         && exists r :: r in db.users && r != me && db.users[r].username == to && !db.users[r].isDormant)
    && (reply.Done? ==>
         if !lockFree then reply == Done(Busy)
         else if db.users[me].balance < amount.value then reply == Done(RolledBack(Insufficient))
         else reply == Done(Committed))
    && (if reply == Done(Committed) then
          exists r ::
            && r in db.users && r != me && db.users[r].username == to && !db.users[r].isDormant
            && db'.users == db.users[me := db.users[me].(balance := db.users[me].balance - amount.value)]
                                    [r := db.users[r].(balance := db.users[r].balance + amount.value)]
            && db'.transfers == db.transfers + [Schema.Transfer(me, r, amount.value)]
            && db'.products == db.products && db'.reports == db.reports
        else db' == db)
  }

  /** The counter and the mark of a reported target. */
  predicate Counted(threshold: int, db: DB, db': DB, target: Target)
    requires Exists(db, target)
  {
    match target
    case OnUser(u) =>
      var n := db.users[u].reportCount + 1;
      && db'.products == db.products
      && db'.users == db.users[u := db.users[u].(
           reportCount := n, isDormant := db.users[u].isDormant || (n >= threshold && !db.users[u].isAdmin))]
    case OnProduct(p) =>
      var n := db.products[p].reportCount + 1;
      && db'.users == db.users
      && db'.products == db.products[p := db.products[p].(
           reportCount := n, isBlocked := db.products[p].isBlocked || n >= threshold)]
  }

  /** What a report form comes to, over the columns. */
  ghost predicate ReportFiled(
      threshold: int, db: DB, db': DB, me: UserId, sv: int, target: Option<Target>, hasReason: bool, lockFree: bool,
      reply: Reply)
  {
    && (reply.Done? <==>
         && Authentic(db, me, sv) && target.Some? && hasReason
         && (match target.value
             case OnUser(u) => u in db.users && u != me
             case OnProduct(p) => p in db.products && db.products[p].seller != me))
    && (reply.Done? ==>
         if !lockFree then reply == Done(Busy)
         else if Report(me, target.value) in db.reports then reply == Done(RolledBack(ConstraintFailed))
         else reply == Done(Committed))
    && (if reply == Done(Committed) then
          && db'.reports == db.reports + [Report(me, target.value)] && db'.transfers == db.transfers
          && Counted(threshold, db, db', target.value)
        else db' == db)
  }

  /** The name an uploaded image is saved under, if it is acceptable. */
  function Accepted(upload: Option<bool>, name: FileName): Option<FileName> {
    if upload == Some(true) then Some(name) else None
  }

  /** A saved image whose INSERT or UPDATE then failed. */
  predicate Wasted(reply: Reply, upload: Option<bool>) {
    reply.Done? && reply != Done(Committed) && upload.Some?
  }

  class App {
    const cfg: Config
    var db: DB                 // the committed tables
    var work: Work             // what the open transaction sees
    var open: bool
    var files: set<FileName>   // the upload directory

    /** No transaction open, tables as the schema's constraints want them. */
    ghost predicate Shut()
      reads this
    {
      !open && Listed(db) && Funded(db)
    }

    /** Between requests: besides, every file a row names is there, and is that row's alone. */
    ghost predicate Idle()
      reads this
    {
      Shut() && Images.RowsNameFiles(db, files)
    }

    constructor (cfg: Config)
      ensures this.cfg == cfg && db == EMPTY_DB && files == {}
      ensures Idle()
    {
      this.cfg, db, work, open, files := cfg, EMPTY_DB, Start(EMPTY_DB), false, {};
    }

    // --------------------------------------------------------------------------------- db.py

    /** BEGIN IMMEDIATE; without the lock it raises, and nothing has happened yet. */
    method Begin(lockFree: bool) returns (ok: bool)
      requires !open
      modifies this`work, this`open
      ensures ok == lockFree == open
      ensures ok ==> work == Start(db)
    {
      ok := lockFree;
      if ok {
        work, open := Start(db), true;
      }
    }

    method Execute(stmt: Stmt) returns (raised: Option<Error>)
      requires open
      modifies this`work
      ensures match Exec(cfg, old(work), stmt)
              case Ok(w) => raised.None? && work == w
              case Err(e) => raised == Some(e) && work == old(work)
    {
      match Exec(cfg, work, stmt) {
        case Ok(w) => work := w; raised := None;
        case Err(e) => raised := Some(e);
      }
    }

    method Commit()
      requires open
      modifies this`db, this`open
      ensures !open && db == work.db
    {
      db, open := work.db, false;
    }

    method Rollback()
      requires open
      modifies this`open
      ensures !open
    {
      open := false;
    }

    /** One autocommit statement. */
    method ExecuteDb(stmt: Stmt, lockFree: bool) returns (outcome: Outcome)
      requires Shut()
      modifies this`db
      ensures Shut()
      ensures if !lockFree then outcome == Busy && db == old(db)
              else (db, outcome) == Alone(cfg, old(db), Auto(stmt))
    {
      AutoMeaning(cfg, db, stmt);
      AloneGrows(cfg, db, Auto(stmt));
      AloneFunded(cfg, db, Auto(stmt));
      if !lockFree {
        return Busy;
      }
      match Exec(cfg, Start(db), stmt) {
        case Ok(w) => db := w.db; outcome := Committed;
        case Err(e) => outcome := RolledBack(e);
      }
    }

    // ------------------------------------------------------------------------ auth.py, users.py

    /**
     The registration form; visitor: the account the session names, if any; valid: the verdict of the
     form's validators; uid: the id drawn for the account. Nobody registers as an admin.
     */
    method Register(
        visitor: Option<UserId>, sv: int, valid: bool, uid: UserId, username: string, hash: nat, lockFree: bool)
      returns (reply: Reply)
      requires Idle() && uid !in db.users
      modifies this`db
      ensures Idle()
      ensures reply == Done(Committed) <==>
        && !(visitor.Some? && Authentic(old(db), visitor.value, sv)) && valid && lockFree && cfg.bonus >= 0
        && forall u :: u in old(db).users ==> old(db).users[u].username != username
      ensures reply == Done(Committed) ==>
        && db.users == old(db).users[uid := User(username, hash, "", cfg.bonus, false, false, 0, 0)]
        && db.products == old(db).products && db.reports == old(db).reports && db.transfers == old(db).transfers
      ensures reply != Done(Committed) ==> db == old(db)
    {
      if visitor.Some? && LoggedIn(db, visitor.value, sv) {
        return Redirect;
      }
      if !valid || exists u :: u in db.users && db.users[u].username == username {
        return BadForm;
      }
      RegistrationColumns(cfg, db, uid, username, hash);
      ImagesKept(cfg, db, files, Auto(InsertUser(uid, username, hash, cfg.bonus, false)));
      var outcome := ExecuteDb(InsertUser(uid, username, hash, cfg.bonus, false), lockFree);
      return Done(outcome);
    }

    /** The bio form of the own page. */
    method EditBio(me: UserId, sv: int, bio: Option<string>, lockFree: bool) returns (reply: Reply)
      requires Idle()
      modifies this`db
      ensures Idle()
      ensures reply == Done(Committed) <==> Authentic(old(db), me, sv) && bio.Some? && lockFree
      ensures reply == Done(Committed) ==>
        && db.users == old(db).users[me := old(db).users[me].(bio := bio.value)]
        && db.products == old(db).products && db.reports == old(db).reports && db.transfers == old(db).transfers
      ensures reply != Done(Committed) ==> db == old(db)
    {
      if !LoggedIn(db, me, sv) {
        return LoginRequired;
      }
      if bio.None? {
        return BadForm;
      }
      BioColumns(cfg, db, me, bio.value);
      ImagesKept(cfg, db, files, Auto(SetBio(me, bio.value)));
      var outcome := ExecuteDb(SetBio(me, bio.value), lockFree);
      return Done(outcome);
    }

    // ---------------------------------------------------------------------------- transfer.py

    method Transfer(me: UserId, sv: int, to: string, amount: Option<int>, lockFree: bool) returns (reply: Reply)
      requires Idle()
      modifies this`db, this`work, this`open
      ensures Idle()
      ensures Served(cfg, old(db), db, me, sv, SendPoints(to, amount), lockFree, reply)
      ensures PointsSent(old(db), db, me, sv, to, amount, lockFree, reply)
    {
      if !LoggedIn(db, me, sv) {
        SentMeaning(cfg, db, db, me, sv, to, amount, lockFree, LoginRequired);
        return LoginRequired;
      }
      var errors := [];
      if amount.None? {
        errors := errors + ["amount must be an integer"];
      } else if amount.value < 1 || amount.value > MAX_AMOUNT {
        errors := errors + ["amount out of range"];
      }
      var receiver := None;
      if to != "" && exists uid :: uid in db.users && db.users[uid].username == to {
        var uid :| uid in db.users && db.users[uid].username == to;
        receiver := Some(uid);
      }
      if receiver.None? {
        errors := errors + ["receiver not found"];
      } else if receiver.value == me {
        errors := errors + ["cannot send to yourself"];
      } else if db.users[receiver.value].isDormant {
        errors := errors + ["receiver is dormant"];
      }
      if errors != [] {
        TurnedDown(db, me, to, amount, receiver);
        SentMeaning(cfg, db, db, me, sv, to, amount, lockFree, BadForm);
        return BadForm;
      }
      ghost var txn := Pay(me, receiver.value, amount.value);
      PaymentDecided(db, me, to, amount, txn);
      DecisionAdmissible(cfg, db, me, SendPoints(to, amount));
      ImagesKept(cfg, db, files, txn);
      var outcome := Send(me, receiver.value, amount.value, lockFree);
      SentMeaning(cfg, old(db), db, me, sv, to, amount, lockFree, Done(outcome));
      return Done(outcome);
    }

    /** The transaction block of transfer.py. */
    method Send(s: UserId, r: UserId, a: int, lockFree: bool) returns (outcome: Outcome)
      requires Shut()
      modifies this`db, this`work, this`open
      ensures Shut()
      ensures if !lockFree then outcome == Busy && db == old(db)
              else (db, outcome) == Alone(cfg, old(db), Pay(s, r, a))
    {
      AloneGrows(cfg, db, Pay(s, r, a));
      AloneFunded(cfg, db, Pay(s, r, a));
      ghost var row := InsertTransfer(Schema.Transfer(s, r, a));
      RunThree(cfg, Start(db), Debit(s, a), Credit(r, a), row);
      RunTwo(cfg, Start(db), Debit(s, a), Credit(r, a));
      var ok := Begin(lockFree);
      if !ok {
        return Busy;
      }
      var raised := Execute(Debit(s, a));
      if raised.None? {
        raised := Execute(Credit(r, a));
      }
      if raised.None? {
        raised := Execute(InsertTransfer(Schema.Transfer(s, r, a)));
      }
      if raised.None? {
        Commit();
        return Committed;
      }
      Rollback();
      return RolledBack(raised.value);
    }

    // ----------------------------------------------------------------------------- reports.py

    method SubmitReport(me: UserId, sv: int, target: Option<Target>, hasReason: bool, lockFree: bool)
      returns (reply: Reply)
      requires Idle()
      modifies this`db, this`work, this`open
      ensures Idle()
      ensures Served(cfg, old(db), db, me, sv, SendReport(target, hasReason), lockFree, reply)
      ensures ReportFiled(cfg.threshold, old(db), db, me, sv, target, hasReason, lockFree, reply)
    {
      if !LoggedIn(db, me, sv) {
        FiledMeaning(cfg, db, db, me, sv, target, hasReason, lockFree, LoginRequired);
        return LoginRequired;
      }
      if target.None? || !hasReason {
        FiledMeaning(cfg, db, db, me, sv, target, hasReason, lockFree, BadForm);
        return BadForm;
      }
      match target.value {
        case OnUser(uid) =>
          if uid !in db.users || uid == me {
            FiledMeaning(cfg, db, db, me, sv, target, hasReason, lockFree, BadForm);
            return BadForm;
          }
        case OnProduct(pid) =>
          if pid !in db.products || db.products[pid].seller == me {
            FiledMeaning(cfg, db, db, me, sv, target, hasReason, lockFree, BadForm);
            return BadForm;
          }
      }
      assert Decide(db, me, SendReport(target, hasReason)) == Some(FileReport(me, target.value));
      DecisionAdmissible(cfg, db, me, SendReport(target, hasReason));
      ImagesKept(cfg, db, files, FileReport(me, target.value));
      var outcome := StoreReport(me, target.value, lockFree);
      FiledMeaning(cfg, old(db), db, me, sv, target, hasReason, lockFree, Done(outcome));
      return Done(outcome);
    }

    /** The transaction block of reports.py with _apply_threshold. */
    method StoreReport(me: UserId, target: Target, lockFree: bool) returns (outcome: Outcome)
      requires Shut()
      modifies this`db, this`work, this`open
      ensures Shut()
      ensures if !lockFree then outcome == Busy && db == old(db)
              else (db, outcome) == Alone(cfg, old(db), FileReport(me, target))
    {
      AloneGrows(cfg, db, FileReport(me, target));
      AloneFunded(cfg, db, FileReport(me, target));
      InsertThenThreshold(cfg, Start(db), me, target);
      var ok := Begin(lockFree);
      if !ok {
        return Busy;
      }
      var raised := Execute(InsertReport(Report(me, target)));
      if raised.None? {
        raised := ApplyThreshold(target);
      }
      if raised.None? {
        Commit();
        return Committed;
      }
      Rollback();
      return RolledBack(raised.value);
    }

    method ApplyThreshold(target: Target) returns (raised: Option<Error>)
      requires open
      modifies this`work
      ensures match Threshold(cfg, old(work), target)
              case Ok(w) => raised.None? && work == w
              case Err(e) => raised == Some(e)
    {
      match target {
        case OnProduct(pid) =>
          raised := Execute(BumpProduct(pid));
          if raised.None? {
            raised := Execute(FetchProduct(pid));
          }
          if raised.None? {
            raised := Execute(BlockIfReached(pid));
          }
        case OnUser(uid) =>
          raised := Execute(BumpUser(uid));
          if raised.None? {
            raised := Execute(FetchUser(uid));
          }
          if raised.None? {
            raised := Execute(SleepIfReached(uid));
          }
      }
    }

    // ------------------------------------------------------------------------------- admin.py

    method UnblockProduct(me: UserId, sv: int, pid: ProductId, lockFree: bool) returns (reply: Reply)
      requires Idle()
      modifies this`db
      ensures Idle()
      ensures Served(cfg, old(db), db, me, sv, Unblock(pid), lockFree, reply)
      ensures reply.Done? <==>
        && Authentic(old(db), me, sv) && old(db).users[me].isAdmin && pid in old(db).products
      ensures reply.Done? ==> reply.outcome == if lockFree then Committed else Busy
      ensures reply == Done(Committed) ==>
        && db.users == old(db).users && db.reports == old(db).reports && db.transfers == old(db).transfers
        && db.products == old(db).products[pid := old(db).products[pid].(isBlocked := false, reportCount := 0)]
      ensures reply != Done(Committed) ==> db == old(db)
    {
      if !LoggedIn(db, me, sv) {
        return LoginRequired;
      }
      if !db.users[me].isAdmin {
        return Forbidden;
      }
      if pid !in db.products {
        return NotFound;
      }
      ImagesKept(cfg, db, files, Auto(ResetProduct(pid)));
      ResetColumns(cfg, db, pid);
      var outcome := ExecuteDb(ResetProduct(pid), lockFree);
      return Done(outcome);
    }

    method ToggleDormancy(me: UserId, sv: int, uid: UserId, lockFree: bool) returns (reply: Reply)
      requires Idle()
      modifies this`db
      ensures Idle()
      ensures Served(cfg, old(db), db, me, sv, ToggleDormant(uid), lockFree, reply)
      ensures reply.Done? <==>
        && Authentic(old(db), me, sv) && old(db).users[me].isAdmin && uid in old(db).users && uid != me
      ensures reply.Done? ==> reply.outcome == if lockFree then Committed else Busy
      ensures reply == Done(Committed) ==>
        && db.products == old(db).products && db.reports == old(db).reports && db.transfers == old(db).transfers
        && db.users == old(db).users[uid := if old(db).users[uid].isDormant
             then old(db).users[uid].(isDormant := false, reportCount := 0)
             else old(db).users[uid].(isDormant := true)]
      ensures reply != Done(Committed) ==> db == old(db)
    {
      if !LoggedIn(db, me, sv) {
        return LoginRequired;
      }
      if !db.users[me].isAdmin {
        return Forbidden;
      }
      if uid !in db.users {
        return NotFound;
      }
      if uid == me {
        return Redirect;
      }
      var outcome;
      ToggleColumns(cfg, db, uid);
      if db.users[uid].isDormant {
        ImagesKept(cfg, db, files, Auto(ResetUser(uid)));
        outcome := ExecuteDb(ResetUser(uid), lockFree);
      } else {
        ImagesKept(cfg, db, files, Auto(MakeDormant(uid)));
        outcome := ExecuteDb(MakeDormant(uid), lockFree);
      }
      return Done(outcome);
    }

    // ------------------------------------------------------------- uploads.py and products.py

    /** Stores an acceptable image under the new name drawn for it; otherwise raises UploadError. */
    method SaveImage(acceptable: bool, name: FileName) returns (saved: bool)
      requires name !in files
      modifies this`files
      ensures saved == acceptable
      ensures files == if saved then old(files) + {name} else old(files)
    {
      saved := acceptable;
      if saved {
        files := files + {name};
      }
    }

    method DeleteImage(name: Option<FileName>)
      modifies this`files
      ensures files == if name.Some? then old(files) - {name.value} else old(files)
    {
      if name.None? {
        return;
      }
      if name.value in files {
        files := files - {name.value};
      }
    }

    /**
     upload: the image field, None when empty, else whether the image is acceptable. A product is
     there afterwards exactly as submitted, or nothing is; the directory has one stray file more
     exactly when an image was saved and the INSERT then failed.
     */
    method NewProduct(
        me: UserId, sv: int, pid: ProductId, form: Option<Listing>,
        upload: Option<bool>, name: FileName, lockFree: bool)
      returns (reply: Reply)
      requires Idle() && name !in files
      requires form.Some? ==> form.value.price >= 0
      modifies this`db, this`files
      ensures Idle()
      ensures reply.Done? <==> Authentic(old(db), me, sv) && form.Some? && upload != Some(false)
      ensures reply.Done? ==>
        reply == Done(if !lockFree then Busy
                      else if pid in old(db).history.sellers then RolledBack(ConstraintFailed) else Committed)
      ensures reply == Done(Committed) ==> pid in db.products && db.products == old(db).products[pid := Product(
        form.value, if upload.Some? then Some(name) else None, me, false, 0)]
      ensures reply != Done(Committed) ==> db == old(db)
      ensures Images.Strays(db, files) ==
        if Wasted(reply, upload) then Images.Strays(old(db), old(files)) + {name}
        else Images.Strays(old(db), old(files))
      ensures if Authentic(old(db), me, sv) && form.Some?
              then (db, files) == Images.Effect(cfg, old(db), old(files),
                Images.Create(pid, form.value, me, upload.Some?), Accepted(upload, name), lockFree)
              else db == old(db) && files == old(files)
    {
      if !LoggedIn(db, me, sv) {
        return LoginRequired;
      }
      if form.None? {
        return BadForm;
      }
      ghost var job := Images.Create(pid, form.value, me, upload.Some?);
      Images.EffectStrays(cfg, db, files, job, Accepted(upload, name), lockFree);
      var image := None;
      if upload.Some? {
        var saved := SaveImage(upload.value, name);
        if !saved {
          return BadForm;
        }
        image := Some(name);
      }
      InsertMeaning(cfg, db, pid, form.value, image, me);
      var outcome := ExecuteDb(InsertProduct(pid, form.value, image, me), lockFree);
      return Done(outcome);
    }

    /** The row gets the new listing, and the new image if there is one; the replaced file goes. */
    method EditProduct(
        me: UserId, sv: int, pid: ProductId, form: Option<Listing>,
        upload: Option<bool>, name: FileName, lockFree: bool)
      returns (reply: Reply)
      requires Idle() && name !in files
      requires form.Some? ==> form.value.price >= 0
      modifies this`db, this`files
      ensures Idle()
      ensures reply.Done? <==>
        && Authentic(old(db), me, sv) && form.Some? && upload != Some(false)
        && pid in old(db).products && old(db).products[pid].seller == me
      ensures reply.Done? ==> reply == Done(if lockFree then Committed else Busy)
      ensures reply == Done(Committed) ==>
        && pid in old(db).products
        && db.products == old(db).products[pid := old(db).products[pid].(
             listing := form.value, image := if upload.Some? then Some(name) else old(db).products[pid].image)]
      ensures reply != Done(Committed) ==> db == old(db)
      ensures Images.Strays(db, files) ==
        if Wasted(reply, upload) then Images.Strays(old(db), old(files)) + {name}
        else Images.Strays(old(db), old(files))
      ensures if Authentic(old(db), me, sv) && form.Some?
              then (db, files) == Images.Effect(cfg, old(db), old(files),
                Images.Edit(pid, form.value, me, upload.Some?), Accepted(upload, name), lockFree)
              else db == old(db) && files == old(files)
    {
      if !LoggedIn(db, me, sv) {
        return LoginRequired;
      }
      if pid !in db.products {
        return NotFound;
      }
      var p := db.products[pid];
      if p.seller != me {
        return Forbidden;
      }
      if form.None? {
        return BadForm;
      }
      var image := None;
      if upload.Some? {
        var saved := SaveImage(upload.value, name);
        if !saved {
          return BadForm;
        }
        image := Some(name);
      }
      EditEffect(cfg, db, old(files), me, pid, form.value, image, lockFree);
      var outcome := ExecuteDb(UpdateProduct(pid, form.value, image), lockFree);
      if outcome == Committed && image.Some? {
        DeleteImage(p.image);
      }
      return Done(outcome);
    }

    /** The row goes, and its file with it: for its owner and for admins alike. */
    method RemoveProduct(me: UserId, sv: int, byAdmin: bool, pid: ProductId, lockFree: bool) returns (reply: Reply)
      requires Idle()
      modifies this`db, this`files
      ensures Idle()
      ensures reply.Done? <==>
        && Authentic(old(db), me, sv) && pid in old(db).products
        && (if byAdmin then old(db).users[me].isAdmin else old(db).products[pid].seller == me)
      ensures reply.Done? ==> reply == Done(if lockFree then Committed else Busy)
      ensures reply == Done(Committed) ==> db.products == old(db).products - {pid}
      ensures reply != Done(Committed) ==> db == old(db) && files == old(files)
      ensures Images.Strays(db, files) == Images.Strays(old(db), old(files))
      ensures if Authentic(old(db), me, sv) && (byAdmin ==> old(db).users[me].isAdmin)
              then (db, files) == Images.Effect(cfg, old(db), old(files),
                Images.Remove(pid, me, byAdmin), None, lockFree)
              else db == old(db) && files == old(files)
    {
      if !LoggedIn(db, me, sv) {
        return LoginRequired;
      }
      if byAdmin && !db.users[me].isAdmin {
        return Forbidden;
      }
      if pid !in db.products {
        return NotFound;
      }
      var p := db.products[pid];
      if !byAdmin && p.seller != me {
        return Forbidden;
      }
      RemovalEffect(cfg, db, files, me, byAdmin, pid, lockFree);
      var outcome := ExecuteDb(DeleteProduct(pid), lockFree);
      if outcome == Committed {
        DeleteImage(p.image);
      }
      return Done(outcome);
    }
  }

  // ------------------------------------------------------------------- proofs for the handlers

  function Three(cfg: Config, w: Work, a: Stmt, b: Stmt, c: Stmt): Result<Work, Error> {
    match Exec(cfg, w, a)
    case Err(e) => Err(e)
    case Ok(w1) =>
      match Exec(cfg, w1, b)
      case Err(e) => Err(e)
      case Ok(w2) => Exec(cfg, w2, c)
  }

  /** What _apply_threshold does to the open transaction. */
  function Threshold(cfg: Config, w: Work, target: Target): Result<Work, Error> {
    match target
    case OnProduct(pid) => Three(cfg, w, BumpProduct(pid), FetchProduct(pid), BlockIfReached(pid))
    case OnUser(uid) => Three(cfg, w, BumpUser(uid), FetchUser(uid), SleepIfReached(uid))
  }

  lemma {:induction false} InsertThenThreshold(cfg: Config, w: Work, me: UserId, target: Target)
    ensures Run(cfg, w, Statements(FileReport(me, target))) ==
            match Exec(cfg, w, InsertReport(Report(me, target))) {
              case Ok(w1) => Threshold(cfg, w1, target)
              case Err(e) => Err(e)
            }
  {
    var stmts := Statements(FileReport(me, target));
    RunFour(cfg, w, stmts[0], stmts[1], stmts[2], stmts[3]);
    RunThree(cfg, w, stmts[0], stmts[1], stmts[2]);
    RunTwo(cfg, w, stmts[0], stmts[1]);
  }

  /** An account is opened with the bonus and nothing else, unless its name is taken. */
  lemma {:induction false} RegistrationColumns(cfg: Config, db: DB, uid: UserId, username: string, hash: nat)
    requires uid !in db.users
    ensures var (db', outcome) := Alone(cfg, db, Auto(InsertUser(uid, username, hash, cfg.bonus, false)));
      && (outcome == Committed <==>
           cfg.bonus >= 0 && forall u :: u in db.users ==> db.users[u].username != username)
      && (if outcome == Committed then
            && db'.users == db.users[uid := User(username, hash, "", cfg.bonus, false, false, 0, 0)]
            && db'.products == db.products && db'.reports == db.reports && db'.transfers == db.transfers
          else db' == db && outcome == RolledBack(ConstraintFailed))
  {
    AutoMeaning(cfg, db, InsertUser(uid, username, hash, cfg.bonus, false));
  }

  lemma {:induction false} BioColumns(cfg: Config, db: DB, uid: UserId, bio: string)
    requires uid in db.users
    ensures var (db', outcome) := Alone(cfg, db, Auto(SetBio(uid, bio)));
      && outcome == Committed && db'.users == db.users[uid := db.users[uid].(bio := bio)]
      && db'.products == db.products && db'.reports == db.reports && db'.transfers == db.transfers
  {
    AutoMeaning(cfg, db, SetBio(uid, bio));
  }

  lemma {:induction false} ReportColumns(cfg: Config, db: DB, me: UserId, target: Target)
    requires Exists(db, target)
    ensures var db' := Reported(cfg, db, me, target);
      && db'.reports == db.reports + [Report(me, target)] && db'.transfers == db.transfers
      && Counted(cfg.threshold, db, db', target)
  {
  }

  lemma {:induction false} TurnedDown(db: DB, me: UserId, to: string, amount: Option<int>, receiver: Option<UserId>)
    requires Listed(db)
    requires match receiver
      case Some(r) => r in db.users && db.users[r].username == to
      case None => to == "" || forall r :: r in db.users ==> db.users[r].username != to
    requires amount.None? || amount.value < 1 || amount.value > MAX_AMOUNT
      || receiver.None? || receiver.value == me || db.users[receiver.value].isDormant
    ensures Decide(db, me, SendPoints(to, amount)).None?
  {
    var decision := Decide(db, me, SendPoints(to, amount));
    if decision.Some? {
      PaymentDecided(db, me, to, amount, decision.value);
    }
  }

  lemma {:induction false} SentMeaning(
      cfg: Config, db: DB, db': DB, me: UserId, sv: int, to: string, amount: Option<int>, lockFree: bool, reply: Reply)
    requires Listed(db) && Funded(db) && Served(cfg, db, db', me, sv, SendPoints(to, amount), lockFree, reply)
    ensures PointsSent(db, db', me, sv, to, amount, lockFree, reply)
  {
    var decision := Decide(db, me, SendPoints(to, amount));
    if Authentic(db, me, sv) && decision.Some? {
      PaymentDecided(db, me, to, amount, decision.value);
      PayMeaning(cfg, db, me, decision.value.receiver, amount.value);
    } else if Authentic(db, me, sv) && amount.Some? {
      forall r | r in db.users && r != me && db.users[r].username == to && !db.users[r].isDormant
        ensures !(1 <= amount.value <= 1_000_000_000 && to != "")
      {
        PaymentDecided(db, me, to, amount, Pay(me, r, amount.value));
      }
    }
  }

  lemma {:induction false} FiledMeaning(
      cfg: Config, db: DB, db': DB, me: UserId, sv: int, target: Option<Target>, hasReason: bool, lockFree: bool,
      reply: Reply)
    requires Served(cfg, db, db', me, sv, SendReport(target, hasReason), lockFree, reply)
    ensures ReportFiled(cfg.threshold, db, db', me, sv, target, hasReason, lockFree, reply)
  {
    if Authentic(db, me, sv) && target.Some? {
      ReportDecided(db, me, target, hasReason, FileReport(me, target.value));
      if Decide(db, me, SendReport(target, hasReason)).Some? {
        ReportDecided(db, me, target, hasReason, Decide(db, me, SendReport(target, hasReason)).value);
        ReportMeaning(cfg, db, me, target.value);
        ReportColumns(cfg, db, me, target.value);
      }
    }
  }

  lemma {:induction false} ResetColumns(cfg: Config, db: DB, pid: ProductId)
    requires pid in db.products
    ensures var (db', outcome) := Alone(cfg, db, Auto(ResetProduct(pid)));
      && outcome == Committed
      && db'.users == db.users && db'.reports == db.reports && db'.transfers == db.transfers
      && db'.products == db.products[pid := db.products[pid].(isBlocked := false, reportCount := 0)]
  {
    AutoMeaning(cfg, db, ResetProduct(pid));
  }

  lemma {:induction false} ToggleColumns(cfg: Config, db: DB, uid: UserId)
    requires uid in db.users
    ensures var (db', outcome) :=
        Alone(cfg, db, Auto(if db.users[uid].isDormant then ResetUser(uid) else MakeDormant(uid)));
      && outcome == Committed
      && db'.products == db.products && db'.reports == db.reports && db'.transfers == db.transfers
      && db'.users == db.users[uid := if db.users[uid].isDormant
           then db.users[uid].(isDormant := false, reportCount := 0)
           else db.users[uid].(isDormant := true)]
  {
    AutoMeaning(cfg, db, ResetUser(uid));
    AutoMeaning(cfg, db, MakeDormant(uid));
  }

  /** A product is inserted as given, or not at all. */
  lemma {:induction false} InsertMeaning(
      cfg: Config, db: DB, pid: ProductId, listing: Listing, image: Option<FileName>, seller: UserId)
    ensures var (db', outcome) := Alone(cfg, db, Auto(InsertProduct(pid, listing, image, seller)));
      && (seller in db.users && listing.price >= 0 ==>
           outcome == if pid in db.history.sellers then RolledBack(ConstraintFailed) else Committed)
      && if outcome == Committed then
        && pid !in db.history.sellers && seller in db.users
        && db'.products == db.products[pid := Product(listing, image, seller, false, 0)]
        && db'.history.sellers == db.history.sellers[pid := seller]
      else db' == db
  {
    AutoMeaning(cfg, db, InsertProduct(pid, listing, image, seller));
  }

  /** An existing product gets the listing, and the image if one is given. */
  lemma {:induction false} EditEffect(
      cfg: Config, db: DB, files: set<FileName>, me: UserId, pid: ProductId, listing: Listing,
      image: Option<FileName>, lockFree: bool)
    requires Listed(db) && Images.RowsNameFiles(db, files)
    requires pid in db.products && db.products[pid].seller == me && listing.price >= 0
    requires image.Some? ==> image.value !in files
    ensures var (db', outcome) := Alone(cfg, db, Auto(UpdateProduct(pid, listing, image)));
      var seen := db.products[pid].image;
      var stored := if image.Some? then files + {image.value} else files;
      var left := if image.Some? && seen.Some? then stored - {seen.value} else stored;
      && outcome == Committed
      && db'.products == db.products[pid := db.products[pid].(
           listing := listing, image := if image.Some? then image else db.products[pid].image)]
      && Images.Effect(cfg, db, files, Images.Edit(pid, listing, me, image.Some?), image, lockFree)
         == (if lockFree then (db', left) else (db, stored))
      && (if lockFree then Images.RowsNameFiles(db', left) && Images.Strays(db', left) == Images.Strays(db, files)
          else Images.RowsNameFiles(db, stored)
               && Images.Strays(db, stored) ==
                    if image.Some? then Images.Strays(db, files) + {image.value} else Images.Strays(db, files))
  {
    AutoMeaning(cfg, db, UpdateProduct(pid, listing, image));
    Images.EffectStrays(cfg, db, files, Images.Edit(pid, listing, me, image.Some?), image, lockFree);
  }

  lemma {:induction false} RemovalEffect(
      cfg: Config, db: DB, files: set<FileName>, me: UserId, byAdmin: bool, pid: ProductId, lockFree: bool)
    requires Listed(db) && Images.RowsNameFiles(db, files)
    requires pid in db.products && (byAdmin || db.products[pid].seller == me)
    ensures var (db', outcome) := Alone(cfg, db, Auto(DeleteProduct(pid)));
      var seen := db.products[pid].image;
      var left := if seen.Some? then files - {seen.value} else files;
      && outcome == Committed && db'.products == db.products - {pid}
      && Images.Effect(cfg, db, files, Images.Remove(pid, me, byAdmin), None, lockFree)
         == (if lockFree then (db', left) else (db, files))
      && (lockFree ==>
           Images.RowsNameFiles(db', left) && Images.Strays(db', left) == Images.Strays(db, files))
  {
    AutoMeaning(cfg, db, DeleteProduct(pid));
    Images.EffectStrays(cfg, db, files, Images.Remove(pid, me, byAdmin), None, lockFree);
  }

  /** Units of work outside the catalogue leave rows and files together. */
  lemma {:induction false} ImagesKept(cfg: Config, db: DB, files: set<FileName>, txn: Txn)
    requires Images.RowsNameFiles(db, files)
    requires Admissible(cfg, db, txn) && (txn.Auto? ==> !AreaOf(txn.stmt).Catalog?)
    ensures Images.RowsNameFiles(Alone(cfg, db, txn).0, files)
  {
    Images.OthersSameImages(cfg, db, txn);
  }
}
