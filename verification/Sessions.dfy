/**
 Stored sessions, session epochs and the last active admin (secure-coding/app/security.py, the
 login and logout of blueprints/auth.py, the password form of blueprints/users.py).

 Requests are single steps here: the password form writes an epoch it read before, so its growth
 is a fact about requests served whole. When a session id is rotated the old entry may stay in the
 session store, contents and all; it is the epoch that makes it worthless.
 */
module Sessions {
  import opened Base
  import opened Schema
  import opened Engine
  import opened Admins

  type Sid = nat

  datatype Data = Data(user: UserId, sv: int)  // a stored session that names a user

  /** drawn: every session id ever issued. */
  datatype Web = Web(db: DB, store: map<Sid, Data>, drawn: set<Sid>)

  datatype Visit =
    | Login(sid: Sid, username: string, verified: bool, fresher: Sid, survives: bool, rehash: Option<nat>)
    | Logout(sid: Sid)
    | ChangePassword(sid: Sid, accepted: bool, hash: nat, fresher: Sid, survives: bool)
    | Act(sid: Sid, request: Request)  // any request of the Engine made through this session

  ghost predicate Allowed(cfg: Config, w: Web, v: Visit) {
    match v
    case Login(_, _, _, fresher, _, _) => fresher !in w.drawn
    case ChangePassword(_, _, _, fresher, _) => fresher !in w.drawn
    case Logout(_) => true
    case Act(_, request) =>
      request.OtherWrite? ==> Independent(cfg, request.stmt) && !request.stmt.SetPassword?
  }

  /** current_user: whom the session authenticates as. */
  function CurrentUser(db: DB, store: map<Sid, Data>, sid: Sid): Option<UserId> {
    if sid in store && LoggedIn(db, store[sid].user, store[sid].sv) then Some(store[sid].user) else None
  }

  /** regenerate_session followed by setting user_id and sv. */
  function Rebind(w: Web, sid: Sid, fresher: Sid, survives: bool, data: Data): Web {
    w.(store := (if survives then w.store else w.store - {sid})[fresher := data],
       drawn := w.drawn + {fresher})
  }

  function Write(cfg: Config, db: DB, stmt: Stmt): DB {
    Alone(cfg, db, Auto(stmt)).0
  }

  ghost function ServeLogin(cfg: Config, w: Web, v: Visit): Web
    requires v.Login?
  {
    var user := FindUser(w.db, v.username);
    if CurrentUser(w.db, w.store, v.sid).Some? then w
    else if user.None? || !v.verified || w.db.users[user.value].isDormant then w
    else
      var bound := Rebind(w, v.sid, v.fresher, v.survives, Data(user.value, w.db.users[user.value].sessionEpoch));
      if v.rehash.Some? then bound.(db := Write(cfg, w.db, SetHash(user.value, v.rehash.value))) else bound
  }

  /** The end of a password change that had read `epoch - 1`, not necessarily of late. */
  function LateChange(
      cfg: Config, w: Web, sid: Sid, fresher: Sid, survives: bool, uid: UserId, hash: nat, epoch: int): Web
  {
    Rebind(w, sid, fresher, survives, Data(uid, epoch)).(db := Write(cfg, w.db, SetPassword(uid, hash, epoch)))
  }

  function ServeChange(cfg: Config, w: Web, v: Visit): Web
    requires v.ChangePassword?
  {
    var me := CurrentUser(w.db, w.store, v.sid);
    if me.None? then w.(store := w.store - {v.sid})
    else if !v.accepted then w
    else
      LateChange(cfg, w, v.sid, v.fresher, v.survives, me.value, v.hash, w.db.users[me.value].sessionEpoch + 1)
  }

  ghost function ServeAct(cfg: Config, w: Web, sid: Sid, request: Request): Web {
    var me := CurrentUser(w.db, w.store, sid);
    if request.OtherWrite? then w.(db := Write(cfg, w.db, request.stmt))
    else if me.None? then w.(store := w.store - {sid})
    else if NeedsAdmin(request) && !w.db.users[me.value].isAdmin then w
    else
      match Decide(w.db, me.value, request)
      case None => w
      case Some(txn) => w.(db := Alone(cfg, w.db, txn).0)
  }

  ghost function Serve(cfg: Config, w: Web, v: Visit): Web
    requires Allowed(cfg, w, v)
  {
    match v
    case Login(_, _, _, _, _, _) => ServeLogin(cfg, w, v)
    case Logout(sid) => w.(store := w.store - {sid})
    case ChangePassword(_, _, _, _, _) => ServeChange(cfg, w, v)
    case Act(sid, request) => ServeAct(cfg, w, sid, request)
  }

  ghost predicate Visits(cfg: Config, w: Web, vs: seq<Visit>, x: Web)
    decreases |vs|
  {
    if vs == [] then w == x
    else
      Allowed(cfg, w, vs[0]) && Visits(cfg, Serve(cfg, w, vs[0]), vs[1..], x)
  }

  const OPENING := Web(EMPTY_DB, map[], {})

  // -------------------------------------------------------------------------------- account facts

  /** What units of work do to the account columns that sessions and admins depend on. */
  predicate AccountsKept(db: DB, db': DB) {
    forall u :: u in db.users ==>
      && u in db'.users
      && db'.users[u].sessionEpoch >= db.users[u].sessionEpoch
      && db'.users[u].isAdmin == db.users[u].isAdmin
  }

  lemma {:induction false} AccountWriteKeeps(cfg: Config, db: DB, stmt: Stmt)
    requires AreaOf(stmt).Accounts?
    requires stmt.SetPassword? ==> stmt.uid in db.users && stmt.epoch >= db.users[stmt.uid].sessionEpoch
    ensures AccountsKept(db, Write(cfg, db, stmt))
  {
    AutoMeaning(cfg, db, stmt);
  }

  lemma {:induction false} OtherWriteKeeps(cfg: Config, db: DB, stmt: Stmt)
    requires AreaOf(stmt).Catalog? || AreaOf(stmt).Resets?
    ensures AccountsKept(db, Write(cfg, db, stmt))
  {
    AutoMeaning(cfg, db, stmt);
  }

  lemma {:induction false} AutoKeepsAccounts(cfg: Config, db: DB, stmt: Stmt)
    requires stmt.SetPassword? ==> stmt.uid in db.users && stmt.epoch >= db.users[stmt.uid].sessionEpoch
    requires Admissible(cfg, db, Auto(stmt))
    ensures AccountsKept(db, Write(cfg, db, stmt))
  {
    if AreaOf(stmt).Accounts? {
      AccountWriteKeeps(cfg, db, stmt);
    } else {
      OtherWriteKeeps(cfg, db, stmt);
    }
  }

  lemma {:induction false} ReportKeepsAccounts(cfg: Config, db: DB, me: UserId, target: Target)
    requires Exists(db, target)
    ensures AccountsKept(db, Reported(cfg, db, me, target))
  {
  }

  lemma {:induction false} AloneKeepsAccounts(cfg: Config, db: DB, txn: Txn)
    requires Admissible(cfg, db, txn) && (txn.Auto? ==> !txn.stmt.SetPassword?)
    ensures AccountsKept(db, Alone(cfg, db, txn).0)
  {
    match txn
    case Pay(s, r, a) => PayFrame(cfg, db, s, r, a);
    case FileReport(me, target) =>
      ReportMeaning(cfg, db, me, target);
      if Exists(db, target) {
        ReportKeepsAccounts(cfg, db, me, target);
      }
    case Auto(stmt) => AutoKeepsAccounts(cfg, db, stmt);
  }

  // ------------------------------------------------------------------------------------ invariant

  /** Stored epochs never run ahead of the account's. */
  ghost predicate Sound(w: Web) {
    && Listed(w.db)
    && (forall sid :: sid in w.store ==>
         && sid in w.drawn
         && w.store[sid].user in w.db.users
         && w.store[sid].sv <= w.db.users[w.store[sid].user].sessionEpoch)
  }

  /** A stored session is an old one as it was, or a new id bound at the account's current epoch. */
  ghost predicate OldOrCurrent(w: Web, x: Web, sid: Sid)
    requires sid in x.store
  {
    || (sid in w.store && x.store[sid] == w.store[sid])
    || (sid !in w.drawn && x.store[sid].user in x.db.users
        && x.store[sid].sv == x.db.users[x.store[sid].user].sessionEpoch)
  }

  /** What every visit does to accounts and to the session store. */
  ghost predicate Step(w: Web, x: Web) {
    && Listed(x.db)
    && AccountsKept(w.db, x.db)
    && w.drawn <= x.drawn
    && (forall sid :: sid in x.store ==> sid in x.drawn && OldOrCurrent(w, x, sid))
  }

  lemma {:induction false} StmtDb(cfg: Config, db: DB, stmt: Stmt)
    requires Listed(db) && Admissible(cfg, db, Auto(stmt))
    requires stmt.SetPassword? ==> stmt.uid in db.users && stmt.epoch >= db.users[stmt.uid].sessionEpoch
    ensures Listed(Write(cfg, db, stmt)) && AccountsKept(db, Write(cfg, db, stmt))
  {
    AloneGrows(cfg, db, Auto(stmt));
    AutoKeepsAccounts(cfg, db, stmt);
  }

  lemma {:induction false} PasswordWritten(cfg: Config, db: DB, uid: UserId, hash: nat, epoch: int)
    requires uid in db.users
    ensures Write(cfg, db, SetPassword(uid, hash, epoch)) ==
            PutUser(db, uid, db.users[uid].(passwordHash := hash, sessionEpoch := epoch))
  {
    AutoMeaning(cfg, db, SetPassword(uid, hash, epoch));
  }

  lemma {:induction false} LoginStep(cfg: Config, w: Web, v: Visit)
    requires Sound(w) && Allowed(cfg, w, v) && v.Login?
    ensures Step(w, ServeLogin(cfg, w, v))
  {
    FindUserFinds(w.db, v.username);
    var user := FindUser(w.db, v.username);
    if v.rehash.Some? && user.Some? {
      StmtDb(cfg, w.db, SetHash(user.value, v.rehash.value));
      AutoMeaning(cfg, w.db, SetHash(user.value, v.rehash.value));
    }
  }

  lemma {:induction false} ChangeStep(cfg: Config, w: Web, v: Visit)
    requires Sound(w) && Allowed(cfg, w, v) && v.ChangePassword?
    ensures Step(w, ServeChange(cfg, w, v))
  {
    if v.accepted && CurrentUser(w.db, w.store, v.sid).Some? {
      AcceptedStep(cfg, w, v, ServeChange(cfg, w, v));
    } else {
      RefusedStep(cfg, w, v);
    }
  }

  lemma {:induction false} AcceptedStep(cfg: Config, w: Web, v: Visit, x: Web)
    requires Sound(w) && Allowed(cfg, w, v) && v.ChangePassword? && v.accepted
    requires CurrentUser(w.db, w.store, v.sid).Some? && x == ServeChange(cfg, w, v)
    ensures Step(w, x)
  {
    ChangeMeaning(cfg, w, v);
    BoundStep(cfg, w, v, CurrentUser(w.db, w.store, v.sid).value, x);
  }

  lemma {:induction false} BoundStep(cfg: Config, w: Web, v: Visit, me: UserId, x: Web)
    requires Sound(w) && v.ChangePassword? && v.fresher !in w.drawn && me in w.db.users
    requires x == Changed(w, v.sid, v.fresher, v.survives, me, v.hash, w.db.users[me].sessionEpoch + 1)
    ensures Step(w, x)
  {
    StmtDb(cfg, w.db, SetPassword(me, v.hash, w.db.users[me].sessionEpoch + 1));
    PasswordWritten(cfg, w.db, me, v.hash, w.db.users[me].sessionEpoch + 1);
    ChangedStep(w, v.sid, v.fresher, v.survives, me, v.hash, w.db.users[me].sessionEpoch + 1);
  }

  lemma {:induction false} RefusedStep(cfg: Config, w: Web, v: Visit)
    requires Sound(w) && v.ChangePassword? && (!v.accepted || CurrentUser(w.db, w.store, v.sid).None?)
    ensures Step(w, ServeChange(cfg, w, v))
  {
    DropStep(w, v.sid);
    DbStep(w, w.db);
  }

  lemma {:induction false} DropStep(w: Web, sid: Sid)
    requires Sound(w)
    ensures Step(w, w.(store := w.store - {sid}))
  {
  }

  lemma {:induction false} ChangedStep(
      w: Web, sid: Sid, fresher: Sid, survives: bool, me: UserId, hash: nat, epoch: int)
    requires Sound(w) && fresher !in w.drawn && me in w.db.users
    requires var x := Changed(w, sid, fresher, survives, me, hash, epoch); Listed(x.db) && AccountsKept(w.db, x.db)
    ensures Step(w, Changed(w, sid, fresher, survives, me, hash, epoch))
  {
  }

  lemma {:induction false} DbStep(w: Web, db: DB)
    requires Sound(w) && Listed(db) && AccountsKept(w.db, db)
    ensures Step(w, w.(db := db))
  {
  }

  lemma {:induction false} DecidedDb(cfg: Config, db: DB, me: UserId, request: Request)
    requires Listed(db) && me in db.users && !request.OtherWrite? && Decide(db, me, request).Some?
    ensures var db' := Alone(cfg, db, Decide(db, me, request).value).0;
      Listed(db') && AccountsKept(db, db')
  {
    var txn := Decide(db, me, request).value;
    DecisionAdmissible(cfg, db, me, request);
    AloneGrows(cfg, db, txn);
    AloneKeepsAccounts(cfg, db, txn);
  }

  lemma {:induction false} ActStep(cfg: Config, w: Web, sid: Sid, request: Request)
    requires Sound(w) && Allowed(cfg, w, Act(sid, request))
    ensures Step(w, ServeAct(cfg, w, sid, request))
  {
    var me := CurrentUser(w.db, w.store, sid);
    if request.OtherWrite? {
      StmtDb(cfg, w.db, request.stmt);
    } else if me.Some? && Decide(w.db, me.value, request).Some? {
      DecidedDb(cfg, w.db, me.value, request);
    }
    DbStep(w, ServeAct(cfg, w, sid, request).db);
  }

  lemma {:induction false} ServeStep(cfg: Config, w: Web, v: Visit)
    requires Sound(w) && Allowed(cfg, w, v)
    ensures Step(w, Serve(cfg, w, v))
  {
    match v
    case Login(_, _, _, _, _, _) => LoginStep(cfg, w, v);
    case Logout(_) =>
    case ChangePassword(_, _, _, _, _) => ChangeStep(cfg, w, v);
    case Act(sid, request) => ActStep(cfg, w, sid, request);
  }

  lemma {:induction false} NewEpoch(cfg: Config, w: Web, v: Visit)
    requires Sound(w) && v.ChangePassword? && v.accepted
    requires CurrentUser(w.db, w.store, v.sid).Some?
    ensures var me := CurrentUser(w.db, w.store, v.sid).value;
      var x := ServeChange(cfg, w, v);
      && me in x.db.users
      && x.db.users[me].sessionEpoch == w.db.users[me].sessionEpoch + 1
      && x.db.users[me].passwordHash == v.hash
      && x.db.users[me].isDormant == w.db.users[me].isDormant
  {
    var me := CurrentUser(w.db, w.store, v.sid).value;
    PasswordWritten(cfg, w.db, me, v.hash, w.db.users[me].sessionEpoch + 1);
  }

  lemma {:induction false} StepSound(w: Web, x: Web)
    requires Sound(w) && Step(w, x)
    ensures Sound(x)
  {
    forall sid | sid in x.store
      ensures sid in x.drawn && x.store[sid].user in x.db.users
      ensures x.store[sid].sv <= x.db.users[x.store[sid].user].sessionEpoch
    {
      assert OldOrCurrent(w, x, sid);
    }
  }

  lemma {:induction false} ServeSound(cfg: Config, w: Web, v: Visit)
    requires Sound(w) && Allowed(cfg, w, v)
    ensures Sound(Serve(cfg, w, v))
  {
    ServeStep(cfg, w, v);
    StepSound(w, Serve(cfg, w, v));
  }

  lemma {:induction false} VisitsSound(cfg: Config, w: Web, vs: seq<Visit>, x: Web)
    requires Sound(w) && Visits(cfg, w, vs, x)
    ensures Sound(x)
    decreases |vs|
  {
    if vs != [] {
      ServeSound(cfg, w, vs[0]);
      VisitsSound(cfg, Serve(cfg, w, vs[0]), vs[1..], x);
    }
  }

  /** In every run, each stored session's sv is at most its user's session_epoch. */
  lemma {:induction false} EpochsBounded(cfg: Config, vs: seq<Visit>, x: Web)
    requires Visits(cfg, OPENING, vs, x)
    ensures forall sid :: sid in x.store ==>
      x.store[sid].user in x.db.users && x.store[sid].sv <= x.db.users[x.store[sid].user].sessionEpoch
  {
    VisitsSound(cfg, OPENING, vs, x);
  }

  /**
   After a password change exactly one stored session authenticates as that user: the re-issued one,
   whatever other sessions there were and whether or not the old entry stayed in the store.
   */
  lemma {:induction false} OneSessionAfterChange(cfg: Config, vs: seq<Visit>, w: Web, v: Visit, sid: Sid)
    requires Visits(cfg, OPENING, vs, w) && Allowed(cfg, w, v)
    requires v.ChangePassword? && v.accepted && CurrentUser(w.db, w.store, v.sid).Some?
    ensures var me := CurrentUser(w.db, w.store, v.sid);
      var x := Serve(cfg, w, v);
      CurrentUser(x.db, x.store, sid) == me <==> sid == v.fresher
  {
    VisitsSound(cfg, OPENING, vs, w);
    NewEpoch(cfg, w, v);
  }

  /** The tables and the store after a password change that writes `epoch`. */
  function Changed(w: Web, sid: Sid, fresher: Sid, survives: bool, uid: UserId, hash: nat, epoch: int): Web
    requires uid in w.db.users
  {
    Rebind(w, sid, fresher, survives, Data(uid, epoch))
      .(db := PutUser(w.db, uid, w.db.users[uid].(passwordHash := hash, sessionEpoch := epoch)))
  }

  lemma {:induction false} ChangeMeaning(cfg: Config, w: Web, v: Visit)
    requires v.ChangePassword? && v.accepted && CurrentUser(w.db, w.store, v.sid).Some?
    ensures var me := CurrentUser(w.db, w.store, v.sid).value;
      ServeChange(cfg, w, v) ==
        Changed(w, v.sid, v.fresher, v.survives, me, v.hash, w.db.users[me].sessionEpoch + 1)
  {
    var me := CurrentUser(w.db, w.store, v.sid).value;
    PasswordWritten(cfg, w.db, me, v.hash, w.db.users[me].sessionEpoch + 1);
  }

  /** A session id whose stored epoch is behind, or that is stored no more. */
  ghost predicate Dead(w: Web, sid: Sid) {
    && sid in w.drawn
    && (sid in w.store ==>
         w.store[sid].user in w.db.users && w.store[sid].sv < w.db.users[w.store[sid].user].sessionEpoch)
  }

  lemma {:induction false} StaysDead(cfg: Config, w: Web, v: Visit, sid: Sid)
    requires Sound(w) && Allowed(cfg, w, v) && Dead(w, sid)
    ensures Dead(Serve(cfg, w, v), sid)
  {
    ServeStep(cfg, w, v);
  }

  /** A session invalidated by its epoch never authenticates anybody again, in any continuation. */
  lemma {:induction false} DeadForGood(cfg: Config, w: Web, vs: seq<Visit>, x: Web, sid: Sid)
    requires Sound(w) && Dead(w, sid) && Visits(cfg, w, vs, x)
    ensures CurrentUser(x.db, x.store, sid).None?
    decreases |vs|
  {
    if vs != [] {
      ServeSound(cfg, w, vs[0]);
      StaysDead(cfg, w, vs[0], sid);
      DeadForGood(cfg, Serve(cfg, w, vs[0]), vs[1..], x, sid);
    }
  }

  /** Every other session of the user dies with the password change, for good. */
  lemma {:induction false} ChangeEndsOthers(
      cfg: Config, before: seq<Visit>, w: Web, v: Visit, later: seq<Visit>, x: Web, sid: Sid)
    requires Visits(cfg, OPENING, before, w) && Allowed(cfg, w, v)
    requires v.ChangePassword? && v.accepted && CurrentUser(w.db, w.store, v.sid).Some?
    requires sid in w.store && w.store[sid].user == CurrentUser(w.db, w.store, v.sid).value
    requires Visits(cfg, Serve(cfg, w, v), later, x)
    ensures CurrentUser(x.db, x.store, sid).None?
  {
    VisitsSound(cfg, OPENING, before, w);
    ServeSound(cfg, w, v);
    NewEpoch(cfg, w, v);
    DeadForGood(cfg, Serve(cfg, w, v), later, x, sid);
  }

  // --------------------------------------------------------------------- what each visit comes to

  /** The session speaks for this account: it is stored for it, the account is active, the epochs agree. */
  predicate Speaks(db: DB, store: map<Sid, Data>, sid: Sid, u: UserId) {
    && sid in store && store[sid].user == u
    && u in db.users && !db.users[u].isDormant && db.users[u].sessionEpoch == store[sid].sv
  }

  ghost predicate SpeaksForSomebody(db: DB, store: map<Sid, Data>, sid: Sid) {
    exists u :: Speaks(db, store, sid, u)
  }

  lemma {:induction false} HashWritten(cfg: Config, db: DB, uid: UserId, hash: nat)
    requires uid in db.users
    ensures Write(cfg, db, SetHash(uid, hash)) == PutUser(db, uid, db.users[uid].(passwordHash := hash))
  {
    AutoMeaning(cfg, db, SetHash(uid, hash));
  }

  /**
   A login binds a new session id exactly if nobody is logged in through the session already, the password
   is verified and the account of that name is active. Otherwise nothing changes.
   */
  lemma {:induction false} LoginOutcome(cfg: Config, w: Web, v: Visit)
    requires Listed(w.db) && v.Login?
    ensures var x := ServeLogin(cfg, w, v);
      if SpeaksForSomebody(w.db, w.store, v.sid) || !v.verified
         || forall u :: u in w.db.users && w.db.users[u].username == v.username ==> w.db.users[u].isDormant
      then x == w
      else forall u :: u in w.db.users && w.db.users[u].username == v.username ==>
        && x.store == (if v.survives then w.store else w.store - {v.sid})[
             v.fresher := Data(u, w.db.users[u].sessionEpoch)]
        && x.drawn == w.drawn + {v.fresher}
        && x.db == if v.rehash.None? then w.db
                   else w.db.(users := w.db.users[u := w.db.users[u].(passwordHash := v.rehash.value)])
  {
    FindUserFinds(w.db, v.username);
    NobodySpeaks(w, v.sid);
    var user := FindUser(w.db, v.username);
    if user.Some? && v.rehash.Some? {
      HashWritten(cfg, w.db, user.value, v.rehash.value);
    }
    if user.None? {
      assert !UsernameTaken(w.db, v.username);
    }
  }

  lemma {:induction false} NobodySpeaks(w: Web, sid: Sid)
    ensures CurrentUser(w.db, w.store, sid).Some? <==> SpeaksForSomebody(w.db, w.store, sid)
    ensures forall u: UserId :: CurrentUser(w.db, w.store, sid) == Some(u) <==> Speaks(w.db, w.store, sid, u)
  {
    if CurrentUser(w.db, w.store, sid).Some? {
      assert Speaks(w.db, w.store, sid, w.store[sid].user);
    }
  }

  /** A password change takes place exactly if the session speaks for somebody and the form is accepted. */
  lemma {:induction false} ChangeOutcome(cfg: Config, w: Web, v: Visit)
    requires v.ChangePassword?
    ensures var x := ServeChange(cfg, w, v);
      if !SpeaksForSomebody(w.db, w.store, v.sid) then x == w.(store := w.store - {v.sid})
      else if !v.accepted then x == w
      else forall u :: Speaks(w.db, w.store, v.sid, u) ==>
        && x.db == w.db.(users := w.db.users[u := w.db.users[u].(
             passwordHash := v.hash, sessionEpoch := w.db.users[u].sessionEpoch + 1)])
        && x.store == (if v.survives then w.store else w.store - {v.sid})[
             v.fresher := Data(u, w.db.users[u].sessionEpoch + 1)]
        && x.drawn == w.drawn + {v.fresher}
  {
    NobodySpeaks(w, v.sid);
    if v.accepted && CurrentUser(w.db, w.store, v.sid).Some? {
      ChangeMeaning(cfg, w, v);
    }
  }

  /** A request has an effect only through a session that speaks for somebody, an admin's only for an admin. */
  lemma {:induction false} ActOutcome(cfg: Config, w: Web, sid: Sid, request: Request)
    requires !request.OtherWrite?
    ensures var x := ServeAct(cfg, w, sid, request);
      if !SpeaksForSomebody(w.db, w.store, sid) then x == w.(store := w.store - {sid})
      else forall u :: Speaks(w.db, w.store, sid, u) ==>
        x == if (request.Unblock? || request.ToggleDormant?) && !w.db.users[u].isAdmin then w
             else if Decide(w.db, u, request).None? then w
             else w.(db := Alone(cfg, w.db, Decide(w.db, u, request).value).0)
  {
    NobodySpeaks(w, sid);
  }

  /** Logging out ends the session, for good, and leaves every other. */
  lemma {:induction false} LogoutEnds(cfg: Config, w: Web, sid: Sid, later: seq<Visit>, y: Web)
    requires Sound(w) && sid in w.store && Visits(cfg, Serve(cfg, w, Logout(sid)), later, y)
    ensures Serve(cfg, w, Logout(sid)) == w.(store := w.store - {sid})
    ensures !SpeaksForSomebody(y.db, y.store, sid)
  {
    var x := Serve(cfg, w, Logout(sid));
    ServeSound(cfg, w, Logout(sid));
    DeadForGood(cfg, x, later, y, sid);
    NobodySpeaks(y, sid);
  }

  // ---------------------------------------------------------------------- where sessions come from

  /** The visit that may bind this session for u: a verified login, or a change by u himself. */
  ghost predicate Earns(w: Web, v: Visit, sid: Sid, data: Data) {
    data.user in w.db.users &&
    if v.Login? then
      && sid == v.fresher && v.verified
      && w.db.users[data.user].username == v.username && !w.db.users[data.user].isDormant
      && data.sv == w.db.users[data.user].sessionEpoch
    else
      && v.ChangePassword? && sid == v.fresher && v.accepted
      && Speaks(w.db, w.store, v.sid, data.user)
      && data.sv == w.db.users[data.user].sessionEpoch + 1
  }

  lemma {:induction false} NewSessionEarned(cfg: Config, w: Web, v: Visit, sid: Sid)
    requires Sound(w) && Allowed(cfg, w, v)
    requires sid !in w.store && sid in Serve(cfg, w, v).store
    ensures Earns(w, v, sid, Serve(cfg, w, v).store[sid])
  {
    match v
    case Login(_, _, _, _, _, _) =>
      LoginOutcome(cfg, w, v);
      if FindUser(w.db, v.username).Some? {
        FindUserFinds(w.db, v.username);
      }
    case ChangePassword(_, _, _, _, _) =>
      ChangeOutcome(cfg, w, v);
    case Logout(_) =>
    case Act(_, _) =>
  }

  /** A session id once drawn keeps its entry or loses it, and never gets another. */
  lemma {:induction false} EntryStays(cfg: Config, w: Web, vs: seq<Visit>, x: Web, sid: Sid)
    requires Sound(w) && Visits(cfg, w, vs, x) && sid in w.drawn && sid in x.store
    ensures sid in w.store && x.store[sid] == w.store[sid]
    decreases |vs|
  {
    if vs != [] {
      var y := Serve(cfg, w, vs[0]);
      ServeStep(cfg, w, vs[0]);
      ServeSound(cfg, w, vs[0]);
      EntryStays(cfg, y, vs[1..], x, sid);
      assert OldOrCurrent(w, y, sid);
    }
  }

  lemma {:induction false} EarnedFirst(cfg: Config, w: Web, v: Visit, after: seq<Visit>, x: Web, sid: Sid)
    requires Sound(w) && Allowed(cfg, w, v) && Visits(cfg, Serve(cfg, w, v), after, x)
    requires sid !in w.store && sid in Serve(cfg, w, v).store && sid in x.store
    ensures Earns(w, v, sid, x.store[sid])
  {
    var y := Serve(cfg, w, v);
    ServeSound(cfg, w, v);
    NewSessionEarned(cfg, w, v, sid);
    EntryStays(cfg, y, after, x, sid);
  }

  lemma {:induction false} EarnedAlong(cfg: Config, w: Web, vs: seq<Visit>, x: Web, sid: Sid)
    returns (before: seq<Visit>, m: Web, v: Visit, after: seq<Visit>)
    requires Sound(w) && Visits(cfg, w, vs, x) && sid !in w.store && sid in x.store
    ensures vs == before + [v] + after && Visits(cfg, w, before, m) && Allowed(cfg, m, v)
    ensures Earns(m, v, sid, x.store[sid]) && Visits(cfg, Serve(cfg, m, v), after, x)
    decreases |vs|
  {
    var y := Serve(cfg, w, vs[0]);
    ServeSound(cfg, w, vs[0]);
    if sid in y.store {
      before, m, v, after := [], w, vs[0], vs[1..];
      EarnedFirst(cfg, w, v, after, x, sid);
    } else {
      before, m, v, after := EarnedAlong(cfg, y, vs[1..], x, sid);
      OneEarlier(cfg, w, vs, before, m, v, after);
      before := [vs[0]] + before;
    }
  }

  lemma {:induction false} OneEarlier(
      cfg: Config, w: Web, vs: seq<Visit>, before: seq<Visit>, m: Web, v: Visit, after: seq<Visit>)
    requires vs != [] && Allowed(cfg, w, vs[0]) && Visits(cfg, Serve(cfg, w, vs[0]), before, m)
    requires vs[1..] == before + [v] + after
    ensures vs == [vs[0]] + before + [v] + after && Visits(cfg, w, [vs[0]] + before, m)
  {
    VisitsOn(cfg, w, vs[0], before, m);
    assert vs == [vs[0]] + vs[1..];
  }

  /**
   Whoever a stored session is for, in any run: it was bound either by a verified login under the name of
   that account, active then, or by a password change through a session that spoke for it.
   */
  lemma {:induction false} EverySessionEarned(cfg: Config, vs: seq<Visit>, x: Web, sid: Sid)
    returns (before: seq<Visit>, w: Web, v: Visit, after: seq<Visit>)
    requires Visits(cfg, OPENING, vs, x) && sid in x.store
    ensures vs == before + [v] + after && Visits(cfg, OPENING, before, w) && Allowed(cfg, w, v)
    ensures Visits(cfg, Serve(cfg, w, v), after, x)
    ensures var u := x.store[sid].user;
      && (v.Login? || v.ChangePassword?) && sid == v.fresher && u in w.db.users
      && (if v.Login? then v.verified && w.db.users[u].username == v.username && !w.db.users[u].isDormant
          else v.accepted && Speaks(w.db, w.store, v.sid, u))
  {
    before, w, v, after := EarnedAlong(cfg, OPENING, vs, x, sid);
  }

  // ------------------------------------------------------------------- changes written out of turn

  /**
   The exact condition for a change whose read is old: it keeps every sv within its user's epoch if
   and only if no stored session of that user that stays has a higher one than it writes.
   */
  lemma {:induction false} LateChangeSound(
      cfg: Config, w: Web, sid: Sid, fresher: Sid, survives: bool, uid: UserId, hash: nat, epoch: int)
    requires Sound(w) && fresher !in w.drawn && uid in w.db.users
    ensures Sound(LateChange(cfg, w, sid, fresher, survives, uid, hash, epoch)) <==>
      forall q :: q in w.store && (survives || q != sid) && w.store[q].user == uid ==> w.store[q].sv <= epoch
  {
    AloneGrows(cfg, w.db, Auto(SetPassword(uid, hash, epoch)));
    PasswordWritten(cfg, w.db, uid, hash, epoch);
    ChangedSound(w, sid, fresher, survives, uid, hash, epoch);
    assert LateChange(cfg, w, sid, fresher, survives, uid, hash, epoch)
        == Changed(w, sid, fresher, survives, uid, hash, epoch);
  }

  lemma {:induction false} ChangedSound(
      w: Web, sid: Sid, fresher: Sid, survives: bool, uid: UserId, hash: nat, epoch: int)
    requires Sound(w) && fresher !in w.drawn && uid in w.db.users
    requires Listed(Changed(w, sid, fresher, survives, uid, hash, epoch).db)
    ensures Sound(Changed(w, sid, fresher, survives, uid, hash, epoch)) <==>
      forall q :: q in w.store && (survives || q != sid) && w.store[q].user == uid ==> w.store[q].sv <= epoch
  {
    var x := Changed(w, sid, fresher, survives, uid, hash, epoch);
    forall q | q in w.store && (survives || q != sid)
      ensures q in x.store && x.store[q] == w.store[q]
    {
    }
  }

  /** A stored session of uid that is there after the change too. */
  predicate Remains(w: Web, sid: Sid, survives: bool, uid: UserId, q: Sid) {
    q in w.store && (survives || q != sid) && w.store[q].user == uid
  }

  /**
   The exact condition for the dead to stay dead: a session ended before revives if and only if it is one
   of that user's that stays, with an sv not below the epoch written.
   */
  lemma {:induction false} LateChangeDead(
      cfg: Config, w: Web, sid: Sid, fresher: Sid, survives: bool, uid: UserId, hash: nat, epoch: int, q: Sid)
    requires fresher !in w.drawn && uid in w.db.users && Dead(w, q)
    ensures Dead(LateChange(cfg, w, sid, fresher, survives, uid, hash, epoch), q) <==>
            !(Remains(w, sid, survives, uid, q) && w.store[q].sv >= epoch)
  {
    PasswordWritten(cfg, w.db, uid, hash, epoch);
  }

  /** Who authenticates as uid afterwards: the re-issued session, and every other that carries the epoch written. */
  lemma {:induction false} LateChangeCurrent(
      cfg: Config, w: Web, sid: Sid, fresher: Sid, survives: bool, uid: UserId, hash: nat, epoch: int, q: Sid)
    requires Sound(w) && fresher !in w.drawn && uid in w.db.users
    ensures var x := LateChange(cfg, w, sid, fresher, survives, uid, hash, epoch);
      CurrentUser(x.db, x.store, q) == Some(uid) <==>
        && !w.db.users[uid].isDormant
        && (q == fresher || (Remains(w, sid, survives, uid, q) && w.store[q].sv == epoch))
  {
    PasswordWritten(cfg, w.db, uid, hash, epoch);
  }

  /**
   So it leaves the re-issued session alone in authenticating as an active uid if and only if no other
   session of uid that stays carries the epoch it writes. Two changes that had read the same epoch do not.
   */
  lemma {:induction false} OneSessionExactly(
      cfg: Config, w: Web, sid: Sid, fresher: Sid, survives: bool, uid: UserId, hash: nat, epoch: int)
    requires Sound(w) && fresher !in w.drawn && uid in w.db.users && !w.db.users[uid].isDormant
    ensures var x := LateChange(cfg, w, sid, fresher, survives, uid, hash, epoch);
      (forall q :: CurrentUser(x.db, x.store, q) == Some(uid) <==> q == fresher) <==>
      (forall q :: Remains(w, sid, survives, uid, q) ==> w.store[q].sv != epoch)
  {
    var x := LateChange(cfg, w, sid, fresher, survives, uid, hash, epoch);
    forall q
      ensures CurrentUser(x.db, x.store, q) == Some(uid) <==>
        q == fresher || (Remains(w, sid, survives, uid, q) && w.store[q].sv == epoch)
    {
      LateChangeCurrent(cfg, w, sid, fresher, survives, uid, hash, epoch, q);
    }
    forall q | Remains(w, sid, survives, uid, q)
      ensures q != fresher
    {
      assert q in w.drawn;
    }
  }

  lemma {:induction false} RevivedOnValues(
      w: Web, me: UserId, s1: Sid, s2: Sid, f1: Sid, f2: Sid, f3: Sid, h1: nat, h2: nat, h3: nat, survives: bool)
    requires me in w.db.users && !w.db.users[me].isDormant && f1 != f2 && f1 != f3 && f2 != f3
    ensures var e := w.db.users[me].sessionEpoch;
      var x := Changed(w, s2, f2, survives, me, h2, e + 1);
      var y := Changed(x, f2, f3, true, me, h3, e + 2);
      var z := Changed(y, s1, f1, true, me, h1, e + 1);
      && CurrentUser(x.db, x.store, f2) == Some(me)
      && CurrentUser(y.db, y.store, f2).None? && Dead(y, f2)
      && CurrentUser(z.db, z.store, f2) == Some(me)
      && f3 in z.store && z.store[f3] == Data(me, z.db.users[me].sessionEpoch + 1)
  {
  }

  /**
   A change through s1 reads its epoch, then two others are made one after the other, through s2 and
   through the session it was re-issued, and only then is the first one written: the last session's sv
   is above its user's epoch, and the middle one, dead by then, authenticates again.
   */
  lemma {:induction false} StaleChangeRevives(
      cfg: Config, w: Web, x: Web, y: Web, me: UserId, s1: Sid, second: Visit, third: Visit, f1: Sid, hash: nat)
    requires CurrentUser(w.db, w.store, s1) == Some(me)
    requires second.ChangePassword? && second.accepted && CurrentUser(w.db, w.store, second.sid) == Some(me)
    requires second.fresher !in w.drawn && x == ServeChange(cfg, w, second)
    requires third.ChangePassword? && third.accepted && third.sid == second.fresher && third.survives
    requires third.fresher !in x.drawn && y == ServeChange(cfg, x, third)
    requires f1 !in y.drawn
    ensures var z := LateChange(cfg, y, s1, f1, true, me, hash, w.db.users[me].sessionEpoch + 1);
      && CurrentUser(y.db, y.store, second.fresher).None? && Dead(y, second.fresher)
      && CurrentUser(z.db, z.store, second.fresher) == Some(me)
      && third.fresher in z.store && me in z.db.users
      && z.store[third.fresher] == Data(me, z.db.users[me].sessionEpoch + 1)
  {
    var e := w.db.users[me].sessionEpoch;
    ChangeMeaning(cfg, w, second);
    assert CurrentUser(x.db, x.store, third.sid) == Some(me);
    ChangeMeaning(cfg, x, third);
    RevivedOnValues(w, me, s1, second.sid, f1, second.fresher, third.fresher,
                    hash, second.hash, third.hash, second.survives);
    PasswordWritten(cfg, y.db, me, hash, e + 1);
  }

  const SELLER: UserId := 7
  const SIGN_UP: Visit := Act(0, OtherWrite(InsertUser(SELLER, "seller", 0, 0, true)))
  const LOGIN_ONE: Visit := Login(0, "seller", true, 1, false, None)
  const LOGIN_TWO: Visit := Login(2, "seller", true, 3, false, None)
  const SECOND: Visit := ChangePassword(3, true, 0, 4, false)
  const THIRD: Visit := ChangePassword(4, true, 0, 5, true)

  lemma {:induction false} VisitsOn(cfg: Config, w: Web, v: Visit, rest: seq<Visit>, x: Web)
    requires Allowed(cfg, w, v) && Visits(cfg, Serve(cfg, w, v), rest, x)
    ensures Visits(cfg, w, [v] + rest, x)
  {
    assert ([v] + rest)[1..] == rest;
  }

  lemma {:induction false} SignedUp(cfg: Config)
    ensures var w := Serve(cfg, OPENING, SIGN_UP);
      && Listed(w.db) && w.store == map[] && w.drawn == {}
      && SELLER in w.db.users && w.db.users[SELLER].username == "seller" && !w.db.users[SELLER].isDormant
  {
    AutoMeaning(cfg, EMPTY_DB, SIGN_UP.request.stmt);
    AloneGrows(cfg, EMPTY_DB, Auto(SIGN_UP.request.stmt));
  }

  /** An account logged in twice, as sessions 1 and 3. */
  lemma {:induction false} LoggedInTwice(cfg: Config) returns (vs: seq<Visit>, w: Web)
    ensures Visits(cfg, OPENING, vs, w) && w.drawn == {1, 3}
    ensures CurrentUser(w.db, w.store, 1) == Some(SELLER) && CurrentUser(w.db, w.store, 3) == Some(SELLER)
  {
    SignedUp(cfg);
    var rest;
    rest, w := TwoLogins(cfg, Serve(cfg, OPENING, SIGN_UP));
    VisitsOn(cfg, OPENING, SIGN_UP, rest, w);
    vs := [SIGN_UP] + rest;
  }

  lemma {:induction false} TwoLogins(cfg: Config, w: Web) returns (vs: seq<Visit>, x: Web)
    requires Listed(w.db) && w.store == map[] && w.drawn == {}
    requires SELLER in w.db.users && w.db.users[SELLER].username == "seller" && !w.db.users[SELLER].isDormant
    ensures Visits(cfg, w, vs, x) && x.drawn == {1, 3}
    ensures CurrentUser(x.db, x.store, 1) == Some(SELLER) && CurrentUser(x.db, x.store, 3) == Some(SELLER)
  {
    LoginOutcome(cfg, w, LOGIN_ONE);
    var y := Serve(cfg, w, LOGIN_ONE);
    LoginOutcome(cfg, y, LOGIN_TWO);
    x := Serve(cfg, y, LOGIN_TWO);
    VisitsOn(cfg, y, LOGIN_TWO, [], x);
    VisitsOn(cfg, w, LOGIN_ONE, [LOGIN_TWO], x);
    vs := [LOGIN_ONE] + [LOGIN_TWO];
  }

  lemma {:induction false} TwoVisits(cfg: Config, w: Web, first: Visit, second: Visit)
    requires Allowed(cfg, w, first) && Allowed(cfg, Serve(cfg, w, first), second)
    ensures Visits(cfg, w, [first] + [second], Serve(cfg, Serve(cfg, w, first), second))
  {
    var x := Serve(cfg, w, first);
    VisitsOn(cfg, x, second, [], Serve(cfg, x, second));
    VisitsOn(cfg, w, first, [second], Serve(cfg, x, second));
  }

  /**
   A run from the start. A change through session 1 has read its epoch; two others are made through
   session 3, the second of which ends session 4; then the first one is written, and 4 authenticates.
   */
  lemma {:induction false} StaleChangeRun(cfg: Config) returns (before: seq<Visit>, w: Web, after: seq<Visit>, y: Web)
    ensures Visits(cfg, OPENING, before, w) && CurrentUser(w.db, w.store, 1) == Some(SELLER)
    ensures Visits(cfg, w, after, y) && Dead(y, 4)
    ensures var z := LateChange(cfg, y, 1, 6, true, SELLER, 0, w.db.users[SELLER].sessionEpoch + 1);
      && CurrentUser(z.db, z.store, 4) == Some(SELLER)
      && 5 in z.store && SELLER in z.db.users && z.store[5] == Data(SELLER, z.db.users[SELLER].sessionEpoch + 1)
  {
    before, w := LoggedInTwice(cfg);
    after := [SECOND] + [THIRD];
    var x;
    x, y := TwoChanges(cfg, w);
    StaleChangeRevives(cfg, w, x, y, SELLER, 1, SECOND, THIRD, 6, 0);
  }

  lemma {:induction false} AfterChange(cfg: Config, w: Web, v: Visit, me: UserId)
    requires v.ChangePassword? && v.accepted && CurrentUser(w.db, w.store, v.sid) == Some(me)
    ensures var x := ServeChange(cfg, w, v);
      x.drawn == w.drawn + {v.fresher} && CurrentUser(x.db, x.store, v.fresher) == Some(me)
  {
    ChangeMeaning(cfg, w, v);
  }

  lemma {:induction false} TwoChanges(cfg: Config, w: Web) returns (x: Web, y: Web)
    requires w.drawn == {1, 3} && CurrentUser(w.db, w.store, 3) == Some(SELLER)
    ensures x == ServeChange(cfg, w, SECOND) && y == ServeChange(cfg, x, THIRD)
    ensures Visits(cfg, w, [SECOND] + [THIRD], y)
    ensures x.drawn == {1, 3, 4} && y.drawn == {1, 3, 4, 5}
  {
    x := ServeChange(cfg, w, SECOND);
    AfterChange(cfg, w, SECOND, SELLER);
    y := ServeChange(cfg, x, THIRD);
    AfterChange(cfg, x, THIRD, SELLER);
    TwoVisits(cfg, w, SECOND, THIRD);
  }

  // ------------------------------------------------------------------------- an admin stays active

  lemma {:induction false} ServeKeepsAdmin(cfg: Config, w: Web, v: Visit)
    requires Sound(w) && Allowed(cfg, w, v) && ActiveAdmin(w.db)
    ensures ActiveAdmin(Serve(cfg, w, v).db)
  {
    var u :| IsActiveAdmin(w.db, u);
    match v
    case Login(_, _, _, _, _, _) => LoginKeepsAdmin(cfg, w, v, u);
    case Logout(_) =>
    case ChangePassword(_, _, _, _, _) => ChangeKeepsAdmin(cfg, w, v, u);
    case Act(sid, request) =>
      if request.OtherWrite? {
        AutoKeepsAdmin(cfg, w.db, request.stmt, u);
      } else {
        ActKeepsAdmin(cfg, w, sid, request, u);
      }
  }

  lemma {:induction false} LoginKeepsAdmin(cfg: Config, w: Web, v: Visit, u: UserId)
    requires v.Login? && IsActiveAdmin(w.db, u)
    ensures IsActiveAdmin(ServeLogin(cfg, w, v).db, u)
  {
    var user := FindUser(w.db, v.username);
    if v.rehash.Some? && user.Some? {
      AutoKeepsAdmin(cfg, w.db, SetHash(user.value, v.rehash.value), u);
    }
  }

  lemma {:induction false} ChangeKeepsAdmin(cfg: Config, w: Web, v: Visit, u: UserId)
    requires v.ChangePassword? && IsActiveAdmin(w.db, u)
    ensures IsActiveAdmin(ServeChange(cfg, w, v).db, u)
  {
    var me := CurrentUser(w.db, w.store, v.sid);
    if me.Some? {
      AutoKeepsAdmin(cfg, w.db, SetPassword(me.value, v.hash, w.db.users[me.value].sessionEpoch + 1), u);
    }
  }

  lemma {:induction false} ActKeepsAdmin(cfg: Config, w: Web, sid: Sid, request: Request, u: UserId)
    requires Sound(w) && !request.OtherWrite? && IsActiveAdmin(w.db, u)
    ensures ActiveAdmin(Serve(cfg, w, Act(sid, request)).db)
  {
    var me := CurrentUser(w.db, w.store, sid);
    if me.Some? && Decide(w.db, me.value, request).Some? {
      var txn := Decide(w.db, me.value, request).value;
      DecisionAdmissible(cfg, w.db, me.value, request);
      if txn == Auto(MakeDormant(u)) {
        if w.db.users[me.value].isAdmin {
          // the acting admin is active and is not the one suspended
          AloneKeepsAdmin(cfg, w.db, txn, me.value);
          assert IsActiveAdmin(Serve(cfg, w, Act(sid, request)).db, me.value);
        } else {
          assert Serve(cfg, w, Act(sid, request)) == w;
        }
      } else {
        AloneKeepsAdmin(cfg, w.db, txn, u);
        assert IsActiveAdmin(Serve(cfg, w, Act(sid, request)).db, u);
      }
    }
  }

  /** Once there is an active admin there is one for ever after. */
  lemma {:induction false} AdminStaysActive(cfg: Config, w: Web, vs: seq<Visit>, x: Web)
    requires Sound(w) && ActiveAdmin(w.db) && Visits(cfg, w, vs, x)
    ensures ActiveAdmin(x.db)
    decreases |vs|
  {
    if vs != [] {
      ServeSound(cfg, w, vs[0]);
      ServeKeepsAdmin(cfg, w, vs[0]);
      AdminStaysActive(cfg, Serve(cfg, w, vs[0]), vs[1..], x);
    }
  }

  // ---------------------------------------------------------------------------- the handlers

  class Site {
    const cfg: Config
    var db: DB
    var store: map<Sid, Data>
    ghost var drawn: set<Sid>

    ghost function Value(): Web
      reads this
    {
      Web(db, store, drawn)
    }

    constructor (cfg: Config)
      ensures this.cfg == cfg && Value() == OPENING && Sound(Value())
    {
      this.cfg, db, store, drawn := cfg, EMPTY_DB, map[], {};
    }

    /** The session moves to a new id; whether the old entry goes is up to the session store. */
    method RegenerateSession(sid: Sid, fresher: Sid, survives: bool)
      modifies this`store, this`drawn
      ensures store == if survives then old(store) else old(store) - {sid}
      ensures drawn == old(drawn) + {fresher}
    {
      if !survives {
        store := store - {sid};
      }
      drawn := drawn + {fresher};
    }

    method SignIn(sid: Sid, username: string, verified: bool, fresher: Sid, survives: bool, rehash: Option<nat>)
      requires Listed(db) && Allowed(cfg, Value(), Login(sid, username, verified, fresher, survives, rehash))
      modifies this
      ensures Value() == Serve(cfg, old(Value()), Login(sid, username, verified, fresher, survives, rehash))
      ensures
        if SpeaksForSomebody(old(db), old(store), sid) || !verified
           || forall u :: u in old(db).users && old(db).users[u].username == username ==> old(db).users[u].isDormant
        then db == old(db) && store == old(store)
        else forall u :: u in old(db).users && old(db).users[u].username == username ==>
          && store == (if survives then old(store) else old(store) - {sid})[
               fresher := Data(u, old(db).users[u].sessionEpoch)]
          && db == if rehash.None? then old(db)
                   else old(db).(users := old(db).users[u := old(db).users[u].(passwordHash := rehash.value)])
    {
      LoginOutcome(cfg, Value(), Login(sid, username, verified, fresher, survives, rehash));
      if CurrentUser(db, store, sid).Some? {
        return;
      }
      if !exists uid :: uid in db.users && db.users[uid].username == username {
        return;
      }
      var uid :| uid in db.users && db.users[uid].username == username;
      assert FindUser(db, username) == Some(uid);
      if !verified || db.users[uid].isDormant {
        return;
      }
      var epoch := db.users[uid].sessionEpoch;
      RegenerateSession(sid, fresher, survives);
      store := store[fresher := Data(uid, epoch)];
      if rehash.Some? {
        HashWritten(cfg, db, uid, rehash.value);
        db := PutUser(db, uid, db.users[uid].(passwordHash := rehash.value));
      }
    }

    method SignOut(sid: Sid)
      modifies this`store
      ensures Value() == Serve(cfg, old(Value()), Logout(sid))
      ensures store == old(store) - {sid}
    {
      store := store - {sid};
    }

    method MyPagePassword(sid: Sid, accepted: bool, hash: nat, fresher: Sid, survives: bool)
      requires Allowed(cfg, Value(), ChangePassword(sid, accepted, hash, fresher, survives))
      modifies this
      ensures Value() == Serve(cfg, old(Value()), ChangePassword(sid, accepted, hash, fresher, survives))
      ensures
        if !SpeaksForSomebody(old(db), old(store), sid) then db == old(db) && store == old(store) - {sid}
        else if !accepted then db == old(db) && store == old(store)
        else forall u :: Speaks(old(db), old(store), sid, u) ==>
          && db == old(db).(users := old(db).users[u := old(db).users[u].(
               passwordHash := hash, sessionEpoch := old(db).users[u].sessionEpoch + 1)])
          && store == (if survives then old(store) else old(store) - {sid})[
               fresher := Data(u, old(db).users[u].sessionEpoch + 1)]
    {
      ChangeOutcome(cfg, Value(), ChangePassword(sid, accepted, hash, fresher, survives));
      var user := CurrentUser(db, store, sid);
      if user.None? {
        store := store - {sid};
        return;
      }
      if !accepted {
        return;
      }
      var uid := user.value;
      var newEpoch := db.users[uid].sessionEpoch + 1;
      PasswordWritten(cfg, db, uid, hash, newEpoch);
      db := PutUser(db, uid, db.users[uid].(passwordHash := hash, sessionEpoch := newEpoch));
      RegenerateSession(sid, fresher, survives);
      store := store[fresher := Data(uid, newEpoch)];
    }
  }
}
