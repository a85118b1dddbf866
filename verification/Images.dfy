/**
 Product images across the database and the upload directory (secure-coding/app/blueprints/products.py,
 admin.py, secure-coding/app/uploads.py), every read, save, write and unlink a step of its own.

 Each name has one owner at a time: the request that saved it, then the product row it was installed
 in, then nobody. From that ownership follows, for every interleaving, that no row names a missing
 file and no two rows share one. What may be left behind in the directory is the subject of Orphans.
 */
module Images {
  import opened Base
  import opened Schema
  import opened Engine

  datatype Job =
    | Create(pid: ProductId, listing: Listing, seller: UserId, upload: bool)
    | Edit(pid: ProductId, listing: Listing, me: UserId, upload: bool)
    | Remove(pid: ProductId, me: UserId, byAdmin: bool)

  datatype Req =
    | Asked(job: Job)
    | Saving(job: Job, seen: Option<FileName>)  // form valid, row read; the image is saved next
    | Writing(job: Job, seen: Option<FileName>, saved: Option<FileName>)
    | Unlinking(seen: Option<FileName>)
    | Over

  /** used: every name ever drawn; retired: names superseded after having been installed. */
  datatype Shop = Shop(
    db: DB, files: set<FileName>, reqs: map<Pid, Req>, used: set<FileName>, retired: set<FileName>)

  datatype Move =
    | Ask(pid: Pid, job: Job)
    | Look(pid: Pid)                     // read the row, check the owner
    | Save(pid: Pid, name: FileName)     // save_image succeeds under a new name
    | SaveFails(pid: Pid)                // UploadError
    | Write(pid: Pid)                    // the INSERT, UPDATE or DELETE
    | WriteFails(pid: Pid)               // it cannot get the lock; the exception ends the request
    | Unlink(pid: Pid)
    | UnlinkFails(pid: Pid)              // OSError, swallowed
    | Others(pid: Pid, txn: Txn)         // any committed unit of work on the rest of the tables

  ghost predicate Installed(db: DB, name: FileName) {
    exists p :: p in db.products && db.products[p].image == Some(name)
  }

  function RowImage(db: DB, pid: ProductId): Option<FileName> {
    if pid in db.products then db.products[pid].image else None
  }

  /** The image_path a handler reads before it edits or deletes. */
  function Read(db: DB, job: Job): Option<FileName> {
    if job.Create? then None else RowImage(db, job.pid)
  }

  function WriteStmt(job: Job, saved: Option<FileName>): Stmt {
    match job
    case Create(pid, listing, seller, _) => InsertProduct(pid, listing, saved, seller)
    case Edit(pid, listing, _, _) => UpdateProduct(pid, listing, saved)
    case Remove(pid, _, _) => DeleteProduct(pid)
  }

  predicate Uploads(job: Job) {
    !job.Remove? && job.upload
  }

  /** delete_image follows a replaced image and a deleted row. */
  predicate UnlinksAfter(job: Job, saved: Option<FileName>) {
    job.Remove? || (job.Edit? && saved.Some?)
  }

  /** The image an edit or deletion supersedes when it is written. */
  function Superseded(db: DB, job: Job, saved: Option<FileName>): set<FileName> {
    if UnlinksAfter(job, saved) && RowImage(db, job.pid).Some? then {RowImage(db, job.pid).value} else {}
  }

  predicate Permitted(db: DB, job: Job) {
    match job
    case Create(_, _, _, _) => true
    case Edit(pid, _, me, _) => pid in db.products && db.products[pid].seller == me
    case Remove(pid, me, byAdmin) => pid in db.products && (byAdmin || db.products[pid].seller == me)
  }

  predicate Priced(job: Job) {
    job.Remove? || job.listing.price >= 0
  }

  ghost predicate Possible(cfg: Config, s: Shop, m: Move) {
    match m
    case Ask(pid, job) => pid !in s.reqs && Priced(job)
    case Others(_, txn) =>
      Admissible(cfg, s.db, txn) && (txn.Auto? ==> !AreaOf(txn.stmt).Catalog?)
    case _ =>
      m.pid in s.reqs &&
      var r := s.reqs[m.pid];
      match m
      case Look(_) => r.Asked?
      case Save(_, name) => r.Saving? && Uploads(r.job) && name !in s.used
      case SaveFails(_) => r.Saving? && Uploads(r.job)
      case Write(_) => r.Writing?
      case WriteFails(_) => r.Writing?
      case _ => r.Unlinking?
  }

  ghost function SetReq(s: Shop, pid: Pid, r: Req): Shop {
    s.(reqs := s.reqs[pid := r])
  }

  ghost function After(cfg: Config, s: Shop, m: Move): Shop
    requires Possible(cfg, s, m)
  {
    match m
    case Ask(pid, job) => SetReq(s, pid, Asked(job))
    case Look(pid) =>
      var job := s.reqs[pid].job;
      SetReq(s, pid,
             if !Permitted(s.db, job) then Over
             else if Uploads(job) then Saving(job, Read(s.db, job))
             else Writing(job, Read(s.db, job), None))
    case Save(pid, name) =>
      SetReq(s, pid, Writing(s.reqs[pid].job, s.reqs[pid].seen, Some(name)))
        .(files := s.files + {name}, used := s.used + {name})
    case SaveFails(pid) => SetReq(s, pid, Over)
    case Write(pid) =>
      var r := s.reqs[pid];
      var (db, outcome) := Alone(cfg, s.db, Auto(WriteStmt(r.job, r.saved)));
      if outcome != Committed then SetReq(s, pid, Over)
      else
        SetReq(s, pid, if UnlinksAfter(r.job, r.saved) then Unlinking(r.seen) else Over)
          .(db := db, retired := s.retired + Superseded(s.db, r.job, r.saved))
    case WriteFails(pid) => SetReq(s, pid, Over)
    case Unlink(pid) =>
      var seen := s.reqs[pid].seen;
      SetReq(s, pid, Over).(files := if seen.Some? then s.files - {seen.value} else s.files)
    case UnlinkFails(pid) => SetReq(s, pid, Over)
    case Others(pid, txn) => s.(db := Alone(cfg, s.db, txn).0)
  }

  ghost predicate Happens(cfg: Config, s: Shop, moves: seq<Move>, t: Shop)
    decreases |moves|
  {
    if moves == [] then s == t
    else
      Possible(cfg, s, moves[0]) && Happens(cfg, After(cfg, s, moves[0]), moves[1..], t)
  }

  const OPENING := Shop(EMPTY_DB, {}, map[], {}, {})

  // ------------------------------------------------------------------------------ ownership

  /** The name a request has saved and not yet installed. */
  function Held(r: Req): Option<FileName> {
    if r.Writing? then r.saved else None
  }

  /** Every named file exists, and no two rows name the same one. */
  ghost predicate RowsNameFiles(db: DB, files: set<FileName>) {
    && (forall p :: p in db.products && db.products[p].image.Some? ==> db.products[p].image.value in files)
    && (forall p, q :: p in db.products && q in db.products && p != q && db.products[p].image.Some? ==>
         db.products[p].image != db.products[q].image)
  }

  /** Installed names exist, were drawn, are not retired, and are one row's alone. */
  ghost predicate RowsOk(s: Shop) {
    && RowsNameFiles(s.db, s.files)
    && (forall p :: p in s.db.products && s.db.products[p].image.Some? ==>
         var n := s.db.products[p].image.value; n in s.used && n !in s.retired)
    && (forall p :: p in s.db.products ==> p in s.db.history.sellers)
    && s.retired <= s.used
  }

  /** A saved name is on disk, in no row, never retired, and no other request's. */
  ghost predicate HeldOk(s: Shop, pid: Pid) {
    pid in s.reqs && Held(s.reqs[pid]).Some? ==>
      var n := Held(s.reqs[pid]).value;
      && n in s.files && n in s.used && n !in s.retired
      && (forall p :: p in s.db.products ==> s.db.products[p].image != Some(n))
      && (forall q :: q in s.reqs && q != pid ==> Held(s.reqs[q]) != Some(n))
  }

  /** What a request has read is either still in that row or retired; what it unlinks is retired. */
  ghost predicate ReadOk(s: Shop, r: Req) {
    match r
    case Saving(job, seen) => StillOrRetired(s, job, seen) && Priced(job)
    case Writing(job, seen, saved) => StillOrRetired(s, job, seen) && Priced(job) && (saved.Some? ==> Uploads(job))
    case Unlinking(seen) => seen.Some? ==> seen.value in s.retired
    case Asked(job) => Priced(job)
    case Over => true
  }

  ghost predicate StillOrRetired(s: Shop, job: Job, seen: Option<FileName>) {
    seen.Some? ==> !job.Create? && (seen.value in s.retired || RowImage(s.db, job.pid) == seen)
  }

  ghost predicate Owned(s: Shop) {
    && RowsOk(s)
    && (forall pid :: HeldOk(s, pid))
    && (forall pid :: pid in s.reqs ==> ReadOk(s, s.reqs[pid]))
  }

  /** The catalogue as an INSERT, UPDATE or DELETE leaves it. */
  lemma {:induction false} WriteMeaning(cfg: Config, db: DB, job: Job, saved: Option<FileName>)
    requires Priced(job)
    ensures var (db', outcome) := Alone(cfg, db, Auto(WriteStmt(job, saved)));
      outcome == Committed ==>
        && (forall p :: p in db'.products <==>
             (p in db.products && !(job.Remove? && p == job.pid)) || (job.Create? && p == job.pid))
        && (forall p :: p in db'.products && p != job.pid ==> db'.products[p] == db.products[p])
        && (job.Create? ==> job.pid !in db.history.sellers && db'.products[job.pid].image == saved)
        && (job.Edit? && job.pid in db.products ==>
             db'.products[job.pid].image == if saved.Some? then saved else db.products[job.pid].image)
        && (forall p :: p in db'.history.sellers <==> p in db.history.sellers || (job.Create? && p == job.pid))
  {
    AutoMeaning(cfg, db, WriteStmt(job, saved));
  }

  predicate SameImages(db: DB, db': DB) {
    && db'.products.Keys == db.products.Keys
    && (forall p :: p in db.products ==> db'.products[p].image == db.products[p].image)
    && db'.history.sellers == db.history.sellers
  }

  lemma {:induction false} OthersSameImages(cfg: Config, db: DB, txn: Txn)
    requires Admissible(cfg, db, txn) && (txn.Auto? ==> !AreaOf(txn.stmt).Catalog?)
    ensures SameImages(db, Alone(cfg, db, txn).0)
  {
    match txn
    case Pay(s, r, a) => PayFrame(cfg, db, s, r, a);
    case FileReport(me, target) =>
      ReportMeaning(cfg, db, me, target);
      if Exists(db, target) {
        ReportSameImages(cfg, db, me, target);
      }
    case Auto(stmt) => AutoSameImages(cfg, db, stmt);
  }

  lemma {:induction false} ReportSameImages(cfg: Config, db: DB, me: UserId, target: Target)
    requires Exists(db, target)
    ensures SameImages(db, Reported(cfg, db, me, target))
  {
  }

  lemma {:induction false} AutoSameImages(cfg: Config, db: DB, stmt: Stmt)
    requires AreaOf(stmt).Accounts? || AreaOf(stmt).Resets?
    ensures SameImages(db, Alone(cfg, db, Auto(stmt)).0)
  {
    AutoMeaning(cfg, db, stmt);
  }

  lemma {:induction false} SaveKeeps(cfg: Config, s: Shop, m: Move)
    requires Owned(s) && m.Save? && Possible(cfg, s, m)
    ensures Owned(After(cfg, s, m))
  {
    assert ReadOk(s, s.reqs[m.pid]);
    assert forall q :: q in s.reqs && Held(s.reqs[q]).Some? ==> HeldOk(s, q) && Held(s.reqs[q]).value in s.used;
    forall pid
      ensures HeldOk(After(cfg, s, m), pid)
    {
      assert HeldOk(s, pid);
    }
  }

  lemma {:induction false} UnlinkKeeps(cfg: Config, s: Shop, m: Move)
    requires Owned(s) && m.Unlink? && Possible(cfg, s, m)
    ensures Owned(After(cfg, s, m))
  {
    assert ReadOk(s, s.reqs[m.pid]);
    forall pid
      ensures HeldOk(After(cfg, s, m), pid)
    {
      assert HeldOk(s, pid);
    }
  }

  lemma {:induction false} PlainKeeps(cfg: Config, s: Shop, m: Move)
    requires Owned(s) && Possible(cfg, s, m)
    requires m.Ask? || m.Look? || m.SaveFails? || m.WriteFails? || m.UnlinkFails?
    ensures Owned(After(cfg, s, m))
  {
    assert m.pid in s.reqs ==> ReadOk(s, s.reqs[m.pid]);
    forall pid
      ensures HeldOk(After(cfg, s, m), pid)
    {
      assert HeldOk(s, pid);
    }
  }

  lemma {:induction false} OthersKeep(cfg: Config, s: Shop, m: Move)
    requires Owned(s) && m.Others? && Possible(cfg, s, m)
    ensures Owned(After(cfg, s, m))
  {
    OthersSameImages(cfg, s.db, m.txn);
    forall pid
      ensures HeldOk(After(cfg, s, m), pid)
    {
      assert HeldOk(s, pid);
    }
    forall pid | pid in s.reqs
      ensures ReadOk(After(cfg, s, m), s.reqs[pid])
    {
      assert ReadOk(s, s.reqs[pid]);
    }
  }

  lemma {:induction false} WriteKeepsRows(cfg: Config, s: Shop, m: Move)
    requires Owned(s) && m.Write? && Possible(cfg, s, m)
    ensures RowsOk(After(cfg, s, m))
  {
    var r := s.reqs[m.pid];
    assert ReadOk(s, r) && HeldOk(s, m.pid);
    WriteMeaning(cfg, s.db, r.job, r.saved);
  }

  lemma {:induction false} WriteKeepsHeld(cfg: Config, s: Shop, m: Move, pid: Pid)
    requires Owned(s) && m.Write? && Possible(cfg, s, m)
    ensures HeldOk(After(cfg, s, m), pid)
  {
    var r := s.reqs[m.pid];
    assert ReadOk(s, r) && HeldOk(s, m.pid) && HeldOk(s, pid);
    WriteMeaning(cfg, s.db, r.job, r.saved);
  }

  lemma {:induction false} WriteKeepsRead(cfg: Config, s: Shop, m: Move, pid: Pid)
    requires Owned(s) && m.Write? && Possible(cfg, s, m) && pid in s.reqs
    ensures ReadOk(After(cfg, s, m), After(cfg, s, m).reqs[pid])
  {
    var r := s.reqs[m.pid];
    assert ReadOk(s, r) && ReadOk(s, s.reqs[pid]);
    WriteMeaning(cfg, s.db, r.job, r.saved);
  }

  lemma {:induction false} MoveKeeps(cfg: Config, s: Shop, m: Move)
    requires Owned(s) && Possible(cfg, s, m)
    ensures Owned(After(cfg, s, m))
  {
    match m
    case Save(_, _) => SaveKeeps(cfg, s, m);
    case Unlink(_) => UnlinkKeeps(cfg, s, m);
    case Others(_, _) => OthersKeep(cfg, s, m);
    case Write(_) =>
      WriteKeepsRows(cfg, s, m);
      forall pid
        ensures HeldOk(After(cfg, s, m), pid)
      {
        WriteKeepsHeld(cfg, s, m, pid);
      }
      forall pid | pid in After(cfg, s, m).reqs
        ensures ReadOk(After(cfg, s, m), After(cfg, s, m).reqs[pid])
      {
        WriteKeepsRead(cfg, s, m, pid);
      }
    case _ => PlainKeeps(cfg, s, m);
  }

  lemma {:induction false} HappensKeeps(cfg: Config, s: Shop, moves: seq<Move>, t: Shop)
    requires Owned(s) && Happens(cfg, s, moves, t)
    ensures Owned(t)
    decreases |moves|
  {
    if moves != [] {
      MoveKeeps(cfg, s, moves[0]);
      HappensKeeps(cfg, After(cfg, s, moves[0]), moves[1..], t);
    }
  }

  lemma {:induction false} OpeningOwned()
    ensures Owned(OPENING)
  {
  }

  /**
   No dangling image and no shared one, in any state of any interleaving: what a row names is in
   the upload directory, and no two rows name the same file.
   */
  lemma {:induction false} NoDanglingImage(cfg: Config, moves: seq<Move>, t: Shop)
    requires Happens(cfg, OPENING, moves, t)
    ensures RowsNameFiles(t.db, t.files)
  {
    OpeningOwned();
    HappensKeeps(cfg, OPENING, moves, t);
  }

  /** A file disappears only once the write that installed it has been superseded. */
  lemma {:induction false} UnlinkedAfterSuperseded(cfg: Config, moves: seq<Move>, s: Shop, m: Move, name: FileName)
    requires Happens(cfg, OPENING, moves, s) && Possible(cfg, s, m)
    requires name in s.files && name !in After(cfg, s, m).files
    ensures m.Unlink? && name in s.retired && !Installed(s.db, name)
  {
    OpeningOwned();
    HappensKeeps(cfg, OPENING, moves, s);
    assert ReadOk(s, s.reqs[m.pid]);
  }

  /** A name nobody can install any more: drawn before, in no row, held by no request. */
  ghost predicate Spent(s: Shop, name: FileName) {
    && name in s.used
    && !Installed(s.db, name)
    && (forall pid :: pid in s.reqs ==> Held(s.reqs[pid]) != Some(name))
  }

  lemma {:induction false} StaysSpent(cfg: Config, s: Shop, m: Move, name: FileName)
    requires Owned(s) && Possible(cfg, s, m) && Spent(s, name)
    ensures Spent(After(cfg, s, m), name)
  {
    if m.Others? {
      OthersSameImages(cfg, s.db, m.txn);
    } else if m.Write? {
      assert ReadOk(s, s.reqs[m.pid]);
      WriteMeaning(cfg, s.db, s.reqs[m.pid].job, s.reqs[m.pid].saved);
    }
  }

  lemma {:induction false} RetiredIsSpent(s: Shop, name: FileName)
    requires Owned(s) && name in s.retired
    ensures Spent(s, name)
  {
    forall pid | pid in s.reqs
      ensures Held(s.reqs[pid]) != Some(name)
    {
      assert HeldOk(s, pid);
    }
  }

  /** A superseded name, like a saved one whose request failed, is never installed again. */
  lemma {:induction false} NeverReinstalled(cfg: Config, s: Shop, moves: seq<Move>, t: Shop, name: FileName)
    requires Owned(s) && Happens(cfg, s, moves, t)
    requires name in s.retired || Spent(s, name)
    ensures Spent(t, name) && !Installed(t.db, name)
    decreases |moves|
  {
    if name in s.retired {
      RetiredIsSpent(s, name);
    }
    if moves != [] {
      MoveKeeps(cfg, s, moves[0]);
      StaysSpent(cfg, s, moves[0], name);
      NeverReinstalled(cfg, After(cfg, s, moves[0]), moves[1..], t, name);
    }
  }

  // -------------------------------------------------------------------------------- who may write

  lemma {:induction false} MoveGrows(cfg: Config, s: Shop, m: Move)
    requires Listed(s.db) && Possible(cfg, s, m)
    ensures Listed(After(cfg, s, m).db) && Grows(s.db, After(cfg, s, m).db)
  {
    if m.Others? {
      AloneGrows(cfg, s.db, m.txn);
    } else if m.Write? {
      AloneGrows(cfg, s.db, Auto(WriteStmt(s.reqs[m.pid].job, s.reqs[m.pid].saved)));
    }
  }

  /** An edit past its checks, like a deletion that is not an admin's, is the work of the product's seller. */
  predicate OwnerOk(db: DB, r: Req) {
    r.Saving? || r.Writing? ==>
      match r.job
      case Create(_, _, _, _) => true
      case Edit(pid, _, me, _) => pid in db.history.sellers && db.history.sellers[pid] == me
      case Remove(pid, me, byAdmin) => byAdmin || (pid in db.history.sellers && db.history.sellers[pid] == me)
  }

  lemma {:induction false} MoveOwned(cfg: Config, s: Shop, m: Move)
    requires Listed(s.db) && Possible(cfg, s, m)
    requires forall a :: a in s.reqs ==> OwnerOk(s.db, s.reqs[a])
    ensures forall a :: a in After(cfg, s, m).reqs ==> OwnerOk(After(cfg, s, m).db, After(cfg, s, m).reqs[a])
  {
    MoveGrows(cfg, s, m);
    var t := After(cfg, s, m);
    forall a | a in t.reqs
      ensures OwnerOk(t.db, t.reqs[a])
    {
      assert a in s.reqs ==> OwnerOk(s.db, s.reqs[a]);
    }
  }

  /** In every state of every interleaving, whatever has been written since the check. */
  lemma {:induction false} OwnersOnly(cfg: Config, s: Shop, moves: seq<Move>, t: Shop, a: Pid)
    requires Listed(s.db) && (forall q :: q in s.reqs ==> OwnerOk(s.db, s.reqs[q]))
    requires Happens(cfg, s, moves, t) && a in t.reqs && (t.reqs[a].Saving? || t.reqs[a].Writing?)
    ensures t.reqs[a].job.Edit? ==>
      t.reqs[a].job.pid in t.db.history.sellers && t.db.history.sellers[t.reqs[a].job.pid] == t.reqs[a].job.me
    ensures t.reqs[a].job.Remove? && !t.reqs[a].job.byAdmin ==>
      t.reqs[a].job.pid in t.db.history.sellers && t.db.history.sellers[t.reqs[a].job.pid] == t.reqs[a].job.me
    decreases |moves|
  {
    if moves != [] {
      MoveGrows(cfg, s, moves[0]);
      MoveOwned(cfg, s, moves[0]);
      OwnersOnly(cfg, After(cfg, s, moves[0]), moves[1..], t, a);
    }
  }

  // ----------------------------------------------------------------------- one request, undisturbed

  /** Files no row names. */
  ghost function Strays(db: DB, files: set<FileName>): set<FileName> {
    set n | n in files && !Installed(db, n)
  }

  /** image: the new name of the uploaded image, None if it is not acceptable. */
  predicate PassesChecks(db: DB, job: Job, image: Option<FileName>) {
    Permitted(db, job) && (Uploads(job) ==> image.Some?)
  }

  function SavedName(job: Job, image: Option<FileName>): Option<FileName> {
    if Uploads(job) then image else None
  }

  /** What a request with the tables and the directory to itself makes of them. */
  function Effect(
      cfg: Config, db: DB, files: set<FileName>, job: Job, image: Option<FileName>, lockFree: bool)
    : (DB, set<FileName>)
  {
    if !PassesChecks(db, job, image) then (db, files)
    else
      var saved, seen := SavedName(job, image), Read(db, job);
      var stored := if saved.Some? then files + {saved.value} else files;
      if !lockFree then (db, stored)
      else
        var (db', outcome) := Alone(cfg, db, Auto(WriteStmt(job, saved)));
        (db', if outcome == Committed && UnlinksAfter(job, saved) && seen.Some? then stored - {seen.value} else stored)
  }

  /** The moves of a alone. */
  predicate MovesOf(a: Pid, moves: seq<Move>) {
    forall m :: m in moves ==> m.pid == a && !m.Others?
  }

  lemma {:induction false} HappensOn(cfg: Config, s: Shop, m: Move, rest: seq<Move>, t: Shop)
    requires Possible(cfg, s, m) && Happens(cfg, After(cfg, s, m), rest, t)
    ensures Happens(cfg, s, [m] + rest, t)
  {
    assert ([m] + rest)[1..] == rest;
  }

  lemma {:induction false} HappensThen(cfg: Config, s: Shop, first: seq<Move>, t: Shop, second: seq<Move>, u: Shop)
    requires Happens(cfg, s, first, t) && Happens(cfg, t, second, u)
    ensures Happens(cfg, s, first + second, u)
    decreases |first|
  {
    if first == [] {
      assert first + second == second;
    } else {
      HappensThen(cfg, After(cfg, s, first[0]), first[1..], t, second, u);
      assert (first + second)[1..] == first[1..] + second;
    }
  }

  /** From its write on, a request comes to its end with the effect it has alone. */
  lemma {:induction false} WriteServed(cfg: Config, s: Shop, a: Pid, lockFree: bool) returns (moves: seq<Move>, t: Shop)
    requires a in s.reqs && s.reqs[a].Writing? && s.reqs[a].seen == Read(s.db, s.reqs[a].job)
    ensures Happens(cfg, s, moves, t) && MovesOf(a, moves)
    ensures t.reqs == s.reqs[a := Over] && t.used == s.used
    ensures var r := s.reqs[a];
      var (db, outcome) := Alone(cfg, s.db, Auto(WriteStmt(r.job, r.saved)));
      if !lockFree then t.db == s.db && t.files == s.files
      else
        && t.db == db
        && t.files == if outcome == Committed && UnlinksAfter(r.job, r.saved) && r.seen.Some?
                      then s.files - {r.seen.value} else s.files
  {
    var m := if lockFree then Write(a) else WriteFails(a);
    var u := After(cfg, s, m);
    if u.reqs[a].Unlinking? {
      t := After(cfg, u, Unlink(a));
      HappensOn(cfg, u, Unlink(a), [], t);
      HappensOn(cfg, s, m, [Unlink(a)], t);
      moves := [m] + [Unlink(a)];
    } else {
      t := u;
      HappensOn(cfg, s, m, [], t);
      moves := [m] + [];
    }
    assert t.reqs == s.reqs[a := Over];
  }

  /** The same from the point where the form is valid and the row has been read. */
  lemma {:induction false} LookedServed(cfg: Config, s: Shop, a: Pid, image: Option<FileName>, lockFree: bool)
    returns (moves: seq<Move>, t: Shop)
    requires a in s.reqs && (s.reqs[a].Saving? || s.reqs[a].Writing?)
    requires var job := s.reqs[a].job;
      Permitted(s.db, job) && s.reqs[a].seen == Read(s.db, job) && (image.Some? ==> image.value !in s.used)
      && s.reqs[a] == if Uploads(job) then Saving(job, s.reqs[a].seen) else Writing(job, s.reqs[a].seen, None)
    ensures Happens(cfg, s, moves, t) && MovesOf(a, moves) && t.reqs == s.reqs[a := Over]
    ensures (t.db, t.files) == Effect(cfg, s.db, s.files, s.reqs[a].job, image, lockFree)
  {
    if s.reqs[a].Writing? {
      moves, t := WriteServed(cfg, s, a, lockFree);
    } else if image.None? {
      t := After(cfg, s, SaveFails(a));
      moves := [SaveFails(a)] + [];
      HappensOn(cfg, s, SaveFails(a), [], t);
    } else {
      var u := After(cfg, s, Save(a, image.value));
      var last;
      last, t := WriteServed(cfg, u, a, lockFree);
      moves := [Save(a, image.value)] + last;
      HappensOn(cfg, s, Save(a, image.value), last, t);
      assert t.reqs == s.reqs[a := Over];
    }
  }

  /**
   Effect is what the moves of one request come to, whatever other requests stand still meanwhile:
   the request arrives, looks, saves, writes and unlinks, and is over.
   */
  lemma {:induction false} EffectIsARun(
      cfg: Config, s: Shop, a: Pid, job: Job, image: Option<FileName>, lockFree: bool)
    returns (moves: seq<Move>, t: Shop)
    requires a !in s.reqs && Priced(job) && (image.Some? ==> image.value !in s.used)
    ensures Happens(cfg, s, moves, t) && MovesOf(a, moves) && t.reqs == s.reqs[a := Over]
    ensures (t.db, t.files) == Effect(cfg, s.db, s.files, job, image, lockFree)
  {
    var s1 := After(cfg, s, Ask(a, job));
    var s2 := After(cfg, s1, Look(a));
    var rest: seq<Move>;
    if !Permitted(s.db, job) {
      rest, t := [], s2;
    } else {
      rest, t := LookedServed(cfg, s2, a, image, lockFree);
    }
    HappensOn(cfg, s1, Look(a), rest, t);
    HappensOn(cfg, s, Ask(a, job), [Look(a)] + rest, t);
    moves := [Ask(a, job)] + ([Look(a)] + rest);
    assert t.reqs == s.reqs[a := Over];
  }

  /** The new file is left over exactly if it was saved and the write then failed. */
  predicate Wasted(cfg: Config, db: DB, job: Job, image: Option<FileName>, lockFree: bool) {
    && Uploads(job) && PassesChecks(db, job, image)
    && !(lockFree && Alone(cfg, db, Auto(WriteStmt(job, SavedName(job, image)))).1 == Committed)
  }

  /** Alone, a request keeps rows and files together, and adds no stray file but its own wasted one. */
  lemma {:induction false} EffectStrays(
      cfg: Config, db: DB, files: set<FileName>, job: Job, image: Option<FileName>, lockFree: bool)
    requires Listed(db) && RowsNameFiles(db, files) && Priced(job) && (image.Some? ==> image.value !in files)
    ensures var (db', files') := Effect(cfg, db, files, job, image, lockFree);
      && RowsNameFiles(db', files')
      && Strays(db', files') ==
           if Wasted(cfg, db, job, image, lockFree) then Strays(db, files) + {image.value} else Strays(db, files)
  {
    var (db', files') := Effect(cfg, db, files, job, image, lockFree);
    assert image.Some? ==> !Installed(db, image.value);
    if PassesChecks(db, job, image) && lockFree
       && Alone(cfg, db, Auto(WriteStmt(job, SavedName(job, image)))).1 == Committed {
      WriteMeaning(cfg, db, job, SavedName(job, image));
      WrittenRows(db, files, job, SavedName(job, image), db', files');
    }
  }

  /** Rows and files after the committed write of a job and its unlink. */
  lemma {:induction false} WrittenRows(
      db: DB, files: set<FileName>, job: Job, saved: Option<FileName>, db': DB, files': set<FileName>)
    requires RowsNameFiles(db, files) && (saved.Some? ==> saved.value !in files && !job.Remove?)
    requires !job.Create? ==> job.pid in db.products
    requires job.Create? ==> job.pid !in db.products
    requires forall p :: p in db'.products <==>
      (p in db.products && !(job.Remove? && p == job.pid)) || (job.Create? && p == job.pid)
    requires forall p :: p in db'.products && p != job.pid ==> db'.products[p] == db.products[p]
    requires job.Create? ==> db'.products[job.pid].image == saved
    requires job.Edit? ==>
      db'.products[job.pid].image == if saved.Some? then saved else db.products[job.pid].image
    requires var seen, stored := Read(db, job), if saved.Some? then files + {saved.value} else files;
      files' == if UnlinksAfter(job, saved) && seen.Some? then stored - {seen.value} else stored
    ensures RowsNameFiles(db', files') && Strays(db', files') == Strays(db, files)
  {
    forall n
      ensures n in Strays(db', files') <==> n in Strays(db, files)
    {
      if Installed(db, n) {
        var p :| p in db.products && db.products[p].image == Some(n);
        assert p != job.pid ==> db'.products[p].image == Some(n);
        if p == job.pid && job.Edit? && saved.None? {
          assert db'.products[p].image == Some(n);
        }
      }
      if saved == Some(n) {
        assert db'.products[job.pid].image == Some(n);
      }
    }
  }
}
