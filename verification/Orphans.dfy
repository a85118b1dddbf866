/**
 What is left behind in the upload directory (secure-coding/app/blueprints/products.py, admin.py).

 An edit or a deletion unlinks the image it read before its UPDATE or DELETE, not the one the
 statement supersedes. Main results: exactly when a superseded or a saved file stays for ever; which
 files any run leaves; that requests served one at a time leave none; and a run that leaves one.
 */
module Orphans {
  import opened Base
  import opened Schema
  import opened Engine
  import opened Images

  // ------------------------------------------------------------------ exactly what one write leaves

  /** The image a request under way has read. */
  function SeenBy(r: Req): Option<FileName> {
    if r.Saving? || r.Writing? || r.Unlinking? then r.seen else None
  }

  ghost predicate ReadByNobodyElse(s: Shop, a: Pid, name: FileName) {
    forall q :: q in s.reqs && q != a ==> SeenBy(s.reqs[q]) != Some(name)
  }

  /** On disk, in no row ever again, and no request has it in mind. */
  ghost predicate Forgotten(s: Shop, name: FileName) {
    && name in s.files
    && Spent(s, name)
    && (forall q :: q in s.reqs ==> SeenBy(s.reqs[q]) != Some(name))
  }

  lemma {:induction false} StaysForgotten(cfg: Config, s: Shop, m: Move, name: FileName)
    requires Owned(s) && Possible(cfg, s, m) && Forgotten(s, name)
    ensures Forgotten(After(cfg, s, m), name)
  {
    StaysSpent(cfg, s, m, name);
  }

  lemma {:induction false} ForgottenForGood(cfg: Config, s: Shop, moves: seq<Move>, t: Shop, name: FileName)
    requires Owned(s) && Happens(cfg, s, moves, t) && Forgotten(s, name)
    ensures name in t.files && !Installed(t.db, name)
    decreases |moves|
  {
    if moves != [] {
      MoveKeeps(cfg, s, moves[0]);
      StaysForgotten(cfg, s, moves[0], name);
      ForgottenForGood(cfg, After(cfg, s, moves[0]), moves[1..], t, name);
    }
  }

  /** The file is gone, or request a is about to unlink it. */
  ghost predicate Leaving(s: Shop, a: Pid, name: FileName) {
    && name in s.used && a in s.reqs
    && (name in s.files ==> s.reqs[a] == Unlinking(Some(name)))
  }

  lemma {:induction false} LeavingLeaves(cfg: Config, s: Shop, moves: seq<Move>, t: Shop, a: Pid, name: FileName)
    requires Leaving(s, a, name) && Happens(cfg, s, moves, t) && UnlinkFails(a) !in moves
    ensures Leaving(t, a, name)
    decreases |moves|
  {
    if moves != [] {
      LeavingLeaves(cfg, After(cfg, s, moves[0]), moves[1..], t, a, name);
    }
  }

  /** The moment an edit with a new image, or a deletion, supersedes the image x of its row. */
  ghost predicate Supersedes(s: Shop, a: Pid, x: FileName) {
    && a in s.reqs && s.reqs[a].Writing?
    && UnlinksAfter(s.reqs[a].job, s.reqs[a].saved)
    && RowImage(s.db, s.reqs[a].job.pid) == Some(x)
  }

  lemma {:induction false} SupersededNow(cfg: Config, s: Shop, a: Pid, x: FileName)
    requires Owned(s) && Supersedes(s, a, x)
    ensures var u := After(cfg, s, Write(a));
      && u.reqs == s.reqs[a := Unlinking(s.reqs[a].seen)] && u.files == s.files && u.used == s.used
      && x in u.retired && x in u.files && x in u.used
  {
    var r := s.reqs[a];
    assert ReadOk(s, r);
    AutoMeaning(cfg, s.db, WriteStmt(r.job, r.saved));
  }

  /**
   The exact condition. When a write supersedes x, and no other request has read x, the file goes
   if the request had read x itself and otherwise stays for ever, whatever happens besides.
   */
  lemma {:induction false} SupersededFileGoes(
      cfg: Config, s: Shop, a: Pid, x: FileName, moves: seq<Move>, t: Shop)
    requires Owned(s) && Supersedes(s, a, x) && ReadByNobodyElse(s, a, x)
    requires Happens(cfg, After(cfg, s, Write(a)), moves, t)
    requires a in t.reqs && t.reqs[a].Over? && UnlinkFails(a) !in moves
    ensures x !in t.files <==> s.reqs[a].seen == Some(x)
  {
    var u := After(cfg, s, Write(a));
    SupersededNow(cfg, s, a, x);
    MoveKeeps(cfg, s, Write(a));
    if s.reqs[a].seen == Some(x) {
      LeavingLeaves(cfg, u, moves, t, a, x);
    } else {
      RetiredIsSpent(u, x);
      ForgottenForGood(cfg, u, moves, t, x);
    }
  }

  /** The INSERT finds its seller and a new id; the UPDATE finds its row. */
  predicate Lands(db: DB, job: Job) {
    match job
    case Create(pid, _, seller, _) => pid !in db.history.sellers && seller in db.users
    case Edit(pid, _, _, _) => pid in db.products
    case Remove(_, _, _) => false
  }

  lemma {:induction false} SavedNow(cfg: Config, s: Shop, m: Move, n: FileName)
    requires Owned(s) && (m.Write? || m.WriteFails?) && Possible(cfg, s, m)
    requires s.reqs[m.pid].saved == Some(n)
    ensures Installed(After(cfg, s, m).db, n) <==> m.Write? && Lands(s.db, s.reqs[m.pid].job)
    ensures n in After(cfg, s, m).files && Held(After(cfg, s, m).reqs[m.pid]).None?
  {
    var r := s.reqs[m.pid];
    assert ReadOk(s, r) && HeldOk(s, m.pid);
    AutoMeaning(cfg, s.db, WriteStmt(r.job, r.saved));
    if m.Write? && Lands(s.db, r.job) {
      assert After(cfg, s, m).db.products[r.job.pid].image == Some(n);
    }
  }

  lemma {:induction false} ReadOnceInstalled(s: Shop, q: Pid, n: FileName)
    requires Owned(s) && q in s.reqs && SeenBy(s.reqs[q]) == Some(n)
    ensures n in s.retired || Installed(s.db, n)
  {
    assert ReadOk(s, s.reqs[q]);
  }

  lemma {:induction false} StrandedNow(cfg: Config, s: Shop, m: Move, n: FileName)
    requires Owned(s) && (m.Write? || m.WriteFails?) && Possible(cfg, s, m)
    requires s.reqs[m.pid].saved == Some(n) && !Installed(After(cfg, s, m).db, n)
    ensures Forgotten(After(cfg, s, m), n)
  {
    var u := After(cfg, s, m);
    SavedNow(cfg, s, m, n);
    assert HeldOk(s, m.pid);
    forall q | q in u.reqs
      ensures SeenBy(u.reqs[q]) != Some(n) && Held(u.reqs[q]) != Some(n)
    {
      if SeenBy(s.reqs[q]) == Some(n) {
        ReadOnceInstalled(s, q, n);
      }
    }
  }

  /**
   A saved image is installed exactly if its INSERT or UPDATE is carried out and finds what it needs;
   otherwise its file stays, named by no row, in every continuation.
   */
  lemma {:induction false} SavedFileStays(
      cfg: Config, s: Shop, m: Move, n: FileName, moves: seq<Move>, t: Shop)
    requires Owned(s) && (m.Write? || m.WriteFails?) && Possible(cfg, s, m)
    requires s.reqs[m.pid].saved == Some(n)
    requires Happens(cfg, After(cfg, s, m), moves, t)
    ensures Installed(After(cfg, s, m).db, n) <==> m.Write? && Lands(s.db, s.reqs[m.pid].job)
    ensures !(m.Write? && Lands(s.db, s.reqs[m.pid].job)) ==> n in t.files && !Installed(t.db, n)
  {
    SavedNow(cfg, s, m, n);
    if !Installed(After(cfg, s, m).db, n) {
      MoveKeeps(cfg, s, m);
      StrandedNow(cfg, s, m, n);
      ForgottenForGood(cfg, After(cfg, s, m), moves, t, n);
    }
  }

  // -------------------------------------------------------------------- exactly what a run leaves

  ghost predicate AllOver(s: Shop) {
    forall pid :: pid in s.reqs ==> s.reqs[pid].Over?
  }

  /** The directory holds exactly the files the rows name. */
  ghost predicate DirectoryExact(s: Shop) {
    forall n :: n in s.files <==> Installed(s.db, n)
  }

  /** The name a move commits its request to unlinking: what an edit or deletion that goes through had read. */
  ghost function Claim(cfg: Config, s: Shop, m: Move): set<FileName>
    requires Possible(cfg, s, m)
  {
    if !m.Write? then {} else
    var r := s.reqs[m.pid];
    if UnlinksAfter(r.job, r.saved) && r.seen.Some?
       && Alone(cfg, s.db, Auto(WriteStmt(r.job, r.saved))).1 == Committed
    then {r.seen.value} else {}
  }

  /** Everything the edits and deletions that go through had read. */
  ghost function Claims(cfg: Config, s: Shop, moves: seq<Move>, t: Shop): set<FileName>
    requires Happens(cfg, s, moves, t)
    decreases |moves|
  {
    if moves == [] then {}
    else Claim(cfg, s, moves[0]) + Claims(cfg, After(cfg, s, moves[0]), moves[1..], t)
  }

  /** The name an unlink is carried out for, or fails for. */
  ghost function Ended(s: Shop, m: Move, failed: bool): set<FileName> {
    if (if failed then m.UnlinkFails? else m.Unlink?) && m.pid in s.reqs && s.reqs[m.pid].Unlinking?
       && s.reqs[m.pid].seen.Some?
    then {s.reqs[m.pid].seen.value} else {}
  }

  /** The names of all unlinks of a run that are carried out, or that fail. */
  ghost function AllEnded(cfg: Config, s: Shop, moves: seq<Move>, t: Shop, failed: bool): set<FileName>
    requires Happens(cfg, s, moves, t)
    decreases |moves|
  {
    if moves == [] then {}
    else Ended(s, moves[0], failed) + AllEnded(cfg, After(cfg, s, moves[0]), moves[1..], t, failed)
  }

  /** The unlink of this name is still to come. */
  ghost predicate Due(s: Shop, name: FileName) {
    exists pid :: pid in s.reqs && s.reqs[pid] == Unlinking(Some(name))
  }

  /** Names are on disk unless unlinked; claimed ones have been unlinked, have failed to be, or are due. */
  ghost predicate Booked(s: Shop, claimed: set<FileName>, unlinked: set<FileName>, failed: set<FileName>) {
    && s.files == s.used - unlinked
    && claimed <= s.used && unlinked + failed <= claimed
    && (forall n :: n in claimed ==> n in unlinked || n in failed || Due(s, n))
    && (forall pid :: pid in s.reqs && s.reqs[pid].Unlinking? && s.reqs[pid].seen.Some? ==>
         s.reqs[pid].seen.value in claimed)
  }

  lemma {:induction false} StillDue(cfg: Config, s: Shop, m: Move, name: FileName)
    requires Possible(cfg, s, m) && Due(s, name)
    ensures Due(After(cfg, s, m), name) || name in Ended(s, m, false) + Ended(s, m, true)
  {
    var pid :| pid in s.reqs && s.reqs[pid] == Unlinking(Some(name));
    assert pid in After(cfg, s, m).reqs;
    if After(cfg, s, m).reqs[pid] != s.reqs[pid] {
      assert m.pid == pid;
    }
  }

  lemma {:induction false} ClaimDrawn(cfg: Config, s: Shop, m: Move)
    requires Owned(s) && Possible(cfg, s, m)
    ensures Claim(cfg, s, m) <= s.used
    ensures forall n :: n in Claim(cfg, s, m) ==> Due(After(cfg, s, m), n)
  {
    if m.Write? {
      assert ReadOk(s, s.reqs[m.pid]);
      assert forall n :: n in Claim(cfg, s, m) ==> After(cfg, s, m).reqs[m.pid] == Unlinking(Some(n));
    }
  }

  lemma {:induction false} MoveBooks(
      cfg: Config, s: Shop, m: Move, claimed: set<FileName>, unlinked: set<FileName>, failed: set<FileName>)
    requires Owned(s) && Possible(cfg, s, m) && Booked(s, claimed, unlinked, failed)
    ensures Booked(After(cfg, s, m), claimed + Claim(cfg, s, m),
                   unlinked + Ended(s, m, false), failed + Ended(s, m, true))
  {
    var u := After(cfg, s, m);
    ClaimDrawn(cfg, s, m);
    MoveFiles(cfg, s, m, unlinked);
    forall n | n in claimed + Claim(cfg, s, m)
      ensures n in unlinked + Ended(s, m, false) || n in failed + Ended(s, m, true) || Due(u, n)
    {
      if n in claimed && n !in unlinked && n !in failed {
        StillDue(cfg, s, m, n);
      }
    }
  }

  lemma {:induction false} MoveFiles(cfg: Config, s: Shop, m: Move, unlinked: set<FileName>)
    requires Possible(cfg, s, m) && s.files == s.used - unlinked && unlinked <= s.used
    ensures After(cfg, s, m).files == After(cfg, s, m).used - (unlinked + Ended(s, m, false))
  {
  }

  lemma {:induction false} RunBooks(
      cfg: Config, s: Shop, moves: seq<Move>, t: Shop,
      claimed: set<FileName>, unlinked: set<FileName>, failed: set<FileName>)
    requires Owned(s) && Happens(cfg, s, moves, t) && Booked(s, claimed, unlinked, failed)
    ensures Owned(t)
    ensures Booked(t, claimed + Claims(cfg, s, moves, t), unlinked + AllEnded(cfg, s, moves, t, false),
                   failed + AllEnded(cfg, s, moves, t, true))
    decreases |moves|
  {
    if moves == [] {
      assert claimed + {} == claimed && unlinked + {} == unlinked && failed + {} == failed;
    } else {
      var m, u := moves[0], After(cfg, s, moves[0]);
      MoveKeeps(cfg, s, m);
      MoveBooks(cfg, s, m, claimed, unlinked, failed);
      RunBooks(cfg, u, moves[1..], t,
               claimed + Claim(cfg, s, m), unlinked + Ended(s, m, false), failed + Ended(s, m, true));
      Regrouped(claimed, Claim(cfg, s, m), Claims(cfg, u, moves[1..], t));
      Regrouped(unlinked, Ended(s, m, false), AllEnded(cfg, u, moves[1..], t, false));
      Regrouped(failed, Ended(s, m, true), AllEnded(cfg, u, moves[1..], t, true));
    }
  }

  lemma {:induction false} Regrouped(a: set<FileName>, b: set<FileName>, c: set<FileName>)
    ensures a + (b + c) == a + b + c
  {
  }

  /**
   What any run leaves: of all the files ever saved, exactly those without an unlink that was carried out.
   Once no request is under way, the unlinks, carried out or failed, are those of exactly the names that
   edits and deletions that went through had read. So the directory is exact if and only if every saved name
   without a row has been read by such a request whose unlink was then carried out.
   */
  lemma {:induction false} LeftBehindExactly(cfg: Config, moves: seq<Move>, t: Shop)
    requires Happens(cfg, OPENING, moves, t)
    ensures t.files == t.used - AllEnded(cfg, OPENING, moves, t, false)
    ensures AllOver(t) ==>
      AllEnded(cfg, OPENING, moves, t, false) + AllEnded(cfg, OPENING, moves, t, true) == Claims(cfg, OPENING, moves, t)
    ensures DirectoryExact(t) <==>
      forall n :: n in t.used && !Installed(t.db, n) ==> n in AllEnded(cfg, OPENING, moves, t, false)
  {
    OpeningOwned();
    RunBooks(cfg, OPENING, moves, t, {}, {}, {});
    assert {} + Claims(cfg, OPENING, moves, t) == Claims(cfg, OPENING, moves, t);
    assert {} + AllEnded(cfg, OPENING, moves, t, false) == AllEnded(cfg, OPENING, moves, t, false);
    assert {} + AllEnded(cfg, OPENING, moves, t, true) == AllEnded(cfg, OPENING, moves, t, true);
  }

  lemma {:induction false} NoneFailed(cfg: Config, s: Shop, moves: seq<Move>, t: Shop)
    requires Happens(cfg, s, moves, t) && forall m :: m in moves ==> !m.UnlinkFails?
    ensures AllEnded(cfg, s, moves, t, true) == {}
    decreases |moves|
  {
    if moves != [] {
      NoneFailed(cfg, After(cfg, s, moves[0]), moves[1..], t);
    }
  }

  /** No unlink having failed, that is: all saved files but those an edit or deletion that went through had read. */
  lemma {:induction false} LeftBehindUnclaimed(cfg: Config, moves: seq<Move>, t: Shop)
    requires Happens(cfg, OPENING, moves, t) && AllOver(t)
    requires forall m :: m in moves ==> !m.UnlinkFails?
    ensures t.files == t.used - Claims(cfg, OPENING, moves, t)
    ensures DirectoryExact(t) <==>
      forall n :: n in t.used && !Installed(t.db, n) ==> n in Claims(cfg, OPENING, moves, t)
  {
    LeftBehindExactly(cfg, moves, t);
    NoneFailed(cfg, OPENING, moves, t);
  }

  // ----------------------------------------------------------------------------------- tidy moves

  /**
   A move that cannot leave a file behind: a saved image gets into its row, what a write supersedes
   is what its request had read, and a removal that is due takes place.
   */
  ghost predicate Tidy(cfg: Config, s: Shop, m: Move)
    requires Possible(cfg, s, m)
  {
    match m
    case Write(pid) =>
      var r := s.reqs[pid];
      && (r.saved.Some? ==>
           Alone(cfg, s.db, Auto(WriteStmt(r.job, r.saved))).1 == Committed
           && (r.job.Create? || r.job.pid in s.db.products))
      && (forall n :: n in Superseded(s.db, r.job, r.saved) ==> r.seen == Some(n))
    case WriteFails(pid) => s.reqs[pid].saved.None?
    case UnlinkFails(pid) => s.reqs[pid].seen.None? || s.reqs[pid].seen.value !in s.files
    case _ => true
  }

  ghost predicate AllTidy(cfg: Config, s: Shop, moves: seq<Move>)
    decreases |moves|
  {
    moves == [] || (Possible(cfg, s, moves[0]) && Tidy(cfg, s, moves[0])
                    && AllTidy(cfg, After(cfg, s, moves[0]), moves[1..]))
  }

  /** A request still has this file to install or to remove. */
  ghost predicate Pending(s: Shop, name: FileName) {
    exists pid :: pid in s.reqs && (Held(s.reqs[pid]) == Some(name) || s.reqs[pid] == Unlinking(Some(name)))
  }

  ghost predicate Accounted(s: Shop) {
    forall n :: n in s.files ==> Installed(s.db, n) || Pending(s, n)
  }

  lemma {:induction false} StillPending(s: Shop, t: Shop, pid: Pid, name: FileName)
    requires Pending(s, name)
    requires forall q :: q in s.reqs && q != pid ==> q in t.reqs && t.reqs[q] == s.reqs[q]
    requires pid in s.reqs ==> Held(s.reqs[pid]) != Some(name) && s.reqs[pid] != Unlinking(Some(name))
    ensures Pending(t, name)
  {
    var q :| q in s.reqs && (Held(s.reqs[q]) == Some(name) || s.reqs[q] == Unlinking(Some(name)));
    assert q in t.reqs && t.reqs[q] == s.reqs[q];
  }

  lemma {:induction false} WriteAccounts(cfg: Config, s: Shop, m: Move, n: FileName)
    requires Owned(s) && Accounted(s) && Possible(cfg, s, m) && Tidy(cfg, s, m) && m.Write?
    requires n in s.files
    ensures Installed(After(cfg, s, m).db, n) || Pending(After(cfg, s, m), n)
  {
    var t := After(cfg, s, m);
    var r := s.reqs[m.pid];
    assert ReadOk(s, r);
    WriteMeaning(cfg, s.db, r.job, r.saved);
    assert t.db == s.db || Alone(cfg, s.db, Auto(WriteStmt(r.job, r.saved))).1 == Committed;
    if Installed(s.db, n) {
      var p :| p in s.db.products && s.db.products[p].image == Some(n);
      if p in t.db.products && t.db.products[p].image == Some(n) {
      } else {
        assert p == r.job.pid && n in Superseded(s.db, r.job, r.saved);
        assert t.reqs[m.pid] == Unlinking(Some(n));
      }
    } else if r.saved == Some(n) {
      assert t.db.products[r.job.pid].image == Some(n);
    } else {
      StillPending(s, t, m.pid, n);
    }
  }

  lemma {:induction false} TidyMove(cfg: Config, s: Shop, m: Move)
    requires Owned(s) && Accounted(s) && Possible(cfg, s, m) && Tidy(cfg, s, m)
    ensures Accounted(After(cfg, s, m))
  {
    var t := After(cfg, s, m);
    if m.Others? {
      OthersSameImages(cfg, s.db, m.txn);
    }
    forall n | n in t.files
      ensures Installed(t.db, n) || Pending(t, n)
    {
      if m.Save? && n == m.name {
        assert Held(t.reqs[m.pid]) == Some(n);
      } else if m.Write? {
        WriteAccounts(cfg, s, m, n);
      } else if Installed(s.db, n) {
        var p :| p in s.db.products && s.db.products[p].image == Some(n);
        assert p in t.db.products && t.db.products[p].image == Some(n);
      } else if m.Others? {
        assert t.reqs == s.reqs;
      } else {
        StillPending(s, t, m.pid, n);
      }
    }
  }

  lemma {:induction false} TidyRun(cfg: Config, s: Shop, moves: seq<Move>, t: Shop)
    requires Owned(s) && Accounted(s) && Happens(cfg, s, moves, t) && AllTidy(cfg, s, moves)
    ensures Owned(t) && Accounted(t)
    decreases |moves|
  {
    if moves != [] {
      MoveKeeps(cfg, s, moves[0]);
      TidyMove(cfg, s, moves[0]);
      TidyRun(cfg, After(cfg, s, moves[0]), moves[1..], t);
    }
  }

  /** Tidy moves, interleaved in any way, leave nothing behind once no request is under way. */
  lemma {:induction false} NoOrphans(cfg: Config, moves: seq<Move>, t: Shop)
    requires Happens(cfg, OPENING, moves, t) && AllTidy(cfg, OPENING, moves) && AllOver(t)
    ensures DirectoryExact(t)
  {
    OpeningOwned();
    TidyRun(cfg, OPENING, moves, t);
  }

  // ----------------------------------------------------------------------------- serial requests

  /** One request at a time, each write committing and each removal succeeding. */
  ghost predicate OneAtATime(cfg: Config, s: Shop, m: Move)
    requires Possible(cfg, s, m)
  {
    && (m.Ask? ==> AllOver(s))
    && !m.WriteFails? && !m.UnlinkFails?
    && (m.Write? ==>
         Alone(cfg, s.db, Auto(WriteStmt(s.reqs[m.pid].job, s.reqs[m.pid].saved))).1 == Committed)
  }

  ghost predicate AllSerial(cfg: Config, s: Shop, moves: seq<Move>)
    decreases |moves|
  {
    moves == [] || (Possible(cfg, s, moves[0]) && OneAtATime(cfg, s, moves[0])
                    && AllSerial(cfg, After(cfg, s, moves[0]), moves[1..]))
  }

  /** The only request under way finds the row as it read it. */
  ghost predicate Undisturbed(s: Shop) {
    && (forall p, q :: p in s.reqs && q in s.reqs && p != q ==> s.reqs[p].Over? || s.reqs[q].Over?)
    && (forall p :: p in s.reqs && (s.reqs[p].Saving? || s.reqs[p].Writing?) ==>
         && s.reqs[p].seen == Read(s.db, s.reqs[p].job)
         && (!s.reqs[p].job.Create? ==> s.reqs[p].job.pid in s.db.products))
  }

  lemma {:induction false} SerialMove(cfg: Config, s: Shop, m: Move)
    requires Undisturbed(s) && Possible(cfg, s, m) && OneAtATime(cfg, s, m)
    ensures Undisturbed(After(cfg, s, m)) && Tidy(cfg, s, m)
  {
    if m.Others? {
      OthersSameImages(cfg, s.db, m.txn);
    }
  }

  lemma {:induction false} SerialIsTidy(cfg: Config, s: Shop, moves: seq<Move>)
    requires Undisturbed(s) && AllSerial(cfg, s, moves)
    ensures AllTidy(cfg, s, moves)
    decreases |moves|
  {
    if moves != [] {
      SerialMove(cfg, s, moves[0]);
      SerialIsTidy(cfg, After(cfg, s, moves[0]), moves[1..]);
    }
  }

  /**
   Served one at a time, requests keep the directory exact: after each of them it holds precisely
   the files the product rows name, rejected forms and failed uploads included.
   */
  lemma {:induction false} SerialDirectoryExact(cfg: Config, moves: seq<Move>, t: Shop)
    requires Happens(cfg, OPENING, moves, t) && AllSerial(cfg, OPENING, moves) && AllOver(t)
    ensures DirectoryExact(t)
  {
    SerialIsTidy(cfg, OPENING, moves);
    NoOrphans(cfg, moves, t);
  }

  // -------------------------------------------------------------------- two edits at the same time

  /** Two edits that have both read the same image and saved their own. */
  ghost predicate TwoEdits(s: Shop, p: ProductId, a: Pid, b: Pid, first: FileName, second: FileName) {
    && p in s.db.products && a in s.reqs && b in s.reqs && a != b && first != second
    && s.reqs[a].Writing? && s.reqs[b].Writing?
    && s.reqs[a].job.Edit? && s.reqs[b].job.Edit? && s.reqs[a].job.pid == p && s.reqs[b].job.pid == p
    && s.reqs[a].saved == Some(first) && s.reqs[b].saved == Some(second)
    && s.reqs[a].seen == s.db.products[p].image && s.reqs[b].seen == s.db.products[p].image
    && s.db.products[p].image.Some?
  }

  lemma {:induction false} EditInstalls(cfg: Config, s: Shop, pid: Pid)
    requires pid in s.reqs && s.reqs[pid].Writing? && s.reqs[pid].job.Edit? && s.reqs[pid].saved.Some?
    requires Priced(s.reqs[pid].job) && s.reqs[pid].job.pid in s.db.products
    ensures var t := After(cfg, s, Write(pid));
      var p := s.reqs[pid].job.pid;
      && p in t.db.products && t.db.products[p].image == s.reqs[pid].saved
      && t.files == s.files
      && t.reqs == s.reqs[pid := Unlinking(s.reqs[pid].seen)]
      && t.retired == s.retired + (if RowImage(s.db, p).Some? then {RowImage(s.db, p).value} else {})
  {
    AutoMeaning(cfg, s.db, WriteStmt(s.reqs[pid].job, s.reqs[pid].saved));
  }

  lemma {:induction false} BothWrite(
      cfg: Config, s: Shop, p: ProductId, a: Pid, b: Pid, first: FileName, second: FileName) returns (t: Shop)
    requires Owned(s) && TwoEdits(s, p, a, b, first, second)
    ensures Happens(cfg, s, [Write(a)] + [Write(b)], t) && Owned(t)
    ensures t.reqs == s.reqs[a := Unlinking(s.db.products[p].image)][b := Unlinking(s.db.products[p].image)]
    ensures first in t.retired && t.files == s.files
  {
    var s1 := After(cfg, s, Write(a));
    assert ReadOk(s, s.reqs[a]) && ReadOk(s, s.reqs[b]);
    EditInstalls(cfg, s, a);
    MoveKeeps(cfg, s, Write(a));
    t := After(cfg, s1, Write(b));
    EditInstalls(cfg, s1, b);
    MoveKeeps(cfg, s1, Write(b));
    HappensOn(cfg, s1, Write(b), [], t);
    HappensOn(cfg, s, Write(a), [Write(b)], t);
  }

  lemma {:induction false} BothUnlink(cfg: Config, s: Shop, a: Pid, b: Pid) returns (moves: seq<Move>, t: Shop)
    requires a in s.reqs && b in s.reqs && a != b && s.reqs[a].Unlinking? && s.reqs[b].Unlinking?
    ensures Happens(cfg, s, moves, t)
    ensures t.reqs == s.reqs[a := Over][b := Over] && t.db == s.db
    ensures forall n :: n in s.files && s.reqs[a].seen != Some(n) && s.reqs[b].seen != Some(n) ==> n in t.files
  {
    var u := After(cfg, s, Unlink(a));
    t := After(cfg, u, Unlink(b));
    HappensOn(cfg, u, Unlink(b), [], t);
    HappensOn(cfg, s, Unlink(a), [Unlink(b)], t);
    moves := [Unlink(a)] + [Unlink(b)];
  }

  /**
   Whenever two edits have got that far, letting both write and then both clean up leaves the first
   one's image in the directory with no row naming it: tidiness is not to be had for free.
   */
  lemma {:induction false} TwoEditsOrphan(
      cfg: Config, s: Shop, p: ProductId, a: Pid, b: Pid, first: FileName, second: FileName)
    requires Owned(s) && TwoEdits(s, p, a, b, first, second)
    ensures exists moves: seq<Move>, t: Shop ::
      && Happens(cfg, s, moves, t) && t.reqs == s.reqs[a := Over][b := Over]
      && first in t.files && !Installed(t.db, first)
  {
    assert HeldOk(s, a);
    var u := BothWrite(cfg, s, p, a, b, first, second);
    RetiredIsSpent(u, first);
    var unlinks, t := BothUnlink(cfg, u, a, b);
    HappensThen(cfg, s, [Write(a)] + [Write(b)], u, unlinks, t);
  }

  /** One edit of product p by its seller, up to its saved image. */
  lemma {:induction false} EditSaves(cfg: Config, s: Shop, a: Pid, job: Job, name: FileName)
    requires a !in s.reqs && job.Edit? && job.upload && Priced(job) && Permitted(s.db, job) && name !in s.used
    ensures var t := s.(reqs := s.reqs[a := Writing(job, s.db.products[job.pid].image, Some(name))],
                        files := s.files + {name}, used := s.used + {name});
      Happens(cfg, s, [Ask(a, job), Look(a), Save(a, name)], t)
  {
    var s1 := After(cfg, s, Ask(a, job));
    var s2 := After(cfg, s1, Look(a));
    var s3 := After(cfg, s2, Save(a, name));
    assert s3.reqs == s.reqs[a := s3.reqs[a]];
    HappensOn(cfg, s2, Save(a, name), [], s3);
    HappensOn(cfg, s1, Look(a), [Save(a, name)], s3);
    HappensOn(cfg, s, Ask(a, job), [Look(a), Save(a, name)], s3);
  }

  /** One product put up by an existing seller, image and all. */
  lemma {:induction false} CreateServed(cfg: Config, s: Shop, a: Pid, job: Job, name: FileName) returns (t: Shop)
    requires a !in s.reqs && job.Create? && job.upload && Priced(job) && name !in s.used
    requires job.seller in s.db.users && job.pid !in s.db.history.sellers && job.pid !in s.db.products
    ensures Happens(cfg, s, [Ask(a, job), Look(a), Save(a, name), Write(a)], t)
    ensures t.reqs == s.reqs[a := Over] && t.used == s.used + {name}
    ensures job.pid in t.db.products
    ensures t.db.products[job.pid].image == Some(name) && t.db.products[job.pid].seller == job.seller
  {
    var s3 := s.(reqs := s.reqs[a := Writing(job, None, Some(name))],
                 files := s.files + {name}, used := s.used + {name});
    CreateSaves(cfg, s, a, job, name);
    AutoMeaning(cfg, s.db, WriteStmt(job, Some(name)));
    t := After(cfg, s3, Write(a));
    assert t.reqs == s.reqs[a := Over];
    HappensOn(cfg, s3, Write(a), [], t);
    HappensThen(cfg, s, [Ask(a, job), Look(a), Save(a, name)], s3, [Write(a)], t);
    assert [Ask(a, job), Look(a), Save(a, name)] + [Write(a)] == [Ask(a, job), Look(a), Save(a, name), Write(a)];
  }

  lemma {:induction false} CreateSaves(cfg: Config, s: Shop, a: Pid, job: Job, name: FileName)
    requires a !in s.reqs && job.Create? && job.upload && Priced(job) && name !in s.used
    ensures var t := s.(reqs := s.reqs[a := Writing(job, None, Some(name))],
                        files := s.files + {name}, used := s.used + {name});
      Happens(cfg, s, [Ask(a, job), Look(a), Save(a, name)], t)
  {
    var s1 := After(cfg, s, Ask(a, job));
    var s2 := After(cfg, s1, Look(a));
    var s3 := After(cfg, s2, Save(a, name));
    assert s3.reqs == s.reqs[a := s3.reqs[a]];
    HappensOn(cfg, s2, Save(a, name), [], s3);
    HappensOn(cfg, s1, Look(a), [Save(a, name)], s3);
    HappensOn(cfg, s, Ask(a, job), [Look(a), Save(a, name)], s3);
  }

  const SELLER: UserId := 7
  const BAG: ProductId := 9
  const OFFER: Job := Create(BAG, Listing("bag", "", 0), SELLER, true)
  const REVISE: Job := Edit(BAG, Listing("bag", "", 0), SELLER, true)
  const SIGN_UP: Txn := Auto(InsertUser(SELLER, "seller", 0, 0, true))

  /** A shop with one product and its image, file 1. */
  lemma {:induction false} OneProduct(cfg: Config) returns (moves: seq<Move>, s: Shop)
    ensures Happens(cfg, OPENING, moves, s)
    ensures s.reqs == map[0 := Over] && s.used == {1}
    ensures BAG in s.db.products && s.db.products[BAG].image == Some(1) && s.db.products[BAG].seller == SELLER
  {
    AutoMeaning(cfg, EMPTY_DB, SIGN_UP.stmt);
    var s1 := After(cfg, OPENING, Others(0, SIGN_UP));
    s := CreateServed(cfg, s1, 0, OFFER, 1);
    var rest := [Ask(0, OFFER), Look(0), Save(0, 1), Write(0)];
    HappensOn(cfg, OPENING, Others(0, SIGN_UP), rest, s);
    moves := [Others(0, SIGN_UP)] + rest;
  }

  /** Two requests to edit that product, both having read file 1 and saved files 2 and 3. */
  lemma {:induction false} TwoEditsReachable(cfg: Config) returns (moves: seq<Move>, b: Shop)
    ensures Happens(cfg, OPENING, moves, b) && TwoEdits(b, BAG, 1, 2, 2, 3)
    ensures b.reqs.Keys == {0, 1, 2} && b.reqs[0].Over?
  {
    var start, s := OneProduct(cfg);
    var a := s.(reqs := s.reqs[1 := Writing(REVISE, Some(1), Some(2))], files := s.files + {2}, used := s.used + {2});
    b := a.(reqs := a.reqs[2 := Writing(REVISE, Some(1), Some(3))], files := a.files + {3}, used := a.used + {3});
    EditSaves(cfg, s, 1, REVISE, 2);
    EditSaves(cfg, a, 2, REVISE, 3);
    var editA, editB := [Ask(1, REVISE), Look(1), Save(1, 2)], [Ask(2, REVISE), Look(2), Save(2, 3)];
    HappensThen(cfg, OPENING, start, s, editA, a);
    HappensThen(cfg, OPENING, start + editA, a, editB, b);
    moves := start + editA + editB;
  }

  /**
   An interleaving without any failure that ends with nothing under way and a file too many: one
   registration, one product, two edits of it at the same time.
   */
  lemma {:induction false} OrphanReachable(cfg: Config)
    ensures exists moves: seq<Move>, t: Shop :: Happens(cfg, OPENING, moves, t) && AllOver(t) && !DirectoryExact(t)
  {
    var before, b := TwoEditsReachable(cfg);
    OpeningOwned();
    HappensKeeps(cfg, OPENING, before, b);
    TwoEditsOrphan(cfg, b, BAG, 1, 2, 2, 3);
    var rest, t :|
      Happens(cfg, b, rest, t) && t.reqs == b.reqs[1 := Over][2 := Over] && 2 in t.files && !Installed(t.db, 2);
    HappensThen(cfg, OPENING, before, b, rest, t);
  }
}
