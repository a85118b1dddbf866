/**
 The two concurrent models together: requests against the tables (Engine) and product requests against
 tables and upload directory (Images), in one run over the same tables.

 A step of the Engine that ends a catalogue statement is the write of some product request; one that
 ends any other unit of work is a step of the others, as Images has them; the looks, saves and unlinks of
 product requests are steps the Engine does not see. Main result: each joint run is a run of both
 models, ending in the same tables, so the theorems of both hold of it.
 */
module Joint {
  import opened Base
  import opened Schema
  import opened Engine
  import opened Images

  datatype Event =
    | Statement(l: Label, writer: Pid)  // writer: the product request whose statement this is, if it is one
    | Local(m: Move)                    // a step of a product request that touches no table

  predicate Finishing(l: Label) {
    l.Autocommit? || l.Commit? || l.Rollback?
  }

  predicate TouchesNoTable(m: Move) {
    !m.Write? && !m.Others?
  }

  /** The unit of work a finishing step ends is a statement on the catalogue. */
  ghost predicate OnCatalog(s: State, l: Label) {
    && Finishing(l) && l.pid in s.procs && TxnOf(s.procs[l.pid]).Some?
    && TxnOf(s.procs[l.pid]).value.Auto? && AreaOf(TxnOf(s.procs[l.pid]).value.stmt).Catalog?
  }

  /** The product request that stands before this very statement. */
  ghost predicate Writes(w: Shop, a: Pid, stmt: Stmt) {
    a in w.reqs && w.reqs[a].Writing? && WriteStmt(w.reqs[a].job, w.reqs[a].saved) == stmt
  }

  /** The tables are the Engine's; the directory and the product requests are those of Images. */
  ghost predicate CanHappen(cfg: Config, s: State, w: Shop, e: Event) {
    match e
    case Local(m) => TouchesNoTable(m) && Possible(cfg, w, m)
    case Statement(l, a) => Enabled(cfg, s, l) && (OnCatalog(s, l) ==> Writes(w, a, TxnOf(s.procs[l.pid]).value.stmt))
  }

  ghost function NextState(cfg: Config, s: State, w: Shop, e: Event): State
    requires CanHappen(cfg, s, w, e)
  {
    if e.Local? then s else Next(cfg, s, e.l)
  }

  ghost function NextShop(cfg: Config, s: State, w: Shop, e: Event): Shop
    requires CanHappen(cfg, s, w, e)
  {
    match e
    case Local(m) => After(cfg, w, m)
    case Statement(l, a) =>
      // the shop's own bookkeeping of the write, and the tables as the Engine's step leaves them
      (if OnCatalog(s, l) then After(cfg, w, Write(a)) else w).(db := Next(cfg, s, l).db)
  }

  ghost predicate Happen(cfg: Config, s: State, w: Shop, events: seq<Event>, t: State, x: Shop)
    decreases |events|
  {
    if events == [] then s == t && w == x
    else
      && CanHappen(cfg, s, w, events[0])
      && Happen(cfg, NextState(cfg, s, w, events[0]), NextShop(cfg, s, w, events[0]), events[1..], t, x)
  }

  /** The moves of Images one event comes to. */
  ghost function MovesFor(s: State, e: Event): seq<Move> {
    match e
    case Local(m) => [m]
    case Statement(l, a) =>
      if OnCatalog(s, l) then [Write(a)]
      else if Finishing(l) && l.pid in s.procs && TxnOf(s.procs[l.pid]).Some?
      then [Others(l.pid, TxnOf(s.procs[l.pid]).value)]
      else []
  }

  /** A finished unit of work is the step of Images with the same effect on the tables. */
  lemma {:induction false} FinishProjects(cfg: Config, s: State, w: Shop, l: Label, a: Pid)
    requires Inv(cfg, EMPTY_DB, s) && Enabled(cfg, s, l) && Finishing(l) && w.db == s.db
    requires OnCatalog(s, l) ==> Writes(w, a, TxnOf(s.procs[l.pid]).value.stmt)
    ensures var m := if OnCatalog(s, l) then Write(a) else Others(l.pid, TxnOf(s.procs[l.pid]).value);
      Possible(cfg, w, m) && After(cfg, w, m).db == Next(cfg, s, l).db
  {
    FinishingStep(cfg, s, l);
    if OnCatalog(s, l) {
      AutoMeaning(cfg, s.db, TxnOf(s.procs[l.pid]).value.stmt);
    }
  }

  lemma {:induction false} EventProjects(cfg: Config, s: State, w: Shop, e: Event)
    requires Inv(cfg, EMPTY_DB, s) && w.db == s.db && CanHappen(cfg, s, w, e)
    ensures Happens(cfg, w, MovesFor(s, e), NextShop(cfg, s, w, e))
    ensures NextShop(cfg, s, w, e).db == NextState(cfg, s, w, e).db
  {
    var x := NextShop(cfg, s, w, e);
    match e
    case Local(m) =>
      NoTableTouched(cfg, w, m);
      HappensOn(cfg, w, m, [], x);
    case Statement(l, a) =>
      if Finishing(l) {
        FinishingStep(cfg, s, l);
        FinishProjects(cfg, s, w, l, a);
        var m := if OnCatalog(s, l) then Write(a) else Others(l.pid, TxnOf(s.procs[l.pid]).value);
        assert After(cfg, w, m) == x;
        HappensOn(cfg, w, m, [], x);
      } else {
        LocalStepFrame(cfg, s, l);
      }
  }

  lemma {:induction false} NoTableTouched(cfg: Config, w: Shop, m: Move)
    requires TouchesNoTable(m) && Possible(cfg, w, m)
    ensures After(cfg, w, m).db == w.db
  {
  }

  /** Each joint run is a run of the Engine and a run of Images over the same tables. */
  lemma {:induction false} RunsProject(cfg: Config, s: State, w: Shop, events: seq<Event>, t: State, x: Shop)
    returns (labels: seq<Label>, moves: seq<Move>)
    requires Inv(cfg, EMPTY_DB, s) && w.db == s.db && Happen(cfg, s, w, events, t, x)
    ensures Runs(cfg, s, labels, t) && Happens(cfg, w, moves, x) && x.db == t.db
    decreases |events|
  {
    if events == [] {
      labels, moves := [], [];
    } else {
      var e := events[0];
      var s1, w1 := NextState(cfg, s, w, e), NextShop(cfg, s, w, e);
      EventProjects(cfg, s, w, e);
      if e.Statement? {
        StepKeeps(cfg, EMPTY_DB, s, e.l);
      }
      labels, moves := RunsProject(cfg, s1, w1, events[1..], t, x);
      HappensThen(cfg, w, MovesFor(s, e), w1, moves, x);
      moves := MovesFor(s, e) + moves;
      if e.Statement? {
        RunsOn(cfg, s, e.l, labels, t);
        labels := [e.l] + labels;
      }
    }
  }

  /**
   So in every joint run from the empty start the committed tables are at once those of a serial run of
   the units of work, and tables whose rows name existing files of their own.
   */
  lemma {:induction false} BothModelsHold(cfg: Config, events: seq<Event>, t: State, x: Shop)
    requires Happen(cfg, INITIAL, OPENING, events, t, x)
    ensures t.db == Replay(cfg, EMPTY_DB, t.log) && Faithful(cfg, EMPTY_DB, t.log)
    ensures RowsNameFiles(t.db, x.files)
  {
    RunKeeps(cfg, EMPTY_DB, INITIAL, [], INITIAL);
    var labels, moves := RunsProject(cfg, INITIAL, OPENING, events, t, x);
    Serializable(cfg, labels, t);
    NoDanglingImage(cfg, moves, x);
  }
}
