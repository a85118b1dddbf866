/**
 Exactly how many of N simultaneous transfers of the same amount go through
 (secure-coding/app/blueprints/transfer.py; the two-thread case is what
 secure-coding/tests/test_transfer.py checks).
 */
module DoubleSpend {
  import opened Base
  import opened Schema
  import opened Engine
  import opened Ledger

  /**
   During the contest u sends nothing but a points at a time and nobody sends to u, requests already
   under way at its start included. All else is free: other accounts pay each other, register, report,
   get sanctioned; requests wait for the lock in vain or fail from outside; u's requests may arrive at
   any time and be turned down.
   */
  ghost predicate Contest(labels: seq<Label>, u: UserId, name: string, a: int) {
    forall l :: l in labels ==> InContest(l, u, name, a)
  }

  predicate InContest(l: Label, u: UserId, name: string, a: int) {
    l.Arrive? ==> RequestInContest(l.me, l.request, u, name, a)
  }

  predicate RequestInContest(me: UserId, request: Request, u: UserId, name: string, a: int) {
    request.SendPoints? ==> request.to != name && (me == u ==> request.amount == Some(a))
  }

  predicate TxnInContest(txn: Txn, u: UserId, a: int) {
    txn.Pay? ==> txn.receiver != u && (txn.sender == u ==> txn.amount == a)
  }

  /** What a request does, or is about to do, fits the contest. */
  ghost predicate Fits(proc: Proc, u: UserId, name: string, a: int) {
    && (proc.Entered? || proc.Admitted? ==> RequestInContest(proc.me, proc.request, u, name, a))
    && (TxnOf(proc).Some? ==> TxnInContest(TxnOf(proc).value, u, a))
  }

  /** The contest may start at any time at which all that is under way fits it. */
  ghost predicate MayStart(s0: State, u: UserId, name: string, a: int) {
    forall pid :: pid in s0.procs && !Closed(s0, pid) ==> Fits(s0.procs[pid], u, name, a)
  }

  /** Finished before the contest. */
  ghost predicate Closed(s0: State, pid: Pid) {
    pid in s0.procs && s0.procs[pid].Finished?
  }

  /** Requests of the contest that passed the checks and are out to debit u. */
  ghost predicate Tries(s0: State, proc: Proc, pid: Pid, u: UserId) {
    !Closed(s0, pid) && TxnOf(proc).Some? && TxnOf(proc).value.Pay? && TxnOf(proc).value.sender == u
  }

  /** None of them is still under way. */
  ghost predicate Settled(s0: State, s: State, u: UserId) {
    forall pid :: pid in s.procs && Tries(s0, s.procs[pid], pid, u) ==> s.procs[pid].Finished?
  }

  ghost function Tried(s0: State, s: State, u: UserId): set<Pid> {
    set pid | pid in s.procs && Tries(s0, s.procs[pid], pid, u)
  }

  ghost function PaidBy(s0: State, s: State, u: UserId): set<Pid> {
    set pid | pid in s.procs && Tries(s0, s.procs[pid], pid, u)
              && s.procs[pid].Finished? && s.procs[pid].outcome == Committed
  }

  ghost function RefusedTo(s0: State, s: State, u: UserId): set<Pid> {
    set pid | pid in s.procs && Tries(s0, s.procs[pid], pid, u)
              && s.procs[pid].Finished? && s.procs[pid].outcome == RolledBack(Insufficient)
  }

  /** Those that had not got the lock in time, or failed from outside. */
  ghost function GaveUp(s0: State, s: State, u: UserId): set<Pid> {
    set pid | pid in s.procs && Tries(s0, s.procs[pid], pid, u)
              && s.procs[pid].Finished? && NoVerdict(s.procs[pid].outcome)
  }

  predicate NoVerdict(outcome: Outcome) {
    outcome.Busy? || outcome.Interrupted?
  }

  ghost predicate ProcInContest(s0: State, pid: Pid, proc: Proc, u: UserId, name: string, a: int) {
    if Closed(s0, pid) then proc == s0.procs[pid]
    else
      && Fits(proc, u, name, a)
      && (proc.Finished? && Tries(s0, proc, pid, u) ==>
           proc.outcome == Committed || proc.outcome == RolledBack(Insufficient) || NoVerdict(proc.outcome))
  }

  /** n payments of a points each. */
  function Spent(a: int, n: nat): int {
    if n == 0 then 0 else Spent(a, n - 1) + a
  }

  lemma {:induction false} SpentIsProduct(a: int, n: nat)
    ensures Spent(a, n) == a * n
  {
    if n > 0 {
      SpentIsProduct(a, n - 1);
    }
  }

  /** u's balance tells how many payments went through; a refusal means it no longer covers one. */
  ghost predicate Tally(s0: State, s: State, u: UserId, a: int)
    requires u in s0.db.users
  {
    && u in s.db.users
    && s.db.users[u].username == s0.db.users[u].username
    && s.db.users[u].balance == s0.db.users[u].balance - Spent(a, |PaidBy(s0, s, u)|)
    && (RefusedTo(s0, s, u) != {} ==> s.db.users[u].balance < a)
  }

  ghost predicate ProcsInContest(s0: State, s: State, u: UserId, name: string, a: int) {
    && (forall pid :: pid in s0.procs ==> pid in s.procs)
    && (forall pid :: pid in s.procs ==> ProcInContest(s0, pid, s.procs[pid], u, name, a))
  }

  ghost predicate ContestInv(cfg: Config, s0: State, s: State, u: UserId, a: int) {
    && u in s0.db.users
    && Inv(cfg, EMPTY_DB, s)
    && Balanced(cfg, s.db)
    && Tally(s0, s, u, a)
    && ProcsInContest(s0, s, u, s0.db.users[u].username, a)
  }

  // ----------------------------------------------------------------------------------- one step

  lemma {:induction false} AloneLeavesOthers(cfg: Config, db: DB, txn: Txn, u: UserId)
    requires Balanced(cfg, db) && Admissible(cfg, db, txn) && u in db.users
    requires txn.Pay? ==> txn.sender != u && txn.receiver != u
    ensures var db' := Alone(cfg, db, txn).0; u in db'.users && db'.users[u].balance == db.users[u].balance
  {
    match txn
    case Pay(s, r, a) =>
      BalancesNonNegative(db, r);
      PayMeaning(cfg, db, s, r, a);
    case FileReport(me, target) => ReportSameMoney(cfg, db, me, target);
    case Auto(stmt) =>
      if stmt.InsertUser? {
        AutoMeaning(cfg, db, stmt);
      } else {
        AutoSameMoney(cfg, db, stmt);
      }
  }

  /** Only one request moves at a time. */
  ghost predicate Moves(s: State, t: State, pid: Pid) {
    && t.procs.Keys == s.procs.Keys + {pid}
    && (forall q :: q in s.procs && q != pid ==> t.procs[q] == s.procs[q])
    && (pid in s.procs ==> !s.procs[pid].Finished?)
  }

  lemma {:induction false} PaidAfter(s0: State, s: State, t: State, pid: Pid, u: UserId)
    requires Moves(s, t, pid)
    ensures var p := t.procs[pid];
      |PaidBy(s0, t, u)| == |PaidBy(s0, s, u)|
        + (if Tries(s0, p, pid, u) && p.Finished? && p.outcome == Committed then 1 else 0)
  {
    var before, after := PaidBy(s0, s, u), PaidBy(s0, t, u);
    assert pid !in before;
    forall q | q != pid
      ensures q in after <==> q in before
    {
      assert q in s.procs ==> t.procs[q] == s.procs[q];
    }
    assert after == if pid in after then before + {pid} else before;
  }

  lemma {:induction false} RefusedAfter(s0: State, s: State, t: State, pid: Pid, u: UserId)
    requires Moves(s, t, pid)
    ensures var p := t.procs[pid];
      RefusedTo(s0, t, u) == RefusedTo(s0, s, u)
        + (if Tries(s0, p, pid, u) && p.Finished? && p.outcome == RolledBack(Insufficient) then {pid} else {})
  {
  }

  /** The one unit of work, run alone, seen from u's account. */
  lemma {:induction false} UnitTally(cfg: Config, db: DB, txn: Txn, u: UserId, a: int)
    requires Balanced(cfg, db) && Listed(db) && Admissible(cfg, db, txn) && u in db.users
    requires TxnInContest(txn, u, a)
    ensures var (db', outcome) := Alone(cfg, db, txn);
      var pays := txn.Pay? && txn.sender == u;
      && u in db'.users && db'.users[u].username == db.users[u].username
      && db'.users[u].balance == db.users[u].balance - (if pays && outcome == Committed then a else 0)
      && (pays ==> outcome == if db.users[u].balance >= a then Committed else RolledBack(Insufficient))
  {
    AloneGrows(cfg, db, txn);
    if txn.Pay? && txn.sender == u {
      BalancesNonNegative(db, txn.receiver);
      PayMeaning(cfg, db, txn.sender, txn.receiver, txn.amount);
    } else {
      AloneLeavesOthers(cfg, db, txn, u);
    }
  }

  lemma {:induction false} FinishTally(
      cfg: Config, s0: State, s: State, pid: Pid, txn: Txn, u: UserId, a: int)
    requires u in s0.db.users && Tally(s0, s, u, a) && a >= 1
    requires pid in s.procs && !s.procs[pid].Finished? && !Closed(s0, pid)
    requires Balanced(cfg, s.db) && Listed(s.db) && Admissible(cfg, s.db, txn) && TxnInContest(txn, u, a)
    ensures var (db, outcome) := Alone(cfg, s.db, txn);
      var t := Finish(s, pid, txn, db, outcome);
      && Tally(s0, t, u, a)
      && ProcInContest(s0, pid, t.procs[pid], u, s0.db.users[u].username, a)
  {
    var (db, outcome) := Alone(cfg, s.db, txn);
    UnitTally(cfg, s.db, txn, u, a);
    TallyMoves(s0, s, pid, txn, db, outcome, u, a);
  }

  lemma {:induction false} TallyMoves(
      s0: State, s: State, pid: Pid, txn: Txn, db: DB, outcome: Outcome, u: UserId, a: int)
    requires u in s0.db.users && Tally(s0, s, u, a) && a >= 1
    requires pid in s.procs && !s.procs[pid].Finished? && !Closed(s0, pid)
    requires u in db.users && db.users[u].username == s.db.users[u].username
    requires var pays := txn.Pay? && txn.sender == u;
      && db.users[u].balance == s.db.users[u].balance - (if pays && outcome == Committed then a else 0)
      && (pays ==> outcome == if s.db.users[u].balance >= a then Committed else RolledBack(Insufficient))
    ensures Tally(s0, Finish(s, pid, txn, db, outcome), u, a)
  {
    var t := Finish(s, pid, txn, db, outcome);
    PaidAfter(s0, s, t, pid, u);
    RefusedAfter(s0, s, t, pid, u);
  }

  lemma {:induction false} MovedInContest(cfg: Config, s0: State, s: State, l: Label, u: UserId, name: string, a: int)
    requires Enabled(cfg, s, l) && InContest(l, u, name, a)
    requires !l.Autocommit? && !l.Commit? && !l.Rollback?
    requires u in s.db.users && s.db.users[u].username == name
    requires l.pid in s.procs ==> ProcInContest(s0, l.pid, s.procs[l.pid], u, name, a)
    requires !Closed(s0, l.pid)
    ensures var p := Next(cfg, s, l).procs[l.pid];
      ProcInContest(s0, l.pid, p, u, name, a) && (p.Finished? ==> NoVerdict(p.outcome))
  {
    if l.Check? && s.procs[l.pid].request.SendPoints? {
      FindUserFinds(s.db, s.procs[l.pid].request.to);
    }
  }

  lemma {:induction false} OtherTally(cfg: Config, s0: State, s: State, l: Label, u: UserId, a: int)
    requires u in s0.db.users && Tally(s0, s, u, a) && Enabled(cfg, s, l)
    requires !l.Autocommit? && !l.Commit? && !l.Rollback?
    requires var p := Next(cfg, s, l).procs[l.pid]; p.Finished? ==> NoVerdict(p.outcome)
    ensures Tally(s0, Next(cfg, s, l), u, a)
  {
    LocalStepFrame(cfg, s, l);
    PaidAfter(s0, s, Next(cfg, s, l), l.pid, u);
    RefusedAfter(s0, s, Next(cfg, s, l), l.pid, u);
  }

  lemma {:induction false} MoverIsNew(cfg: Config, s0: State, s: State, l: Label, u: UserId, a: int)
    requires Enabled(cfg, s, l) && u in s0.db.users
    requires l.pid in s.procs ==> ProcInContest(s0, l.pid, s.procs[l.pid], u, s0.db.users[u].username, a)
    requires l.pid in s0.procs ==> l.pid in s.procs
    ensures !Closed(s0, l.pid)
  {
  }

  lemma {:induction false} FinishInContest(cfg: Config, s0: State, s: State, l: Label, u: UserId, a: int)
    requires u in s0.db.users && !Closed(s0, l.pid)
    requires Inv(cfg, EMPTY_DB, s) && Balanced(cfg, s.db) && Tally(s0, s, u, a)
    requires Enabled(cfg, s, l) && a >= 1
    requires l.Autocommit? || l.Commit? || l.Rollback?
    requires ProcInContest(s0, l.pid, s.procs[l.pid], u, s0.db.users[u].username, a)
    ensures var t := Next(cfg, s, l);
      && Tally(s0, t, u, a)
      && Balanced(cfg, t.db)
      && Moves(s, t, l.pid)
      && ProcInContest(s0, l.pid, t.procs[l.pid], u, s0.db.users[u].username, a)
  {
    FinishingStep(cfg, s, l);
    UnitInContest(cfg, s0, s, l.pid, s.procs[l.pid].txn, u, a);
  }

  lemma {:induction false} UnitInContest(cfg: Config, s0: State, s: State, pid: Pid, txn: Txn, u: UserId, a: int)
    requires u in s0.db.users && !Closed(s0, pid) && pid in s.procs && !s.procs[pid].Finished?
    requires Listed(s.db) && Balanced(cfg, s.db) && Tally(s0, s, u, a) && a >= 1
    requires Admissible(cfg, s.db, txn) && TxnInContest(txn, u, a)
    ensures var t := Finish(s, pid, txn, Alone(cfg, s.db, txn).0, Alone(cfg, s.db, txn).1);
      && Tally(s0, t, u, a)
      && Balanced(cfg, t.db)
      && Moves(s, t, pid)
      && ProcInContest(s0, pid, t.procs[pid], u, s0.db.users[u].username, a)
  {
    AloneKeepsBalanced(cfg, s.db, txn);
    FinishTally(cfg, s0, s, pid, txn, u, a);
  }

  lemma {:induction false} ContestFinish(cfg: Config, s0: State, s: State, l: Label, u: UserId, a: int)
    requires ContestInv(cfg, s0, s, u, a) && Enabled(cfg, s, l) && a >= 1
    requires l.Autocommit? || l.Commit? || l.Rollback?
    ensures ContestInv(cfg, s0, Next(cfg, s, l), u, a)
  {
    assert ProcInContest(s0, l.pid, s.procs[l.pid], u, s0.db.users[u].username, a);
    MoverIsNew(cfg, s0, s, l, u, a);
    FinishInContest(cfg, s0, s, l, u, a);
    StepKeeps(cfg, EMPTY_DB, s, l);
    InContestStill(s0, s, Next(cfg, s, l), l.pid, u, s0.db.users[u].username, a);
  }

  /** One request has moved, within the contest, and all are within it still. */
  lemma {:induction false} InContestStill(s0: State, s: State, t: State, pid: Pid, u: UserId, name: string, a: int)
    requires ProcsInContest(s0, s, u, name, a) && Moves(s, t, pid)
    requires ProcInContest(s0, pid, t.procs[pid], u, name, a)
    ensures ProcsInContest(s0, t, u, name, a)
  {
  }

  lemma {:induction false} ContestMove(cfg: Config, s0: State, s: State, l: Label, u: UserId, a: int)
    requires ContestInv(cfg, s0, s, u, a) && Enabled(cfg, s, l)
    requires InContest(l, u, s0.db.users[u].username, a)
    requires !l.Autocommit? && !l.Commit? && !l.Rollback?
    ensures ContestInv(cfg, s0, Next(cfg, s, l), u, a)
  {
    assert l.pid in s.procs ==> ProcInContest(s0, l.pid, s.procs[l.pid], u, s0.db.users[u].username, a);
    MoverIsNew(cfg, s0, s, l, u, a);
    StepKeeps(cfg, EMPTY_DB, s, l);
    MovedInContest(cfg, s0, s, l, u, s0.db.users[u].username, a);
    OtherTally(cfg, s0, s, l, u, a);
    LocalStepFrame(cfg, s, l);
    InContestStill(s0, s, Next(cfg, s, l), l.pid, u, s0.db.users[u].username, a);
  }

  lemma {:induction false} ContestRun(cfg: Config, s0: State, s: State, labels: seq<Label>, t: State, u: UserId, a: int)
    requires ContestInv(cfg, s0, s, u, a) && Runs(cfg, s, labels, t) && a >= 1
    requires Contest(labels, u, s0.db.users[u].username, a)
    ensures ContestInv(cfg, s0, t, u, a)
    decreases |labels|
  {
    if labels != [] {
      assert labels[0] in labels && InContest(labels[0], u, s0.db.users[u].username, a);
      if labels[0].Autocommit? || labels[0].Commit? || labels[0].Rollback? {
        ContestFinish(cfg, s0, s, labels[0], u, a);
      } else {
        ContestMove(cfg, s0, s, labels[0], u, a);
      }
      assert forall l :: l in labels[1..] ==> l in labels;
      ContestRun(cfg, s0, Next(cfg, s, labels[0]), labels[1..], t, u, a);
    }
  }

  lemma {:induction false} Affordable(b: int, a: int, k: nat, refused: nat)
    requires a >= 1 && b - a * k >= 0 && (refused > 0 ==> b - a * k < a)
    ensures k == Min(k + refused, b / a)
  {
    QuotientAtLeast(b, a, k);
    if refused > 0 {
      QuotientIs(b, a, k);
    }
  }

  lemma MultipleOf(d: int, a: int)
    requires a >= 1
    ensures d >= 1 ==> d * a >= a
    ensures d <= -1 ==> d * a <= -a
  {
  }

  lemma QuotientIs(b: int, a: int, k: nat)
    requires a >= 1 && 0 <= b - a * k < a
    ensures b / a == k
  {
    MultipleOf(b / a - k, a);
    assert (b / a - k) * a == (b - b % a) - a * k;
  }

  lemma QuotientAtLeast(b: int, a: int, k: nat)
    requires a >= 1 && 0 <= b - a * k
    ensures b / a >= k
  {
    MultipleOf(b / a - k, a);
    assert (b / a - k) * a == (b - b % a) - a * k;
  }

  /**
   However the statements interleave, and at every point of the run: of the transfers of a points
   that have finished for u, exactly as many went through as u's balance at the start covers, the
   others were refused, and the balance has gone down by exactly the payments made. Once none of
   them is under way, that accounts for every transfer that had passed the checks and got a verdict.
   */
  lemma {:induction false} NoDoubleSpend(
      cfg: Config, before: seq<Label>, s0: State, labels: seq<Label>, t: State, u: UserId, a: int)
    requires Runs(cfg, INITIAL, before, s0) && u in s0.db.users && a >= 1
    requires MayStart(s0, u, s0.db.users[u].username, a)
    requires Runs(cfg, s0, labels, t) && Contest(labels, u, s0.db.users[u].username, a)
    ensures var paid, refused := |PaidBy(s0, t, u)|, |RefusedTo(s0, t, u)|;
      && paid == Min(paid + refused, s0.db.users[u].balance / a)
      && u in t.db.users && t.db.users[u].balance == s0.db.users[u].balance - a * paid
    ensures Settled(s0, t, u) ==>
      |PaidBy(s0, t, u)| == Min(|Tried(s0, t, u)| - |GaveUp(s0, t, u)|, s0.db.users[u].balance / a)
  {
    ContestEnds(cfg, before, s0, labels, t, u, a);
    Verdicts(s0, t, u, a);
    if Settled(s0, t, u) {
      AllAccountedFor(s0, t, u, s0.db.users[u].username, a);
    }
  }

  lemma {:induction false} ContestEnds(
      cfg: Config, before: seq<Label>, s0: State, labels: seq<Label>, t: State, u: UserId, a: int)
    requires Runs(cfg, INITIAL, before, s0) && u in s0.db.users && a >= 1
    requires MayStart(s0, u, s0.db.users[u].username, a)
    requires Runs(cfg, s0, labels, t) && Contest(labels, u, s0.db.users[u].username, a)
    ensures Tally(s0, t, u, a) && t.db.users[u].balance >= 0
    ensures ProcsInContest(s0, t, u, s0.db.users[u].username, a)
  {
    ContestStarts(cfg, before, s0, u, a);
    ContestRun(cfg, s0, s0, labels, t, u, a);
    BalancesNonNegative(t.db, u);
  }

  lemma {:induction false} Verdicts(s0: State, t: State, u: UserId, a: int)
    requires u in s0.db.users && Tally(s0, t, u, a) && t.db.users[u].balance >= 0 && a >= 1
    ensures var paid, refused := |PaidBy(s0, t, u)|, |RefusedTo(s0, t, u)|;
      && paid == Min(paid + refused, s0.db.users[u].balance / a)
      && t.db.users[u].balance == s0.db.users[u].balance - a * paid
  {
    SpentIsProduct(a, |PaidBy(s0, t, u)|);
    Affordable(s0.db.users[u].balance, a, |PaidBy(s0, t, u)|, |RefusedTo(s0, t, u)|);
  }

  lemma {:induction false} ContestStarts(cfg: Config, before: seq<Label>, s0: State, u: UserId, a: int)
    requires Runs(cfg, INITIAL, before, s0) && u in s0.db.users && MayStart(s0, u, s0.db.users[u].username, a)
    ensures ContestInv(cfg, s0, s0, u, a)
  {
    RunKeeps(cfg, EMPTY_DB, INITIAL, before, s0);
    LedgerHolds(cfg, before, s0);
    assert PaidBy(s0, s0, u) == {} && RefusedTo(s0, s0, u) == {};
  }

  lemma {:induction false} AllAccountedFor(s0: State, t: State, u: UserId, name: string, a: int)
    requires Settled(s0, t, u) && ProcsInContest(s0, t, u, name, a)
    ensures |Tried(s0, t, u)| == |PaidBy(s0, t, u)| + |RefusedTo(s0, t, u)| + |GaveUp(s0, t, u)|
  {
    var tried, paid, refused, gaveUp := Tried(s0, t, u), PaidBy(s0, t, u), RefusedTo(s0, t, u), GaveUp(s0, t, u);
    forall pid | pid in tried
      ensures pid in paid + refused + gaveUp
    {
      assert ProcInContest(s0, pid, t.procs[pid], u, name, a);
    }
    ThreeParts(tried, paid, refused, gaveUp);
  }

  lemma {:induction false} ThreeParts(all: set<Pid>, a: set<Pid>, b: set<Pid>, c: set<Pid>)
    requires all == a + b + c && a !! b && (a + b) !! c
    ensures |all| == |a| + |b| + |c|
  {
    assert |a + b| == |a| + |b|;
  }
}
