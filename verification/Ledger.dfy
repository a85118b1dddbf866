/**
 Points under concurrency (secure-coding/app/blueprints/transfer.py).

 In every committed state of every interleaving each balance is the opening balance plus the
 recorded receipts less the recorded payments, no prefix of the record overdraws anybody, and the
 total is the total ever handed out. The one moment at which points are missing, between debit
 and credit, is visible only to the transaction itself.
 */
module Ledger {
  import opened Base
  import opened Schema
  import opened Engine

  /** Received less sent over the rows of `transfers`. */
  function Net(ts: seq<Transfer>, u: UserId): int {
    if ts == [] then 0
    else
      var t := ts[|ts| - 1];
      Net(ts[..|ts| - 1], u) + (if t.receiver == u then t.amount else 0) - (if t.sender == u then t.amount else 0)
  }

  function Balances(db: DB): map<UserId, int> {
    map u | u in db.users :: db.users[u].balance
  }

  ghost function Sum(m: map<UserId, int>): int
    decreases |m|
  {
    if m == map[] then 0
    else
      var k :| k in m;
      m[k] + Sum(m - {k})
  }

  lemma {:induction false} SumSplit(m: map<UserId, int>, k: UserId)
    requires k in m
    ensures Sum(m) == m[k] + Sum(m - {k})
    decreases |m|
  {
    var j :| j in m && Sum(m) == m[j] + Sum(m - {j});
    if j != k {
      SumSplit(m - {j}, k);
      assert m - {j} - {k} == m - {k} - {j};
      SumSplit(m - {k}, j);
    }
  }

  lemma {:induction false} SumPut(m: map<UserId, int>, k: UserId, v: int)
    ensures Sum(m[k := v]) == Sum(m) + v - At(m, k)
  {
    SumSplit(m[k := v], k);
    if k in m {
      SumSplit(m, k);
      assert m[k := v] - {k} == m - {k};
    } else {
      assert m[k := v] - {k} == m;
    }
  }

  /** A value is at most the sum of a table without negative values, and so are two of them. */
  lemma {:induction false} SumBounds(m: map<UserId, int>, j: UserId, k: UserId)
    requires forall u :: u in m ==> m[u] >= 0
    requires j in m && k in m
    ensures if j == k then m[j] <= Sum(m) else m[j] + m[k] <= Sum(m)
  {
    SumSplit(m, j);
    SumNonNegative(m - {j});
    if j != k {
      SumSplit(m - {j}, k);
      SumNonNegative(m - {j} - {k});
    }
  }

  lemma {:induction false} SumNonNegative(m: map<UserId, int>)
    requires forall u :: u in m ==> m[u] >= 0
    ensures Sum(m) >= 0
    decreases |m|
  {
    if m != map[] {
      var k :| k in m && Sum(m) == m[k] + Sum(m - {k});
      SumNonNegative(m - {k});
    }
  }

  lemma OneShareLess(n: int, bound: int)
    ensures n * bound == (n - 1) * bound + bound
  {
  }

  lemma {:induction false} SumAtMost(m: map<UserId, int>, bound: int)
    requires forall u :: u in m ==> m[u] <= bound
    ensures Sum(m) <= |m| * bound
    decreases |m|
  {
    if m != map[] {
      var k :| k in m && Sum(m) == m[k] + Sum(m - {k});
      SumAtMost(m - {k}, bound);
      assert (m - {k}).Keys == m.Keys - {k};
      assert |m - {k}| == |m| - 1;
      OneShareLess(|m|, bound);
    }
  }

  // ------------------------------------------------------------------------------- the invariant

  ghost predicate Reconciled(db: DB) {
    && db.history.opening.Keys == db.users.Keys
    && (forall u :: u in db.users ==>
         db.users[u].balance == db.history.opening[u] + Net(db.transfers, u))
  }

  ghost predicate NeverOverdrawn(db: DB) {
    forall n, u :: 0 <= n <= |db.transfers| && u in db.history.opening ==>
      db.history.opening[u] + Net(db.transfers[..n], u) >= 0
  }

  ghost predicate Conserved(db: DB) {
    Sum(Balances(db)) == Sum(db.history.opening)
  }

  ghost predicate WellRecorded(cfg: Config, db: DB) {
    && (forall t :: t in db.transfers ==>
         t.sender in db.users && t.receiver in db.users && t.sender != t.receiver && 1 <= t.amount <= MAX_AMOUNT)
    && (forall u :: u in db.users && u in db.history.opening ==>
         db.history.opening[u] == if db.users[u].isAdmin then 0 else cfg.bonus)
  }

  ghost predicate Balanced(cfg: Config, db: DB) {
    Reconciled(db) && NeverOverdrawn(db) && Conserved(db) && WellRecorded(cfg, db)
  }

  lemma {:induction false} BalancesNonNegative(db: DB, u: UserId)
    requires Reconciled(db) && NeverOverdrawn(db) && u in db.users
    ensures db.users[u].balance >= 0
  {
    assert db.transfers[..|db.transfers|] == db.transfers;
  }

  predicate SameMoney(db: DB, db': DB) {
    && db'.users.Keys == db.users.Keys
    && (forall u :: u in db.users ==>
         db'.users[u].balance == db.users[u].balance && db'.users[u].isAdmin == db.users[u].isAdmin)
    && db'.transfers == db.transfers
    && db'.history.opening == db.history.opening
  }

  lemma {:induction false} SameMoneyKeeps(cfg: Config, db: DB, db': DB)
    requires Balanced(cfg, db) && SameMoney(db, db')
    ensures Balanced(cfg, db')
  {
    assert Balances(db') == Balances(db);
  }

  lemma {:induction false} ReportSameMoney(cfg: Config, db: DB, me: UserId, target: Target)
    requires me in db.users
    ensures SameMoney(db, Alone(cfg, db, FileReport(me, target)).0)
  {
    ReportMeaning(cfg, db, me, target);
  }

  lemma {:induction false} AutoSameMoney(cfg: Config, db: DB, stmt: Stmt)
    requires !AreaOf(stmt).Money? && !AreaOf(stmt).Reports? && !stmt.InsertUser?
    ensures SameMoney(db, Alone(cfg, db, Auto(stmt)).0)
  {
    AutoMeaning(cfg, db, stmt);
  }

  /** What a registration adds: one account, holding its opening balance. */
  predicate Opened(db: DB, db': DB, uid: UserId, balance: int) {
    && uid !in db.users
    && db'.users.Keys == db.users.Keys + {uid}
    && db'.users[uid].balance == balance
    && (forall u :: u in db.users ==> db'.users[u] == db.users[u])
    && db'.transfers == db.transfers
    && db'.history.opening == db.history.opening[uid := balance]
  }

  lemma {:induction false} NewUserKeeps(cfg: Config, db: DB, stmt: Stmt)
    requires Balanced(cfg, db) && stmt.InsertUser? && Independent(cfg, stmt)
    ensures Balanced(cfg, Alone(cfg, db, Auto(stmt)).0)
  {
    AutoMeaning(cfg, db, stmt);
    if Exec(cfg, Start(db), stmt).Ok? {
      OpenedKeeps(cfg, db, Alone(cfg, db, Auto(stmt)).0, stmt.uid, stmt.balance);
    }
  }

  lemma {:induction false} OpenedKeeps(cfg: Config, db: DB, db': DB, uid: UserId, balance: int)
    requires Balanced(cfg, db) && Opened(db, db', uid, balance) && balance >= 0
    requires balance == if db'.users[uid].isAdmin then 0 else cfg.bonus
    ensures Balanced(cfg, db')
  {
    forall n | 0 <= n <= |db.transfers|
      ensures Net(db.transfers[..n], uid) == 0
    {
      Unrecorded(db.transfers[..n], uid, db.users.Keys);
    }
    OpenedReconciled(db, db', uid, balance);
    OpenedConserved(db, db', uid, balance);
  }

  lemma {:induction false} OpenedReconciled(db: DB, db': DB, uid: UserId, balance: int)
    requires Reconciled(db) && NeverOverdrawn(db) && Opened(db, db', uid, balance) && balance >= 0
    requires forall n :: 0 <= n <= |db.transfers| ==> Net(db.transfers[..n], uid) == 0
    ensures Reconciled(db') && NeverOverdrawn(db')
  {
    assert db.transfers[..|db.transfers|] == db.transfers;
  }

  lemma {:induction false} OpenedConserved(db: DB, db': DB, uid: UserId, balance: int)
    requires Reconciled(db) && Conserved(db) && Opened(db, db', uid, balance)
    ensures Conserved(db')
  {
    assert Balances(db') == Balances(db)[uid := balance];
    SumPut(Balances(db), uid, balance);
    SumPut(db.history.opening, uid, balance);
  }

  /** Somebody without an account yet is party to no transfer. */
  lemma {:induction false} Unrecorded(ts: seq<Transfer>, u: UserId, known: set<UserId>)
    requires u !in known && forall t :: t in ts ==> t.sender in known && t.receiver in known
    ensures Net(ts, u) == 0
  {
    if ts != [] {
      Unrecorded(ts[..|ts| - 1], u, known);
      assert ts[|ts| - 1] in ts;
    }
  }

  lemma {:induction false} NetOneMore(ts: seq<Transfer>, t: Transfer, u: UserId)
    ensures Net(ts + [t], u) ==
            Net(ts, u) + (if t.receiver == u then t.amount else 0) - (if t.sender == u then t.amount else 0)
  {
    assert (ts + [t])[..|ts|] == ts;
  }

  lemma {:induction false} PayReconciles(db: DB, s: UserId, r: UserId, a: int)
    requires Reconciled(db) && s in db.users && r in db.users && s != r
    ensures Reconciled(Paid(db, s, r, a))
  {
    var db' := Paid(db, s, r, a);
    assert db'.users.Keys == db.users.Keys;
    forall u | u in db'.users
      ensures db'.users[u].balance == db'.history.opening[u] + Net(db'.transfers, u)
    {
      NetOneMore(db.transfers, Transfer(s, r, a), u);
    }
  }

  lemma {:induction false} PayKeepsRecord(db: DB, s: UserId, r: UserId, a: int)
    requires Reconciled(db) && NeverOverdrawn(db) && s in db.users && r in db.users && s != r
    requires 0 < a <= db.users[s].balance
    ensures Reconciled(Paid(db, s, r, a)) && NeverOverdrawn(Paid(db, s, r, a))
  {
    PayReconciles(db, s, r, a);
    var ts, t := db.transfers, Transfer(s, r, a);
    forall n, u | 0 <= n <= |ts| + 1 && u in db.history.opening
      ensures db.history.opening[u] + Net((ts + [t])[..n], u) >= 0
    {
      BalancesNonNegative(db, u);
      if n <= |ts| {
        assert (ts + [t])[..n] == ts[..n];
      } else {
        assert (ts + [t])[..n] == ts + [t];
        NetOneMore(ts, t, u);
      }
    }
  }

  lemma {:induction false} PayConserves(db: DB, s: UserId, r: UserId, a: int)
    requires s in db.users && r in db.users && s != r
    ensures Sum(Balances(Paid(db, s, r, a))) == Sum(Balances(db))
  {
    var m := Balances(db);
    var debited := m[s := m[s] - a];
    assert Balances(Paid(db, s, r, a)) == debited[r := m[r] + a];
    SumPut(m, s, m[s] - a);
    SumPut(debited, r, m[r] + a);
  }

  lemma {:induction false} PaidBalanced(cfg: Config, db: DB, s: UserId, r: UserId, a: int)
    requires Balanced(cfg, db) && Admissible(cfg, db, Pay(s, r, a)) && a <= db.users[s].balance
    ensures Balanced(cfg, Paid(db, s, r, a))
  {
    PayKeepsRecord(db, s, r, a);
    PayConserves(db, s, r, a);
    PayWellRecorded(cfg, db, s, r, a);
  }

  lemma {:induction false} PayWellRecorded(cfg: Config, db: DB, s: UserId, r: UserId, a: int)
    requires WellRecorded(cfg, db) && s in db.users && r in db.users && s != r && 1 <= a <= MAX_AMOUNT
    ensures WellRecorded(cfg, Paid(db, s, r, a))
  {
    var db' := Paid(db, s, r, a);
    assert db'.users.Keys == db.users.Keys;
    assert forall t :: t in db'.transfers ==> t in db.transfers || t == Transfer(s, r, a);
  }

  lemma {:induction false} PayKeepsBalanced(cfg: Config, db: DB, s: UserId, r: UserId, a: int)
    requires Balanced(cfg, db) && Admissible(cfg, db, Pay(s, r, a))
    ensures Balanced(cfg, Alone(cfg, db, Pay(s, r, a)).0)
  {
    BalancesNonNegative(db, r);
    PayMeaning(cfg, db, s, r, a);
    if db.users[s].balance >= a {
      PaidBalanced(cfg, db, s, r, a);
    }
  }

  lemma {:induction false} AloneKeepsBalanced(cfg: Config, db: DB, txn: Txn)
    requires Balanced(cfg, db) && Admissible(cfg, db, txn)
    ensures Balanced(cfg, Alone(cfg, db, txn).0)
  {
    match txn
    case Pay(s, r, a) => PayKeepsBalanced(cfg, db, s, r, a);
    case FileReport(me, target) =>
      ReportSameMoney(cfg, db, me, target);
      SameMoneyKeeps(cfg, db, Alone(cfg, db, txn).0);
    case Auto(stmt) =>
      if stmt.InsertUser? {
        NewUserKeeps(cfg, db, stmt);
      } else {
        AutoSameMoney(cfg, db, stmt);
        SameMoneyKeeps(cfg, db, Alone(cfg, db, txn).0);
      }
  }

  lemma {:induction false} ReplayBalanced(cfg: Config, log: seq<Entry>)
    requires Faithful(cfg, EMPTY_DB, log)
    ensures Balanced(cfg, Replay(cfg, EMPTY_DB, log))
  {
    if log == [] {
      assert Balances(EMPTY_DB) == map[];
    } else {
      var front := log[..|log| - 1];
      LastOfLog(cfg, EMPTY_DB, log);
      ReplayBalanced(cfg, front);
      AloneKeepsBalanced(cfg, Replay(cfg, EMPTY_DB, front), log[|log| - 1].txn);
    }
  }

  /**
   The ledger theorem: after any run, balances are opening balances plus receipts less payments,
   every prefix of the transfers leaves everybody at zero or above, and the committed total is the
   total handed out. A run may stop anywhere, so this holds at every step, with transfers under way.
   */
  lemma {:induction false} LedgerHolds(cfg: Config, labels: seq<Label>, t: State)
    requires Runs(cfg, INITIAL, labels, t)
    ensures Reconciled(t.db) && NeverOverdrawn(t.db) && Conserved(t.db) && WellRecorded(cfg, t.db)
  {
    Serializable(cfg, labels, t);
    ReplayBalanced(cfg, t.log);
  }

  /**
   All or nothing: at its place in the serial order a payment moves its amount and is recorded if the
   sender's balance there covers it, and otherwise is refused and leaves everything as it was.
   */
  lemma {:induction false} PaymentsAllOrNothing(cfg: Config, labels: seq<Label>, t: State, i: nat)
    requires Runs(cfg, INITIAL, labels, t) && i < |t.log| && t.log[i].txn.Pay?
    ensures var before, after := Replay(cfg, EMPTY_DB, t.log[..i]), Replay(cfg, EMPTY_DB, t.log[..i + 1]);
      var p := t.log[i].txn;
      && p.sender in before.users && p.receiver in before.users && p.sender != p.receiver
      && if before.users[p.sender].balance >= p.amount
         then after == Paid(before, p.sender, p.receiver, p.amount) && t.log[i].outcome == Committed
         else after == before && t.log[i].outcome == RolledBack(Insufficient)
  {
    Serializable(cfg, labels, t);
    ReplayNext(cfg, EMPTY_DB, t.log, i);
    var before, p := Replay(cfg, EMPTY_DB, t.log[..i]), t.log[i].txn;
    FaithfulPrefix(cfg, EMPTY_DB, t.log, i);
    ReplayBalanced(cfg, t.log[..i]);
    BalancesNonNegative(before, p.receiver);
    PayMeaning(cfg, before, p.sender, p.receiver, p.amount);
  }

  // ------------------------------------------------------------------- inside a payment, overflow

  /** What a payment under way sees after `next` of its statements. */
  function Missing(next: nat, amount: int): int {
    if next == 1 then amount else 0
  }

  /**
   A payment under way sees the total short by its amount between debit and credit, and at no
   other point; all the balances it sees lie between zero and the total handed out.
   */
  lemma {:induction false} PaymentUnderWay(cfg: Config, labels: seq<Label>, t: State, pid: Pid, u: UserId)
    requires Runs(cfg, INITIAL, labels, t)
    requires pid in t.procs && t.procs[pid].Running? && t.procs[pid].txn.Pay?
    ensures var p := t.procs[pid];
      && Sum(Balances(p.work.db)) == Sum(Balances(t.db)) - Missing(p.next, p.txn.amount)
      && (u in p.work.db.users ==> 0 <= p.work.db.users[u].balance <= Sum(t.db.history.opening))
      && (p.next == 1 ==>
           p.txn.receiver in p.work.db.users
           && p.work.db.users[p.txn.receiver].balance + p.txn.amount <= Sum(t.db.history.opening))
  {
    RunKeeps(cfg, EMPTY_DB, INITIAL, labels, t);
    LedgerHolds(cfg, labels, t);
    var p := t.procs[pid];
    assert ProcOk(cfg, t, pid, p);
    PaymentView(cfg, t.db, p.txn.sender, p.txn.receiver, p.txn.amount, p.next, p.work, u);
  }

  lemma {:induction false} AllNonNegative(db: DB)
    requires Reconciled(db) && NeverOverdrawn(db)
    ensures forall v :: v in Balances(db) ==> Balances(db)[v] >= 0
  {
    forall v | v in Balances(db)
      ensures Balances(db)[v] >= 0
    {
      BalancesNonNegative(db, v);
    }
  }

  lemma {:induction false} PaymentView(
      cfg: Config, db: DB, s: UserId, r: UserId, a: int, n: nat, work: Work, u: UserId)
    requires Balanced(cfg, db) && s in db.users && r in db.users && s != r && a > 0
    requires n <= 3 && Run(cfg, Start(db), Statements(Pay(s, r, a))[..n]) == Ok(work)
    ensures Sum(Balances(work.db)) == Sum(Balances(db)) - Missing(n, a)
    ensures u in work.db.users ==> 0 <= work.db.users[u].balance <= Sum(db.history.opening)
    ensures n == 1 ==> r in work.db.users && work.db.users[r].balance + a <= Sum(db.history.opening)
  {
    PaymentSteps(cfg, db, s, r, a, n, work);
    SeenView(db, work.db, s, r, a, n, u);
  }

  lemma {:induction false} SeenView(db: DB, seen: DB, s: UserId, r: UserId, a: int, n: nat, u: UserId)
    requires Reconciled(db) && NeverOverdrawn(db) && Conserved(db)
    requires s in db.users && r in db.users && s != r && a > 0 && (n >= 1 ==> a <= db.users[s].balance)
    requires Balances(seen) == Seen(Balances(db), s, r, a, n)
    ensures Sum(Balances(seen)) == Sum(Balances(db)) - Missing(n, a)
    ensures u in seen.users ==> 0 <= seen.users[u].balance <= Sum(db.history.opening)
    ensures n == 1 ==> r in seen.users && seen.users[r].balance + a <= Sum(db.history.opening)
  {
    AllNonNegative(db);
    PaymentBalances(Balances(db), s, r, a, n, u);
    SeenRow(db, seen, Seen(Balances(db), s, r, a, n), u);
    SeenRow(db, seen, Seen(Balances(db), s, r, a, n), r);
  }

  lemma {:induction false} SeenRow(db: DB, seen: DB, m: map<UserId, int>, u: UserId)
    requires Balances(seen) == m && m.Keys == db.users.Keys
    ensures u in seen.users <==> u in db.users
    ensures u in seen.users ==> seen.users[u].balance == m[u]
  {
    assert u in seen.users <==> u in Balances(seen);
  }

  /** The balances a payment sees after n statements. */
  function Seen(m: map<UserId, int>, s: UserId, r: UserId, a: int, n: nat): map<UserId, int>
    requires s in m && r in m
  {
    if n == 0 then m
    else if n == 1 then m[s := m[s] - a]
    else m[s := m[s] - a][r := m[r] + a]
  }

  lemma {:induction false} PaymentBalances(m: map<UserId, int>, s: UserId, r: UserId, a: int, n: nat, u: UserId)
    requires s in m && r in m && s != r && a > 0
    requires forall v :: v in m ==> m[v] >= 0
    requires n >= 1 ==> a <= m[s]
    ensures Sum(Seen(m, s, r, a, n)) == Sum(m) - Missing(n, a)
    ensures u in m ==> 0 <= Seen(m, s, r, a, n)[u] <= Sum(m)
    ensures m[r] + a <= Sum(m) || n == 0
  {
    SumBounds(m, s, r);
    if u in m {
      SumBounds(m, u, u);
    }
    if n >= 1 {
      SumPut(m, s, m[s] - a);
      SumPut(m[s := m[s] - a], r, m[r] + a);
    }
  }

  lemma {:induction false} DebitSeen(cfg: Config, db: DB, s: UserId, r: UserId, a: int)
    requires s in db.users && r in db.users
    ensures var ran := Run(cfg, Start(db), [Debit(s, a)]);
      ran.Ok? ==> a <= db.users[s].balance && Balances(ran.value.db) == Seen(Balances(db), s, r, a, 1)
  {
    RunOne(cfg, Start(db), Debit(s, a));
  }

  lemma {:induction false} CreditSeen(cfg: Config, db: DB, s: UserId, r: UserId, a: int)
    requires s in db.users && r in db.users && s != r
    ensures var ran := Run(cfg, Start(db), [Debit(s, a), Credit(r, a)]);
      ran.Ok? ==> a <= db.users[s].balance && Balances(ran.value.db) == Seen(Balances(db), s, r, a, 2)
  {
    RunTwo(cfg, Start(db), Debit(s, a), Credit(r, a));
  }

  /** The INSERT of the transfer row leaves every balance. */
  lemma {:induction false} RowSeen(cfg: Config, w: Work, stmts: seq<Stmt>, t: Transfer)
    requires Run(cfg, w, stmts + [InsertTransfer(t)]).Ok?
    ensures Run(cfg, w, stmts).Ok?
    ensures Run(cfg, w, stmts + [InsertTransfer(t)]).value.db.users == Run(cfg, w, stmts).value.db.users
  {
    assert (stmts + [InsertTransfer(t)])[..|stmts|] == stmts;
  }

  lemma {:induction false} PaymentSteps(cfg: Config, db: DB, s: UserId, r: UserId, a: int, n: nat, work: Work)
    requires s in db.users && r in db.users && s != r && a > 0
    requires n <= 3 && Run(cfg, Start(db), Statements(Pay(s, r, a))[..n]) == Ok(work)
    ensures n >= 1 ==> a <= db.users[s].balance
    ensures Balances(work.db) == Seen(Balances(db), s, r, a, n)
  {
    var debit, credit, row := Debit(s, a), Credit(r, a), InsertTransfer(Transfer(s, r, a));
    assert Statements(Pay(s, r, a)) == [debit, credit, row];
    if n == 0 {
      assert [debit, credit, row][..n] == [];
    } else if n == 1 {
      assert [debit, credit, row][..n] == [debit];
      DebitSeen(cfg, db, s, r, a);
    } else {
      assert [debit, credit, row][..n] == if n == 2 then [debit, credit] else [debit, credit] + [row];
      CreditSeen(cfg, db, s, r, a);
      if n == 3 {
        RowSeen(cfg, Start(db), [debit, credit], Transfer(s, r, a));
      }
    }
  }

  const MAX_INT64 := 0x7FFF_FFFF_FFFF_FFFF

  /** In every state of every run each balance fits, if the accounts times the sign-up bonus do. */
  lemma {:induction false} BalancesFit(cfg: Config, labels: seq<Label>, t: State, u: UserId)
    requires Runs(cfg, INITIAL, labels, t) && u in t.db.users
    requires |t.db.users| * cfg.bonus <= MAX_INT64
    ensures 0 <= t.db.users[u].balance <= MAX_INT64
  {
    LedgerHolds(cfg, labels, t);
    HandedOutFits(cfg, t.db);
    BalanceAtMostTotal(t.db, u);
  }

  /** The sum a credit computes fits as well, in every transaction that stands before its credit. */
  lemma {:induction false} CreditFits(cfg: Config, labels: seq<Label>, t: State, pid: Pid)
    requires Runs(cfg, INITIAL, labels, t)
    requires |t.db.users| * cfg.bonus <= MAX_INT64
    requires pid in t.procs && t.procs[pid].Running? && t.procs[pid].txn.Pay? && t.procs[pid].next == 1
    ensures var p := t.procs[pid];
      && p.txn.receiver in p.work.db.users
      && p.work.db.users[p.txn.receiver].balance + p.txn.amount <= MAX_INT64
  {
    PaymentUnderWay(cfg, labels, t, pid, t.procs[pid].txn.receiver);
    LedgerHolds(cfg, labels, t);
    HandedOutFits(cfg, t.db);
  }

  lemma {:induction false} HandedOutFits(cfg: Config, db: DB)
    requires Reconciled(db) && WellRecorded(cfg, db)
    requires |db.users| * cfg.bonus <= MAX_INT64
    ensures Sum(db.history.opening) <= MAX_INT64
  {
    SumAtMost(db.history.opening, if cfg.bonus >= 0 then cfg.bonus else 0);
    assert |db.history.opening.Keys| == |db.users.Keys|;
  }

  lemma {:induction false} BalanceAtMostTotal(db: DB, u: UserId)
    requires Reconciled(db) && NeverOverdrawn(db) && Conserved(db) && u in db.users
    ensures 0 <= db.users[u].balance <= Sum(db.history.opening)
  {
    AllNonNegative(db);
    SumBounds(Balances(db), u, u);
  }
}
