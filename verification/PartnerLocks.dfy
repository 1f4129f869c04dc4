/**
 * `set_partner_link` at the grain of row locks: each transaction locks the lower account row, then
 * the higher, checks, issues its two UPDATEs and commits, or is rolled back anywhere on the way. The
 * steps of any number of them interleave. The ones that end behave as if each ran in one piece, and
 * they cannot deadlock.
 */
module PartnerLocks {
  import opened Common
  import T = Tables

  type Outcome = Result<(), T.PairError>

  datatype Phase = LockLow | LockHigh | Check | WriteA | WriteB | Commit | Ended(outcome: Outcome) | RolledBack

  /** `rows` is what the locking SELECT returned so far; `pending` the uncommitted updates. */
  datatype Tx = Tx(
    a: AccountId,
    b: AccountId,
    phase: Phase,
    rows: map<AccountId, Option<AccountId>>,
    pending: map<AccountId, AccountId>)
  {
    function Low(): AccountId { if a <= b then a else b }

    function High(): AccountId { if a <= b then b else a }

    predicate Over() { phase.Ended? || phase.RolledBack? }
  }

  /** `partner` is committed state; `holder` maps each locked row to the transaction holding it. */
  datatype State = State(
    keys: map<AccountId, string>,
    partner: map<AccountId, AccountId>,
    holder: map<AccountId, nat>,
    txs: seq<Tx>)

  function Committed(partner: map<AccountId, AccountId>, a: AccountId): Option<AccountId> {
    if a in partner then Some(partner[a]) else None
  }

  function With(s: State, i: nat, tx: Tx): State
    requires i < |s.txs|
  {
    s.(txs := s.txs[i := tx])
  }

  /** Ending a transaction, by commit or rollback, releases its locks. */
  function End(s: State, i: nat, partner: map<AccountId, AccountId>, last: Phase): State
    requires i < |s.txs|
  {
    State(
      s.keys,
      partner,
      map r | r in s.holder && s.holder[r] != i :: s.holder[r],
      s.txs[i := s.txs[i].(phase := last, rows := map[], pending := map[])])
  }

  /** The app-level check on the rows the SELECT returned. */
  predicate CheckPasses(tx: Tx) {
    && tx.a in tx.rows && tx.b in tx.rows
    && (match (tx.rows[tx.a], tx.rows[tx.b])
        case (None, None) => true
        case (Some(p), Some(q)) => p == tx.b && q == tx.a
        case _ => false)
  }

  /** An uncommitted update of another transaction makes an insertion into the unique index wait. */
  ghost predicate IndexFree(s: State, i: nat, value: AccountId) {
    forall j, x :: 0 <= j < |s.txs| && j != i && x in s.txs[j].pending ==> s.txs[j].pending[x] != value
  }

  ghost predicate CanStep(s: State, i: nat)
    requires i < |s.txs|
  {
    var tx := s.txs[i];
    match tx.phase
    case LockLow => tx.Low() in s.keys ==> tx.Low() !in s.holder
    case LockHigh => tx.High() in s.keys ==> tx.High() !in s.holder
    case Check => true
    case WriteA => IndexFree(s, i, tx.b)
    case WriteB => IndexFree(s, i, tx.a)
    case Commit => true
    case _ => false
  }

  function Lock(s: State, i: nat, row: AccountId, next: Phase): State
    requires i < |s.txs|
  {
    var tx := s.txs[i];
    if row in s.keys
    then s.(holder := s.holder[row := i],
            txs := s.txs[i := tx.(phase := next, rows := tx.rows[row := Committed(s.partner, row)])])
    else With(s, i, tx.(phase := next))
  }

  /** `UPDATE accounts SET partner_account_id = $value WHERE id = $id AND partner_account_id IS NULL`. */
  function Write(s: State, i: nat, id: AccountId, value: AccountId, next: Phase): State
    requires i < |s.txs|
  {
    var tx := s.txs[i];
    if id in s.partner || id in tx.pending then With(s, i, tx.(phase := next))
    else if id == value then End(s, i, s.partner, Ended(Err(T.CheckViolation)))
    else if T.Taken(s.partner, value) || T.Taken(tx.pending, value) then End(s, i, s.partner, Ended(Err(T.UniqueViolation)))
    else With(s, i, tx.(phase := next, pending := tx.pending[id := value]))
  }

  ghost function Step(s: State, i: nat): State
    requires i < |s.txs| && CanStep(s, i)
  {
    var tx := s.txs[i];
    match tx.phase
    case LockLow => Lock(s, i, tx.Low(), if tx.a == tx.b then Check else LockHigh)
    case LockHigh => Lock(s, i, tx.High(), Check)
    case Check => if CheckPasses(tx) then With(s, i, tx.(phase := WriteA)) else End(s, i, s.partner, Ended(Err(T.WrongPartner)))
    case WriteA => Write(s, i, tx.a, tx.b, WriteB)
    case WriteB => Write(s, i, tx.b, tx.a, Commit)
    case Commit => End(s, i, s.partner + tx.pending, Ended(Ok(())))
  }

  /** A lost connection or a failed statement: nothing was committed, and the locks are released. */
  function RollBack(s: State, i: nat): State
    requires i < |s.txs| && !s.txs[i].Over()
  {
    End(s, i, s.partner, RolledBack)
  }

  function Begin(s: State, a: AccountId, b: AccountId): State {
    s.(txs := s.txs + [Tx(a, b, LockLow, map[], map[])])
  }

  // ---------------------------------------------------------------------------------------------
  // The invariant

  ghost predicate Holds(s: State, i: nat, row: AccountId)
    requires i < |s.txs|
  {
    var tx := s.txs[i];
    && row in s.keys
    && (match tx.phase
        case LockLow => false
        case LockHigh => row == tx.Low()
        case Ended(_) => false
        case RolledBack => false
        case _ => row == tx.a || row == tx.b)
  }

  /** What the transaction has read and written agrees with the committed rows it holds locked. */
  ghost predicate TxOk(s: State, i: nat)
    requires i < |s.txs|
  {
    var tx := s.txs[i];
    && (forall r :: Holds(s, i, r) ==> r in s.holder && s.holder[r] == i)
    && (forall r :: r in tx.rows <==> Holds(s, i, r))
    && (forall r :: r in tx.rows ==> tx.rows[r] == Committed(s.partner, r))
    && (tx.phase.LockHigh? ==> tx.a != tx.b)
    && (tx.phase.WriteA? || tx.phase.WriteB? || tx.phase.Commit? ==> CheckPasses(tx))
    && (tx.phase.WriteB? || tx.phase.Commit? ==> tx.a != tx.b)
    && tx.pending == PendingAt(tx)
  }

  function PendingAt(tx: Tx): map<AccountId, AccountId> {
    match tx.phase
    case WriteB => if tx.a in tx.rows && tx.rows[tx.a].None? then map[tx.a := tx.b] else map[]
    case Commit => if tx.a in tx.rows && tx.rows[tx.a].None? then map[tx.a := tx.b, tx.b := tx.a] else map[]
    case _ => map[]
  }

  ghost predicate Inv(s: State) {
    && T.Matching(s.keys, s.partner)
    && (forall r :: r in s.holder ==> s.holder[r] < |s.txs| && Holds(s, s.holder[r], r))
    && (forall i :: 0 <= i < |s.txs| ==> TxOk(s, i))
  }

  /** The one-step version, on the same committed rows. */
  function Atomic(s: State, tx: Tx): Result<T.Tables, T.PairError> {
    T.SetPartnerLink(T.Tables(s.keys, s.partner, map[], map[], []), tx.a, tx.b)
  }

  // ---------------------------------------------------------------------------------------------
  // Every step keeps the invariant and refines the one-step version

  /** Transactions that hold no row in common see none of each other's changes. */
  lemma OtherStays(s: State, s': State, i: nat, j: nat)
    requires Inv(s) && i < |s.txs| && j < |s.txs| && i != j
    requires s'.keys == s.keys && |s'.txs| == |s.txs| && s'.txs[j] == s.txs[j]
    requires forall r :: r in s.holder && s.holder[r] == j ==> r in s'.holder && s'.holder[r] == j
    requires forall r :: r in s.holder && s.holder[r] == j ==> Committed(s'.partner, r) == Committed(s.partner, r)
    ensures TxOk(s', j)
  {
    assert TxOk(s, j);
    assert forall r :: Holds(s', j, r) <==> Holds(s, j, r);
  }

  /** The transaction that locks a row, or finds that it does not exist, is next at `next`. */
  ghost predicate LocksNext(tx: Tx, row: AccountId, next: Phase) {
    || (tx.phase.LockLow? && row == tx.Low() && next == (if tx.a == tx.b then Check else LockHigh))
    || (tx.phase.LockHigh? && row == tx.High() && next == Check)
  }

  lemma LockerKeeps(s: State, i: nat, row: AccountId, next: Phase)
    requires Inv(s) && i < |s.txs| && (row in s.keys ==> row !in s.holder) && LocksNext(s.txs[i], row, next)
    ensures TxOk(Lock(s, i, row, next), i)
    ensures forall r :: Holds(Lock(s, i, row, next), i, r) <==> Holds(s, i, r) || (r == row && row in s.keys)
  {
    assert TxOk(s, i);
    assert forall r :: Holds(Lock(s, i, row, next), i, r) <==> Holds(s, i, r) || (r == row && row in s.keys);
  }

  lemma LockKeeps(s: State, i: nat, row: AccountId, next: Phase)
    requires Inv(s) && i < |s.txs| && (row in s.keys ==> row !in s.holder) && LocksNext(s.txs[i], row, next)
    ensures Inv(Lock(s, i, row, next)) && Lock(s, i, row, next).partner == s.partner
  {
    var s' := Lock(s, i, row, next);
    LockerKeeps(s, i, row, next);
    forall j | 0 <= j < |s'.txs| ensures TxOk(s', j) {
      if j != i { OtherStays(s, s', i, j); }
    }
    forall r | r in s'.holder ensures s'.holder[r] < |s'.txs| && Holds(s', s'.holder[r], r) {
      if r in s.holder { assert Holds(s, s.holder[r], r); }
    }
  }

  lemma PhaseKeeps(s: State, i: nat, tx: Tx)
    requires Inv(s) && i < |s.txs|
    requires var was := s.txs[i]; tx.a == was.a && tx.b == was.b && tx.rows == was.rows
    requires forall r :: Holds(With(s, i, tx), i, r) <==> Holds(s, i, r)
    requires TxOk(With(s, i, tx), i)
    ensures Inv(With(s, i, tx))
  {
    var s' := With(s, i, tx);
    forall j | 0 <= j < |s'.txs| ensures TxOk(s', j) {
      if j != i { OtherStays(s, s', i, j); }
    }
    forall r | r in s'.holder ensures s'.holder[r] < |s'.txs| && Holds(s', s'.holder[r], r) {
      assert Holds(s, s.holder[r], r);
    }
  }

  lemma EndKeeps(s: State, i: nat, partner: map<AccountId, AccountId>, last: Phase)
    requires Inv(s) && i < |s.txs| && T.Matching(s.keys, partner) && (last.Ended? || last.RolledBack?)
    requires forall r :: Committed(partner, r) != Committed(s.partner, r) ==> r in s.holder && s.holder[r] == i
    ensures Inv(End(s, i, partner, last))
  {
    var s' := End(s, i, partner, last);
    forall j | 0 <= j < |s'.txs| ensures TxOk(s', j) {
      if j != i { OtherStays(s, s', i, j); }
    }
    forall r | r in s'.holder ensures s'.holder[r] < |s'.txs| && Holds(s', s'.holder[r], r) {
      assert Holds(s, s.holder[r], r);
    }
  }

  /** While a transaction holds both rows they are as its check saw them: both free, or linked. */
  lemma CheckedRows(s: State, i: nat)
    requires Inv(s) && i < |s.txs| && CheckPasses(s.txs[i])
    ensures var tx := s.txs[i];
            && tx.a in s.keys && tx.b in s.keys
            && (T.Linked(s.partner, tx.a, tx.b)
                || (tx.a !in s.partner && tx.b !in s.partner && !T.Taken(s.partner, tx.a) && !T.Taken(s.partner, tx.b)))
            && (tx.rows[tx.a].None? <==> tx.a !in s.partner)
  {
    var tx := s.txs[i];
    assert TxOk(s, i);
    assert Holds(s, i, tx.a) && Holds(s, i, tx.b);
    if x :| x in s.partner && (s.partner[x] == tx.a || s.partner[x] == tx.b) {
      assert T.Linked(s.partner, x, s.partner[x]);
    }
  }

  lemma CommitKeeps(s: State, i: nat)
    requires Inv(s) && i < |s.txs| && s.txs[i].phase.Commit?
    ensures Inv(Step(s, i))
    ensures Atomic(s, s.txs[i]).Ok? && Step(s, i).partner == Atomic(s, s.txs[i]).value.partner
  {
    var tx := s.txs[i];
    assert TxOk(s, i);
    CheckedRows(s, i);
    var partner := s.partner + tx.pending;
    if tx.a in s.partner {
      assert partner == s.partner;
    } else {
      assert partner == s.partner[tx.a := tx.b][tx.b := tx.a];
      assert Holds(s, i, tx.a) && Holds(s, i, tx.b);
    }
    EndKeeps(s, i, partner, Ended(Ok(())));
  }

  lemma CheckKeeps(s: State, i: nat)
    requires Inv(s) && i < |s.txs| && s.txs[i].phase.Check?
    ensures Inv(Step(s, i)) && Step(s, i).partner == s.partner
    ensures Step(s, i).txs[i].phase.Ended? ==>
              Step(s, i).txs[i].phase.outcome == Err(T.WrongPartner) && Atomic(s, s.txs[i]) == Err(T.WrongPartner)
  {
    var tx := s.txs[i];
    assert TxOk(s, i);
    assert Holds(s, i, tx.a) <==> tx.a in s.keys;
    assert Holds(s, i, tx.b) <==> tx.b in s.keys;
    if CheckPasses(tx) {
      PhaseKeeps(s, i, tx.(phase := WriteA));
    } else {
      EndKeeps(s, i, s.partner, Ended(Err(T.WrongPartner)));
    }
  }

  lemma WriteKeeps(s: State, i: nat)
    requires Inv(s) && i < |s.txs| && CanStep(s, i) && (s.txs[i].phase.WriteA? || s.txs[i].phase.WriteB?)
    ensures Inv(Step(s, i)) && Step(s, i).partner == s.partner
    ensures Step(s, i).txs[i].phase.Ended? ==>
              Step(s, i).txs[i].phase.outcome == Err(T.CheckViolation) && Atomic(s, s.txs[i]) == Err(T.CheckViolation)
  {
    var tx, s' := s.txs[i], Step(s, i);
    assert TxOk(s, i);
    CheckedRows(s, i);
    if s'.txs[i].phase.Ended? {
      EndKeeps(s, i, s.partner, s'.txs[i].phase);
    } else {
      PhaseKeeps(s, i, s'.txs[i]);
    }
  }

  /**
   * A step either ends a transaction, and then with exactly the outcome and the new committed rows
   * of the one-step version run at that moment, or changes no committed row.
   */
  lemma StepRefinesAtomic(s: State, i: nat)
    requires Inv(s) && i < |s.txs| && CanStep(s, i)
    ensures Inv(Step(s, i))
    ensures match Step(s, i).txs[i].phase
            case Ended(outcome) => (
              match Atomic(s, s.txs[i])
              case Ok(t) => outcome == Ok(()) && Step(s, i).partner == t.partner
              case Err(e) => outcome == Err(e) && Step(s, i).partner == s.partner)
            case _ => Step(s, i).partner == s.partner
  {
    match s.txs[i].phase {
      case LockLow =>
        LockKeeps(s, i, s.txs[i].Low(), if s.txs[i].a == s.txs[i].b then Check else LockHigh);
      case LockHigh =>
        LockKeeps(s, i, s.txs[i].High(), Check);
      case Check => CheckKeeps(s, i);
      case WriteA => WriteKeeps(s, i);
      case WriteB => WriteKeeps(s, i);
      case Commit => CommitKeeps(s, i);
    }
  }

  /** A transaction may be rolled back at any point. */
  lemma RollBackKeeps(s: State, i: nat)
    requires Inv(s) && i < |s.txs| && !s.txs[i].Over()
    ensures Inv(RollBack(s, i)) && RollBack(s, i).partner == s.partner
    ensures forall r :: r in RollBack(s, i).holder ==> RollBack(s, i).holder[r] != i
  {
    EndKeeps(s, i, s.partner, RolledBack);
  }

  lemma BeginKeeps(s: State, a: AccountId, b: AccountId)
    requires Inv(s)
    ensures Inv(Begin(s, a, b))
  {
    var s' := Begin(s, a, b);
    forall r | r in s'.holder ensures s'.holder[r] < |s'.txs| && Holds(s', s'.holder[r], r) {
      assert Holds(s, s.holder[r], r);
    }
    forall j | 0 <= j < |s'.txs| ensures TxOk(s', j) {
      if j < |s.txs| {
        assert TxOk(s, j);
        assert forall r :: Holds(s', j, r) <==> Holds(s, j, r);
      }
    }
  }

  // ---------------------------------------------------------------------------------------------
  // No deadlock, and a bound on every schedule

  /** The row lock on the value keeps every rival out of the unique index too. */
  lemma IndexNeverBlocks(s: State, i: nat)
    requires Inv(s) && i < |s.txs| && (s.txs[i].phase.WriteA? || s.txs[i].phase.WriteB?)
    ensures CanStep(s, i)
  {
    var tx := s.txs[i];
    assert TxOk(s, i);
    CheckedRows(s, i);
    forall j, x | 0 <= j < |s.txs| && j != i && x in s.txs[j].pending
      ensures s.txs[j].pending[x] != tx.a && s.txs[j].pending[x] != tx.b
    {
      assert TxOk(s, j);
      CheckedRows(s, j);
      assert Holds(s, j, s.txs[j].a) && Holds(s, j, s.txs[j].b);
      assert Holds(s, i, tx.a) && Holds(s, i, tx.b);
    }
  }

  function WaitsFor(tx: Tx): AccountId {
    if tx.phase.LockLow? then tx.Low() else tx.High()
  }

  ghost function LockedAbove(s: State, row: AccountId): set<AccountId> {
    set r | r in s.holder && r > row
  }

  /** A blocked transaction waits on one that can step, possibly through a chain of rising rows. */
  lemma {:induction false} SomeoneCanStep(s: State, i: nat) returns (j: nat)
    requires Inv(s) && i < |s.txs| && !s.txs[i].Over()
    ensures j < |s.txs| && CanStep(s, j)
    decreases if CanStep(s, i) then 0 else 1, if CanStep(s, i) then {} else LockedAbove(s, WaitsFor(s.txs[i]))
  {
    if CanStep(s, i) {
      j := i;
    } else {
      if s.txs[i].phase.WriteA? || s.txs[i].phase.WriteB? {
        IndexNeverBlocks(s, i);
      }
      var row := WaitsFor(s.txs[i]);
      var h := s.holder[row];
      assert Holds(s, h, row);
      if !CanStep(s, h) {
        if s.txs[h].phase.WriteA? || s.txs[h].phase.WriteB? {
          IndexNeverBlocks(s, h);
        }
        assert TxOk(s, h);
        assert row == s.txs[h].Low() && WaitsFor(s.txs[h]) > row;
        assert WaitsFor(s.txs[h]) in LockedAbove(s, row);
      }
      j := SomeoneCanStep(s, h);
    }
  }

  function StepsLeft(tx: Tx): nat {
    match tx.phase
    case LockLow => 6
    case LockHigh => 5
    case Check => 4
    case WriteA => 3
    case WriteB => 2
    case Commit => 1
    case _ => 0
  }

  function TotalLeft(txs: seq<Tx>): nat {
    if txs == [] then 0 else TotalLeft(txs[..|txs| - 1]) + StepsLeft(txs[|txs| - 1])
  }

  lemma {:induction false} TotalAfterUpdate(txs: seq<Tx>, i: nat, tx: Tx)
    requires i < |txs|
    ensures TotalLeft(txs[i := tx]) == TotalLeft(txs) - StepsLeft(txs[i]) + StepsLeft(tx)
  {
    var front, txs' := txs[..|txs| - 1], txs[i := tx];
    if i == |txs| - 1 {
      assert txs'[..|txs'| - 1] == front;
    } else {
      TotalAfterUpdate(front, i, tx);
      assert txs'[..|txs'| - 1] == front[i := tx];
    }
  }

  /** Everything but one transaction's own entry, its locks and the committed rows is untouched. */
  ghost predicate OnlyTouches(s: State, s': State, i: nat)
    requires i < |s.txs|
  {
    && s'.keys == s.keys && |s'.txs| == |s.txs|
    && s'.txs == s.txs[i := s'.txs[i]]
    && s'.txs[i].a == s.txs[i].a && s'.txs[i].b == s.txs[i].b
  }

  lemma WriteShape(s: State, i: nat, id: AccountId, value: AccountId, next: Phase)
    requires i < |s.txs|
    ensures OnlyTouches(s, Write(s, i, id, value, next), i)
    ensures Write(s, i, id, value, next).txs[i].phase == next || Write(s, i, id, value, next).txs[i].phase.Ended?
  {
  }

  lemma LockShape(s: State, i: nat, row: AccountId, next: Phase)
    requires i < |s.txs|
    ensures OnlyTouches(s, Lock(s, i, row, next), i) && Lock(s, i, row, next).txs[i].phase == next
  {
  }

  lemma StepShape(s: State, i: nat)
    requires i < |s.txs| && CanStep(s, i)
    ensures OnlyTouches(s, Step(s, i), i)
    ensures StepsLeft(Step(s, i).txs[i]) < StepsLeft(s.txs[i])
  {
    var tx := s.txs[i];
    match tx.phase {
      case LockLow => LockShape(s, i, tx.Low(), if tx.a == tx.b then Check else LockHigh);
      case LockHigh => LockShape(s, i, tx.High(), Check);
      case WriteA => WriteShape(s, i, tx.a, tx.b, WriteB);
      case WriteB => WriteShape(s, i, tx.b, tx.a, Commit);
      case _ =>
    }
  }

  lemma StepSpendsOne(s: State, i: nat)
    requires i < |s.txs| && CanStep(s, i)
    ensures |Step(s, i).txs| == |s.txs|
    ensures TotalLeft(Step(s, i).txs) < TotalLeft(s.txs)
  {
    StepShape(s, i);
    TotalAfterUpdate(s.txs, i, Step(s, i).txs[i]);
  }

  // ---------------------------------------------------------------------------------------------
  // Schedules

  /** A transaction takes its next step, is rolled back or begins, or an account is registered. */
  datatype Move = Go(i: nat) | Abort(i: nat) | Start(a: AccountId, b: AccountId) | Register(account: AccountId, key: string)

  /** An account has its id from its registration, so no transaction names it before. */
  ghost predicate CanMove(s: State, mv: Move) {
    match mv
    case Go(i) => i < |s.txs| && CanStep(s, i)
    case Abort(i) => i < |s.txs| && !s.txs[i].Over()
    case Start(_, _) => true
    case Register(c, _) => c !in s.keys && forall i :: 0 <= i < |s.txs| ==> s.txs[i].a != c && s.txs[i].b != c
  }

  ghost function Moved(s: State, mv: Move): State
    requires CanMove(s, mv)
  {
    match mv
    case Go(i) => Step(s, i)
    case Abort(i) => RollBack(s, i)
    case Start(a, b) => Begin(s, a, b)
    case Register(c, key) => s.(keys := s.keys[c := key])
  }

  ghost predicate Schedule(s: State, moves: seq<Move>)
    decreases |moves|
  {
    moves == [] || (CanMove(s, moves[0]) && Schedule(Moved(s, moves[0]), moves[1..]))
  }

  ghost function Execute(s: State, moves: seq<Move>): State
    requires Schedule(s, moves)
    decreases |moves|
  {
    if moves == [] then s else Execute(Moved(s, moves[0]), moves[1..])
  }

  lemma RegisterKeeps(s: State, c: AccountId, key: string)
    requires Inv(s) && CanMove(s, Register(c, key))
    ensures Inv(Moved(s, Register(c, key)))
  {
    var s' := Moved(s, Register(c, key));
    assert forall i, r :: 0 <= i < |s.txs| ==> (Holds(s', i, r) <==> Holds(s, i, r));
    forall i | 0 <= i < |s'.txs| ensures TxOk(s', i) {
      assert TxOk(s, i);
    }
  }

  lemma MoveKeeps(s: State, mv: Move)
    requires Inv(s) && CanMove(s, mv)
    ensures Inv(Moved(s, mv))
  {
    match mv {
      case Go(i) => StepRefinesAtomic(s, i);
      case Abort(i) => RollBackKeeps(s, i);
      case Start(a, b) => BeginKeeps(s, a, b);
      case Register(c, key) => RegisterKeeps(s, c, key);
    }
  }

  /** Transactions keep their accounts and their places. */
  lemma MoveShape(s: State, mv: Move)
    requires CanMove(s, mv)
    ensures var s' := Moved(s, mv);
            && |s.txs| <= |s'.txs| && s.keys.Keys <= s'.keys.Keys
            && forall i :: 0 <= i < |s.txs| ==>
                 && s'.txs[i].a == s.txs[i].a && s'.txs[i].b == s.txs[i].b
                 && (s.txs[i].a in s'.keys <==> s.txs[i].a in s.keys) && (s.txs[i].b in s'.keys <==> s.txs[i].b in s.keys)
  {
    if mv.Go? {
      StepShape(s, mv.i);
    }
  }

  /** The steps and rollbacks of a schedule, and the transactions it begins. */
  function Steps(moves: seq<Move>): nat {
    if moves == [] then 0 else (if moves[0].Go? || moves[0].Abort? then 1 else 0) + Steps(moves[1..])
  }

  function Begun(moves: seq<Move>): nat {
    if moves == [] then 0 else (if moves[0].Start? then 1 else 0) + Begun(moves[1..])
  }

  lemma MoveSpends(s: State, mv: Move)
    requires CanMove(s, mv)
    ensures TotalLeft(Moved(s, mv).txs) + (if mv.Go? || mv.Abort? then 1 else 0)
         <= TotalLeft(s.txs) + (if mv.Start? then 6 else 0)
  {
    match mv {
      case Go(i) => StepSpendsOne(s, i);
      case Abort(i) => TotalAfterUpdate(s.txs, i, RollBack(s, i).txs[i]);
      case Start(a, b) =>
        var txs' := Moved(s, mv).txs;
        assert txs'[..|txs'| - 1] == s.txs;
      case Register(_, _) =>
    }
  }

  /** Every schedule keeps the invariant and takes at most six steps per transaction. */
  lemma {:induction false} SchedulesAreBounded(s: State, moves: seq<Move>)
    requires Inv(s) && Schedule(s, moves)
    ensures Inv(Execute(s, moves)) && |s.txs| <= |Execute(s, moves).txs|
    ensures Steps(moves) + TotalLeft(Execute(s, moves).txs) <= TotalLeft(s.txs) + 6 * Begun(moves)
    decreases |moves|
  {
    if moves == [] {
    } else {
      MoveSpends(s, moves[0]);
      MoveShape(s, moves[0]);
      MoveKeeps(s, moves[0]);
      SchedulesAreBounded(Moved(s, moves[0]), moves[1..]);
    }
  }

  /** So when no transaction can go on, every one has ended or was rolled back. */
  lemma StuckMeansAllOver(s: State, moves: seq<Move>)
    requires Inv(s) && Schedule(s, moves)
    requires var s' := Execute(s, moves); forall i :: 0 <= i < |s'.txs| ==> !CanStep(s', i)
    ensures var s' := Execute(s, moves); forall i :: 0 <= i < |s'.txs| ==> s'.txs[i].Over()
  {
    SchedulesAreBounded(s, moves);
    var s' := Execute(s, moves);
    forall i | 0 <= i < |s'.txs| ensures s'.txs[i].Over() {
      if !s'.txs[i].Over() {
        var j := SomeoneCanStep(s', i);
      }
    }
  }

  // ---------------------------------------------------------------------------------------------
  // Serializability

  datatype Call = Call(a: AccountId, b: AccountId, outcome: Outcome)

  /** The transaction that the move ends, if it ends one; a rolled back one does not count. */
  ghost function EndedBy(s: State, mv: Move): seq<Call>
    requires CanMove(s, mv)
  {
    if mv.Go? && Step(s, mv.i).txs[mv.i].phase.Ended?
    then [Call(s.txs[mv.i].a, s.txs[mv.i].b, Step(s, mv.i).txs[mv.i].phase.outcome)]
    else []
  }

  /** The transactions a schedule ends, in the order it ends them. */
  ghost function EndOrder(s: State, moves: seq<Move>): seq<Call>
    requires Schedule(s, moves)
    decreases |moves|
  {
    if moves == [] then [] else EndedBy(s, moves[0]) + EndOrder(Moved(s, moves[0]), moves[1..])
  }

  /** Running the calls one after another, each in one piece, gives these outcomes and ends in `partner'`. */
  ghost predicate Serial(
      keys: map<AccountId, string>, partner: map<AccountId, AccountId>,
      calls: seq<Call>, partner': map<AccountId, AccountId>)
    decreases |calls|
  {
    if calls == [] then partner' == partner
    else
      match T.SetPartnerLink(T.Tables(keys, partner, map[], map[], []), calls[0].a, calls[0].b)
      case Ok(t) => calls[0].outcome == Ok(()) && Serial(keys, t.partner, calls[1..], partner')
      case Err(e) => calls[0].outcome == Err(e) && Serial(keys, partner, calls[1..], partner')
  }

  /** The accounts of a transaction are registered at the end exactly if they were all along. */
  lemma {:induction false} NamedAccountsStay(s: State, moves: seq<Move>, i: nat)
    requires Schedule(s, moves) && i < |s.txs|
    ensures s.txs[i].a in Execute(s, moves).keys <==> s.txs[i].a in s.keys
    ensures s.txs[i].b in Execute(s, moves).keys <==> s.txs[i].b in s.keys
    decreases |moves|
  {
    if moves == [] {
    } else {
      MoveShape(s, moves[0]);
      NamedAccountsStay(Moved(s, moves[0]), moves[1..], i);
    }
  }

  /** Run in one piece on these links, the call has its outcome and leaves `partner'`. */
  ghost predicate IsCall(
      keys: map<AccountId, string>, partner: map<AccountId, AccountId>, call: Call, partner': map<AccountId, AccountId>)
  {
    match T.SetPartnerLink(T.Tables(keys, partner, map[], map[], []), call.a, call.b)
    case Ok(t) => call.outcome == Ok(()) && partner' == t.partner
    case Err(e) => call.outcome == Err(e) && partner' == partner
  }

  lemma OneMoreCall(
      keys: map<AccountId, string>, partner: map<AccountId, AccountId>, call: Call, mid: map<AccountId, AccountId>,
      calls: seq<Call>, partner': map<AccountId, AccountId>)
    requires IsCall(keys, partner, call, mid) && Serial(keys, mid, calls, partner')
    ensures Serial(keys, partner, [call] + calls, partner')
  {
    assert ([call] + calls)[1..] == calls;
  }

  lemma SameLink(s: State, keys: map<AccountId, string>, tx: Tx)
    requires (tx.a in keys <==> tx.a in s.keys) && (tx.b in keys <==> tx.b in s.keys)
    ensures var r := T.SetPartnerLink(T.Tables(keys, s.partner, map[], map[], []), tx.a, tx.b);
            match Atomic(s, tx)
            case Ok(t) => r.Ok? && r.value.partner == t.partner
            case Err(e) => r == Err(e)
  {
  }

  lemma EndingStep(s: State, i: nat, keys: map<AccountId, string>)
    requires Inv(s) && i < |s.txs| && CanStep(s, i) && Step(s, i).txs[i].phase.Ended?
    requires (s.txs[i].a in keys <==> s.txs[i].a in s.keys) && (s.txs[i].b in keys <==> s.txs[i].b in s.keys)
    ensures IsCall(keys, s.partner, Call(s.txs[i].a, s.txs[i].b, Step(s, i).txs[i].phase.outcome), Step(s, i).partner)
  {
    StepRefinesAtomic(s, i);
    SameLink(s, keys, s.txs[i]);
  }

  lemma QuietMove(s: State, mv: Move)
    requires Inv(s) && CanMove(s, mv) && EndedBy(s, mv) == []
    ensures Moved(s, mv).partner == s.partner
  {
    if mv.Go? {
      StepRefinesAtomic(s, mv.i);
    }
  }

  lemma {:induction false} OneMoreMove(
      s: State, mv: Move, keys: map<AccountId, string>, calls: seq<Call>, mid: map<AccountId, AccountId>,
      partner': map<AccountId, AccountId>)
    requires Inv(s) && CanMove(s, mv) && mid == Moved(s, mv).partner && Serial(keys, mid, calls, partner')
    requires mv.Go? ==> var tx := s.txs[mv.i]; (tx.a in keys <==> tx.a in s.keys) && (tx.b in keys <==> tx.b in s.keys)
    ensures Serial(keys, s.partner, EndedBy(s, mv) + calls, partner')
  {
    if EndedBy(s, mv) == [] {
      QuietMove(s, mv);
      assert [] + calls == calls;
    } else {
      var call := EndedBy(s, mv)[0];
      EndingStep(s, mv.i, keys);
      OneMoreCall(keys, s.partner, call, mid, calls, partner');
    }
  }

  /**
   * Every interleaving, whatever is rolled back and whenever transactions begin, has the outcomes
   * and the final links of a serial execution of the ended ones.
   */
  lemma {:induction false} SchedulesAreSerial(s: State, moves: seq<Move>)
    requires Inv(s) && Schedule(s, moves)
    ensures Serial(Execute(s, moves).keys, s.partner, EndOrder(s, moves), Execute(s, moves).partner)
    decreases |moves|
  {
    if moves == [] {
    } else {
      var mv, s', end := moves[0], Moved(s, moves[0]), Execute(s, moves);
      MoveKeeps(s, mv);
      SchedulesAreSerial(s', moves[1..]);
      if mv.Go? {
        NamedAccountsStay(s, moves, mv.i);
      }
      OneMoreMove(s, mv, end.keys, EndOrder(s', moves[1..]), s'.partner, end.partner);
    }
  }
}
