/**
  The sealing protocol of campaign configuration bundles
  (database/migrations/versions/20260804_0001_config_bundles.py and
  20260815_0011_owned_artifacts.py) as interleaved transactions.

  Each action is one statement of one transaction.  Isolation is READ COMMITTED, PostgreSQL's
  default: every statement sees the rows committed before it plus the transaction's own rows.
  The advisory lock on the hashed digest is a lock on the digest, held until the transaction
  ends.  A raised exception, like a constraint violation, aborts the transaction; a lock or a
  unique key held by another open transaction makes the statement wait, that is, do nothing.
 */
module SealedBundles {
  import opened Text

  type Digest = string
  type TxId = nat

  datatype Child =
    | Component(bundle: Digest, position: int, path: string, digest: string)
    | Blocker(bundle: Digest, position: int, code: string, owner: string, message: string, requiredAction: string)
    | Artifact(bundle: Digest, artifactId: string)

  datatype Readiness = Ready | Blocked

  datatype Bundle = Bundle(digest: Digest, campaignKey: string, readiness: Readiness)

  /** Where a transaction stands inside a trigger. */
  datatype Phase =
    | Idle
    | ChildAllowed(row: Child)
    | ComponentsChecked(row': Bundle)
    | BundleAllowed(row': Bundle)

  /** An open transaction: the rows it has written so far. */
  datatype Tx = Tx(children: set<Child>, bundles: map<Digest, Bundle>, phase: Phase)

  /** A committed row keeps the transaction that wrote it. */
  datatype Sealed = Sealed(row: Bundle, writer: TxId)

  datatype State = State(
    children: map<Child, TxId>,
    bundles: map<Digest, Sealed>,
    open: map<TxId, Tx>,
    locks: map<Digest, TxId>,
    begun: set<TxId>)

  const INITIAL := State(map[], map[], map[], map[], {})

  datatype Action =
    | Begin(t: TxId)
    | Lock(t: TxId, digest: Digest)
    | GuardChild(t: TxId, child: Child)
    | WriteChild(t: TxId)
    | CheckComponents(t: TxId, bundle: Bundle)
    | CheckBlockers(t: TxId)
    | WriteBundle(t: TxId)
    | Commit(t: TxId)
    | Abort(t: TxId)
    | Mutate(t: TxId)

  // ---------------------------------------------------------- keys and checks

  /** Two rows that a primary key or unique constraint keeps apart. */
  predicate Conflict(a: Child, b: Child) {
    match (a, b)
    case (Component(d, p, path, _), Component(e, q, path', _)) => d == e && (p == q || path == path')
    case (Blocker(d, p, _, _, _, _), Blocker(e, q, _, _, _, _)) => d == e && p == q
    case (Artifact(d, id), Artifact(e, id')) => d == e || id == id'
    case _ => false
  }

  /** The CHECK constraints on positions; text formats do not matter to the protocol. */
  predicate ChecksPass(c: Child) {
    c.Artifact? || c.position >= 0
  }

  predicate Holds(s: State, t: TxId, d: Digest) {
    d in s.locks && s.locks[d] == t
  }

  predicate BundleVisible(s: State, t: TxId, d: Digest) {
    d in s.bundles || (t in s.open && d in s.open[t].bundles)
  }

  /** The rows of one bundle. */
  function RowsOf(rows: set<Child>, d: Digest): set<Child> {
    set c | c in rows && c.bundle == d
  }

  function Components(rows: set<Child>): set<Child> {
    set c | c in rows && c.Component?
  }

  function Blockers(rows: set<Child>): set<Child> {
    set c | c in rows && c.Blocker?
  }

  /** What a statement of transaction `t` sees of a bundle's children. */
  function Visible(s: State, t: TxId, d: Digest): set<Child>
    requires t in s.open
  {
    RowsOf(s.children.Keys + s.open[t].children, d)
  }

  /** The two validation queries of the sealing trigger, on the rows they select. */
  datatype Validation = Validation(
    components: set<Child> -> bool,
    blockers: (set<Child>, Readiness) -> bool)

  // ------------------------------------------------------------------- steps

  /** Rolls a transaction back: its rows and locks disappear. */
  function Rollback(s: State, t: TxId): State {
    s.(open := s.open - {t}, locks := map d | d in s.locks && s.locks[d] != t :: s.locks[d])
  }

  function SetTx(s: State, t: TxId, tx: Tx): State {
    s.(open := s.open[t := tx])
  }

  /** A committed row or an own row has the same key. */
  predicate KeyTaken(s: State, t: TxId, c: Child)
    requires t in s.open
  {
    exists c' :: c' in s.children.Keys + s.open[t].children && Conflict(c, c')
  }

  /** Some other open transaction has written a row with the same key. */
  predicate WaitsForRow(s: State, t: TxId, c: Child) {
    exists u :: u in s.open && u != t && exists c' :: c' in s.open[u].children && Conflict(c, c')
  }

  predicate WaitsForBundle(s: State, t: TxId, d: Digest) {
    exists u :: u in s.open && u != t && d in s.open[u].bundles
  }

  /** Every deferred foreign key of the transaction finds its bundle. */
  predicate ForeignKeysHold(s: State, t: TxId)
    requires t in s.open
  {
    forall c :: c in s.open[t].children ==> BundleVisible(s, t, c.bundle)
  }

  function Publish(s: State, t: TxId): State
    requires t in s.open
  {
    var tx := s.open[t];
    Rollback(s, t).(
      children := s.children + (map c | c in tx.children :: t),
      bundles := s.bundles + (map d | d in tx.bundles :: Sealed(tx.bundles[d], t)))
  }

  function Step(s: State, a: Action, v: Validation): State {
    if a.Begin? then
      if a.t in s.begun then s else s.(open := s.open[a.t := Tx({}, map[], Idle)], begun := s.begun + {a.t})
    else if a.t !in s.open then s
    else if a.Abort? || a.Mutate? then Rollback(s, a.t)
    else
      var t, tx := a.t, s.open[a.t];
      match a
      case Lock(_, d) =>
        if tx.phase != Idle || (d in s.locks && s.locks[d] != t) then s else s.(locks := s.locks[d := t])
      case GuardChild(_, c) =>
        if tx.phase != Idle || !Holds(s, t, c.bundle) then s
        else if BundleVisible(s, t, c.bundle) then Rollback(s, t)
        else SetTx(s, t, tx.(phase := ChildAllowed(c)))
      case WriteChild(_) =>
        if !tx.phase.ChildAllowed? then s
        else
          var c := tx.phase.row;
          if !ChecksPass(c) || KeyTaken(s, t, c) then Rollback(s, t)
          else if WaitsForRow(s, t, c) then s
          else SetTx(s, t, tx.(children := tx.children + {c}, phase := Idle))
      case CheckComponents(_, b) =>
        if tx.phase != Idle || !Holds(s, t, b.digest) then s
        else if !v.components(Components(Visible(s, t, b.digest))) then Rollback(s, t)
        else SetTx(s, t, tx.(phase := ComponentsChecked(b)))
      case CheckBlockers(_) =>
        if !tx.phase.ComponentsChecked? then s
        else if !v.blockers(Blockers(Visible(s, t, tx.phase.row'.digest)), tx.phase.row'.readiness) then Rollback(s, t)
        else SetTx(s, t, tx.(phase := BundleAllowed(tx.phase.row')))
      case WriteBundle(_) =>
        if !tx.phase.BundleAllowed? then s
        else
          var b := tx.phase.row';
          if BundleVisible(s, t, b.digest) then Rollback(s, t)
          else if WaitsForBundle(s, t, b.digest) then s
          else SetTx(s, t, tx.(bundles := tx.bundles[b.digest := b], phase := Idle))
      case Commit(_) =>
        if tx.phase != Idle then s
        else if ForeignKeysHold(s, t) then Publish(s, t) else Rollback(s, t)
  }

  /** The state after any interleaving of statements. */
  function Run(actions: seq<Action>, v: Validation): State {
    if actions == [] then INITIAL else Step(Run(actions[..|actions| - 1], v), actions[|actions| - 1], v)
  }

  // ------------------------------------------------------------ the invariant

  ghost predicate NoConflicts(rows: set<Child>) {
    forall c, c' :: c in rows && c' in rows && Conflict(c, c') ==> c == c'
  }

  /** Rows that may be sealed: keys are unique and both validation queries pass. */
  ghost predicate Sealable(rows: set<Child>, readiness: Readiness, v: Validation) {
    NoConflicts(rows) && v.components(Components(rows)) && v.blockers(Blockers(rows), readiness)
  }

  /** What holds of one open transaction. */
  ghost predicate TxOk(s: State, t: TxId, v: Validation)
    requires t in s.open
  {
    var tx := s.open[t];
    && (forall c :: c in tx.children ==> Holds(s, t, c.bundle) && c.bundle !in s.bundles)
    && (forall d :: d in tx.bundles ==>
        && Holds(s, t, d) && d !in s.bundles && tx.bundles[d].digest == d
        && Sealable(RowsOf(tx.children, d), tx.bundles[d].readiness, v))
    && (forall d :: NoConflicts(RowsOf(tx.children, d)))
    && PhaseOk(s, t, v)
  }

  ghost predicate PhaseOk(s: State, t: TxId, v: Validation)
    requires t in s.open
  {
    var tx := s.open[t];
    match tx.phase
    case Idle => true
    case ChildAllowed(c) => Holds(s, t, c.bundle) && !BundleVisible(s, t, c.bundle)
    case ComponentsChecked(b) =>
      && Holds(s, t, b.digest)
      && (b.digest !in s.bundles ==> v.components(Components(RowsOf(tx.children, b.digest))))
    case BundleAllowed(b) =>
      && Holds(s, t, b.digest)
      && (b.digest !in s.bundles ==> Sealable(RowsOf(tx.children, b.digest), b.readiness, v))
  }

  ghost predicate CommittedOk(s: State, v: Validation) {
    && (forall c :: c in s.children ==> c.bundle in s.bundles && s.children[c] == s.bundles[c.bundle].writer)
    && (forall d :: d in s.bundles ==>
        s.bundles[d].row.digest == d && Sealable(RowsOf(s.children.Keys, d), s.bundles[d].row.readiness, v))
  }

  ghost predicate Inv(s: State, v: Validation) {
    && CommittedOk(s, v)
    && (forall t :: t in s.open ==> t in s.begun && TxOk(s, t, v))
  }

  // -------------------------------------------------- every step keeps it

  /** A transaction whose rows and locks a step leaves alone stays in order. */
  lemma {:induction false} Undisturbed(s: State, s': State, u: TxId, v: Validation)
    requires u in s.open && u in s'.open && s'.open[u] == s.open[u] && TxOk(s, u, v)
    requires forall d :: Holds(s, u, d) ==> Holds(s', u, d)
    requires s.bundles.Keys <= s'.bundles.Keys
    requires forall d :: d in s'.bundles && d !in s.bundles ==> !Holds(s, u, d)
    ensures TxOk(s', u, v)
  {
  }

  lemma {:induction false} RollbackKeeps(s: State, t: TxId, v: Validation)
    requires Inv(s, v)
    ensures Inv(Rollback(s, t), v)
  {
    var s' := Rollback(s, t);
    forall u | u in s'.open ensures TxOk(s', u, v) {
      Undisturbed(s, s', u, v);
    }
  }

  lemma {:induction false} SetTxKeeps(s: State, t: TxId, tx: Tx, v: Validation)
    requires Inv(s, v) && t in s.open && TxOk(SetTx(s, t, tx), t, v)
    ensures Inv(SetTx(s, t, tx), v)
  {
    var s' := SetTx(s, t, tx);
    forall u | u in s'.open && u != t ensures TxOk(s', u, v) {
      Undisturbed(s, s', u, v);
    }
  }

  lemma {:induction false} BeginKeeps(s: State, t: TxId, v: Validation)
    requires Inv(s, v) && t !in s.begun
    ensures Inv(Step(s, Begin(t), v), v)
  {
    var s' := Step(s, Begin(t), v);
    forall u | u in s'.open ensures TxOk(s', u, v) {
      if u != t {
        Undisturbed(s, s', u, v);
      } else {
        forall d ensures NoConflicts(RowsOf({}, d)) {
        }
      }
    }
  }

  lemma {:induction false} LockKeeps(s: State, t: TxId, d: Digest, v: Validation)
    requires Inv(s, v) && t in s.open && (d !in s.locks || s.locks[d] == t)
    ensures Inv(s.(locks := s.locks[d := t]), v)
  {
    var s' := s.(locks := s.locks[d := t]);
    forall u | u in s'.open ensures TxOk(s', u, v) {
      Undisturbed(s, s', u, v);
    }
  }

  lemma {:induction false} OneMoreRow(rows: set<Child>, c: Child, d: Digest)
    requires NoConflicts(RowsOf(rows, d)) && forall c' :: c' in rows ==> !Conflict(c, c')
    ensures NoConflicts(RowsOf(rows + {c}, d))
    ensures d != c.bundle ==> RowsOf(rows + {c}, d) == RowsOf(rows, d)
  {
    forall a, b | a in RowsOf(rows + {c}, d) && b in RowsOf(rows + {c}, d) && Conflict(a, b) ensures a == b {
      assert Conflict(b, a);
    }
  }

  lemma {:induction false} WriteChildKeeps(s: State, t: TxId, v: Validation)
    requires Inv(s, v) && t in s.open && s.open[t].phase.ChildAllowed? && !KeyTaken(s, t, s.open[t].phase.row)
    ensures var tx := s.open[t]; Inv(SetTx(s, t, tx.(children := tx.children + {tx.phase.row}, phase := Idle)), v)
  {
    var tx := s.open[t];
    var c := tx.phase.row;
    var tx' := tx.(children := tx.children + {c}, phase := Idle);
    forall d
      ensures NoConflicts(RowsOf(tx'.children, d))
      ensures d != c.bundle ==> RowsOf(tx'.children, d) == RowsOf(tx.children, d)
    {
      OneMoreRow(tx.children, c, d);
    }
    assert TxOk(s, t, v);
    assert TxOk(SetTx(s, t, tx'), t, v);
    SetTxKeeps(s, t, tx', v);
  }

  /** While a digest is unsealed, a transaction sees only its own rows for it. */
  lemma {:induction false} OwnRowsOnly(s: State, t: TxId, d: Digest, v: Validation)
    requires CommittedOk(s, v) && t in s.open && d !in s.bundles
    ensures Visible(s, t, d) == RowsOf(s.open[t].children, d)
  {
  }

  lemma {:induction false} NewPhaseKeeps(s: State, t: TxId, phase: Phase, v: Validation)
    requires Inv(s, v) && t in s.open && PhaseOk(SetTx(s, t, s.open[t].(phase := phase)), t, v)
    ensures Inv(SetTx(s, t, s.open[t].(phase := phase)), v)
  {
    assert TxOk(s, t, v);
    SetTxKeeps(s, t, s.open[t].(phase := phase), v);
  }

  lemma {:induction false} CheckComponentsKeeps(s: State, t: TxId, b: Bundle, v: Validation)
    requires Inv(s, v) && t in s.open && Holds(s, t, b.digest)
    requires v.components(Components(Visible(s, t, b.digest)))
    ensures Inv(SetTx(s, t, s.open[t].(phase := ComponentsChecked(b))), v)
  {
    if b.digest !in s.bundles {
      OwnRowsOnly(s, t, b.digest, v);
    }
    NewPhaseKeeps(s, t, ComponentsChecked(b), v);
  }

  lemma {:induction false} CheckBlockersKeeps(s: State, t: TxId, v: Validation)
    requires Inv(s, v) && t in s.open && s.open[t].phase.ComponentsChecked?
    requires var b := s.open[t].phase.row'; v.blockers(Blockers(Visible(s, t, b.digest)), b.readiness)
    ensures Inv(SetTx(s, t, s.open[t].(phase := BundleAllowed(s.open[t].phase.row'))), v)
  {
    var b := s.open[t].phase.row';
    assert TxOk(s, t, v);
    if b.digest !in s.bundles {
      OwnRowsOnly(s, t, b.digest, v);
    }
    NewPhaseKeeps(s, t, BundleAllowed(b), v);
  }

  lemma {:induction false} WriteBundleKeeps(s: State, t: TxId, v: Validation)
    requires Inv(s, v) && t in s.open && s.open[t].phase.BundleAllowed?
    requires !BundleVisible(s, t, s.open[t].phase.row'.digest)
    ensures var tx := s.open[t]; var b := tx.phase.row';
      Inv(SetTx(s, t, tx.(bundles := tx.bundles[b.digest := b], phase := Idle)), v)
  {
    var tx := s.open[t];
    var b := tx.phase.row';
    assert TxOk(s, t, v);
    SetTxKeeps(s, t, tx.(bundles := tx.bundles[b.digest := b], phase := Idle), v);
  }

  lemma {:induction false} PublishedRows(s: State, t: TxId, d: Digest, v: Validation)
    requires CommittedOk(s, v) && t in s.open && TxOk(s, t, v)
    ensures RowsOf(Publish(s, t).children.Keys, d) ==
      if d in s.bundles then RowsOf(s.children.Keys, d) else RowsOf(s.open[t].children, d)
  {
    assert Publish(s, t).children.Keys == s.children.Keys + s.open[t].children;
  }

  lemma {:induction false} PublishedOk(s: State, t: TxId, v: Validation)
    requires CommittedOk(s, v) && t in s.open && TxOk(s, t, v) && ForeignKeysHold(s, t)
    ensures CommittedOk(Publish(s, t), v)
  {
    var s', tx := Publish(s, t), s.open[t];
    forall d | d in s'.bundles
      ensures s'.bundles[d].row.digest == d && Sealable(RowsOf(s'.children.Keys, d), s'.bundles[d].row.readiness, v)
    {
      PublishedRows(s, t, d, v);
    }
    forall c | c in s'.children ensures c.bundle in s'.bundles && s'.children[c] == s'.bundles[c.bundle].writer {
      if c in tx.children {
        assert BundleVisible(s, t, c.bundle);
      }
    }
  }

  lemma {:induction false} CommitKeeps(s: State, t: TxId, v: Validation)
    requires Inv(s, v) && t in s.open && ForeignKeysHold(s, t)
    ensures Inv(Publish(s, t), v)
  {
    var s' := Publish(s, t);
    assert TxOk(s, t, v);
    PublishedOk(s, t, v);
    forall u | u in s'.open ensures TxOk(s', u, v) {
      assert TxOk(s, u, v);
      Undisturbed(s, s', u, v);
    }
  }

  /** Every statement of every transaction keeps the invariant. */
  lemma {:induction false} StepKeeps(s: State, a: Action, v: Validation)
    requires Inv(s, v)
    ensures Inv(Step(s, a, v), v)
  {
    var t := a.t;
    if a.Begin? {
      if t !in s.begun {
        BeginKeeps(s, t, v);
      }
    } else if t in s.open {
      var tx := s.open[t];
      RollbackKeeps(s, t, v);
      match a
      case Lock(_, d) =>
        if d !in s.locks || s.locks[d] == t {
          LockKeeps(s, t, d, v);
        }
      case GuardChild(_, c) =>
        if Holds(s, t, c.bundle) && !BundleVisible(s, t, c.bundle) {
          NewPhaseKeeps(s, t, ChildAllowed(c), v);
        }
      case WriteChild(_) =>
        if tx.phase.ChildAllowed? && !KeyTaken(s, t, tx.phase.row) {
          WriteChildKeeps(s, t, v);
        }
      case CheckComponents(_, b) =>
        if Holds(s, t, b.digest) && v.components(Components(Visible(s, t, b.digest))) {
          CheckComponentsKeeps(s, t, b, v);
        }
      case CheckBlockers(_) =>
        if tx.phase.ComponentsChecked?
          && v.blockers(Blockers(Visible(s, t, tx.phase.row'.digest)), tx.phase.row'.readiness)
        {
          CheckBlockersKeeps(s, t, v);
        }
      case WriteBundle(_) =>
        if tx.phase.BundleAllowed? && !BundleVisible(s, t, tx.phase.row'.digest) {
          WriteBundleKeeps(s, t, v);
        }
      case Commit(_) =>
        if ForeignKeysHold(s, t) {
          CommitKeeps(s, t, v);
        }
      case Abort(_) =>
      case Mutate(_) =>
    }
  }

  lemma {:induction false} RunKeeps(actions: seq<Action>, v: Validation)
    ensures Inv(Run(actions, v), v)
  {
    if actions != [] {
      RunKeeps(actions[..|actions| - 1], v);
      StepKeeps(Run(actions[..|actions| - 1], v), actions[|actions| - 1], v);
    }
  }

  // ------------------------------------- count, minimum and maximum suffice

  /** Only children that carry a position are counted. */
  predicate Positioned(rows: set<Child>) {
    forall c :: c in rows ==> !c.Artifact?
  }

  predicate IsMin(rows: set<Child>, x: int)
    requires Positioned(rows)
  {
    (exists c :: c in rows && c.position == x) && forall c :: c in rows ==> x <= c.position
  }

  predicate IsMax(rows: set<Child>, x: int)
    requires Positioned(rows)
  {
    (exists c :: c in rows && c.position == x) && forall c :: c in rows ==> c.position <= x
  }

  /** `min(position) = 0 AND max(position) = count(*) - 1`. */
  predicate CountMinMax(rows: set<Child>)
    requires Positioned(rows)
  {
    IsMin(rows, 0) && IsMax(rows, |rows| - 1)
  }

  /** The checks of `validate_config_bundle_insert`. */
  const SQL_CHECKS := Validation(
    (rows: set<Child>) => Positioned(rows) && rows != {} && CountMinMax(rows),
    (rows: set<Child>, readiness: Readiness) =>
      && Positioned(rows)
      && (rows != {} ==> CountMinMax(rows))
      && !(readiness == Ready && rows != {})
      && !(readiness == Blocked && rows == {}))

  ghost predicate HasPosition(rows: set<Child>, i: int)
    requires Positioned(rows)
  {
    exists c :: c in rows && c.position == i
  }

  /** Positions are exactly `0 .. |rows| - 1`, each used once. */
  ghost predicate Numbered(rows: set<Child>)
    requires Positioned(rows)
  {
    && (forall c :: c in rows ==> 0 <= c.position < |rows|)
    && (forall i :: 0 <= i < |rows| ==> HasPosition(rows, i))
    && (forall c, c' :: c in rows && c' in rows && c.position == c'.position ==> c == c')
  }

  function Range(n: nat): (r: set<int>)
    ensures forall i :: i in r <==> 0 <= i < n
    ensures |r| == n
  {
    if n == 0 then {} else Range(n - 1) + {n - 1}
  }

  function PositionsOf(rows: set<Child>): set<int>
    requires Positioned(rows)
  {
    set c | c in rows :: c.position
  }

  lemma {:induction false} PositionsSize(rows: set<Child>)
    requires Positioned(rows)
    requires forall c, c' :: c in rows && c' in rows && c.position == c'.position ==> c == c'
    ensures |PositionsOf(rows)| == |rows|
    decreases |rows|
  {
    if rows != {} {
      var c :| c in rows;
      var rest := rows - {c};
      PositionsSize(rest);
      assert PositionsOf(rows) == PositionsOf(rest) + {c.position};
      assert c.position !in PositionsOf(rest);
    }
  }

  lemma {:induction false} SubsetOfSameSize(a: set<int>, b: set<int>)
    requires a <= b && |a| == |b|
    ensures a == b
  {
    assert b == a + (b - a) && |b| == |a| + |b - a|;
  }

  /** Unique positions with the right count, minimum and maximum are exactly `0 .. n - 1`. */
  lemma {:induction false} CountMinMaxNumbers(rows: set<Child>)
    requires Positioned(rows) && rows != {} && CountMinMax(rows)
    requires forall c, c' :: c in rows && c' in rows && c.position == c'.position ==> c == c'
    ensures Numbered(rows)
  {
    PositionsSize(rows);
    SubsetOfSameSize(PositionsOf(rows), Range(|rows|));
    forall i | 0 <= i < |rows| ensures HasPosition(rows, i) {
      assert i in PositionsOf(rows);
    }
  }

  lemma {:induction false} UniquePositions(rows: set<Child>, part: set<Child>, d: Digest)
    requires NoConflicts(rows) && part <= rows && forall c :: c in rows ==> c.bundle == d
    requires part == Components(rows) || part == Blockers(rows)
    ensures forall c, c' :: c in part && c' in part && c.position == c'.position ==> c == c'
  {
    forall c, c' | c in part && c' in part && c.position == c'.position ensures c == c' {
      assert Conflict(c, c');
    }
  }

  /** Components numbered from 0, at least one, blockers numbered from 0, and readiness to match. */
  ghost predicate Complete(rows: set<Child>, readiness: Readiness) {
    && |Components(rows)| >= 1 && Numbered(Components(rows)) && Numbered(Blockers(rows))
    && (readiness == Ready <==> |Blockers(rows)| == 0)
  }

  lemma {:induction false} NumberedCounts(rows: set<Child>)
    requires Positioned(rows) && rows != {} && Numbered(rows)
    ensures CountMinMax(rows)
  {
    assert HasPosition(rows, 0) && HasPosition(rows, |rows| - 1);
  }

  /** The trigger's checks accept exactly the complete rows, of those that the unique keys admit. */
  lemma {:induction false} SealableIsNumbered(rows: set<Child>, d: Digest, readiness: Readiness)
    requires forall c :: c in rows ==> c.bundle == d
    requires NoConflicts(rows)
    ensures SQL_CHECKS.components(Components(rows)) && SQL_CHECKS.blockers(Blockers(rows), readiness)
      <==> Complete(rows, readiness)
  {
    UniquePositions(rows, Components(rows), d);
    UniquePositions(rows, Blockers(rows), d);
    NumberedExactly(Components(rows));
    NumberedExactly(Blockers(rows));
  }

  /** Of rows with unique positions, count, minimum and maximum pick out the numbered ones. */
  lemma {:induction false} NumberedExactly(rows: set<Child>)
    requires Positioned(rows)
    requires forall c, c' :: c in rows && c' in rows && c.position == c'.position ==> c == c'
    ensures rows != {} ==> (CountMinMax(rows) <==> Numbered(rows))
    ensures rows == {} ==> Numbered(rows)
  {
    if rows != {} {
      if CountMinMax(rows) {
        CountMinMaxNumbers(rows);
      }
      if Numbered(rows) {
        NumberedCounts(rows);
      }
    }
  }

  // ------------------------------------------------------------ main results

  /**
    In every interleaving: the children of a sealed bundle were all written by the one
    transaction that sealed it, and no committed child lacks a committed bundle.
   */
  lemma {:induction false} SealedByOneWriter(actions: seq<Action>, v: Validation)
    ensures var s := Run(actions, v);
      forall c :: c in s.children ==> c.bundle in s.bundles && s.children[c] == s.bundles[c.bundle].writer
  {
    RunKeeps(actions, v);
  }

  ghost predicate NumberedBundle(s: State, d: Digest)
    requires d in s.bundles
  {
    Complete(RowsOf(s.children.Keys, d), s.bundles[d].row.readiness)
  }

  /**
    In every interleaving: component positions of a sealed bundle are exactly 0 .. n - 1 with
    n at least 1, blocker positions exactly 0 .. m - 1, and it is ready exactly when m is 0.
   */
  lemma {:induction false} SealedBundlesAreNumbered(actions: seq<Action>, d: Digest)
    requires d in Run(actions, SQL_CHECKS).bundles
    ensures NumberedBundle(Run(actions, SQL_CHECKS), d)
  {
    RunKeeps(actions, SQL_CHECKS);
    var s := Run(actions, SQL_CHECKS);
    SealableIsNumbered(RowsOf(s.children.Keys, d), d, s.bundles[d].row.readiness);
  }

  lemma {:induction false} PublishFreezes(s: State, t: TxId, d: Digest, v: Validation)
    requires Inv(s, v) && t in s.open && d in s.bundles
    ensures var s' := Publish(s, t);
      d in s'.bundles && s'.bundles[d] == s.bundles[d] && RowsOf(s'.children.Keys, d) == RowsOf(s.children.Keys, d)
  {
    assert TxOk(s, t, v);
    PublishedRows(s, t, d, v);
  }

  /** Only a commit changes what is committed. */
  lemma {:induction false} OnlyCommitPublishes(s: State, a: Action, v: Validation)
    requires !a.Commit?
    ensures Step(s, a, v).children == s.children && Step(s, a, v).bundles == s.bundles
  {
  }

  lemma {:induction false} CommitOutcome(s: State, t: TxId, v: Validation)
    ensures var s' := Step(s, Commit(t), v);
      s' == s || s' == Rollback(s, t) || (t in s.open && s' == Publish(s, t))
  {
  }

  lemma {:induction false} StepFreezes(s: State, a: Action, d: Digest, v: Validation)
    requires Inv(s, v) && d in s.bundles
    ensures var s' := Step(s, a, v);
      d in s'.bundles && s'.bundles[d] == s.bundles[d] && RowsOf(s'.children.Keys, d) == RowsOf(s.children.Keys, d)
  {
    if a.Commit? {
      CommitOutcome(s, a.t, v);
      if a.t in s.open {
        PublishFreezes(s, a.t, d, v);
      }
    } else {
      OnlyCommitPublishes(s, a, v);
    }
  }

  /** Once sealed, a bundle and its children never change again, whatever happens afterwards. */
  lemma {:induction false} SealedForever(before: seq<Action>, after: seq<Action>, d: Digest, v: Validation)
    requires d in Run(before, v).bundles
    ensures var s, s' := Run(before, v), Run(before + after, v);
      d in s'.bundles && s'.bundles[d] == s.bundles[d] && RowsOf(s'.children.Keys, d) == RowsOf(s.children.Keys, d)
    decreases |after|
  {
    var all := before + after;
    if after == [] {
      assert all == before;
    } else {
      var less := after[..|after| - 1];
      assert all[..|all| - 1] == before + less;
      SealedForever(before, less, d, v);
      RunKeeps(before + less, v);
      StepFreezes(Run(before + less, v), all[|all| - 1], d, v);
    }
  }

  // ------------------------------------------------ publishing does succeed

  /** The insert statements for these children, each with its trigger. */
  function Inserts(t: TxId, kids: seq<Child>): seq<Action> {
    if kids == [] then [] else Inserts(t, kids[..|kids| - 1]) + [GuardChild(t, kids[|kids| - 1]), WriteChild(t)]
  }

  /** The state after more statements. */
  function RunFrom(s: State, actions: seq<Action>, v: Validation): State {
    if actions == [] then s else Step(RunFrom(s, actions[..|actions| - 1], v), actions[|actions| - 1], v)
  }

  /** The statements of the snapshot store's `_publish` for a digest that is not yet sealed. */
  function PublishActions(t: TxId, b: Bundle, kids: seq<Child>): seq<Action> {
    [Begin(t), Lock(t, b.digest)] + Inserts(t, kids)
    + [CheckComponents(t, b), CheckBlockers(t), WriteBundle(t), Commit(t)]
  }

  function Rows(kids: seq<Child>): set<Child> {
    set i | 0 <= i < |kids| :: kids[i]
  }

  /** Rows with none of the keys in common: position and path of a component, position of a blocker,
      bundle and identifier of an artifact. */
  ghost predicate Apart(a: Child, b: Child) {
    && (a.Component? && b.Component? && a.bundle == b.bundle ==> a.position != b.position && a.path != b.path)
    && (a.Blocker? && b.Blocker? && a.bundle == b.bundle ==> a.position != b.position)
    && (a.Artifact? && b.Artifact? ==> a.bundle != b.bundle && a.artifactId != b.artifactId)
  }

  lemma {:induction false} ConflictIsSharing(a: Child, b: Child)
    ensures Conflict(a, b) <==> !Apart(a, b)
  {
  }

  /** Rows for a free digest that no present row collides with. */
  ghost predicate Fresh(s: State, t: TxId, b: Bundle, kids: seq<Child>) {
    && t !in s.begun && t !in s.open && b.digest !in s.locks && b.digest !in s.bundles
    && (forall u :: u in s.open ==> b.digest !in s.open[u].bundles)
    && (forall i :: 0 <= i < |kids| ==> kids[i].bundle == b.digest)
    && (forall i, j :: 0 <= i < j < |kids| ==> Apart(kids[j], kids[i]))
    && (forall i, c :: 0 <= i < |kids| && c in s.children ==> Apart(kids[i], c))
    && (forall i, u, c :: 0 <= i < |kids| && u in s.open && c in s.open[u].children ==> Apart(kids[i], c))
  }

  lemma {:induction false} RunFromConcat(s: State, a: seq<Action>, b: seq<Action>, v: Validation)
    ensures RunFrom(s, a + b, v) == RunFrom(RunFrom(s, a, v), b, v)
    decreases |b|
  {
    if b == [] {
      assert a + b == a;
    } else {
      assert (a + b)[..|a + b| - 1] == a + b[..|b| - 1];
      RunFromConcat(s, a, b[..|b| - 1], v);
    }
  }

  lemma {:induction false} TwoSteps(s: State, x: Action, y: Action, v: Validation)
    ensures RunFrom(s, [x, y], v) == Step(Step(s, x, v), y, v)
  {
    assert [x, y][..1] == [x] && [x][..0] == [];
    assert RunFrom(s, [x], v) == Step(s, x, v);
  }

  /** The publisher after its lock and the first inserts. */
  function Midway(s: State, t: TxId, d: Digest, rows: set<Child>, phase: Phase): State {
    s.(open := s.open[t := Tx(rows, map[], phase)], locks := s.locks[d := t], begun := s.begun + {t})
  }

  lemma {:induction false} GuardOne(s: State, t: TxId, d: Digest, rows: set<Child>, c: Child, v: Validation)
    requires t !in s.open && d !in s.bundles && c.bundle == d
    ensures Step(Midway(s, t, d, rows, Idle), GuardChild(t, c), v) == Midway(s, t, d, rows, ChildAllowed(c))
  {
  }

  lemma {:induction false} WriteOne(s: State, t: TxId, d: Digest, rows: set<Child>, c: Child, v: Validation)
    requires t !in s.open && ChecksPass(c)
    requires forall c' :: c' in rows || c' in s.children ==> !Conflict(c, c')
    requires forall u, c' :: u in s.open && c' in s.open[u].children ==> !Conflict(c, c')
    ensures Step(Midway(s, t, d, rows, ChildAllowed(c)), WriteChild(t), v) == Midway(s, t, d, rows + {c}, Idle)
  {
    var m := Midway(s, t, d, rows, ChildAllowed(c));
    assert !KeyTaken(m, t, c) && !WaitsForRow(m, t, c);
  }

  lemma {:induction false} NoneConflicts(s: State, t: TxId, b: Bundle, kids: seq<Child>, n: nat)
    requires Fresh(s, t, b, kids) && n < |kids|
    ensures forall c' :: c' in Rows(kids[..n]) || c' in s.children ==> !Conflict(kids[n], c')
    ensures forall u, c' :: u in s.open && c' in s.open[u].children ==> !Conflict(kids[n], c')
  {
    forall c' | c' in Rows(kids[..n]) || c' in s.children ensures !Conflict(kids[n], c') {
      ConflictIsSharing(kids[n], c');
    }
    forall u, c' | u in s.open && c' in s.open[u].children ensures !Conflict(kids[n], c') {
      ConflictIsSharing(kids[n], c');
    }
  }

  lemma {:induction false} InsertOne(s: State, t: TxId, b: Bundle, kids: seq<Child>, n: nat, v: Validation)
    requires Fresh(s, t, b, kids) && n < |kids| && ChecksPass(kids[n])
    ensures Step(Step(Midway(s, t, b.digest, Rows(kids[..n]), Idle), GuardChild(t, kids[n]), v), WriteChild(t), v)
      == Midway(s, t, b.digest, Rows(kids[..n + 1]), Idle)
  {
    GuardOne(s, t, b.digest, Rows(kids[..n]), kids[n], v);
    NoneConflicts(s, t, b, kids, n);
    WriteOne(s, t, b.digest, Rows(kids[..n]), kids[n], v);
    RowsNext(kids, n);
  }

  lemma {:induction false} RowsNext(kids: seq<Child>, n: nat)
    requires n < |kids|
    ensures Rows(kids[..n + 1]) == Rows(kids[..n]) + {kids[n]}
  {
    assert kids[..n + 1] == kids[..n] + [kids[n]];
  }

  lemma {:induction false} InsertAll(s: State, t: TxId, b: Bundle, kids: seq<Child>, n: nat, v: Validation)
    requires Fresh(s, t, b, kids) && n <= |kids| && forall i :: 0 <= i < n ==> ChecksPass(kids[i])
    ensures RunFrom(Midway(s, t, b.digest, {}, Idle), Inserts(t, kids[..n]), v)
         == Midway(s, t, b.digest, Rows(kids[..n]), Idle)
  {
    var m := Midway(s, t, b.digest, {}, Idle);
    if n == 0 {
      assert Rows(kids[..0]) == {};
    } else {
      InsertAll(s, t, b, kids, n - 1, v);
      assert kids[..n][..n - 1] == kids[..n - 1];
      RunFromConcat(m, Inserts(t, kids[..n - 1]), [GuardChild(t, kids[n - 1]), WriteChild(t)], v);
      TwoSteps(Midway(s, t, b.digest, Rows(kids[..n - 1]), Idle), GuardChild(t, kids[n - 1]), WriteChild(t), v);
      InsertOne(s, t, b, kids, n - 1, v);
    }
  }

  lemma {:induction false} VisibleMidway(s: State, t: TxId, d: Digest, rows: set<Child>, phase: Phase)
    requires (forall c :: c in s.children ==> c.bundle != d) && forall c :: c in rows ==> c.bundle == d
    ensures Visible(Midway(s, t, d, rows, phase), t, d) == rows
  {
  }

  lemma {:induction false} ChecksSucceed(s: State, t: TxId, b: Bundle, rows: set<Child>, v: Validation)
    requires (forall c :: c in s.children ==> c.bundle != b.digest) && (forall c :: c in rows ==> c.bundle == b.digest)
    requires v.components(Components(rows)) && v.blockers(Blockers(rows), b.readiness)
    ensures Step(Step(Midway(s, t, b.digest, rows, Idle), CheckComponents(t, b), v), CheckBlockers(t), v)
      == Midway(s, t, b.digest, rows, BundleAllowed(b))
  {
    var d := b.digest;
    VisibleMidway(s, t, d, rows, Idle);
    assert Step(Midway(s, t, d, rows, Idle), CheckComponents(t, b), v) == Midway(s, t, d, rows, ComponentsChecked(b));
    VisibleMidway(s, t, d, rows, ComponentsChecked(b));
  }

  lemma {:induction false} BundleRowWritten(s: State, t: TxId, b: Bundle, rows: set<Child>, v: Validation)
    requires t !in s.open && b.digest !in s.bundles && (forall u :: u in s.open ==> b.digest !in s.open[u].bundles)
    ensures Step(Midway(s, t, b.digest, rows, BundleAllowed(b)), WriteBundle(t), v)
      == SetTx(Midway(s, t, b.digest, rows, Idle), t, Tx(rows, map[b.digest := b], Idle))
  {
    var m := Midway(s, t, b.digest, rows, BundleAllowed(b));
    assert !WaitsForBundle(m, t, b.digest) && !BundleVisible(m, t, b.digest);
  }

  lemma {:induction false} CommitSucceeds(m: State, t: TxId, b: Bundle, rows: set<Child>, v: Validation)
    requires t in m.open && m.open[t] == Tx(rows, map[b.digest := b], Idle)
    requires (forall c :: c in m.children ==> c.bundle != b.digest) && (forall c :: c in rows ==> c.bundle == b.digest)
    ensures var s' := Step(m, Commit(t), v);
      && b.digest in s'.bundles && s'.bundles[b.digest] == Sealed(b, t)
      && RowsOf(s'.children.Keys, b.digest) == rows
  {
    assert ForeignKeysHold(m, t);
    assert Publish(m, t).children.Keys == m.children.Keys + rows;
  }

  lemma {:induction false} SealAndCommit(s: State, t: TxId, b: Bundle, rows: set<Child>, v: Validation)
    requires t !in s.open && b.digest !in s.bundles && (forall u :: u in s.open ==> b.digest !in s.open[u].bundles)
    requires (forall c :: c in s.children ==> c.bundle != b.digest) && (forall c :: c in rows ==> c.bundle == b.digest)
    requires v.components(Components(rows)) && v.blockers(Blockers(rows), b.readiness)
    ensures var m := Midway(s, t, b.digest, rows, Idle);
      var checked := Step(Step(m, CheckComponents(t, b), v), CheckBlockers(t), v);
      var s' := Step(Step(checked, WriteBundle(t), v), Commit(t), v);
      && b.digest in s'.bundles && s'.bundles[b.digest] == Sealed(b, t)
      && RowsOf(s'.children.Keys, b.digest) == rows
  {
    ChecksSucceed(s, t, b, rows, v);
    BundleRowWritten(s, t, b, rows, v);
    CommitSucceeds(SetTx(Midway(s, t, b.digest, rows, Idle), t, Tx(rows, map[b.digest := b], Idle)), t, b, rows, v);
  }

  lemma {:induction false} FourSteps(s: State, w: Action, x: Action, y: Action, z: Action, v: Validation)
    ensures RunFrom(s, [w, x, y, z], v) == Step(Step(Step(Step(s, w, v), x, v), y, v), z, v)
  {
    assert [w, x, y, z] == [w, x] + [y, z];
    RunFromConcat(s, [w, x], [y, z], v);
    TwoSteps(s, w, x, v);
    TwoSteps(Step(Step(s, w, v), x, v), y, z, v);
  }

  /** The statements up to and including the first `n` inserts. */
  function Front(t: TxId, d: Digest, kids: seq<Child>): seq<Action> {
    [Begin(t), Lock(t, d)] + Inserts(t, kids)
  }

  lemma {:induction false} FrontRuns(s: State, t: TxId, b: Bundle, kids: seq<Child>, n: nat, v: Validation)
    requires Fresh(s, t, b, kids) && n <= |kids| && forall i :: 0 <= i < n ==> ChecksPass(kids[i])
    ensures RunFrom(s, Front(t, b.digest, kids[..n]), v) == Midway(s, t, b.digest, Rows(kids[..n]), Idle)
  {
    RunFromConcat(s, [Begin(t), Lock(t, b.digest)], Inserts(t, kids[..n]), v);
    TwoSteps(s, Begin(t), Lock(t, b.digest), v);
    assert Step(Step(s, Begin(t), v), Lock(t, b.digest), v) == Midway(s, t, b.digest, {}, Idle);
    InsertAll(s, t, b, kids, n, v);
  }

  lemma {:induction false} CheckedRowsSeal(s: State, t: TxId, b: Bundle, kids: seq<Child>, v: Validation)
    requires Inv(s, v) && Fresh(s, t, b, kids) && forall i :: 0 <= i < |kids| ==> ChecksPass(kids[i])
    requires v.components(Components(Rows(kids))) && v.blockers(Blockers(Rows(kids)), b.readiness)
    ensures SealedAs(RunFrom(s, PublishActions(t, b, kids), v), t, b, Rows(kids))
  {
    var rest := [CheckComponents(t, b), CheckBlockers(t), WriteBundle(t), Commit(t)];
    RunFromConcat(s, Front(t, b.digest, kids), rest, v);
    assert kids[..|kids|] == kids;
    FrontRuns(s, t, b, kids, |kids|, v);
    SealAndCommit(s, t, b, Rows(kids), v);
    var m := Midway(s, t, b.digest, Rows(kids), Idle);
    FourSteps(m, CheckComponents(t, b), CheckBlockers(t), WriteBundle(t), Commit(t), v);
  }

  /** The bundle is committed with exactly these rows under the transaction. */
  ghost predicate SealedAs(s: State, t: TxId, b: Bundle, rows: set<Child>) {
    b.digest in s.bundles && s.bundles[b.digest] == Sealed(b, t) && RowsOf(s.children.Keys, b.digest) == rows
  }

  /** A transaction that is over has no more effect. */
  lemma {:induction false} OverStays(s: State, t: TxId, actions: seq<Action>, v: Validation)
    requires t in s.begun && t !in s.open && forall i :: 0 <= i < |actions| ==> actions[i].t == t
    ensures RunFrom(s, actions, v) == s
  {
    if actions != [] {
      OverStays(s, t, actions[..|actions| - 1], v);
    }
  }

  /** A list of statements of which some first part has ended the transaction. */
  lemma {:induction false} EndedEarly(s: State, t: TxId, part: seq<Action>, all: seq<Action>, s': State, v: Validation)
    requires part <= all && forall i :: 0 <= i < |all| ==> all[i].t == t
    requires RunFrom(s, part, v) == s' && t in s'.begun && t !in s'.open
    ensures RunFrom(s, all, v) == s'
  {
    assert all == part + all[|part|..];
    RunFromConcat(s, part, all[|part|..], v);
    OverStays(s', t, all[|part|..], v);
  }

  lemma {:induction false} InsertsPrefix(t: TxId, kids: seq<Child>, n: nat)
    requires n <= |kids|
    ensures Inserts(t, kids[..n]) <= Inserts(t, kids)
    ensures forall i :: 0 <= i < |Inserts(t, kids)| ==> Inserts(t, kids)[i].t == t
  {
    if n < |kids| {
      var init := kids[..|kids| - 1];
      InsertsPrefix(t, init, n);
      assert kids[..n] == init[..n];
    } else if n > 0 {
      InsertsPrefix(t, kids[..n - 1], n - 1);
      assert kids[..n] == kids && kids[..n - 1][..n - 1] == kids[..n - 1];
    }
  }

  /** Two statements after the front end the transaction: so ends the publication. */
  lemma {:induction false} EndsAfter(
    s: State, t: TxId, b: Bundle, kids: seq<Child>, n: nat, m: State, one: Action, two: Action, v: Validation)
    requires n <= |kids| && RunFrom(s, Front(t, b.digest, kids[..n]), v) == m
    requires Front(t, b.digest, kids[..n]) + [one, two] <= PublishActions(t, b, kids)
    requires forall i :: 0 <= i < |PublishActions(t, b, kids)| ==> PublishActions(t, b, kids)[i].t == t
    requires var s' := Step(Step(m, one, v), two, v); t in s'.begun && t !in s'.open
    ensures RunFrom(s, PublishActions(t, b, kids), v) == Step(Step(m, one, v), two, v)
  {
    var front := Front(t, b.digest, kids[..n]);
    RunFromConcat(s, front, [one, two], v);
    TwoSteps(m, one, two, v);
    EndedEarly(s, t, front + [one, two], PublishActions(t, b, kids), Step(Step(m, one, v), two, v), v);
  }

  lemma {:induction false} OwnActions(t: TxId, b: Bundle, kids: seq<Child>)
    ensures forall i :: 0 <= i < |PublishActions(t, b, kids)| ==> PublishActions(t, b, kids)[i].t == t
  {
    InsertsPrefix(t, kids, |kids|);
  }

  lemma {:induction false} RowFollows(t: TxId, b: Bundle, kids: seq<Child>, n: nat)
    requires n < |kids|
    ensures Front(t, b.digest, kids[..n]) + [GuardChild(t, kids[n]), WriteChild(t)] <= PublishActions(t, b, kids)
  {
    InsertsPrefix(t, kids, n + 1);
    assert kids[..n + 1][..n] == kids[..n];
    assert Front(t, b.digest, kids[..n]) + [GuardChild(t, kids[n]), WriteChild(t)] == Front(t, b.digest, kids[..n + 1]);
  }

  lemma {:induction false} ChecksFollow(t: TxId, b: Bundle, kids: seq<Child>)
    ensures Front(t, b.digest, kids[..|kids|]) + [CheckComponents(t, b), CheckBlockers(t)]
      <= PublishActions(t, b, kids)
  {
    assert kids[..|kids|] == kids;
  }

  lemma {:induction false} RejectedRow(
    s: State, t: TxId, b: Bundle, kids: seq<Child>, n: nat, v: Validation)
    requires Fresh(s, t, b, kids) && n < |kids| && !ChecksPass(kids[n])
    requires forall i :: 0 <= i < n ==> ChecksPass(kids[i])
    ensures var s' := RunFrom(s, PublishActions(t, b, kids), v);
      s'.bundles == s.bundles && s'.children == s.children
  {
    var d, rows := b.digest, Rows(kids[..n]);
    FrontRuns(s, t, b, kids, n, v);
    OwnActions(t, b, kids);
    RowFollows(t, b, kids, n);
    GuardOne(s, t, d, rows, kids[n], v);
    var m := Midway(s, t, d, rows, Idle);
    assert Step(Step(m, GuardChild(t, kids[n]), v), WriteChild(t), v)
      == Rollback(Midway(s, t, d, rows, ChildAllowed(kids[n])), t);
    EndsAfter(s, t, b, kids, n, m, GuardChild(t, kids[n]), WriteChild(t), v);
  }

  lemma {:induction false} RejectedBundle(s: State, t: TxId, b: Bundle, kids: seq<Child>, v: Validation)
    requires Inv(s, v) && Fresh(s, t, b, kids) && forall i :: 0 <= i < |kids| ==> ChecksPass(kids[i])
    requires !(v.components(Components(Rows(kids))) && v.blockers(Blockers(Rows(kids)), b.readiness))
    ensures var s' := RunFrom(s, PublishActions(t, b, kids), v);
      s'.bundles == s.bundles && s'.children == s.children
  {
    FrontRuns(s, t, b, kids, |kids|, v);
    OwnActions(t, b, kids);
    ChecksFollow(t, b, kids);
    assert kids[..|kids|] == kids;
    ChecksFail(s, t, b, Rows(kids), v);
    var m := Midway(s, t, b.digest, Rows(kids), Idle);
    EndsAfter(s, t, b, kids, |kids|, m, CheckComponents(t, b), CheckBlockers(t), v);
  }

  lemma {:induction false} ChecksFail(s: State, t: TxId, b: Bundle, rows: set<Child>, v: Validation)
    requires (forall c :: c in s.children ==> c.bundle != b.digest) && (forall c :: c in rows ==> c.bundle == b.digest)
    requires !(v.components(Components(rows)) && v.blockers(Blockers(rows), b.readiness))
    ensures var s' := Step(Step(Midway(s, t, b.digest, rows, Idle), CheckComponents(t, b), v), CheckBlockers(t), v);
      s'.bundles == s.bundles && s'.children == s.children && t in s'.begun && t !in s'.open
  {
    VisibleMidway(s, t, b.digest, rows, Idle);
    VisibleMidway(s, t, b.digest, rows, ComponentsChecked(b));
  }

  /** Complete rows have no negative position. */
  lemma {:induction false} CompletePass(kids: seq<Child>, readiness: Readiness)
    requires Complete(Rows(kids), readiness)
    ensures forall i :: 0 <= i < |kids| ==> ChecksPass(kids[i])
  {
    forall i | 0 <= i < |kids| ensures ChecksPass(kids[i]) {
      assert kids[i] in Rows(kids);
      assert kids[i].Component? ==> kids[i] in Components(Rows(kids));
      assert kids[i].Blocker? ==> kids[i] in Blockers(Rows(kids));
    }
  }

  lemma {:induction false} ApartRows(s: State, t: TxId, b: Bundle, kids: seq<Child>)
    requires Fresh(s, t, b, kids)
    ensures NoConflicts(Rows(kids))
  {
    forall c, c' | c in Rows(kids) && c' in Rows(kids) && Conflict(c, c') ensures c == c' {
      ConflictIsSharing(c, c');
      ConflictIsSharing(c', c);
    }
  }

  lemma {:induction false} FirstFailure(kids: seq<Child>) returns (n: nat)
    ensures n <= |kids| && (forall i :: 0 <= i < n ==> ChecksPass(kids[i])) && (n < |kids| ==> !ChecksPass(kids[n]))
  {
    n := 0;
    while n < |kids| && ChecksPass(kids[n])
      invariant n <= |kids| && forall i :: 0 <= i < n ==> ChecksPass(kids[i])
    {
      n := n + 1;
    }
  }

  /**
    Publishing a free digest undisturbed, from any reachable state, with rows that take no present
    key: exactly the complete rows are sealed, as they are and under the publishing transaction;
    any others leave the tables as they were.
   */
  lemma {:induction false} PublishingSeals(s: State, t: TxId, b: Bundle, kids: seq<Child>)
    requires Inv(s, SQL_CHECKS) && Fresh(s, t, b, kids)
    ensures var s' := RunFrom(s, PublishActions(t, b, kids), SQL_CHECKS);
      if Complete(Rows(kids), b.readiness) then SealedAs(s', t, b, Rows(kids))
      else s'.bundles == s.bundles && s'.children == s.children
  {
    ApartRows(s, t, b, kids);
    SealableIsNumbered(Rows(kids), b.digest, b.readiness);
    if Complete(Rows(kids), b.readiness) {
      CompletePass(kids, b.readiness);
      CheckedRowsSeal(s, t, b, kids, SQL_CHECKS);
    } else {
      var n := FirstFailure(kids);
      if n < |kids| {
        RejectedRow(s, t, b, kids, n, SQL_CHECKS);
      } else {
        RejectedBundle(s, t, b, kids, SQL_CHECKS);
      }
    }
  }

  // ----------------------------------------------------- keys, locks and ends

  /** The row was written by this transaction, committed or not yet. */
  ghost predicate WrittenBy(s: State, t: TxId, c: Child) {
    (c in s.children && s.children[c] == t) || (t in s.open && c in s.open[t].children)
  }

  /** Besides the sealing invariant: keys are unique over all transactions, only open transactions hold
      locks, and what is committed was written by transactions that are over. */
  ghost predicate Tidy(s: State) {
    && (forall t, u, c, c' :: WrittenBy(s, t, c) && WrittenBy(s, u, c') && (t != u || c != c') ==> !Conflict(c, c'))
    && (forall d :: d in s.locks ==> s.locks[d] in s.open)
    && (forall t :: t in s.open ==> t in s.begun)
    && (forall c :: c in s.children ==> s.children[c] in s.begun && s.children[c] !in s.open)
    && (forall d :: d in s.bundles ==> s.bundles[d].writer in s.begun && s.bundles[d].writer !in s.open)
  }

  lemma {:induction false} RollbackTidy(s: State, t: TxId)
    requires Tidy(s)
    ensures Tidy(Rollback(s, t))
  {
    var s' := Rollback(s, t);
    assert forall u, c :: WrittenBy(s', u, c) ==> WrittenBy(s, u, c);
  }

  lemma {:induction false} PublishTidy(s: State, t: TxId)
    requires Tidy(s) && t in s.open
    ensures Tidy(Publish(s, t))
  {
    var s' := Publish(s, t);
    assert forall u, c :: WrittenBy(s', u, c) ==> WrittenBy(s, u, c);
  }

  /** A row can be written only while no other row has one of its keys. */
  lemma {:induction false} WriteTidy(s: State, t: TxId, c: Child, tx: Tx)
    requires Tidy(s) && t in s.open && !KeyTaken(s, t, c) && !WaitsForRow(s, t, c)
    requires tx.children == s.open[t].children + {c}
    ensures Tidy(SetTx(s, t, tx))
  {
    var s' := SetTx(s, t, tx);
    forall u, c' | WrittenBy(s, u, c') ensures !Conflict(c, c') && !Conflict(c', c) {
      ConflictIsSharing(c, c');
      ConflictIsSharing(c', c);
    }
    assert forall u, c' :: WrittenBy(s', u, c') ==> WrittenBy(s, u, c') || (u == t && c' == c);
  }

  lemma {:induction false} SameRowsTidy(s: State, s': State)
    requires Tidy(s) && s'.children == s.children && s'.bundles == s.bundles && s'.begun == s.begun
    requires s'.open.Keys == s.open.Keys && forall u :: u in s.open ==> s'.open[u].children == s.open[u].children
    requires forall d :: d in s'.locks ==> s'.locks[d] in s'.open
    ensures Tidy(s')
  {
    assert forall u, c :: WrittenBy(s', u, c) ==> WrittenBy(s, u, c);
  }

  lemma {:induction false} BeginTidy(s: State, t: TxId, v: Validation)
    requires Tidy(s)
    ensures Tidy(Step(s, Begin(t), v))
  {
    var s' := Step(s, Begin(t), v);
    assert forall u, c :: WrittenBy(s', u, c) ==> WrittenBy(s, u, c);
  }

  /** How a statement of an open transaction can change the tables. */
  lemma {:induction false} StatementOutcome(s: State, a: Action, v: Validation)
    requires a.t in s.open && !a.Begin? && !a.WriteChild?
    ensures var s' := Step(s, a, v);
      || s' == s || s' == Rollback(s, a.t) || s' == Publish(s, a.t)
      || (a.Lock? && s' == s.(locks := s.locks[a.digest := a.t]))
      || (a.t in s'.open && s'.open[a.t].children == s.open[a.t].children && s' == SetTx(s, a.t, s'.open[a.t]))
  {
  }

  lemma {:induction false} StatementTidy(s: State, a: Action, v: Validation)
    requires Tidy(s) && a.t in s.open && !a.Begin? && !a.WriteChild?
    ensures Tidy(Step(s, a, v))
  {
    StatementOutcome(s, a, v);
    RollbackTidy(s, a.t);
    PublishTidy(s, a.t);
    var s' := Step(s, a, v);
    if s' != Rollback(s, a.t) && s' != Publish(s, a.t) {
      SameRowsTidy(s, s');
    }
  }

  lemma {:induction false} StepTidy(s: State, a: Action, v: Validation)
    requires Tidy(s)
    ensures Tidy(Step(s, a, v))
  {
    if a.Begin? {
      BeginTidy(s, a.t, v);
    } else if a.t in s.open {
      if a.WriteChild? {
        WriteChildTidy(s, a.t, v);
      } else {
        StatementTidy(s, a, v);
      }
    }
  }

  lemma {:induction false} WriteChildTidy(s: State, t: TxId, v: Validation)
    requires Tidy(s) && t in s.open
    ensures Tidy(Step(s, WriteChild(t), v))
  {
    RollbackTidy(s, t);
    var tx := s.open[t];
    if tx.phase.ChildAllowed? && !KeyTaken(s, t, tx.phase.row) && !WaitsForRow(s, t, tx.phase.row) {
      WriteTidy(s, t, tx.phase.row, tx.(children := tx.children + {tx.phase.row}, phase := Idle));
    }
  }

  lemma {:induction false} RunTidy(actions: seq<Action>, v: Validation)
    ensures Tidy(Run(actions, v))
  {
    if actions != [] {
      RunTidy(actions[..|actions| - 1], v);
      StepTidy(Run(actions[..|actions| - 1], v), actions[|actions| - 1], v);
    }
  }

  /**
    In every interleaving: no two components of a bundle share a position or a path, no two blockers a
    position, no two artifact rows a bundle or an artifact.  Only open transactions hold locks.
   */
  lemma {:induction false} KeysAreUnique(actions: seq<Action>, v: Validation)
    ensures var s := Run(actions, v);
      && (forall c, c' :: c in s.children && c' in s.children && c != c' ==> Apart(c, c'))
      && (forall d :: d in s.locks ==> s.locks[d] in s.open)
  {
    RunTidy(actions, v);
    var s := Run(actions, v);
    forall c, c' | c in s.children && c' in s.children && c != c' ensures Apart(c, c') {
      assert WrittenBy(s, s.children[c], c) && WrittenBy(s, s.children[c'], c');
      ConflictIsSharing(c, c');
    }
  }

  /** Nothing committed was written by this transaction, and it is over. */
  ghost predicate LeftNothing(s: State, t: TxId) {
    && t in s.begun && t !in s.open
    && (forall c :: c in s.children ==> s.children[c] != t)
    && (forall d :: d in s.bundles ==> s.bundles[d].writer != t)
  }

  lemma {:induction false} LeftNothingStays(s: State, a: Action, t: TxId, v: Validation)
    requires LeftNothing(s, t)
    ensures LeftNothing(Step(s, a, v), t)
  {
    if a.Commit? {
      CommitOutcome(s, a.t, v);
    } else {
      OnlyCommitPublishes(s, a, v);
    }
    if a.t != t {
      OthersLeave(s, a, t, v);
    } else {
      assert Step(s, a, v) == s;
    }
  }

  /** An UPDATE or DELETE of any row, like an explicit rollback, undoes its whole transaction for good. */
  lemma {:induction false} MutatorLeavesNothing(
    before: seq<Action>, a: Action, after: seq<Action>, v: Validation)
    requires (a.Mutate? || a.Abort?) && a.t in Run(before, v).open
    ensures LeftNothing(Run(before + [a] + after, v), a.t)
    decreases |after|
  {
    var all := before + [a] + after;
    if after == [] {
      RunTidy(before, v);
      assert all[..|all| - 1] == before;
    } else {
      var less := after[..|after| - 1];
      assert all[..|all| - 1] == before + [a] + less;
      MutatorLeavesNothing(before, a, less, v);
      LeftNothingStays(Run(before + [a] + less, v), all[|all| - 1], a.t, v);
    }
  }

  // ------------------------------------------- publishing among other sessions

  /** The statement a publishing session issues after `n` of its statements have gone through. */
  function Due(t: TxId, b: Bundle, kids: seq<Child>, n: nat): Action {
    if n == 0 then Begin(t)
    else if n == 1 then Lock(t, b.digest)
    else if n < 2 + 2 * |kids| then if n % 2 == 0 then GuardChild(t, kids[(n - 2) / 2]) else WriteChild(t)
    else if n == 2 + 2 * |kids| then CheckComponents(t, b)
    else if n == 3 + 2 * |kids| then CheckBlockers(t)
    else if n == 4 + 2 * |kids| then WriteBundle(t)
    else Commit(t)
  }

  lemma {:induction false} InsertsAt(t: TxId, kids: seq<Child>, i: nat)
    requires i < |kids|
    ensures |Inserts(t, kids)| == 2 * |kids|
    ensures Inserts(t, kids)[2 * i] == GuardChild(t, kids[i]) && Inserts(t, kids)[2 * i + 1] == WriteChild(t)
  {
    var init := kids[..|kids| - 1];
    if i < |init| {
      InsertsAt(t, init, i);
    } else if init != [] {
      InsertsAt(t, init, 0);
    }
  }

  /** `Due` is the list `PublishActions`, read one statement at a time. */
  lemma {:induction false} DueIsPublish(t: TxId, b: Bundle, kids: seq<Child>, n: nat)
    ensures |PublishActions(t, b, kids)| == 6 + 2 * |kids|
    ensures n < 6 + 2 * |kids| ==> PublishActions(t, b, kids)[n] == Due(t, b, kids, n)
  {
    var inserts := Inserts(t, kids);
    if kids != [] {
      InsertsAt(t, kids, 0);
    }
    assert |inserts| == 2 * |kids|;
    if 2 <= n < 2 + 2 * |kids| {
      InsertsAt(t, kids, (n - 2) / 2);
      assert PublishActions(t, b, kids)[n] == inserts[n - 2];
      assert n - 2 == 2 * ((n - 2) / 2) + n % 2;
    }
  }

  /** How many statements of `program` transaction `t` has got through in a run, or `None` when it
      issued something else.  A session waits for a statement before it issues the next one, so a
      statement without effect is issued again. */
  ghost function Progress(actions: seq<Action>, t: TxId, program: seq<Action>, v: Validation): Option<nat> {
    if actions == [] then Some(0)
    else
      var before, a := actions[..|actions| - 1], actions[|actions| - 1];
      Advance(Progress(before, t, program, v), a, t, program, Step(Run(before, v), a, v) != Run(before, v))
  }

  function Advance(at: Option<nat>, a: Action, t: TxId, program: seq<Action>, effective: bool): Option<nat> {
    if at.None? || a.t != t then at
    else if at.value >= |program| || a != program[at.value] then None
    else if effective then Some(at.value + 1)
    else at
  }

  /** The publisher's own transaction after `n` statements. */
  function TxAt(b: Bundle, kids: seq<Child>, n: nat): Tx {
    if n <= 1 then Tx({}, map[], Idle)
    else if n < 2 + 2 * |kids| then
      Tx(Rows(kids[..(n - 2) / 2]), map[], if n % 2 == 0 then Idle else ChildAllowed(kids[(n - 2) / 2]))
    else if n == 2 + 2 * |kids| then Tx(Rows(kids), map[], Idle)
    else if n == 3 + 2 * |kids| then Tx(Rows(kids), map[], ComponentsChecked(b))
    else if n == 4 + 2 * |kids| then Tx(Rows(kids), map[], BundleAllowed(b))
    else Tx(Rows(kids), map[b.digest := b], Idle)
  }

  lemma {:induction false} TxAtEven(b: Bundle, kids: seq<Child>, i: nat)
    requires i <= |kids|
    ensures TxAt(b, kids, 2 + 2 * i) == Tx(Rows(kids[..i]), map[], Idle)
  {
    assert i == |kids| ==> kids[..i] == kids;
  }

  lemma {:induction false} TxAtOdd(b: Bundle, kids: seq<Child>, i: nat)
    requires i < |kids|
    ensures TxAt(b, kids, 3 + 2 * i) == Tx(Rows(kids[..i]), map[], ChildAllowed(kids[i]))
    ensures TxAt(b, kids, 4 + 2 * i) == Tx(Rows(kids[..i]) + {kids[i]}, map[], Idle)
  {
    TxAtEven(b, kids, i + 1);
    RowsNext(kids, i);
  }

  /** A due statement waits, ends the transaction, or takes it one statement further. */
  lemma {:induction false} InsertStatement(s: State, t: TxId, b: Bundle, kids: seq<Child>, n: nat, v: Validation)
    requires 2 <= n < 2 + 2 * |kids| && t in s.open && s.open[t] == TxAt(b, kids, n)
    ensures var s' := Step(s, Due(t, b, kids, n), v);
      s' == s || t !in s'.open || s'.open[t] == TxAt(b, kids, n + 1)
  {
    var i := (n - 2) / 2;
    if n % 2 == 0 {
      assert n == 2 + 2 * i;
      GuardStatement(s, t, b, kids, i, v);
    } else {
      assert n == 3 + 2 * i;
      WriteStatement(s, t, b, kids, i, v);
    }
  }

  lemma {:induction false} GuardStatement(s: State, t: TxId, b: Bundle, kids: seq<Child>, i: nat, v: Validation)
    requires i < |kids| && t in s.open && s.open[t] == TxAt(b, kids, 2 + 2 * i)
    ensures var s' := Step(s, Due(t, b, kids, 2 + 2 * i), v);
      s' == s || t !in s'.open || s'.open[t] == TxAt(b, kids, 3 + 2 * i)
  {
    TxAtEven(b, kids, i);
    TxAtOdd(b, kids, i);
  }

  lemma {:induction false} WriteStatement(s: State, t: TxId, b: Bundle, kids: seq<Child>, i: nat, v: Validation)
    requires i < |kids| && t in s.open && s.open[t] == TxAt(b, kids, 3 + 2 * i)
    ensures var s' := Step(s, Due(t, b, kids, 3 + 2 * i), v);
      s' == s || t !in s'.open || s'.open[t] == TxAt(b, kids, 4 + 2 * i)
  {
    TxAtOdd(b, kids, i);
  }

  lemma {:induction false} FirstStatements(s: State, t: TxId, b: Bundle, kids: seq<Child>, v: Validation)
    requires t in s.open && s.open[t] == TxAt(b, kids, 1)
    ensures var s' := Step(s, Due(t, b, kids, 1), v); t in s'.open && s'.open[t] == TxAt(b, kids, 2)
  {
    TxAtEven(b, kids, 0);
  }

  lemma {:induction false} LastStatements(s: State, t: TxId, b: Bundle, kids: seq<Child>, n: nat, v: Validation)
    requires 2 + 2 * |kids| <= n <= 5 + 2 * |kids| && t in s.open && s.open[t] == TxAt(b, kids, n)
    ensures var s' := Step(s, Due(t, b, kids, n), v);
      s' == s || t !in s'.open || (n < 5 + 2 * |kids| && s'.open[t] == TxAt(b, kids, n + 1))
  {
  }

  /** What is known of the publisher after `n` statements. */
  ghost predicate Following(s: State, t: TxId, b: Bundle, kids: seq<Child>, n: nat) {
    && (t in s.open ==> 1 <= n <= 5 + 2 * |kids| && s.open[t] == TxAt(b, kids, n))
    && (t !in s.begun ==> n == 0)
    && (forall d :: d in s.bundles && s.bundles[d].writer == t ==> AsPublished(s, t, b, kids, d))
  }

  /** A bundle sealed by the publisher is its own, with exactly its children. */
  ghost predicate AsPublished(s: State, t: TxId, b: Bundle, kids: seq<Child>, d: Digest)
    requires d in s.bundles
  {
    d == b.digest && s.bundles[d] == Sealed(b, t) && RowsOf(s.children.Keys, d) == Rows(kids)
  }

  /** A statement changes the open transactions only at its own. */
  lemma {:induction false} OwnTransaction(s: State, a: Action, v: Validation)
    ensures var s' := Step(s, a, v);
      || s' == s || s' == Rollback(s, a.t) || (a.t in s.open && s' == Publish(s, a.t))
      || a.Begin? || (s'.open == s.open && s'.begun == s.begun)
      || (a.t in s'.open && s' == SetTx(s, a.t, s'.open[a.t]))
  {
  }

  /** A statement of another session leaves the publisher's transaction alone. */
  lemma {:induction false} OthersLeave(s: State, a: Action, t: TxId, v: Validation)
    requires a.t != t
    ensures var s' := Step(s, a, v);
      && (t in s'.open <==> t in s.open) && (t in s.open ==> s'.open[t] == s.open[t])
      && (t in s'.begun <==> t in s.begun)
  {
    OwnTransaction(s, a, v);
  }

  /** Bundles that a statement seals are sealed by its own transaction. */
  lemma {:induction false} NewBundles(s: State, a: Action, d: Digest, v: Validation)
    requires d !in s.bundles && d in Step(s, a, v).bundles
    ensures a.Commit? && a.t in s.open && Step(s, a, v) == Publish(s, a.t) && d in s.open[a.t].bundles
  {
    if a.Commit? {
      CommitOutcome(s, a.t, v);
    } else {
      OnlyCommitPublishes(s, a, v);
    }
  }

  lemma {:induction false} SealedAsPublished(
    s: State, a: Action, t: TxId, b: Bundle, kids: seq<Child>, n: nat, v: Validation)
    requires Inv(s, v) && Following(s, t, b, kids, n) && (forall i :: 0 <= i < |kids| ==> kids[i].bundle == b.digest)
    requires a.t == t ==> a == Due(t, b, kids, n)
    ensures var s' := Step(s, a, v);
      forall d :: d in s'.bundles && s'.bundles[d].writer == t ==> AsPublished(s', t, b, kids, d)
  {
    var s' := Step(s, a, v);
    forall d | d in s'.bundles && s'.bundles[d].writer == t ensures AsPublished(s', t, b, kids, d) {
      if d in s.bundles {
        StepFreezes(s, a, d, v);
      } else {
        NewBundles(s, a, d, v);
        PublisherCommits(s, t, b, kids, n, v);
        assert TxOk(s, t, v);
        PublishedRows(s, t, d, v);
        AllRows(kids, b.digest);
      }
    }
  }

  lemma {:induction false} PublisherCommits(s: State, t: TxId, b: Bundle, kids: seq<Child>, n: nat, v: Validation)
    requires t in s.open && 1 <= n <= 5 + 2 * |kids| && s.open[t] == TxAt(b, kids, n) && Due(t, b, kids, n).Commit?
    ensures s.open[t] == Tx(Rows(kids), map[b.digest := b], Idle)
  {
  }

  lemma {:induction false} AllRows(kids: seq<Child>, d: Digest)
    requires forall i :: 0 <= i < |kids| ==> kids[i].bundle == d
    ensures RowsOf(Rows(kids), d) == Rows(kids)
  {
  }

  lemma {:induction false} FollowingStep(
    s: State, a: Action, t: TxId, b: Bundle, kids: seq<Child>, n: nat, v: Validation)
    requires Inv(s, v) && Following(s, t, b, kids, n) && (forall i :: 0 <= i < |kids| ==> kids[i].bundle == b.digest)
    requires a.t == t ==> n < 6 + 2 * |kids| && a == Due(t, b, kids, n)
    ensures Following(Step(s, a, v), t, b, kids, if a.t == t && Step(s, a, v) != s then n + 1 else n)
  {
    SealedAsPublished(s, a, t, b, kids, n, v);
    if a.t != t {
      OthersLeave(s, a, t, v);
    } else if t !in s.open {
      assert n == 0 || Step(s, a, v) == s;
    } else if n == 1 {
      FirstStatements(s, t, b, kids, v);
      BegunStays(s, a, v);
    } else if n < 2 + 2 * |kids| {
      InsertStatement(s, t, b, kids, n, v);
      BegunStays(s, a, v);
    } else {
      LastStatements(s, t, b, kids, n, v);
      BegunStays(s, a, v);
    }
  }

  lemma {:induction false} BegunStays(s: State, a: Action, v: Validation)
    ensures s.begun <= Step(s, a, v).begun
  {
  }

  /** `program` lists the due statements. */
  ghost predicate Lists(program: seq<Action>, t: TxId, b: Bundle, kids: seq<Child>) {
    |program| == 6 + 2 * |kids| && forall n: nat :: n < |program| ==> program[n] == Due(t, b, kids, n)
  }

  lemma {:induction false} FollowingRun(
    actions: seq<Action>, t: TxId, b: Bundle, kids: seq<Child>, program: seq<Action>, v: Validation)
    requires Lists(program, t, b, kids) && forall i :: 0 <= i < |kids| ==> kids[i].bundle == b.digest
    ensures var n := Progress(actions, t, program, v);
      n.Some? ==> Following(Run(actions, v), t, b, kids, n.value)
  {
    if actions != [] {
      var before, a := actions[..|actions| - 1], actions[|actions| - 1];
      FollowingRun(before, t, b, kids, program, v);
      var at := Progress(before, t, program, v);
      if Progress(actions, t, program, v).Some? {
        FollowingNext(before, a, t, b, kids, program, at, v);
      }
    }
  }

  /** One more statement of the run. */
  lemma {:induction false} FollowingNext(
    before: seq<Action>, a: Action, t: TxId, b: Bundle, kids: seq<Child>, program: seq<Action>, at: Option<nat>,
    v: Validation)
    requires Lists(program, t, b, kids) && forall i :: 0 <= i < |kids| ==> kids[i].bundle == b.digest
    requires at.Some? ==> Following(Run(before, v), t, b, kids, at.value)
    requires Advance(at, a, t, program, Step(Run(before, v), a, v) != Run(before, v)).Some?
    ensures Following(Step(Run(before, v), a, v), t, b, kids,
                      Advance(at, a, t, program, Step(Run(before, v), a, v) != Run(before, v)).value)
  {
    Advances(at, a, t, b, kids, program, Step(Run(before, v), a, v) != Run(before, v));
    FollowingInRun(before, a, t, b, kids, at.value,
                   Advance(at, a, t, program, Step(Run(before, v), a, v) != Run(before, v)).value, v);
  }

  lemma {:induction false} FollowingInRun(
    before: seq<Action>, a: Action, t: TxId, b: Bundle, kids: seq<Child>, n: nat, m: nat, v: Validation)
    requires forall i :: 0 <= i < |kids| ==> kids[i].bundle == b.digest
    requires Following(Run(before, v), t, b, kids, n)
    requires a.t == t ==> n < 6 + 2 * |kids| && a == Due(t, b, kids, n)
    requires m == if a.t == t && Step(Run(before, v), a, v) != Run(before, v) then n + 1 else n
    ensures Following(Step(Run(before, v), a, v), t, b, kids, m)
  {
    RunKeeps(before, v);
    FollowingStep(Run(before, v), a, t, b, kids, n, v);
  }

  lemma {:induction false} Advances(
    at: Option<nat>, a: Action, t: TxId, b: Bundle, kids: seq<Child>, program: seq<Action>, effective: bool)
    requires Lists(program, t, b, kids) && Advance(at, a, t, program, effective).Some?
    ensures at.Some? && (a.t == t ==> at.value < 6 + 2 * |kids| && a == Due(t, b, kids, at.value))
    ensures Advance(at, a, t, program, effective).value == if a.t == t && effective then at.value + 1 else at.value
  {
  }

  /**
    Whatever other sessions do in between: a session that issues the statements of `_publish` for
    `b` and `kids`, waiting where it must, seals no bundle but `b`, and seals it with exactly `kids`.
   */
  lemma {:induction false} PublisherSealsItsOwn(
    actions: seq<Action>, t: TxId, b: Bundle, kids: seq<Child>, d: Digest, v: Validation)
    requires forall i :: 0 <= i < |kids| ==> kids[i].bundle == b.digest
    requires Progress(actions, t, PublishActions(t, b, kids), v).Some?
    requires d in Run(actions, v).bundles && Run(actions, v).bundles[d].writer == t
    ensures AsPublished(Run(actions, v), t, b, kids, d)
  {
    var program := PublishActions(t, b, kids);
    DueIsPublish(t, b, kids, 0);
    forall n: nat | n < |program| ensures program[n] == Due(t, b, kids, n) {
      DueIsPublish(t, b, kids, n);
    }
    FollowingRun(actions, t, b, kids, program, v);
  }

  // ------------------------------------------------- the triggers, as they run

  /** The shared tables, the open transactions and the advisory locks. */
  class ConfigDatabase {
    var children: map<Child, TxId>
    var bundles: map<Digest, Sealed>
    var open: map<TxId, Tx>
    var locks: map<Digest, TxId>
    var begun: set<TxId>

    ghost function View(): State
      reads this
    {
      State(children, bundles, open, locks, begun)
    }

    constructor ()
      ensures View() == INITIAL
    {
      children, bundles, open, locks, begun := map[], map[], map[], map[], {};
    }

    method BeginTransaction(t: TxId)
      modifies this
      ensures View() == Step(old(View()), Begin(t), SQL_CHECKS)
    {
      if t !in begun {
        open := open[t := Tx({}, map[], Idle)];
        begun := begun + {t};
      }
    }

    method RollbackTransaction(t: TxId)
      modifies this
      ensures View() == Rollback(old(View()), t)
    {
      open := open - {t};
      locks := map d | d in locks && locks[d] != t :: locks[d];
    }

    /** `pg_advisory_xact_lock`; `granted` is false while another transaction holds the lock. */
    method AcquireLock(t: TxId, d: Digest) returns (granted: bool)
      requires t in open && open[t].phase == Idle
      modifies this
      ensures View() == Step(old(View()), Lock(t, d), SQL_CHECKS)
      ensures granted <==> Holds(View(), t, d)
    {
      granted := d !in locks || locks[d] == t;
      if granted {
        locks := locks[d := t];
      }
    }

    /** `guard_unsealed_config_child_insert` after its lock. */
    method GuardUnsealedChildInsert(t: TxId, c: Child) returns (allowed: bool)
      requires t in open && open[t].phase == Idle && c.bundle in locks && locks[c.bundle] == t
      modifies this
      ensures View() == Step(old(View()), GuardChild(t, c), SQL_CHECKS)
      ensures allowed <==> !BundleVisible(old(View()), t, c.bundle)
    {
      allowed := c.bundle !in bundles && c.bundle !in open[t].bundles;
      if allowed {
        open := open[t := open[t].(phase := ChildAllowed(c))];
      } else {
        RollbackTransaction(t);
      }
    }

    /** `count(*)`, `min(position)` and `max(position)` of the selected rows. */
    static method Aggregate(rows: set<Child>) returns (total: nat, low: int, high: int)
      requires Positioned(rows)
      ensures total == |rows|
      ensures rows != {} ==> IsMin(rows, low) && IsMax(rows, high)
    {
      total, low, high := 0, 0, 0;
      var left := rows;
      while left != {}
        invariant left <= rows && total == |rows| - |left|
        invariant total > 0 ==> IsMin(rows - left, low) && IsMax(rows - left, high)
        invariant total == 0 ==> left == rows
        decreases |left|
      {
        var c :| c in left;
        assert rows - (left - {c}) == (rows - left) + {c};
        low, high := if total == 0 || c.position < low then c.position else low,
                     if total == 0 || c.position > high then c.position else high;
        total, left := total + 1, left - {c};
      }
      assert rows - {} == rows;
    }

    static lemma Aggregated(rows: set<Child>, total: nat, low: int, high: int)
      requires Positioned(rows) && rows != {} && total == |rows| && IsMin(rows, low) && IsMax(rows, high)
      ensures CountMinMax(rows) <==> low == 0 && high == total - 1
    {
    }

    /** The component query of `validate_config_bundle_insert`. */
    method ValidateComponents(t: TxId, b: Bundle) returns (passed: bool)
      requires t in open && open[t].phase == Idle && b.digest in locks && locks[b.digest] == t
      modifies this
      ensures View() == Step(old(View()), CheckComponents(t, b), SQL_CHECKS)
    {
      var rows := Components(RowsOf(children.Keys + open[t].children, b.digest));
      var total, low, high := Aggregate(rows);
      if rows != {} {
        Aggregated(rows, total, low, high);
      }
      passed := !(total == 0 || low != 0 || high != total - 1);
      if passed {
        open := open[t := open[t].(phase := ComponentsChecked(b))];
      } else {
        RollbackTransaction(t);
      }
    }

    /** The blocker query and readiness check of `validate_config_bundle_insert`. */
    method ValidateBlockers(t: TxId) returns (passed: bool)
      requires t in open && open[t].phase.ComponentsChecked?
      modifies this
      ensures View() == Step(old(View()), CheckBlockers(t), SQL_CHECKS)
    {
      var b := open[t].phase.row';
      var rows := Blockers(RowsOf(children.Keys + open[t].children, b.digest));
      var total, low, high := Aggregate(rows);
      if rows != {} {
        Aggregated(rows, total, low, high);
      }
      passed := !(total > 0 && (low != 0 || high != total - 1))
        && !((b.readiness == Ready && total != 0) || (b.readiness == Blocked && total == 0));
      if passed {
        open := open[t := open[t].(phase := BundleAllowed(b))];
      } else {
        RollbackTransaction(t);
      }
    }

    /** The row insert of a child after its trigger. */
    method InsertChildRow(t: TxId)
      requires t in open && open[t].phase.ChildAllowed?
      modifies this
      ensures View() == Step(old(View()), WriteChild(t), SQL_CHECKS)
    {
      var c := open[t].phase.row;
      if !ChecksPass(c) || exists c' :: c' in children.Keys + open[t].children && Conflict(c, c') {
        RollbackTransaction(t);
      } else if !exists u :: u in open && u != t && exists c' :: c' in open[u].children && Conflict(c, c') {
        open := open[t := open[t].(children := open[t].children + {c}, phase := Idle)];
      }
    }

    /** The row insert of a bundle after its trigger. */
    method InsertBundleRow(t: TxId)
      requires t in open && open[t].phase.BundleAllowed?
      modifies this
      ensures View() == Step(old(View()), WriteBundle(t), SQL_CHECKS)
    {
      var b := open[t].phase.row';
      if b.digest in bundles || b.digest in open[t].bundles {
        RollbackTransaction(t);
      } else if !exists u :: u in open && u != t && b.digest in open[u].bundles {
        open := open[t := open[t].(bundles := open[t].bundles[b.digest := b], phase := Idle)];
      }
    }

    /** Commit with the deferred foreign keys. */
    method CommitTransaction(t: TxId) returns (committed: bool)
      requires t in open && open[t].phase == Idle
      modifies this
      ensures View() == Step(old(View()), Commit(t), SQL_CHECKS)
      ensures committed <==> ForeignKeysHold(old(View()), t)
    {
      var tx := open[t];
      committed := forall c :: c in tx.children ==> c.bundle in bundles || c.bundle in tx.bundles;
      if committed {
        children := children + (map c | c in tx.children :: t);
        bundles := bundles + (map d | d in tx.bundles :: Sealed(tx.bundles[d], t));
      }
      open := open - {t};
      locks := map d | d in locks && locks[d] != t :: locks[d];
    }

    /** `reject_immutable_config_mutation`: an UPDATE or DELETE of any row raises. */
    method RejectMutation(t: TxId)
      requires t in open
      modifies this
      ensures View() == Step(old(View()), Mutate(t), SQL_CHECKS)
    {
      RollbackTransaction(t);
    }

    /** One statement of one session; a statement out of turn does nothing. */
    method Execute(a: Action)
      modifies this
      ensures View() == Step(old(View()), a, SQL_CHECKS)
    {
      if a.Begin? {
        BeginTransaction(a.t);
      } else if a.t in open {
        if a.Abort? {
          RollbackTransaction(a.t);
        } else if a.Mutate? {
          RejectMutation(a.t);
        } else if open[a.t].phase == Idle {
          ExecuteIdle(a);
        } else if a.WriteChild? && open[a.t].phase.ChildAllowed? {
          InsertChildRow(a.t);
        } else if a.CheckBlockers? && open[a.t].phase.ComponentsChecked? {
          var _ := ValidateBlockers(a.t);
        } else if a.WriteBundle? && open[a.t].phase.BundleAllowed? {
          InsertBundleRow(a.t);
        }
      }
    }

    /** A statement that starts outside any trigger. */
    method ExecuteIdle(a: Action)
      requires a.t in open && open[a.t].phase == Idle && !a.Begin? && !a.Abort? && !a.Mutate?
      modifies this
      ensures View() == Step(old(View()), a, SQL_CHECKS)
    {
      if a.Lock? {
        var _ := AcquireLock(a.t, a.digest);
      } else if a.GuardChild? && a.child.bundle in locks && locks[a.child.bundle] == a.t {
        var _ := GuardUnsealedChildInsert(a.t, a.child);
      } else if a.CheckComponents? && a.bundle.digest in locks && locks[a.bundle.digest] == a.t {
        var _ := ValidateComponents(a.t, a.bundle);
      } else if a.Commit? {
        var _ := CommitTransaction(a.t);
      }
    }
  }

  /** Any schedule of statements over the shared tables is a run of the protocol: what it seals is
      numbered, belongs to one writer, and was already frozen when it was sealed. */
  method Serve(schedule: seq<Action>) returns (db: ConfigDatabase)
    ensures fresh(db) && db.View() == Run(schedule, SQL_CHECKS)
    ensures forall c :: c in db.children ==>
      c.bundle in db.bundles && db.children[c] == db.bundles[c.bundle].writer
    ensures forall d :: d in db.bundles ==> NumberedBundle(db.View(), d)
    ensures forall n: nat, d :: n <= |schedule| && d in Run(schedule[..n], SQL_CHECKS).bundles ==>
      SameBundle(Run(schedule[..n], SQL_CHECKS), db.View(), d)
  {
    db := new ConfigDatabase();
    for i := 0 to |schedule|
      invariant fresh(db) && db.View() == Run(schedule[..i], SQL_CHECKS)
    {
      assert schedule[..i + 1][..i] == schedule[..i];
      db.Execute(schedule[i]);
    }
    assert schedule[..|schedule|] == schedule;
    SealedByOneWriter(schedule, SQL_CHECKS);
    forall d | d in db.bundles ensures NumberedBundle(db.View(), d) {
      SealedBundlesAreNumbered(schedule, d);
    }
    FrozenSince(schedule);
  }

  /** A sealed bundle with its rows, found again unchanged. */
  ghost predicate SameBundle(s: State, s': State, d: Digest)
    requires d in s.bundles
  {
    d in s'.bundles && s'.bundles[d] == s.bundles[d] && RowsOf(s'.children.Keys, d) == RowsOf(s.children.Keys, d)
  }

  lemma {:induction false} FrozenSince(schedule: seq<Action>)
    ensures forall n: nat, d :: n <= |schedule| && d in Run(schedule[..n], SQL_CHECKS).bundles ==>
      SameBundle(Run(schedule[..n], SQL_CHECKS), Run(schedule, SQL_CHECKS), d)
  {
    forall n: nat, d | n <= |schedule| && d in Run(schedule[..n], SQL_CHECKS).bundles
      ensures SameBundle(Run(schedule[..n], SQL_CHECKS), Run(schedule, SQL_CHECKS), d)
    {
      assert schedule[..n] + schedule[n..] == schedule;
      SealedForever(schedule[..n], schedule[n..], d, SQL_CHECKS);
    }
  }
}
