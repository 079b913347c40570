/**
 Masking one database: a type pass and a deny-list pass inside one transaction, a savepoint
 around every statement, rollback when any column failed, and a bounded retry when the
 connection is lost. The content of a column is represented by the history of the updates
 applied to it since the restore, so an empty history means unchanged data.
 */
module MaskingRun {
  import opened Prelude
  import opened MaskingCompiler
  import opened TextSearch

  type ColumnKey = (string, string)

  datatype ColumnInfo = ColumnInfo(table: string, name: string, dt: DataType, maxLen: Option<nat>, field: FieldType)
  {
    function Key(): ColumnKey { (table, name) }
  }

  const StructuralTables: set<string> := {
    "ir_model_data", "ir_model", "ir_model_fields", "ir_model_fields_selection", "ir_model_relation",
    "ir_model_constraint", "ir_module_module", "ir_module_module_dependency", "ir_ui_menu", "ir_ui_view",
    "ir_ui_view_custom", "ir_actions", "ir_act_window", "ir_act_window_view", "ir_act_url", "ir_act_server",
    "ir_act_report_xml", "ir_act_client"}

  datatype Config = Config(allowed: set<ColumnKey>, unique: set<ColumnKey>, patterns: nat, range: real)

  datatype Change = TypeMask(attempt: nat) | DenyScrub(attempt: nat, pattern: nat)

  type Database = map<ColumnKey, seq<Change>>

  function History(db: Database, key: ColumnKey): seq<Change>
  {
    if key in db then db[key] else []
  }

  datatype Outcome = Done | Failed | ConnectionLost

  /** A refused commit failed for another reason than the connection; a lost commit was not applied;
      an unknown one was applied but reported as a lost connection. */
  datatype CommitOutcome = Committed | CommitRefused | CommitLost | CommitUnknown

  /** How the outside world answers: whether attempt `k` connects, the outcome of its `j`-th
      statement and of its commit, and whether it can still roll back when it has to. These are
      inputs: the model does not say how an outcome depends on the data. */
  datatype World = World(
    connects: nat -> bool, statement: (nat, nat) -> Outcome, commit: nat -> CommitOutcome, rollsBack: nat -> bool)

  datatype Work = Work(db: Database, next: nat, failures: seq<ColumnKey>, lost: bool)

  datatype AttemptResult = Masked | ColumnsFailed | CommitFailed | Disconnected

  // ---------------------------------------------------------------- eligibility

  predicate Spared(cfg: Config, c: ColumnInfo)
  {
    c.table in StructuralTables || c.Key() in cfg.allowed || c.Key() in cfg.unique
  }

  predicate TypeEligible(cfg: Config, c: ColumnInfo)
  {
    !Spared(cfg, c) &&
    var s := StrategySql(Classify(c.name, c.field, c.dt, c.maxLen), cfg.range);
    s.Ok? && s.value.Some?
  }

  predicate DenyEligible(cfg: Config, c: ColumnInfo)
  {
    c.dt in {CharacterVarying, TextType, Character} && !Spared(cfg, c)
  }

  // ---------------------------------------------------------------- the two passes

  /** One statement inside its savepoint. */
  function Execute(w: Work, key: ColumnKey, change: Change, outcome: Outcome): Work
  {
    match outcome
    case Done => w.(db := w.db[key := History(w.db, key) + [change]], next := w.next + 1)
    case Failed => w.(next := w.next + 1, failures := w.failures + [key])
    case ConnectionLost => w.(lost := true)
  }

  function TypePass(cfg: Config, cols: seq<ColumnInfo>, k: nat, world: World, w: Work): Work
    decreases cols
  {
    if cols == [] || w.lost then w
    else
      var c := cols[0];
      TypePass(cfg, cols[1..], k, world,
        if TypeEligible(cfg, c) then Execute(w, c.Key(), TypeMask(k), world.statement(k, w.next)) else w)
  }

  function DenyColumn(cfg: Config, key: ColumnKey, p: nat, k: nat, world: World, w: Work): Work
    requires p <= cfg.patterns
    decreases cfg.patterns - p
  {
    if p == cfg.patterns || w.lost then w
    else DenyColumn(cfg, key, p + 1, k, world, Execute(w, key, DenyScrub(k, p), world.statement(k, w.next)))
  }

  function DenyPass(cfg: Config, cols: seq<ColumnInfo>, k: nat, world: World, w: Work): Work
    decreases cols
  {
    if cols == [] || w.lost then w
    else
      var c := cols[0];
      DenyPass(cfg, cols[1..], k, world,
        if DenyEligible(cfg, c) then DenyColumn(cfg, c.Key(), 0, k, world, w) else w)
  }

  function BothPasses(cfg: Config, cols: seq<ColumnInfo>, k: nat, world: World, db: Database): Work
  {
    DenyPass(cfg, cols, k, world, TypePass(cfg, cols, k, world, Work(db, 0, [], false)))
  }

  /** One call of `mask_database`: the result and the committed database. */
  function Attempt(cfg: Config, cols: seq<ColumnInfo>, k: nat, world: World, db: Database): (AttemptResult, Database)
  {
    if !world.connects(k) then (Disconnected, db)
    else
      var w := BothPasses(cfg, cols, k, world, db);
      if w.lost then (Disconnected, db)
      else if w.failures != [] then (if world.rollsBack(k) then ColumnsFailed else Disconnected, db)
      else
        match world.commit(k)
        case Committed => (Masked, w.db)
        case CommitRefused => (if world.rollsBack(k) then CommitFailed else Disconnected, db)
        case CommitLost => (Disconnected, db)
        case CommitUnknown => (Disconnected, w.db)
  }

  // ---------------------------------------------------------------- what a clean attempt does

  function Scrubs(k: nat, p: nat, n: nat): seq<Change>
    requires p <= n
    decreases n - p
  {
    if p == n then [] else [DenyScrub(k, p)] + Scrubs(k, p + 1, n)
  }

  /** The updates that attempt `k` owes to a column: its mask once, then every deny pattern once. */
  function Owed(cfg: Config, c: ColumnInfo, k: nat): seq<Change>
  {
    (if TypeEligible(cfg, c) then [TypeMask(k)] else []) +
    (if DenyEligible(cfg, c) then Scrubs(k, 0, cfg.patterns) else [])
  }

  predicate Clean(w: Work) { !w.lost && w.failures == [] }

  ghost predicate DistinctColumns(cols: seq<ColumnInfo>)
  {
    forall i, j :: 0 <= i < j < |cols| ==> cols[i].Key() != cols[j].Key()
  }

  lemma {:induction false} TypePassClean(cfg: Config, cols: seq<ColumnInfo>, k: nat, world: World, w: Work)
    ensures Clean(TypePass(cfg, cols, k, world, w)) ==> Clean(w)
    decreases cols
  {
    if cols != [] && !w.lost {
      var c := cols[0];
      var w' := if TypeEligible(cfg, c) then Execute(w, c.Key(), TypeMask(k), world.statement(k, w.next)) else w;
      TypePassClean(cfg, cols[1..], k, world, w');
    }
  }

  lemma {:induction false} TypePassExact(
      cfg: Config, cols: seq<ColumnInfo>, k: nat, world: World, w: Work, key: ColumnKey)
    requires DistinctColumns(cols) && Clean(TypePass(cfg, cols, k, world, w))
    ensures var after := History(TypePass(cfg, cols, k, world, w).db, key);
      && ((forall i :: 0 <= i < |cols| ==> cols[i].Key() != key) ==> after == History(w.db, key))
      && (forall i :: 0 <= i < |cols| && cols[i].Key() == key ==>
            after == History(w.db, key) + (if TypeEligible(cfg, cols[i]) then [TypeMask(k)] else []))
    decreases cols
  {
    hide Classify, StrategySql, Spared;
    TypePassClean(cfg, cols, k, world, w);
    if cols != [] {
      var c, rest := cols[0], cols[1..];
      var w' := if TypeEligible(cfg, c) then Execute(w, c.Key(), TypeMask(k), world.statement(k, w.next)) else w;
      TypePassClean(cfg, rest, k, world, w');
      TypePassExact(cfg, rest, k, world, w', key);
      assert forall i :: 0 <= i < |rest| ==> rest[i] == cols[i + 1];
      assert forall i :: 0 < i < |cols| ==> cols[i] == rest[i - 1];
      if c.Key() == key {
        assert forall i :: 0 <= i < |rest| ==> rest[i].Key() != key;
      }
    }
  }

  lemma ExecuteHistory(w: Work, col: ColumnKey, change: Change, outcome: Outcome, key: ColumnKey)
    ensures Clean(Execute(w, col, change, outcome)) ==>
      && Clean(w) && outcome == Done
      && History(Execute(w, col, change, outcome).db, key)
           == (if key == col then History(w.db, key) + [change] else History(w.db, key))
  {}

  lemma ScrubsStep(before: seq<Change>, k: nat, p: nat, n: nat)
    requires p < n
    ensures before + Scrubs(k, p, n) == before + [DenyScrub(k, p)] + Scrubs(k, p + 1, n)
  {
    var rest := Scrubs(k, p + 1, n);
    assert before + ([DenyScrub(k, p)] + rest) == before + [DenyScrub(k, p)] + rest;
  }

  lemma {:induction false} DenyColumnExact(
      cfg: Config, col: ColumnKey, p: nat, k: nat, world: World, w: Work, key: ColumnKey)
    requires p <= cfg.patterns
    ensures Clean(DenyColumn(cfg, col, p, k, world, w)) ==>
      && Clean(w)
      && History(DenyColumn(cfg, col, p, k, world, w).db, key)
           == (if key == col then History(w.db, key) + Scrubs(k, p, cfg.patterns) else History(w.db, key))
    decreases cfg.patterns - p
  {
    if p == cfg.patterns {
      assert History(w.db, key) + Scrubs(k, p, cfg.patterns) == History(w.db, key);
    } else if !w.lost {
      hide Execute, History, Scrubs;
      var change, outcome := DenyScrub(k, p), world.statement(k, w.next);
      ExecuteHistory(w, col, change, outcome, key);
      DenyColumnExact(cfg, col, p + 1, k, world, Execute(w, col, change, outcome), key);
      ScrubsStep(History(w.db, key), k, p, cfg.patterns);
    }
  }

  lemma {:induction false} DenyPassClean(cfg: Config, cols: seq<ColumnInfo>, k: nat, world: World, w: Work)
    ensures Clean(DenyPass(cfg, cols, k, world, w)) ==> Clean(w)
    decreases cols
  {
    if cols != [] && !w.lost {
      var c := cols[0];
      DenyColumnExact(cfg, c.Key(), 0, k, world, w, c.Key());
      DenyPassClean(cfg, cols[1..], k, world,
        if DenyEligible(cfg, c) then DenyColumn(cfg, c.Key(), 0, k, world, w) else w);
    }
  }

  lemma {:induction false} DenyPassExact(
      cfg: Config, cols: seq<ColumnInfo>, k: nat, world: World, w: Work, key: ColumnKey)
    requires DistinctColumns(cols) && Clean(DenyPass(cfg, cols, k, world, w))
    ensures var after := History(DenyPass(cfg, cols, k, world, w).db, key);
      && ((forall i :: 0 <= i < |cols| ==> cols[i].Key() != key) ==> after == History(w.db, key))
      && (forall i :: 0 <= i < |cols| && cols[i].Key() == key ==>
            after == History(w.db, key) + (if DenyEligible(cfg, cols[i]) then Scrubs(k, 0, cfg.patterns) else []))
    decreases cols
  {
    hide Spared, Scrubs, DenyColumn, DenyEligible;
    DenyPassClean(cfg, cols, k, world, w);
    if cols != [] {
      var c, rest := cols[0], cols[1..];
      var w' := if DenyEligible(cfg, c) then DenyColumn(cfg, c.Key(), 0, k, world, w) else w;
      DenyPassClean(cfg, rest, k, world, w');
      DenyColumnExact(cfg, c.Key(), 0, k, world, w, key);
      DenyPassExact(cfg, rest, k, world, w', key);
      assert forall i :: 0 <= i < |rest| ==> rest[i] == cols[i + 1];
      assert forall i :: 0 < i < |cols| ==> cols[i] == rest[i - 1];
      if c.Key() == key {
        assert forall i :: 0 <= i < |rest| ==> rest[i].Key() != key;
      }
    }
  }

  /** The database after attempt `k` masked `db`: every column got exactly what it is owed, and
      nothing else changed. */
  ghost predicate MaskedBy(cfg: Config, cols: seq<ColumnInfo>, k: nat, db: Database, after: Database)
  {
    && (forall i :: 0 <= i < |cols| ==>
          History(after, cols[i].Key()) == History(db, cols[i].Key()) + Owed(cfg, cols[i], k))
    && (forall key :: (forall i :: 0 <= i < |cols| ==> cols[i].Key() != key) ==>
          History(after, key) == History(db, key))
  }

  lemma CleanPassesMask(cfg: Config, cols: seq<ColumnInfo>, k: nat, world: World, db: Database)
    requires DistinctColumns(cols) && Clean(BothPasses(cfg, cols, k, world, db))
    ensures MaskedBy(cfg, cols, k, db, BothPasses(cfg, cols, k, world, db).db)
  {
    hide TypePass, DenyPass, Scrubs, TypeEligible, DenyEligible, History;
    var w0 := Work(db, 0, [], false);
    var w1 := TypePass(cfg, cols, k, world, w0);
    DenyPassClean(cfg, cols, k, world, w1);
    var w2 := DenyPass(cfg, cols, k, world, w1);
    forall i | 0 <= i < |cols|
      ensures History(w2.db, cols[i].Key()) == History(db, cols[i].Key()) + Owed(cfg, cols[i], k)
    {
      TypePassExact(cfg, cols, k, world, w0, cols[i].Key());
      DenyPassExact(cfg, cols, k, world, w1, cols[i].Key());
    }
    forall key | forall i :: 0 <= i < |cols| ==> cols[i].Key() != key
      ensures History(w2.db, key) == History(db, key)
    {
      TypePassExact(cfg, cols, k, world, w0, key);
      DenyPassExact(cfg, cols, k, world, w1, key);
    }
  }

  /** One attempt commits everything or nothing, unless its commit is reported lost after having
      been applied. */
  lemma AttemptAllOrNothing(cfg: Config, cols: seq<ColumnInfo>, k: nat, world: World, db: Database)
    requires DistinctColumns(cols)
    ensures var (r, after) := Attempt(cfg, cols, k, world, db);
      && (r == Masked ==> MaskedBy(cfg, cols, k, db, after))
      && (r == ColumnsFailed || r == CommitFailed ==> after == db)
      && (r == Disconnected && world.commit(k) != CommitUnknown ==> after == db)
  {
    hide BothPasses, MaskedBy;
    var w := BothPasses(cfg, cols, k, world, db);
    if Clean(w) { CleanPassesMask(cfg, cols, k, world, db); }
  }

  // ---------------------------------------------------------------- retry

  /** Attempts from `k` up to the limit: the last result, the number of the last attempt made and
      the database. Only a lost connection is retried. */
  function Retry(cfg: Config, cols: seq<ColumnInfo>, k: nat, attempts: nat, world: World, db: Database)
    : (AttemptResult, nat, Database)
    requires k <= attempts
    decreases attempts - k
  {
    var (r, after) := Attempt(cfg, cols, k, world, db);
    if r != Disconnected || k >= attempts then (r, k, after)
    else Retry(cfg, cols, k + 1, attempts, world, after)
  }

  /** For any pattern of failures, with commits that are applied exactly when they report success:
      after at most `attempts` tries the database is either unchanged and an error is reported,
      or masked by exactly the last attempt. */
  lemma {:induction false} RetryAllOrNothing(
      cfg: Config, cols: seq<ColumnInfo>, k: nat, attempts: nat, world: World, db: Database)
    requires DistinctColumns(cols) && k <= attempts
    requires forall j :: k <= j <= attempts ==> world.commit(j) != CommitUnknown
    ensures var (r, last, after) := Retry(cfg, cols, k, attempts, world, db);
      && k <= last <= attempts
      && (r == Masked ==> MaskedBy(cfg, cols, last, db, after))
      && (r != Masked ==> after == db)
      && (r == Disconnected ==> last == attempts)
    decreases attempts - k
  {
    hide MaskedBy, Attempt;
    AttemptAllOrNothing(cfg, cols, k, world, db);
    var (r, after) := Attempt(cfg, cols, k, world, db);
    if r == Disconnected && k < attempts {
      RetryAllOrNothing(cfg, cols, k + 1, attempts, world, after);
    }
  }

  // ---------------------------------------------------------------- exactly when

  /** The two works differ at most in the data. */
  predicate SameCourse(v: Work, w: Work)
  {
    v.next == w.next && v.failures == w.failures && v.lost == w.lost
  }

  lemma {:induction false} TypePassCourse(cfg: Config, cols: seq<ColumnInfo>, k: nat, world: World, v: Work, w: Work)
    requires SameCourse(v, w)
    ensures SameCourse(TypePass(cfg, cols, k, world, v), TypePass(cfg, cols, k, world, w))
    decreases cols
  {
    if cols != [] && !v.lost {
      hide TypeEligible;
      var c, outcome := cols[0], world.statement(k, v.next);
      TypePassCourse(cfg, cols[1..], k, world,
        if TypeEligible(cfg, c) then Execute(v, c.Key(), TypeMask(k), outcome) else v,
        if TypeEligible(cfg, c) then Execute(w, c.Key(), TypeMask(k), outcome) else w);
    }
  }

  lemma {:induction false} DenyColumnCourse(
      cfg: Config, key: ColumnKey, p: nat, k: nat, world: World, v: Work, w: Work)
    requires p <= cfg.patterns && SameCourse(v, w)
    ensures SameCourse(DenyColumn(cfg, key, p, k, world, v), DenyColumn(cfg, key, p, k, world, w))
    decreases cfg.patterns - p
  {
    if p < cfg.patterns && !v.lost {
      var outcome := world.statement(k, v.next);
      DenyColumnCourse(cfg, key, p + 1, k, world,
        Execute(v, key, DenyScrub(k, p), outcome), Execute(w, key, DenyScrub(k, p), outcome));
    }
  }

  lemma {:induction false} DenyPassCourse(cfg: Config, cols: seq<ColumnInfo>, k: nat, world: World, v: Work, w: Work)
    requires SameCourse(v, w)
    ensures SameCourse(DenyPass(cfg, cols, k, world, v), DenyPass(cfg, cols, k, world, w))
    decreases cols
  {
    if cols != [] && !v.lost {
      hide DenyEligible, DenyColumn;
      var c := cols[0];
      DenyColumnCourse(cfg, c.Key(), 0, k, world, v, w);
      DenyPassCourse(cfg, cols[1..], k, world,
        if DenyEligible(cfg, c) then DenyColumn(cfg, c.Key(), 0, k, world, v) else v,
        if DenyEligible(cfg, c) then DenyColumn(cfg, c.Key(), 0, k, world, w) else w);
    }
  }

  /** How the passes end does not depend on the data. */
  lemma CourseIgnoresData(cfg: Config, cols: seq<ColumnInfo>, k: nat, world: World, db: Database, db': Database)
    ensures SameCourse(BothPasses(cfg, cols, k, world, db), BothPasses(cfg, cols, k, world, db'))
  {
    hide TypePass, DenyPass;
    var v, w := Work(db, 0, [], false), Work(db', 0, [], false);
    TypePassCourse(cfg, cols, k, world, v, w);
    DenyPassCourse(cfg, cols, k, world, TypePass(cfg, cols, k, world, v), TypePass(cfg, cols, k, world, w));
  }

  /** Attempt `k` connects and runs both passes without a failure. */
  predicate ReachesCommit(cfg: Config, cols: seq<ColumnInfo>, k: nat, world: World)
  {
    world.connects(k) && Clean(BothPasses(cfg, cols, k, world, map[]))
  }

  /** Attempt `k` reports a lost connection. */
  predicate Disconnects(cfg: Config, cols: seq<ColumnInfo>, k: nat, world: World)
  {
    || !world.connects(k)
    || BothPasses(cfg, cols, k, world, map[]).lost
    || (BothPasses(cfg, cols, k, world, map[]).failures != [] && !world.rollsBack(k))
    || (ReachesCommit(cfg, cols, k, world) && (world.commit(k) == CommitLost || world.commit(k) == CommitUnknown))
    || (ReachesCommit(cfg, cols, k, world) && world.commit(k) == CommitRefused && !world.rollsBack(k))
  }

  predicate Ambiguous(cfg: Config, cols: seq<ColumnInfo>, k: nat, world: World)
  {
    ReachesCommit(cfg, cols, k, world) && world.commit(k) == CommitUnknown
  }

  /** Some attempt is ambiguous, and all those before it lost their connection. */
  ghost predicate AmbiguityReached(cfg: Config, cols: seq<ColumnInfo>, k: nat, attempts: nat, world: World)
  {
    exists j :: k <= j <= attempts && Ambiguous(cfg, cols, j, world)
      && forall i :: k <= i < j ==> Disconnects(cfg, cols, i, world)
  }

  lemma AmbiguityStep(cfg: Config, cols: seq<ColumnInfo>, k: nat, attempts: nat, world: World)
    requires k <= attempts
    ensures AmbiguityReached(cfg, cols, k, attempts, world) <==>
      || Ambiguous(cfg, cols, k, world)
      || (Disconnects(cfg, cols, k, world) && AmbiguityReached(cfg, cols, k + 1, attempts, world))
  {
    hide Ambiguous, Disconnects;
  }

  /** Every column's data is what it was. */
  ghost predicate Unchanged(db: Database, after: Database)
  {
    forall key :: History(after, key) == History(db, key)
  }

  /** What each attempt does, in terms of the outside world alone. */
  lemma AttemptEffect(cfg: Config, cols: seq<ColumnInfo>, k: nat, world: World, db: Database)
    requires DistinctColumns(cols)
    ensures var (r, after) := Attempt(cfg, cols, k, world, db);
      && (r == Disconnected <==> Disconnects(cfg, cols, k, world))
      && (r == Masked || Ambiguous(cfg, cols, k, world) ==> MaskedBy(cfg, cols, k, db, after))
      && (r != Masked && !Ambiguous(cfg, cols, k, world) ==> after == db)
  {
    CourseIgnoresData(cfg, cols, k, world, db, map[]);
    hide BothPasses, MaskedBy;
    var w := BothPasses(cfg, cols, k, world, db);
    if Clean(w) { CleanPassesMask(cfg, cols, k, world, db); }
  }

  /** Some column is owed an update by every attempt. */
  ghost predicate OwesSomething(cfg: Config, cols: seq<ColumnInfo>)
  {
    exists i :: 0 <= i < |cols| && Owes(cfg, cols[i])
  }

  predicate Owes(cfg: Config, c: ColumnInfo)
  {
    TypeEligible(cfg, c) || (DenyEligible(cfg, c) && cfg.patterns > 0)
  }

  lemma {:induction false} ScrubsCount(k: nat, p: nat, n: nat)
    requires p <= n
    ensures |Scrubs(k, p, n)| == n - p
    decreases n - p
  {
    if p < n { ScrubsCount(k, p + 1, n); }
  }

  lemma OwedExactly(cfg: Config, c: ColumnInfo, k: nat)
    ensures Owed(cfg, c, k) != [] <==> Owes(cfg, c)
    ensures |Owed(cfg, c, k)|
         == (if TypeEligible(cfg, c) then 1 else 0) + (if DenyEligible(cfg, c) then cfg.patterns else 0)
  {
    hide TypeEligible, DenyEligible;
    ScrubsCount(k, 0, cfg.patterns);
  }

  /** With nothing owed a masked database is unchanged. */
  lemma NothingOwed(cfg: Config, cols: seq<ColumnInfo>, k: nat, db: Database, after: Database)
    requires !OwesSomething(cfg, cols) && MaskedBy(cfg, cols, k, db, after)
    ensures Unchanged(db, after)
  {
    hide Owes, Owed, History;
    forall key ensures History(after, key) == History(db, key) {
      if i :| 0 <= i < |cols| && cols[i].Key() == key {
        OwedExactly(cfg, cols[i], k);
      }
    }
  }

  /** Updates are never undone by later attempts, and a successful attempt adds its own. */
  lemma {:induction false} RetryGrows(
      cfg: Config, cols: seq<ColumnInfo>, k: nat, attempts: nat, world: World, db: Database, i: nat)
    requires DistinctColumns(cols) && k <= attempts && i < |cols|
    ensures var (r, last, after) := Retry(cfg, cols, k, attempts, world, db);
      var was, now := |History(db, cols[i].Key())|, |History(after, cols[i].Key())|;
      && was <= now
      && (r == Masked ==> was + |Owed(cfg, cols[i], last)| <= now)
    decreases attempts - k
  {
    hide Attempt, Owed, History, Ambiguous, Disconnects;
    AttemptEffect(cfg, cols, k, world, db);
    var (r, after) := Attempt(cfg, cols, k, world, db);
    if r == Disconnected && k < attempts {
      RetryGrows(cfg, cols, k + 1, attempts, world, after, i);
    }
  }

  ghost predicate AllOrNothing(
      cfg: Config, cols: seq<ColumnInfo>, db: Database, r: AttemptResult, last: nat, after: Database)
  {
    (r == Masked ==> MaskedBy(cfg, cols, last, db, after)) && (r != Masked ==> Unchanged(db, after))
  }

  /** An ambiguous first attempt leaves a column that is owed something updated too often, or
      updated although an error is reported. */
  lemma AmbiguousBreaks(cfg: Config, cols: seq<ColumnInfo>, k: nat, attempts: nat, world: World, db: Database)
    requires DistinctColumns(cols) && k <= attempts && OwesSomething(cfg, cols) && Ambiguous(cfg, cols, k, world)
    ensures var (r, last, after) := Retry(cfg, cols, k, attempts, world, db);
      !AllOrNothing(cfg, cols, db, r, last, after)
  {
    hide Attempt, Owed, History, Ambiguous, Owes;
    var i :| 0 <= i < |cols| && Owes(cfg, cols[i]);
    var key := cols[i].Key();
    AmbiguousDisconnects(cfg, cols, k, world);
    AttemptEffect(cfg, cols, k, world, db);
    var (r0, once) := Attempt(cfg, cols, k, world, db);
    OwedExactly(cfg, cols[i], k);
    assert |History(once, key)| == |History(db, key)| + |Owed(cfg, cols[i], k)|;
    if k < attempts {
      RetryGrows(cfg, cols, k + 1, attempts, world, once, i);
      var (r, last, after) := Retry(cfg, cols, k + 1, attempts, world, once);
      OwedExactly(cfg, cols[i], last);
      assert |History(after, key)| > |History(db, key)|;
      if r == Masked {
        assert |History(after, key)| > |History(db, key)| + |Owed(cfg, cols[i], last)|;
      }
    }
  }

  lemma AmbiguousDisconnects(cfg: Config, cols: seq<ColumnInfo>, k: nat, world: World)
    requires Ambiguous(cfg, cols, k, world)
    ensures Disconnects(cfg, cols, k, world)
  {
    hide BothPasses;
  }

  lemma UnchangedThrough(cfg: Config, cols: seq<ColumnInfo>, k: nat, attempts: nat, world: World,
                         db: Database, once: Database)
    requires DistinctColumns(cols) && k <= attempts && Unchanged(db, once)
    ensures var (r, last, after) := Retry(cfg, cols, k, attempts, world, once);
      AllOrNothing(cfg, cols, once, r, last, after) ==> AllOrNothing(cfg, cols, db, r, last, after)
  {
    hide Retry, Owed, History;
  }

  /** For any pattern of failures: the run ends with the data unchanged and an error, or masked by
      exactly the last attempt, exactly when no attempt that is made reaches its commit and has it
      applied but reported lost, or no column is owed anything. */
  lemma {:induction false} AllOrNothingExactly(
      cfg: Config, cols: seq<ColumnInfo>, k: nat, attempts: nat, world: World, db: Database)
    requires DistinctColumns(cols) && k <= attempts
    ensures var (r, last, after) := Retry(cfg, cols, k, attempts, world, db);
      AllOrNothing(cfg, cols, db, r, last, after) <==>
        !(AmbiguityReached(cfg, cols, k, attempts, world) && OwesSomething(cfg, cols))
    decreases attempts - k
  {
    hide Attempt, MaskedBy, Unchanged, Ambiguous, Disconnects, OwesSomething, AmbiguityReached;
    AttemptEffect(cfg, cols, k, world, db);
    AmbiguityStep(cfg, cols, k, attempts, world);
    var (r, once) := Attempt(cfg, cols, k, world, db);
    SameData(db);
    if Ambiguous(cfg, cols, k, world) {
      if OwesSomething(cfg, cols) {
        AmbiguousBreaks(cfg, cols, k, attempts, world, db);
      } else {
        AmbiguousDisconnects(cfg, cols, k, world);
        NothingOwed(cfg, cols, k, db, once);
        if k < attempts {
          AllOrNothingExactly(cfg, cols, k + 1, attempts, world, once);
          UnchangedThrough(cfg, cols, k + 1, attempts, world, db, once);
        }
      }
    } else if r == Disconnected {
      if k < attempts {
        AllOrNothingExactly(cfg, cols, k + 1, attempts, world, once);
      } else {
        NoneLeft(cfg, cols, k + 1, attempts, world);
      }
    }
  }

  lemma SameData(db: Database)
    ensures Unchanged(db, db)
  {}

  lemma NoneLeft(cfg: Config, cols: seq<ColumnInfo>, k: nat, attempts: nat, world: World)
    requires k > attempts
    ensures !AmbiguityReached(cfg, cols, k, attempts, world)
  {}

  /** Structural, allow-listed and unique columns keep their data through every run, whatever
      fails and however its commits are reported. */
  lemma {:induction false} SparedUnchanged(
      cfg: Config, cols: seq<ColumnInfo>, k: nat, attempts: nat, world: World, db: Database, i: nat)
    requires DistinctColumns(cols) && k <= attempts && i < |cols| && !Free(cfg, cols[i])
    ensures History(Retry(cfg, cols, k, attempts, world, db).2, cols[i].Key()) == History(db, cols[i].Key())
    decreases attempts - k
  {
    hide Attempt, History, Ambiguous, Disconnects;
    AttemptEffect(cfg, cols, k, world, db);
    SparedOwedNothing(cfg, cols[i], k);
    hide Owed, Free;
    var (r, after) := Attempt(cfg, cols, k, world, db);
    assert History(after, cols[i].Key()) == History(db, cols[i].Key());
    if r == Disconnected && k < attempts {
      SparedUnchanged(cfg, cols, k + 1, attempts, world, after, i);
    }
  }

  const ModelTables: set<string> := {
    "ir_model", "ir_model_data", "ir_model_fields", "ir_model_fields_selection", "ir_model_relation",
    "ir_model_constraint"}

  const ModuleTables: set<string> := {"ir_module_module", "ir_module_module_dependency"}

  const ViewTables: set<string> := {"ir_ui_menu", "ir_ui_view", "ir_ui_view_custom"}

  const ActionTables: set<string> := {
    "ir_actions", "ir_act_window", "ir_act_window_view", "ir_act_url", "ir_act_server", "ir_act_report_xml",
    "ir_act_client"}

  /** The spared tables are those that define models, modules, views and actions, and no others. */
  lemma FrameworkTables()
    ensures StructuralTables == ModelTables + ModuleTables + ViewTables + ActionTables
  {}

  /** Not a framework table, not on the allow list and not part of a unique key. */
  predicate Free(cfg: Config, c: ColumnInfo)
  {
    && c.table !in StructuralTables
    && (c.table, c.name) !in cfg.allowed
    && (c.table, c.name) !in cfg.unique
  }

  lemma {:induction false} ScrubsExactly(k: nat, p: nat, n: nat, i: nat)
    requires p + i < n
    ensures i < |Scrubs(k, p, n)| && Scrubs(k, p, n)[i] == DenyScrub(k, p + i)
    decreases i
  {
    ScrubsCount(k, p, n);
    if i > 0 { ScrubsExactly(k, p + 1, n, i - 1); }
  }

  /** What an attempt owes to a column, in the column's own fields: one mask if the column is free
      and masking does not leave it alone, and after it one scrub per deny pattern if it is free and
      of a text type. */
  lemma OwedInFields(cfg: Config, c: ColumnInfo, k: nat)
    ensures Owed(cfg, c, k)
         == (if Free(cfg, c) && !LeftAlone(Lower(c.name), c.field, c.dt) then [TypeMask(k)] else [])
            + (if Free(cfg, c) && c.dt in {CharacterVarying, TextType, Character}
               then Scrubs(k, 0, cfg.patterns) else [])
  {
    LeftAloneExactly(c.name, c.field, c.dt, c.maxLen, cfg.range);
    hide Classify, StrategySql, LeftAlone, Scrubs, Lower;
  }

  lemma SparedOwedNothing(cfg: Config, c: ColumnInfo, k: nat)
    requires !Free(cfg, c)
    ensures Owed(cfg, c, k) == []
  {
    hide LeftAlone, Scrubs;
    OwedInFields(cfg, c, k);
  }

  /** For instance: a commit applied but reported lost is masked again. */
  lemma AmbiguousCommitMasksTwice(cfg: Config, c: ColumnInfo)
    requires TypeEligible(cfg, c) && cfg.patterns == 0
    ensures var world := World(k => true, (k, j) => Done, k => if k == 1 then CommitUnknown else Committed, k => true);
      var (r, last, after) := Retry(cfg, [c], 1, 2, world, map[]);
      r == Masked && History(after, c.Key()) == [TypeMask(1), TypeMask(2)]
  {
    hide Classify, StrategySql, TypeEligible;
    var world := World(k => true, (k, j) => Done, k => if k == 1 then CommitUnknown else Committed, k => true);
    var cols := [c];
    AlwaysDoneIsClean(cfg, c, 1, world, map[]);
    CleanPassesMask(cfg, cols, 1, world, map[]);
    var db1 := BothPasses(cfg, cols, 1, world, map[]).db;
    AlwaysDoneIsClean(cfg, c, 2, world, db1);
    CleanPassesMask(cfg, cols, 2, world, db1);
    assert Attempt(cfg, cols, 1, world, map[]) == (Disconnected, db1);
    assert Owed(cfg, c, 1) == [TypeMask(1)] && Owed(cfg, c, 2) == [TypeMask(2)];
    assert cols[0].Key() == c.Key();
    assert History(map[], c.Key()) == [];
  }

  /** The column of partner images, which is replaced by empty bytes. */
  lemma PartnerImagesMaskedTwice()
    ensures var cfg := Config({}, {}, 0, 0.1);
      var c := ColumnInfo("res_partner", "image", Bytea, None, NoField);
      var world := World(k => true, (k, j) => Done, k => if k == 1 then CommitUnknown else Committed, k => true);
      var (r, last, after) := Retry(cfg, [c], 1, 2, world, map[]);
      r == Masked && History(after, ("res_partner", "image")) == [TypeMask(1), TypeMask(2)]
  {
    var cfg := Config({}, {}, 0, 0.1);
    var c := ColumnInfo("res_partner", "image", Bytea, None, NoField);
    assert TypeEligible(cfg, c);
    hide Retry, History, TypeEligible;
    AmbiguousCommitMasksTwice(cfg, c);
  }

  lemma AlwaysDoneIsClean(cfg: Config, c: ColumnInfo, k: nat, world: World, db: Database)
    requires cfg.patterns == 0 && forall j :: world.statement(k, j) == Done
    ensures Clean(BothPasses(cfg, [c], k, world, db))
  {
    hide TypeEligible, DenyEligible;
    var w0 := Work(db, 0, [], false);
    var w1 := if TypeEligible(cfg, c) then Execute(w0, c.Key(), TypeMask(k), world.statement(k, 0)) else w0;
    assert [c][1..] == [];
    assert TypePass(cfg, [c], k, world, w0) == TypePass(cfg, [], k, world, w1) == w1;
    assert DenyColumn(cfg, c.Key(), 0, k, world, w1) == w1;
    assert DenyPass(cfg, [c], k, world, w1) == DenyPass(cfg, [], k, world, w1) == w1;
  }

  // ---------------------------------------------------------------- the session itself

  class Masker {
    const cfg: Config
    const cols: seq<ColumnInfo>
    const world: World
    var committed: Database
    var working: Database
    var next: nat
    var failures: seq<ColumnKey>

    constructor (config: Config, columns: seq<ColumnInfo>, outside: World, restored: Database)
      ensures cfg == config && cols == columns && world == outside && committed == restored
    {
      cfg, cols, world, committed := config, columns, outside, restored;
      working, next, failures := restored, 0, [];
    }

    /** One statement in its savepoint; `lost` is the exception that leaves the handler. */
    method RunStatement(key: ColumnKey, change: Change, k: nat) returns (lost: bool)
      modifies `working, `next, `failures
      ensures Work(working, next, failures, lost)
           == Execute(Work(old(working), old(next), old(failures), false), key, change, world.statement(k, old(next)))
    {
      var savepoint := working;
      match world.statement(k, next) {
        case ConnectionLost => return true;
        case Failed =>
          working := savepoint;
          failures := failures + [key];
        case Done =>
          working := working[key := History(working, key) + [change]];
      }
      next := next + 1;
      lost := false;
    }

    method RunTypePass(k: nat) returns (lost: bool)
      modifies `working, `next, `failures
      ensures Work(working, next, failures, lost)
           == TypePass(cfg, cols, k, world, Work(old(working), old(next), old(failures), false))
    {
      lost := false;
      assert cols[0..] == cols;
      for i := 0 to |cols|
        invariant !lost
        invariant TypePass(cfg, cols[i..], k, world, Work(working, next, failures, false))
               == TypePass(cfg, cols, k, world, Work(old(working), old(next), old(failures), false))
      {
        var c := cols[i];
        assert cols[i..][1..] == cols[i + 1..];
        if TypeEligible(cfg, c) {
          lost := RunStatement(c.Key(), TypeMask(k), k);
          if lost { return; }
        }
      }
      assert cols[|cols|..] == [];
    }

    method RunDenyColumn(key: ColumnKey, k: nat) returns (lost: bool)
      modifies `working, `next, `failures
      ensures Work(working, next, failures, lost)
           == DenyColumn(cfg, key, 0, k, world, Work(old(working), old(next), old(failures), false))
    {
      lost := false;
      for p := 0 to cfg.patterns
        invariant !lost
        invariant DenyColumn(cfg, key, p, k, world, Work(working, next, failures, false))
               == DenyColumn(cfg, key, 0, k, world, Work(old(working), old(next), old(failures), false))
      {
        lost := RunStatement(key, DenyScrub(k, p), k);
        if lost { return; }
      }
    }

    method RunDenyPass(k: nat) returns (lost: bool)
      modifies `working, `next, `failures
      ensures Work(working, next, failures, lost)
           == DenyPass(cfg, cols, k, world, Work(old(working), old(next), old(failures), false))
    {
      hide DenyColumn;
      lost := false;
      assert cols[0..] == cols;
      for i := 0 to |cols|
        invariant !lost
        invariant DenyPass(cfg, cols[i..], k, world, Work(working, next, failures, false))
               == DenyPass(cfg, cols, k, world, Work(old(working), old(next), old(failures), false))
      {
        var c := cols[i];
        assert cols[i..][1..] == cols[i + 1..];
        if DenyEligible(cfg, c) {
          lost := RunDenyColumn(c.Key(), k);
          if lost { return; }
        }
      }
      assert cols[|cols|..] == [];
    }

    method MaskDatabase(k: nat) returns (r: AttemptResult)
      modifies `committed, `working, `next, `failures
      ensures (r, committed) == Attempt(cfg, cols, k, world, old(committed))
    {
      hide TypePass;
      if !world.connects(k) { return Disconnected; }
      working, next, failures := committed, 0, [];
      var lost := RunTypePass(k);
      if !lost { lost := RunDenyPass(k); }
      if lost {
        working := committed;
        return Disconnected;
      }
      if failures != [] {
        working := committed;
        return if world.rollsBack(k) then ColumnsFailed else Disconnected;
      }
      match world.commit(k)
      case Committed => committed := working; r := Masked;
      case CommitRefused => working := committed; r := if world.rollsBack(k) then CommitFailed else Disconnected;
      case CommitLost => working := committed; r := Disconnected;
      case CommitUnknown => committed := working; r := Disconnected;
    }

    /** Without a single attempt nothing is tried and nothing is reported. */
    method MaskWithRetry(attempts: nat) returns (r: Option<AttemptResult>, last: nat)
      modifies `committed, `working, `next, `failures
      ensures attempts == 0 ==> r == None && last == 0 && committed == old(committed)
      ensures attempts >= 1 ==>
        r.Some? && (r.value, last, committed) == Retry(cfg, cols, 1, attempts, world, old(committed))
    {
      hide Attempt;
      if attempts == 0 { return None, 0; }
      last := 1;
      while true
        invariant 1 <= last <= attempts
        invariant Retry(cfg, cols, last, attempts, world, committed)
               == Retry(cfg, cols, 1, attempts, world, old(committed))
        decreases attempts - last
      {
        var result := MaskDatabase(last);
        if result != Disconnected || last >= attempts { return Some(result), last; }
        last := last + 1;
      }
    }
  }
}
