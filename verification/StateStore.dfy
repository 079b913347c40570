/**
 The two stores behind the Slack/GitHub bridge: the in-memory one keeps the links in two
 dictionaries, the SQLite one in a single table keyed by thread. Clock readings are parameters.
 */
module StateStore {
  import opened Prelude

  type ThreadKey = (string, string)
  type IssueKey = (string, int)

  datatype Link = Link(
    channel: string, threadTs: string, repo: string, issue: int, reporter: string,
    createdAt: int, lastRelayed: Option<int>, confirmedAt: Option<int>)
  {
    function Thread(): ThreadKey { (channel, threadTs) }
    function Issue(): IssueKey { (repo, issue) }
  }

  function Get<K, V>(m: map<K, V>, k: K): Option<V>
  {
    if k in m then Some(m[k]) else None
  }

  // ---------------------------------------------------------------- operations

  /** `SeenEvent` reads the clock twice: for the cut-off and for the stored time. */
  datatype Op =
    | LinkThread(link: Link)
    | MarkConfirmed(thread: ThreadKey, at: int)
    | UpdateRelayed(thread: ThreadKey, comment: int)
    | MapUser(user: string, login: string)
    | SeenEvent(key: string, checked: int, stored: int)

  datatype Answer = Nothing | Seen(already: bool)

  // ---------------------------------------------------------------- in-memory store

  datatype Memory = Memory(
    byThread: map<ThreadKey, Link>, byIssue: map<IssueKey, Link>,
    users: map<string, string>, dedupe: map<string, int>)

  const EmptyMemory := Memory(map[], map[], map[], map[])

  function MemReplace(m: Memory, updated: Link): Memory
  {
    m.(byThread := m.byThread[updated.Thread() := updated],
       byIssue := m.byIssue[updated.Issue() := updated])
  }

  function Recent(dedupe: map<string, int>, cutoff: int): map<string, int>
  {
    map k | k in dedupe && dedupe[k] >= cutoff :: dedupe[k]
  }

  function MemStep(m: Memory, op: Op, ttl: nat): (Memory, Answer)
  {
    match op
    case LinkThread(link) => (MemReplace(m, link), Nothing)
    case MarkConfirmed(thread, at) =>
      if thread !in m.byThread then (m, Nothing)
      else
        var updated := m.byThread[thread].(confirmedAt := Some(at));
        (m.(byThread := m.byThread[thread := updated],
            byIssue := m.byIssue[m.byThread[thread].Issue() := updated]), Nothing)
    case UpdateRelayed(thread, comment) =>
      if thread !in m.byThread then (m, Nothing)
      else
        var updated := m.byThread[thread].(lastRelayed := Some(comment));
        (m.(byThread := m.byThread[thread := updated],
            byIssue := m.byIssue[m.byThread[thread].Issue() := updated]), Nothing)
    case MapUser(user, login) => (m.(users := m.users[user := login]), Nothing)
    case SeenEvent(key, checked, stored) =>
      var recent := Recent(m.dedupe, checked - ttl);
      if key in recent then (m.(dedupe := recent), Seen(true))
      else (m.(dedupe := recent[key := stored]), Seen(false))
  }

  function MemByThread(m: Memory, thread: ThreadKey): Option<Link> { Get(m.byThread, thread) }

  function MemByIssue(m: Memory, issue: IssueKey): Option<Link> { Get(m.byIssue, issue) }

  // ---------------------------------------------------------------- SQL store

  /** Rows by primary key. */
  datatype Table = Table(rows: map<ThreadKey, Link>, users: map<string, string>, dedupe: map<string, int>)

  const EmptyTable := Table(map[], map[], map[])

  /** What `DELETE ... WHERE seen_at < cutoff` leaves. */
  function NotExpired(dedupe: map<string, int>, cutoff: int): map<string, int>
  {
    map k | k in dedupe && !(dedupe[k] < cutoff) :: dedupe[k]
  }

  function SqlStep(t: Table, op: Op, ttl: nat): (Table, Answer)
  {
    match op
    case LinkThread(link) => (t.(rows := t.rows[link.Thread() := link]), Nothing)
    case MarkConfirmed(thread, at) =>
      (t.(rows := map k | k in t.rows ::
            if k == thread then t.rows[k].(confirmedAt := Some(at)) else t.rows[k]), Nothing)
    case UpdateRelayed(thread, comment) =>
      (t.(rows := map k | k in t.rows ::
            if k == thread then t.rows[k].(lastRelayed := Some(comment)) else t.rows[k]), Nothing)
    case MapUser(user, login) => (t.(users := t.users[user := login]), Nothing)
    case SeenEvent(key, checked, stored) =>
      var kept := NotExpired(t.dedupe, checked - ttl);
      if key in kept then (t.(dedupe := kept), Seen(true))
      else (t.(dedupe := kept[key := stored]), Seen(false))
  }

  /** An operation that raises between its statements: `seen_event` has deleted the expired ids and
      not recorded the new one; the others are single statements. */
  function MemHalf(m: Memory, op: Op, ttl: nat): Memory
  {
    if op.SeenEvent? then m.(dedupe := Recent(m.dedupe, op.checked - ttl)) else m
  }

  function SqlHalf(t: Table, op: Op, ttl: nat): Table
  {
    if op.SeenEvent? then t.(dedupe := NotExpired(t.dedupe, op.checked - ttl)) else t
  }

  /** The issue columns are indexed but not unique: `fetchone` may return any matching row. */
  ghost predicate SqlMayAnswer(t: Table, issue: IssueKey, answer: Option<Link>)
  {
    match answer
    case None => forall k :: k in t.rows ==> t.rows[k].Issue() != issue
    case Some(l) => l.Issue() == issue && exists k :: k in t.rows && t.rows[k] == l
  }

  // ---------------------------------------------------------------- refinement

  /** Every query that the bridge makes gets the same answer from both stores. */
  ghost predicate SameAnswers(m: Memory, t: Table, ttl: nat)
  {
    && (forall thread :: MemByThread(m, thread) == Get(t.rows, thread))
    && (forall issue, answer :: SqlMayAnswer(t, issue, answer) ==> answer == MemByIssue(m, issue))
    && (forall user :: Get(m.users, user) == Get(t.users, user))
    && (forall key, checked, stored ::
          MemStep(m, SeenEvent(key, checked, stored), ttl).1 == SqlStep(t, SeenEvent(key, checked, stored), ttl).1)
  }

  /** The two dictionaries hold the same links, one per thread and one per issue. */
  ghost predicate Coherent(m: Memory)
  {
    && (forall k :: k in m.byThread ==>
          && m.byThread[k].Thread() == k
          && m.byThread[k].Issue() in m.byIssue
          && m.byIssue[m.byThread[k].Issue()] == m.byThread[k])
    && (forall i :: i in m.byIssue ==>
          && m.byIssue[i].Issue() == i
          && m.byIssue[i].Thread() in m.byThread
          && m.byThread[m.byIssue[i].Thread()] == m.byIssue[i])
  }

  ghost predicate Agree(m: Memory, t: Table)
  {
    Coherent(m) && m.byThread == t.rows && m.users == t.users && m.dedupe == t.dedupe
  }

  lemma AgreeGivesSameAnswers(m: Memory, t: Table, ttl: nat)
    requires Agree(m, t)
    ensures SameAnswers(m, t, ttl)
  {
    assert forall i :: i in m.byIssue ==> t.rows[m.byIssue[i].Thread()].Issue() == i;
    forall issue, answer | SqlMayAnswer(t, issue, answer)
      ensures answer == MemByIssue(m, issue)
    {
      match answer
      case None =>
      case Some(l) =>
        var k :| k in t.rows && t.rows[k] == l;
        assert m.byThread[k] == l;
    }
    forall key, checked, stored
      ensures MemStep(m, SeenEvent(key, checked, stored), ttl).1 == SqlStep(t, SeenEvent(key, checked, stored), ttl).1
    {
      SeenEventAgrees(m, t, key, checked, stored, ttl);
    }
  }

  lemma RecentIsNotExpired(dedupe: map<string, int>, cutoff: int)
    ensures Recent(dedupe, cutoff) == NotExpired(dedupe, cutoff)
  {}

  lemma SeenEventAgrees(m: Memory, t: Table, key: string, checked: int, stored: int, ttl: nat)
    requires m.dedupe == t.dedupe
    ensures MemStep(m, SeenEvent(key, checked, stored), ttl).1 == SqlStep(t, SeenEvent(key, checked, stored), ttl).1
    ensures MemStep(m, SeenEvent(key, checked, stored), ttl).0.dedupe
         == SqlStep(t, SeenEvent(key, checked, stored), ttl).0.dedupe
  {
    RecentIsNotExpired(m.dedupe, checked - ttl);
    hide Recent, NotExpired;
  }

  lemma HalfAgrees(m: Memory, t: Table, op: Op, ttl: nat)
    requires Agree(m, t)
    ensures Agree(MemHalf(m, op, ttl), SqlHalf(t, op, ttl))
  {
    if op.SeenEvent? { RecentIsNotExpired(m.dedupe, op.checked - ttl); }
  }

  /** A new link shares both keys with a stored one, or neither. */
  ghost predicate Fits(m: Memory, link: Link)
  {
    forall k :: k in m.byThread ==> (k == link.Thread() <==> m.byThread[k].Issue() == link.Issue())
  }

  /** Linking keeps every answer equal exactly when the new link fits: relinking a thread to
      another issue, or an issue to another thread, makes the stores disagree. */
  lemma LinkAgreesExactly(m: Memory, t: Table, link: Link, ttl: nat)
    requires Agree(m, t)
    ensures var m', t' := MemStep(m, LinkThread(link), ttl).0, SqlStep(t, LinkThread(link), ttl).0;
      && (Fits(m, link) ==> Agree(m', t'))
      && (SameAnswers(m', t', ttl) <==> Fits(m, link))
  {
    var m', t' := MemStep(m, LinkThread(link), ttl).0, SqlStep(t, LinkThread(link), ttl).0;
    if Fits(m, link) {
      assert Coherent(m');
      AgreeGivesSameAnswers(m', t', ttl);
    } else {
      var k :| k in m.byThread && !(k == link.Thread() <==> m.byThread[k].Issue() == link.Issue());
      var issue := m.byThread[k].Issue();
      if k == link.Thread() {
        // the memory store still finds the old issue, the table does not
        assert MemByIssue(m', issue) == Some(m.byThread[k]);
        assert SqlMayAnswer(t', issue, None);
      } else {
        // two rows now carry the same issue
        assert MemByIssue(m', issue) == Some(link);
        assert t'.rows[k] == m.byThread[k];
        assert SqlMayAnswer(t', issue, Some(m.byThread[k]));
      }
    }
  }

  /** For instance: one thread linked to issue 1 and then to issue 2. The memory store still finds
      it under issue 1, the table does not. */
  lemma RelinkedThread(ttl: nat)
    ensures var first := Link("C1", "10.1", "club/erp", 1, "U1", 0, None, None);
      var ops := [LinkThread(first), LinkThread(first.(issue := 2))];
      var m, t := MemRun(EmptyMemory, ops, ttl).0, SqlRun(EmptyTable, ops, ttl).0;
      && MemByIssue(m, ("club/erp", 1)) == Some(first)
      && SqlMayAnswer(t, ("club/erp", 1), None)
      && !SqlMayAnswer(t, ("club/erp", 1), Some(first))
  {
    var first := Link("C1", "10.1", "club/erp", 1, "U1", 0, None, None);
    var second := first.(issue := 2);
    var ops := [LinkThread(first), LinkThread(second)];
    assert ops[1..] == [LinkThread(second)] && ops[1..][1..] == [];
    var m1, t1 := MemStep(EmptyMemory, ops[0], ttl).0, SqlStep(EmptyTable, ops[0], ttl).0;
    var m, t := MemStep(m1, ops[1], ttl).0, SqlStep(t1, ops[1], ttl).0;
    assert MemRun(m, [], ttl).0 == m && SqlRun(t, [], ttl).0 == t;
    assert MemRun(m1, ops[1..], ttl).0 == m && SqlRun(t1, ops[1..], ttl).0 == t;
    assert MemRun(EmptyMemory, ops, ttl).0 == m && SqlRun(EmptyTable, ops, ttl).0 == t;
    assert t.rows == map[first.Thread() := second];
    assert first.Issue() == ("club/erp", 1) && second.Issue() == ("club/erp", 2);
  }

  /** Replacing the link of a thread by one with the same keys. */
  lemma UpdateAgrees(m: Memory, t: Table, thread: ThreadKey, updated: Link)
    requires Agree(m, t) && thread in m.byThread
    requires updated.Thread() == thread && updated.Issue() == m.byThread[thread].Issue()
    ensures Agree(MemReplace(m, updated), t.(rows := t.rows[thread := updated]))
  {
    var m' := MemReplace(m, updated);
    assert Coherent(m');
  }

  lemma MarkAgrees(m: Memory, t: Table, thread: ThreadKey, at: int, ttl: nat)
    requires Agree(m, t)
    ensures Agree(MemStep(m, MarkConfirmed(thread, at), ttl).0, SqlStep(t, MarkConfirmed(thread, at), ttl).0)
  {
    var t' := SqlStep(t, MarkConfirmed(thread, at), ttl).0;
    if thread in m.byThread {
      var updated := m.byThread[thread].(confirmedAt := Some(at));
      UpdateAgrees(m, t, thread, updated);
      assert t'.rows == t.rows[thread := updated];
    } else {
      assert t'.rows == t.rows;
    }
  }

  lemma RelayedAgrees(m: Memory, t: Table, thread: ThreadKey, comment: int, ttl: nat)
    requires Agree(m, t)
    ensures Agree(MemStep(m, UpdateRelayed(thread, comment), ttl).0, SqlStep(t, UpdateRelayed(thread, comment), ttl).0)
  {
    var t' := SqlStep(t, UpdateRelayed(thread, comment), ttl).0;
    if thread in m.byThread {
      var updated := m.byThread[thread].(lastRelayed := Some(comment));
      UpdateAgrees(m, t, thread, updated);
      assert t'.rows == t.rows[thread := updated];
    } else {
      assert t'.rows == t.rows;
    }
  }

  lemma StepAgrees(m: Memory, t: Table, op: Op, ttl: nat)
    requires Agree(m, t)
    requires op.LinkThread? ==> Fits(m, op.link)
    ensures Agree(MemStep(m, op, ttl).0, SqlStep(t, op, ttl).0)
    ensures MemStep(m, op, ttl).1 == SqlStep(t, op, ttl).1
  {
    match op
    case LinkThread(link) => LinkAgreesExactly(m, t, link, ttl);
    case MarkConfirmed(thread, at) => MarkAgrees(m, t, thread, at, ttl);
    case UpdateRelayed(thread, comment) => RelayedAgrees(m, t, thread, comment, ttl);
    case MapUser(_, _) =>
    case SeenEvent(key, checked, stored) => SeenEventAgrees(m, t, key, checked, stored, ttl);
  }

  // ---------------------------------------------------------------- whole runs

  function MemRun(m: Memory, ops: seq<Op>, ttl: nat): (Memory, seq<Answer>)
    decreases ops
  {
    if ops == [] then (m, [])
    else
      var (next, answer) := MemStep(m, ops[0], ttl);
      var (last, answers) := MemRun(next, ops[1..], ttl);
      (last, [answer] + answers)
  }

  function SqlRun(t: Table, ops: seq<Op>, ttl: nat): (Table, seq<Answer>)
    decreases ops
  {
    if ops == [] then (t, [])
    else
      var (next, answer) := SqlStep(t, ops[0], ttl);
      var (last, answers) := SqlRun(next, ops[1..], ttl);
      (last, [answer] + answers)
  }

  /** Each new link uses a thread and an issue that no earlier link used. */
  ghost predicate FreshLinks(ops: seq<Op>)
  {
    forall i, j :: 0 <= i < j < |ops| && ops[i].LinkThread? && ops[j].LinkThread? ==>
      ops[i].link.Thread() != ops[j].link.Thread() && ops[i].link.Issue() != ops[j].link.Issue()
  }

  /** No link of `ops` uses a key already stored. */
  ghost predicate AvoidsStored(m: Memory, ops: seq<Op>)
  {
    forall j :: 0 <= j < |ops| && ops[j].LinkThread? ==>
      ops[j].link.Thread() !in m.byThread && ops[j].link.Issue() !in m.byIssue
  }

  lemma StepKeys(m: Memory, op: Op, ttl: nat)
    requires Coherent(m)
    ensures op.LinkThread? ==>
      MemStep(m, op, ttl).0.byThread.Keys == m.byThread.Keys + {op.link.Thread()} &&
      MemStep(m, op, ttl).0.byIssue.Keys == m.byIssue.Keys + {op.link.Issue()}
    ensures !op.LinkThread? ==>
      MemStep(m, op, ttl).0.byThread.Keys == m.byThread.Keys && MemStep(m, op, ttl).0.byIssue.Keys == m.byIssue.Keys
  {
  }

  lemma {:induction false} RunAgrees(m: Memory, t: Table, ops: seq<Op>, ttl: nat)
    requires Agree(m, t) && FreshLinks(ops) && AvoidsStored(m, ops)
    ensures Agree(MemRun(m, ops, ttl).0, SqlRun(t, ops, ttl).0)
    ensures MemRun(m, ops, ttl).1 == SqlRun(t, ops, ttl).1
    decreases ops
  {
    if ops != [] {
      var op := ops[0];
      StepAgrees(m, t, op, ttl);
      StepKeys(m, op, ttl);
      var m', t' := MemStep(m, op, ttl).0, SqlStep(t, op, ttl).0;
      assert AvoidsStored(m', ops[1..]) by {
        forall j | 0 <= j < |ops| - 1 && ops[1..][j].LinkThread?
          ensures ops[1..][j].link.Thread() !in m'.byThread && ops[1..][j].link.Issue() !in m'.byIssue
        {
          assert ops[1..][j] == ops[j + 1];
        }
      }
      RunAgrees(m', t', ops[1..], ttl);
    }
  }

  /** The in-memory store refines the SQL table: over every run with fresh links both give the
      same dedupe answers along the way and the same answer to every query at the end. */
  lemma MemoryRefinesSql(ops: seq<Op>, ttl: nat)
    requires FreshLinks(ops)
    ensures MemRun(EmptyMemory, ops, ttl).1 == SqlRun(EmptyTable, ops, ttl).1
    ensures SameAnswers(MemRun(EmptyMemory, ops, ttl).0, SqlRun(EmptyTable, ops, ttl).0, ttl)
    ensures Coherent(MemRun(EmptyMemory, ops, ttl).0)
  {
    RunAgrees(EmptyMemory, EmptyTable, ops, ttl);
    AgreeGivesSameAnswers(MemRun(EmptyMemory, ops, ttl).0, SqlRun(EmptyTable, ops, ttl).0, ttl);
  }

  /** Both stores give the same answers to every query at every point of the run. */
  ghost predicate AlwaysSame(m: Memory, t: Table, ops: seq<Op>, ttl: nat)
    decreases ops
  {
    && SameAnswers(m, t, ttl)
    && (ops != [] ==>
          && MemStep(m, ops[0], ttl).1 == SqlStep(t, ops[0], ttl).1
          && AlwaysSame(MemStep(m, ops[0], ttl).0, SqlStep(t, ops[0], ttl).0, ops[1..], ttl))
  }

  /** Every link fits the links stored when it is made. */
  ghost predicate AlwaysFits(m: Memory, ops: seq<Op>, ttl: nat)
    decreases ops
  {
    ops != [] ==>
      (ops[0].LinkThread? ==> Fits(m, ops[0].link)) && AlwaysFits(MemStep(m, ops[0], ttl).0, ops[1..], ttl)
  }

  /** The stores agree throughout a run exactly when every link fits. */
  lemma {:induction false} RunAgreesExactly(m: Memory, t: Table, ops: seq<Op>, ttl: nat)
    requires Agree(m, t)
    ensures AlwaysSame(m, t, ops, ttl) <==> AlwaysFits(m, ops, ttl)
    decreases ops
  {
    hide Agree, SameAnswers, Fits, MemStep, SqlStep;
    AgreeGivesSameAnswers(m, t, ttl);
    if ops != [] {
      var op := ops[0];
      var m', t' := MemStep(m, op, ttl).0, SqlStep(t, op, ttl).0;
      if op.LinkThread? && !Fits(m, op.link) {
        LinkAgreesExactly(m, t, op.link, ttl);
        assert op == LinkThread(op.link);
        assert !AlwaysSame(m', t', ops[1..], ttl);
      } else {
        StepAgrees(m, t, op, ttl);
        RunAgreesExactly(m', t', ops[1..], ttl);
      }
    }
  }

  /** In particular from empty stores. */
  lemma MemoryRefinesSqlExactly(ops: seq<Op>, ttl: nat)
    ensures AlwaysSame(EmptyMemory, EmptyTable, ops, ttl) <==> AlwaysFits(EmptyMemory, ops, ttl)
  {
    assert Agree(EmptyMemory, EmptyTable);
    hide Agree, AlwaysSame, AlwaysFits;
    RunAgreesExactly(EmptyMemory, EmptyTable, ops, ttl);
  }

  // ---------------------------------------------------------------- the stores themselves

  class InMemoryStore {
    const ttl: nat
    var linksByThread: map<ThreadKey, Link>
    var linksByIssue: map<IssueKey, Link>
    var userMap: map<string, string>
    var dedupe: map<string, int>

    ghost function Value(): Memory
      reads this
    {
      Memory(linksByThread, linksByIssue, userMap, dedupe)
    }

    constructor (dedupeTtl: nat)
      ensures Value() == EmptyMemory && ttl == dedupeTtl
    {
      ttl := dedupeTtl;
      linksByThread, linksByIssue, userMap, dedupe := map[], map[], map[], map[];
    }

    method LinkThreadToIssue(link: Link)
      modifies this
      ensures Value() == MemStep(old(Value()), LinkThread(link), ttl).0
    {
      linksByThread := linksByThread[link.Thread() := link];
      linksByIssue := linksByIssue[link.Issue() := link];
    }

    method MarkIntentConfirmed(thread: ThreadKey, at: int)
      modifies this
      ensures Value() == MemStep(old(Value()), MarkConfirmed(thread, at), ttl).0
    {
      if thread !in linksByThread { return; }
      var existing := linksByThread[thread];
      var updated := existing.(confirmedAt := Some(at));
      linksByThread := linksByThread[thread := updated];
      linksByIssue := linksByIssue[existing.Issue() := updated];
    }

    method UpdateLastRelayedComment(thread: ThreadKey, comment: int)
      modifies this
      ensures Value() == MemStep(old(Value()), UpdateRelayed(thread, comment), ttl).0
    {
      if thread !in linksByThread { return; }
      var existing := linksByThread[thread];
      var updated := existing.(lastRelayed := Some(comment));
      linksByThread := linksByThread[thread := updated];
      linksByIssue := linksByIssue[existing.Issue() := updated];
    }

    method MapSlackUser(user: string, login: string)
      modifies this
      ensures Value() == MemStep(old(Value()), MapUser(user, login), ttl).0
    {
      userMap := userMap[user := login];
    }

    method SeenBefore(key: string, checked: int, stored: int) returns (already: bool)
      modifies this
      ensures (Value(), Seen(already)) == MemStep(old(Value()), SeenEvent(key, checked, stored), ttl)
    {
      var cutoff := checked - ttl;
      dedupe := map k | k in dedupe && dedupe[k] >= cutoff :: dedupe[k];
      if key in dedupe { return true; }
      dedupe := dedupe[key := stored];
      already := false;
    }
  }

  class SqliteStore {
    const ttl: nat
    var threadIssue: map<ThreadKey, Link>
    var userMapping: map<string, string>
    var dedupe: map<string, int>

    ghost function Value(): Table
      reads this
    {
      Table(threadIssue, userMapping, dedupe)
    }

    constructor (dedupeTtl: nat)
      ensures Value() == EmptyTable && ttl == dedupeTtl
    {
      ttl := dedupeTtl;
      threadIssue, userMapping, dedupe := map[], map[], map[];
    }

    method LinkThreadToIssue(link: Link)
      modifies this
      ensures Value() == SqlStep(old(Value()), LinkThread(link), ttl).0
    {
      threadIssue := threadIssue[link.Thread() := link];
    }

    method MarkIntentConfirmed(thread: ThreadKey, at: int)
      modifies this
      ensures Value() == SqlStep(old(Value()), MarkConfirmed(thread, at), ttl).0
    {
      threadIssue := map k | k in threadIssue ::
        if k == thread then threadIssue[k].(confirmedAt := Some(at)) else threadIssue[k];
    }

    method UpdateLastRelayedComment(thread: ThreadKey, comment: int)
      modifies this
      ensures Value() == SqlStep(old(Value()), UpdateRelayed(thread, comment), ttl).0
    {
      threadIssue := map k | k in threadIssue ::
        if k == thread then threadIssue[k].(lastRelayed := Some(comment)) else threadIssue[k];
    }

    method MapSlackUser(user: string, login: string)
      modifies this
      ensures Value() == SqlStep(old(Value()), MapUser(user, login), ttl).0
    {
      userMapping := userMapping[user := login];
    }

    method SelectByIssue(issue: IssueKey) returns (answer: Option<Link>)
      ensures SqlMayAnswer(Value(), issue, answer)
    {
      if exists k :: k in threadIssue && threadIssue[k].Issue() == issue {
        var k :| k in threadIssue && threadIssue[k].Issue() == issue;
        answer := Some(threadIssue[k]);
      } else {
        answer := None;
      }
    }

    method SeenBefore(key: string, checked: int, stored: int) returns (already: bool)
      modifies this
      ensures (Value(), Seen(already)) == SqlStep(old(Value()), SeenEvent(key, checked, stored), ttl)
    {
      var cutoff := checked - ttl;
      dedupe := map k | k in dedupe && !(dedupe[k] < cutoff) :: dedupe[k];
      if key in dedupe { return true; }
      dedupe := dedupe[key := stored];
      already := false;
    }
  }
}
