/**
 The bridge on its SQLite store. The handlers are those of the in-memory bridge with the queries
 and updates of the table in place of the dictionaries; the query by issue has no order, so the
 row it returns is an input of the step. Over runs with fresh identifiers both bridges post the
 same effects.
 */
module BridgeOnSqlite {
  import opened Prelude
  import opened StateStore
  import opened SlackBridge

  datatype SqlBridge = SqlBridge(cfg: Config, now: int, table: Table, log: seq<Effect>)

  function StartSql(cfg: Config, now: int): SqlBridge { SqlBridge(cfg, now, EmptyTable, []) }

  /** An event and the row that the query by issue returns, if the event makes one. */
  datatype Delivery = Delivery(event: Event, row: Option<Link>)

  function WriteSql(s: SqlBridge, op: Op, call: Call): SqlBridge
  {
    match call
    case RaisedBefore => s
    case RaisedBetween => s.(table := SqlHalf(s.table, op, s.cfg.ttl))
    case _ => s.(table := SqlStep(s.table, op, s.cfg.ttl).0)
  }

  function EmitSql(s: SqlBridge, e: Effect, call: Call): SqlBridge
  {
    if TakesEffect(call) then s.(log := s.log + [e]) else s
  }

  function CheckSql(s: SqlBridge, key: string, lag: nat, call: Call): (SqlBridge, bool)
  {
    if key == "" then (s, true)
    else
      var op := SeenEvent(key, s.now, s.now + lag);
      var after := WriteSql(s, op, call).(now := s.now + lag);
      (after, call == Done && SqlStep(s.table, op, s.cfg.ttl).1 == Seen(false))
  }

  // ---------------------------------------------------------------- handlers

  function OnModalSql(s: SqlBridge, e: Event): SqlBridge
    requires e.ModalSubmitted?
  {
    if !e.isIntake || e.sensitive || e.open != Done || e.post != Done then s
    else WriteSql(s, LinkThread(NewLink(s.cfg, s.now, e)), e.link)
  }

  function NewLink(cfg: Config, now: int, e: Event): Link
    requires e.ModalSubmitted?
  {
    Link(e.newThread.0, e.newThread.1, cfg.repo, e.newIssue, e.user, now, None, None)
  }

  function OnIssueCommentSql(s: SqlBridge, e: Event, row: Option<Link>): SqlBridge
    requires e.IssueComment?
  {
    if s.cfg.shadow then s
    else
      var key := DeliveryKey(e.delivery);
      var (c, isNew) := CheckSql(s, key, e.lag, e.seen);
      if !isNew || e.number == 0 || !e.labelled then c
      else if row.None? || row.value.confirmedAt.Some? || e.author !in c.cfg.relayAuthors then c
      else if e.comment != 0 && row.value.lastRelayed == Some(e.comment) then c
      else
        var thread := row.value.Thread();
        var d := EmitSql(c, RelayedToSlack(thread, (e.repo, e.number), key, s.now, c.now), e.reply);
        if e.reply != Done || e.comment == 0 then d else WriteSql(d, UpdateRelayed(thread, e.comment), e.update)
  }

  function OnSlackMessageSql(s: SqlBridge, e: Event): SqlBridge
    requires e.SlackMessage?
  {
    var key := EventKey(e.eventId);
    var (c, isNew) := CheckSql(s, key, e.lag, e.seen);
    if !isNew || e.fromBot || e.threadTs == "" then c
    else
      var thread := (e.channel, e.threadTs);
      var found := Get(c.table.rows, thread);
      if found.None? || found.value.confirmedAt.Some? || e.text == "" then c
      else EmitSql(c, RelayedToGitHub(thread, (c.cfg.repo, found.value.issue), key, s.now, c.now), e.post)
  }

  function OnButtonSql(s: SqlBridge, e: Event): SqlBridge
    requires e.ButtonClicked?
  {
    var thread := (e.channel, e.threadTs);
    var found := Get(s.table.rows, thread);
    if !e.isConfirm || found.None? || e.clicker != found.value.reporter then s
    else
      var c := EmitSql(s, ConfirmPosted(thread, (s.cfg.repo, found.value.issue), e.clicker), e.post);
      if e.post != Done then c else WriteSql(c, MarkConfirmed(thread, c.now), e.mark)
  }

  function StepSql(s: SqlBridge, d: Delivery): SqlBridge
  {
    match d.event
    case Tick(seconds) => s.(now := s.now + seconds)
    case ModalSubmitted(_, _, _, _, _, _, _, _) => OnModalSql(s, d.event)
    case IssueComment(_, _, _, _, _, _, _, _, _, _) => OnIssueCommentSql(s, d.event, d.row)
    case SlackMessage(_, _, _, _, _, _, _, _) => OnSlackMessageSql(s, d.event)
    case ButtonClicked(_, _, _, _, _, _) => OnButtonSql(s, d.event)
    case UserMapped(user, login) => WriteSql(s, MapUser(user, login), Done)
  }

  function RunSql(s: SqlBridge, ds: seq<Delivery>): SqlBridge
    decreases ds
  {
    if ds == [] then s else RunSql(StepSql(s, ds[0]), ds[1..])
  }

  function Events(ds: seq<Delivery>): seq<Event>
  {
    if ds == [] then [] else [ds[0].event] + Events(ds[1..])
  }

  // ---------------------------------------------------------------- what is assumed of each step

  /** New threads and issues are not in the table yet, and the query by issue returned a row the
      table allows. */
  ghost predicate Allowed(s: SqlBridge, d: Delivery)
  {
    var e := d.event;
    && (e.ModalSubmitted? ==>
          e.newThread !in s.table.rows
          && forall k :: k in s.table.rows ==> s.table.rows[k].Issue() != (s.cfg.repo, e.newIssue))
    && (e.IssueComment? ==> SqlMayAnswer(s.table, (e.repo, e.number), d.row))
  }

  ghost predicate AllowedRun(s: SqlBridge, ds: seq<Delivery>)
    decreases ds
  {
    ds == [] || (Allowed(s, ds[0]) && AllowedRun(StepSql(s, ds[0]), ds[1..]))
  }

  // ---------------------------------------------------------------- the two bridges side by side

  ghost predicate Matches(b: Bridge, s: SqlBridge)
  {
    b.cfg == s.cfg && b.now == s.now && b.log == s.log && Agree(b.store, s.table)
  }

  lemma WriteMatches(b: Bridge, s: SqlBridge, op: Op, call: Call)
    requires Matches(b, s) && (op.LinkThread? ==> Fits(b.store, op.link))
    ensures Matches(Write(b, op, call), WriteSql(s, op, call))
  {
    hide Agree, MemStep, SqlStep, MemHalf, SqlHalf, Fits;
    StepAgrees(b.store, s.table, op, b.cfg.ttl);
    HalfAgrees(b.store, s.table, op, b.cfg.ttl);
  }

  lemma EmitMatches(b: Bridge, s: SqlBridge, e: Effect, call: Call)
    requires Matches(b, s)
    ensures Matches(Emit(b, e, call), EmitSql(s, e, call))
  {
    hide Agree;
  }

  lemma CheckParts(b: Bridge, key: string, lag: nat, call: Call)
    requires key != ""
    ensures var op := SeenEvent(key, b.now, b.now + lag);
      && Check(b, key, lag, call).0 == Write(b, op, call).(now := b.now + lag)
      && Check(b, key, lag, call).1 == (call == Done && MemStep(b.store, op, b.cfg.ttl).1 == Seen(false))
  {
    hide MemStep, Write;
  }

  lemma CheckSqlParts(s: SqlBridge, key: string, lag: nat, call: Call)
    requires key != ""
    ensures var op := SeenEvent(key, s.now, s.now + lag);
      && CheckSql(s, key, lag, call).0 == WriteSql(s, op, call).(now := s.now + lag)
      && CheckSql(s, key, lag, call).1 == (call == Done && SqlStep(s.table, op, s.cfg.ttl).1 == Seen(false))
  {
    hide SqlStep, WriteSql;
  }

  lemma CheckMatches(b: Bridge, s: SqlBridge, key: string, lag: nat, call: Call)
    requires Matches(b, s)
    ensures Matches(Check(b, key, lag, call).0, CheckSql(s, key, lag, call).0)
    ensures Check(b, key, lag, call).1 == CheckSql(s, key, lag, call).1
    ensures CheckSql(s, key, lag, call).0.table.rows == s.table.rows
  {
    if key != "" {
      hide Agree, MemStep, SqlStep, Write, WriteSql, Matches, Check, CheckSql;
      SameSettings(b, s);
      CheckParts(b, key, lag, call);
      CheckSqlParts(s, key, lag, call);
      var op := SeenEvent(key, b.now, b.now + lag);
      SeenKeepsRows(s, op, call);
      WriteMatches(b, s, op, call);
      LaterMatches(Write(b, op, call), WriteSql(s, op, call), b.now + lag);
      AnswerMatches(b, s, op);
    }
  }

  lemma LaterMatches(b: Bridge, s: SqlBridge, now: int)
    requires Matches(b, s)
    ensures Matches(b.(now := now), s.(now := now))
  {
    hide Agree;
  }

  lemma AnswerMatches(b: Bridge, s: SqlBridge, op: Op)
    requires Matches(b, s) && op.SeenEvent?
    ensures MemStep(b.store, op, b.cfg.ttl).1 == SqlStep(s.table, op, s.cfg.ttl).1
  {
    hide Agree, MemStep, SqlStep;
    StepAgrees(b.store, s.table, op, b.cfg.ttl);
  }

  lemma SeenKeepsRows(s: SqlBridge, op: Op, call: Call)
    requires op.SeenEvent?
    ensures WriteSql(s, op, call).table.rows == s.table.rows
  {}

  lemma ThreadMatches(b: Bridge, s: SqlBridge, thread: ThreadKey)
    requires Matches(b, s)
    ensures MemByThread(b.store, thread) == Get(s.table.rows, thread)
  {}

  lemma IssueMatches(b: Bridge, s: SqlBridge, issue: IssueKey, row: Option<Link>)
    requires Matches(b, s) && SqlMayAnswer(s.table, issue, row)
    ensures MemByIssue(b.store, issue) == row
  {
    hide SqlMayAnswer;
    AgreeGivesSameAnswers(b.store, s.table, b.cfg.ttl);
  }

  lemma FreshMatches(b: Bridge, s: SqlBridge, d: Delivery)
    requires Matches(b, s) && Allowed(s, d)
    ensures FreshIds(b, d.event)
    ensures d.event.ModalSubmitted? ==> Fits(b.store, NewLink(s.cfg, s.now, d.event))
  {}

  lemma IssueCommentMatches(b: Bridge, s: SqlBridge, d: Delivery)
    requires Matches(b, s) && Allowed(s, d) && d.event.IssueComment?
    ensures Matches(OnIssueComment(b, d.event), OnIssueCommentSql(s, d.event, d.row))
  {
    hide Check, CheckSql, Emit, EmitSql, Write, WriteSql, Matches, MemByIssue, SqlMayAnswer, DeliveryKey;
    var e := d.event;
    SameSettings(b, s);
    if !b.cfg.shadow {
      var key := DeliveryKey(e.delivery);
      CheckMatches(b, s, key, e.lag, e.seen);
      var (c, isNew) := Check(b, key, e.lag, e.seen);
      var (t, _) := CheckSql(s, key, e.lag, e.seen);
      SameSettings(c, t);
      SameRowsAnswer(s.table, t.table, (e.repo, e.number), d.row);
      IssueMatches(c, t, (e.repo, e.number), d.row);
      if d.row.Some? {
        var thread := d.row.value.Thread();
        var effect := RelayedToSlack(thread, (e.repo, e.number), key, b.now, c.now);
        EmitMatches(c, t, effect, e.reply);
        WriteMatches(Emit(c, effect, e.reply), EmitSql(t, effect, e.reply), UpdateRelayed(thread, e.comment), e.update);
      }
    }
  }

  lemma SameSettings(b: Bridge, s: SqlBridge)
    requires Matches(b, s)
    ensures b.cfg == s.cfg && b.now == s.now && b.log == s.log
  {}

  lemma SameRowsAnswer(t: Table, u: Table, issue: IssueKey, row: Option<Link>)
    requires t.rows == u.rows && SqlMayAnswer(t, issue, row)
    ensures SqlMayAnswer(u, issue, row)
  {}

  lemma SlackMessageMatches(b: Bridge, s: SqlBridge, e: Event)
    requires Matches(b, s) && e.SlackMessage?
    ensures Matches(OnSlackMessage(b, e), OnSlackMessageSql(s, e))
  {
    hide Check, CheckSql, Emit, EmitSql, Matches, MemByThread, Get, EventKey;
    SameSettings(b, s);
    var key := EventKey(e.eventId);
    CheckMatches(b, s, key, e.lag, e.seen);
    var (c, isNew) := Check(b, key, e.lag, e.seen);
    var (t, _) := CheckSql(s, key, e.lag, e.seen);
    SameSettings(c, t);
    var thread := (e.channel, e.threadTs);
    ThreadMatches(c, t, thread);
    var found := MemByThread(c.store, thread);
    if found.Some? {
      EmitMatches(c, t, RelayedToGitHub(thread, (c.cfg.repo, found.value.issue), key, b.now, c.now), e.post);
    }
  }

  lemma ButtonMatches(b: Bridge, s: SqlBridge, e: Event)
    requires Matches(b, s) && e.ButtonClicked?
    ensures Matches(OnButton(b, e), OnButtonSql(s, e))
  {
    hide Emit, EmitSql, Write, WriteSql, Matches, MemByThread, Get;
    SameSettings(b, s);
    var thread := (e.channel, e.threadTs);
    ThreadMatches(b, s, thread);
    var found := MemByThread(b.store, thread);
    if found.Some? {
      var effect := ConfirmPosted(thread, (b.cfg.repo, found.value.issue), e.clicker);
      EmitMatches(b, s, effect, e.post);
      var c, t := Emit(b, effect, e.post), EmitSql(s, effect, e.post);
      SameSettings(c, t);
      WriteMatches(c, t, MarkConfirmed(thread, c.now), e.mark);
    }
  }

  lemma StepMatches(b: Bridge, s: SqlBridge, d: Delivery)
    requires Matches(b, s) && Allowed(s, d)
    ensures FreshIds(b, d.event) && Matches(Step(b, d.event), StepSql(s, d))
  {
    FreshMatches(b, s, d);
    SameSettings(b, s);
    hide Write, WriteSql, OnIssueComment, OnIssueCommentSql, OnSlackMessage, OnSlackMessageSql, OnButton, OnButtonSql;
    hide Fits, Agree, FreshIds, Allowed;
    match d.event
    case Tick(_) => {}
    case ModalSubmitted(_, _, _, _, _, _, _, _) => {
      WriteMatches(b, s, LinkThread(NewLink(s.cfg, s.now, d.event)), d.event.link);
    }
    case IssueComment(_, _, _, _, _, _, _, _, _, _) => { IssueCommentMatches(b, s, d); }
    case SlackMessage(_, _, _, _, _, _, _, _) => { SlackMessageMatches(b, s, d.event); }
    case ButtonClicked(_, _, _, _, _, _) => { ButtonMatches(b, s, d.event); }
    case UserMapped(user, login) => { WriteMatches(b, s, MapUser(user, login), Done); }
  }

  /** Over every allowed run the two bridges post the same effects and keep the same links. */
  lemma {:induction false} RunMatches(b: Bridge, s: SqlBridge, ds: seq<Delivery>)
    requires Matches(b, s) && AllowedRun(s, ds)
    ensures FreshRun(b, Events(ds)) && Matches(Run(b, Events(ds)), RunSql(s, ds))
    decreases ds
  {
    if ds != [] {
      hide Matches, Allowed, Step, StepSql, FreshIds;
      StepMatches(b, s, ds[0]);
      RunMatches(Step(b, ds[0].event), StepSql(s, ds[0]), ds[1..]);
      assert Events(ds)[0] == ds[0].event && Events(ds)[1..] == Events(ds[1..]);
    }
  }

  // ---------------------------------------------------------------- safety on SQLite

  /** The effect names exactly the thread and the issue of a row, and `/confirm` its reporter. */
  ghost predicate JoinedRow(t: Table, e: Effect)
  {
    && e.thread in t.rows
    && t.rows[e.thread].Issue() == e.issue
    && (e.ConfirmPosted? ==> e.clicker == t.rows[e.thread].reporter)
  }

  lemma StartMatches(cfg: Config, now: int)
    ensures Matches(Start(cfg, now), StartSql(cfg, now)) && SlackBridge.Inv(Start(cfg, now))
  {}

  /** Over every run on SQLite, whatever calls fail: two relays of one non-empty id are more than
      the time to live apart, every effect names exactly the linked thread and issue, and
      `/confirm` is only posted for the recorded reporter. */
  lemma SqliteRunSafety(cfg: Config, now: int, ds: seq<Delivery>)
    requires AllowedRun(StartSql(cfg, now), ds)
    ensures var s := RunSql(StartSql(cfg, now), ds);
      && s.log == Run(Start(cfg, now), Events(ds)).log
      && Spaced(s.log, cfg.ttl)
      && forall i :: 0 <= i < |s.log| ==> JoinedRow(s.table, s.log[i])
  {
    var b, s := Run(Start(cfg, now), Events(ds)), RunSql(StartSql(cfg, now), ds);
    StartMatches(cfg, now);
    RunMatches(Start(cfg, now), StartSql(cfg, now), ds);
    BridgeRunSafety(cfg, now, Events(ds));
    hide Run, RunSql, Spaced, AllowedRun, FreshRun, Coherent;
    forall i | 0 <= i < |s.log| ensures JoinedRow(s.table, s.log[i]) { assert Joined(b.store, b.log[i]); }
  }

  /** And after a thread is confirmed no further run relays anything for it or its issue. */
  lemma SqliteSilentAfterConfirm(cfg: Config, now: int, before: seq<Delivery>, ds: seq<Delivery>, thread: ThreadKey)
    requires AllowedRun(StartSql(cfg, now), before) && AllowedRun(RunSql(StartSql(cfg, now), before), ds)
    requires var s := RunSql(StartSql(cfg, now), before);
      thread in s.table.rows && s.table.rows[thread].confirmedAt.Some?
    ensures var s := RunSql(StartSql(cfg, now), before);
      var after := RunSql(s, ds);
      && |s.log| <= |after.log| && after.log[..|s.log|] == s.log
      && SilentFrom(after.log, |s.log|, thread, s.table.rows[thread].Issue())
  {
    StartMatches(cfg, now);
    RunMatches(Start(cfg, now), StartSql(cfg, now), before);
    SlackBridge.RunKeeps(Start(cfg, now), Events(before));
    hide Run, RunSql, SlackBridge.Inv, AllowedRun, FreshRun, Coherent, IsRelay, SilentFrom;
    var b, s := Run(Start(cfg, now), Events(before)), RunSql(StartSql(cfg, now), before);
    RunMatches(b, s, ds);
    SilentAfterConfirm(b, Events(ds), thread, s.table.rows[thread].Issue());
  }

  /** The delivery theorems on SQLite: a new reply on a linked, open thread is relayed to exactly its
      issue. */
  lemma SqliteReplyDelivered(cfg: Config, now: int, before: seq<Delivery>, d: Delivery)
    requires AllowedRun(StartSql(cfg, now), before)
    requires var e := d.event;
      && e.SlackMessage? && (e.eventId == "" || NewReply(Events(before), e.eventId))
      && !e.fromBot && e.threadTs != "" && e.text != "" && e.seen == Done && e.post == Done
      && var s := RunSql(StartSql(cfg, now), before);
         (e.channel, e.threadTs) in s.table.rows && s.table.rows[(e.channel, e.threadTs)].confirmedAt.None?
    ensures var s := RunSql(StartSql(cfg, now), before);
      var e := d.event;
      var thread := (e.channel, e.threadTs);
      var key := if e.eventId == "" then "" else "slack:" + e.eventId;
      var stored := if e.eventId == "" then s.now else s.now + e.lag;
      StepSql(s, d).log
        == s.log + [RelayedToGitHub(thread, (s.cfg.repo, s.table.rows[thread].issue), key, s.now, stored)]
  {
    hide Run, RunSql, AllowedRun, FreshRun, Agree, NewReply, Matches, Step, StepSql, SlackBridge.Inv;
    var b, s := Run(Start(cfg, now), Events(before)), RunSql(StartSql(cfg, now), before);
    StartMatches(cfg, now);
    RunMatches(Start(cfg, now), StartSql(cfg, now), before);
    SameRows(b, s);
    ReplyDelivered(cfg, now, Events(before), d.event);
    StepMatches(b, s, d);
    SameSettings(b, s);
    SameSettings(Step(b, d.event), StepSql(s, d));
  }

  /** And a new comment of an allowed author on a linked, open issue to exactly its thread. */
  lemma SqliteCommentDelivered(cfg: Config, now: int, before: seq<Delivery>, d: Delivery)
    requires AllowedRun(StartSql(cfg, now), before) && Allowed(RunSql(StartSql(cfg, now), before), d)
    requires var e := d.event;
      && e.IssueComment? && (e.delivery == "" || NewComment(Events(before), e.delivery))
      && e.number != 0 && e.labelled && e.seen == Done && e.reply == Done
      && var s := RunSql(StartSql(cfg, now), before);
         && !s.cfg.shadow && e.author in s.cfg.relayAuthors
         && d.row.Some? && d.row.value.confirmedAt.None?
         && (e.comment != 0 ==> d.row.value.lastRelayed != Some(e.comment))
    ensures var s := RunSql(StartSql(cfg, now), before);
      var e := d.event;
      var key := if e.delivery == "" then "" else "gh:" + e.delivery;
      var stored := if e.delivery == "" then s.now else s.now + e.lag;
      StepSql(s, d).log == s.log + [RelayedToSlack(d.row.value.Thread(), (e.repo, e.number), key, s.now, stored)]
  {
    hide Run, RunSql, AllowedRun, FreshRun, Agree, NewComment, Matches, Step, StepSql, SlackBridge.Inv, SqlMayAnswer;
    var b, s := Run(Start(cfg, now), Events(before)), RunSql(StartSql(cfg, now), before);
    StartMatches(cfg, now);
    RunMatches(Start(cfg, now), StartSql(cfg, now), before);
    IssueMatches(b, s, (d.event.repo, d.event.number), d.row);
    SameSettings(b, s);
    CommentDelivered(cfg, now, Events(before), d.event);
    StepMatches(b, s, d);
    SameSettings(Step(b, d.event), StepSql(s, d));
  }

  lemma SameRows(b: Bridge, s: SqlBridge)
    requires Matches(b, s)
    ensures b.store.byThread == s.table.rows
  {}
}
