/**
 The Slack/GitHub bridge as a message protocol. Each inbound webhook runs one handler to its
 end or to the first exception, which the event bus absorbs; handlers do not interleave. Every
 external call may succeed, raise before taking effect, raise after taking effect, or, if it is a
 store call of two statements, raise between them.
 */
module SlackBridge {
  import opened Prelude
  import opened StateStore

  datatype Call = Done | RaisedBefore | RaisedBetween | RaisedAfter

  datatype Config = Config(repo: string, shadow: bool, relayAuthors: set<string>, ttl: nat)

  /** `key` is the dedupe key, empty when the webhook carried no id; `checked` and `stored` are
      the clock readings of the dedupe check. */
  datatype Effect =
    | RelayedToSlack(thread: ThreadKey, issue: IssueKey, key: string, checked: int, stored: int)
    | RelayedToGitHub(thread: ThreadKey, issue: IssueKey, key: string, checked: int, stored: int)
    | ConfirmPosted(thread: ThreadKey, issue: IssueKey, clicker: string)

  /** Facts about the payload that the handlers branch on, and the outcome of each call. */
  datatype Event =
    | Tick(seconds: nat)
    | ModalSubmitted(isIntake: bool, sensitive: bool, user: string, newIssue: int, newThread: ThreadKey,
                     open: Call, post: Call, link: Call)
    | IssueComment(delivery: string, lag: nat, repo: string, number: int, labelled: bool, author: string,
                   comment: int, seen: Call, reply: Call, update: Call)
    | SlackMessage(eventId: string, lag: nat, fromBot: bool, threadTs: string, channel: string, text: string,
                   seen: Call, post: Call)
    | ButtonClicked(isConfirm: bool, channel: string, threadTs: string, clicker: string,
                    post: Call, mark: Call)
    | UserMapped(user: string, login: string)

  datatype Bridge = Bridge(cfg: Config, now: int, store: Memory, log: seq<Effect>)

  function Start(cfg: Config, now: int): Bridge { Bridge(cfg, now, EmptyMemory, []) }

  /** A store operation under the given outcome. */
  function Write(b: Bridge, op: Op, call: Call): Bridge
  {
    match call
    case RaisedBefore => b
    case RaisedBetween => b.(store := MemHalf(b.store, op, b.cfg.ttl))
    case _ => b.(store := MemStep(b.store, op, b.cfg.ttl).0)
  }

  /** A post is a single request: it is made or it is not. */
  predicate TakesEffect(call: Call) { call == Done || call == RaisedAfter }

  /** An external post under the given outcome. */
  function Emit(b: Bridge, e: Effect, call: Call): Bridge
  {
    if TakesEffect(call) then b.(log := b.log + [e]) else b
  }

  /** The dedupe check: the handler goes on when the id is empty, or new and the call returned. */
  function Check(b: Bridge, key: string, lag: nat, call: Call): (Bridge, bool)
  {
    if key == "" then (b, true)
    else
      var op := SeenEvent(key, b.now, b.now + lag);
      var after := Write(b, op, call).(now := b.now + lag);
      (after, call == Done && MemStep(b.store, op, b.cfg.ttl).1 == Seen(false))
  }

  function DeliveryKey(id: string): string { if id == "" then "" else "gh:" + id }

  function EventKey(id: string): string { if id == "" then "" else "slack:" + id }

  // ---------------------------------------------------------------- handlers

  function OnModal(b: Bridge, e: Event): Bridge
    requires e.ModalSubmitted?
  {
    if !e.isIntake || e.sensitive || e.open != Done || e.post != Done then b
    else Write(b, LinkThread(Link(e.newThread.0, e.newThread.1, b.cfg.repo, e.newIssue, e.user, b.now, None, None)),
               e.link)
  }

  function OnIssueComment(b: Bridge, e: Event): Bridge
    requires e.IssueComment?
  {
    if b.cfg.shadow then b
    else
      var key := DeliveryKey(e.delivery);
      var (c, isNew) := Check(b, key, e.lag, e.seen);
      if !isNew || e.number == 0 || !e.labelled then c
      else
        var found := MemByIssue(c.store, (e.repo, e.number));
        if found.None? || found.value.confirmedAt.Some? || e.author !in c.cfg.relayAuthors then c
        else if e.comment != 0 && found.value.lastRelayed == Some(e.comment) then c
        else
          var link := found.value;
          var d := Emit(c, RelayedToSlack(link.Thread(), (e.repo, e.number), key, b.now, c.now), e.reply);
          if e.reply != Done || e.comment == 0 then d
          else Write(d, UpdateRelayed(link.Thread(), e.comment), e.update)
  }

  function OnSlackMessage(b: Bridge, e: Event): Bridge
    requires e.SlackMessage?
  {
    var key := EventKey(e.eventId);
    var (c, isNew) := Check(b, key, e.lag, e.seen);
    if !isNew || e.fromBot || e.threadTs == "" then c
    else
      var thread := (e.channel, e.threadTs);
      var found := MemByThread(c.store, thread);
      if found.None? || found.value.confirmedAt.Some? || e.text == "" then c
      else Emit(c, RelayedToGitHub(thread, (c.cfg.repo, found.value.issue), key, b.now, c.now), e.post)
  }

  function OnButton(b: Bridge, e: Event): Bridge
    requires e.ButtonClicked?
  {
    var thread := (e.channel, e.threadTs);
    var found := MemByThread(b.store, thread);
    if !e.isConfirm || found.None? || e.clicker != found.value.reporter then b
    else
      var c := Emit(b, ConfirmPosted(thread, (b.cfg.repo, found.value.issue), e.clicker), e.post);
      if e.post != Done then c else Write(c, MarkConfirmed(thread, c.now), e.mark)
  }

  function Step(b: Bridge, e: Event): Bridge
  {
    match e
    case Tick(seconds) => b.(now := b.now + seconds)
    case ModalSubmitted(_, _, _, _, _, _, _, _) => OnModal(b, e)
    case IssueComment(_, _, _, _, _, _, _, _, _, _) => OnIssueComment(b, e)
    case SlackMessage(_, _, _, _, _, _, _, _) => OnSlackMessage(b, e)
    case ButtonClicked(_, _, _, _, _, _) => OnButton(b, e)
    case UserMapped(user, login) => Write(b, MapUser(user, login), Done)
  }

  function Run(b: Bridge, events: seq<Event>): Bridge
    decreases events
  {
    if events == [] then b else Run(Step(b, events[0]), events[1..])
  }

  // ---------------------------------------------------------------- what every step keeps

  /** Slack gives new threads and GitHub new issues identifiers that no link uses yet. */
  ghost predicate FreshIds(b: Bridge, e: Event)
  {
    e.ModalSubmitted? ==> e.newThread !in b.store.byThread && (b.cfg.repo, e.newIssue) !in b.store.byIssue
  }

  ghost predicate FreshRun(b: Bridge, events: seq<Event>)
    decreases events
  {
    events == [] || (FreshIds(b, events[0]) && FreshRun(Step(b, events[0]), events[1..]))
  }

  predicate IsRelay(e: Effect) { e.RelayedToSlack? || e.RelayedToGitHub? }

  /** The effect concerns a stored link and names exactly its thread and its issue. */
  ghost predicate Joined(m: Memory, e: Effect)
  {
    && e.thread in m.byThread
    && m.byThread[e.thread].Issue() == e.issue
    && (e.ConfirmPosted? ==> e.clicker == m.byThread[e.thread].reporter)
  }

  /** A relay's id is still remembered, or its time to live has passed. */
  ghost predicate Remembered(b: Bridge, e: Effect)
  {
    IsRelay(e) && e.key != "" ==>
      (e.key in b.store.dedupe && b.store.dedupe[e.key] >= e.stored) || b.now > e.stored + b.cfg.ttl
  }

  /** Two relays of one id are more than the time to live apart. */
  ghost predicate Spaced(log: seq<Effect>, ttl: nat)
  {
    forall i, j :: 0 <= i < j < |log| && IsRelay(log[i]) && IsRelay(log[j]) && log[i].key == log[j].key != "" ==>
      log[j].checked > log[i].stored + ttl
  }

  ghost predicate Inv(b: Bridge)
  {
    && Coherent(b.store)
    && (forall k :: k in b.store.byThread ==> b.store.byThread[k].repo == b.cfg.repo)
    && (forall i :: 0 <= i < |b.log| ==> Joined(b.store, b.log[i]) && Remembered(b, b.log[i]))
    && Spaced(b.log, b.cfg.ttl)
  }

  /** Links are never dropped and never change thread, issue or reporter; a confirmation stays. */
  ghost predicate Extends(m: Memory, m': Memory)
  {
    forall k :: k in m.byThread ==>
      && k in m'.byThread
      && m'.byThread[k].Issue() == m.byThread[k].Issue()
      && m'.byThread[k].reporter == m.byThread[k].reporter
      && (m.byThread[k].confirmedAt.Some? ==> m'.byThread[k].confirmedAt.Some?)
  }

  /** No relay can have been sent with this key within its time to live. */
  ghost predicate Clear(b: Bridge, key: string, checked: int)
  {
    forall i :: 0 <= i < |b.log| && IsRelay(b.log[i]) && b.log[i].key == key != "" ==>
      checked > b.log[i].stored + b.cfg.ttl
  }

  /** A good step keeps the invariant and the links, only appends to the log, and relays
      nothing for a thread that was confirmed before it. */
  ghost predicate GoodStep(b: Bridge, c: Bridge)
  {
    && Inv(c) && Extends(b.store, c.store) && c.cfg == b.cfg
    && |b.log| <= |c.log| && c.log[..|b.log|] == b.log
    && forall i :: |b.log| <= i < |c.log| && IsRelay(c.log[i]) ==>
         c.log[i].thread in b.store.byThread ==> b.store.byThread[c.log[i].thread].confirmedAt.None?
  }

  lemma GoodTrans(b: Bridge, c: Bridge, d: Bridge)
    requires GoodStep(b, c) && GoodStep(c, d)
    ensures GoodStep(b, d)
  {
    hide Inv, Joined, IsRelay;
    assert d.log[..|b.log|] == d.log[..|c.log|][..|b.log|];
    forall i | |b.log| <= i < |c.log|
      ensures d.log[i] == c.log[i]
    {
      assert d.log[i] == d.log[..|c.log|][i];
    }
  }

  lemma GoodKeepsInv(b: Bridge, c: Bridge)
    requires GoodStep(b, c)
    ensures Inv(c) && c.cfg == b.cfg && Extends(b.store, c.store)
  {}

  /** The state after the dedupe check: same links and log; if the handler goes on, no relay with
      this key was sent within its time to live, and the id is now remembered. */
  ghost predicate Checked(b: Bridge, c: Bridge, key: string)
  {
    && Clear(c, key, b.now)
    && (key != "" ==> key in c.store.dedupe && c.store.dedupe[key] == c.now)
  }

  /** The check touches only the dedupe ids and the clock, and forgets no id too early. */
  lemma CheckRemembers(b: Bridge, key: string, lag: nat, call: Call, e: Effect)
    requires Remembered(b, e)
    ensures Remembered(Check(b, key, lag, call).0, e)
  {
  }

  lemma CheckFrame(b: Bridge, key: string, lag: nat, call: Call)
    ensures var c := Check(b, key, lag, call).0;
      && c.cfg == b.cfg && c.log == b.log
      && c.store.byThread == b.store.byThread && c.store.byIssue == b.store.byIssue
  {
  }

  lemma CheckClears(b: Bridge, key: string, lag: nat, call: Call, e: Effect)
    requires Remembered(b, e) && Check(b, key, lag, call).1
    ensures IsRelay(e) && e.key == key != "" ==> b.now > e.stored + b.cfg.ttl
  {
  }

  lemma CheckGood(b: Bridge, key: string, lag: nat, call: Call)
    requires Inv(b)
    ensures var (c, isNew) := Check(b, key, lag, call);
      && GoodStep(b, c) && c.log == b.log
      && (isNew ==> Checked(b, c, key))
  {
    hide Check, Remembered, Spaced;
    var (c, isNew) := Check(b, key, lag, call);
    CheckFrame(b, key, lag, call);
    forall i | 0 <= i < |b.log|
      ensures Joined(c.store, b.log[i]) && Remembered(c, b.log[i])
    {
      assert Joined(b.store, b.log[i]);
      CheckRemembers(b, key, lag, call, b.log[i]);
    }
    if isNew {
      forall i | 0 <= i < |b.log| && IsRelay(b.log[i]) && b.log[i].key == key != ""
        ensures b.now > b.log[i].stored + b.cfg.ttl
      {
        CheckClears(b, key, lag, call, b.log[i]);
      }
      if key != "" { CheckStores(b, key, lag, call); }
    }
  }

  lemma CheckStores(b: Bridge, key: string, lag: nat, call: Call)
    requires Check(b, key, lag, call).1 && key != ""
    ensures var c := Check(b, key, lag, call).0;
      key in c.store.dedupe && c.store.dedupe[key] == c.now
  {
  }

  lemma EmitGood(b: Bridge, e: Effect, call: Call)
    requires Inv(b) && Joined(b.store, e)
    requires IsRelay(e) ==>
      Clear(b, e.key, e.checked) && Remembered(b, e) && b.store.byThread[e.thread].confirmedAt.None?
    ensures GoodStep(b, Emit(b, e, call))
  {
    hide Coherent;
    var c := Emit(b, e, call);
    if TakesEffect(call) {
      assert c.log == b.log + [e];
      assert forall i :: 0 <= i < |b.log| ==> c.log[i] == b.log[i];
    }
  }

  /** A relay for an unconfirmed stored link, after a passed check. */
  lemma RelayGood(b: Bridge, c: Bridge, e: Effect, call: Call)
    requires Inv(c) && IsRelay(e) && Joined(c.store, e)
    requires c.store.byThread[e.thread].confirmedAt.None?
    requires Checked(b, c, e.key) && e.checked == b.now && e.stored == c.now
    ensures GoodStep(c, Emit(c, e, call))
  {
    hide Inv;
    EmitGood(c, e, call);
  }

  /** Replacing a stored link by one with the same keys and reporter, at least as confirmed. */
  lemma ReplaceKeeps(m: Memory, repo: string, updated: Link)
    requires Coherent(m) && (forall k :: k in m.byThread ==> m.byThread[k].repo == repo)
    requires updated.Thread() in m.byThread
    requires var was := m.byThread[updated.Thread()];
      && updated.Issue() == was.Issue() && updated.reporter == was.reporter
      && (was.confirmedAt.Some? ==> updated.confirmedAt.Some?)
    ensures var m' := MemReplace(m, updated);
      Coherent(m') && Extends(m, m') && forall k :: k in m'.byThread ==> m'.byThread[k].repo == repo
  {
  }

  lemma FreshLinkKeeps(m: Memory, repo: string, link: Link)
    requires Coherent(m) && (forall k :: k in m.byThread ==> m.byThread[k].repo == repo)
    requires link.repo == repo && link.Thread() !in m.byThread && link.Issue() !in m.byIssue
    ensures var m' := MemReplace(m, link);
      Coherent(m') && Extends(m, m') && forall k :: k in m'.byThread ==> m'.byThread[k].repo == repo
  {
  }

  lemma StoreStepKeeps(m: Memory, repo: string, op: Op, ttl: nat)
    requires Coherent(m) && (forall k :: k in m.byThread ==> m.byThread[k].repo == repo)
    requires !op.SeenEvent?
    requires op.LinkThread? ==>
      op.link.repo == repo && op.link.Thread() !in m.byThread && op.link.Issue() !in m.byIssue
    ensures var m' := MemStep(m, op, ttl).0;
      && Coherent(m') && Extends(m, m') && m'.dedupe == m.dedupe
      && forall k :: k in m'.byThread ==> m'.byThread[k].repo == repo
  {
    match op
    case LinkThread(link) => FreshLinkKeeps(m, repo, link);
    case MarkConfirmed(thread, at) =>
      if thread in m.byThread { ReplaceKeeps(m, repo, m.byThread[thread].(confirmedAt := Some(at))); }
    case UpdateRelayed(thread, comment) =>
      if thread in m.byThread { ReplaceKeeps(m, repo, m.byThread[thread].(lastRelayed := Some(comment))); }
    case MapUser(_, _) =>
  }

  /** A store operation that keeps the links and forgets no id. */
  lemma WriteGood(b: Bridge, op: Op, call: Call)
    requires Inv(b) && !op.SeenEvent?
    requires op.LinkThread? ==>
      op.link.repo == b.cfg.repo && op.link.Thread() !in b.store.byThread && op.link.Issue() !in b.store.byIssue
    ensures GoodStep(b, Write(b, op, call))
  {
    hide MemStep, Coherent;
    StoreStepKeeps(b.store, b.cfg.repo, op, b.cfg.ttl);
    var c := Write(b, op, call);
    forall i | 0 <= i < |b.log|
      ensures Joined(c.store, b.log[i]) && Remembered(c, b.log[i])
    {
      assert Joined(b.store, b.log[i]) && Remembered(b, b.log[i]);
    }
  }

  lemma FoundByIssue(b: Bridge, issue: IssueKey)
    requires Inv(b) && MemByIssue(b.store, issue).Some?
    ensures var link := MemByIssue(b.store, issue).value;
      && link.Thread() in b.store.byThread && b.store.byThread[link.Thread()] == link
      && link.Issue() == issue
  {
  }

  lemma FoundByThread(b: Bridge, thread: ThreadKey)
    requires Inv(b) && MemByThread(b.store, thread).Some?
    ensures var link := MemByThread(b.store, thread).value;
      && thread in b.store.byThread && b.store.byThread[thread] == link
      && link.Issue() == (b.cfg.repo, link.issue)
  {
  }

  lemma IssueCommentGood(b: Bridge, e: Event)
    requires Inv(b) && e.IssueComment?
    ensures GoodStep(b, OnIssueComment(b, e))
  {
    hide Check, Emit, Write, MemByIssue, Checked, DeliveryKey, Inv, GoodStep;
    if b.cfg.shadow {
      SameGood(b);
    } else {
      var key := DeliveryKey(e.delivery);
      CheckGood(b, key, e.lag, e.seen);
      var (c, isNew) := Check(b, key, e.lag, e.seen);
      GoodKeepsInv(b, c);
      if isNew && e.number != 0 && e.labelled {
        var found := MemByIssue(c.store, (e.repo, e.number));
        if found.Some? && found.value.confirmedAt.None? && e.author in c.cfg.relayAuthors
           && !(e.comment != 0 && found.value.lastRelayed == Some(e.comment))
        {
          FoundByIssue(c, (e.repo, e.number));
          var thread := found.value.Thread();
          var effect := RelayedToSlack(thread, (e.repo, e.number), key, b.now, c.now);
          RelayGood(b, c, effect, e.reply);
          var d := Emit(c, effect, e.reply);
          GoodTrans(b, c, d);
          GoodKeepsInv(b, d);
          if e.reply == Done && e.comment != 0 {
            WriteGood(d, UpdateRelayed(thread, e.comment), e.update);
            GoodTrans(b, d, Write(d, UpdateRelayed(thread, e.comment), e.update));
          }
        }
      }
    }
  }

  lemma SameGood(b: Bridge)
    requires Inv(b)
    ensures GoodStep(b, b)
  {
  }

  lemma SlackMessageGood(b: Bridge, e: Event)
    requires Inv(b) && e.SlackMessage?
    ensures GoodStep(b, OnSlackMessage(b, e))
  {
    hide Check, Emit, MemByThread, Checked, EventKey, Inv, GoodStep;
    var key := EventKey(e.eventId);
    CheckGood(b, key, e.lag, e.seen);
    var (c, isNew) := Check(b, key, e.lag, e.seen);
    GoodKeepsInv(b, c);
    if isNew && !e.fromBot && e.threadTs != "" {
      var thread := (e.channel, e.threadTs);
      var found := MemByThread(c.store, thread);
      if found.Some? && found.value.confirmedAt.None? && e.text != "" {
        FoundByThread(c, thread);
        var effect := RelayedToGitHub(thread, (c.cfg.repo, found.value.issue), key, b.now, c.now);
        RelayGood(b, c, effect, e.post);
        GoodTrans(b, c, Emit(c, effect, e.post));
      }
    }
  }

  lemma ButtonGood(b: Bridge, e: Event)
    requires Inv(b) && e.ButtonClicked?
    ensures GoodStep(b, OnButton(b, e))
  {
    hide Emit, Write, MemByThread, Inv, GoodStep;
    var thread := (e.channel, e.threadTs);
    var found := MemByThread(b.store, thread);
    if e.isConfirm && found.Some? && e.clicker == found.value.reporter {
      FoundByThread(b, thread);
      var effect := ConfirmPosted(thread, (b.cfg.repo, found.value.issue), e.clicker);
      EmitGood(b, effect, e.post);
      var c := Emit(b, effect, e.post);
      GoodKeepsInv(b, c);
      if e.post == Done {
        WriteGood(c, MarkConfirmed(thread, c.now), e.mark);
        GoodTrans(b, c, Write(c, MarkConfirmed(thread, c.now), e.mark));
      }
    } else {
      SameGood(b);
    }
  }

  lemma TickGood(b: Bridge, seconds: nat)
    requires Inv(b)
    ensures GoodStep(b, b.(now := b.now + seconds))
  {
    forall i | 0 <= i < |b.log|
      ensures Remembered(b.(now := b.now + seconds), b.log[i])
    {
      assert Remembered(b, b.log[i]);
    }
  }

  lemma StepGood(b: Bridge, e: Event)
    requires Inv(b) && FreshIds(b, e)
    ensures GoodStep(b, Step(b, e))
  {
    hide Inv, GoodStep, Write, OnIssueComment, OnSlackMessage, OnButton;
    match e
    case Tick(seconds) => TickGood(b, seconds);
    case ModalSubmitted(_, _, _, _, _, _, _, _) =>
      SameGood(b);
      WriteGood(b, LinkThread(Link(e.newThread.0, e.newThread.1, b.cfg.repo, e.newIssue, e.user, b.now, None, None)),
                e.link);
    case IssueComment(_, _, _, _, _, _, _, _, _, _) => IssueCommentGood(b, e);
    case SlackMessage(_, _, _, _, _, _, _, _) => SlackMessageGood(b, e);
    case ButtonClicked(_, _, _, _, _, _) => ButtonGood(b, e);
    case UserMapped(user, login) => WriteGood(b, MapUser(user, login), Done);
  }

  // ---------------------------------------------------------------- whole runs

  lemma {:induction false} RunKeeps(b: Bridge, events: seq<Event>)
    requires Inv(b) && FreshRun(b, events)
    ensures Inv(Run(b, events)) && Run(b, events).cfg == b.cfg
    decreases events
  {
    if events != [] {
      StepGood(b, events[0]);
      RunKeeps(Step(b, events[0]), events[1..]);
    }
  }

  /** Over every run with fresh identifiers, whatever calls fail: two relays of one non-empty id
      are more than the time to live apart; every relay names exactly the linked thread and
      issue; and `/confirm` is only posted for a click by the recorded reporter. */
  lemma BridgeRunSafety(cfg: Config, now: int, events: seq<Event>)
    requires FreshRun(Start(cfg, now), events)
    ensures var b := Run(Start(cfg, now), events);
      && Spaced(b.log, cfg.ttl)
      && forall i :: 0 <= i < |b.log| ==> Joined(b.store, b.log[i])
  {
    RunKeeps(Start(cfg, now), events);
  }

  /** From position `from` on, the log holds no relay for the thread or the issue. */
  ghost predicate SilentFrom(log: seq<Effect>, from: nat, thread: ThreadKey, issue: IssueKey)
  {
    forall i :: from <= i < |log| && IsRelay(log[i]) ==> log[i].thread != thread && log[i].issue != issue
  }

  ghost predicate ConfirmedLink(m: Memory, thread: ThreadKey, issue: IssueKey)
  {
    thread in m.byThread && m.byThread[thread].confirmedAt.Some? && m.byThread[thread].Issue() == issue
  }

  /** A good step relays nothing for a confirmed thread and leaves it confirmed. */
  lemma SilentStep(b: Bridge, c: Bridge, thread: ThreadKey, issue: IssueKey)
    requires Inv(b) && GoodStep(b, c) && ConfirmedLink(b.store, thread, issue)
    ensures ConfirmedLink(c.store, thread, issue) && SilentFrom(c.log, |b.log|, thread, issue)
    ensures |b.log| <= |c.log| && c.log[..|b.log|] == b.log
  {
    hide Remembered, Spaced;
    forall i | |b.log| <= i < |c.log| && IsRelay(c.log[i])
      ensures c.log[i].thread != thread && c.log[i].issue != issue
    {
      assert Joined(c.store, c.log[i]);
    }
  }

  lemma SilentTrans(log: seq<Effect>, mid: seq<Effect>, from: nat, thread: ThreadKey, issue: IssueKey)
    requires from <= |mid| <= |log| && log[..|mid|] == mid
    requires SilentFrom(mid, from, thread, issue) && SilentFrom(log, |mid|, thread, issue)
    ensures SilentFrom(log, from, thread, issue) && log[..from] == mid[..from]
  {
    hide IsRelay;
    assert log[..from] == log[..|mid|][..from];
    forall i | from <= i < |mid| ensures log[i] == mid[i] { assert log[i] == log[..|mid|][i]; }
  }

  /** After a thread is confirmed, no run relays anything for it in either direction. */
  lemma {:induction false} SilentAfterConfirm(b: Bridge, events: seq<Event>, thread: ThreadKey, issue: IssueKey)
    requires Inv(b) && FreshRun(b, events) && ConfirmedLink(b.store, thread, issue)
    ensures var c := Run(b, events);
      && |b.log| <= |c.log| && c.log[..|b.log|] == b.log
      && SilentFrom(c.log, |b.log|, thread, issue)
    decreases events
  {
    hide Inv, GoodStep, ConfirmedLink, SilentFrom, Step, FreshIds;
    if events == [] {
      SilentAtEnd(b.log, thread, issue);
      assert b.log[..|b.log|] == b.log;
    } else {
      var m := Step(b, events[0]);
      StepGood(b, events[0]);
      GoodKeepsInv(b, m);
      SilentStep(b, m, thread, issue);
      SilentAfterConfirm(m, events[1..], thread, issue);
      SilentTrans(Run(b, events).log, m.log, |b.log|, thread, issue);
    }
  }

  lemma SilentAtEnd(log: seq<Effect>, thread: ThreadKey, issue: IssueKey)
    ensures SilentFrom(log, |log|, thread, issue)
  {}

  // ---------------------------------------------------------------- confirmations

  /** The threads marked confirmed. */
  ghost function ConfirmedThreads(b: Bridge): set<ThreadKey>
  {
    set k | k in b.store.byThread && b.store.byThread[k].confirmedAt.Some?
  }

  /** The threads for which `/confirm` was posted. */
  ghost function PostedThreads(log: seq<Effect>): set<ThreadKey>
  {
    set i | 0 <= i < |log| && log[i].ConfirmPosted? :: log[i].thread
  }

  lemma CheckConfirms(b: Bridge, key: string, lag: nat, call: Call)
    ensures ConfirmedThreads(Check(b, key, lag, call).0) == ConfirmedThreads(b)
    ensures Check(b, key, lag, call).0.log == b.log
  {
  }

  lemma EmitConfirms(b: Bridge, e: Effect, call: Call)
    ensures ConfirmedThreads(Emit(b, e, call)) == ConfirmedThreads(b)
    ensures PostedThreads(b.log) <= PostedThreads(Emit(b, e, call).log)
    ensures e.ConfirmPosted? && TakesEffect(call) ==> e.thread in PostedThreads(Emit(b, e, call).log)
  {
    var log := Emit(b, e, call).log;
    assert forall i :: 0 <= i < |b.log| ==> log[i] == b.log[i];
    if TakesEffect(call) {
      assert log[|b.log|] == e;
    }
  }

  lemma WriteConfirms(b: Bridge, op: Op, call: Call)
    requires op.LinkThread? ==> op.link.confirmedAt.None?
    ensures Write(b, op, call).log == b.log
    ensures ConfirmedThreads(Write(b, op, call))
         <= ConfirmedThreads(b) + (if op.MarkConfirmed? then {op.thread} else {})
  {
  }

  lemma StepConfirms(b: Bridge, e: Event)
    requires ConfirmedThreads(b) <= PostedThreads(b.log)
    ensures ConfirmedThreads(Step(b, e)) <= PostedThreads(Step(b, e).log)
  {
    hide Check, Emit, Write, ConfirmedThreads, PostedThreads;
    match e
    case Tick(seconds) =>
      assert ConfirmedThreads(Step(b, e)) == ConfirmedThreads(b) by { TickConfirms(b, seconds); }
    case ModalSubmitted(_, _, _, _, _, _, _, _) =>
      var link := Link(e.newThread.0, e.newThread.1, b.cfg.repo, e.newIssue, e.user, b.now, None, None);
      WriteConfirms(b, LinkThread(link), e.link);
    case IssueComment(_, _, _, _, _, _, _, _, _, _) =>
      var key := DeliveryKey(e.delivery);
      CheckConfirms(b, key, e.lag, e.seen);
      var (c, isNew) := Check(b, key, e.lag, e.seen);
      var found := MemByIssue(c.store, (e.repo, e.number));
      if found.Some? {
        var effect := RelayedToSlack(found.value.Thread(), (e.repo, e.number), key, b.now, c.now);
        EmitConfirms(c, effect, e.reply);
        WriteConfirms(Emit(c, effect, e.reply), UpdateRelayed(found.value.Thread(), e.comment), e.update);
      }
    case SlackMessage(_, _, _, _, _, _, _, _) =>
      var key := EventKey(e.eventId);
      CheckConfirms(b, key, e.lag, e.seen);
      var (c, isNew) := Check(b, key, e.lag, e.seen);
      var found := MemByThread(c.store, (e.channel, e.threadTs));
      if found.Some? {
        EmitConfirms(c, RelayedToGitHub((e.channel, e.threadTs), (c.cfg.repo, found.value.issue), key, b.now, c.now),
                     e.post);
      }
    case ButtonClicked(_, _, _, _, _, _) =>
      var thread := (e.channel, e.threadTs);
      var found := MemByThread(b.store, thread);
      if found.Some? {
        var effect := ConfirmPosted(thread, (b.cfg.repo, found.value.issue), e.clicker);
        EmitConfirms(b, effect, e.post);
        var c := Emit(b, effect, e.post);
        WriteConfirms(c, MarkConfirmed(thread, c.now), e.mark);
      }
    case UserMapped(user, login) => WriteConfirms(b, MapUser(user, login), Done);
  }

  lemma TickConfirms(b: Bridge, seconds: nat)
    ensures ConfirmedThreads(b.(now := b.now + seconds)) == ConfirmedThreads(b)
  {
  }

  /** Over every run, a thread is marked confirmed only if `/confirm` was posted for it. */
  lemma {:induction false} ConfirmedOnlyAfterPost(b: Bridge, events: seq<Event>)
    requires ConfirmedThreads(b) <= PostedThreads(b.log)
    ensures ConfirmedThreads(Run(b, events)) <= PostedThreads(Run(b, events).log)
    decreases events
  {
    if events != [] {
      StepConfirms(b, events[0]);
      ConfirmedOnlyAfterPost(Step(b, events[0]), events[1..]);
    }
  }

  // ---------------------------------------------------------------- what does get through

  /** A new reply on an open thread is relayed to its issue, and a redelivery of it within the
      time to live is not. */
  lemma MessageRelayedOnce(b: Bridge, e: Event, gap: nat)
    requires e.SlackMessage? && e.eventId != "" && "slack:" + e.eventId !in b.store.dedupe
    requires !e.fromBot && e.threadTs != "" && e.text != "" && e.seen == Done && e.post == Done
    requires (e.channel, e.threadTs) in b.store.byThread
    requires b.store.byThread[(e.channel, e.threadTs)].confirmedAt.None?
    requires gap <= b.cfg.ttl
    ensures var thread := (e.channel, e.threadTs);
      var c := Step(b, e);
      && c.log == b.log + [RelayedToGitHub(thread, (b.cfg.repo, b.store.byThread[thread].issue),
                                           "slack:" + e.eventId, b.now, b.now + e.lag)]
      && Step(Step(c, Tick(gap)), e).log == c.log
  {
    var c := Step(b, e);
    var key := EventKey(e.eventId);
    assert key in c.store.dedupe && c.store.dedupe[key] == b.now + e.lag;
  }

  /** The same for a comment of an allowed author on a labelled issue. */
  lemma CommentRelayedOnce(b: Bridge, e: Event, gap: nat)
    requires e.IssueComment? && !b.cfg.shadow && e.delivery != "" && "gh:" + e.delivery !in b.store.dedupe
    requires e.number != 0 && e.labelled && e.author in b.cfg.relayAuthors
    requires e.seen == Done && e.reply == Done
    requires (e.repo, e.number) in b.store.byIssue
    requires var link := b.store.byIssue[(e.repo, e.number)];
      link.confirmedAt.None? && (e.comment != 0 ==> link.lastRelayed != Some(e.comment))
    requires gap <= b.cfg.ttl
    ensures var thread := b.store.byIssue[(e.repo, e.number)].Thread();
      var c := Step(b, e);
      && c.log == b.log + [RelayedToSlack(thread, (e.repo, e.number), "gh:" + e.delivery, b.now, b.now + e.lag)]
      && Step(Step(c, Tick(gap)), e).log == c.log
  {
    var c := Step(b, e);
    var key := DeliveryKey(e.delivery);
    assert key in c.store.dedupe && c.store.dedupe[key] == b.now + e.lag;
  }

  /** The dedupe key that an event can leave behind. */
  ghost predicate KeyFrom(e: Event, key: string)
  {
    || (e.SlackMessage? && e.eventId != "" && key == "slack:" + e.eventId)
    || (e.IssueComment? && e.delivery != "" && key == "gh:" + e.delivery)
  }

  lemma WriteDedupe(b: Bridge, op: Op, call: Call, key: string)
    requires key in Write(b, op, call).store.dedupe
    ensures key in b.store.dedupe || (op.SeenEvent? && op.key == key)
  {}

  lemma CheckDedupe(b: Bridge, k: string, lag: nat, call: Call, key: string)
    requires key in Check(b, k, lag, call).0.store.dedupe
    ensures key in b.store.dedupe || (k != "" && key == k)
  {
    hide MemStep, MemHalf, Write;
    if k != "" { WriteDedupe(b, SeenEvent(k, b.now, b.now + lag), call, key); }
  }

  lemma DedupeStep(b: Bridge, e: Event, key: string)
    requires key in Step(b, e).store.dedupe
    ensures key in b.store.dedupe || KeyFrom(e, key)
  {
    hide Check, Write;
    match e
    case Tick(_) => {}
    case ModalSubmitted(_, _, _, _, _, _, _, _) => {
      var link := Link(e.newThread.0, e.newThread.1, b.cfg.repo, e.newIssue, e.user, b.now, None, None);
      if key in Write(b, LinkThread(link), e.link).store.dedupe { WriteDedupe(b, LinkThread(link), e.link, key); }
    }
    case IssueComment(_, _, _, _, _, _, _, _, _, _) => {
      var k := DeliveryKey(e.delivery);
      var (c, isNew) := Check(b, k, e.lag, e.seen);
      if key in c.store.dedupe { CheckDedupe(b, k, e.lag, e.seen, key); }
      var found := MemByIssue(c.store, (e.repo, e.number));
      if found.Some? {
        var d := Emit(c, RelayedToSlack(found.value.Thread(), (e.repo, e.number), k, b.now, c.now), e.reply);
        var op := UpdateRelayed(found.value.Thread(), e.comment);
        if key in Write(d, op, e.update).store.dedupe { WriteDedupe(d, op, e.update, key); }
      }
    }
    case SlackMessage(_, _, _, _, _, _, _, _) => {
      var k := EventKey(e.eventId);
      if key in Check(b, k, e.lag, e.seen).0.store.dedupe { CheckDedupe(b, k, e.lag, e.seen, key); }
    }
    case ButtonClicked(_, _, _, _, _, _) => {
      var thread := (e.channel, e.threadTs);
      var found := MemByThread(b.store, thread);
      if found.Some? {
        var c := Emit(b, ConfirmPosted(thread, (b.cfg.repo, found.value.issue), e.clicker), e.post);
        var op := MarkConfirmed(thread, c.now);
        if key in Write(c, op, e.mark).store.dedupe { WriteDedupe(c, op, e.mark, key); }
      }
    }
    case UserMapped(user, login) => { WriteDedupe(b, MapUser(user, login), Done, key); }
  }

  /** Every remembered id was carried by some event of the run. */
  lemma {:induction false} DedupeRun(b: Bridge, events: seq<Event>, key: string)
    requires key in Run(b, events).store.dedupe
    ensures key in b.store.dedupe || exists i :: 0 <= i < |events| && KeyFrom(events[i], key)
    decreases events
  {
    if events != [] {
      hide Step, KeyFrom;
      var c := Step(b, events[0]);
      DedupeRun(c, events[1..], key);
      if key in c.store.dedupe {
        DedupeStep(b, events[0], key);
      } else {
        var i :| 0 <= i < |events[1..]| && KeyFrom(events[1..][i], key);
        assert events[i + 1] == events[1..][i];
      }
    }
  }

  lemma KeysDiffer(a: string, b: string)
    ensures "slack:" + a == "slack:" + b ==> a == b
    ensures "gh:" + a == "gh:" + b ==> a == b
    ensures "slack:" + a != "gh:" + b
  {
    assert ("slack:" + a)[6..] == a && ("slack:" + b)[6..] == b;
    assert ("gh:" + a)[3..] == a && ("gh:" + b)[3..] == b;
    assert ("slack:" + a)[0] == 's' && ("gh:" + b)[0] == 'g';
  }

  /** No earlier reply carried this event id; comments may have carried the same text as theirs. */
  ghost predicate NewReply(events: seq<Event>, id: string)
  {
    forall i :: 0 <= i < |events| && events[i].SlackMessage? ==> events[i].eventId != id
  }

  ghost predicate NewComment(events: seq<Event>, id: string)
  {
    forall i :: 0 <= i < |events| && events[i].IssueComment? ==> events[i].delivery != id
  }

  lemma NewIdsPass(cfg: Config, now: int, events: seq<Event>, id: string)
    ensures NewReply(events, id) ==> "slack:" + id !in Run(Start(cfg, now), events).store.dedupe
    ensures NewComment(events, id) ==> "gh:" + id !in Run(Start(cfg, now), events).store.dedupe
  {
    hide Run;
    forall key | key in Run(Start(cfg, now), events).store.dedupe
      ensures NewReply(events, id) ==> key != "slack:" + id
      ensures NewComment(events, id) ==> key != "gh:" + id
    {
      DedupeRun(Start(cfg, now), events, key);
      var i :| 0 <= i < |events| && KeyFrom(events[i], key);
      if events[i].SlackMessage? {
        KeysDiffer(events[i].eventId, id);
      } else {
        KeysDiffer(events[i].delivery, id);
        KeysDiffer(id, events[i].delivery);
      }
    }
  }

  /** After any run, a reply with an event id that no earlier reply carried, or with none, on a
      thread that is linked and open at that point, is relayed to exactly the issue of the thread. */
  lemma ReplyDelivered(cfg: Config, now: int, before: seq<Event>, e: Event)
    requires e.SlackMessage? && (e.eventId == "" || NewReply(before, e.eventId))
    requires !e.fromBot && e.threadTs != "" && e.text != "" && e.seen == Done && e.post == Done
    requires var b := Run(Start(cfg, now), before);
      (e.channel, e.threadTs) in b.store.byThread && b.store.byThread[(e.channel, e.threadTs)].confirmedAt.None?
    ensures var b := Run(Start(cfg, now), before);
      var thread := (e.channel, e.threadTs);
      var key := if e.eventId == "" then "" else "slack:" + e.eventId;
      var stored := if e.eventId == "" then b.now else b.now + e.lag;
      Step(b, e).log
        == b.log + [RelayedToGitHub(thread, (b.cfg.repo, b.store.byThread[thread].issue), key, b.now, stored)]
  {
    NewIdsPass(cfg, now, before, e.eventId);
    var b := Run(Start(cfg, now), before);
    hide Run;
    if e.eventId != "" { MessageRelayedOnce(b, e, 0); }
  }

  /** After any run, a comment with a delivery id that no earlier comment carried, or with none, by
      an allowed author on a labelled issue that is linked and open at that point and whose last
      relayed comment it is not, is relayed to exactly the thread of the issue. */
  lemma CommentDelivered(cfg: Config, now: int, before: seq<Event>, e: Event)
    requires e.IssueComment? && (e.delivery == "" || NewComment(before, e.delivery))
    requires e.number != 0 && e.labelled && e.seen == Done && e.reply == Done
    requires var b := Run(Start(cfg, now), before);
      && !b.cfg.shadow && e.author in b.cfg.relayAuthors && (e.repo, e.number) in b.store.byIssue
      && var link := b.store.byIssue[(e.repo, e.number)];
         link.confirmedAt.None? && (e.comment != 0 ==> link.lastRelayed != Some(e.comment))
    ensures var b := Run(Start(cfg, now), before);
      var thread := b.store.byIssue[(e.repo, e.number)].Thread();
      var key := if e.delivery == "" then "" else "gh:" + e.delivery;
      var stored := if e.delivery == "" then b.now else b.now + e.lag;
      Step(b, e).log == b.log + [RelayedToSlack(thread, (e.repo, e.number), key, b.now, stored)]
  {
    NewIdsPass(cfg, now, before, e.delivery);
    var b := Run(Start(cfg, now), before);
    hide Run;
    if e.delivery != "" { CommentRelayedOnce(b, e, 0); }
  }

  /** A post that is made is logged, one that is not made is not. */
  lemma PostOutcomes(b: Bridge, e: Effect)
    ensures Emit(b, e, Done).log == Emit(b, e, RaisedAfter).log == b.log + [e]
    ensures Emit(b, e, RaisedBefore) == Emit(b, e, RaisedBetween) == b
  {}

  /** A click by the reporter of a linked thread posts `/confirm` on exactly its issue and marks
      exactly its link. */
  lemma ClickConfirms(b: Bridge, e: Event)
    requires e.ButtonClicked? && e.isConfirm && e.post == Done && e.mark == Done
    requires (e.channel, e.threadTs) in b.store.byThread
    requires b.store.byThread[(e.channel, e.threadTs)].reporter == e.clicker
    ensures var thread := (e.channel, e.threadTs);
      var link := b.store.byThread[thread];
      var c := Step(b, e);
      && c.log == b.log + [ConfirmPosted(thread, (b.cfg.repo, link.issue), e.clicker)]
      && c.store.byThread == b.store.byThread[thread := link.(confirmedAt := Some(b.now))]
      && c.store.byIssue == b.store.byIssue[link.Issue() := link.(confirmedAt := Some(b.now))]
  {}

  /** A submitted form about no sensitive topic links the new thread to the new issue, with the
      submitting user as its reporter and nothing relayed or confirmed yet. */
  lemma FormLinks(b: Bridge, e: Event)
    requires e.ModalSubmitted? && e.isIntake && !e.sensitive && e.open == Done && e.post == Done && e.link == Done
    ensures var link := Link(e.newThread.0, e.newThread.1, b.cfg.repo, e.newIssue, e.user, b.now, None, None);
      var c := Step(b, e);
      && c.log == b.log
      && c.store.byThread == b.store.byThread[e.newThread := link]
      && c.store.byIssue == b.store.byIssue[(b.cfg.repo, e.newIssue) := link]
  {}

  // ---------------------------------------------------------------- the service itself

  /** The handlers step by step: each returns at its first guard or at the first call that raises. */
  class IntakeService {
    const cfg: Config
    var now: int
    var store: Memory
    var log: seq<Effect>

    ghost function Value(): Bridge
      reads this
    {
      Bridge(cfg, now, store, log)
    }

    constructor (config: Config, clock: int)
      ensures Value() == Start(config, clock)
    {
      cfg, now, store, log := config, clock, EmptyMemory, [];
    }

    method CallStore(op: Op, call: Call) returns (returned: bool)
      modifies this
      ensures Value() == Write(old(Value()), op, call)
      ensures returned <==> call == Done
    {
      if call == RaisedBefore { return false; }
      if call == RaisedBetween {
        store := MemHalf(store, op, cfg.ttl);
        return false;
      }
      store := MemStep(store, op, cfg.ttl).0;
      returned := call == Done;
    }

    method CallOut(e: Effect, call: Call) returns (returned: bool)
      modifies this
      ensures Value() == Emit(old(Value()), e, call)
      ensures returned <==> call == Done
    {
      if !TakesEffect(call) { return false; }
      log := log + [e];
      returned := call == Done;
    }

    method Dedupe(key: string, lag: nat, call: Call) returns (goOn: bool)
      modifies this
      ensures (Value(), goOn) == Check(old(Value()), key, lag, call)
    {
      if key == "" { return true; }
      var checked := now;
      now := now + lag;
      var op := SeenEvent(key, checked, now);
      var answer := MemStep(store, op, cfg.ttl).1;
      var returned := CallStore(op, call);
      goOn := returned && answer == Seen(false);
    }

    method HandleModal(e: Event)
      requires e.ModalSubmitted?
      modifies this
      ensures Value() == OnModal(old(Value()), e)
    {
      if !e.isIntake || e.sensitive { return; }
      if e.open != Done { return; }
      if e.post != Done { return; }
      var link := Link(e.newThread.0, e.newThread.1, cfg.repo, e.newIssue, e.user, now, None, None);
      var _ := CallStore(LinkThread(link), e.link);
    }

    method HandleIssueComment(e: Event)
      requires e.IssueComment?
      modifies this
      ensures Value() == OnIssueComment(old(Value()), e)
    {
      hide MemStep;
      if cfg.shadow { return; }
      var key := DeliveryKey(e.delivery);
      var checked := now;
      var goOn := Dedupe(key, e.lag, e.seen);
      if !goOn || e.number == 0 || !e.labelled { return; }
      var found := MemByIssue(store, (e.repo, e.number));
      if found.None? || found.value.confirmedAt.Some? { return; }
      if e.author !in cfg.relayAuthors { return; }
      if e.comment != 0 && found.value.lastRelayed == Some(e.comment) { return; }
      var thread := found.value.Thread();
      var posted := CallOut(RelayedToSlack(thread, (e.repo, e.number), key, checked, now), e.reply);
      if !posted || e.comment == 0 { return; }
      var _ := CallStore(UpdateRelayed(thread, e.comment), e.update);
    }

    method HandleSlackMessage(e: Event)
      requires e.SlackMessage?
      modifies this
      ensures Value() == OnSlackMessage(old(Value()), e)
    {
      hide MemStep;
      var key := EventKey(e.eventId);
      var checked := now;
      var goOn := Dedupe(key, e.lag, e.seen);
      if !goOn || e.fromBot || e.threadTs == "" { return; }
      var thread := (e.channel, e.threadTs);
      var found := MemByThread(store, thread);
      if found.None? || found.value.confirmedAt.Some? || e.text == "" { return; }
      var _ := CallOut(RelayedToGitHub(thread, (cfg.repo, found.value.issue), key, checked, now), e.post);
    }

    method HandleButton(e: Event)
      requires e.ButtonClicked?
      modifies this
      ensures Value() == OnButton(old(Value()), e)
    {
      hide MemStep;
      if !e.isConfirm { return; }
      var thread := (e.channel, e.threadTs);
      var found := MemByThread(store, thread);
      if found.None? || e.clicker != found.value.reporter { return; }
      var posted := CallOut(ConfirmPosted(thread, (cfg.repo, found.value.issue), e.clicker), e.post);
      if !posted { return; }
      var _ := CallStore(MarkConfirmed(thread, now), e.mark);
    }
  }
}
