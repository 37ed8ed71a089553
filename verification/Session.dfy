/**
 A sync session (internal/sync/service.go:484-910) as two processes over two FIFO queues. What a process still has to
 do is a list of tasks; a step carries out a part of the first task. Every error branch is a step that records what
 failed.
 */
module Session {
  import opened Results
  import opened FileNames
  import opened Transfer
  import opened Entries
  import opened Negotiation
  import opened ChainCatalogue

  const MAX_TRANSFER_FILE_SIZE := 50 * 1024 * 1024

  datatype Message =
    | CatalogueMsg(catalogue: Catalogue)
    | PlanMsg(plan: Plan)
    | BeginMsg(vault: string)
    | FileMsg(vault: string, name: string, data: Content)
    | EndMsg(vault: string)
    | CompleteMsg

  datatype Task =
    | Put(message: Message)
    | AwaitCatalogue                                             // the initiator, before it negotiates
    | AwaitHello                                                 // the responder, before it answers and negotiates
    | AwaitPlan
    | SendVault(vault: string)
    | ReceiveVault(vault: string)
    | AwaitBegin(vault: string)
    | AwaitFile(vault: string, staged: Files, count: nat)        // count files have been staged
    | AwaitComplete

  /** A peer as the session finds it; the last two fields say which reads of its own disk fail. */
  datatype Host = Host(
    dirs: map<string, Files>, catalogue: Catalogue, strict: bool, root: string,
    unlistable: set<string>, unreadable: set<(string, string)>)

  datatype Peer = Peer(
    host: Host, todo: seq<Task>, dirs: map<string, Files>, catalogue: Catalogue,
    remote: Option<Catalogue>, plan: Option<Plan>, errors: seq<string>)

  predicate DotDot(n: string) {
    exists i | 0 <= i < |n| - 1 :: n[i] == '.' && n[i + 1] == '.'
  }

  /** validateSyncName */
  predicate ValidName(n: string) {
    n != "" && !DotDot(n) && '/' !in n && '\\' !in n && n[0] != '.'
  }

  // ----- what a vault looks like on the wire -----

  ghost function NamesOf(files: Files): (names: seq<string>)
    ensures Listing(names, files.Keys)
  {
    assert exists names :: Listing(names, files.Keys) by {
      var names := ListingOf(files.Keys);
    }
    var names :| Listing(names, files.Keys);
    names
  }

  function FileMsgs(v: string, files: Files, names: seq<string>): seq<Message>
    requires forall n | n in names :: n in files
  {
    seq(|names|, i requires 0 <= i < |names| => FileMsg(v, names[i], files[names[i]]))
  }

  lemma ListedIn(names: seq<string>, files: Files)
    requires Listing(names, files.Keys)
    ensures forall n :: n in names <==> n in files
  {
    assert forall n :: n in names <==> n in Names(names);
  }

  ghost function Block(v: string, files: Files): (b: seq<Message>)
    ensures |b| == |NamesOf(files)| + 2
  {
    ListedIn(NamesOf(files), files);
    [BeginMsg(v)] + FileMsgs(v, files, NamesOf(files)) + [EndMsg(v)]
  }

  /** How many of the listed files can be read before the first one that cannot. */
  function Readable(v: string, names: seq<string>, unreadable: set<(string, string)>): (k: nat)
    ensures k <= |names|
    ensures k == |names| <==> forall n | n in names :: (v, n) !in unreadable
  {
    if names == [] || (v, names[0]) in unreadable then 0
    else
      assert names == [names[0]] + names[1..];
      1 + Readable(v, names[1..], unreadable)
  }

  datatype Outcome = Sent(messages: seq<Message>, ok: bool)

  /** sendVault */
  ghost function Outgoing(h: Host, dirs: map<string, Files>, v: string): Outcome {
    if v !in dirs || v in h.unlistable then Sent([], false)
    else
      var names := NamesOf(dirs[v]);
      var k := Readable(v, names, h.unreadable);
      if k == |names| then Sent(Block(v, dirs[v]), true) else Sent(Block(v, dirs[v])[..k + 1], false)
  }

  // ----- one step of one peer -----

  function Puts(messages: seq<Message>): seq<Task> {
    seq(|messages|, i requires 0 <= i < |messages| => Put(messages[i]))
  }

  /** The vaults of a transfer list that go in one direction, in the order of the list. */
  function Toward(auto: seq<VaultTransfer>, d: Direction): seq<string> {
    if auto == [] then []
    else (if auto[0].direction == d then [auto[0].vaultName] else []) + Toward(auto[1..], d)
  }

  function SendTasks(names: seq<string>): seq<Task> {
    seq(|names|, i requires 0 <= i < |names| => SendVault(names[i]))
  }

  function ReceiveTasks(names: seq<string>): seq<Task> {
    seq(|names|, i requires 0 <= i < |names| => ReceiveVault(names[i]))
  }

  /** What SyncWithPeer does after it has negotiated. */
  function InitiatorTasks(p: Plan): seq<Task> {
    [Put(PlanMsg(p))] + (SendTasks(Toward(p.auto, Push)) + (ReceiveTasks(Toward(p.auto, Pull)) + [Put(CompleteMsg)]))
  }

  /** What handleSyncStream does after it has accepted the initiator's plan. */
  function ResponderTasks(p: Plan): seq<Task> {
    ReceiveTasks(Toward(p.auto, Push)) + (SendTasks(Toward(p.auto, Pull)) + [AwaitComplete])
  }

  /** What an error is recorded under: the vault, if the failed step was about one. */
  function Label(t: Task): string {
    match t
    case SendVault(v) => v
    case ReceiveVault(v) => v
    case AwaitBegin(v) => v
    case AwaitFile(v, _, _) => v
    case _ => ""
  }

  predicate Reads(t: Task) {
    !t.Put? && !t.SendVault? && !t.ReceiveVault?
  }

  function Pop(p: Peer): Peer
    requires p.todo != []
  {
    p.(todo := p.todo[1..])
  }

  /** The first task fails and the process goes on with the next. */
  function Fail(p: Peer): Peer
    requires p.todo != []
  {
    p.(todo := p.todo[1..], errors := p.errors + [Label(p.todo[0])])
  }

  /** The first task fails and the process returns. */
  function Abort(p: Peer): Peer
    requires p.todo != []
  {
    p.(todo := [], errors := p.errors + [Label(p.todo[0])])
  }

  function Replace(p: Peer, tasks: seq<Task>): Peer
    requires p.todo != []
  {
    p.(todo := tasks + p.todo[1..])
  }

  /** os.MkdirAll and PrepareStaging: the vault directory exists. */
  function MadeDir(dirs: map<string, Files>, v: string): map<string, Files> {
    if v in dirs then dirs else dirs[v := map[]]
  }

  /** CommitStaging, then updateCatalogueAfterReceive. */
  function Commit(p: Peer, v: string, staged: Files): Peer
    requires p.todo != []
  {
    var q := p.(dirs := p.dirs[v := staged]);
    if p.remote.Some? && v in p.remote.value then
      Pop(q).(catalogue := q.catalogue[v := Received(Get(q.catalogue, v), p.remote.value[v], v, p.host.root)])
    else Fail(q)
  }

  function OnFile(p: Peer, m: Option<Message>): Peer
    requires p.todo != [] && p.todo[0].AwaitFile?
  {
    var AwaitFile(v, staged, count) := p.todo[0];
    match m
    case Some(EndMsg(_)) => Commit(p, v, staged)
    case Some(FileMsg(_, n, data)) =>
      if ValidName(n) && |data| <= MAX_TRANSFER_FILE_SIZE then
        Replace(p, [AwaitFile(v, staged[n := data], count + 1)])
      else Fail(p)
    case _ => Fail(p)
  }

  datatype Effect = Effect(peer: Peer, out: seq<Message>)

  /** m is the message read, if its first task reads one and the stream has not ended; plan is the plan if it negotiates. */
  ghost function Act(p: Peer, m: Option<Message>, plan: Plan): Effect
    requires p.todo != []
  {
    match p.todo[0]
    case Put(message) => Effect(Pop(p), [message])
    case SendVault(v) =>
      var o := Outgoing(p.host, p.dirs, v);
      Effect(Replace(p, Puts(o.messages)).(errors := if o.ok then p.errors else p.errors + [v]), [])
    case ReceiveVault(v) =>
      Effect(if ValidName(v) then Replace(p, [AwaitBegin(v)]).(dirs := MadeDir(p.dirs, v)) else Fail(p), [])
    case AwaitBegin(v) =>
      Effect(if m.Some? && m.value.BeginMsg? then Replace(p, [AwaitFile(v, map[], 0)]) else Fail(p), [])
    case AwaitFile(_, _, _) => Effect(OnFile(p, m), [])
    case AwaitComplete => Effect(Pop(p), [])
    case AwaitCatalogue =>
      Effect(if m.Some? && m.value.CatalogueMsg? then
               p.(remote := Some(m.value.catalogue), plan := Some(plan), todo := InitiatorTasks(plan))
             else Abort(p), [])
    case AwaitHello =>
      Effect(if m.Some? && m.value.CatalogueMsg? then
               p.(remote := Some(m.value.catalogue), plan := Some(plan),
                  todo := [Put(CatalogueMsg(p.host.catalogue)), AwaitPlan])
             else Abort(p), [])
    case AwaitPlan =>
      Effect(if m.Some? && m.value.PlanMsg? && p.plan.Some? && Agree(m.value.plan, p.plan.value) then
               p.(todo := ResponderTasks(m.value.plan))
             else Abort(p), [])
  }

  /** A peer that negotiates with catalogue c uses a plan that Negotiate can return. */
  ghost predicate Chosen(p: Peer, m: Option<Message>, plan: Plan)
    requires p.todo != []
  {
    (p.todo[0].AwaitCatalogue? || p.todo[0].AwaitHello?) && m.Some? && m.value.CatalogueMsg? ==>
      IsPlan(p.host.catalogue, m.value.catalogue, p.host.strict, plan)
  }

  // ----- the two peers together -----

  datatype Sys = Sys(i: Peer, r: Peer, toR: seq<Message>, toI: seq<Message>)

  function NextMessage(p: Peer, inbox: seq<Message>): Option<Message>
    requires p.todo != []
  {
    if Reads(p.todo[0]) && inbox != [] then Some(inbox[0]) else None
  }

  function Unread(p: Peer, inbox: seq<Message>): seq<Message>
    requires p.todo != []
  {
    if Reads(p.todo[0]) && inbox != [] then inbox[1..] else inbox
  }

  /** A read waits until there is a message or the other side has returned and so closed the stream. */
  predicate Enabled(p: Peer, inbox: seq<Message>, closed: bool) {
    p.todo != [] && (Reads(p.todo[0]) && inbox == [] ==> closed)
  }

  ghost predicate InitiatorStep(s: Sys, t: Sys, plan: Plan) {
    && Enabled(s.i, s.toI, s.r.todo == [])
    && Chosen(s.i, NextMessage(s.i, s.toI), plan)
    && var e := Act(s.i, NextMessage(s.i, s.toI), plan);
       t == Sys(e.peer, s.r, s.toR + e.out, Unread(s.i, s.toI))
  }

  ghost predicate ResponderStep(s: Sys, t: Sys, plan: Plan) {
    && Enabled(s.r, s.toR, s.i.todo == [])
    && Chosen(s.r, NextMessage(s.r, s.toR), plan)
    && var e := Act(s.r, NextMessage(s.r, s.toR), plan);
       t == Sys(s.i, e.peer, Unread(s.r, s.toR), s.toI + e.out)
  }

  ghost predicate Step(s: Sys, t: Sys) {
    exists plan :: InitiatorStep(s, t, plan) || ResponderStep(s, t, plan)
  }

  function Fresh(h: Host, todo: seq<Task>): Peer {
    Peer(h, todo, h.dirs, h.catalogue, None, None, [])
  }

  function Start(hi: Host, hr: Host): Sys {
    Sys(Fresh(hi, [Put(CatalogueMsg(hi.catalogue)), AwaitCatalogue]), Fresh(hr, [AwaitHello]), [], [])
  }

  predicate Done(s: Sys) {
    s.i.todo == [] && s.r.todo == []
  }

  predicate NoErrors(s: Sys) {
    s.i.errors == [] && s.r.errors == []
  }

  lemma ErrorsGrow(p: Peer, m: Option<Message>, plan: Plan)
    requires p.todo != []
    ensures Act(p, m, plan).peer.errors == p.errors || Act(p, m, plan).peer.errors == p.errors + [Label(p.todo[0])]
    ensures Act(p, m, plan).peer.host == p.host
  {
    hide Outgoing, Puts, Agree, InitiatorTasks, ResponderTasks, Received;
  }

  // ----- a vault that cannot be read -----

  /** The begin message of a vault and messages with the first k listed files, each with its own name and content. */
  ghost predicate StartsBlock(messages: seq<Message>, v: string, files: Files, k: nat) {
    && k <= |NamesOf(files)| && k < |messages| && messages[0] == BeginMsg(v)
    && forall i | 0 <= i < k ::
         NamesOf(files)[i] in files && messages[i + 1] == FileMsg(v, NamesOf(files)[i], files[NamesOf(files)[i]])
  }

  /**
   A vault is sent whole, with its end, if and only if its directory and all its files can be read. An unlistable one sends
   nothing; otherwise the begin and the files before the first unreadable one are sent, and no end.
   */
  lemma OutgoingMeans(h: Host, dirs: map<string, Files>, v: string)
    ensures var o := Outgoing(h, dirs, v);
            && (o.ok <==> v in dirs && v !in h.unlistable && forall n | n in dirs[v] :: (v, n) !in h.unreadable)
            && (o.ok ==>
                  var k := |NamesOf(dirs[v])|;
                  |o.messages| == k + 2 && StartsBlock(o.messages, v, dirs[v], k) && o.messages[k + 1] == EndMsg(v))
            && (v !in dirs || v in h.unlistable ==> o.messages == [])
            && (!o.ok && v in dirs && v !in h.unlistable ==>
                  var names := NamesOf(dirs[v]);
                  var k := |o.messages| - 1;
                  && 0 <= k < |names| && (v, names[k]) in h.unreadable && StartsBlock(o.messages, v, dirs[v], k)
                  && forall i | 0 <= i < k :: (v, names[i]) !in h.unreadable)
            && (!o.ok ==> forall m | m in o.messages :: !m.EndMsg?)
  {
    hide Block, Readable;
    if v in dirs && v !in h.unlistable {
      var names := NamesOf(dirs[v]);
      ListedIn(names, dirs[v]);
      ReadableIs(v, names, h.unreadable);
      BlockAt(v, dirs[v], Readable(v, names, h.unreadable));
    }
  }

  lemma BlockAt(v: string, files: Files, k: nat)
    requires k <= |NamesOf(files)|
    ensures var b := Block(v, files);
            && StartsBlock(b[..k + 1], v, files, k) && (forall m | m in b[..k + 1] :: !m.EndMsg?)
            && (k == |NamesOf(files)| ==> StartsBlock(b, v, files, k) && b[k + 1] == EndMsg(v))
  {
    ListedIn(NamesOf(files), files);
  }

  lemma {:induction false} ReadableIs(v: string, names: seq<string>, unreadable: set<(string, string)>)
    ensures var k := Readable(v, names, unreadable);
            && (forall i | 0 <= i < k :: (v, names[i]) !in unreadable)
            && (k < |names| ==> (v, names[k]) in unreadable)
  {
    if names != [] && (v, names[0]) !in unreadable {
      ReadableIs(v, names[1..], unreadable);
      assert forall i | 0 < i < |names| :: names[i] == names[1..][i - 1];
    }
  }
}
