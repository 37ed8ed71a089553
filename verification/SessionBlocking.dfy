/**
 When a session finishes and when its two peers end up waiting for each other, for all hosts
 (internal/sync/service.go:560-586, 683-706 and 853-906).
 */
module SessionBlocking {
  import opened Results
  import opened Transfer
  import opened Entries
  import opened Negotiation
  import opened ChainCatalogue
  import opened Convergence
  import opened Session
  import opened SessionSafety
  import opened SessionRuns
  import opened SessionResults
  import opened SessionStreams

  // ----- receiving from a stream that is still open -----

  /** A list of receives has run out of messages, or has left these. */
  datatype Drained = Starved | Left(rest: seq<Message>)

  /** The receives of a list of tasks, on the messages that have been sent; the other tasks are passed over. */
  function Drain(todo: seq<Task>, stream: seq<Message>): Drained
    decreases |stream|, |todo|, if todo != [] && todo[0].ReceiveVault? then 1 else 0
  {
    if todo == [] then Left(stream)
    else
      var rest := todo[1..];
      match todo[0]
      case ReceiveVault(v) => if ValidName(v) then Drain([AwaitBegin(v)] + rest, stream) else Drain(rest, stream)
      case AwaitBegin(v) =>
        if stream == [] then Starved
        else if stream[0].BeginMsg? then Drain([AwaitFile(v, map[], 0)] + rest, stream[1..])
        else Drain(rest, stream[1..])
      case AwaitFile(v, staged, count) =>
        if stream == [] then Starved
        else if Stages(stream[0]) then
          Drain([AwaitFile(v, staged[stream[0].name := stream[0].data], count + 1)] + rest, stream[1..])
        else Drain(rest, stream[1..])
      case _ => Drain(rest, stream)
  }

  /** A file message that the receiver stages. */
  predicate Stages(m: Message) {
    m.FileMsg? && ValidName(m.name) && |m.data| <= MAX_TRANSFER_FILE_SIZE
  }

  lemma DrainHead(t: Task, rest: seq<Task>, stream: seq<Message>)
    ensures !Receiving(t) ==> Drain([t] + rest, stream) == Drain(rest, stream)
    ensures t.ReceiveVault? ==>
              Drain([t] + rest, stream)
              == if ValidName(t.vault) then Drain([AwaitBegin(t.vault)] + rest, stream) else Drain(rest, stream)
    ensures (t.AwaitBegin? || t.AwaitFile?) && stream == [] ==> Drain([t] + rest, stream) == Starved
    ensures t.AwaitBegin? && stream != [] ==>
              Drain([t] + rest, stream)
              == if stream[0].BeginMsg? then Drain([AwaitFile(t.vault, map[], 0)] + rest, stream[1..])
                 else Drain(rest, stream[1..])
    ensures t.AwaitFile? && stream != [] ==>
              Drain([t] + rest, stream)
              == if Stages(stream[0]) then
                   Drain([AwaitFile(t.vault, t.staged[stream[0].name := stream[0].data], t.count + 1)] + rest, stream[1..])
                 else Drain(rest, stream[1..])
  {
    hide ValidName, Stages;
    assert ([t] + rest)[1..] == rest;
  }

  function Then(d: Drained, todo: seq<Task>): Drained {
    match d
    case Starved => Starved
    case Left(rest) => Drain(todo, rest)
  }

  /** One list of tasks after another. */
  lemma {:induction false} DrainThen(a: seq<Task>, b: seq<Task>, stream: seq<Message>)
    ensures Drain(a + b, stream) == Then(Drain(a, stream), b)
    decreases |stream|, |a|, if a != [] && a[0].ReceiveVault? then 1 else 0
  {
    hide Drain, ValidName, Stages;
    if a == [] {
      assert a + b == b;
      DrainNothing(stream);
    } else {
      var t, rest := a[0], a[1..];
      assert a == [t] + rest && a + b == [t] + (rest + b);
      DrainHead(t, rest, stream);
      DrainHead(t, rest + b, stream);
      DrainThen(rest, b, stream);
      if t.ReceiveVault? {
        DrainThen([AwaitBegin(t.vault)] + rest, b, stream);
        assert ([AwaitBegin(t.vault)] + rest) + b == [AwaitBegin(t.vault)] + (rest + b);
      } else if stream != [] && (t.AwaitBegin? || t.AwaitFile?) {
        DrainThen(rest, b, stream[1..]);
        if t.AwaitBegin? {
          var next := AwaitFile(t.vault, map[], 0);
          DrainThen([next] + rest, b, stream[1..]);
          assert ([next] + rest) + b == [next] + (rest + b);
        } else if Stages(stream[0]) {
          StagesIs(stream[0]);
          var next := AwaitFile(t.vault, t.staged[stream[0].name := stream[0].data], t.count + 1);
          DrainThen([next] + rest, b, stream[1..]);
          assert ([next] + rest) + b == [next] + (rest + b);
        }
      }
    }
  }

  lemma DrainNothing(stream: seq<Message>)
    ensures Drain([], stream) == Left(stream)
  {
  }

  lemma StagesIs(m: Message)
    ensures Stages(m) <==> m.FileMsg? && ValidName(m.name) && |m.data| <= MAX_TRANSFER_FILE_SIZE
  {
  }

  lemma {:induction false} DrainOuts(todo: seq<Task>, stream: seq<Message>)
    requires forall t | t in todo :: !Receiving(t)
    ensures Drain(todo, stream) == Left(stream)
    decreases |todo|
  {
    if todo != [] {
      assert todo[0] in todo && forall t | t in todo[1..] :: t in todo;
      DrainOuts(todo[1..], stream);
    }
  }

  // ----- what a peer still sends -----

  /** The messages of a task; the completion message is not counted, nothing is received with its help. */
  ghost function Issue(t: Task, h: Host): seq<Message> {
    match t
    case Put(m) => if m == CompleteMsg then [] else [m]
    case SendVault(v) => Outgoing(h, h.dirs, v).messages
    case _ => []
  }

  ghost function Issues(todo: seq<Task>, h: Host): seq<Message> {
    if todo == [] then [] else Issue(todo[0], h) + Issues(todo[1..], h)
  }

  lemma IssuesHead(t: Task, rest: seq<Task>, h: Host)
    ensures Issues([t] + rest, h) == Issue(t, h) + Issues(rest, h)
  {
    assert ([t] + rest)[1..] == rest;
  }

  lemma {:induction false} IssuesThen(a: seq<Task>, b: seq<Task>, h: Host)
    ensures Issues(a + b, h) == Issues(a, h) + Issues(b, h)
  {
    hide Issue;
    if a == [] {
      assert a + b == b;
    } else {
      IssuesThen(a[1..], b, h);
      assert (a + b)[1..] == a[1..] + b;
    }
  }

  /** Everything that a peer sends for these vaults. */
  ghost function SentBy(h: Host, names: seq<string>): seq<Message> {
    if names == [] then [] else Outgoing(h, h.dirs, names[0]).messages + SentBy(h, names[1..])
  }

  lemma {:induction false} IssuesOfSends(names: seq<string>, h: Host)
    ensures Issues(SendTasks(names), h) == SentBy(h, names)
  {
    hide Outgoing;
    if names != [] {
      IssuesOfSends(names[1..], h);
      assert SendTasks(names)[1..] == SendTasks(names[1..]);
    }
  }

  lemma {:induction false} IssuesOfReceives(names: seq<string>, h: Host)
    ensures Issues(ReceiveTasks(names), h) == []
  {
    if names != [] {
      IssuesOfReceives(names[1..], h);
      assert ReceiveTasks(names)[1..] == ReceiveTasks(names[1..]);
    }
  }

  predicate NoComplete(messages: seq<Message>) {
    forall i | 0 <= i < |messages| :: messages[i] != CompleteMsg
  }

  lemma {:induction false} IssuesOfPuts(messages: seq<Message>, h: Host)
    requires NoComplete(messages)
    ensures Issues(Puts(messages), h) == messages
  {
    if messages != [] {
      IssuesOfPuts(messages[1..], h);
      assert Puts(messages)[1..] == Puts(messages[1..]);
      assert messages == [messages[0]] + messages[1..];
    }
  }

  lemma OutgoingIs(h: Host, dirs: map<string, Files>, v: string)
    requires Get(dirs, v) == Get(h.dirs, v)
    ensures Outgoing(h, dirs, v) == Outgoing(h, h.dirs, v) && NoComplete(Outgoing(h, dirs, v).messages)
  {
    if v in dirs {
      assert Get(dirs, v) == Some(dirs[v]) && Get(h.dirs, v) == Some(h.dirs[v]);
    }
  }

  // ----- one side -----

  /** The vaults that a peer is still to send are as it found them. */
  ghost predicate Tame(p: Peer) {
    && Sends(p.todo) !! Receives(p.todo)
    && forall v | v in Sends(p.todo) :: Get(p.dirs, v) == Get(p.host.dirs, v)
  }

  predicate TransferTask(t: Task) {
    t.Put? || t.SendVault? || Receiving(t)
  }

  /** A step of a transfer that reads the next message of the stream, or none. */
  predicate OnStream(p: Peer, m: Option<Message>, stream: seq<Message>)
    requires p.todo != []
  {
    && TransferTask(p.todo[0]) && p.todo[0] != Put(CompleteMsg)
    && (Reads(p.todo[0]) ==> stream != [] && m == Some(stream[0]))
  }

  ghost predicate Moves(p: Peer, q: Peer, out: seq<Message>, stream: seq<Message>)
    requires p.todo != []
  {
    && Tame(q) && q.host == p.host && q.plan == p.plan
    && Issues(p.todo, p.host) == out + Issues(q.todo, p.host)
    && (Reads(p.todo[0]) ==> stream != [])
    && Drain(p.todo, stream) == Drain(q.todo, if Reads(p.todo[0]) then stream[1..] else stream)
    && (Receiving(p.todo[0]) ==> out == [])
    && (forall t | EndsWith(p.todo, t) && |p.todo| > 1 :: EndsWith(q.todo, t))
  }

  /** The last task, and the completion message nowhere else. */
  predicate EndsWith(todo: seq<Task>, t: Task) {
    todo != [] && todo[|todo| - 1] == t && forall j | 0 <= j < |todo| - 1 :: todo[j] != Put(CompleteMsg)
  }

  lemma SendMoves(p: Peer, m: Option<Message>, plan: Plan, stream: seq<Message>)
    requires p.todo != [] && Tame(p) && p.todo[0].SendVault?
    ensures var e := Act(p, m, plan); Moves(p, e.peer, e.out, stream)
  {
    hide Outgoing, Issues, Drain, Sends, Receives, NoComplete, Puts, EndsWith, Whole, Pending, Expected;
    var v, rest := p.todo[0].vault, p.todo[1..];
    assert p.todo == [p.todo[0]] + rest;
    var o := Outgoing(p.host, p.dirs, v);
    FirstOf(p.todo[0], rest, p.host, p.host);
    OutgoingIs(p.host, p.dirs, v);
    PutsPending(o.messages, rest, p.host, p.host);
    IssuesOfPuts(o.messages, p.host);
    IssuesThen(Puts(o.messages), rest, p.host);
    IssuesHead(p.todo[0], rest, p.host);
    DrainHead(p.todo[0], rest, stream);
    PutsDrain(o.messages, stream);
    DrainThen(Puts(o.messages), rest, stream);
    NoCompleteIs(o.messages);
    EndsLater(p.todo, Puts(o.messages));
  }

  lemma EndsLater(todo: seq<Task>, head: seq<Task>)
    requires todo != [] && forall i | 0 <= i < |head| :: head[i] != Put(CompleteMsg)
    ensures forall t | EndsWith(todo, t) && |todo| > 1 :: EndsWith(head + todo[1..], t) && EndsWith(todo[1..], t)
  {
    var after := head + todo[1..];
    assert forall j | 0 <= j < |after| :: after[j] == if j < |head| then head[j] else todo[j - |head| + 1];
  }

  lemma NoCompleteIs(messages: seq<Message>)
    requires NoComplete(messages)
    ensures forall i | 0 <= i < |Puts(messages)| :: Puts(messages)[i] != Put(CompleteMsg)
  {
  }

  lemma PutsDrain(messages: seq<Message>, stream: seq<Message>)
    ensures Drain(Puts(messages), stream) == Left(stream)
  {
    DrainOuts(Puts(messages), stream);
  }

  lemma PutMoves(p: Peer, m: Option<Message>, plan: Plan, stream: seq<Message>)
    requires p.todo != [] && Tame(p) && p.todo[0].Put? && p.todo[0] != Put(CompleteMsg)
    ensures var e := Act(p, m, plan); Moves(p, e.peer, e.out, stream)
  {
    hide Issues, Drain, Sends, Receives, Tame, EndsWith;
    var t, rest := p.todo[0], p.todo[1..];
    assert p.todo == [t] + rest;
    IssuesHead(t, rest, p.host);
    DrainHead(t, rest, stream);
    StaysTame(p, Pop(p));
    EndsLater(p.todo, []);
  }

  lemma StartMoves(p: Peer, m: Option<Message>, plan: Plan, stream: seq<Message>)
    requires p.todo != [] && Tame(p) && p.todo[0].ReceiveVault?
    ensures var e := Act(p, m, plan); Moves(p, e.peer, e.out, stream)
  {
    hide Issues, Drain, Sends, Receives, Tame, ValidName, EndsWith;
    var t, rest := p.todo[0], p.todo[1..];
    assert p.todo == [t] + rest;
    EndsLater(p.todo, [AwaitBegin(t.vault)]);
    IssuesHead(t, rest, p.host);
    IssuesHead(AwaitBegin(t.vault), rest, p.host);
    DrainHead(t, rest, stream);
    StaysTame(p, Act(p, m, plan).peer);
  }

  lemma BeginMoves(p: Peer, m: Option<Message>, plan: Plan, stream: seq<Message>)
    requires p.todo != [] && Tame(p) && p.todo[0].AwaitBegin? && stream != [] && m == Some(stream[0])
    ensures var e := Act(p, m, plan); Moves(p, e.peer, e.out, stream)
  {
    hide Issues, Drain, Sends, Receives, Tame, EndsWith;
    var t, rest := p.todo[0], p.todo[1..];
    assert p.todo == [t] + rest;
    EndsLater(p.todo, [AwaitFile(t.vault, map[], 0)]);
    IssuesHead(t, rest, p.host);
    IssuesHead(AwaitFile(t.vault, map[], 0), rest, p.host);
    DrainHead(t, rest, stream);
    StaysTame(p, Act(p, m, plan).peer);
  }

  lemma FileMoves(p: Peer, m: Option<Message>, plan: Plan, stream: seq<Message>)
    requires p.todo != [] && Tame(p) && p.todo[0].AwaitFile? && stream != [] && m == Some(stream[0])
    ensures var e := Act(p, m, plan); Moves(p, e.peer, e.out, stream)
  {
    hide Issues, Drain, Sends, Receives, Tame, EndsWith, ValidName, Received;
    var t, rest := p.todo[0], p.todo[1..];
    assert p.todo == [t] + rest;
    IssuesHead(t, rest, p.host);
    DrainHead(t, rest, stream);
    EndsLater(p.todo, []);
    StagesIs(stream[0]);
    hide Stages;
    if Stages(stream[0]) {
      var next := AwaitFile(t.vault, t.staged[stream[0].name := stream[0].data], t.count + 1);
      IssuesHead(next, rest, p.host);
      EndsLater(p.todo, [next]);
    }
    StaysTame(p, Act(p, m, plan).peer);
  }

  lemma StaysTame(p: Peer, q: Peer)
    requires p.todo != [] && Tame(p) && !p.todo[0].SendVault? && q.host == p.host
    requires q.todo == p.todo[1..] || (q.todo != [] && q.todo[1..] == p.todo[1..] && Receiving(p.todo[0]) && Receiving(q.todo[0])
                                       && q.todo[0].vault == p.todo[0].vault)
    requires forall v | !(Receiving(p.todo[0]) && v == p.todo[0].vault) :: Get(q.dirs, v) == Get(p.dirs, v)
    ensures Tame(q)
  {
    hide Sends, Receives, Get;
    HeadSets(p.todo);
    if q.todo != p.todo[1..] {
      HeadSets(q.todo);
    }
  }

  lemma HeadSets(todo: seq<Task>)
    requires todo != []
    ensures Sends(todo) == (if todo[0].SendVault? then {todo[0].vault} else {}) + Sends(todo[1..])
    ensures Receives(todo) == (if Receiving(todo[0]) then {todo[0].vault} else {}) + Receives(todo[1..])
  {
  }

  lemma PeerMoves(p: Peer, m: Option<Message>, plan: Plan, stream: seq<Message>)
    requires p.todo != [] && Tame(p) && OnStream(p, m, stream)
    ensures var e := Act(p, m, plan); Moves(p, e.peer, e.out, stream)
  {
    hide Act, Moves, Tame;
    match p.todo[0]
    case SendVault(_) => SendMoves(p, m, plan, stream);
    case Put(_) => PutMoves(p, m, plan, stream);
    case ReceiveVault(_) => StartMoves(p, m, plan, stream);
    case AwaitBegin(_) => BeginMoves(p, m, plan, stream);
    case AwaitFile(_, _, _) => FileMoves(p, m, plan, stream);
  }
}
