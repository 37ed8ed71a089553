/**
 What each peer puts on the wire in a whole session (internal/sync/service.go:486-710), whatever it reads: the sequential
 programs of module SessionStreams send exactly the greeting, the blocks of their plan in order and the last message.
 */
module SessionWire {
  import opened Results
  import opened Entries
  import opened Negotiation
  import opened ChainCatalogue
  import opened Convergence
  import opened Session
  import opened SessionSafety
  import opened SessionRuns
  import opened SessionResults
  import opened SessionStreams
  import opened SessionBlocking
  import opened SessionEnds

  /** A task of the transfer phase. */
  predicate Quiet(t: Task) {
    TransferTask(t) || t.AwaitComplete?
  }

  predicate AllQuiet(todo: seq<Task>) {
    forall t | t in todo :: Quiet(t)
  }

  /** The messages of a task, the completion message included. */
  ghost function Wire(todo: seq<Task>, h: Host): seq<Message> {
    if todo == [] then []
    else (if todo[0] == Put(CompleteMsg) then [CompleteMsg] else Issue(todo[0], h)) + Wire(todo[1..], h)
  }

  lemma WireHead(t: Task, rest: seq<Task>, h: Host)
    ensures Wire([t] + rest, h) == (if t == Put(CompleteMsg) then [CompleteMsg] else Issue(t, h)) + Wire(rest, h)
  {
    assert ([t] + rest)[1..] == rest;
  }

  lemma {:induction false} WirePuts(messages: seq<Message>, rest: seq<Task>, h: Host)
    ensures Wire(Puts(messages) + rest, h) == messages + Wire(rest, h) && AllQuiet(Puts(messages))
  {
    if messages == [] {
      assert Puts(messages) + rest == rest;
    } else {
      WirePuts(messages[1..], rest, h);
      WireHead(Put(messages[0]), Puts(messages[1..]) + rest, h);
      assert Puts(messages) == [Put(messages[0])] + Puts(messages[1..]);
      assert Puts(messages) + rest == [Put(messages[0])] + (Puts(messages[1..]) + rest);
    }
  }

  ghost predicate Keeps(p: Peer, q: Peer, out: seq<Message>) {
    Tame(q) && q.host == p.host && AllQuiet(q.todo) && Wire(p.todo, p.host) == out + Wire(q.todo, p.host)
  }

  lemma QuietTail(todo: seq<Task>)
    requires todo != [] && AllQuiet(todo)
    ensures AllQuiet(todo[1..]) && Quiet(todo[0])
  {
    assert forall t | t in todo[1..] :: t in todo;
  }

  lemma SendKeeps(p: Peer, m: Option<Message>, plan: Plan)
    requires p.todo != [] && Tame(p) && AllQuiet(p.todo) && p.todo[0].SendVault?
    ensures var e := Act(p, m, plan); Keeps(p, e.peer, e.out)
  {
    hide Outgoing, Issues, Drain, Sends, Receives, Puts, Wire, Moves;
    var v, rest := p.todo[0].vault, p.todo[1..];
    assert p.todo == [p.todo[0]] + rest;
    var o := Outgoing(p.host, p.dirs, v);
    SendMoves(p, m, plan, []);
    MovesTame(p, Act(p, m, plan).peer, Act(p, m, plan).out);
    HeadSets(p.todo);
    OutgoingIs(p.host, p.dirs, v);
    WirePuts(o.messages, rest, p.host);
    WireHead(p.todo[0], rest, p.host);
    QuietTail(p.todo);
  }

  lemma MovesTame(p: Peer, q: Peer, out: seq<Message>)
    requires p.todo != [] && Moves(p, q, out, [])
    ensures Tame(q)
  {
  }

  /** The peer has done its first task, or turned it into another one of the same receive. */
  ghost predicate Advanced(p: Peer, q: Peer)
    requires p.todo != []
  {
    && q.host == p.host
    && (|| q.todo == p.todo[1..]
        || (&& Receiving(p.todo[0]) && q.todo != [] && Receiving(q.todo[0])
            && q.todo == [q.todo[0]] + p.todo[1..] && q.todo[0].vault == p.todo[0].vault))
    && forall v | !(Receiving(p.todo[0]) && v == p.todo[0].vault) :: Get(q.dirs, v) == Get(p.dirs, v)
  }

  lemma FileAct(p: Peer, m: Option<Message>)
    requires p.todo != [] && p.todo[0].AwaitFile?
    ensures Advanced(p, OnFile(p, m))
  {
    hide ValidName, Received;
  }

  lemma OtherAct(p: Peer, m: Option<Message>, plan: Plan)
    requires p.todo != [] && Quiet(p.todo[0]) && !p.todo[0].SendVault?
    ensures var e := Act(p, m, plan);
            Advanced(p, e.peer) && e.out == if p.todo[0].Put? then [p.todo[0].message] else []
  {
    hide ValidName, OnFile, Outgoing, Agree;
    if p.todo[0].AwaitFile? {
      hide Advanced;
      FileAct(p, m);
    }
  }

  lemma OtherKeeps(p: Peer, m: Option<Message>, plan: Plan)
    requires p.todo != [] && Tame(p) && AllQuiet(p.todo) && !p.todo[0].SendVault?
    ensures var e := Act(p, m, plan); Keeps(p, e.peer, e.out)
  {
    hide Act, Tame, Wire;
    var t, rest := p.todo[0], p.todo[1..];
    assert p.todo == [t] + rest;
    QuietTail(p.todo);
    OtherAct(p, m, plan);
    var q := Act(p, m, plan).peer;
    WireHead(t, rest, p.host);
    if q.todo != rest {
      WireHead(q.todo[0], rest, p.host);
      assert q.todo[1..] == rest;
    }
    StaysTame(p, q);
  }

  /** A peer in the transfer phase sends exactly what its tasks say, whatever it reads. */
  lemma {:induction false} RunWire(p: Peer, inbox: seq<Message>, plan: Plan)
    requires Tame(p) && AllQuiet(p.todo)
    ensures RunAll(p, inbox, plan).out == Wire(p.todo, p.host)
    decreases Handshakes(p.todo), Transfers(p.todo), |inbox|, PutCount(p.todo)
  {
    hide Act, Tame, Wire, Handshakes, Transfers, PutCount, RunAll, AllQuiet;
    if p.todo == [] {
      NothingSent(p, inbox, plan);
    } else {
      var m := NextMessage(p, inbox);
      var e := Act(p, m, plan);
      if p.todo[0].SendVault? {
        SendKeeps(p, m, plan);
      } else {
        OtherKeeps(p, m, plan);
      }
      ActCounts(p, m, plan);
      RunStep(p, inbox, plan);
      RunWire(e.peer, Unread(p, inbox), plan);
    }
  }

  lemma NothingSent(p: Peer, inbox: seq<Message>, plan: Plan)
    requires p.todo == []
    ensures RunAll(p, inbox, plan).out == [] && Wire(p.todo, p.host) == []
  {
  }

  // ----- a whole session -----

  lemma {:induction false} WireIssues(todo: seq<Task>, h: Host, t: Task)
    requires EndsWith(todo, t) && (t == Put(CompleteMsg) || t == AwaitComplete)
    ensures Wire(todo, h) == Issues(todo, h) + (if t == Put(CompleteMsg) then [CompleteMsg] else [])
  {
    if |todo| > 1 {
      assert todo[1..][|todo| - 2] == t && forall j | 0 <= j < |todo| - 2 :: todo[1..][j] == todo[j + 1];
      WireIssues(todo[1..], h, t);
    } else {
      assert todo[1..] == [];
    }
  }

  lemma ListsQuiet(p: Plan)
    ensures AllQuiet(InitiatorTasks(p)) && AllQuiet(ResponderTasks(p))
  {
  }

  lemma FreshTame(p: Peer)
    requires p.dirs == p.host.dirs && Sends(p.todo) !! Receives(p.todo)
    ensures Tame(p)
  {
  }

  /** A peer that starts to carry out the initiator's or the responder's tasks for a plan. */
  lemma TasksWire(q: Peer, inbox: seq<Message>, plan: Plan, p: Plan)
    requires DistinctTransfers(p.auto) && q.dirs == q.host.dirs
    ensures q.todo == InitiatorTasks(p) ==>
              RunAll(q, inbox, plan).out == [PlanMsg(p)] + SentBy(q.host, PushNames(p)) + [CompleteMsg]
    ensures q.todo == ResponderTasks(p) ==> RunAll(q, inbox, plan).out == SentBy(q.host, PullNames(p))
  {
    hide RunAll, SentBy, Wire, Issues, AllQuiet, Tame, InitiatorTasks, ResponderTasks, Sends, Receives, Whole, EndsWith;
    InitiatorList(p, q.host, q.host);
    ResponderList(p, q.host, q.host);
    MovedApart(p);
    ListsQuiet(p);
    ListsIssue(p, q.host, q.host);
    if q.todo == InitiatorTasks(p) {
      FreshTame(q);
      RunWire(q, inbox, plan);
      WireIssues(q.todo, q.host, Put(CompleteMsg));
    }
    if q.todo == ResponderTasks(p) {
      FreshTame(q);
      RunWire(q, inbox, plan);
      WireIssues(q.todo, q.host, AwaitComplete);
    }
  }

  lemma Handshaking(p: Peer, m: Option<Message>, plan: Plan)
    requires p.todo != [] && (p.todo[0].AwaitCatalogue? || p.todo[0].AwaitHello? || p.todo[0].AwaitPlan?)
    ensures var e := Act(p, m, plan);
            && e.out == [] && e.peer.host == p.host && e.peer.dirs == p.dirs
            && (p.todo[0].AwaitCatalogue? ==>
                  e.peer.todo == if m.Some? && m.value.CatalogueMsg? then InitiatorTasks(plan) else [])
            && (p.todo[0].AwaitHello? && m.Some? && m.value.CatalogueMsg? ==>
                  e.peer.plan == Some(plan) && e.peer.todo == [Put(CatalogueMsg(p.host.catalogue)), AwaitPlan])
            && (p.todo[0].AwaitHello? && !(m.Some? && m.value.CatalogueMsg?) ==> e.peer.todo == [])
            && (p.todo[0].AwaitPlan? && p.plan.Some? ==>
                  e.peer.todo == if m.Some? && m.value.PlanMsg? && Agree(m.value.plan, p.plan.value)
                                 then ResponderTasks(m.value.plan) else [])
  {
    hide Agree, InitiatorTasks, ResponderTasks;
  }

  lemma PutAct(p: Peer, plan: Plan)
    requires p.todo != [] && p.todo[0].Put?
    ensures Act(p, None, plan) == Effect(Pop(p), [p.todo[0].message])
  {
  }

  /**
   The initiator sends its catalogue; then, if it is answered with one, its plan, for each push in order all or the first
   part of the vault's block, and the completion message; and nothing else.
   */
  lemma InitiatorSends(h: Host, inbox: seq<Message>, plan: Plan)
    requires inbox != [] && inbox[0].CatalogueMsg? ==> IsPlan(h.catalogue, inbox[0].catalogue, h.strict, plan)
    ensures RunAll(Fresh(h, [Put(CatalogueMsg(h.catalogue)), AwaitCatalogue]), inbox, plan).out
         == [CatalogueMsg(h.catalogue)]
            + if inbox != [] && inbox[0].CatalogueMsg? then [PlanMsg(plan)] + SentBy(h, PushNames(plan)) + [CompleteMsg] else []
  {
    hide RunAll, PlanOn, SentBy, Act, InitiatorTasks;
    var start := Fresh(h, [Put(CatalogueMsg(h.catalogue)), AwaitCatalogue]);
    PutAct(start, plan);
    RunStep(start, inbox, plan);
    var p := Pop(start);
    Handshaking(p, NextMessage(p, inbox), plan);
    RunStep(p, inbox, plan);
    var q := Act(p, NextMessage(p, inbox), plan).peer;
    if inbox != [] && inbox[0].CatalogueMsg? {
      PlanDistinct(h.catalogue, inbox[0].catalogue, h.strict, plan);
      TasksWire(q, inbox[1..], plan, plan);
    } else {
      NothingSent(q, Unread(p, inbox), plan);
    }
  }

  lemma PlanDistinct(l: Catalogue, r: Catalogue, strict: bool, plan: Plan)
    requires IsPlan(l, r, strict, plan)
    ensures DistinctTransfers(plan.auto)
  {
  }

  /** The responder has sent its catalogue and reads the plan. */
  lemma AnswerSends(q: Peer, rest: seq<Message>, plan: Plan)
    requires q.todo == [AwaitPlan] && q.plan == Some(plan) && q.dirs == q.host.dirs
    ensures RunAll(q, rest, plan).out
         == if rest != [] && rest[0].PlanMsg? && Agree(rest[0].plan, plan) then SentBy(q.host, PullNames(rest[0].plan)) else []
  {
    hide RunAll, SentBy, Act, ResponderTasks, Agree;
    Handshaking(q, NextMessage(q, rest), plan);
    RunStep(q, rest, plan);
    var r := Act(q, NextMessage(q, rest), plan).peer;
    if rest != [] && rest[0].PlanMsg? && Agree(rest[0].plan, plan) {
      AgreedDistinct(rest[0].plan, plan);
      TasksWire(r, rest[1..], plan, rest[0].plan);
    } else {
      NothingSent(r, Unread(q, rest), plan);
    }
  }

  /**
   The responder answers a catalogue with its own; then, if it agrees with the plan that it reads, it sends for each pull
   in order all or the first part of the vault's block; and nothing else.
   */
  lemma ResponderSends(h: Host, inbox: seq<Message>, plan: Plan)
    ensures RunAll(Fresh(h, [AwaitHello]), inbox, plan).out
         == if inbox == [] || !inbox[0].CatalogueMsg? then []
            else [CatalogueMsg(h.catalogue)]
                 + if |inbox| > 1 && inbox[1].PlanMsg? && Agree(inbox[1].plan, plan) then SentBy(h, PullNames(inbox[1].plan)) else []
  {
    hide RunAll, SentBy, Act, Agree;
    var start := Fresh(h, [AwaitHello]);
    Handshaking(start, NextMessage(start, inbox), plan);
    RunStep(start, inbox, plan);
    var p := Act(start, NextMessage(start, inbox), plan).peer;
    if inbox == [] || !inbox[0].CatalogueMsg? {
      NothingSent(p, Unread(start, inbox), plan);
    } else {
      PutAct(p, plan);
      RunStep(p, inbox[1..], plan);
      AnswerSends(Pop(p), inbox[1..], plan);
    }
  }

  lemma AgreedDistinct(p: Plan, q: Plan)
    requires Agree(p, q)
    ensures DistinctTransfers(p.auto)
  {
  }

  lemma MovedApart(p: Plan)
    requires DistinctTransfers(p.auto)
    ensures Moved(p, Push) !! Moved(p, Pull)
  {
  }
}
