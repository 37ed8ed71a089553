/**
 One peer on its own: the session as a sequential program that reads a given stream of messages. In every interleaving
 of two peers each of them computes what its sequential program computes from the other one's messages.
 */
module SessionStreams {
  import opened Results
  import opened Transfer
  import opened Negotiation
  import opened ChainCatalogue
  import opened Session
  import opened SessionResults

  datatype Ran = Ran(peer: Peer, out: seq<Message>, rest: seq<Message>)

  function After(out: seq<Message>, r: Ran): Ran {
    r.(out := out + r.out)
  }

  /** The peer carries out all its tasks on a stream that ends after inbox. */
  ghost function RunAll(p: Peer, inbox: seq<Message>, plan: Plan): Ran
    decreases Handshakes(p.todo), Transfers(p.todo), |inbox|, PutCount(p.todo)
  {
    if p.todo == [] then Ran(p, [], inbox)
    else
      var m := NextMessage(p, inbox);
      var e := Act(p, m, plan);
      ActCounts(p, m, plan);
      After(e.out, RunAll(e.peer, Unread(p, inbox), plan))
  }

  lemma RunStep(p: Peer, inbox: seq<Message>, plan: Plan)
    requires p.todo != []
    ensures var e := Act(p, NextMessage(p, inbox), plan);
            RunAll(p, inbox, plan) == After(e.out, RunAll(e.peer, Unread(p, inbox), plan))
  {
    hide Act, Handshakes, Transfers, PutCount;
  }

  lemma AfterAfter(a: seq<Message>, b: seq<Message>, r: Ran)
    ensures After(a, After(b, r)) == After(a + b, r) && After([], r) == r
  {
    assert a + (b + r.out) == (a + b) + r.out;
  }

  // ----- every interleaving agrees with the sequential programs -----

  /** The steps of a run from state k on, where plans pi and pr are used. */
  ghost predicate UsesPlans(run: seq<Sys>, k: nat, pi: Plan, pr: Plan) {
    forall j | k < j < |run| :: InitiatorStep(run[j - 1], run[j], pi) || ResponderStep(run[j - 1], run[j], pr)
  }

  lemma {:induction false} FromHere(run: seq<Sys>, k: nat, pi: Plan, pr: Plan) returns (fromI: seq<Message>, fromR: seq<Message>)
    requires k < |run| && UsesPlans(run, k, pi, pr) && Done(run[|run| - 1])
    ensures var last := run[|run| - 1];
            && RunAll(run[k].i, run[k].toI + fromR, pi) == Ran(last.i, fromI, last.toI)
            && RunAll(run[k].r, run[k].toR + fromI, pr) == Ran(last.r, fromR, last.toR)
    decreases |run| - k
  {
    hide Act, InitiatorStep, ResponderStep, RunAll;
    var s := run[k];
    if k == |run| - 1 {
      fromI, fromR := [], [];
      RunDone(s.i, s.toI, pi);
      RunDone(s.r, s.toR, pr);
      assert s.toI + [] == s.toI && s.toR + [] == s.toR;
    } else {
      var t := run[k + 1];
      var laterI, laterR := FromHere(run, k + 1, pi, pr);
      assert InitiatorStep(run[k + 1 - 1], run[k + 1], pi) || ResponderStep(run[k + 1 - 1], run[k + 1], pr);
      if InitiatorStep(s, t, pi) {
        fromI := InitiatorFirst(s, t, pi, pr, run[|run| - 1], laterI, laterR);
        fromR := laterR;
      } else {
        fromR := ResponderFirst(s, t, pi, pr, run[|run| - 1], laterI, laterR);
        fromI := laterI;
      }
    }
  }

  lemma RunDone(p: Peer, inbox: seq<Message>, plan: Plan)
    requires p.todo == []
    ensures RunAll(p, inbox, plan) == Ran(p, [], inbox)
  {
  }

  /** One step of a peer whose later messages are known to be more; none come if the other side has returned. */
  lemma StepThenRest(p: Peer, inbox: seq<Message>, more: seq<Message>, closed: bool, plan: Plan)
    requires Enabled(p, inbox, closed) && (closed ==> more == [])
    ensures var e := Act(p, NextMessage(p, inbox), plan);
            RunAll(p, inbox + more, plan) == After(e.out, RunAll(e.peer, Unread(p, inbox) + more, plan))
  {
    hide Act, RunAll;
    RunStep(p, inbox + more, plan);
    if inbox == [] {
      assert inbox + more == more;
    } else {
      assert (inbox + more)[0] == inbox[0] && (inbox + more)[1..] == inbox[1..] + more;
    }
  }

  /** The first step is the initiator's; what follows it is known. */
  lemma InitiatorFirst(s: Sys, t: Sys, pi: Plan, pr: Plan, last: Sys, laterI: seq<Message>, laterR: seq<Message>)
      returns (fromI: seq<Message>)
    requires InitiatorStep(s, t, pi)
    requires RunAll(t.i, t.toI + laterR, pi) == Ran(last.i, laterI, last.toI)
    requires RunAll(t.r, t.toR + laterI, pr) == Ran(last.r, laterR, last.toR)
    ensures RunAll(s.i, s.toI + laterR, pi) == Ran(last.i, fromI, last.toI)
    ensures RunAll(s.r, s.toR + fromI, pr) == Ran(last.r, laterR, last.toR)
  {
    hide Act, RunAll, Chosen;
    var e := Act(s.i, NextMessage(s.i, s.toI), pi);
    fromI := e.out + laterI;
    if s.r.todo == [] {
      RunDone(s.r, t.toR + laterI, pr);
    }
    StepThenRest(s.i, s.toI, laterR, s.r.todo == [], pi);
    assert s.toR + (e.out + laterI) == t.toR + laterI;
  }

  lemma ResponderFirst(s: Sys, t: Sys, pi: Plan, pr: Plan, last: Sys, laterI: seq<Message>, laterR: seq<Message>)
      returns (fromR: seq<Message>)
    requires ResponderStep(s, t, pr)
    requires RunAll(t.i, t.toI + laterR, pi) == Ran(last.i, laterI, last.toI)
    requires RunAll(t.r, t.toR + laterI, pr) == Ran(last.r, laterR, last.toR)
    ensures RunAll(s.r, s.toR + laterI, pr) == Ran(last.r, fromR, last.toR)
    ensures RunAll(s.i, s.toI + fromR, pi) == Ran(last.i, laterI, last.toI)
  {
    hide Act, RunAll, Chosen;
    var e := Act(s.r, NextMessage(s.r, s.toR), pr);
    fromR := e.out + laterR;
    if s.i.todo == [] {
      RunDone(s.i, t.toI + laterR, pi);
    }
    StepThenRest(s.r, s.toR, laterI, s.i.todo == [], pr);
    assert s.toI + (e.out + laterR) == t.toI + laterR;
  }

  // ----- the plans of a run -----

  predicate Negotiating(t: Task) {
    t.AwaitCatalogue? || t.AwaitHello?
  }

  predicate NoneNegotiating(todo: seq<Task>) {
    forall t | t in todo :: !Negotiating(t)
  }

  /** A peer negotiates at most once. */
  predicate Settled(p: Peer) {
    p.plan.Some? ==> NoneNegotiating(p.todo)
  }

  lemma SettledPlan(p: Peer, m: Option<Message>, plan: Plan)
    requires p.todo != []
    ensures var q := Act(p, m, plan).peer;
            && (q.plan == p.plan || (Negotiating(p.todo[0]) && q.plan == Some(plan)))
            && (q.plan == p.plan || q.plan == Some(plan))
    ensures Negotiating(p.todo[0]) && m.Some? && m.value.CatalogueMsg? ==> Act(p, m, plan).peer.plan == Some(plan)
    ensures !(Negotiating(p.todo[0]) && m.Some? && m.value.CatalogueMsg?) ==> forall other :: Act(p, m, other) == Act(p, m, plan)
  {
    hide Outgoing, Agree, Received, Puts, InitiatorTasks, ResponderTasks;
  }

  lemma ListsSettled(messages: seq<Message>, plan: Plan)
    ensures NoneNegotiating(Puts(messages))
    ensures NoneNegotiating(InitiatorTasks(plan)) && NoneNegotiating(ResponderTasks(plan))
  {
  }

  lemma SettledParts(a: seq<Task>, b: seq<Task>)
    ensures NoneNegotiating(a) && NoneNegotiating(b) ==> NoneNegotiating(a + b)
    ensures a != [] && NoneNegotiating(a) ==> NoneNegotiating(a[1..]) && !Negotiating(a[0])
  {
    if a != [] {
      assert forall t | t in a[1..] :: t in a;
    }
  }

  lemma SettledStep(p: Peer, m: Option<Message>, plan: Plan)
    requires p.todo != [] && Settled(p)
    ensures Settled(Act(p, m, plan).peer)
  {
    hide Outgoing, Agree, Received, Puts, InitiatorTasks, ResponderTasks, NoneNegotiating;
    var rest := p.todo[1..];
    SettledPlan(p, m, plan);
    SettledParts(p.todo, []);
    ListsSettled([], plan);
    match p.todo[0]
    case SendVault(v) =>
      var o := Outgoing(p.host, p.dirs, v);
      ListsSettled(o.messages, plan);
      SettledParts(Puts(o.messages), rest);
    case AwaitPlan =>
      NothingNegotiates();
      if m.Some? && m.value.PlanMsg? {
        ListsSettled([], m.value.plan);
      }
    case AwaitHello => HelloSettled(Put(CatalogueMsg(p.host.catalogue)));
    case AwaitBegin(v) => HeadSettled(AwaitFile(v, map[], 0), rest);
    case ReceiveVault(v) => HeadSettled(AwaitBegin(v), rest);
    case AwaitFile(v, staged, count) =>
      if m.Some? && m.value.FileMsg? {
        HeadSettled(AwaitFile(v, staged[m.value.name := m.value.data], count + 1), rest);
      }
    case _ =>
  }

  lemma NothingNegotiates()
    ensures NoneNegotiating([])
  {
  }

  lemma HelloSettled(t: Task)
    requires t.Put?
    ensures NoneNegotiating([t, AwaitPlan])
  {
  }

  lemma HeadSettled(t: Task, rest: seq<Task>)
    requires !Negotiating(t)
    ensures NoneNegotiating(rest) ==> NoneNegotiating([t] + rest)
  {
  }

  /** The plan a peer has in the last state, if it has one. */
  function PlanOf(p: Peer): Plan {
    if p.plan.Some? then p.plan.value else Plan([], [])
  }

  lemma StepPlans(s: Sys, t: Sys)
    requires Step(s, t) && Settled(s.i) && Settled(s.r)
    ensures Settled(t.i) && Settled(t.r)
    ensures (s.i.plan.Some? ==> t.i.plan == s.i.plan) && (s.r.plan.Some? ==> t.r.plan == s.r.plan)
    ensures forall pi, pr | (t.i.plan.Some? ==> t.i.plan.value == pi) && (t.r.plan.Some? ==> t.r.plan.value == pr) ::
              InitiatorStep(s, t, pi) || ResponderStep(s, t, pr)
  {
    hide Act, Settled;
    var plan :| InitiatorStep(s, t, plan) || ResponderStep(s, t, plan);
    if InitiatorStep(s, t, plan) {
      SettledStep(s.i, NextMessage(s.i, s.toI), plan);
      SettledPlan(s.i, NextMessage(s.i, s.toI), plan);
      SettledFirst(s.i);
    } else {
      SettledStep(s.r, NextMessage(s.r, s.toR), plan);
      SettledPlan(s.r, NextMessage(s.r, s.toR), plan);
      SettledFirst(s.r);
    }
  }

  lemma SettledFirst(p: Peer)
    requires p.todo != [] && Settled(p)
    ensures Negotiating(p.todo[0]) ==> p.plan.None?
  {
  }

  lemma {:induction false} RunPlans(run: seq<Sys>, k: nat)
    requires k < |run| && forall j | k < j < |run| :: Step(run[j - 1], run[j])
    requires Settled(run[k].i) && Settled(run[k].r)
    ensures var last := run[|run| - 1];
            && UsesPlans(run, k, PlanOf(last.i), PlanOf(last.r))
            && (run[k].i.plan.Some? ==> last.i.plan == run[k].i.plan)
            && (run[k].r.plan.Some? ==> last.r.plan == run[k].r.plan)
    decreases |run| - k
  {
    hide Step, Settled, InitiatorStep, ResponderStep;
    if k < |run| - 1 {
      assert Step(run[k + 1 - 1], run[k + 1]);
      StepPlans(run[k], run[k + 1]);
      RunPlans(run, k + 1);
    }
  }

  /**
   Interleaving does not matter: at the end of any session each peer is in the state that its sequential program
   reaches on exactly the messages that the other one's sequential program sends.
   */
  lemma InterleavingsAgree(hi: Host, hr: Host, run: seq<Sys>) returns (fromI: seq<Message>, fromR: seq<Message>)
    requires SessionRun(hi, hr, run) && Done(run[|run| - 1])
    ensures var last := run[|run| - 1];
            && RunAll(Start(hi, hr).i, fromR, PlanOf(last.i)) == Ran(last.i, fromI, last.toI)
            && RunAll(Start(hi, hr).r, fromI, PlanOf(last.r)) == Ran(last.r, fromR, last.toR)
  {
    hide Act, RunAll, Step, UsesPlans;
    RunPlans(run, 0);
    fromI, fromR := FromHere(run, 0, PlanOf(run[|run| - 1].i), PlanOf(run[|run| - 1].r));
    assert [] + fromR == fromR && [] + fromI == fromI;
  }
}
