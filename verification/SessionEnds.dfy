/**
 How sessions of any two peers end (internal/sync/service.go:486-710): the exact condition under which a session
 finishes, and when its peers wait for each other instead.
 */
module SessionEnds {
  import opened Results
  import opened Negotiation
  import opened ChainCatalogue
  import opened Convergence
  import opened Session
  import opened SessionSafety
  import opened SessionRuns
  import opened SessionResults
  import opened SessionStreams
  import opened SessionBlocking

  function PushNames(p: Plan): seq<string> {
    Toward(p.auto, Push)
  }

  function PullNames(p: Plan): seq<string> {
    Toward(p.auto, Pull)
  }

  /** The receives of the named vaults, on a stream that is still open. */
  function OnOpen(names: seq<string>, stream: seq<Message>): Drained {
    Drain(ReceiveTasks(names), stream)
  }

  /**
   The plans disagree; or the responder's receives run out of messages but the initiator's need none; or the responder's
   receives leave a message, which it takes for the completion; or the initiator's receives do not run out.
   */
  ghost predicate Finishes(hi: Host, hr: Host, p: Plan, q: Plan) {
    Agree(p, q) ==>
      match OnOpen(PushNames(p), SentBy(hi, PushNames(p)))
      case Starved => !OnOpen(PullNames(p), []).Starved?
      case Left(rest) => rest != [] || !OnOpen(PullNames(p), SentBy(hr, PullNames(p))).Starved?
  }

  /** The transfer phase, as long as neither peer has returned. */
  ghost predicate UnderWay(hi: Host, hr: Host, s: Sys) {
    && s.i.plan.Some? && s.r.plan.Some? && s.i.todo != [] && s.r.todo != []
    && var p := s.i.plan.value;
       var r := Accepting(s.r, p);
       var lead := Lead(s.r, p);
       var coming := s.toR + Issues(s.i.todo, hi);
       && Plans(hi, hr, p, s.r.plan.value) && (s.r.todo != [AwaitPlan] ==> Agree(p, s.r.plan.value))
       && Pushing(s.i.todo) && Taking(r.todo)
       && EndsWith(s.i.todo, Put(CompleteMsg)) && EndsWith(r.todo, AwaitComplete)
       && Tame(s.i) && Tame(r)
       && lead <= coming
       && Drain(r.todo, coming[|lead|..]) == OnOpen(PushNames(p), SentBy(hi, PushNames(p)))
       && Drain(s.i.todo, s.toI + Issues(r.todo, hr)) == OnOpen(PullNames(p), SentBy(hr, PullNames(p)))
       && (Receiving(r.todo[0]) ==> s.toI == [] && Drain(s.i.todo, []) == OnOpen(PullNames(p), []))
  }

  /** One peer has returned, and the session is bound to finish. */
  ghost predicate Ending(hi: Host, hr: Host, s: Sys) {
    && s.i.plan.Some? && s.r.plan.Some? && (s.i.todo == [] || s.r.todo == [])
    && Plans(hi, hr, s.i.plan.value, s.r.plan.value)
    && Finishes(hi, hr, s.i.plan.value, s.r.plan.value)
  }

  ghost predicate Fate(hi: Host, hr: Host, s: Sys) {
    && s.i.host == hi && s.r.host == hr && Settled(s.i) && Settled(s.r)
    && (Greeting(hi, hr, s) || UnderWay(hi, hr, s) || Ending(hi, hr, s))
  }

  // ----- the start of the transfer phase -----

  lemma {:induction false} NoReceives(names: seq<string>, t: Task)
    requires !Receiving(t)
    ensures forall u | u in SendTasks(names) + [t] :: !Receiving(u)
  {
  }

  lemma ListsDrain(p: Plan, stream: seq<Message>)
    ensures Drain(ResponderTasks(p), stream) == OnOpen(PushNames(p), stream)
    ensures Drain(InitiatorTasks(p), stream) == OnOpen(PullNames(p), stream)
  {
    hide Drain;
    var pushes, pulls := PushNames(p), PullNames(p);
    var answers := SendTasks(pulls) + [AwaitComplete];
    DrainThen(ReceiveTasks(pushes), answers, stream);
    NoReceives(pulls, AwaitComplete);
    var d := Drain(ReceiveTasks(pushes), stream);
    if d.Left? {
      DrainOuts(answers, d.rest);
    }
    var receives := ReceiveTasks(pulls) + [Put(CompleteMsg)];
    assert InitiatorTasks(p) == ([Put(PlanMsg(p))] + SendTasks(pushes)) + receives;
    OutsOnly(p);
    DrainOuts([Put(PlanMsg(p))] + SendTasks(pushes), stream);
    DrainThen([Put(PlanMsg(p))] + SendTasks(pushes), receives, stream);
    DrainThen(ReceiveTasks(pulls), [Put(CompleteMsg)], stream);
    var e := Drain(ReceiveTasks(pulls), stream);
    if e.Left? {
      DrainOuts([Put(CompleteMsg)], e.rest);
    }
  }

  lemma OutsOnly(p: Plan)
    ensures forall u | u in [Put(PlanMsg(p))] + SendTasks(PushNames(p)) :: !Receiving(u)
  {
  }

  lemma ListsIssue(p: Plan, hi: Host, hr: Host)
    ensures Issues(InitiatorTasks(p), hi) == [PlanMsg(p)] + SentBy(hi, PushNames(p))
    ensures Issues(ResponderTasks(p), hr) == SentBy(hr, PullNames(p))
    ensures EndsWith(InitiatorTasks(p), Put(CompleteMsg)) && EndsWith(ResponderTasks(p), AwaitComplete)
  {
    hide Issues, SentBy;
    var pushes, pulls := PushNames(p), PullNames(p);
    var receives := ReceiveTasks(pulls) + [Put(CompleteMsg)];
    IssuesHead(Put(PlanMsg(p)), SendTasks(pushes) + receives, hi);
    IssuesThen(SendTasks(pushes), receives, hi);
    IssuesThen(ReceiveTasks(pulls), [Put(CompleteMsg)], hi);
    IssuesOfSends(pushes, hi);
    IssuesOfReceives(pulls, hi);
    LastIssues(hi);
    IssuesThen(ReceiveTasks(pushes), SendTasks(pulls) + [AwaitComplete], hr);
    IssuesThen(SendTasks(pulls), [AwaitComplete], hr);
    IssuesOfSends(pulls, hr);
    IssuesOfReceives(pushes, hr);
    LastIssues(hr);
  }

  lemma LastIssues(h: Host)
    ensures Issues([Put(CompleteMsg)], h) == [] && Issues([AwaitComplete], h) == [] && Issues([], h) == []
  {
  }

  lemma GetsUnderWay(hi: Host, hr: Host, t: Sys)
    requires t.i.plan.Some? && t.r.plan.Some? && Plans(hi, hr, t.i.plan.value, t.r.plan.value)
    requires t.i == Fresh(hi, InitiatorTasks(t.i.plan.value)).(remote := Some(hr.catalogue), plan := t.i.plan)
    requires t.r == Greeted(hr, hi, t.r.plan.value, [AwaitPlan]) && t.toR == [] && t.toI == []
    ensures UnderWay(hi, hr, t)
  {
    hide Drain, Issues, SentBy, Pushing, Taking, EndsWith, InitiatorTasks, ResponderTasks, IsPlan, Moved, Sends, Receives, Whole, OnOpen;
    var p := t.i.plan.value;
    PlanMoved(hi.catalogue, hr.catalogue, hi.strict, p);
    PlanTasks(p, hi, hr);
    ListsIssue(p, hi, hr);
    ListsDrain(p, SentBy(hi, PushNames(p)));
    ListsDrain(p, SentBy(hr, PullNames(p)));
    ListsDrain(p, []);
    PlansShape(p);
    NotEmpty(p);
    var lead, coming := [PlanMsg(p)], t.toR + Issues(t.i.todo, hi);
    assert coming == lead + SentBy(hi, PushNames(p)) && coming[1..] == SentBy(hi, PushNames(p));
    assert t.toI + Issues(ResponderTasks(p), hr) == SentBy(hr, PullNames(p));
  }

  lemma NotEmpty(p: Plan)
    ensures InitiatorTasks(p) != [] && ResponderTasks(p) != [] && ResponderTasks(p) != [AwaitPlan]
  {
    var rt := ResponderTasks(p);
    assert rt[|rt| - 1] == AwaitComplete;
  }

  // ----- every step -----

  lemma {:induction false} PushingEnds(todo: seq<Task>)
    requires Pushing(todo) && EndsWith(todo, Put(CompleteMsg))
    ensures Receiving(todo[0]) || todo[0].Put? || todo[0].SendVault?
    ensures todo[0] == Put(CompleteMsg) ==> todo == [Put(CompleteMsg)]
  {
  }

  lemma InitiatorUnderWay(hi: Host, hr: Host, s: Sys, t: Sys, plan: Plan)
    requires Fate(hi, hr, s) && UnderWay(hi, hr, s) && Shaped(t) && InitiatorStep(s, t, plan)
    ensures UnderWay(hi, hr, t) || Ending(hi, hr, t)
  {
    hide Drain, Issues, SentBy, Act, Tame, Moves, Pushing, Taking, EndsWith, ResponderTasks, Plans, Agree, Chosen, OnOpen, Settled, Greeting;
    var p := s.i.plan.value;
    var r := Accepting(s.r, p);
    var m := NextMessage(s.i, s.toI);
    PushingEnds(s.i.todo);
    ClosedAlike(s.r, p);
    if s.i.todo == [Put(CompleteMsg)] {
      Completes(hi, hr, s, t, plan);
    } else {
      var stream := s.toI + Issues(r.todo, hr);
      var e := Act(s.i, m, plan);
      assert s.toI != [] ==> stream[0] == s.toI[0] && stream[1..] == s.toI[1..] + Issues(r.todo, hr);
      PeerMoves(s.i, m, plan, stream);
      MovesIs(s.i, e.peer, e.out, stream);
      assert s.toR + (e.out + Issues(e.peer.todo, hi)) == t.toR + Issues(t.i.todo, hi);
      LongEnough(s.i.todo);
      if Receiving(r.todo[0]) {
        PeerMoves(s.i, m, plan, []);
        MovesIs(s.i, e.peer, e.out, []);
      }
      EndsNonempty(t.i.todo);
      PushingStays(t.i.todo);
    }
  }

  lemma MovesIs(p: Peer, q: Peer, out: seq<Message>, stream: seq<Message>)
    requires p.todo != [] && Moves(p, q, out, stream)
    ensures Tame(q) && q.host == p.host && q.plan == p.plan
    ensures Issues(p.todo, p.host) == out + Issues(q.todo, p.host)
    ensures Reads(p.todo[0]) ==> stream != []
    ensures Drain(p.todo, stream) == Drain(q.todo, if Reads(p.todo[0]) then stream[1..] else stream)
    ensures Receiving(p.todo[0]) ==> out == []
    ensures forall t | EndsWith(p.todo, t) && |p.todo| > 1 :: EndsWith(q.todo, t)
  {
  }

  lemma LongEnough(todo: seq<Task>)
    requires EndsWith(todo, Put(CompleteMsg)) && todo != [Put(CompleteMsg)]
    ensures |todo| > 1
  {
  }

  lemma EndsNonempty(todo: seq<Task>)
    ensures forall t | EndsWith(todo, t) :: todo != []
  {
  }

  lemma PushingStays(todo: seq<Task>)
    requires InitiatorShape(todo) && EndsWith(todo, Put(CompleteMsg))
    ensures Pushing(todo)
  {
  }

  /** The initiator sends the completion message and returns. */
  lemma Completes(hi: Host, hr: Host, s: Sys, t: Sys, plan: Plan)
    requires UnderWay(hi, hr, s) && s.i.host == hi && s.r.host == hr && s.i.todo == [Put(CompleteMsg)]
    requires InitiatorStep(s, t, plan)
    ensures Ending(hi, hr, t)
  {
    hide Drain, Issues, SentBy, Tame, Pushing, Taking, EndsWith, ResponderTasks, Plans, Agree, Chosen, OnOpen;
    var p := s.i.plan.value;
    var r := Accepting(s.r, p);
    var coming := s.toR + Issues(s.i.todo, hi);
    ClosedAlike(s.r, p);
    if Drain(r.todo, coming[|Lead(s.r, p)|..]).Starved? {
      AnswersNothing(r.todo, coming[|Lead(s.r, p)|..]);
    }
    OnlyPut(s.toI + Issues(r.todo, hr));
    OnlyPut([]);
  }

  lemma OnlyPut(stream: seq<Message>)
    ensures Drain([Put(CompleteMsg)], stream) == Left(stream)
  {
    DrainOuts([Put(CompleteMsg)], stream);
  }

  lemma AnswersNothing(todo: seq<Task>, stream: seq<Message>)
    requires todo != [] && Taking(todo) && Drain(todo, stream).Starved?
    ensures Receiving(todo[0])
  {
    if Answering(todo) {
      AnswersOnly(todo);
      DrainOuts(todo, stream);
    }
  }

  lemma {:induction false} AnswersOnly(todo: seq<Task>)
    requires Answering(todo)
    ensures forall t | t in todo :: !Receiving(t)
  {
    if |todo| > 1 {
      AnswersOnly(todo[1..]);
      assert forall t | t in todo :: t == todo[0] || t in todo[1..];
    }
  }

  lemma ResponderUnderWay(hi: Host, hr: Host, s: Sys, t: Sys, plan: Plan)
    requires Fate(hi, hr, s) && UnderWay(hi, hr, s) && Shaped(s) && Shaped(t) && ResponderStep(s, t, plan)
    ensures UnderWay(hi, hr, t) || Ending(hi, hr, t)
  {
    hide Drain, Issues, SentBy, Act, Tame, Moves, Pushing, Taking, EndsWith, ResponderTasks, Plans, Agree, Chosen, OnOpen, Settled, Greeting;
    var p := s.i.plan.value;
    if s.r.todo == [AwaitPlan] {
      ReadsPlan(hi, hr, s, t, plan);
    } else if s.r.todo[0].AwaitComplete? {
      TakesForCompletion(hi, hr, s, t, plan);
    } else {
      var m := NextMessage(s.r, s.toR);
      var stream := s.toR + Issues(s.i.todo, hi);
      assert stream[0..] == stream;
      var e := Act(s.r, m, plan);
      TakingHead(s.r.todo);
      assert s.toR != [] ==> stream[0] == s.toR[0] && stream[1..] == s.toR[1..] + Issues(s.i.todo, hi);
      PeerMoves(s.r, m, plan, stream);
      MovesIs(s.r, e.peer, e.out, stream);
      assert s.toI + (e.out + Issues(e.peer.todo, hr)) == t.toI + Issues(t.r.todo, hr);
      EndsNonempty(t.r.todo);
      TakingStays(s.r, m, plan);
      assert t.toR + Issues(t.i.todo, hi) == if Reads(s.r.todo[0]) then stream[1..] else stream;
      var coming := t.toR + Issues(t.i.todo, hi);
      assert coming[0..] == coming;
    }
  }

  lemma TakingHead(todo: seq<Task>)
    requires Taking(todo) && EndsWith(todo, AwaitComplete) && !todo[0].AwaitComplete?
    ensures |todo| > 1 && (Receiving(todo[0]) || todo[0].Put? || todo[0].SendVault?) && todo[0] != Put(CompleteMsg)
  {
  }

  lemma TakingStays(p: Peer, m: Option<Message>, plan: Plan)
    requires p.todo != [] && Taking(p.todo) && EndsWith(p.todo, AwaitComplete) && !p.todo[0].AwaitComplete?
    requires ResponderShape(Act(p, m, plan).peer.todo) && EndsWith(Act(p, m, plan).peer.todo, AwaitComplete)
    ensures var todo := Act(p, m, plan).peer.todo;
            && Taking(todo) && todo != [AwaitPlan]
            && (Receiving(todo[0]) ==> Receiving(p.todo[0]))
  {
    hide Outgoing, Puts, Received, ValidName;
    var todo := Act(p, m, plan).peer.todo;
    if !Receiving(p.todo[0]) {
      AnswersOnly(p.todo);
      if p.todo[0].SendVault? {
        PutsReceive(Outgoing(p.host, p.dirs, p.todo[0].vault).messages, p.todo);
      } else {
        assert todo == p.todo[1..] && todo[0] in p.todo;
      }
    }
  }

  lemma PutsReceive(messages: seq<Message>, todo: seq<Task>)
    requires |todo| > 1 && forall t | t in todo :: !Receiving(t)
    ensures !Receiving((Puts(messages) + todo[1..])[0])
  {
    if messages == [] {
      assert (Puts(messages) + todo[1..])[0] == todo[1];
    }
  }

  /** The responder reads the plan: it accepts it, or it returns. */
  lemma ReadsPlan(hi: Host, hr: Host, s: Sys, t: Sys, plan: Plan)
    requires Fate(hi, hr, s) && UnderWay(hi, hr, s) && ResponderStep(s, t, plan) && s.r.todo == [AwaitPlan]
    ensures UnderWay(hi, hr, t) || Ending(hi, hr, t)
  {
    hide Drain, Issues, SentBy, Tame, Pushing, Taking, EndsWith, ResponderTasks, Plans, Agree, Chosen, OnOpen, Settled, Greeting;
    var p := s.i.plan.value;
    var coming := s.toR + Issues(s.i.todo, hi);
    assert s.toR != [] && coming[0] == s.toR[0] && coming[1..] == s.toR[1..] + Issues(s.i.todo, hi);
    assert coming[0] == PlanMsg(p);
    NotEmpty(p);
    if Agree(p, s.r.plan.value) {
      var after := t.toR + Issues(t.i.todo, hi);
      assert Lead(s.r, p) == [PlanMsg(p)] && Lead(t.r, p) == [];
      assert after == coming[1..] && after[0..] == after && t.toI == s.toI;
    }
  }

  /** A message that the receives have left over ends the responder's session. */
  lemma TakesForCompletion(hi: Host, hr: Host, s: Sys, t: Sys, plan: Plan)
    requires Fate(hi, hr, s) && UnderWay(hi, hr, s) && ResponderStep(s, t, plan)
    requires s.r.todo != [AwaitPlan] && s.r.todo[0].AwaitComplete?
    ensures Ending(hi, hr, t)
  {
    hide Drain, Issues, SentBy, Tame, Pushing, ResponderTasks, Plans, Agree, Chosen, OnOpen, Settled, Greeting;
    assert s.r.todo == [AwaitComplete] && t.r.todo == [];
    var coming := s.toR + Issues(s.i.todo, hi);
    assert coming[0..] == coming && coming != [];
    DrainOuts([AwaitComplete], coming);
  }

  lemma EndingStep(hi: Host, hr: Host, s: Sys, t: Sys)
    requires Ending(hi, hr, s) && Step(s, t) && Settled(s.i) && Settled(s.r)
    ensures Ending(hi, hr, t)
  {
    hide Finishes, Plans, Act, Settled, Chosen;
    StepPlans(s, t);
  }

  lemma GreetingStep(hi: Host, hr: Host, s: Sys, t: Sys, plan: Plan)
    requires Fate(hi, hr, s) && Greeting(hi, hr, s) && (InitiatorStep(s, t, plan) || ResponderStep(s, t, plan))
    ensures Greeting(hi, hr, t) || UnderWay(hi, hr, t)
  {
    hide IsPlan, PlanOn, UnderWay, Outgoing, InitiatorTasks, ResponderTasks, OnFile, Agree, Settled, Ending;
    if s.i.todo == [AwaitCatalogue] && InitiatorStep(s, t, plan) {
      GetsUnderWay(hi, hr, t);
    }
  }

  lemma FateStep(hi: Host, hr: Host, s: Sys, t: Sys)
    requires Fate(hi, hr, s) && Shaped(s) && Step(s, t)
    ensures Fate(hi, hr, t) && Shaped(t)
  {
    hide InitiatorStep, ResponderStep, Greeting, UnderWay, Ending, Settled, Shaped;
    StepPlans(s, t);
    StepShaped(s, t);
    StepHosts(s, t);
    var plan :| InitiatorStep(s, t, plan) || ResponderStep(s, t, plan);
    if Greeting(hi, hr, s) {
      GreetingStep(hi, hr, s, t, plan);
    } else if Ending(hi, hr, s) {
      EndingStep(hi, hr, s, t);
    } else if InitiatorStep(s, t, plan) {
      InitiatorUnderWay(hi, hr, s, t, plan);
    } else {
      ResponderUnderWay(hi, hr, s, t, plan);
    }
  }

  lemma StepHosts(s: Sys, t: Sys)
    requires Step(s, t)
    ensures t.i.host == s.i.host && t.r.host == s.r.host
  {
    hide Act;
    var plan :| InitiatorStep(s, t, plan) || ResponderStep(s, t, plan);
    if InitiatorStep(s, t, plan) {
      ErrorsGrow(s.i, NextMessage(s.i, s.toI), plan);
    } else {
      ErrorsGrow(s.r, NextMessage(s.r, s.toR), plan);
    }
  }

  // ----- the end -----

  lemma StartFate(hi: Host, hr: Host)
    ensures Fate(hi, hr, Start(hi, hr)) && Shaped(Start(hi, hr))
  {
  }

  lemma {:induction false} RunFate(hi: Host, hr: Host, run: seq<Sys>)
    requires SessionRun(hi, hr, run)
    ensures Fate(hi, hr, run[|run| - 1]) && Shaped(run[|run| - 1])
  {
    hide Fate, Step, Shaped;
    var m := |run| - 1;
    if m == 0 {
      StartFate(hi, hr);
    } else {
      RunFate(hi, hr, run[..m]);
      assert Step(run[m - 1], run[m]);
      FateStep(hi, hr, run[m - 1], run[m]);
    }
  }

  predicate CanMove(s: Sys) {
    Enabled(s.i, s.toI, s.r.todo == []) || Enabled(s.r, s.toR, s.i.todo == [])
  }

  /** When both peers wait in the transfer phase, their receives have run out for good. */
  lemma BothWaiting(hi: Host, hr: Host, s: Sys)
    requires Fate(hi, hr, s) && UnderWay(hi, hr, s) && !CanMove(s)
    ensures !Finishes(hi, hr, s.i.plan.value, s.r.plan.value)
  {
    hide Drain, SentBy, Tame, Plans, Agree, OnOpen, Settled, Greeting, Ending, Pushing, Taking, ResponderTasks, Issues;
    var p := s.i.plan.value;
    DrainedPusher(s.i.todo, hi);
    ClosedAlike(s.r, p);
    var coming := s.toR + Issues(s.i.todo, hi);
    assert coming == [];
    assert s.r.todo != [AwaitPlan];
    assert coming[0..] == coming;
    assert s.i.todo == [s.i.todo[0]] + s.i.todo[1..] && s.r.todo == [s.r.todo[0]] + s.r.todo[1..];
    DrainHead(s.i.todo[0], s.i.todo[1..], []);
    if Receiving(s.r.todo[0]) {
      DrainHead(s.r.todo[0], s.r.todo[1..], []);
    } else {
      TakingHeads(s.r.todo);
      DrainOuts([AwaitComplete], []);
      LastIssues(hr);
      assert s.toI + Issues(s.r.todo, hr) == [];
    }
  }

  lemma TakingHeads(todo: seq<Task>)
    requires todo != [] && Taking(todo) && EndsWith(todo, AwaitComplete) && Reads(todo[0]) && !Receiving(todo[0])
    ensures todo == [AwaitComplete]
  {
  }

  /** An initiator that waits has sent everything but the completion message. */
  lemma {:induction false} DrainedPusher(todo: seq<Task>, h: Host)
    requires todo != [] && Pushing(todo) && EndsWith(todo, Put(CompleteMsg)) && Reads(todo[0])
    ensures Issues(todo, h) == [] && (todo[0].AwaitBegin? || todo[0].AwaitFile?)
    decreases |todo|
  {
    DrainingIssues(todo, h);
  }

  lemma {:induction false} DrainingIssues(todo: seq<Task>, h: Host)
    requires Draining(todo)
    ensures Issues(todo, h) == []
    decreases |todo|
  {
    if |todo| > 1 {
      DrainingIssues(todo[1..], h);
    } else if |todo| == 1 {
      assert todo == [Put(CompleteMsg)];
    }
  }

  lemma GreetingMoves(hi: Host, hr: Host, s: Sys)
    requires Greeting(hi, hr, s)
    ensures CanMove(s) && !Done(s)
  {
  }

  lemma EndingMoves(hi: Host, hr: Host, s: Sys)
    requires Ending(hi, hr, s) && !CanMove(s)
    ensures Done(s)
  {
  }

  /**
   The exact condition, for any two hosts: a session that can go no further has finished if and only if the condition
   on the plans that the peers have made holds; otherwise both peers wait for a message.
   */
  lemma FinishExact(hi: Host, hr: Host, run: seq<Sys>)
    requires SessionRun(hi, hr, run) && Stuck(run[|run| - 1])
    ensures var s := run[|run| - 1];
            && s.i.plan.Some? && s.r.plan.Some? && Plans(hi, hr, s.i.plan.value, s.r.plan.value)
            && (Done(s) <==> Finishes(hi, hr, s.i.plan.value, s.r.plan.value))
  {
    hide Greeting, UnderWay, Ending, Shaped, Finishes, Plans, CanMove, Settled;
    var s := run[|run| - 1];
    RunFate(hi, hr, run);
    if CanMove(s) {
      CanMoveIs(s);
      var t := SomeStep(s);
    }
    if Greeting(hi, hr, s) {
      GreetingMoves(hi, hr, s);
    } else if UnderWay(hi, hr, s) {
      BothWaiting(hi, hr, s);
      UnderWayIs(hi, hr, s);
    } else {
      EndingMoves(hi, hr, s);
      EndingIs(hi, hr, s);
    }
  }

  lemma CanMoveIs(s: Sys)
    ensures CanMove(s) <==> Enabled(s.i, s.toI, s.r.todo == []) || Enabled(s.r, s.toR, s.i.todo == [])
  {
  }

  lemma UnderWayIs(hi: Host, hr: Host, s: Sys)
    requires UnderWay(hi, hr, s)
    ensures !Done(s) && s.i.plan.Some? && s.r.plan.Some? && Plans(hi, hr, s.i.plan.value, s.r.plan.value)
  {
    hide Plans;
  }

  lemma EndingIs(hi: Host, hr: Host, s: Sys)
    requires Ending(hi, hr, s)
    ensures s.i.plan.Some? && s.r.plan.Some?
    ensures Plans(hi, hr, s.i.plan.value, s.r.plan.value) && Finishes(hi, hr, s.i.plan.value, s.r.plan.value)
  {
    hide Plans, Finishes;
  }
}
