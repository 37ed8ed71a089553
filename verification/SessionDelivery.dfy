/**
 What a session leaves on the two disks and in the two catalogues, vault by vault, for any two hosts
 (internal/sync/service.go:571-583, 683-693 and 835-910): receives commit by position.
 */
module SessionDelivery {
  import opened Results
  import opened FileNames
  import opened Transfer
  import opened Entries
  import opened Negotiation
  import opened ChainCatalogue
  import opened Convergence
  import opened Session
  import opened SessionSafety
  import opened SessionRuns
  import opened SessionResults
  import opened SessionStreams
  import opened SessionBlocking
  import opened SessionEnds
  import opened SessionFinish
  import opened Endpoint

  // ----- the results of the receives that are left -----

  /** What a receive, begun or not, takes from a stream. */
  function TakeIn(t: Task, stream: seq<Message>): Reception
    requires Receiving(t)
  {
    match t
    case ReceiveVault(v) => Receive(v, stream)
    case AwaitBegin(v) =>
      if stream == [] then Reception(None, [])
      else if !stream[0].BeginMsg? then Reception(None, stream[1..])
      else ReceiveFiles(stream[1..], map[])
    case AwaitFile(v, staged, _) => ReceiveFiles(stream, staged)
  }

  function Outcomes(todo: seq<Task>, stream: seq<Message>): seq<Option<Files>> {
    if todo == [] then []
    else if Receiving(todo[0]) then
      var r := TakeIn(todo[0], stream);
      [r.staged] + Outcomes(todo[1..], r.rest)
    else Outcomes(todo[1..], stream)
  }

  function VaultsOf(todo: seq<Task>): seq<string> {
    if todo == [] then [] else (if Receiving(todo[0]) then [todo[0].vault] else []) + VaultsOf(todo[1..])
  }

  lemma OutcomesHead(t: Task, rest: seq<Task>, stream: seq<Message>)
    ensures Receiving(t) ==>
              Outcomes([t] + rest, stream) == [TakeIn(t, stream).staged] + Outcomes(rest, TakeIn(t, stream).rest)
    ensures !Receiving(t) ==> Outcomes([t] + rest, stream) == Outcomes(rest, stream)
    ensures VaultsOf([t] + rest) == (if Receiving(t) then [t.vault] else []) + VaultsOf(rest)
  {
    hide TakeIn;
    assert ([t] + rest)[1..] == rest;
  }

  lemma {:induction false} OutcomesPass(a: seq<Task>, rest: seq<Task>, stream: seq<Message>)
    requires forall t | t in a :: !Receiving(t)
    ensures Outcomes(a + rest, stream) == Outcomes(rest, stream) && VaultsOf(a + rest) == VaultsOf(rest)
    decreases |a|
  {
    hide TakeIn, Outcomes, VaultsOf;
    if a == [] {
      assert a + rest == rest;
    } else {
      assert a[0] in a && forall t | t in a[1..] :: t in a;
      OutcomesPass(a[1..], rest, stream);
      assert a + rest == [a[0]] + (a[1..] + rest);
      OutcomesHead(a[0], a[1..] + rest, stream);
    }
  }

  lemma {:induction false} OutcomesCount(todo: seq<Task>, stream: seq<Message>)
    ensures |Outcomes(todo, stream)| == |VaultsOf(todo)|
    decreases |todo|
  {
    hide TakeIn;
    if todo != [] {
      OutcomesCount(todo[1..], if Receiving(todo[0]) then TakeIn(todo[0], stream).rest else stream);
    }
  }

  lemma {:induction false} OutcomesOfList(names: seq<string>, rest: seq<Task>, stream: seq<Message>)
    requires forall t | t in rest :: !Receiving(t)
    ensures Outcomes(ReceiveTasks(names) + rest, stream) == ReceiveMany(names, stream)
    ensures VaultsOf(ReceiveTasks(names) + rest) == names
    decreases |names|
  {
    hide Receive, Outcomes, VaultsOf;
    if names == [] {
      assert ReceiveTasks(names) + rest == rest == rest + [];
      OutcomesPass(rest, [], stream);
      NoOutcomes(stream);
    } else {
      var more := ReceiveTasks(names[1..]) + rest;
      OutcomesOfList(names[1..], rest, Receive(names[0], stream).rest);
      assert ReceiveTasks(names) + rest == [ReceiveVault(names[0])] + more;
      OutcomesHead(ReceiveVault(names[0]), more, stream);
    }
  }

  lemma NoOutcomes(stream: seq<Message>)
    ensures Outcomes([], stream) == [] && VaultsOf([]) == []
  {
  }

  // ----- one receiver -----

  /** Nothing has been committed for the vault. */
  predicate Untouched(p: Peer, v: string) {
    && (Get(p.dirs, v) == Get(p.host.dirs, v) || (v !in p.host.dirs && Get(p.dirs, v) == Some(map[])))
    && Get(p.catalogue, v) == Get(p.host.catalogue, v)
  }

  /** The peer has what a receive of the vault with this outcome leaves. */
  predicate Landed(p: Peer, src: Host, v: string, outcome: Option<Files>) {
    match outcome
    case None => Untouched(p, v)
    case Some(files) =>
      && Get(p.dirs, v) == Some(files) && v in src.catalogue
      && Get(p.catalogue, v) == Some(Received(Get(p.host.catalogue, v), src.catalogue[v], v, p.host.root))
  }

  /** Vaults that are not to be received are as before. */
  ghost predicate Elsewhere(p: Peer, names: seq<string>) {
    forall v | v !in names ::
      Get(p.dirs, v) == Get(p.host.dirs, v) && Get(p.catalogue, v) == Get(p.host.catalogue, v)
  }

  ghost predicate Account(p: Peer, src: Host, names: seq<string>, outcomes: seq<Option<Files>>, stream: seq<Message>, c: nat) {
    && p.remote == Some(src.catalogue) && Distinct(names) && |outcomes| == |names| && c <= |names| && Elsewhere(p, names)
    && (forall i | 0 <= i < |names| :: names[i] in src.catalogue)
    && names[c..] == VaultsOf(p.todo) && outcomes[c..] == Outcomes(p.todo, stream)
    && (forall i | 0 <= i < c :: Landed(p, src, names[i], outcomes[i]))
    && (forall i | c <= i < |names| :: Untouched(p, names[i]))
  }

  /** A task that receives nothing. */
  lemma PassAccount(p: Peer, m: Option<Message>, plan: Plan, src: Host, names: seq<string>, outcomes: seq<Option<Files>>,
                    stream: seq<Message>, c: nat)
    requires p.todo != [] && (p.todo[0].Put? || p.todo[0].SendVault? || p.todo[0].AwaitComplete?)
    requires Account(p, src, names, outcomes, stream, c)
    ensures Account(Act(p, m, plan).peer, src, names, outcomes, stream, c)
  {
    hide Outcomes, VaultsOf, Landed, Untouched, Outgoing;
    var t, rest := p.todo[0], p.todo[1..];
    var q := Act(p, m, plan).peer;
    assert p.todo == [t] + rest;
    OutcomesHead(t, rest, stream);
    if t.SendVault? {
      OutcomesPass(Puts(Outgoing(p.host, p.dirs, t.vault).messages), rest, stream);
    }
    LandedAlike(p, q, src, names, outcomes);
  }

  lemma LandedAlike(p: Peer, q: Peer, src: Host, names: seq<string>, outcomes: seq<Option<Files>>)
    requires q.dirs == p.dirs && q.catalogue == p.catalogue && q.host == p.host && |outcomes| == |names|
    ensures forall i | 0 <= i < |names| && Landed(p, src, names[i], outcomes[i]) :: Landed(q, src, names[i], outcomes[i])
    ensures forall i | 0 <= i < |names| && Untouched(p, names[i]) :: Untouched(q, names[i])
    ensures Elsewhere(p, names) ==> Elsewhere(q, names)
  {
  }

  /** A receive that goes on with the same vault. */
  lemma OnAccount(p: Peer, q: Peer, src: Host, names: seq<string>, outcomes: seq<Option<Files>>, stream: seq<Message>, c: nat,
                  t: Task, left: seq<Message>)
    requires p.todo != [] && Receiving(p.todo[0]) && Receiving(t) && t.vault == p.todo[0].vault
    requires Account(p, src, names, outcomes, stream, c)
    requires q == Replace(p, [t]) || q == Replace(p, [t]).(dirs := MadeDir(p.dirs, t.vault))
    requires TakeIn(p.todo[0], stream) == TakeIn(t, left)
    ensures Account(q, src, names, outcomes, left, c)
  {
    hide Outcomes, VaultsOf, TakeIn, Landed, Untouched;
    var rest := p.todo[1..];
    assert p.todo == [p.todo[0]] + rest && q.todo == [t] + rest;
    OutcomesHead(p.todo[0], rest, stream);
    OutcomesHead(t, rest, left);
    assert c < |names| && names[c] == names[c..][0];
    ElsewhereLanded(p, q, src, names, outcomes, c);
    MadeUntouched(p, q, names[c]);
  }

  lemma ElsewhereLanded(p: Peer, q: Peer, src: Host, names: seq<string>, outcomes: seq<Option<Files>>, c: nat)
    requires q.host == p.host && |outcomes| == |names| && Distinct(names) && c < |names|
    requires forall v | v != names[c] :: Get(q.dirs, v) == Get(p.dirs, v) && Get(q.catalogue, v) == Get(p.catalogue, v)
    ensures forall i | 0 <= i < |names| && i != c && Landed(p, src, names[i], outcomes[i]) :: Landed(q, src, names[i], outcomes[i])
    ensures forall i | 0 <= i < |names| && i != c && Untouched(p, names[i]) :: Untouched(q, names[i])
    ensures Elsewhere(p, names) ==> Elsewhere(q, names)
  {
    hide Get;
    assert names[c] in names;
    forall i | 0 <= i < |names| && i != c
      ensures names[i] != names[c]
    {
      assert if i < c then names[i] != names[c] else names[c] != names[i];
    }
  }

  lemma MadeUntouched(p: Peer, q: Peer, v: string)
    requires Untouched(p, v) && q.host == p.host && q.catalogue == p.catalogue
    requires q.dirs == p.dirs || q.dirs == MadeDir(p.dirs, v)
    ensures Untouched(q, v)
  {
  }

  /** A receive that ends, with or without a commit. */
  lemma EndAccount(p: Peer, q: Peer, src: Host, names: seq<string>, outcomes: seq<Option<Files>>, stream: seq<Message>, c: nat)
    requires p.todo != [] && Receiving(p.todo[0]) && Account(p, src, names, outcomes, stream, c)
    requires var r := TakeIn(p.todo[0], stream);
             q == if r.staged.None? then Fail(p) else Commit(p, p.todo[0].vault, r.staged.value)
    ensures Account(q, src, names, outcomes, TakeIn(p.todo[0], stream).rest, c + 1)
  {
    hide Outcomes, VaultsOf, TakeIn, Landed, Untouched, Received;
    var t, rest := p.todo[0], p.todo[1..];
    var r := TakeIn(t, stream);
    assert p.todo == [t] + rest;
    OutcomesHead(t, rest, stream);
    assert c < |names| && names[c] == names[c..][0] == t.vault && outcomes[c] == outcomes[c..][0] == r.staged;
    assert names[c + 1..] == names[c..][1..] && outcomes[c + 1..] == outcomes[c..][1..];
    ElsewhereLanded(p, q, src, names, outcomes, c);
    EndLanded(p, q, src, names[c], r.staged);
  }

  lemma EndLanded(p: Peer, q: Peer, src: Host, v: string, outcome: Option<Files>)
    requires p.todo != [] && p.remote == Some(src.catalogue) && v in src.catalogue && Untouched(p, v)
    requires q == if outcome.None? then Fail(p) else Commit(p, v, outcome.value)
    ensures Landed(q, src, v, outcome) && q.remote == p.remote
  {
    hide Received;
  }

  ghost predicate Accounted(p: Peer, src: Host, names: seq<string>, outcomes: seq<Option<Files>>, stream: seq<Message>) {
    exists c: nat :: Account(p, src, names, outcomes, stream, c)
  }

  /** A step of a receiver that reads the first message of the stream, or finds the stream ended. */
  lemma AccountStep(p: Peer, m: Option<Message>, plan: Plan, src: Host, names: seq<string>, outcomes: seq<Option<Files>>,
                    stream: seq<Message>)
    requires p.todo != [] && Accounted(p, src, names, outcomes, stream)
    requires TransferTask(p.todo[0]) || p.todo[0].AwaitComplete?
    requires Receiving(p.todo[0]) && Reads(p.todo[0]) ==> m == if stream == [] then None else Some(stream[0])
    ensures Accounted(Act(p, m, plan).peer, src, names, outcomes,
                      if Receiving(p.todo[0]) && Reads(p.todo[0]) && stream != [] then stream[1..] else stream)
  {
    hide Account, Outcomes, VaultsOf, Received, ValidName;
    var c: nat :| Account(p, src, names, outcomes, stream, c);
    var q := Act(p, m, plan).peer;
    var t := p.todo[0];
    match t
    case ReceiveVault(v) =>
      if ValidName(v) {
        OnAccount(p, q, src, names, outcomes, stream, c, AwaitBegin(v), stream);
      } else {
        EndAccount(p, q, src, names, outcomes, stream, c);
      }
    case AwaitBegin(v) =>
      if stream != [] && stream[0].BeginMsg? {
        OnAccount(p, q, src, names, outcomes, stream, c, AwaitFile(v, map[], 0), stream[1..]);
      } else {
        EndAccount(p, q, src, names, outcomes, stream, c);
      }
    case AwaitFile(v, staged, count) =>
      if stream != [] && Stages(stream[0]) {
        var next := AwaitFile(v, staged[stream[0].name := stream[0].data], count + 1);
        OnAccount(p, q, src, names, outcomes, stream, c, next, stream[1..]);
      } else {
        EndAccount(p, q, src, names, outcomes, stream, c);
      }
    case _ => PassAccount(p, m, plan, src, names, outcomes, stream, c);
  }

  // ----- both sides -----

  /** All messages on their way to the responder or still to be sent to it, the completion message included. */
  ghost function Coming(s: Sys, hi: Host): seq<Message> {
    s.toR + Issues(s.i.todo, hi) + (if s.i.todo == [] then [] else [CompleteMsg])
  }

  /** The responder's receives run out, so it never sends anything to an initiator that waits. */
  ghost predicate NeverSends(hi: Host, p: Plan) {
    OnOpen(PushNames(p), SentBy(hi, PushNames(p))).Starved?
  }

  ghost function PulledStream(hi: Host, hr: Host, p: Plan): seq<Message> {
    if NeverSends(hi, p) then [] else SentBy(hr, PullNames(p))
  }

  ghost function ToInitiator(s: Sys, hi: Host, hr: Host, p: Plan): seq<Message> {
    if NeverSends(hi, p) then [] else s.toI + Issues(Accepting(s.r, p).todo, hr)
  }

  /** What becomes of each pushed and of each pulled vault, in the order of the plan. */
  ghost function PushOutcomes(hi: Host, p: Plan): seq<Option<Files>> {
    ReceiveMany(PushNames(p), SentBy(hi, PushNames(p)) + [CompleteMsg])
  }

  ghost function PullOutcomes(hi: Host, hr: Host, p: Plan): seq<Option<Files>> {
    ReceiveMany(PullNames(p), PulledStream(hi, hr, p))
  }

  predicate Plain(todo: seq<Task>) {
    forall t | t in todo :: TransferTask(t) || t.AwaitComplete?
  }

  ghost predicate Told(hi: Host, hr: Host, s: Sys, p: Plan) {
    && Plain(s.i.todo) && Plain(Accepting(s.r, p).todo)
    && Lead(s.r, p) <= Coming(s, hi)
    && Accounted(Accepting(s.r, p), hi, PushNames(p), PushOutcomes(hi, p), Coming(s, hi)[|Lead(s.r, p)|..])
    && Accounted(s.i, hr, PullNames(p), PullOutcomes(hi, hr, p), ToInitiator(s, hi, hr, p))
    && (NeverSends(hi, p) && s.i.todo != [] ==> s.r.todo != [])
  }

  /** The peers have agreed on plans, or will. */
  ghost predicate InAgreement(s: Sys) {
    s.i.plan.Some? && s.r.plan.Some? && Agree(s.i.plan.value, s.r.plan.value)
  }

  lemma {:induction false} PlainStays(p: Peer, m: Option<Message>, plan: Plan)
    requires p.todo != [] && Plain(p.todo)
    ensures Plain(Act(p, m, plan).peer.todo)
  {
    hide Outgoing, Received, ValidName;
    assert p.todo[0] in p.todo && forall t | t in p.todo[1..] :: t in p.todo;
  }

  lemma PlainShape(todo: seq<Task>)
    requires Plain(todo)
    ensures InitiatorShape(todo) ==> Pushing(todo)
    ensures ResponderShape(todo) ==> Taking(todo)
  {
    if |todo| == 2 {
      assert todo[1] in todo;
    } else if |todo| == 1 {
      assert todo[0] in todo;
    }
  }

  lemma PlainHead(todo: seq<Task>)
    requires Plain(todo) && todo != []
    ensures TransferTask(todo[0]) || todo[0].AwaitComplete?
  {
    assert todo[0] in todo;
  }

  /** A receiver that has returned no longer depends on the stream. */
  lemma AccountEnd(p: Peer, src: Host, names: seq<string>, outcomes: seq<Option<Files>>, a: seq<Message>, b: seq<Message>)
    requires Accounted(p, src, names, outcomes, a) && p.todo == []
    ensures Accounted(p, src, names, outcomes, b)
  {
    hide Landed, Untouched, Elsewhere;
    var c: nat :| Account(p, src, names, outcomes, a, c);
    NoOutcomes(a);
    NoOutcomes(b);
    assert Account(p, src, names, outcomes, b, c);
  }

  lemma NoIssues(h: Host)
    ensures Issues([], h) == []
  {
  }

  /** Under way, a step of the initiator does not change what is coming to the responder. */
  lemma ComingStays(hi: Host, hr: Host, s: Sys, t: Sys, plan: Plan)
    requires Fate(hi, hr, s) && UnderWay(hi, hr, s) && InitiatorStep(s, t, plan)
    ensures Coming(t, hi) == Coming(s, hi)
  {
    hide Drain, Issues, SentBy, Act, Tame, Moves, Pushing, Taking, EndsWith, ResponderTasks, Plans, Agree, Chosen, OnOpen, Settled, Greeting;
    var p := s.i.plan.value;
    var r := Accepting(s.r, p);
    var m := NextMessage(s.i, s.toI);
    PushingEnds(s.i.todo);
    ClosedAlike(s.r, p);
    if s.i.todo == [Put(CompleteMsg)] {
      LastIssues(hi);
      LastAct(s.i, m, plan);
    } else {
      var stream := s.toI + Issues(r.todo, hr);
      var e := Act(s.i, m, plan);
      assert s.toI != [] ==> stream[0] == s.toI[0];
      PeerMoves(s.i, m, plan, stream);
      MovesIs(s.i, e.peer, e.out, stream);
      LongEnough(s.i.todo);
      EndsNonempty(t.i.todo);
      assert s.toR + (e.out + Issues(e.peer.todo, hi)) == t.toR + Issues(t.i.todo, hi);
    }
  }

  lemma LastAct(p: Peer, m: Option<Message>, plan: Plan)
    requires p.todo == [Put(CompleteMsg)]
    ensures Act(p, m, plan) == Effect(p.(todo := []), [CompleteMsg])
  {
  }

  lemma InitiatorTold(hi: Host, hr: Host, s: Sys, t: Sys, plan: Plan, p: Plan)
    requires Fate(hi, hr, s) && Shaped(s) && InAgreement(s) && s.i.plan == Some(p)
    requires Told(hi, hr, s, p) && InitiatorStep(s, t, plan)
    ensures Told(hi, hr, t, p)
  {
    hide Drain, Issues, SentBy, Act, Tame, Moves, EndsWith, ResponderTasks, Plans, Agree, Chosen, OnOpen, Settled, Greeting, UnderWay,
      Ending, Accounted, Plain, ReceiveMany, InitiatorShape, ResponderShape;
    var m := NextMessage(s.i, s.toI);
    ClosedAlike(s.r, p);
    PlainHead(s.i.todo);
    PlainStays(s.i, m, plan);
    if NeverSends(hi, p) {
      NeverReads(hi, hr, s, p);
    }
    var stream := ToInitiator(s, hi, hr, p);
    NoIssues(hr);
    var later := Issues(Accepting(s.r, p).todo, hr);
    assert s.toI != [] ==> (s.toI + later)[0] == s.toI[0] && (s.toI + later)[1..] == s.toI[1..] + later;
    AccountStep(s.i, m, plan, hr, PullNames(p), PullOutcomes(hi, hr, p), stream);
    NoCompletion(s.i.todo);
    if s.r.todo == [] {
      AccountEnd(Accepting(s.r, p), hi, PushNames(p), PushOutcomes(hi, p), Coming(s, hi)[|Lead(s.r, p)|..], Coming(t, hi)[|Lead(t.r, p)|..]);
    } else {
      StillUnderWay(hi, hr, s);
      ComingStays(hi, hr, s, t, plan);
    }
  }

  lemma NoCompletion(todo: seq<Task>)
    requires todo != [] && Plain(todo) && InitiatorShape(todo)
    ensures !todo[0].AwaitComplete?
  {
    PlainShape(todo);
  }

  lemma StillUnderWay(hi: Host, hr: Host, s: Sys)
    requires Fate(hi, hr, s) && s.i.todo != [] && s.r.todo != [] && s.i.plan.Some?
    ensures UnderWay(hi, hr, s)
  {
    hide UnderWay, IsPlan;
  }

  /** While the responder's receives are bound to run out, nothing reaches the initiator. */
  lemma NeverReads(hi: Host, hr: Host, s: Sys, p: Plan)
    requires Fate(hi, hr, s) && s.i.plan == Some(p) && s.i.todo != [] && s.r.todo != [] && NeverSends(hi, p)
    ensures s.toI == [] && Receiving(Accepting(s.r, p).todo[0])
  {
    hide Drain, Issues, SentBy, Tame, EndsWith, ResponderTasks, Plans, Agree, OnOpen, Settled, Greeting, Ending, Taking, Pushing;
    StillUnderWay(hi, hr, s);
    ClosedAlike(s.r, p);
    var r := Accepting(s.r, p);
    var coming := s.toR + Issues(s.i.todo, hi);
    AnswersNothing(r.todo, coming[|Lead(s.r, p)|..]);
  }

  lemma ResponderTold(hi: Host, hr: Host, s: Sys, t: Sys, plan: Plan, p: Plan)
    requires Fate(hi, hr, s) && Shaped(s) && InAgreement(s) && s.i.plan == Some(p)
    requires Told(hi, hr, s, p) && ResponderStep(s, t, plan)
    ensures Told(hi, hr, t, p)
  {
    hide Drain, Issues, SentBy, Act, Tame, Moves, EndsWith, ResponderTasks, Plans, Agree, Chosen, OnOpen, Settled, Greeting, UnderWay,
      Ending, Accounted, Plain, ReceiveMany, InitiatorShape, ResponderShape, Account;
    if s.r.todo == [AwaitPlan] {
      AcceptsTold(hi, hr, s, t, plan, p);
    } else if s.r.todo[0].AwaitComplete? {
      CompletionTold(hi, hr, s, t, plan, p);
    } else {
      var m := NextMessage(s.r, s.toR);
      var coming := Coming(s, hi);
      assert coming[0..] == coming && (s.toR != [] ==> coming[0] == s.toR[0]);
      NoIssues(hi);
      PlainHead(s.r.todo);
      PlainStays(s.r, m, plan);
      AccountStep(s.r, m, plan, hi, PushNames(p), PushOutcomes(hi, p), coming);
      NotWaitingPlan(t.r.todo);
      var left := Coming(t, hi);
      assert left[0..] == left;
      assert left == if Reads(s.r.todo[0]) && coming != [] then coming[1..] else coming;
      SendsKept(hi, hr, s, t, plan, p);
    }
  }

  lemma NotWaitingPlan(todo: seq<Task>)
    requires Plain(todo)
    ensures todo != [AwaitPlan]
  {
    if |todo| == 1 {
      assert todo[0] in todo;
    }
  }

  /** What is coming to the initiator does not change when the responder sends it. */
  lemma SendsKept(hi: Host, hr: Host, s: Sys, t: Sys, plan: Plan, p: Plan)
    requires Fate(hi, hr, s) && Shaped(s) && InAgreement(s) && s.i.plan == Some(p) && Told(hi, hr, s, p)
    requires ResponderStep(s, t, plan) && s.r.todo != [AwaitPlan] && !s.r.todo[0].AwaitComplete?
    requires Plain(t.r.todo)
    ensures Accounted(t.i, hr, PullNames(p), PullOutcomes(hi, hr, p), ToInitiator(t, hi, hr, p))
    ensures NeverSends(hi, p) && t.i.todo != [] ==> t.r.todo != []
  {
    hide Drain, Issues, SentBy, Act, Tame, Moves, EndsWith, ResponderTasks, Plans, Agree, Chosen, OnOpen, Settled, Greeting,
      Ending, Accounted, Plain, ReceiveMany, InitiatorShape, ResponderShape, Account, Taking, Pushing;
    if s.i.todo == [] {
      AccountEnd(s.i, hr, PullNames(p), PullOutcomes(hi, hr, p), ToInitiator(s, hi, hr, p), ToInitiator(t, hi, hr, p));
    } else {
      StillUnderWay(hi, hr, s);
      var m := NextMessage(s.r, s.toR);
      var stream := s.toR + Issues(s.i.todo, hi);
      assert stream[0..] == stream && (s.toR != [] ==> stream[0] == s.toR[0]);
      var e := Act(s.r, m, plan);
      TakingHead(s.r.todo);
      PeerMoves(s.r, m, plan, stream);
      MovesIs(s.r, e.peer, e.out, stream);
      EndsNonempty(t.r.todo);
      NotWaitingPlan(t.r.todo);
      assert s.toI + (e.out + Issues(e.peer.todo, hr)) == t.toI + Issues(t.r.todo, hr);
    }
  }

  lemma AcceptsTold(hi: Host, hr: Host, s: Sys, t: Sys, plan: Plan, p: Plan)
    requires Fate(hi, hr, s) && InAgreement(s) && s.i.plan == Some(p)
    requires Told(hi, hr, s, p) && ResponderStep(s, t, plan) && s.r.todo == [AwaitPlan]
    ensures Told(hi, hr, t, p)
  {
    hide Drain, Issues, SentBy, Tame, EndsWith, ResponderTasks, Plans, Agree, Chosen, OnOpen, Settled, Greeting, UnderWay,
      Ending, Accounted, Plain, ReceiveMany, Account;
    var coming := Coming(s, hi);
    NoIssues(hi);
    assert coming[0] == PlanMsg(p) && s.toR != [] && coming[0] == s.toR[0];
    NotEmpty(p);
    var left := Coming(t, hi);
    assert left == coming[1..] && left[0..] == left && t.toI == s.toI;
  }

  lemma CompletionTold(hi: Host, hr: Host, s: Sys, t: Sys, plan: Plan, p: Plan)
    requires Fate(hi, hr, s) && Shaped(s) && InAgreement(s) && s.i.plan == Some(p)
    requires Told(hi, hr, s, p) && ResponderStep(s, t, plan)
    requires s.r.todo != [AwaitPlan] && s.r.todo[0].AwaitComplete?
    ensures Told(hi, hr, t, p)
  {
    hide Drain, Issues, SentBy, Tame, EndsWith, ResponderTasks, Plans, Agree, Chosen, OnOpen, Settled, Greeting, UnderWay,
      Ending, Accounted, Plain, ReceiveMany, InitiatorShape, ResponderShape, Account;
    PlainStays(s.r, NextMessage(s.r, s.toR), plan);
    OnlyCompletion(s.r.todo);
    var coming := Coming(s, hi);
    AccountStep(s.r, NextMessage(s.r, s.toR), plan, hi, PushNames(p), PushOutcomes(hi, p), coming[0..]);
    AccountEnd(t.r, hi, PushNames(p), PushOutcomes(hi, p), coming[0..], Coming(t, hi)[0..]);
    LastIssues(hr);
    assert t.toI == s.toI;
    if NeverSends(hi, p) && s.i.todo != [] {
      NeverReads(hi, hr, s, p);
    }
  }

  lemma OnlyCompletion(todo: seq<Task>)
    requires Plain(todo) && ResponderShape(todo) && todo != [] && todo[0].AwaitComplete?
    ensures todo == [AwaitComplete]
  {
    PlainShape(todo);
  }

  // ----- from the first state to the last -----

  lemma PlanLists(p: Plan)
    ensures Plain(InitiatorTasks(p)) && Plain(ResponderTasks(p))
    ensures forall t | t in [Put(PlanMsg(p))] + SendTasks(PushNames(p)) :: !Receiving(t)
    ensures forall t | t in [Put(CompleteMsg)] :: !Receiving(t)
    ensures forall t | t in SendTasks(PullNames(p)) + [AwaitComplete] :: !Receiving(t)
  {
  }

  lemma ListOutcomes(p: Plan, stream: seq<Message>)
    ensures Outcomes(InitiatorTasks(p), stream) == ReceiveMany(PullNames(p), stream)
    ensures Outcomes(ResponderTasks(p), stream) == ReceiveMany(PushNames(p), stream)
    ensures VaultsOf(InitiatorTasks(p)) == PullNames(p) && VaultsOf(ResponderTasks(p)) == PushNames(p)
  {
    hide Outcomes, VaultsOf, ReceiveMany, Plain;
    PlanLists(p);
    var sends, receives := [Put(PlanMsg(p))] + SendTasks(PushNames(p)), ReceiveTasks(PullNames(p)) + [Put(CompleteMsg)];
    assert InitiatorTasks(p) == sends + receives;
    OutcomesPass(sends, receives, stream);
    OutcomesOfList(PullNames(p), [Put(CompleteMsg)], stream);
    OutcomesOfList(PushNames(p), SendTasks(PullNames(p)) + [AwaitComplete], stream);
  }

  lemma FirstAccount(p: Peer, src: Host, names: seq<string>, stream: seq<Message>)
    requires p.remote == Some(src.catalogue) && Distinct(names) && forall v | v in names :: v in src.catalogue
    requires p.dirs == p.host.dirs && p.catalogue == p.host.catalogue
    requires VaultsOf(p.todo) == names && Outcomes(p.todo, stream) == ReceiveMany(names, stream)
    ensures Accounted(p, src, names, ReceiveMany(names, stream), stream)
  {
    hide ReceiveMany, Outcomes, VaultsOf;
    ManyLength(names, stream);
    assert names[0..] == names && ReceiveMany(names, stream)[0..] == ReceiveMany(names, stream);
    assert Account(p, src, names, ReceiveMany(names, stream), stream, 0);
  }

  lemma FirstTold(hi: Host, hr: Host, t: Sys, p: Plan, q: Plan)
    requires Plans(hi, hr, p, q)
    requires t.i == Fresh(hi, InitiatorTasks(p)).(remote := Some(hr.catalogue), plan := Some(p))
    requires t.r == Greeted(hr, hi, q, [AwaitPlan]) && t.toR == [] && t.toI == []
    ensures Told(hi, hr, t, p)
  {
    hide Outcomes, VaultsOf, ReceiveMany, Plain, Issues, SentBy, InitiatorTasks, ResponderTasks, OnOpen, PlanOn, Toward, Moved, Account,
      Accounted, Distinct;
    PlanLists(p);
    ListsIssue(p, hi, hr);
    NotEmpty(p);
    PlanMoved(hi.catalogue, hr.catalogue, hi.strict, p);
    TowardMoved(p, Push);
    TowardMoved(p, Pull);
    NamesFrom(p, hi, hr);
    var pushed := SentBy(hi, PushNames(p)) + [CompleteMsg];
    var coming := Coming(t, hi);
    assert coming == [PlanMsg(p)] + pushed && coming[1..] == pushed;
    ListOutcomes(p, pushed);
    ListOutcomes(p, PulledStream(hi, hr, p));
    FirstAccount(Accepting(t.r, p), hi, PushNames(p), pushed);
    assert t.toI + Issues(ResponderTasks(p), hr) == SentBy(hr, PullNames(p));
    FirstAccount(t.i, hr, PullNames(p), PulledStream(hi, hr, p));
  }

  lemma NamesFrom(p: Plan, hi: Host, hr: Host)
    requires Names(PushNames(p)) == Moved(p, Push) <= hi.catalogue.Keys
    requires Names(PullNames(p)) == Moved(p, Pull) <= hr.catalogue.Keys
    ensures (forall v | v in PushNames(p) :: v in hi.catalogue) && forall v | v in PullNames(p) :: v in hr.catalogue
  {
    hide Moved, Toward;
    assert forall v | v in PushNames(p) :: v in Names(PushNames(p));
    assert forall v | v in PullNames(p) :: v in Names(PullNames(p));
  }

  /** In every state of a session of peers that agree, each vault has the outcome of its position or is still to be received. */
  ghost predicate AllTold(hi: Host, hr: Host, s: Sys) {
    InAgreement(s) ==> Told(hi, hr, s, s.i.plan.value)
  }

  lemma ToldStep(hi: Host, hr: Host, s: Sys, t: Sys)
    requires Fate(hi, hr, s) && Shaped(s) && AllTold(hi, hr, s) && Step(s, t)
    ensures AllTold(hi, hr, t)
  {
    hide InitiatorStep, ResponderStep, Told, Settled, UnderWay, Ending, Agree, Shaped;
    var plan :| InitiatorStep(s, t, plan) || ResponderStep(s, t, plan);
    StepPlans(s, t);
    if InAgreement(t) {
      if Greeting(hi, hr, s) {
        GreetingTold(hi, hr, s, t, plan);
      } else {
        PlansKnown(hi, hr, s);
        if InitiatorStep(s, t, plan) {
          InitiatorTold(hi, hr, s, t, plan, s.i.plan.value);
        } else {
          ResponderTold(hi, hr, s, t, plan, s.i.plan.value);
        }
      }
    }
  }

  lemma PlansKnown(hi: Host, hr: Host, s: Sys)
    requires UnderWay(hi, hr, s) || Ending(hi, hr, s)
    ensures s.i.plan.Some? && s.r.plan.Some?
  {
  }

  lemma GreetingTold(hi: Host, hr: Host, s: Sys, t: Sys, plan: Plan)
    requires Fate(hi, hr, s) && Greeting(hi, hr, s) && InAgreement(t)
    requires InitiatorStep(s, t, plan) || ResponderStep(s, t, plan)
    ensures Told(hi, hr, t, t.i.plan.value)
  {
    hide IsPlan, PlanOn, UnderWay, Outgoing, InitiatorTasks, ResponderTasks, OnFile, Agree, Settled, Ending, Told;
    FirstTold(hi, hr, t, t.i.plan.value, t.r.plan.value);
  }

  lemma {:induction false} RunTold(hi: Host, hr: Host, run: seq<Sys>)
    requires SessionRun(hi, hr, run)
    ensures AllTold(hi, hr, run[|run| - 1])
  {
    hide Fate, Step, Shaped, Told;
    var m := |run| - 1;
    if m > 0 {
      RunTold(hi, hr, run[..m]);
      RunFate(hi, hr, run[..m]);
      assert Step(run[m - 1], run[m]);
      ToldStep(hi, hr, run[m - 1], run[m]);
    }
  }

  predicate Barren(stream: seq<Message>) {
    stream == [] || stream == [CompleteMsg]
  }

  lemma {:induction false} BarrenOutcomes(todo: seq<Task>, stream: seq<Message>)
    requires Barren(stream)
    ensures forall i | 0 <= i < |Outcomes(todo, stream)| :: Outcomes(todo, stream)[i].None?
    decreases |todo|
  {
    hide ValidName;
    if todo != [] {
      if Receiving(todo[0]) {
        BarrenTake(todo[0], stream);
        BarrenOutcomes(todo[1..], TakeIn(todo[0], stream).rest);
      } else {
        BarrenOutcomes(todo[1..], stream);
      }
    }
  }

  lemma BarrenTake(t: Task, stream: seq<Message>)
    requires Receiving(t) && Barren(stream)
    ensures TakeIn(t, stream).staged.None? && Barren(TakeIn(t, stream).rest)
  {
    hide ValidName;
  }

  lemma BarrenAccount(p: Peer, src: Host, names: seq<string>, outcomes: seq<Option<Files>>, stream: seq<Message>)
    requires Accounted(p, src, names, outcomes, stream) && (p.todo == [] || Barren(stream))
    ensures |outcomes| == |names| && forall i | 0 <= i < |names| :: Landed(p, src, names[i], outcomes[i])
    ensures Elsewhere(p, names)
  {
    hide Outcomes, VaultsOf, Untouched, Elsewhere;
    var c: nat :| Account(p, src, names, outcomes, stream, c);
    if p.todo == [] {
      NoOutcomes(stream);
    } else {
      BarrenOutcomes(p.todo, stream);
    }
    forall i | c <= i < |names|
      ensures outcomes[i] == None
    {
      assert outcomes[i] == outcomes[c..][i - c];
    }
  }

  /**
   At the end of every session of peers that agree, finished or blocked, every pushed and pulled vault has what the
   receive at its position leaves, and every other vault and entry is as before.
   */
  lemma EveryVault(hi: Host, hr: Host, run: seq<Sys>)
    requires SessionRun(hi, hr, run) && Stuck(run[|run| - 1]) && InAgreement(run[|run| - 1])
    ensures var s := run[|run| - 1];
            var p := s.i.plan.value;
            && |PushOutcomes(hi, p)| == |PushNames(p)| && |PullOutcomes(hi, hr, p)| == |PullNames(p)|
            && (forall i | 0 <= i < |PushNames(p)| :: Landed(s.r, hi, PushNames(p)[i], PushOutcomes(hi, p)[i]))
            && (forall i | 0 <= i < |PullNames(p)| :: Landed(s.i, hr, PullNames(p)[i], PullOutcomes(hi, hr, p)[i]))
            && Elsewhere(s.r, PushNames(p)) && Elsewhere(s.i, PullNames(p))
  {
    hide Fate, Step, Shaped, Told, Landed, Elsewhere, Stuck, Agree, Issues, Toward, SentBy, ReceiveMany, OnOpen, PushOutcomes, PullOutcomes,
      Accounted, PushNames, PullNames;
    var s := run[|run| - 1];
    var p := s.i.plan.value;
    RunTold(hi, hr, run);
    RunFate(hi, hr, run);
    EndStreams(hi, hr, s, p);
    ToldIs(hi, hr, s, p);
    BarrenAccount(s.r, hi, PushNames(p), PushOutcomes(hi, p), Coming(s, hi)[0..]);
    BarrenAccount(s.i, hr, PullNames(p), PullOutcomes(hi, hr, p), ToInitiator(s, hi, hr, p));
  }

  lemma ToldIs(hi: Host, hr: Host, s: Sys, p: Plan)
    requires Told(hi, hr, s, p) && s.r.todo != [AwaitPlan]
    ensures Accounted(s.r, hi, PushNames(p), PushOutcomes(hi, p), Coming(s, hi)[0..])
    ensures Accounted(s.i, hr, PullNames(p), PullOutcomes(hi, hr, p), ToInitiator(s, hi, hr, p))
  {
    hide Accounted, ReceiveMany, Issues, OnOpen, SentBy, Plain;
  }

  /** In a state that has no next one, nothing that could be received is on its way. */
  lemma EndStreams(hi: Host, hr: Host, s: Sys, p: Plan)
    requires Fate(hi, hr, s) && Shaped(s) && Stuck(s) && InAgreement(s) && s.i.plan == Some(p) && Told(hi, hr, s, p)
    ensures s.r.todo != [AwaitPlan]
    ensures s.r.todo == [] || Barren(Coming(s, hi)[0..])
    ensures s.i.todo == [] || Barren(ToInitiator(s, hi, hr, p))
  {
    hide Drain, Issues, SentBy, Tame, EndsWith, ResponderTasks, Plans, Agree, OnOpen, Settled, Greeting, Ending, Taking, Pushing, Shaped,
      Told, Step;
    if CanMove(s) {
      var t := SomeStep(s);
    }
    if !Done(s) {
      NotGreeting(hi, hr, s);
      if s.i.todo != [] && s.r.todo != [] {
        StillUnderWay(hi, hr, s);
        WaitingStreams(hi, hr, s, p);
      }
    }
  }

  lemma NotGreeting(hi: Host, hr: Host, s: Sys)
    requires Fate(hi, hr, s) && s.i.plan.Some?
    ensures !Greeting(hi, hr, s)
  {
    hide IsPlan, UnderWay, Ending;
  }

  lemma WaitingStreams(hi: Host, hr: Host, s: Sys, p: Plan)
    requires Fate(hi, hr, s) && UnderWay(hi, hr, s) && !CanMove(s) && s.i.plan == Some(p)
    ensures s.r.todo != [AwaitPlan] && Coming(s, hi)[0..] == [CompleteMsg] && ToInitiator(s, hi, hr, p) == []
  {
    hide Drain, SentBy, Tame, Plans, Agree, Settled, Greeting, Ending, Pushing, Taking, ResponderTasks, Issues;
    DrainedPusher(s.i.todo, hi);
    ClosedAlike(s.r, p);
    var coming := s.toR + Issues(s.i.todo, hi);
    assert coming == [] && coming[0..] == coming;
    assert s.r.todo == [s.r.todo[0]] + s.r.todo[1..];
    if Receiving(s.r.todo[0]) {
      DrainHead(s.r.todo[0], s.r.todo[1..], []);
    } else {
      TakingHeads(s.r.todo);
      LastIssues(hr);
      assert s.toI + Issues(s.r.todo, hr) == [];
    }
  }

  // ----- peers that do not agree -----

  /** The peers do not agree: the responder waits for the plan or has returned, and nothing reaches the initiator. */
  ghost predicate Refused(hi: Host, hr: Host, s: Sys, p: Plan) {
    && Plain(s.i.todo) && s.toI == [] && (s.r.todo == [AwaitPlan] || s.r.todo == [])
    && s.r.dirs == hr.dirs && s.r.catalogue == hr.catalogue
    && (s.r.todo == [AwaitPlan] ==> [PlanMsg(p)] <= Coming(s, hi))
    && Accounted(s.i, hr, PullNames(p), ReceiveMany(PullNames(p), []), [])
  }

  ghost predicate Disagree(s: Sys) {
    s.i.plan.Some? && s.r.plan.Some? && !Agree(s.i.plan.value, s.r.plan.value)
  }

  lemma InitiatorRefused(hi: Host, hr: Host, s: Sys, t: Sys, plan: Plan, p: Plan)
    requires Fate(hi, hr, s) && Shaped(s) && Disagree(s) && s.i.plan == Some(p)
    requires Refused(hi, hr, s, p) && InitiatorStep(s, t, plan)
    ensures Refused(hi, hr, t, p)
  {
    hide Drain, Issues, SentBy, Act, Tame, Moves, EndsWith, ResponderTasks, Plans, Agree, Chosen, OnOpen, Settled, Greeting, UnderWay,
      Ending, Accounted, Plain, ReceiveMany, InitiatorShape, ResponderShape;
    PlainHead(s.i.todo);
    PlainStays(s.i, NextMessage(s.i, s.toI), plan);
    NoCompletion(s.i.todo);
    AccountStep(s.i, NextMessage(s.i, s.toI), plan, hr, PullNames(p), ReceiveMany(PullNames(p), []), []);
    if s.r.todo != [] {
      StillUnderWay(hi, hr, s);
      ComingStays(hi, hr, s, t, plan);
    }
  }

  lemma ResponderRefused(hi: Host, hr: Host, s: Sys, t: Sys, plan: Plan, p: Plan)
    requires Disagree(s) && s.i.plan == Some(p) && Refused(hi, hr, s, p) && ResponderStep(s, t, plan)
    ensures Refused(hi, hr, t, p)
  {
    hide Issues, Plans, Agree, Chosen, Accounted, Plain, ReceiveMany;
    var coming := Coming(s, hi);
    NoIssues(hi);
    assert coming[0] == PlanMsg(p) && s.toR != [] && coming[0] == s.toR[0];
    assert t.toI == s.toI;
  }

  lemma FirstRefused(hi: Host, hr: Host, t: Sys, p: Plan, q: Plan)
    requires Plans(hi, hr, p, q)
    requires t.i == Fresh(hi, InitiatorTasks(p)).(remote := Some(hr.catalogue), plan := Some(p))
    requires t.r == Greeted(hr, hi, q, [AwaitPlan]) && t.toR == [] && t.toI == []
    ensures Refused(hi, hr, t, p)
  {
    hide Outcomes, VaultsOf, ReceiveMany, Plain, Issues, SentBy, InitiatorTasks, ResponderTasks, PlanOn, Toward, Moved, Account, Accounted,
      Distinct;
    PlanLists(p);
    ListsIssue(p, hi, hr);
    NotEmpty(p);
    PlanMoved(hi.catalogue, hr.catalogue, hi.strict, p);
    TowardMoved(p, Push);
    TowardMoved(p, Pull);
    NamesFrom(p, hi, hr);
    ListOutcomes(p, []);
    FirstAccount(t.i, hr, PullNames(p), []);
  }

  ghost predicate AllRefused(hi: Host, hr: Host, s: Sys) {
    Disagree(s) ==> Refused(hi, hr, s, s.i.plan.value)
  }

  lemma GreetingRefused(hi: Host, hr: Host, s: Sys, t: Sys, plan: Plan)
    requires Fate(hi, hr, s) && Greeting(hi, hr, s) && Disagree(t)
    requires InitiatorStep(s, t, plan) || ResponderStep(s, t, plan)
    ensures Refused(hi, hr, t, t.i.plan.value)
  {
    hide IsPlan, PlanOn, UnderWay, Outgoing, InitiatorTasks, ResponderTasks, OnFile, Agree, Settled, Ending, Refused;
    FirstRefused(hi, hr, t, t.i.plan.value, t.r.plan.value);
  }

  lemma RefusedStep(hi: Host, hr: Host, s: Sys, t: Sys)
    requires Fate(hi, hr, s) && Shaped(s) && AllRefused(hi, hr, s) && Step(s, t)
    ensures AllRefused(hi, hr, t)
  {
    hide InitiatorStep, ResponderStep, Refused, Settled, UnderWay, Ending, Agree, Shaped;
    var plan :| InitiatorStep(s, t, plan) || ResponderStep(s, t, plan);
    StepPlans(s, t);
    if Disagree(t) {
      if Greeting(hi, hr, s) {
        GreetingRefused(hi, hr, s, t, plan);
      } else {
        PlansKnown(hi, hr, s);
        if InitiatorStep(s, t, plan) {
          InitiatorRefused(hi, hr, s, t, plan, s.i.plan.value);
        } else {
          ResponderRefused(hi, hr, s, t, plan, s.i.plan.value);
        }
      }
    }
  }

  lemma {:induction false} RunRefused(hi: Host, hr: Host, run: seq<Sys>)
    requires SessionRun(hi, hr, run)
    ensures AllRefused(hi, hr, run[|run| - 1])
  {
    hide Fate, Step, Shaped, Refused;
    var m := |run| - 1;
    if m > 0 {
      RunRefused(hi, hr, run[..m]);
      RunFate(hi, hr, run[..m]);
      assert Step(run[m - 1], run[m]);
      RefusedStep(hi, hr, run[m - 1], run[m]);
    }
  }

  /** A session of peers that do not agree commits nothing on either side. */
  lemma NothingCommitted(hi: Host, hr: Host, run: seq<Sys>)
    requires SessionRun(hi, hr, run) && Disagree(run[|run| - 1])
    ensures var s := run[|run| - 1];
            && s.r.dirs == hr.dirs && s.r.catalogue == hr.catalogue
            && (forall v | v in PullNames(s.i.plan.value) :: Untouched(s.i, v))
            && Elsewhere(s.i, PullNames(s.i.plan.value))
  {
    hide Outcomes, VaultsOf, ReceiveMany, Plain, Issues, Toward, Accounted, Step, Agree, Untouched, Elsewhere;
    var s := run[|run| - 1];
    var names := PullNames(s.i.plan.value);
    RunRefused(hi, hr, run);
    BarrenAccount(s.i, hr, names, ReceiveMany(names, []), []);
    BarrenMany(names, []);
    forall v | v in names
      ensures Untouched(s.i, v)
    {
      var i :| 0 <= i < |names| && names[i] == v;
      assert Landed(s.i, hr, names[i], ReceiveMany(names, [])[i]);
    }
  }

  // ----- vaults that a sender skips -----

  /** The vaults that are really sent. */
  function Listed(h: Host, names: seq<string>): (sent: seq<string>)
    ensures |sent| == ListableCount(h, names)
  {
    if names == [] then [] else (if Listable(h, names[0]) then [names[0]] else []) + Listed(h, names[1..])
  }

  lemma {:induction false} CleanOutcomes(h: Host, names: seq<string>, sent: seq<string>, tail: seq<Message>, i: nat)
    requires (forall v | v in names :: ValidName(v)) && (forall v | v in sent :: Clean(h, v)) && Barren(tail)
    requires |names| >= ListableCount(h, sent) && i < |names|
    ensures |ReceiveMany(names, SentBy(h, sent) + tail)| == |names|
    ensures ReceiveMany(names, SentBy(h, sent) + tail)[i]
         == if i < |Listed(h, sent)| then Some(FilesOf(h, Listed(h, sent)[i])) else None
    decreases |sent|
  {
    hide Clean, Listable, Outgoing, ValidName, Block, Transferable, FilesOf, Receive, Barren;
    ManyLength(names, SentBy(h, sent) + tail);
    if sent == [] {
      assert SentBy(h, sent) + tail == tail;
      BarrenMany(names, tail);
    } else {
      assert sent[0] in sent && forall v | v in sent[1..] :: v in sent;
      OutgoingClean(h, sent[0]);
      var more := SentBy(h, sent[1..]) + tail;
      if Listable(h, sent[0]) {
        assert names[0] in names && forall v | v in names[1..] :: v in names;
        assert SentBy(h, sent) + tail == Block(sent[0], FilesOf(h, sent[0])) + more;
        ReceiveBlock(names[0], sent[0], FilesOf(h, sent[0]), more);
        if i > 0 {
          CleanOutcomes(h, names[1..], sent[1..], tail, i - 1);
        }
      } else {
        assert SentBy(h, sent) + tail == more;
        CleanOutcomes(h, names, sent[1..], tail, i);
      }
    }
  }

  lemma BarrenMany(names: seq<string>, stream: seq<Message>)
    requires Barren(stream)
    ensures forall i | 0 <= i < |ReceiveMany(names, stream)| :: ReceiveMany(names, stream)[i].None?
  {
    hide ReceiveMany, Outcomes;
    OutcomesOfList(names, [], stream);
    BarrenOutcomes(ReceiveTasks(names) + [], stream);
  }

  /** A vault gets its own block exactly when neither it nor any vault before it is skipped. */
  lemma {:induction false} OwnBlock(h: Host, names: seq<string>, i: nat)
    requires Distinct(names) && i < |names|
    ensures (i < |Listed(h, names)| && Listed(h, names)[i] == names[i]) <==> forall j | 0 <= j <= i :: Listable(h, names[j])
    decreases |names|
  {
    hide Listable;
    ListedNamesIn(h, names[1..]);
    if Listable(h, names[0]) {
      if i > 0 {
        OwnBlock(h, names[1..], i - 1);
        assert forall j | 0 < j <= i :: names[1..][j - 1] == names[j];
      }
    } else if i < |Listed(h, names)| {
      ListedLater(h, names, i);
    }
  }

  lemma {:induction false} ListedNamesIn(h: Host, names: seq<string>)
    ensures forall v | v in Listed(h, names) :: v in names
  {
    hide Listable;
    if names != [] {
      ListedNamesIn(h, names[1..]);
    }
  }

  /** After a skipped vault, the i-th vault that is sent stands later in the list. */
  lemma {:induction false} ListedLater(h: Host, names: seq<string>, i: nat)
    requires Distinct(names) && i < |Listed(h, names)| && i < |names| && !Listable(h, names[0])
    ensures Listed(h, names)[i] != names[i]
    decreases i
  {
    hide Listable;
    var k := ListedAt(h, names[1..], i);
    assert names[1..][k] == names[k + 1];
  }

  lemma {:induction false} ListedAt(h: Host, names: seq<string>, i: nat) returns (k: nat)
    requires i < |Listed(h, names)|
    ensures i <= k < |names| && Listed(h, names)[i] == names[k]
    decreases |names|
  {
    hide Listable;
    if Listable(h, names[0]) {
      if i == 0 {
        k := 0;
      } else {
        var j := ListedAt(h, names[1..], i - 1);
        k := j + 1;
      }
    } else {
      var j := ListedAt(h, names[1..], i);
      k := j + 1;
    }
  }

  /** What a vault gets when the i-th receive takes the i-th vault that is sent. */
  function ByPosition(h: Host, names: seq<string>, i: nat): Option<Files> {
    if i < |Listed(h, names)| then Some(FilesOf(h, Listed(h, names)[i])) else None
  }

  /**
   When only directories can fail, the i-th pushed name ends with the files of the i-th vault that the initiator really
   sends, under the initiator's entry of the name; and the i-th pulled name likewise, unless some pushed vault is skipped
   and so the responder never sends anything.
   */
  lemma SkippedVaults(hi: Host, hr: Host, run: seq<Sys>)
    requires SessionRun(hi, hr, run) && Stuck(run[|run| - 1]) && CleanHosts(hi, hr)
    ensures var s := run[|run| - 1];
            && s.i.plan.Some?
            && var pushes, pulls := PushNames(s.i.plan.value), PullNames(s.i.plan.value);
               && (forall i | 0 <= i < |pushes| :: Landed(s.r, hi, pushes[i], ByPosition(hi, pushes, i)))
               && (forall i | 0 <= i < |pulls| ::
                     Landed(s.i, hr, pulls[i],
                            if forall v | v in pushes :: Listable(hi, v) then ByPosition(hr, pulls, i) else None))
  {
    hide Landed, Clean, Listable, OnOpen, SentBy, Plans, PlansAgree, Planned, Agree, PushNames, PullNames, ValidName, Stuck,
      ReceiveMany, Elsewhere, Finishes, Step;
    var s := run[|run| - 1];
    FinishExact(hi, hr, run);
    var p, q := s.i.plan.value, s.r.plan.value;
    NamesPlanned(hi, hr, p, q);
    EveryVault(hi, hr, run);
    var pushes, pulls := PushNames(p), PullNames(p);
    forall v | v in pushes || v in pulls
      ensures ValidName(v)
    {
      if v in pushes {
        OutgoingClean(hi, v);
      } else {
        OutgoingClean(hr, v);
      }
    }
    CleanDrain(hi, pushes, pushes);
    AllListable(hi, pushes);
    forall i | 0 <= i < |pushes|
      ensures PushOutcomes(hi, p)[i] == ByPosition(hi, pushes, i)
    {
      CleanOutcomes(hi, pushes, pushes, [CompleteMsg], i);
    }
    forall i | 0 <= i < |pulls|
      ensures PullOutcomes(hi, hr, p)[i] == if forall v | v in pushes :: Listable(hi, v) then ByPosition(hr, pulls, i) else None
    {
      if forall v | v in pushes :: Listable(hi, v) {
        CleanOutcomes(hr, pulls, pulls, [], i);
        assert SentBy(hr, pulls) + [] == SentBy(hr, pulls);
      } else {
        BarrenMany(pulls, []);
      }
    }
  }
}
