/**
 Whole sessions: what holds in every reachable state of two peers, for every interleaving of their steps.
 */
module SessionRuns {
  import opened Results
  import opened FileNames
  import opened Entries
  import opened Negotiation
  import opened ChainCatalogue
  import opened Convergence
  import opened Session
  import opened SessionSafety

  // ----- the lists of tasks of a plan -----

  ghost function Blocks(names: seq<string>, h: Host): seq<Message> {
    if names == [] then [] else Block(names[0], FilesOf(h, names[0])) + Blocks(names[1..], h)
  }

  lemma FirstName(names: seq<string>)
    requires names != []
    ensures Names(names) == {names[0]} + Names(names[1..])
    ensures Distinct(names) ==> Distinct(names[1..]) && names[0] !in Names(names[1..])
  {
  }

  lemma {:induction false} SendList(names: seq<string>, rest: seq<Task>, h: Host, src: Host)
    ensures Pending(SendTasks(names) + rest, h) == Blocks(names, h) + Pending(rest, h)
    ensures Expected(SendTasks(names) + rest, src) == Expected(rest, src)
    ensures Sends(SendTasks(names) + rest) == Names(names) + Sends(rest)
    ensures Receives(SendTasks(names) + rest) == Receives(rest)
    ensures Whole(rest) ==> Whole(SendTasks(names) + rest)
  {
    hide Block, FilesOf, Pending, Expected, Sends, Receives, Whole;
    if names == [] {
      assert SendTasks(names) + rest == rest;
    } else {
      hide Names;
      var more := SendTasks(names[1..]) + rest;
      SendList(names[1..], rest, h, src);
      assert SendTasks(names) + rest == [SendVault(names[0])] + more;
      FirstOf(SendVault(names[0]), more, h, src);
      FirstName(names);
    }
  }

  predicate Distinct(names: seq<string>) {
    forall i, j | 0 <= i < j < |names| :: names[i] != names[j]
  }

  lemma {:induction false} ReceiveList(names: seq<string>, rest: seq<Task>, h: Host, src: Host)
    ensures Expected(ReceiveTasks(names) + rest, src) == Blocks(names, src) + Expected(rest, src)
    ensures Pending(ReceiveTasks(names) + rest, h) == Pending(rest, h)
    ensures Receives(ReceiveTasks(names) + rest) == Names(names) + Receives(rest)
    ensures Sends(ReceiveTasks(names) + rest) == Sends(rest)
    ensures Whole(rest) && Distinct(names) && Names(names) !! Receives(rest) ==> Whole(ReceiveTasks(names) + rest)
  {
    hide Block, FilesOf, Pending, Expected, Sends, Receives, Whole;
    if names == [] {
      assert ReceiveTasks(names) + rest == rest;
    } else {
      hide Names, Distinct;
      var more := ReceiveTasks(names[1..]) + rest;
      ReceiveList(names[1..], rest, h, src);
      assert ReceiveTasks(names) + rest == [ReceiveVault(names[0])] + more;
      FirstOf(ReceiveVault(names[0]), more, h, src);
      FirstName(names);
    }
  }

  lemma {:induction false} TowardNames(auto: seq<VaultTransfer>, d: Direction, n: string)
    ensures n in Toward(auto, d) <==> exists i :: 0 <= i < |auto| && auto[i].vaultName == n && auto[i].direction == d
    ensures DistinctTransfers(auto) ==> Distinct(Toward(auto, d))
  {
    if auto != [] {
      TowardNames(auto[1..], d, n);
      TowardTail(auto, d, auto[0].vaultName);
      assert forall i | 0 <= i < |auto| - 1 :: auto[1..][i] == auto[i + 1];
      if i :| 0 <= i < |auto| && auto[i].vaultName == n && auto[i].direction == d {
        assert i > 0 ==> auto[1..][i - 1] == auto[i];
      }
    }
  }

  lemma {:induction false} TowardTail(auto: seq<VaultTransfer>, d: Direction, n: string)
    requires auto != []
    ensures (forall i | 0 < i < |auto| :: auto[i].vaultName != n) ==> n !in Toward(auto[1..], d)
    decreases |auto|
  {
    if |auto| > 1 {
      TowardTail(auto[1..], d, n);
      assert forall i | 0 < i < |auto| :: auto[1..][i - 1] == auto[i];
    }
  }

  lemma TowardMoved(p: Plan, d: Direction)
    requires DistinctTransfers(p.auto)
    ensures Names(Toward(p.auto, d)) == Moved(p, d) && Distinct(Toward(p.auto, d))
  {
    forall n
      ensures n in Toward(p.auto, d) <==> n in Moved(p, d)
    {
      TowardNames(p.auto, d, n);
      DirectionsNames(p.auto, n);
      if i :| 0 <= i < |p.auto| && p.auto[i].vaultName == n {
        DistinctDirection(p.auto, i);
      }
    }
    TowardNames(p.auto, d, "");
  }

  lemma InitiatorList(p: Plan, hi: Host, hr: Host)
    requires DistinctTransfers(p.auto)
    ensures var it := InitiatorTasks(p);
            && Whole(it) && Sends(it) == Moved(p, Push) && Receives(it) == Moved(p, Pull)
            && Pending(it, hi) == [PlanMsg(p)] + (Blocks(Toward(p.auto, Push), hi) + [CompleteMsg])
            && Expected(it, hr) == Blocks(Toward(p.auto, Pull), hr)
  {
    hide Block, Moved, Pending, Expected, Sends, Receives, Whole, Blocks, Names, Distinct;
    TowardMoved(p, Push);
    TowardMoved(p, Pull);
    var pushes, pulls := Toward(p.auto, Push), Toward(p.auto, Pull);
    var i1 := ReceiveTasks(pulls) + [Put(CompleteMsg)];
    var i2 := SendTasks(pushes) + i1;
    LastTasks(hi, hr);
    ReceiveList(pulls, [Put(CompleteMsg)], hi, hr);
    SendList(pushes, i1, hi, hr);
    assert InitiatorTasks(p) == [Put(PlanMsg(p))] + i2;
    FirstOf(Put(PlanMsg(p)), i2, hi, hr);
  }

  lemma ResponderList(p: Plan, hi: Host, hr: Host)
    requires DistinctTransfers(p.auto)
    ensures var rt := ResponderTasks(p);
            && Whole(rt) && Receives(rt) == Moved(p, Push) && Sends(rt) == Moved(p, Pull)
            && Expected(rt, hi) == Blocks(Toward(p.auto, Push), hi) + [CompleteMsg]
            && Pending(rt, hr) == Blocks(Toward(p.auto, Pull), hr)
  {
    hide Block, Moved, Pending, Expected, Sends, Receives, Whole, Blocks, Names, Distinct;
    TowardMoved(p, Push);
    TowardMoved(p, Pull);
    var pushes, pulls := Toward(p.auto, Push), Toward(p.auto, Pull);
    var r1 := SendTasks(pulls) + [AwaitComplete];
    LastTasks(hi, hr);
    SendList(pulls, [AwaitComplete], hr, hi);
    ReceiveList(pushes, r1, hr, hi);
    assert ResponderTasks(p) == ReceiveTasks(pushes) + r1;
  }

  lemma PlanTasks(p: Plan, hi: Host, hr: Host)
    requires DistinctTransfers(p.auto)
    ensures var it, rt := InitiatorTasks(p), ResponderTasks(p);
            && Whole(it) && Whole(rt)
            && Sends(it) == Moved(p, Push) == Receives(rt) && Receives(it) == Moved(p, Pull) == Sends(rt)
            && Pending(it, hi) == [PlanMsg(p)] + Expected(rt, hi)
            && Expected(it, hr) == Pending(rt, hr)
  {
    hide *;
    InitiatorList(p, hi, hr);
    ResponderList(p, hi, hr);
  }

  lemma LastTasks(h: Host, src: Host)
    ensures Pending([Put(CompleteMsg)], h) == [CompleteMsg] && Expected([Put(CompleteMsg)], src) == []
    ensures Pending([AwaitComplete], src) == [] && Expected([AwaitComplete], h) == [CompleteMsg]
    ensures Sends([Put(CompleteMsg)]) == Receives([Put(CompleteMsg)]) == {} && Whole([Put(CompleteMsg)])
    ensures Sends([AwaitComplete]) == Receives([AwaitComplete]) == {} && Whole([AwaitComplete])
  {
  }


  /** A peer that is about to carry out a plan's tasks. */
  lemma TasksSide(p: Peer, src: Host, recv: set<string>, send: set<string>)
    requires p.remote == Some(src.catalogue) && recv !! send && recv <= src.catalogue.Keys
    requires Whole(p.todo) && Sends(p.todo) == send && Receives(p.todo) == recv
    requires p.dirs == p.host.dirs && p.catalogue == p.host.catalogue
    ensures SideOk(p, src, recv, send)
  {
    assert recv - recv == {} && send - send == {};
    PulledStep(p.host.catalogue, src.catalogue, {}, p.host.root, "");
  }

  // ----- the invariant -----

  function Greeted(h: Host, other: Host, q: Plan, todo: seq<Task>): Peer {
    Peer(h, todo, h.dirs, h.catalogue, Some(other.catalogue), Some(q), [])
  }

  /** The exchange of catalogues. */
  ghost predicate Greeting(hi: Host, hr: Host, s: Sys) {
    var ci, cr := CatalogueMsg(hi.catalogue), CatalogueMsg(hr.catalogue);
    || s == Start(hi, hr)
    || s == Sys(Fresh(hi, [AwaitCatalogue]), Fresh(hr, [AwaitHello]), [ci], [])
    || (s.r.plan.Some? && IsPlan(hr.catalogue, hi.catalogue, hr.strict, s.r.plan.value)
        && (|| s == Sys(Fresh(hi, [AwaitCatalogue]), Greeted(hr, hi, s.r.plan.value, [Put(cr), AwaitPlan]), [], [])
            || s == Sys(Fresh(hi, [AwaitCatalogue]), Greeted(hr, hi, s.r.plan.value, [AwaitPlan]), [], [cr])))
  }

  /** The responder, counted as having accepted the plan if it is still waiting for it. */
  function Accepting(r: Peer, p: Plan): Peer {
    if r.todo == [AwaitPlan] then r.(todo := ResponderTasks(p)) else r
  }

  function Lead(r: Peer, p: Plan): seq<Message> {
    if r.todo == [AwaitPlan] then [PlanMsg(p)] else []
  }

  ghost predicate Plans(hi: Host, hr: Host, p: Plan, q: Plan) {
    IsPlan(hi.catalogue, hr.catalogue, hi.strict, p) && IsPlan(hr.catalogue, hi.catalogue, hr.strict, q)
  }

  ghost predicate Transferring(hi: Host, hr: Host, s: Sys) {
    && s.i.plan.Some? && s.r.plan.Some?
    && var p := s.i.plan.value;
       var r := Accepting(s.r, p);
       && Plans(hi, hr, p, s.r.plan.value)
       && (s.r.todo != [AwaitPlan] ==> Agree(p, s.r.plan.value))
       && SideOk(s.i, hr, Moved(p, Pull), Moved(p, Push)) && SideOk(r, hi, Moved(p, Push), Moved(p, Pull))
       && s.toR + Pending(s.i.todo, hi) == Lead(s.r, p) + Expected(r.todo, hi)
       && s.toI + Pending(r.todo, hr) == Expected(s.i.todo, hr)
  }

  ghost predicate Good(hi: Host, hr: Host, s: Sys) {
    s.i.host == hi && s.r.host == hr && (Greeting(hi, hr, s) || Transferring(hi, hr, s))
  }

  /** The session can do what it plans: the peers plan the same and every planned vault can be sent and received. */
  ghost predicate Honest(hi: Host, hr: Host) {
    forall n ::
      var v := VerdictOn(hi.catalogue, hr.catalogue, hi.strict, n);
      && v == Mirror(VerdictOn(hr.catalogue, hi.catalogue, hr.strict, n))
      && (v == Send(Push) ==> SentFine(hi, n) && FineFiles(n, FilesOf(hi, n)))
      && (v == Send(Pull) ==> SentFine(hr, n) && FineFiles(n, FilesOf(hr, n)))
  }

  lemma PlanMoved(l: Catalogue, r: Catalogue, strict: bool, p: Plan)
    requires IsPlan(l, r, strict, p)
    ensures DistinctTransfers(p.auto) && Moved(p, Push) !! Moved(p, Pull)
    ensures Moved(p, Pull) <= r.Keys && Moved(p, Push) <= l.Keys
    ensures forall n, d | d == Push || d == Pull :: n in Moved(p, d) <==> VerdictOn(l, r, strict, n) == Send(d)
  {
    hide Directions;
    PlanDirections(l, r, strict, p);
  }

  // ----- each step keeps it -----

  lemma GreetingInitiator(hi: Host, hr: Host, s: Sys, t: Sys, plan: Plan)
    requires Good(hi, hr, s) && Greeting(hi, hr, s) && InitiatorStep(s, t, plan)
    ensures Good(hi, hr, t) && NoErrors(t)
  {
    hide IsPlan, PlanOn, SideOk, Outgoing, Moved, Pending, Expected, InitiatorTasks, ResponderTasks, OnFile, Agree;
    if s != Start(hi, hr) {
      assert s.toI == [CatalogueMsg(hr.catalogue)];
      Begins(hi, hr, s, t, plan);
    }
  }

  lemma Begins(hi: Host, hr: Host, s: Sys, t: Sys, p: Plan)
    requires s.r.plan.Some? && Plans(hi, hr, p, s.r.plan.value)
    requires s.r == Greeted(hr, hi, s.r.plan.value, [AwaitPlan]) && t.r == s.r
    requires t.i == Fresh(hi, InitiatorTasks(p)).(remote := Some(hr.catalogue), plan := Some(p))
    requires t.toR == [] && t.toI == []
    ensures Transferring(hi, hr, t)
  {
    hide Directions, SideOk, Pending, Expected, Moved, InitiatorTasks, ResponderTasks, Whole, Sends, Receives, IsPlan;
    PlanMoved(hi.catalogue, hr.catalogue, hi.strict, p);
    PlanTasks(p, hi, hr);
    TasksSide(t.i, hr, Moved(p, Pull), Moved(p, Push));
    TasksSide(Accepting(t.r, p), hi, Moved(p, Push), Moved(p, Pull));
  }

  lemma GreetingResponder(hi: Host, hr: Host, s: Sys, t: Sys, plan: Plan)
    requires Good(hi, hr, s) && Greeting(hi, hr, s) && ResponderStep(s, t, plan)
    ensures Good(hi, hr, t) && NoErrors(t)
  {
    hide Plans, IsPlan, PlanOn, SideOk, Outgoing, Moved, Pending, Expected, InitiatorTasks, ResponderTasks, OnFile, Agree;
  }

  lemma {:induction false} FirstExpected(todo: seq<Task>, src: Host)
    requires Tidy(todo) && todo != [] && Reads(todo[0]) && HalfDone(todo[0], src)
    ensures Expected(todo, src) != []
  {
    hide Block;
  }

  lemma NothingLeft(todo: seq<Task>, h: Host)
    requires todo == []
    ensures Pending(todo, h) == Expected(todo, h) == []
  {
  }

  /** A read in the transfer phase finds the expected message. */
  lemma ReadsExpected(p: Peer, src: Host, recv: set<string>, send: set<string>, inbox: seq<Message>, other: seq<Task>)
    requires p.todo != [] && SideOk(p, src, recv, send) && Reads(p.todo[0])
    requires inbox + Pending(other, src) == Expected(p.todo, src)
    requires Enabled(p, inbox, other == [])
    ensures Expected(p.todo, src) != [] && NextMessage(p, inbox) == Some(Expected(p.todo, src)[0])
    ensures [Expected(p.todo, src)[0]] + Unread(p, inbox) == inbox
  {
    hide Block, Pending, Expected, Sends, Receives, SentFine, FineFiles, Pulled, Arrived, FilesOf;
    FirstExpected(p.todo, src);
    if inbox == [] {
      NothingLeft(other, src);
    }
    assert inbox == [inbox[0]] + inbox[1..];
  }

  lemma TransferInitiator(hi: Host, hr: Host, s: Sys, t: Sys, plan: Plan)
    requires Good(hi, hr, s) && Transferring(hi, hr, s) && NoErrors(s) && InitiatorStep(s, t, plan)
    ensures NoErrors(t) ==> Good(hi, hr, t)
    ensures Honest(hi, hr) ==> NoErrors(t)
  {
    hide SideOk, Pending, Expected, Moved, ResponderTasks, Honest, Act, Plans, Agree, Greeting, Chosen;
    var p := s.i.plan.value;
    var r := Accepting(s.r, p);
    var m := NextMessage(s.i, s.toI);
    var e := Act(s.i, m, plan);
    ClosedAlike(s.r, p);
    if Reads(s.i.todo[0]) {
      ReadsExpected(s.i, hr, Moved(p, Pull), Moved(p, Push), s.toI, r.todo);
    }
    SideStep(s.i, hr, Moved(p, Pull), Moved(p, Push), m, plan);
    ErrorsGrow(s.i, m, plan);
    PlanStays(s.i, hr, Moved(p, Pull), Moved(p, Push), m, plan);
    if Honest(hi, hr) {
      HonestMoves(hi, hr, p, s.r.plan.value);
    }
    if NoErrors(t) {
      var rest := Expected(e.peer.todo, hr);
      assert s.toR + (e.out + Pending(e.peer.todo, hi)) == t.toR + Pending(e.peer.todo, hi);
      if Reads(s.i.todo[0]) {
        assert [m.value] + (t.toI + Pending(r.todo, hr)) == [m.value] + rest;
        Unprefix(m.value, t.toI + Pending(r.todo, hr), rest);
      }
    }
  }

  lemma Unprefix(m: Message, a: seq<Message>, b: seq<Message>)
    requires [m] + a == [m] + b
    ensures a == b
  {
    assert ([m] + a)[1..] == a && ([m] + b)[1..] == b;
  }

  lemma ClosedAlike(r: Peer, p: Plan)
    ensures Accepting(r, p).todo == [] <==> r.todo == []
    ensures Accepting(r, p).host == r.host
  {
  }

  lemma PlanStays(p: Peer, src: Host, recv: set<string>, send: set<string>, m: Option<Message>, plan: Plan)
    requires p.todo != [] && SideOk(p, src, recv, send)
    ensures Act(p, m, plan).peer.plan == p.plan
  {
    hide Outgoing, Puts, Agree, InitiatorTasks, ResponderTasks, Received, Pulled, Arrived, SentFine, FineFiles;
  }

  lemma HonestMoves(hi: Host, hr: Host, p: Plan, q: Plan)
    requires Honest(hi, hr) && Plans(hi, hr, p, q)
    ensures Agree(p, q)
    ensures forall v | v in Moved(p, Push) :: SentFine(hi, v) && FineFiles(v, FilesOf(hi, v))
    ensures forall v | v in Moved(p, Pull) :: SentFine(hr, v) && FineFiles(v, FilesOf(hr, v))
  {
    hide Directions, VerdictOn, PlanOn, SentFine, FineFiles, Moved, Agree;
    PlanMoved(hi.catalogue, hr.catalogue, hi.strict, p);
    AgreeExact(hi.catalogue, hr.catalogue, hi.strict, hr.strict, p, q);
  }

  lemma TransferResponder(hi: Host, hr: Host, s: Sys, t: Sys, plan: Plan)
    requires Good(hi, hr, s) && Transferring(hi, hr, s) && NoErrors(s) && ResponderStep(s, t, plan)
    requires s.r.todo != [AwaitPlan]
    ensures NoErrors(t) ==> Good(hi, hr, t)
    ensures Honest(hi, hr) ==> NoErrors(t)
  {
    hide SideOk, Pending, Expected, Moved, ResponderTasks, Honest, Act, Plans, Agree, Greeting, Chosen;
    var p := s.i.plan.value;
    var m := NextMessage(s.r, s.toR);
    var e := Act(s.r, m, plan);
    if Reads(s.r.todo[0]) {
      ReadsExpected(s.r, hi, Moved(p, Push), Moved(p, Pull), s.toR, s.i.todo);
    }
    SideStep(s.r, hi, Moved(p, Push), Moved(p, Pull), m, plan);
    ErrorsGrow(s.r, m, plan);
    PlanStays(s.r, hi, Moved(p, Push), Moved(p, Pull), m, plan);
    if Honest(hi, hr) {
      HonestMoves(hi, hr, p, s.r.plan.value);
    }
    if NoErrors(t) {
      var rest := Expected(e.peer.todo, hi);
      NotWaiting(e.peer, hi, Moved(p, Push), Moved(p, Pull));
      assert s.toI + (e.out + Pending(e.peer.todo, hr)) == t.toI + Pending(e.peer.todo, hr);
      if Reads(s.r.todo[0]) {
        assert [m.value] + (t.toR + Pending(s.i.todo, hi)) == [m.value] + rest;
        Unprefix(m.value, t.toR + Pending(s.i.todo, hi), rest);
      }
    }
  }

  lemma NotWaiting(p: Peer, src: Host, recv: set<string>, send: set<string>)
    requires SideOk(p, src, recv, send)
    ensures p.todo != [AwaitPlan]
  {
    hide Pulled, Arrived, SentFine, FineFiles;
  }

  /** The responder reads the plan. */
  lemma AcceptStep(hi: Host, hr: Host, s: Sys, t: Sys, plan: Plan)
    requires Good(hi, hr, s) && Transferring(hi, hr, s) && NoErrors(s) && ResponderStep(s, t, plan)
    requires s.r.todo == [AwaitPlan]
    ensures NoErrors(t) ==> Good(hi, hr, t)
    ensures Honest(hi, hr) ==> NoErrors(t)
  {
    hide SideOk, Pending, Expected, Moved, ResponderTasks, Honest, Plans, Agree, Greeting, Chosen;
    var p := s.i.plan.value;
    var rt := ResponderTasks(p);
    if s.toR == [] {
      NothingLeft(s.i.todo, hi);
    }
    assert s.toR == [s.toR[0]] + s.toR[1..];
    assert s.toR[0] == (s.toR + Pending(s.i.todo, hi))[0] == PlanMsg(p);
    if Honest(hi, hr) {
      HonestMoves(hi, hr, p, s.r.plan.value);
    }
    if NoErrors(t) {
      assert [PlanMsg(p)] + (t.toR + Pending(s.i.todo, hi)) == [PlanMsg(p)] + Expected(rt, hi);
      Unprefix(PlanMsg(p), t.toR + Pending(s.i.todo, hi), Expected(rt, hi));
      NotWaiting(t.r, hi, Moved(p, Push), Moved(p, Pull));
    }
  }

  /** A step of a session without failures keeps the invariant unless its own task fails; honest peers never fail. */
  lemma GoodStep(hi: Host, hr: Host, s: Sys, t: Sys)
    requires Good(hi, hr, s) && NoErrors(s) && Step(s, t)
    ensures NoErrors(t) ==> Good(hi, hr, t)
    ensures Honest(hi, hr) ==> NoErrors(t)
  {
    hide Good, Transferring, Greeting, Honest, InitiatorStep, ResponderStep;
    var plan :| InitiatorStep(s, t, plan) || ResponderStep(s, t, plan);
    GoodIs(hi, hr, s);
    if InitiatorStep(s, t, plan) {
      if Greeting(hi, hr, s) {
        GreetingInitiator(hi, hr, s, t, plan);
      } else {
        TransferInitiator(hi, hr, s, t, plan);
      }
    } else if Greeting(hi, hr, s) {
      GreetingResponder(hi, hr, s, t, plan);
    } else if s.r.todo == [AwaitPlan] {
      AcceptStep(hi, hr, s, t, plan);
    } else {
      TransferResponder(hi, hr, s, t, plan);
    }
  }

  lemma GoodIs(hi: Host, hr: Host, s: Sys)
    requires Good(hi, hr, s)
    ensures Greeting(hi, hr, s) || Transferring(hi, hr, s)
  {
    hide Transferring, Greeting;
  }
}
