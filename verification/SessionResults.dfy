/**
 The theorems about whole sessions: every session ends, a session between honest peers completes without a failure in
 every interleaving, and a session completes without a failure exactly when the peers are honest.
 */
module SessionResults {
  import opened Results
  import opened Transfer
  import opened Entries
  import opened Negotiation
  import opened ChainCatalogue
  import opened Convergence
  import opened Session
  import opened SessionSafety
  import opened SessionRuns

  // ----- reachable states -----

  ghost predicate SessionRun(hi: Host, hr: Host, run: seq<Sys>) {
    run != [] && run[0] == Start(hi, hr) && forall k | 0 < k < |run| :: Step(run[k - 1], run[k])
  }

  lemma StepErrors(s: Sys, t: Sys)
    requires Step(s, t)
    ensures NoErrors(t) ==> NoErrors(s)
  {
    hide Act;
    var plan :| InitiatorStep(s, t, plan) || ResponderStep(s, t, plan);
    if InitiatorStep(s, t, plan) {
      ErrorsGrow(s.i, NextMessage(s.i, s.toI), plan);
    } else {
      ErrorsGrow(s.r, NextMessage(s.r, s.toR), plan);
    }
  }

  lemma {:induction false} RunGood(hi: Host, hr: Host, run: seq<Sys>)
    requires SessionRun(hi, hr, run)
    ensures NoErrors(run[|run| - 1]) ==> Good(hi, hr, run[|run| - 1])
    ensures Honest(hi, hr) ==> NoErrors(run[|run| - 1])
  {
    hide Good, Honest, Step, NoErrors;
    var m := |run| - 1;
    if m == 0 {
      StartGood(hi, hr);
    } else {
      RunGood(hi, hr, run[..m]);
      assert Step(run[m - 1], run[m]);
      StepErrors(run[m - 1], run[m]);
      if NoErrors(run[m - 1]) {
        GoodStep(hi, hr, run[m - 1], run[m]);
      }
    }
  }

  lemma StartGood(hi: Host, hr: Host)
    ensures Good(hi, hr, Start(hi, hr)) && NoErrors(Start(hi, hr))
  {
  }

  // ----- what a completed session leaves -----

  /** Peer p holds the files of src for the vaults it has pulled, and its own files for all others. */
  ghost predicate Delivered(p: Peer, src: Host, d: Direction, l: Catalogue, r: Catalogue, strict: bool) {
    forall v :: Get(p.dirs, v) == if VerdictOn(l, r, strict, v) == Send(d) then Get(src.dirs, v) else Get(p.host.dirs, v)
  }

  ghost predicate Completed(hi: Host, hr: Host, s: Sys) {
    var l, r := hi.catalogue, hr.catalogue;
    && s.toI == [] && s.toR == [] && s.i.host == hi && s.r.host == hr
    && Delivered(s.i, hr, Pull, l, r, hi.strict) && Delivered(s.r, hi, Push, l, r, hi.strict)
    && s.i.plan.Some? && IsPlan(l, r, hi.strict, s.i.plan.value)
    && s.i.catalogue == Pulled(l, r, Moved(s.i.plan.value, Pull), hi.root)
    && s.r.catalogue == Pulled(r, l, Moved(s.i.plan.value, Push), hr.root)
  }

  lemma DoneSide(p: Peer, src: Host, recv: set<string>, send: set<string>)
    requires SideOk(p, src, recv, send) && p.todo == []
    ensures Arrived(p, src, recv, {}) && p.catalogue == Pulled(p.host.catalogue, src.catalogue, recv, p.host.root)
    ensures forall v | v in send :: SentFine(p.host, v)
    ensures forall v | v in recv :: FineFiles(v, FilesOf(src, v))
  {
    assert recv - {} == recv;
  }

  lemma DoneResult(hi: Host, hr: Host, s: Sys)
    requires Good(hi, hr, s) && Done(s)
    ensures Honest(hi, hr) && Completed(hi, hr, s)
  {
    hide SideOk, Agree, PlanOn, Pulled, Directions, Moved, VerdictOn, SentFine, FineFiles, Arrived;
    assert Transferring(hi, hr, s);
    var p, q := s.i.plan.value, s.r.plan.value;
    NothingLeft(s.i.todo, hi);
    NothingLeft(s.i.todo, hr);
    NothingLeft(s.r.todo, hr);
    NothingLeft(s.r.todo, hi);
    DoneSide(s.i, hr, Moved(p, Pull), Moved(p, Push));
    DoneSide(s.r, hi, Moved(p, Push), Moved(p, Pull));
    PlanMoved(hi.catalogue, hr.catalogue, hi.strict, p);
    AgreeExact(hi.catalogue, hr.catalogue, hi.strict, hr.strict, p, q);
    DeliveredSide(hi, hr, s.i, hr, Pull, p);
    DeliveredSide(hi, hr, s.r, hi, Push, p);
  }

  lemma DeliveredSide(hi: Host, hr: Host, p: Peer, src: Host, d: Direction, plan: Plan)
    requires Arrived(p, src, Moved(plan, d), {})
    requires forall v | v in Moved(plan, d) :: SentFine(src, v)
    requires forall v :: v in Moved(plan, d) <==> VerdictOn(hi.catalogue, hr.catalogue, hi.strict, v) == Send(d)
    ensures Delivered(p, src, d, hi.catalogue, hr.catalogue, hi.strict)
  {
    hide VerdictOn, Moved;
  }

  /**
   A session that both peers have finished had no failure exactly when the peers are honest; then no message is left
   over, every transferred vault is the same on both sides and every other vault is as before.
   */
  lemma CompletionExact(hi: Host, hr: Host, run: seq<Sys>)
    requires SessionRun(hi, hr, run) && Done(run[|run| - 1])
    ensures NoErrors(run[|run| - 1]) <==> Honest(hi, hr)
    ensures Honest(hi, hr) ==> Completed(hi, hr, run[|run| - 1])
  {
    hide Good, Honest, Completed, NoErrors;
    RunGood(hi, hr, run);
    if NoErrors(run[|run| - 1]) {
      DoneResult(hi, hr, run[|run| - 1]);
    }
  }

  // ----- every session ends -----

  function Handshake(t: Task): nat {
    if t.AwaitHello? then 2 else if t.AwaitCatalogue? || t.AwaitPlan? then 1 else 0
  }

  function Moving(t: Task): nat {
    if t.ReceiveVault? then 3 else if t.AwaitBegin? then 2
    else if t.SendVault? || t.AwaitFile? || t.AwaitComplete? then 1 else 0
  }

  function Handshakes(todo: seq<Task>): nat {
    if todo == [] then 0 else Handshake(todo[0]) + Handshakes(todo[1..])
  }

  function Transfers(todo: seq<Task>): nat {
    if todo == [] then 0 else Moving(todo[0]) + Transfers(todo[1..])
  }

  function PutCount(todo: seq<Task>): nat {
    if todo == [] then 0 else (if todo[0].Put? then 1 else 0) + PutCount(todo[1..])
  }

  lemma CountHead(t: Task, rest: seq<Task>)
    ensures Handshakes([t] + rest) == Handshake(t) + Handshakes(rest)
    ensures Transfers([t] + rest) == Moving(t) + Transfers(rest)
    ensures PutCount([t] + rest) == (if t.Put? then 1 else 0) + PutCount(rest)
    ensures Handshakes([]) == 0
  {
    assert ([t] + rest)[1..] == rest;
  }

  lemma {:induction false} CountsAdd(a: seq<Task>, b: seq<Task>)
    ensures Handshakes(a + b) == Handshakes(a) + Handshakes(b)
    ensures Transfers(a + b) == Transfers(a) + Transfers(b)
  {
    if a == [] {
      assert a + b == b;
    } else {
      CountsAdd(a[1..], b);
      assert (a + b)[1..] == a[1..] + b;
    }
  }

  lemma {:induction false} PutsCount(messages: seq<Message>)
    ensures Handshakes(Puts(messages)) == 0 && Transfers(Puts(messages)) == 0
  {
    if messages != [] {
      PutsCount(messages[1..]);
      assert Puts(messages)[1..] == Puts(messages[1..]);
    }
  }

  lemma {:induction false} ListsCount(names: seq<string>)
    ensures Handshakes(SendTasks(names)) == Handshakes(ReceiveTasks(names)) == 0
  {
    if names != [] {
      ListsCount(names[1..]);
      assert SendTasks(names)[1..] == SendTasks(names[1..]);
      assert ReceiveTasks(names)[1..] == ReceiveTasks(names[1..]);
    }
  }

  lemma PlansCount(p: Plan)
    ensures Handshakes(InitiatorTasks(p)) == Handshakes(ResponderTasks(p)) == 0
  {
    hide Handshakes, Transfers;
    var pushes, pulls := Toward(p.auto, Push), Toward(p.auto, Pull);
    ListsCount(pushes);
    ListsCount(pulls);
    var i1 := ReceiveTasks(pulls) + [Put(CompleteMsg)];
    CountsAdd(ReceiveTasks(pulls), [Put(CompleteMsg)]);
    CountsAdd(SendTasks(pushes), i1);
    CountsAdd([Put(PlanMsg(p))], SendTasks(pushes) + i1);
    CountsAdd(SendTasks(pulls), [AwaitComplete]);
    CountsAdd(ReceiveTasks(pushes), SendTasks(pulls) + [AwaitComplete]);
    SingleCounts(p);
  }

  lemma SingleCounts(p: Plan)
    ensures Handshakes([Put(PlanMsg(p))]) == Handshakes([Put(CompleteMsg)]) == Handshakes([AwaitComplete]) == 0
  {
  }

  datatype Rank = Rank(handshakes: nat, transfers: nat, messages: nat)

  predicate Below(a: Rank, b: Rank) {
    || a.handshakes < b.handshakes
    || (a.handshakes == b.handshakes && a.transfers < b.transfers)
    || (a.handshakes == b.handshakes && a.transfers == b.transfers && a.messages < b.messages)
  }

  function RankOf(s: Sys): Rank {
    Rank(Handshakes(s.i.todo) + Handshakes(s.r.todo), Transfers(s.i.todo) + Transfers(s.r.todo),
         2 * (PutCount(s.i.todo) + PutCount(s.r.todo)) + |s.toR| + |s.toI|)
  }

  lemma FileCounts(p: Peer, m: Option<Message>)
    requires p.todo != [] && p.todo[0].AwaitFile?
    ensures var todo := OnFile(p, m).todo;
            && Handshakes(todo) == Handshakes(p.todo)
            && (Transfers(todo) < Transfers(p.todo)
                || (m.Some? && Transfers(todo) == Transfers(p.todo) && PutCount(todo) == PutCount(p.todo)))
  {
    hide Received, ValidName, Handshakes, Transfers, PutCount;
    var rest := p.todo[1..];
    assert p.todo == [p.todo[0]] + rest;
    CountHead(p.todo[0], rest);
    var AwaitFile(v, staged, count) := p.todo[0];
    if m.Some? && m.value.FileMsg? {
      CountHead(AwaitFile(v, staged[m.value.name := m.value.data], count + 1), rest);
    }
  }

  /** A step lowers the tasks' counts, or takes a message, or turns a Put into a message. */
  lemma ActCounts(p: Peer, m: Option<Message>, plan: Plan)
    requires p.todo != [] && (!Reads(p.todo[0]) ==> m.None?)
    ensures var e := Act(p, m, plan);
            var t := e.peer.todo;
            || Handshakes(t) < Handshakes(p.todo)
            || (Handshakes(t) == Handshakes(p.todo) && Transfers(t) < Transfers(p.todo))
            || (Handshakes(t) == Handshakes(p.todo) && Transfers(t) == Transfers(p.todo)
                && PutCount(t) == PutCount(p.todo) && m.Some? && e.out == [])
            || (Handshakes(t) == Handshakes(p.todo) && Transfers(t) == Transfers(p.todo)
                && PutCount(t) == PutCount(p.todo) - 1 && |e.out| == 1)
  {
    hide Outgoing, Puts, Agree, InitiatorTasks, ResponderTasks, OnFile, Handshakes, Transfers, PutCount;
    var rest := p.todo[1..];
    assert p.todo == [p.todo[0]] + rest;
    CountHead(p.todo[0], rest);
    match p.todo[0]
    case SendVault(v) =>
      var o := Outgoing(p.host, p.dirs, v);
      PutsCount(o.messages);
      CountsAdd(Puts(o.messages), rest);
    case AwaitCatalogue => PlansCount(plan);
    case AwaitPlan =>
      if m.Some? && m.value.PlanMsg? {
        PlansCount(m.value.plan);
      }
    case AwaitHello =>
      var answer := Put(CatalogueMsg(p.host.catalogue));
      assert [answer, AwaitPlan] == [answer] + ([AwaitPlan] + []);
      CountHead(answer, [AwaitPlan] + []);
      CountHead(AwaitPlan, []);
    case AwaitBegin(v) => CountHead(AwaitFile(v, map[], 0), rest);
    case ReceiveVault(v) => CountHead(AwaitBegin(v), rest);
    case AwaitFile(_, _, _) => FileCounts(p, m);
    case _ =>
  }

  lemma HeadAndTail(t: Task, todo: seq<Task>)
    requires todo != []
    ensures var more := [t] + todo[1..]; more[0] == t && more[1..] == todo[1..]
  {
  }

  lemma StepRank(s: Sys, t: Sys)
    requires Step(s, t)
    ensures Below(RankOf(t), RankOf(s))
  {
    hide Act, Handshakes, Transfers, PutCount, Chosen;
    var plan :| InitiatorStep(s, t, plan) || ResponderStep(s, t, plan);
    if InitiatorStep(s, t, plan) {
      ActCounts(s.i, NextMessage(s.i, s.toI), plan);
    } else {
      ActCounts(s.r, NextMessage(s.r, s.toR), plan);
    }
  }

  /** No step is possible. */
  ghost predicate Stuck(s: Sys) {
    forall t :: !Step(s, t)
  }

  /** A run that goes on as long as some step is possible. */
  ghost predicate Maximal(run: nat -> Sys) {
    forall k: nat :: Step(run(k), run(k + 1)) || (Stuck(run(k)) && run(k + 1) == run(k))
  }

  /** Every session ends, whatever the peers: no interleaving goes on for ever. */
  lemma {:induction false} EveryRunEnds(run: nat -> Sys, k: nat) returns (n: nat)
    requires Maximal(run)
    ensures n >= k && Stuck(run(n))
    ensures forall j | k <= j < n :: Step(run(j), run(j + 1))
    decreases RankOf(run(k)).handshakes, RankOf(run(k)).transfers, RankOf(run(k)).messages
  {
    hide Step, Stuck, RankOf;
    if Stuck(run(k)) {
      n := k;
    } else {
      StepRank(run(k), run(k + 1));
      n := EveryRunEnds(run, k + 1);
    }
  }

  // ----- no deadlock -----

  /** The initiator after its pushes. */
  predicate Draining(todo: seq<Task>) {
    todo == [] || (if |todo| == 1 then todo[0] == Put(CompleteMsg) else Receiving(todo[0]) && Draining(todo[1..]))
  }

  predicate Pushing(todo: seq<Task>) {
    Draining(todo) || (todo != [] && (todo[0].Put? || todo[0].SendVault?) && Pushing(todo[1..]))
  }

  /** The responder after it has received. */
  predicate Answering(todo: seq<Task>) {
    todo == [] || (if |todo| == 1 then todo[0].AwaitComplete? else (todo[0].Put? || todo[0].SendVault?) && Answering(todo[1..]))
  }

  predicate Taking(todo: seq<Task>) {
    Answering(todo) || (todo != [] && Receiving(todo[0]) && Taking(todo[1..]))
  }

  predicate InitiatorShape(todo: seq<Task>) {
    || (|todo| == 2 && todo[0].Put? && todo[1] == AwaitCatalogue) || todo == [AwaitCatalogue]
    || Pushing(todo)
  }

  predicate ResponderShape(todo: seq<Task>) {
    || todo == [AwaitHello] || (|todo| == 2 && todo[0].Put? && todo[1] == AwaitPlan) || todo == [AwaitPlan]
    || Taking(todo)
  }

  lemma {:induction false} PutsShape(messages: seq<Message>, rest: seq<Task>)
    ensures Pushing(rest) ==> Pushing(Puts(messages) + rest)
    ensures Answering(rest) && rest != [] ==> Answering(Puts(messages) + rest)
  {
    if messages == [] {
      assert Puts(messages) + rest == rest;
    } else {
      PutsShape(messages[1..], rest);
      HeadAndTail(Put(messages[0]), [Put(messages[0])] + (Puts(messages[1..]) + rest));
      assert Puts(messages) + rest == [Put(messages[0])] + (Puts(messages[1..]) + rest);
    }
  }

  lemma {:induction false} ListsShape(names: seq<string>, rest: seq<Task>)
    ensures Pushing(rest) ==> Pushing(SendTasks(names) + rest)
    ensures Answering(rest) && rest != [] ==> Answering(SendTasks(names) + rest)
    ensures Draining(rest) && rest != [] ==> Draining(ReceiveTasks(names) + rest)
    ensures Taking(rest) ==> Taking(ReceiveTasks(names) + rest)
  {
    if names == [] {
      assert SendTasks(names) + rest == rest == ReceiveTasks(names) + rest;
    } else {
      ListsShape(names[1..], rest);
      var sends, receives := SendTasks(names[1..]) + rest, ReceiveTasks(names[1..]) + rest;
      assert SendTasks(names) + rest == [SendVault(names[0])] + sends;
      assert ReceiveTasks(names) + rest == [ReceiveVault(names[0])] + receives;
      assert ([SendVault(names[0])] + sends)[1..] == sends;
      assert ([ReceiveVault(names[0])] + receives)[1..] == receives;
    }
  }

  lemma PlansShape(p: Plan)
    ensures Pushing(InitiatorTasks(p)) && Taking(ResponderTasks(p))
  {
    var pushes, pulls := Toward(p.auto, Push), Toward(p.auto, Pull);
    var i1 := ReceiveTasks(pulls) + [Put(CompleteMsg)];
    ListsShape(pulls, [Put(CompleteMsg)]);
    ListsShape(pushes, i1);
    assert ([Put(PlanMsg(p))] + (SendTasks(pushes) + i1))[1..] == SendTasks(pushes) + i1;
    ListsShape(pulls, [AwaitComplete]);
    ListsShape(pushes, SendTasks(pulls) + [AwaitComplete]);
  }

  lemma InitiatorKeepsShape(p: Peer, m: Option<Message>, plan: Plan)
    requires p.todo != [] && InitiatorShape(p.todo)
    ensures InitiatorShape(Act(p, m, plan).peer.todo)
  {
    hide Outgoing, Puts, Agree, InitiatorTasks, ResponderTasks, Received;
    match p.todo[0]
    case SendVault(v) => PutsShape(Outgoing(p.host, p.dirs, v).messages, p.todo[1..]);
    case AwaitCatalogue => PlansShape(plan);
    case AwaitBegin(v) => HeadAndTail(AwaitFile(v, map[], 0), p.todo);
    case ReceiveVault(v) => HeadAndTail(AwaitBegin(v), p.todo);
    case AwaitFile(v, staged, count) =>
      if m.Some? && m.value.FileMsg? {
        HeadAndTail(AwaitFile(v, staged[m.value.name := m.value.data], count + 1), p.todo);
      }
    case _ =>
  }

  lemma ResponderKeepsShape(p: Peer, m: Option<Message>, plan: Plan)
    requires p.todo != [] && ResponderShape(p.todo)
    ensures ResponderShape(Act(p, m, plan).peer.todo)
  {
    hide Outgoing, Puts, Agree, InitiatorTasks, ResponderTasks, Received;
    match p.todo[0]
    case SendVault(v) => PutsShape(Outgoing(p.host, p.dirs, v).messages, p.todo[1..]);
    case AwaitPlan =>
      if m.Some? && m.value.PlanMsg? {
        PlansShape(m.value.plan);
      }
    case AwaitBegin(v) => HeadAndTail(AwaitFile(v, map[], 0), p.todo);
    case ReceiveVault(v) => HeadAndTail(AwaitBegin(v), p.todo);
    case AwaitFile(v, staged, count) =>
      if m.Some? && m.value.FileMsg? {
        HeadAndTail(AwaitFile(v, staged[m.value.name := m.value.data], count + 1), p.todo);
      }
    case _ =>
  }

  ghost predicate Shaped(s: Sys) {
    InitiatorShape(s.i.todo) && ResponderShape(s.r.todo)
  }

  lemma StepShaped(s: Sys, t: Sys)
    requires Shaped(s) && Step(s, t)
    ensures Shaped(t)
  {
    hide Act, InitiatorShape, ResponderShape, Chosen;
    var plan :| InitiatorStep(s, t, plan) || ResponderStep(s, t, plan);
    if InitiatorStep(s, t, plan) {
      InitiatorKeepsShape(s.i, NextMessage(s.i, s.toI), plan);
    } else {
      ResponderKeepsShape(s.r, NextMessage(s.r, s.toR), plan);
    }
  }

  lemma {:induction false} DrainingPending(todo: seq<Task>, h: Host)
    requires Draining(todo) && todo != []
    ensures Pending(todo, h) == [CompleteMsg]
  {
    hide Block;
    if |todo| == 1 {
      assert todo == [Put(CompleteMsg)];
    } else {
      DrainingPending(todo[1..], h);
    }
  }

  /** A receiving peer awaits a begin, file or end message. */
  lemma ReceivingExpects(todo: seq<Task>, src: Host)
    requires todo != [] && Receiving(todo[0]) && HalfDone(todo[0], src)
    ensures Expected(todo, src) != [] && !Expected(todo, src)[0].CompleteMsg?
  {
    hide Block, Expected;
    var files := FilesOf(src, todo[0].vault);
    ExpectedFirst(todo, src);
    if todo[0].AwaitFile? {
      BlockParts(todo[0].vault, files, todo[0].count);
    } else {
      BlockParts(todo[0].vault, files, 0);
    }
  }

  lemma ExpectedFirst(todo: seq<Task>, src: Host)
    requires todo != []
    ensures Expected(todo, src) == AwaitedBy(todo[0], src) + Expected(todo[1..], src)
  {
  }

  lemma AnsweringEnds(todo: seq<Task>, h: Host)
    requires Taking(todo) && todo != [] && todo[0].AwaitComplete?
    ensures Pending(todo, h) == []
  {
    assert |todo| == 1;
    assert todo[1..] == [];
  }

  lemma QueueHas(queue: seq<Message>, all: seq<Message>)
    requires queue + [CompleteMsg] == all && !all[0].CompleteMsg?
    ensures queue != []
  {
    assert all[0] == if queue == [] then CompleteMsg else queue[0];
  }

  /** When both peers wait for a message, one is on its way. */
  lemma SomeMessage(hi: Host, hr: Host, s: Sys)
    requires Transferring(hi, hr, s) && Shaped(s) && s.i.todo != [] && s.r.todo != []
    requires Reads(s.i.todo[0]) && Reads(s.r.todo[0])
    ensures s.toI != [] || s.toR != []
  {
    hide SideOk, Pending, Expected, Moved, ResponderTasks, Plans, Agree, Draining, Taking;
    var p := s.i.plan.value;
    BothWait(s, p, hi, hr);
    DrainingPending(s.i.todo, hi);
    if s.r.todo == [AwaitPlan] {
      QueueHas(s.toR, Lead(s.r, p) + Expected(Accepting(s.r, p).todo, hi));
    } else {
      SideHalf(s.i, hr, Moved(p, Pull), Moved(p, Push));
      SideHalf(s.r, hi, Moved(p, Push), Moved(p, Pull));
      FirstExpected(s.i.todo, hr);
      if Receiving(s.r.todo[0]) {
        ReceivingExpects(s.r.todo, hi);
        QueueHas(s.toR, Expected(s.r.todo, hi));
      } else {
        AnsweringEnds(s.r.todo, hr);
        assert |s.toI| == |Expected(s.i.todo, hr)|;
      }
    }
  }

  lemma NoDeadlock(hi: Host, hr: Host, s: Sys)
    requires Good(hi, hr, s) && Shaped(s) && !Done(s)
    ensures Enabled(s.i, s.toI, s.r.todo == []) || Enabled(s.r, s.toR, s.i.todo == [])
  {
    hide Transferring, Shaped, Plans, IsPlan;
    if Transferring(hi, hr, s) && s.i.todo != [] && s.r.todo != [] && Reads(s.i.todo[0]) && Reads(s.r.todo[0]) {
      SomeMessage(hi, hr, s);
    }
  }

  /** Some plan can be returned by Negotiate for any two catalogues. */
  lemma SomePlan(l: Catalogue, r: Catalogue, strict: bool, names: set<string>) returns (plan: Plan)
    requires names <= l.Keys + r.Keys
    ensures PlanOn(names, l, r, strict, plan)
    decreases |names|
  {
    hide PlanOn, Judge;
    if names == {} {
      plan := Plan([], []);
      EmptyPlan(l, r, strict);
    } else {
      var n :| n in names;
      var fewer := names - {n};
      assert fewer + {n} == names;
      plan := SomePlan(l, r, strict, fewer);
      var v := VerdictOn(l, r, strict, n);
      ConflictBoth(l, r, strict, n);
      match v
      case InSync => AddNothing(fewer, l, r, strict, plan, n);
      case Send(d) =>
        AddTransfer(fewer, l, r, strict, plan, VaultTransfer(n, d, 1));
        plan := plan.(auto := plan.auto + [VaultTransfer(n, d, 1)]);
      case Conflict =>
        var c := ConflictOf(n, l[n], r[n]);
        AddConflict(fewer, l, r, strict, plan, c);
        plan := plan.(conflicts := plan.conflicts + [c]);
    }
  }

  lemma ConflictBoth(l: Catalogue, r: Catalogue, strict: bool, n: string)
    ensures VerdictOn(l, r, strict, n) == Conflict ==> n in l && n in r
  {
  }

  lemma SomeStep(s: Sys) returns (t: Sys)
    requires Enabled(s.i, s.toI, s.r.todo == []) || Enabled(s.r, s.toR, s.i.todo == [])
    ensures Step(s, t)
  {
    hide Act, PlanOn;
    if Enabled(s.i, s.toI, s.r.todo == []) {
      var m := NextMessage(s.i, s.toI);
      var c := if m.Some? && m.value.CatalogueMsg? then m.value.catalogue else map[];
      var plan := SomePlan(s.i.host.catalogue, c, s.i.host.strict, s.i.host.catalogue.Keys + c.Keys);
      var e := Act(s.i, m, plan);
      t := Sys(e.peer, s.r, s.toR + e.out, Unread(s.i, s.toI));
      assert InitiatorStep(s, t, plan);
    } else {
      var m := NextMessage(s.r, s.toR);
      var c := if m.Some? && m.value.CatalogueMsg? then m.value.catalogue else map[];
      var plan := SomePlan(s.r.host.catalogue, c, s.r.host.strict, s.r.host.catalogue.Keys + c.Keys);
      var e := Act(s.r, m, plan);
      t := Sys(s.i, e.peer, Unread(s.r, s.toR), s.toI + e.out);
      assert ResponderStep(s, t, plan);
    }
  }

  lemma {:induction false} RunShaped(hi: Host, hr: Host, run: seq<Sys>)
    requires SessionRun(hi, hr, run)
    ensures Shaped(run[|run| - 1])
  {
    hide Step, Shaped;
    var m := |run| - 1;
    if m == 0 {
      StartShaped(hi, hr);
    } else {
      RunShaped(hi, hr, run[..m]);
      assert Step(run[m - 1], run[m]);
      StepShaped(run[m - 1], run[m]);
    }
  }

  lemma StartShaped(hi: Host, hr: Host)
    ensures Shaped(Start(hi, hr))
  {
  }

  /** Honest peers are never both blocked: from every reachable state that is not final some step is possible. */
  lemma HonestProgress(hi: Host, hr: Host, run: seq<Sys>)
    requires SessionRun(hi, hr, run) && Honest(hi, hr)
    ensures Stuck(run[|run| - 1]) ==> Done(run[|run| - 1])
  {
    hide Good, Honest, Step, Shaped, NoErrors;
    var s := run[|run| - 1];
    RunGood(hi, hr, run);
    RunShaped(hi, hr, run);
    if !Done(s) {
      NoDeadlock(hi, hr, s);
      var t := SomeStep(s);
    }
  }

  /** The run up to step n. */
  ghost function UpTo(run: nat -> Sys, n: nat): seq<Sys> {
    seq(n + 1, k requires 0 <= k <= n => run(k))
  }

  /**
   Every session between honest peers completes, in every interleaving: no failure, no message left over, every
   transferred vault the same on both sides, every other vault untouched.
   */
  lemma HonestSessionsComplete(hi: Host, hr: Host, run: nat -> Sys) returns (n: nat)
    requires Honest(hi, hr) && run(0) == Start(hi, hr) && Maximal(run)
    ensures Done(run(n)) && NoErrors(run(n)) && Completed(hi, hr, run(n))
  {
    hide Honest, Step, Stuck, Completed, Start;
    n := EveryRunEnds(run, 0);
    var states := UpTo(run, n);
    forall k | 0 < k < |states|
      ensures Step(states[k - 1], states[k])
    {
      assert Step(run(k - 1), run(k - 1 + 1));
    }
    HonestProgress(hi, hr, states);
    CompletionExact(hi, hr, states);
  }

  lemma SideHalf(p: Peer, src: Host, recv: set<string>, send: set<string>)
    requires p.todo != [] && SideOk(p, src, recv, send)
    ensures HalfDone(p.todo[0], src) && Tidy(p.todo) && (Reads(p.todo[0]) ==> Receiving(p.todo[0]) || p.todo[0].AwaitComplete?)
  {
    hide Pulled, Arrived, SentFine, FineFiles, HalfDone;
  }

  lemma BothWait(s: Sys, p: Plan, hi: Host, hr: Host)
    requires Shaped(s) && SideOk(s.i, hr, Moved(p, Pull), Moved(p, Push)) && s.r.todo != [] && s.i.todo != []
    requires Reads(s.i.todo[0]) && Reads(s.r.todo[0])
    requires s.r.todo != [AwaitPlan] ==> SideOk(s.r, hi, Moved(p, Push), Moved(p, Pull))
    ensures Draining(s.i.todo) && (s.r.todo != [AwaitPlan] ==> Taking(s.r.todo))
  {
    hide Pulled, Arrived, SentFine, FineFiles, HalfDone, Moved;
  }

  // ----- the order of steps does not matter -----

  lemma SameDirs(p: Peer, q: Peer, src: Host, d: Direction, l: Catalogue, r: Catalogue, strict: bool)
    requires p.host == q.host && Delivered(p, src, d, l, r, strict) && Delivered(q, src, d, l, r, strict)
    ensures p.dirs == q.dirs
  {
    forall v
      ensures v in p.dirs <==> v in q.dirs
      ensures v in p.dirs ==> p.dirs[v] == q.dirs[v]
    {
      assert Get(p.dirs, v) == Get(q.dirs, v);
    }
  }

  lemma SameMoved(l: Catalogue, r: Catalogue, strict: bool, p: Plan, q: Plan, d: Direction)
    requires IsPlan(l, r, strict, p) && IsPlan(l, r, strict, q) && (d == Push || d == Pull)
    ensures Moved(p, d) == Moved(q, d)
  {
    hide Moved, PlanOn, VerdictOn;
    PlanMoved(l, r, strict, p);
    PlanMoved(l, r, strict, q);
    forall n
      ensures n in Moved(p, d) <==> n in Moved(q, d)
    {
      assert n in Moved(p, d) <==> VerdictOn(l, r, strict, n) == Send(d);
      assert n in Moved(q, d) <==> VerdictOn(l, r, strict, n) == Send(d);
    }
  }

  /**
   If one session of two peers completes without a failure, every session of theirs does, and leaves the same files and
   the same catalogues, whatever the interleaving and whatever plans the map order leads to.
   */
  lemma SameOutcome(hi: Host, hr: Host, one: seq<Sys>, other: nat -> Sys) returns (n: nat)
    requires SessionRun(hi, hr, one) && Done(one[|one| - 1]) && NoErrors(one[|one| - 1])
    requires other(0) == Start(hi, hr) && Maximal(other)
    ensures var s, t := one[|one| - 1], other(n);
            && Done(t) && NoErrors(t)
            && t.i.dirs == s.i.dirs && t.r.dirs == s.r.dirs
            && t.i.catalogue == s.i.catalogue && t.r.catalogue == s.r.catalogue
  {
    hide Honest, Step, Start, Delivered, Pulled, Moved, PlanOn, Maximal, VerdictOn, NoErrors;
    CompletionExact(hi, hr, one);
    n := HonestSessionsComplete(hi, hr, other);
    var s, t := one[|one| - 1], other(n);
    var l, r := hi.catalogue, hr.catalogue;
    SameDirs(s.i, t.i, hr, Pull, l, r, hi.strict);
    SameDirs(s.r, t.r, hi, Push, l, r, hi.strict);
    SameMoved(l, r, hi.strict, s.i.plan.value, t.i.plan.value, Pull);
    SameMoved(l, r, hi.strict, s.i.plan.value, t.i.plan.value, Push);
  }
}
