/** Which sessions finish and which block, in terms of the vaults on the two hosts. */
module SessionFinish {
  import opened Results
  import opened FileNames
  import opened Transfer
  import opened Negotiation
  import opened ChainCatalogue
  import opened Convergence
  import opened Session
  import opened SessionSafety
  import opened SessionRuns
  import opened SessionResults
  import opened SessionBlocking
  import opened SessionEnds
  import opened Endpoint

  // ----- enough blocks for all receives -----

  function EndCount(stream: seq<Message>): nat {
    if stream == [] then 0 else (if stream[0].EndMsg? then 1 else 0) + EndCount(stream[1..])
  }

  lemma {:induction false} EndsAdd(a: seq<Message>, b: seq<Message>)
    ensures EndCount(a + b) == EndCount(a) + EndCount(b)
  {
    if a == [] {
      assert a + b == b;
    } else {
      EndsAdd(a[1..], b);
      assert (a + b)[1..] == a[1..] + b;
    }
  }

  function ReceiveCount(todo: seq<Task>): nat {
    if todo == [] then 0 else (if Receiving(todo[0]) then 1 else 0) + ReceiveCount(todo[1..])
  }

  lemma ReceivesHead(t: Task, rest: seq<Task>)
    ensures ReceiveCount([t] + rest) == (if Receiving(t) then 1 else 0) + ReceiveCount(rest)
  {
    assert ([t] + rest)[1..] == rest;
  }

  /** A receive consumes at most one end message, so receives do not run out while there are as many end messages. */
  lemma {:induction false} EnoughEnds(todo: seq<Task>, stream: seq<Message>)
    requires EndCount(stream) >= ReceiveCount(todo)
    ensures Drain(todo, stream).Left?
    decreases |stream|, |todo|, if todo != [] && todo[0].ReceiveVault? then 1 else 0
  {
    hide Drain, ValidName, Stages;
    if todo == [] {
      DrainNothing(stream);
    } else {
      var t, rest := todo[0], todo[1..];
      assert todo == [t] + rest;
      DrainHead(t, rest, stream);
      ReceivesHead(t, rest);
      if t.ReceiveVault? && ValidName(t.vault) {
        ReceivesHead(AwaitBegin(t.vault), rest);
        EnoughEnds([AwaitBegin(t.vault)] + rest, stream);
      } else if t.AwaitBegin? && stream[0].BeginMsg? {
        ReceivesHead(AwaitFile(t.vault, map[], 0), rest);
        EnoughEnds([AwaitFile(t.vault, map[], 0)] + rest, stream[1..]);
      } else if t.AwaitFile? && Stages(stream[0]) {
        StagesIs(stream[0]);
        var next := AwaitFile(t.vault, t.staged[stream[0].name := stream[0].data], t.count + 1);
        ReceivesHead(next, rest);
        EnoughEnds([next] + rest, stream[1..]);
      } else {
        EnoughEnds(rest, if t.AwaitBegin? || t.AwaitFile? then stream[1..] else stream);
      }
    }
  }

  lemma {:induction false} ListReceives(names: seq<string>)
    ensures ReceiveCount(ReceiveTasks(names)) == |names|
  {
    if names != [] {
      ListReceives(names[1..]);
      assert ReceiveTasks(names)[1..] == ReceiveTasks(names[1..]);
    }
  }

  lemma BlockEnds(v: string, files: Files)
    ensures EndCount(Block(v, files)) >= 1
  {
    var b := Block(v, files);
    EndsAdd(b[..|b| - 1], [EndMsg(v)]);
    assert b == b[..|b| - 1] + [EndMsg(v)];
  }

  lemma {:induction false} SentEnds(h: Host, names: seq<string>)
    requires forall v | v in names :: SentFine(h, v)
    ensures EndCount(SentBy(h, names)) >= |names|
  {
    hide Block, SentFine, Outgoing, EndCount;
    if names != [] {
      assert names[0] in names && forall v | v in names[1..] :: v in names;
      OutgoingFine(h, h.dirs, names[0]);
      BlockEnds(names[0], FilesOf(h, names[0]));
      SentEnds(h, names[1..]);
      EndsAdd(Outgoing(h, h.dirs, names[0]).messages, SentBy(h, names[1..]));
    }
  }

  lemma EnoughSent(h: Host, names: seq<string>)
    requires forall v | v in names :: SentFine(h, v)
    ensures OnOpen(names, SentBy(h, names)).Left?
  {
    hide Drain, SentFine, SentBy;
    SentEnds(h, names);
    ListReceives(names);
    EnoughEnds(ReceiveTasks(names), SentBy(h, names));
  }

  // ----- whole runs -----

  ghost predicate PlansAgree(hi: Host, hr: Host) {
    forall n :: VerdictOn(hi.catalogue, hr.catalogue, hi.strict, n)
             == Mirror(VerdictOn(hr.catalogue, hi.catalogue, hr.strict, n))
  }

  predicate Planned(hi: Host, hr: Host, v: string, d: Direction) {
    VerdictOn(hi.catalogue, hr.catalogue, hi.strict, v) == Send(d)
  }

  lemma NamesPlanned(hi: Host, hr: Host, p: Plan, q: Plan)
    requires Plans(hi, hr, p, q)
    ensures Agree(p, q) <==> PlansAgree(hi, hr)
    ensures forall v :: v in PushNames(p) <==> Planned(hi, hr, v, Push)
    ensures forall v :: v in PullNames(p) <==> Planned(hi, hr, v, Pull)
  {
    hide VerdictOn, PlanOn, Moved, Agree, Toward, Distinct;
    AgreeExact(hi.catalogue, hr.catalogue, hi.strict, hr.strict, p, q);
    PlanMoved(hi.catalogue, hr.catalogue, hi.strict, p);
    TowardMoved(p, Push);
    TowardMoved(p, Pull);
    forall v
      ensures v in PushNames(p) <==> v in Moved(p, Push)
      ensures v in PullNames(p) <==> v in Moved(p, Pull)
    {
      assert v in Names(PushNames(p)) <==> v in PushNames(p);
      assert v in Names(PullNames(p)) <==> v in PullNames(p);
    }
  }

  lemma {:induction false} StaysPut(run: nat -> Sys, k: nat, m: nat)
    requires Maximal(run) && Stuck(run(k)) && k <= m
    ensures run(m) == run(k)
    decreases m - k
  {
    hide Step;
    if k < m {
      StaysPut(run, k, m - 1);
      assert run(m - 1 + 1) == run(m);
    }
  }

  lemma DoneStuck(s: Sys)
    requires Done(s)
    ensures Stuck(s)
  {
    hide Act;
  }

  /** The end of a run: it is reached, and it has the exact condition. */
  lemma EndOf(hi: Host, hr: Host, run: nat -> Sys) returns (n: nat)
    requires run(0) == Start(hi, hr) && Maximal(run)
    ensures Stuck(run(n)) && SessionRun(hi, hr, UpTo(run, n))
    ensures run(n).i.plan.Some? && run(n).r.plan.Some? && Plans(hi, hr, run(n).i.plan.value, run(n).r.plan.value)
    ensures Done(run(n)) <==> Finishes(hi, hr, run(n).i.plan.value, run(n).r.plan.value)
    ensures (exists k: nat :: Done(run(k))) <==> Done(run(n))
  {
    hide Step, Stuck, Finishes, Plans, Start, Done;
    n := EveryRunEnds(run, 0);
    var states := UpTo(run, n);
    forall k | 0 < k < |states|
      ensures Step(states[k - 1], states[k])
    {
      assert Step(run(k - 1), run(k - 1 + 1));
    }
    FinishExact(hi, hr, states);
    if k: nat :| Done(run(k)) {
      DoneStuck(run(k));
      if k <= n {
        StaysPut(run, k, n);
      } else {
        StaysPut(run, n, k);
      }
    }
  }

  /**
   If the peers' plans disagree, or every planned vault can be read where it is, every session finishes, whatever the
   names and sizes of the files: a receive can fail, but it never needs more than one sender's block.
   */
  lemma ReadableFinishes(hi: Host, hr: Host, run: nat -> Sys) returns (n: nat)
    requires run(0) == Start(hi, hr) && Maximal(run)
    requires PlansAgree(hi, hr) ==>
               && (forall v | Planned(hi, hr, v, Push) :: SentFine(hi, v))
               && (forall v | Planned(hi, hr, v, Pull) :: SentFine(hr, v))
    ensures Done(run(n))
  {
    hide Maximal, Start, Stuck, SentFine, OnOpen, SentBy, Plans, PlansAgree, Planned, Agree, PushNames, PullNames, SessionRun;
    n := EndOf(hi, hr, run);
    var p, q := run(n).i.plan.value, run(n).r.plan.value;
    NamesPlanned(hi, hr, p, q);
    if PlansAgree(hi, hr) {
      EnoughSent(hi, PushNames(p));
      EnoughSent(hr, PullNames(p));
    }
  }

  // ----- vaults whose files can all be sent and received -----

  /** The vault's directory can be listed. */
  predicate Listable(h: Host, v: string) {
    v in h.dirs && v !in h.unlistable
  }

  /** Nothing is wrong with the vault except perhaps that its directory cannot be listed. */
  predicate Clean(h: Host, v: string) {
    FineFiles(v, FilesOf(h, v)) && forall n | n in FilesOf(h, v) :: (v, n) !in h.unreadable
  }

  function ListableCount(h: Host, names: seq<string>): (k: nat)
    ensures k <= |names|
  {
    if names == [] then 0 else (if Listable(h, names[0]) then 1 else 0) + ListableCount(h, names[1..])
  }

  lemma {:induction false} AllListable(h: Host, names: seq<string>)
    ensures ListableCount(h, names) == |names| <==> forall v | v in names :: Listable(h, v)
  {
    hide Listable;
    if names != [] {
      AllListable(h, names[1..]);
      assert forall v | v in names :: v == names[0] || v in names[1..];
      assert forall v | v in names[1..] :: v in names;
      assert names[0] in names;
    }
  }

  /** On messages that a receive takes to their end, the other tasks go on after them. */
  lemma {:induction false} DrainFiles(t: Task, todo: seq<Task>, stream: seq<Message>)
    requires t.AwaitFile? && ReceiveFiles(stream, t.staged).staged.Some?
    ensures Drain([t] + todo, stream) == Drain(todo, ReceiveFiles(stream, t.staged).rest)
    decreases |stream|
  {
    hide Drain, ValidName;
    DrainHead(t, todo, stream);
    if Stages(stream[0]) {
      DrainFiles(AwaitFile(t.vault, t.staged[stream[0].name := stream[0].data], t.count + 1), todo, stream[1..]);
    }
  }

  lemma DrainBlock(v: string, w: string, files: Files, todo: seq<Task>, rest: seq<Message>)
    requires ValidName(v) && Transferable(files)
    ensures Drain([ReceiveVault(v)] + todo, Block(w, files) + rest) == Drain(todo, rest)
  {
    hide Drain, ValidName, Transferable, Block, ReceiveFiles;
    var stream := Block(w, files) + rest;
    ReceiveBlock(v, w, files, rest);
    DrainHead(ReceiveVault(v), todo, stream);
    DrainHead(AwaitBegin(v), todo, stream);
    DrainFiles(AwaitFile(v, map[], 0), todo, stream[1..]);
  }

  lemma OutgoingClean(h: Host, v: string)
    requires Clean(h, v)
    ensures !Listable(h, v) ==> Outgoing(h, h.dirs, v).messages == []
    ensures Listable(h, v) ==> Outgoing(h, h.dirs, v).messages == Block(v, FilesOf(h, v))
    ensures Transferable(FilesOf(h, v)) && ValidName(v)
  {
    hide Block, Transferable, ValidName;
    OutgoingFine(h, h.dirs, v);
  }

  /** Receives of clean vaults take the blocks one by one. */
  lemma {:induction false} CleanDrain(h: Host, names: seq<string>, sent: seq<string>)
    requires (forall v | v in names :: ValidName(v)) && forall v | v in sent :: Clean(h, v)
    requires |names| >= ListableCount(h, sent)
    ensures OnOpen(names, SentBy(h, sent)) == if |names| == ListableCount(h, sent) then Left([]) else Starved
    decreases |sent|
  {
    hide Drain, Clean, Listable, Outgoing, ValidName, Block, Transferable, FilesOf;
    if sent == [] {
      NothingSent(names);
    } else {
      assert sent[0] in sent && forall v | v in sent[1..] :: v in sent;
      OutgoingClean(h, sent[0]);
      if Listable(h, sent[0]) {
        assert names[0] in names && forall v | v in names[1..] :: v in names;
        CleanDrain(h, names[1..], sent[1..]);
        assert ReceiveTasks(names) == [ReceiveVault(names[0])] + ReceiveTasks(names[1..]);
        DrainBlock(names[0], sent[0], FilesOf(h, sent[0]), ReceiveTasks(names[1..]), SentBy(h, sent[1..]));
      } else {
        CleanDrain(h, names, sent[1..]);
        assert [] + SentBy(h, sent[1..]) == SentBy(h, sent[1..]);
      }
    }
  }

  lemma NothingSent(names: seq<string>)
    requires forall v | v in names :: ValidName(v)
    ensures OnOpen(names, []) == if names == [] then Left([]) else Starved
  {
    hide Drain, ValidName;
    if names == [] {
      assert ReceiveTasks(names) == [];
      DrainNothing([]);
    } else {
      assert names[0] in names;
      assert ReceiveTasks(names) == [ReceiveVault(names[0])] + ReceiveTasks(names[1..]);
      DrainHead(ReceiveVault(names[0]), ReceiveTasks(names[1..]), []);
      DrainHead(AwaitBegin(names[0]), ReceiveTasks(names[1..]), []);
    }
  }

  /** Nothing but unlistable directories can go wrong. */
  ghost predicate CleanHosts(hi: Host, hr: Host) {
    && PlansAgree(hi, hr)
    && (forall v | Planned(hi, hr, v, Push) :: Clean(hi, v)) && (forall v | Planned(hi, hr, v, Pull) :: Clean(hr, v))
  }

  ghost predicate EnoughListable(hi: Host, hr: Host) {
    && (forall v | Planned(hi, hr, v, Pull) :: Listable(hr, v))
    && ((forall v :: !Planned(hi, hr, v, Pull)) || (forall v | Planned(hi, hr, v, Push) :: Listable(hi, v)))
  }

  lemma CleanFinishes(hi: Host, hr: Host, p: Plan, q: Plan)
    requires Plans(hi, hr, p, q) && CleanHosts(hi, hr)
    ensures Finishes(hi, hr, p, q) <==> EnoughListable(hi, hr)
  {
    hide Clean, Listable, OnOpen, SentBy, Plans, PlansAgree, Planned, Agree, PushNames, PullNames, ValidName;
    NamesPlanned(hi, hr, p, q);
    var pushes, pulls := PushNames(p), PullNames(p);
    forall v | v in pushes || v in pulls
      ensures ValidName(v)
    {
      if v in pushes {
        OutgoingClean(hi, v);
      } else {
        OutgoingClean(hr, v);
      }
    }
    CleanDrain(hi, pushes, pushes);
    CleanDrain(hr, pulls, pulls);
    NothingSent(pulls);
    AllListable(hi, pushes);
    AllListable(hr, pulls);
    if pulls != [] {
      assert pulls[0] in pulls;
    }
  }

  /**
   When all files can be sent and received, a session of peers that agree finishes if and only if every pulled vault can
   be listed, and every pushed vault can be listed or nothing is pulled.
   */
  lemma CleanFinishExact(hi: Host, hr: Host, run: nat -> Sys)
    requires run(0) == Start(hi, hr) && Maximal(run) && CleanHosts(hi, hr)
    ensures (exists k: nat :: Done(run(k))) <==> EnoughListable(hi, hr)
  {
    hide Maximal, Start, Stuck, Plans, CleanHosts, EnoughListable, Finishes, SessionRun, Done;
    var n := EndOf(hi, hr, run);
    CleanFinishes(hi, hr, run(n).i.plan.value, run(n).r.plan.value);
  }

  // ----- a session that blocks -----

  ghost function Onward(s: Sys): Sys {
    if Stuck(s) then s
    else
      var t :| Step(s, t);
      t
  }

  ghost function SomeState(hi: Host, hr: Host, k: nat): Sys {
    if k == 0 then Start(hi, hr) else Onward(SomeState(hi, hr, k - 1))
  }

  /** There is a session of any two hosts. */
  lemma SomeRun(hi: Host, hr: Host) returns (run: nat -> Sys)
    ensures run(0) == Start(hi, hr) && Maximal(run)
  {
    hide Step, Start;
    run := (k: nat) => SomeState(hi, hr, k);
    forall k: nat
      ensures Step(run(k), run(k + 1)) || (Stuck(run(k)) && run(k + 1) == run(k))
    {
      assert run(k + 1) == Onward(run(k));
    }
  }

  /** A vault that the responder cannot list, or a push that the initiator cannot list beside a pull, blocks both peers. */
  lemma UnlistableBlocks(hi: Host, hr: Host, v: string) returns (run: seq<Sys>)
    requires CleanHosts(hi, hr)
    requires || (Planned(hi, hr, v, Pull) && !Listable(hr, v))
             || (Planned(hi, hr, v, Push) && !Listable(hi, v) && exists w :: Planned(hi, hr, w, Pull))
    ensures SessionRun(hi, hr, run) && Stuck(run[|run| - 1]) && !Done(run[|run| - 1])
  {
    hide Maximal, Start, Stuck, Plans, CleanHosts, Finishes, SessionRun, Done, Planned, Listable;
    var states := SomeRun(hi, hr);
    var n := EndOf(hi, hr, states);
    CleanFinishExact(hi, hr, states);
    run := UpTo(states, n);
  }
}
