/**
 The two sides of a session as the source writes them (internal/sync/service.go:486-910): loops that read from and write
 to a stream, proved to compute what the tasks of module Session compute.
 */
module Endpoint {
  import opened Results
  import opened FileNames
  import opened Transfer
  import opened Entries
  import opened Negotiation
  import opened ChainCatalogue
  import opened Session
  import SessionSafety
  import opened SessionResults
  import opened SessionStreams

  // ----- receiving one vault from a stream -----

  datatype Reception = Reception(staged: Option<Files>, rest: seq<Message>)

  function ReceiveFiles(inbox: seq<Message>, staged: Files): (r: Reception)
    ensures |r.rest| <= |inbox|
  {
    if inbox == [] then Reception(None, [])
    else match inbox[0]
      case EndMsg(_) => Reception(Some(staged), inbox[1..])
      case FileMsg(_, n, data) =>
        if ValidName(n) && |data| <= MAX_TRANSFER_FILE_SIZE then ReceiveFiles(inbox[1..], staged[n := data])
        else Reception(None, inbox[1..])
      case _ => Reception(None, inbox[1..])
  }

  /** receiveVault: the files it commits, if any, and what it leaves unread. */
  function Receive(v: string, inbox: seq<Message>): Reception {
    if !ValidName(v) then Reception(None, inbox)
    else if inbox == [] then Reception(None, [])
    else if !inbox[0].BeginMsg? then Reception(None, inbox[1..])
    else ReceiveFiles(inbox[1..], map[])
  }

  /** A peer after receiving vault v, its first task. */
  function AfterReceive(p: Peer, v: string, r: Reception): Peer
    requires p.todo != []
  {
    if !ValidName(v) then Fail(p)
    else if r.staged.None? then Fail(p).(dirs := MadeDir(p.dirs, v))
    else Commit(p, v, r.staged.value)
  }

  function AfterSend(p: Peer, v: string, ok: bool): Peer
    requires p.todo != []
  {
    if ok then Pop(p) else Pop(p).(errors := p.errors + [v])
  }

  // ----- tasks carried out in one go -----

  lemma {:induction false} RunPuts(p: Peer, messages: seq<Message>, rest: seq<Task>, inbox: seq<Message>, plan: Plan)
    requires p.todo == Puts(messages) + rest
    ensures RunAll(p, inbox, plan) == After(messages, RunAll(p.(todo := rest), inbox, plan))
    decreases |messages|
  {
    hide RunAll;
    AfterAfter([], [], RunAll(p, inbox, plan));
    if messages == [] {
      assert p.todo == rest;
    } else {
      RunStep(p, inbox, plan);
      var q := Pop(p);
      assert q.todo == Puts(messages[1..]) + rest;
      RunPuts(q, messages[1..], rest, inbox, plan);
      AfterAfter([messages[0]], messages[1..], RunAll(p.(todo := rest), inbox, plan));
      assert [messages[0]] + messages[1..] == messages;
    }
  }

  lemma RunSend(p: Peer, v: string, inbox: seq<Message>, plan: Plan)
    requires p.todo != [] && p.todo[0] == SendVault(v)
    ensures var o := Outgoing(p.host, p.dirs, v);
            RunAll(p, inbox, plan) == After(o.messages, RunAll(AfterSend(p, v, o.ok), inbox, plan))
  {
    hide RunAll, Outgoing, Puts;
    RunStep(p, inbox, plan);
    var o := Outgoing(p.host, p.dirs, v);
    var q := Act(p, None, plan).peer;
    RunPuts(q, o.messages, p.todo[1..], inbox, plan);
    AfterAfter([], [], RunAll(q, inbox, plan));
  }

  lemma {:induction false} RunFiles(p: Peer, inbox: seq<Message>, plan: Plan)
    requires p.todo != [] && p.todo[0].AwaitFile?
    ensures var r := ReceiveFiles(inbox, p.todo[0].staged);
            var q := if r.staged.None? then Fail(p) else Commit(p, p.todo[0].vault, r.staged.value);
            RunAll(p, inbox, plan) == RunAll(q, r.rest, plan)
    decreases |inbox|
  {
    hide RunAll, Received, ValidName;
    var AwaitFile(v, staged, count) := p.todo[0];
    RunStep(p, inbox, plan);
    var q := Act(p, NextMessage(p, inbox), plan).peer;
    AfterAfter([], [], RunAll(q, Unread(p, inbox), plan));
    if inbox != [] && inbox[0].FileMsg? && ValidName(inbox[0].name) && |inbox[0].data| <= MAX_TRANSFER_FILE_SIZE {
      var next := AwaitFile(v, staged[inbox[0].name := inbox[0].data], count + 1);
      assert q == Replace(p, [next]) && q.todo[1..] == p.todo[1..];
      RunFiles(q, inbox[1..], plan);
    }
  }

  lemma RunReceive(p: Peer, v: string, inbox: seq<Message>, plan: Plan)
    requires p.todo != [] && p.todo[0] == ReceiveVault(v)
    ensures var r := Receive(v, inbox);
            RunAll(p, inbox, plan) == RunAll(AfterReceive(p, v, r), r.rest, plan)
  {
    hide RunAll, Received, ValidName, ReceiveFiles;
    RunStep(p, inbox, plan);
    var q := Act(p, None, plan).peer;
    AfterAfter([], [], RunAll(q, inbox, plan));
    if ValidName(v) {
      assert q == Replace(p, [AwaitBegin(v)]).(dirs := MadeDir(p.dirs, v)) && q.todo[1..] == p.todo[1..];
      RunStep(q, inbox, plan);
      var t := Act(q, NextMessage(q, inbox), plan).peer;
      AfterAfter([], [], RunAll(t, Unread(q, inbox), plan));
      if inbox != [] && inbox[0].BeginMsg? {
        assert t == Replace(q, [AwaitFile(v, map[], 0)]) && t.todo[1..] == p.todo[1..];
        RunFiles(t, inbox[1..], plan);
        CommitAlike(p, t, v, ReceiveFiles(inbox[1..], map[]).staged);
      }
    }
  }

  lemma CommitAlike(p: Peer, t: Peer, v: string, staged: Option<Files>)
    requires p.todo != [] && t.todo != [] && t.todo[1..] == p.todo[1..] && Label(p.todo[0]) == Label(t.todo[0])
    requires t == p.(todo := t.todo, dirs := MadeDir(p.dirs, v))
    ensures staged.Some? ==> Commit(t, v, staged.value) == Commit(p, v, staged.value)
    ensures Fail(t) == Fail(p).(dirs := MadeDir(p.dirs, v))
  {
    hide Received;
    if staged.Some? {
      assert MadeDir(p.dirs, v)[v := staged.value] == p.dirs[v := staged.value];
    }
  }

  // ----- the methods -----

  /** The sequential program has come so far: it has written out and goes on as p with the rest of the stream. */
  ghost predicate Sofar(full: Ran, out: seq<Message>, p: Peer, inbox: seq<Message>, plan: Plan) {
    full == After(out, RunAll(p, inbox, plan))
  }

  lemma SofarStep(full: Ran, out: seq<Message>, p: Peer, inbox: seq<Message>, plan: Plan)
    requires Sofar(full, out, p, inbox, plan) && p.todo != []
    ensures var e := Act(p, NextMessage(p, inbox), plan);
            Sofar(full, out + e.out, e.peer, Unread(p, inbox), plan)
  {
    hide Act, RunAll;
    RunStep(p, inbox, plan);
    var e := Act(p, NextMessage(p, inbox), plan);
    AfterAfter(out, e.out, RunAll(e.peer, Unread(p, inbox), plan));
  }

  lemma SofarSend(full: Ran, out: seq<Message>, p: Peer, v: string, inbox: seq<Message>, plan: Plan)
    requires Sofar(full, out, p, inbox, plan) && p.todo != [] && p.todo[0] == SendVault(v)
    ensures var o := Outgoing(p.host, p.dirs, v);
            Sofar(full, out + o.messages, AfterSend(p, v, o.ok), inbox, plan)
  {
    hide RunAll, Outgoing;
    RunSend(p, v, inbox, plan);
    var o := Outgoing(p.host, p.dirs, v);
    AfterAfter(out, o.messages, RunAll(AfterSend(p, v, o.ok), inbox, plan));
  }

  lemma {:induction false} TowardAt(auto: seq<VaultTransfer>, i: nat, d: Direction)
    requires i < |auto|
    ensures Toward(auto[i..], d) == (if auto[i].direction == d then [auto[i].vaultName] else []) + Toward(auto[i + 1..], d)
  {
    assert auto[i..][0] == auto[i] && auto[i..][1..] == auto[i + 1..];
  }

  lemma FirstTasks(v: string, names: seq<string>, rest: seq<Task>)
    ensures SendTasks([v] + names) + rest == [SendVault(v)] + (SendTasks(names) + rest)
    ensures ReceiveTasks([v] + names) + rest == [ReceiveVault(v)] + (ReceiveTasks(names) + rest)
    ensures SendTasks([]) + rest == rest == ReceiveTasks([]) + rest
    ensures ([SendVault(v)] + (SendTasks(names) + rest))[1..] == SendTasks(names) + rest
    ensures ([ReceiveVault(v)] + (ReceiveTasks(names) + rest))[1..] == ReceiveTasks(names) + rest
  {
  }

  lemma ReadableUpTo(v: string, names: seq<string>, unreadable: set<(string, string)>, k: nat)
    requires k <= |names| && (forall i | 0 <= i < k :: (v, names[i]) !in unreadable)
    requires k < |names| ==> (v, names[k]) in unreadable
    ensures Readable(v, names, unreadable) == k
  {
    if k > 0 {
      ReadableUpTo(v, names[1..], unreadable, k - 1);
    }
  }

  /** The transfers of one direction whose vault is sent to its end. */
  ghost function SentOf(h: Host, dirs: map<string, Files>, auto: seq<VaultTransfer>, d: Direction): seq<VaultTransfer> {
    if auto == [] then []
    else
      (if auto[0].direction == d && Outgoing(h, dirs, auto[0].vaultName).ok then [auto[0]] else [])
      + SentOf(h, dirs, auto[1..], d)
  }

  lemma SentOfAt(h: Host, dirs: map<string, Files>, auto: seq<VaultTransfer>, i: nat, d: Direction, before: seq<VaultTransfer>)
    requires i < |auto|
    ensures before + SentOf(h, dirs, auto[i..], d)
         == before + (if auto[i].direction == d && Outgoing(h, dirs, auto[i].vaultName).ok then [auto[i]] else [])
            + SentOf(h, dirs, auto[i + 1..], d)
  {
    assert auto[i..][0] == auto[i] && auto[i..][1..] == auto[i + 1..];
  }

  lemma NothingSentOf(h: Host, dirs: map<string, Files>, auto: seq<VaultTransfer>, d: Direction, before: seq<VaultTransfer>)
    ensures [] + SentOf(h, dirs, auto, d) == SentOf(h, dirs, auto, d)
    ensures before + SentOf(h, dirs, [], d) == before
  {
  }

  /** The transfers of one direction whose vault is received and committed, on a stream that is read in order. */
  function ReceivedOf(auto: seq<VaultTransfer>, d: Direction, inbox: seq<Message>): seq<VaultTransfer> {
    if auto == [] then []
    else if auto[0].direction != d then ReceivedOf(auto[1..], d, inbox)
    else
      var r := Receive(auto[0].vaultName, inbox);
      (if r.staged.Some? then [auto[0]] else []) + ReceivedOf(auto[1..], d, r.rest)
  }

  lemma ReceivedOfAt(auto: seq<VaultTransfer>, i: nat, d: Direction, inbox: seq<Message>, before: seq<VaultTransfer>)
    requires i < |auto|
    ensures before + ReceivedOf(auto[i..], d, inbox)
         == if auto[i].direction != d then before + ReceivedOf(auto[i + 1..], d, inbox)
            else
              var r := Receive(auto[i].vaultName, inbox);
              before + (if r.staged.Some? then [auto[i]] else []) + ReceivedOf(auto[i + 1..], d, r.rest)
  {
    hide Receive;
    assert auto[i..][0] == auto[i] && auto[i..][1..] == auto[i + 1..];
  }

  lemma NothingReceivedOf(auto: seq<VaultTransfer>, d: Direction, inbox: seq<Message>, before: seq<VaultTransfer>)
    ensures [] + ReceivedOf(auto, d, inbox) == ReceivedOf(auto, d, inbox)
    ensures before + ReceivedOf([], d, inbox) == before
  {
  }

  class Peering {
    const host: Host
    const manager: CatalogueManager
    /** The messages not yet read, up to the end of the stream. */
    var inbox: seq<Message>
    var outbox: seq<Message>
    var dirs: map<string, Files>
    var remote: Option<Catalogue>
    var plan: Option<Plan>
    var errors: seq<string>

    constructor (h: Host, stream: seq<Message>)
      ensures host == h && inbox == stream && outbox == [] && fresh(manager)
      ensures State([]) == Session.Fresh(h, [])
    {
      host, dirs, remote, plan, errors := h, h.dirs, None, None, [];
      inbox, outbox := stream, [];
      manager := new CatalogueManager(h.catalogue);
    }

    ghost function State(todo: seq<Task>): Peer
      reads this, manager
    {
      Peer(host, todo, dirs, manager.stored, remote, plan, errors)
    }

    method SendVault(v: string) returns (ok: bool)
      modifies this`outbox
      ensures old(outbox) <= outbox && Sent(outbox[|old(outbox)|..], ok) == Outgoing(host, dirs, v)
    {
      if v !in dirs || v in host.unlistable {
        return false;
      }
      var files := dirs[v];
      var entries := ReadDir(files.Keys);
      ListingUnique(entries, NamesOf(files));
      ListedIn(entries, files);
      ghost var block := Block(v, files);
      ghost var before := outbox;
      outbox := outbox + [BeginMsg(v)];
      for i := 0 to |entries|
        invariant before <= outbox && outbox[|before|..] == block[..i + 1]
        invariant forall j | 0 <= j < i :: (v, entries[j]) !in host.unreadable
      {
        if (v, entries[i]) in host.unreadable {
          ReadableUpTo(v, entries, host.unreadable, i);
          return false;
        }
        outbox := outbox + [FileMsg(v, entries[i], files[entries[i]])];
      }
      ReadableUpTo(v, entries, host.unreadable, |entries|);
      outbox := outbox + [EndMsg(v)];
      return true;
    }

    /** The staged files are committed as VaultDirectory.VaultDir.CommitStaging does when nothing fails. */
    method ReceiveVault(v: string) returns (ok: bool)
      modifies this`inbox, this`dirs
      ensures var r := Receive(v, old(inbox));
              && ok == r.staged.Some? && inbox == r.rest
              && dirs == if ok then old(dirs)[v := r.staged.value]
                         else if ValidName(v) then MadeDir(old(dirs), v) else old(dirs)
    {
      if !ValidName(v) {
        return false;
      }
      dirs := MadeDir(dirs, v);
      var staging: Files := map[];
      if inbox == [] {
        return false;
      }
      var beginMsg := inbox[0];
      inbox := inbox[1..];
      if !beginMsg.BeginMsg? {
        return false;
      }
      while true
        invariant ReceiveFiles(old(inbox)[1..], map[]) == ReceiveFiles(inbox, staging)
        invariant dirs == MadeDir(old(dirs), v)
        decreases |inbox|
      {
        if inbox == [] {
          return false;
        }
        var msg := inbox[0];
        inbox := inbox[1..];
        if msg.EndMsg? {
          break;
        }
        if !msg.FileMsg? || !ValidName(msg.name) || |msg.data| > MAX_TRANSFER_FILE_SIZE {
          return false;
        }
        staging := staging[msg.name := msg.data];
      }
      dirs := dirs[v := staging];
      return true;
    }

    /** A loop over the plan that sends the vaults of one direction. */
    method SendAll(auto: seq<VaultTransfer>, d: Direction, ghost rest: seq<Task>, ghost full: Ran, ghost p: Plan)
        returns (transfers: seq<VaultTransfer>)
      requires Sofar(full, outbox, State(SendTasks(Toward(auto, d)) + rest), inbox, p)
      modifies this`outbox, this`errors
      ensures Sofar(full, outbox, State(rest), inbox, p)
      ensures transfers == SentOf(host, dirs, auto, d)
    {
      hide Outgoing, Sofar, SendTasks, SentOf;
      assert auto[0..] == auto;
      transfers := [];
      NothingSentOf(host, dirs, auto, d, []);
      for i := 0 to |auto|
        invariant transfers + SentOf(host, dirs, auto[i..], d) == SentOf(host, dirs, auto, d)
        invariant Sofar(full, outbox, State(SendTasks(Toward(auto[i..], d)) + rest), inbox, p)
      {
        var t := auto[i];
        ghost var names := Toward(auto[i + 1..], d);
        TowardAt(auto, i, d);
        SentOfAt(host, dirs, auto, i, d, transfers);
        if t.direction == d {
          FirstTasks(t.vaultName, names, rest);
          SofarSend(full, outbox, State([Session.SendVault(t.vaultName)] + (SendTasks(names) + rest)), t.vaultName, inbox, p);
          ghost var before := outbox;
          var ok := SendVault(t.vaultName);
          assert outbox == before + outbox[|before|..];
          if !ok {
            errors := errors + [t.vaultName];
          } else {
            transfers := transfers + [t];
          }
        } else {
          assert [] + names == names;
        }
      }
      FirstTasks("", [], rest);
      assert auto[|auto|..] == [];
      NothingSentOf(host, dirs, [], d, transfers);
    }

    /** A loop over the plan that receives the vaults of one direction. */
    method ReceiveAll(auto: seq<VaultTransfer>, d: Direction, ghost rest: seq<Task>, ghost full: Ran, ghost p: Plan)
        returns (transfers: seq<VaultTransfer>)
      requires Sofar(full, outbox, State(ReceiveTasks(Toward(auto, d)) + rest), inbox, p) && remote.Some?
      modifies this`inbox, this`dirs, this`errors, manager
      ensures Sofar(full, outbox, State(rest), inbox, p)
      ensures transfers == ReceivedOf(auto, d, old(inbox))
    {
      hide Receive, Received, RunAll, ReceiveTasks, ValidName, ReceivedOf;
      assert auto[0..] == auto;
      transfers := [];
      NothingReceivedOf(auto, d, inbox, []);
      for i := 0 to |auto|
        invariant transfers + ReceivedOf(auto[i..], d, inbox) == ReceivedOf(auto, d, old(inbox))
        invariant Sofar(full, outbox, State(ReceiveTasks(Toward(auto[i..], d)) + rest), inbox, p)
      {
        var t := auto[i];
        ghost var names := Toward(auto[i + 1..], d);
        TowardAt(auto, i, d);
        ReceivedOfAt(auto, i, d, inbox, transfers);
        if t.direction != d {
          assert [] + names == names;
          continue;
        }
        FirstTasks(t.vaultName, names, rest);
        RunReceive(State([Session.ReceiveVault(t.vaultName)] + (ReceiveTasks(names) + rest)), t.vaultName, inbox, p);
        InvalidReceive(t.vaultName, inbox);
        var ok := ReceiveVault(t.vaultName);
        if !ok {
          errors := errors + [t.vaultName];
          continue;
        }
        var updated := manager.UpdateCatalogueAfterReceive(remote.value, t.vaultName, host.root);
        if !updated {
          errors := errors + [t.vaultName];
        }
        transfers := transfers + [t];
      }
      FirstTasks("", [], rest);
      assert auto[|auto|..] == [];
      NothingReceivedOf([], d, inbox, transfers);
    }

    /** The result is the list of completed transfers; the errors are those of the state. */
    method SyncWithPeer() returns (transfers: seq<VaultTransfer>, ghost chosen: Plan)
      requires outbox == [] && State([]) == Session.Fresh(host, [])
      modifies this, manager
      ensures Ran(State([]), outbox, inbox)
           == RunAll(Session.Fresh(host, [Put(CatalogueMsg(host.catalogue)), AwaitCatalogue]), old(inbox), chosen)
      ensures plan.Some? ==>
                remote.Some? && plan == Some(chosen) && IsPlan(host.catalogue, remote.value, host.strict, chosen)
      ensures plan.None? ==> transfers == []
      ensures plan.Some? ==>
                && old(inbox) != []
                && transfers == SentOf(host, host.dirs, chosen.auto, Push) + ReceivedOf(chosen.auto, Pull, old(inbox)[1..])
    {
      hide RunAll, PlanOn, SendTasks, ReceiveTasks, Toward, SentOf, ReceivedOf;
      transfers := [];
      ghost var start := Session.Fresh(host, [Put(CatalogueMsg(host.catalogue)), AwaitCatalogue]);
      var localCatalogue := manager.stored;
      outbox := outbox + [CatalogueMsg(localCatalogue)];
      if inbox == [] || !inbox[0].CatalogueMsg? {
        chosen := Plan([], []);
        GreetingSent(start, inbox, chosen);
        inbox := if inbox == [] then [] else inbox[1..];
        errors := errors + [""];
        RunDone(State([]), inbox, chosen);
        return;
      }
      var remoteCat := inbox[0].catalogue;
      var p := Negotiate(localCatalogue, remoteCat, host.strict);
      chosen := p;
      ghost var full := RunAll(start, inbox, chosen);
      GreetingSent(start, inbox, chosen);
      inbox := inbox[1..];
      remote, plan := Some(remoteCat), Some(p);
      ghost var i1 := ReceiveTasks(Toward(p.auto, Pull)) + [Put(CompleteMsg)];
      ghost var i2 := SendTasks(Toward(p.auto, Push)) + i1;
      assert InitiatorTasks(p) == [Put(PlanMsg(p))] + i2;
      PutOne(full, outbox, State(InitiatorTasks(p)), PlanMsg(p), i2, inbox, chosen);
      outbox := outbox + [PlanMsg(p)];
      var pushed := SendAll(p.auto, Push, i1, full, chosen);
      var pulled := ReceiveAll(p.auto, Pull, [Put(CompleteMsg)], full, chosen);
      transfers := pushed + pulled;
      PutOne(full, outbox, State([Put(CompleteMsg)]), CompleteMsg, [], inbox, chosen);
      outbox := outbox + [CompleteMsg];
      RunDone(State([]), inbox, chosen);
    }

    method HandleSyncStream() returns (ghost chosen: Plan)
      requires outbox == [] && State([]) == Session.Fresh(host, [])
      modifies this, manager
      ensures Ran(State([]), outbox, inbox) == RunAll(Session.Fresh(host, [AwaitHello]), old(inbox), chosen)
      ensures plan.Some? ==>
                remote.Some? && plan == Some(chosen) && IsPlan(host.catalogue, remote.value, host.strict, chosen)
    {
      hide RunAll, PlanOn, SendTasks, ReceiveTasks, Toward, Agree, Sofar;
      ghost var start := Session.Fresh(host, [AwaitHello]);
      if inbox == [] || !inbox[0].CatalogueMsg? {
        chosen := Plan([], []);
        ghost var full := RunAll(start, inbox, chosen);
        AfterAfter([], [], full);
        ReadOne(full, [], start, inbox, chosen);
        inbox := if inbox == [] then [] else inbox[1..];
        errors := errors + [""];
        Finished(full, outbox, State([]), inbox, chosen);
        return;
      }
      var remoteCat := inbox[0].catalogue;
      var localCatalogue := manager.stored;
      var localPlan := Negotiate(localCatalogue, remoteCat, host.strict);
      chosen := localPlan;
      ghost var full := RunAll(start, inbox, chosen);
      AfterAfter([], [], full);
      ReadOne(full, [], start, inbox, chosen);
      inbox := inbox[1..];
      remote, plan := Some(remoteCat), Some(localPlan);
      PutOne(full, outbox, State([Put(CatalogueMsg(localCatalogue)), AwaitPlan]), CatalogueMsg(localCatalogue),
             [AwaitPlan], inbox, chosen);
      outbox := outbox + [CatalogueMsg(localCatalogue)];
      Answer(localPlan, full);
    }

    /** The part of handleSyncStream from the receipt of the plan. */
    method Answer(localPlan: Plan, ghost full: Ran)
      requires plan == Some(localPlan) && remote.Some? && Sofar(full, outbox, State([AwaitPlan]), inbox, localPlan)
      modifies this`inbox, this`outbox, this`dirs, this`errors, manager
      ensures full == Ran(State([]), outbox, inbox)
    {
      hide RunAll, SendTasks, ReceiveTasks, Toward, Agree, Sofar;
      SofarIs(full, outbox, State([AwaitPlan]), inbox, localPlan);
      ReadOne(full, outbox, State([AwaitPlan]), inbox, localPlan);
      if inbox == [] || !inbox[0].PlanMsg? {
        inbox := if inbox == [] then [] else inbox[1..];
        errors := errors + [""];
        Finished(full, outbox, State([]), inbox, localPlan);
        return;
      }
      var p := inbox[0].plan;
      inbox := inbox[1..];
      var error := VerifyPlanConsistency(p, localPlan);
      if error.Some? {
        errors := errors + [""];
        Finished(full, outbox, State([]), inbox, localPlan);
        return;
      }
      var _ := ReceiveAll(p.auto, Push, SendTasks(Toward(p.auto, Pull)) + [AwaitComplete], full, localPlan);
      var _ := SendAll(p.auto, Pull, [AwaitComplete], full, localPlan);
      SofarIs(full, outbox, State([AwaitComplete]), inbox, localPlan);
      ReadOne(full, outbox, State([AwaitComplete]), inbox, localPlan);
      assert [AwaitComplete][1..] == [];
      inbox := if inbox == [] then [] else inbox[1..];
      Finished(full, outbox, State([]), inbox, localPlan);
    }
  }

  lemma SofarIs(full: Ran, out: seq<Message>, p: Peer, inbox: seq<Message>, plan: Plan)
    requires Sofar(full, out, p, inbox, plan)
    ensures full == After(out, RunAll(p, inbox, plan))
  {
  }

  lemma Finished(full: Ran, out: seq<Message>, p: Peer, inbox: seq<Message>, plan: Plan)
    requires Sofar(full, out, p, inbox, plan) && p.todo == []
    ensures full == Ran(p, out, inbox)
  {
    hide RunAll;
    RunDone(p, inbox, plan);
    assert out + [] == out;
  }

  /** A task that reads a message and sends none. */
  lemma ReadOne(full: Ran, out: seq<Message>, p: Peer, inbox: seq<Message>, plan: Plan)
    requires full == After(out, RunAll(p, inbox, plan))
    requires p.todo != [] && (p.todo[0].AwaitHello? || p.todo[0].AwaitPlan? || p.todo[0].AwaitComplete?)
    ensures var m := if inbox == [] then None else Some(inbox[0]);
            Sofar(full, out, Act(p, m, plan).peer, if inbox == [] then [] else inbox[1..], plan)
  {
    hide RunAll;
    SofarStep(full, out, p, inbox, plan);
    assert out + [] == out;
  }

  lemma InvalidReceive(v: string, inbox: seq<Message>)
    ensures !ValidName(v) ==> Receive(v, inbox).staged.None?
  {
  }

  lemma PutOne(full: Ran, out: seq<Message>, p: Peer, m: Message, rest: seq<Task>, inbox: seq<Message>, plan: Plan)
    requires Sofar(full, out, p, inbox, plan) && p.todo == [Put(m)] + rest
    ensures Sofar(full, out + [m], p.(todo := rest), inbox, plan)
  {
    hide RunAll;
    SofarStep(full, out, p, inbox, plan);
    assert p.todo[1..] == rest;
  }

  /** The initiator sends its catalogue and reads the other one's. */
  lemma GreetingSent(p: Peer, inbox: seq<Message>, plan: Plan)
    requires |p.todo| == 2 && p.todo[0].Put? && p.todo[1] == AwaitCatalogue
    ensures var m := if inbox == [] then None else Some(inbox[0]);
            Sofar(RunAll(p, inbox, plan), [p.todo[0].message], Act(Pop(p), m, plan).peer,
                  if inbox == [] then [] else inbox[1..], plan)
  {
    hide RunAll;
    AfterAfter([], [], RunAll(p, inbox, plan));
    SofarStep(RunAll(p, inbox, plan), [], p, inbox, plan);
    SofarStep(RunAll(p, inbox, plan), [] + [p.todo[0].message], Pop(p), inbox, plan);
    assert [] + [p.todo[0].message] + [] == [p.todo[0].message];
  }

  // ----- what receiveVault does not check -----

  /** Receiving a list of vaults one after the other, without the catalogue updates: the files committed for each. */
  function ReceiveMany(names: seq<string>, inbox: seq<Message>): seq<Option<Files>> {
    if names == [] then []
    else
      var r := Receive(names[0], inbox);
      [r.staged] + ReceiveMany(names[1..], r.rest)
  }

  ghost function BlocksOf(vaults: seq<(string, Files)>): seq<Message> {
    if vaults == [] then [] else Block(vaults[0].0, vaults[0].1) + BlocksOf(vaults[1..])
  }

  lemma {:induction false} ReceiveFilesBlock(v: string, files: Files, k: nat, rest: seq<Message>)
    requires SessionSafety.Transferable(files) && k <= |NamesOf(files)|
    ensures ReceiveFiles(Block(v, files)[k + 1..] + rest, Only(files, NamesOf(files)[..k])) == Reception(Some(files), rest)
    decreases |NamesOf(files)| - k
  {
    hide SessionSafety.Transferable, Block, Only, ValidName, ReceiveFiles;
    var names, b := NamesOf(files), Block(v, files);
    SessionSafety.BlockParts(v, files, k);
    var inbox := b[k + 1..] + rest;
    assert inbox[0] == b[k + 1] && inbox[1..] == b[k + 2..] + rest;
    ReadsOne(inbox, Only(files, names[..k]));
    if k < |names| {
      FineName(files, names[k]);
      OneMore(files, k);
      ReceiveFilesBlock(v, files, k + 1, rest);
    } else {
      EverythingStaged(files, k);
      assert inbox[1..] == rest;
    }
  }

  lemma ReadsOne(inbox: seq<Message>, staged: Files)
    requires inbox != []
    ensures inbox[0].EndMsg? ==> ReceiveFiles(inbox, staged) == Reception(Some(staged), inbox[1..])
    ensures inbox[0].FileMsg? && ValidName(inbox[0].name) && |inbox[0].data| <= MAX_TRANSFER_FILE_SIZE ==>
              ReceiveFiles(inbox, staged) == ReceiveFiles(inbox[1..], staged[inbox[0].name := inbox[0].data])
  {
  }

  lemma FineName(files: Files, n: string)
    requires SessionSafety.Transferable(files) && n in files
    ensures ValidName(n) && |files[n]| <= MAX_TRANSFER_FILE_SIZE
  {
    assert SessionSafety.FineFile(files, n);
  }

  lemma OneMore(files: Files, k: nat)
    requires k < |NamesOf(files)|
    ensures var names := NamesOf(files);
            names[k] in files && Only(files, names[..k + 1]) == Only(files, names[..k])[names[k] := files[names[k]]]
  {
    var names := NamesOf(files);
    ListedIn(names, files);
    assert names[..k + 1] == names[..k] + [names[k]];
    assert names[k] in names;
  }

  lemma EverythingStaged(files: Files, k: nat)
    requires k == |NamesOf(files)|
    ensures Only(files, NamesOf(files)[..k]) == files
  {
    ListedIn(NamesOf(files), files);
    assert NamesOf(files)[..k] == NamesOf(files);
  }

  /** A receive takes exactly one sender's block, whatever vault it is of, and commits its files. */
  lemma ReceiveBlock(v: string, w: string, files: Files, rest: seq<Message>)
    requires ValidName(v) && SessionSafety.Transferable(files)
    ensures Receive(v, Block(w, files) + rest) == Reception(Some(files), rest)
  {
    hide Block, ValidName, SessionSafety.Transferable, ReceiveFiles, Only;
    var b := Block(w, files);
    SessionSafety.BlockParts(w, files, 0);
    assert (b + rest)[0] == b[0] && (b + rest)[1..] == b[1..] + rest;
    ReceiveFilesBlock(w, files, 0, rest);
    NothingYet(files);
  }

  lemma NothingYet(files: Files)
    ensures Only(files, NamesOf(files)[..0]) == map[]
  {
  }

  /**
   The i-th receive commits the files of the i-th vault that was really sent: nothing compares the names. When a
   sender leaves out a vault, every later one is committed under the name of an earlier one.
   */
  lemma {:induction false} ReceivesByPosition(names: seq<string>, sent: seq<(string, Files)>, i: nat)
    requires forall n | n in names :: ValidName(n)
    requires forall s | s in sent :: SessionSafety.Transferable(s.1)
    requires i < |names| && i < |sent|
    ensures |ReceiveMany(names, BlocksOf(sent))| == |names|
    ensures ReceiveMany(names, BlocksOf(sent))[i] == Some(sent[i].1)
  {
    hide Block, Receive, ValidName, SessionSafety.Transferable;
    ManyLength(names, BlocksOf(sent));
    assert names[0] in names && sent[0] in sent;
    ReceiveBlock(names[0], sent[0].0, sent[0].1, BlocksOf(sent[1..]));
    if i > 0 {
      ReceivesByPosition(names[1..], sent[1..], i - 1);
    }
  }

  lemma {:induction false} ManyLength(names: seq<string>, inbox: seq<Message>)
    ensures |ReceiveMany(names, inbox)| == |names|
  {
    hide Receive;
    if names != [] {
      ManyLength(names[1..], Receive(names[0], inbox).rest);
    }
  }

  // ----- the result of a sync -----

  /** The pushes that SyncWithPeer returns are those whose vault can be read to the end, in the order of the plan. */
  lemma {:induction false} SentOfExact(h: Host, dirs: map<string, Files>, auto: seq<VaultTransfer>, d: Direction, t: VaultTransfer)
    ensures t in SentOf(h, dirs, auto, d) <==>
              && t in auto && t.direction == d
              && t.vaultName in dirs && t.vaultName !in h.unlistable
              && forall n | n in dirs[t.vaultName] :: (t.vaultName, n) !in h.unreadable
    ensures Subsequence(SentOf(h, dirs, auto, d), auto)
  {
    hide Outgoing;
    OutgoingOk(h, dirs, t.vaultName);
    if auto != [] {
      SentOfExact(h, dirs, auto[1..], d, t);
      var rest := SentOf(h, dirs, auto[1..], d);
      assert ([auto[0]] + rest)[1..] == rest && [] + rest == rest;
    }
  }

  lemma OutgoingOk(h: Host, dirs: map<string, Files>, v: string)
    ensures Outgoing(h, dirs, v).ok <==>
              v in dirs && v !in h.unlistable && forall n | n in dirs[v] :: (v, n) !in h.unreadable
  {
    hide Outgoing;
    OutgoingMeans(h, dirs, v);
  }

  /** s is a without some of its elements. */
  predicate Subsequence(s: seq<VaultTransfer>, a: seq<VaultTransfer>) {
    if s == [] then true
    else a != [] && ((s[0] == a[0] && Subsequence(s[1..], a[1..])) || Subsequence(s, a[1..]))
  }

  /** The pulls that SyncWithPeer returns are those whose receive commits something, in the order of the plan. */
  lemma {:induction false} ReceivedOfExact(auto: seq<VaultTransfer>, d: Direction, inbox: seq<Message>, i: nat) returns (k: nat)
    requires i < |auto| && auto[i].direction == d && forall j | 0 <= j < |auto| && j != i :: auto[j] != auto[i]
    ensures k < |Toward(auto, d)| && Toward(auto, d)[k] == auto[i].vaultName
    ensures |ReceiveMany(Toward(auto, d), inbox)| == |Toward(auto, d)|
    ensures auto[i] in ReceivedOf(auto, d, inbox) <==> ReceiveMany(Toward(auto, d), inbox)[k].Some?
    decreases |auto|
  {
    hide Receive, ReceiveMany;
    ManyLength(Toward(auto, d), inbox);
    ManyHead(auto[0].vaultName, Toward(auto[1..], d), inbox);
    assert forall j | 0 < j < |auto| :: auto[1..][j - 1] == auto[j];
    var r := Receive(auto[0].vaultName, inbox);
    if i == 0 {
      k := 0;
      assert auto[0] !in auto[1..];
      ReceivedIn(auto[1..], d, r.rest, auto[0]);
    } else {
      assert auto[0] != auto[i] && auto[1..][i - 1] == auto[i];
      k := ReceivedOfExact(auto[1..], d, if auto[0].direction == d then r.rest else inbox, i - 1);
      assert [] + Toward(auto[1..], d) == Toward(auto[1..], d);
      if auto[0].direction == d {
        k := k + 1;
      }
    }
  }

  lemma ManyHead(n: string, names: seq<string>, inbox: seq<Message>)
    ensures var r := Receive(n, inbox); ReceiveMany([n] + names, inbox) == [r.staged] + ReceiveMany(names, r.rest)
  {
    assert ([n] + names)[1..] == names;
  }

  lemma {:induction false} ReceivedIn(auto: seq<VaultTransfer>, d: Direction, inbox: seq<Message>, t: VaultTransfer)
    ensures t in ReceivedOf(auto, d, inbox) ==> t in auto
    decreases |auto|
  {
    hide Receive;
    if auto != [] {
      ReceivedIn(auto[1..], d, inbox, t);
      ReceivedIn(auto[1..], d, Receive(auto[0].vaultName, inbox).rest, t);
    }
  }
}
