/**
 What every step of a session keeps: as long as no task has failed, the messages that one peer still awaits are exactly
 the messages on their way to it followed by those that the other peer has yet to send.
 */
module SessionSafety {
  import opened Results
  import opened Transfer
  import opened Entries
  import opened Negotiation
  import opened ChainCatalogue
  import opened Convergence
  import opened Session

  function FilesOf(h: Host, v: string): Files {
    if v in h.dirs then h.dirs[v] else map[]
  }

  /** The vault can be sent: its directory and all its files can be read. */
  predicate SentFine(h: Host, v: string) {
    v in h.dirs && v !in h.unlistable && forall n | n in h.dirs[v] :: (v, n) !in h.unreadable
  }

  predicate FineFile(files: Files, n: string) {
    n in files && ValidName(n) && |files[n]| <= MAX_TRANSFER_FILE_SIZE
  }

  predicate Transferable(files: Files) {
    forall n | n in files :: FineFile(files, n)
  }

  /** The vault can be received: its name and its file names are valid and no file is too large. */
  predicate FineFiles(v: string, files: Files) {
    ValidName(v) && Transferable(files)
  }

  // ----- what is still to be sent and received -----

  ghost function MessagesOf(t: Task, h: Host): seq<Message> {
    match t
    case Put(m) => [m]
    case SendVault(v) => Block(v, FilesOf(h, v))
    case _ => []
  }

  ghost function AwaitedBy(t: Task, src: Host): seq<Message> {
    match t
    case ReceiveVault(v) => Block(v, FilesOf(src, v))
    case AwaitBegin(v) => Block(v, FilesOf(src, v))
    case AwaitFile(v, _, count) =>
      var b := Block(v, FilesOf(src, v));
      if count + 1 <= |b| then b[count + 1..] else []
    case AwaitComplete => [CompleteMsg]
    case _ => []
  }

  ghost function Pending(todo: seq<Task>, h: Host): seq<Message> {
    if todo == [] then [] else MessagesOf(todo[0], h) + Pending(todo[1..], h)
  }

  ghost function Expected(todo: seq<Task>, src: Host): seq<Message> {
    if todo == [] then [] else AwaitedBy(todo[0], src) + Expected(todo[1..], src)
  }

  function Sends(todo: seq<Task>): set<string> {
    if todo == [] then {} else (if todo[0].SendVault? then {todo[0].vault} else {}) + Sends(todo[1..])
  }

  predicate Receiving(t: Task) {
    t.ReceiveVault? || t.AwaitBegin? || t.AwaitFile?
  }

  function Receives(todo: seq<Task>): set<string> {
    if todo == [] then {} else (if Receiving(todo[0]) then {todo[0].vault} else {}) + Receives(todo[1..])
  }

  /** The tasks of the transfer phase, each vault received once; only the first task can be half done. */
  predicate Tidy(todo: seq<Task>) {
    todo != [] ==>
      && (todo[0].Put? || todo[0].SendVault? || Receiving(todo[0]) || todo[0].AwaitComplete?)
      && (Receiving(todo[0]) ==> todo[0].vault !in Receives(todo[1..]))
      && (todo[1..] != [] ==> !todo[1].AwaitBegin? && !todo[1].AwaitFile?)
      && Tidy(todo[1..])
  }

  // ----- one side of the session -----

  predicate Before(files: Files, names: seq<string>, staged: Files, count: nat) {
    && count <= |names|
    && staged == Only(files, names[..count])
    && forall i | 0 <= i < count :: FineFile(files, names[i])
  }

  ghost predicate HalfDone(t: Task, src: Host) {
    t.AwaitFile? ==>
      ValidName(t.vault) && Before(FilesOf(src, t.vault), NamesOf(FilesOf(src, t.vault)), t.staged, t.count)
  }

  /** Every vault that is not still being received has its final files. */
  ghost predicate Arrived(p: Peer, src: Host, recv: set<string>, left: set<string>) {
    forall v | v !in left ::
      Get(p.dirs, v) == if v in recv then Some(FilesOf(src, v)) else Get(p.host.dirs, v)
  }

  ghost predicate SideOk(p: Peer, src: Host, recv: set<string>, send: set<string>) {
    && p.remote == Some(src.catalogue) && recv !! send && recv <= src.catalogue.Keys
    && Tidy(p.todo) && Sends(p.todo) <= send && Receives(p.todo) <= recv
    && (p.todo != [] ==> HalfDone(p.todo[0], src))
    && (p.todo != [] && p.todo[0].AwaitBegin? ==> ValidName(p.todo[0].vault))
    && Arrived(p, src, recv, Receives(p.todo))
    && p.catalogue == Pulled(p.host.catalogue, src.catalogue, recv - Receives(p.todo), p.host.root)
    && (forall v | v in send - Sends(p.todo) :: SentFine(p.host, v))
    && (forall v | v in recv - Receives(p.todo) :: FineFiles(v, FilesOf(src, v)))
  }

  /** What a step of one side does to the messages. */
  ghost predicate MessagesKept(p: Peer, m: Option<Message>, q: Peer, out: seq<Message>, src: Host)
    requires p.todo != []
  {
    && Pending(p.todo, p.host) == out + Pending(q.todo, p.host)
    && Expected(p.todo, src) == (if Reads(p.todo[0]) && m.Some? then [m.value] else []) + Expected(q.todo, src)
  }

  // ----- messages of lists of tasks -----

  /** A list of tasks none of which is half done. */
  predicate Whole(rest: seq<Task>) {
    Tidy(rest) && (rest != [] ==> !rest[0].AwaitBegin? && !rest[0].AwaitFile?)
  }

  lemma FirstOf(t: Task, rest: seq<Task>, h: Host, src: Host)
    ensures Pending([t] + rest, h) == MessagesOf(t, h) + Pending(rest, h)
    ensures Expected([t] + rest, src) == AwaitedBy(t, src) + Expected(rest, src)
    ensures Sends([t] + rest) == (if t.SendVault? then {t.vault} else {}) + Sends(rest)
    ensures Receives([t] + rest) == (if Receiving(t) then {t.vault} else {}) + Receives(rest)
    ensures t.Put? || t.SendVault? || (t.ReceiveVault? && t.vault !in Receives(rest)) ==>
              Whole(rest) ==> Whole([t] + rest)
  {
    hide Block, MessagesOf, AwaitedBy;
    assert ([t] + rest)[1..] == rest;
  }

  lemma {:induction false} PutsPending(messages: seq<Message>, rest: seq<Task>, h: Host, src: Host)
    ensures Pending(Puts(messages) + rest, h) == messages + Pending(rest, h)
    ensures Expected(Puts(messages) + rest, src) == Expected(rest, src)
    ensures Sends(Puts(messages) + rest) == Sends(rest) && Receives(Puts(messages) + rest) == Receives(rest)
    ensures Whole(rest) ==> Whole(Puts(messages) + rest)
  {
    hide Block, Pending, Expected, Sends, Receives, Whole;
    if messages == [] {
      assert Puts(messages) + rest == rest;
    } else {
      var more := Puts(messages[1..]) + rest;
      PutsPending(messages[1..], rest, h, src);
      assert Puts(messages) + rest == [Put(messages[0])] + more;
      FirstOf(Put(messages[0]), more, h, src);
      assert [messages[0]] + (messages[1..] + Pending(rest, h)) == messages + Pending(rest, h);
    }
  }

  lemma BlockParts(v: string, files: Files, k: nat)
    requires k <= |NamesOf(files)|
    ensures Block(v, files)[0] == BeginMsg(v)
    ensures k < |NamesOf(files)| ==>
              NamesOf(files)[k] in files
              && Block(v, files)[k + 1] == FileMsg(v, NamesOf(files)[k], files[NamesOf(files)[k]])
    ensures k == |NamesOf(files)| ==> Block(v, files)[k + 1] == EndMsg(v)
  {
    ListedIn(NamesOf(files), files);
    var msgs := FileMsgs(v, files, NamesOf(files));
    assert Block(v, files) == [BeginMsg(v)] + msgs + [EndMsg(v)];
    assert k < |msgs| ==> NamesOf(files)[k] in NamesOf(files) && Block(v, files)[k + 1] == msgs[k];
    assert k < |msgs| ==> msgs[k] == FileMsg(v, NamesOf(files)[k], files[NamesOf(files)[k]]);
  }

  // ----- each kind of step -----

  lemma SendStep(p: Peer, src: Host, recv: set<string>, send: set<string>, m: Option<Message>, plan: Plan)
    requires p.todo != [] && p.todo[0].SendVault? && SideOk(p, src, recv, send)
    ensures var q := Act(p, m, plan).peer;
            && (q.errors == p.errors <==> SentFine(p.host, p.todo[0].vault))
            && (q.errors == p.errors ==>
                  SideOk(q, src, recv, send) && MessagesKept(p, m, q, Act(p, m, plan).out, src))
  {
    hide Block, SideOk, Outgoing, Puts, Pending, Expected, SentFine;
    var v := p.todo[0].vault;
    var b := Block(v, FilesOf(p.host, v));
    SendsOwn(p, src, recv, send);
    OutgoingFine(p.host, p.dirs, v);
    if SentFine(p.host, v) {
      PutsPending(b, p.todo[1..], p.host, src);
      FirstTask(p, p.todo[0], p.host);
      FirstTask(p, p.todo[0], src);
      SentOff(p, src, recv, send, b);
    }
  }

  lemma SendsOwn(p: Peer, src: Host, recv: set<string>, send: set<string>)
    requires p.todo != [] && p.todo[0].SendVault? && SideOk(p, src, recv, send)
    ensures Get(p.dirs, p.todo[0].vault) == Get(p.host.dirs, p.todo[0].vault)
  {
    hide Block, Pulled, HalfDone, SentFine, FineFiles;
    assert p.todo[0].vault in send;
  }

  lemma SentOff(p: Peer, src: Host, recv: set<string>, send: set<string>, b: seq<Message>)
    requires p.todo != [] && p.todo[0].SendVault? && SideOk(p, src, recv, send)
    requires b != [] && SentFine(p.host, p.todo[0].vault)
    ensures SideOk(Replace(p, Puts(b)), src, recv, send)
  {
    hide Block, Pulled, HalfDone, SentFine, FineFiles, Puts, Pending, Expected;
    var rest := p.todo[1..];
    HalfDoneLater(p.todo, src);
    PutsPending(b, rest, src, src);
    PutsFirst(b, rest, src);
    assert Receives(p.todo) == Receives(rest) && Sends(p.todo) == Sends(rest) + {p.todo[0].vault};
  }

  lemma PutsFirst(messages: seq<Message>, rest: seq<Task>, src: Host)
    requires messages != []
    ensures Puts(messages) + rest != [] && (Puts(messages) + rest)[0].Put? && HalfDone((Puts(messages) + rest)[0], src)
  {
  }

  lemma OutgoingFine(h: Host, dirs: map<string, Files>, v: string)
    requires Get(dirs, v) == Get(h.dirs, v)
    ensures Outgoing(h, dirs, v).ok <==> SentFine(h, v)
    ensures SentFine(h, v) ==> Outgoing(h, dirs, v).messages == Block(v, dirs[v]) && dirs[v] == FilesOf(h, v)
    ensures |Block(v, FilesOf(h, v))| > 0
  {
    hide Block;
    if v in h.dirs {
      assert Get(dirs, v) == Some(dirs[v]) && Get(h.dirs, v) == Some(h.dirs[v]);
      ListedIn(NamesOf(dirs[v]), dirs[v]);
    }
  }

  lemma FirstTask(p: Peer, t: Task, h: Host)
    requires p.todo != []
    ensures var todo := Replace(p, [t]).todo;
            && todo[0] == t && todo[1..] == p.todo[1..]
            && Pending(todo, h) == MessagesOf(t, h) + Pending(p.todo[1..], h)
            && Expected(todo, h) == AwaitedBy(t, h) + Expected(p.todo[1..], h)
    ensures Pending(p.todo, h) == MessagesOf(p.todo[0], h) + Pending(p.todo[1..], h)
    ensures Expected(p.todo, h) == AwaitedBy(p.todo[0], h) + Expected(p.todo[1..], h)
  {
    hide Block, MessagesOf, AwaitedBy;
    assert ([t] + p.todo[1..])[1..] == p.todo[1..];
  }

  /** The vault of the first task goes on being received. */
  lemma GoesOn(p: Peer, src: Host, recv: set<string>, send: set<string>, t: Task)
    requires p.todo != [] && SideOk(p, src, recv, send)
    requires Receiving(p.todo[0]) && Receiving(t) && t.vault == p.todo[0].vault && HalfDone(t, src) && ValidName(t.vault)
    ensures SideOk(Replace(p, [t]), src, recv, send)
    ensures SideOk(Replace(p, [t]).(dirs := MadeDir(p.dirs, t.vault)), src, recv, send)
  {
    hide Pulled, HalfDone, ValidName, SentFine, FineFiles;
    var q := Replace(p, [t]);
    assert q.todo[0] == t && q.todo[1..] == p.todo[1..];
    assert t.vault in Receives(q.todo) && Receives(q.todo) == Receives(p.todo) && Sends(q.todo) == Sends(p.todo);
  }

  lemma PutStep(p: Peer, src: Host, recv: set<string>, send: set<string>, m: Option<Message>, plan: Plan)
    requires p.todo != [] && (p.todo[0].Put? || p.todo[0].AwaitComplete?) && SideOk(p, src, recv, send)
    requires p.todo[0].AwaitComplete? ==> m == Some(Expected(p.todo, src)[0])
    ensures var q := Act(p, m, plan).peer;
            && q.errors == p.errors && SideOk(q, src, recv, send)
            && MessagesKept(p, m, q, Act(p, m, plan).out, src)
  {
    hide Block, Pulled, HalfDone, Outgoing, SentFine, FineFiles;
    HalfDoneLater(p.todo, src);
    assert Receives(p.todo) == Receives(p.todo[1..]) && Sends(p.todo) == Sends(p.todo[1..]);
  }

  lemma HalfDoneLater(todo: seq<Task>, src: Host)
    requires Tidy(todo) && todo != []
    ensures todo[1..] != [] ==> HalfDone(todo[1], src) && !todo[1].AwaitBegin?
  {
  }

  lemma ReceiveStep(p: Peer, src: Host, recv: set<string>, send: set<string>, m: Option<Message>, plan: Plan)
    requires p.todo != [] && p.todo[0].ReceiveVault? && SideOk(p, src, recv, send)
    ensures var q := Act(p, m, plan).peer;
            && (q.errors == p.errors <==> ValidName(p.todo[0].vault))
            && (q.errors == p.errors ==>
                  SideOk(q, src, recv, send) && MessagesKept(p, m, q, Act(p, m, plan).out, src))
  {
    hide Block, SideOk, Outgoing, Pending, Expected, ValidName;
    var v := p.todo[0].vault;
    FirstTask(p, AwaitBegin(v), p.host);
    FirstTask(p, AwaitBegin(v), src);
    if ValidName(v) {
      GoesOn(p, src, recv, send, AwaitBegin(v));
    }
  }

  lemma BeginStep(p: Peer, src: Host, recv: set<string>, send: set<string>, m: Option<Message>, plan: Plan)
    requires p.todo != [] && p.todo[0].AwaitBegin? && SideOk(p, src, recv, send)
    requires Expected(p.todo, src) != [] && m == Some(Expected(p.todo, src)[0])
    ensures var q := Act(p, m, plan).peer;
            && q.errors == p.errors && SideOk(q, src, recv, send)
            && MessagesKept(p, m, q, Act(p, m, plan).out, src)
  {
    hide Block, SideOk, Outgoing, Pending, Expected, ValidName, AwaitedBy;
    var v := p.todo[0].vault;
    var next := AwaitFile(v, map[], 0);
    FirstTask(p, next, p.host);
    FirstTask(p, next, src);
    NextOfBlock(p.todo[0], src, Expected(p.todo[1..], src), map[]);
    NothingStaged(p, src, recv, send);
    GoesOn(p, src, recv, send, next);
  }

  /** The next message of the block that is being received. */
  lemma NextOfBlock(t: Task, src: Host, rest: seq<Message>, staged: Files)
    requires (t.AwaitBegin? || (t.AwaitFile? && t.count <= |NamesOf(FilesOf(src, t.vault))|))
    ensures var files := FilesOf(src, t.vault);
            var names := NamesOf(files);
            var m := (AwaitedBy(t, src) + rest)[0];
            && (t.AwaitBegin? ==>
                  m == BeginMsg(t.vault) && AwaitedBy(t, src) == [m] + AwaitedBy(AwaitFile(t.vault, map[], 0), src))
            && (t.AwaitFile? && t.count < |names| ==>
                  && names[t.count] in files && m == FileMsg(t.vault, names[t.count], files[names[t.count]])
                  && AwaitedBy(t, src) == [m] + AwaitedBy(AwaitFile(t.vault, staged, t.count + 1), src))
            && (t.AwaitFile? && t.count == |names| ==> m == EndMsg(t.vault) && AwaitedBy(t, src) == [m])
  {
    hide Block;
    var files := FilesOf(src, t.vault);
    var b := Block(t.vault, files);
    BlockParts(t.vault, files, if t.AwaitFile? then t.count else 0);
    if t.AwaitFile? {
      assert b[t.count + 1..] == [b[t.count + 1]] + b[t.count + 2..];
    } else {
      assert b == [b[0]] + b[1..];
    }
  }

  lemma NothingStaged(p: Peer, src: Host, recv: set<string>, send: set<string>)
    requires p.todo != [] && p.todo[0].AwaitBegin? && SideOk(p, src, recv, send)
    ensures HalfDone(AwaitFile(p.todo[0].vault, map[], 0), src) && ValidName(p.todo[0].vault)
  {
    hide Pulled, Tidy, Arrived, ValidName;
    assert Only(FilesOf(src, p.todo[0].vault), []) == map[];
  }

  lemma Advance(files: Files, staged: Files, count: nat)
    requires Before(files, NamesOf(files), staged, count) && count < |NamesOf(files)|
    requires FineFile(files, NamesOf(files)[count])
    ensures Before(files, NamesOf(files), staged[NamesOf(files)[count] := files[NamesOf(files)[count]]], count + 1)
  {
    var names := NamesOf(files);
    assert names[..count + 1] == names[..count] + [names[count]];
  }

  lemma FileStep(p: Peer, src: Host, recv: set<string>, send: set<string>, m: Option<Message>, plan: Plan)
    requires p.todo != [] && p.todo[0].AwaitFile? && SideOk(p, src, recv, send)
    requires Expected(p.todo, src) != [] && m == Some(Expected(p.todo, src)[0])
    requires p.todo[0].count < |NamesOf(FilesOf(src, p.todo[0].vault))|
    ensures var q := Act(p, m, plan).peer;
            var files := FilesOf(src, p.todo[0].vault);
            && (q.errors == p.errors <==> FineFile(files, NamesOf(files)[p.todo[0].count]))
            && (q.errors == p.errors ==>
                  SideOk(q, src, recv, send) && MessagesKept(p, m, q, Act(p, m, plan).out, src))
  {
    hide Block, SideOk, Outgoing, Pending, Expected, Before, Only, ValidName, AwaitedBy, FilesOf;
    var AwaitFile(v, staged, count) := p.todo[0];
    var files := FilesOf(src, v);
    ListedIn(NamesOf(files), files);
    var n := NamesOf(files)[count];
    var next := AwaitFile(v, staged[n := files[n]], count + 1);
    NextOfBlock(p.todo[0], src, Expected(p.todo[1..], src), next.staged);
    FirstTask(p, next, p.host);
    FirstTask(p, next, src);
    HalfDoneNow(p, src, recv, send);
    if FineFile(files, n) {
      Advance(files, staged, count);
      GoesOn(p, src, recv, send, next);
    }
  }

  lemma HalfDoneNow(p: Peer, src: Host, recv: set<string>, send: set<string>)
    requires p.todo != [] && SideOk(p, src, recv, send)
    ensures HalfDone(p.todo[0], src)
  {
    hide Pulled, Tidy, Arrived, HalfDone;
  }

  lemma EndStep(p: Peer, src: Host, recv: set<string>, send: set<string>, m: Option<Message>, plan: Plan)
    requires p.todo != [] && p.todo[0].AwaitFile? && SideOk(p, src, recv, send)
    requires Expected(p.todo, src) != [] && m == Some(Expected(p.todo, src)[0])
    requires p.todo[0].count == |NamesOf(FilesOf(src, p.todo[0].vault))|
    ensures var q := Act(p, m, plan).peer;
            && q.errors == p.errors && SideOk(q, src, recv, send)
            && MessagesKept(p, m, q, Act(p, m, plan).out, src)
  {
    hide Block, SideOk, Outgoing, Pending, Expected, Before, Only, ValidName, Received, AwaitedBy, FilesOf;
    var AwaitFile(v, staged, count) := p.todo[0];
    NextOfBlock(p.todo[0], src, Expected(p.todo[1..], src), staged);
    FirstTask(p, p.todo[0], p.host);
    FirstTask(p, p.todo[0], src);
    HalfDoneNow(p, src, recv, send);
    AllStaged(FilesOf(src, v), staged, count, v);
    TakenIn(p, src, recv, send);
  }

  lemma TakenIn(p: Peer, src: Host, recv: set<string>, send: set<string>)
    requires p.todo != [] && p.todo[0].AwaitFile? && SideOk(p, src, recv, send)
    requires FineFiles(p.todo[0].vault, FilesOf(src, p.todo[0].vault))
    ensures var v := p.todo[0].vault;
            var q := Commit(p, v, FilesOf(src, v));
            SideOk(q, src, recv, send) && q.errors == p.errors && q.todo == p.todo[1..]
  {
    hide Block, Pulled, Only, ValidName, Received, HalfDone, SentFine, FineFiles;
    HalfDoneLater(p.todo, src);
    var v, rest := p.todo[0].vault, p.todo[1..];
    assert Receives(p.todo) == Receives(rest) + {v} && v !in Receives(rest) && Sends(p.todo) == Sends(rest);
    assert recv - Receives(rest) == (recv - Receives(p.todo)) + {v};
    PulledStep(p.host.catalogue, src.catalogue, recv - Receives(p.todo), p.host.root, v);
  }

  lemma AllStaged(files: Files, staged: Files, count: nat, v: string)
    requires Before(files, NamesOf(files), staged, count) && count == |NamesOf(files)| && ValidName(v)
    ensures staged == files && FineFiles(v, files)
  {
    var names := NamesOf(files);
    assert names[..count] == names;
    ListedIn(names, files);
  }

  /** One step of one side: it keeps the invariant, or its task fails. */
  lemma SideStep(p: Peer, src: Host, recv: set<string>, send: set<string>, m: Option<Message>, plan: Plan)
    requires p.todo != [] && SideOk(p, src, recv, send)
    requires Reads(p.todo[0]) ==> Expected(p.todo, src) != [] && m == Some(Expected(p.todo, src)[0])
    ensures var q := Act(p, m, plan).peer;
            q.errors == p.errors ==> SideOk(q, src, recv, send) && MessagesKept(p, m, q, Act(p, m, plan).out, src)
    ensures (forall v | v in send :: SentFine(p.host, v)) && (forall v | v in recv :: FineFiles(v, FilesOf(src, v))) ==>
              Act(p, m, plan).peer.errors == p.errors
  {
    hide *;
    var t := p.todo[0];
    SideTask(p, src, recv, send);
    match t
    case SendVault(v) => SendStep(p, src, recv, send, m, plan);
    case ReceiveVault(v) =>
      ReceiveStep(p, src, recv, send, m, plan);
      FineParts(v, FilesOf(src, v));
    case AwaitBegin(_) => BeginStep(p, src, recv, send, m, plan);
    case AwaitFile(v, _, count) =>
      var files := FilesOf(src, v);
      if count < |NamesOf(files)| {
        FileStep(p, src, recv, send, m, plan);
        FineParts(v, files);
      } else {
        EndStep(p, src, recv, send, m, plan);
      }
    case _ => PutStep(p, src, recv, send, m, plan);
  }

  lemma FineParts(v: string, files: Files)
    ensures FineFiles(v, files) ==> ValidName(v) && forall k | 0 <= k < |NamesOf(files)| :: FineFile(files, NamesOf(files)[k])
  {
    ListedIn(NamesOf(files), files);
  }

  lemma SideTask(p: Peer, src: Host, recv: set<string>, send: set<string>)
    requires p.todo != [] && SideOk(p, src, recv, send)
    ensures var t := p.todo[0];
            && (t.Put? || t.AwaitComplete? || t.SendVault? || t.ReceiveVault? || t.AwaitBegin? || t.AwaitFile?)
            && (t.SendVault? ==> t.vault in send)
            && (t.ReceiveVault? || t.AwaitBegin? || t.AwaitFile? ==> t.vault in recv)
            && (t.AwaitFile? ==> t.count <= |NamesOf(FilesOf(src, t.vault))|)
            && (Reads(t) <==> !t.Put? && !t.SendVault? && !t.ReceiveVault?)
  {
    hide Block, Pulled, Arrived, SentFine, FineFiles;
  }
}
