/**
 What the check of received names accepts (internal/sync/transfer.go:23-42), and what it keeps out of a session: no vault
 and no file is committed outside its own directory, and the files of real vaults pass.
 */
module SyncNames {
  import opened Results
  import opened FileNames
  import opened Transfer
  import opened Entries
  import opened Negotiation
  import opened Convergence
  import opened Session
  import opened SessionSafety
  import opened SessionRuns
  import opened Endpoint

  const STAGING := ".sync-staging"
  const BACKUP := ".sync-backup"

  // ----- paths -----

  predicate Separator(c: char) {
    c == '/' || c == '\\'
  }

  /** A path split at every separator. */
  function Components(path: string): (r: seq<string>)
    ensures r != []
  {
    if path == "" then [""]
    else
      var c, last := Components(path[..|path| - 1]), path[|path| - 1];
      if Separator(last) then c + [""] else c[..|c| - 1] + [c[|c| - 1] + [last]]
  }

  predicate Plain(n: string) {
    forall i | 0 <= i < |n| :: !Separator(n[i])
  }

  predicate PartAt(s: string, part: string, i: nat) {
    i + |part| <= |s| && s[i..i + |part|] == part
  }

  ghost predicate Contains(s: string, part: string) {
    exists i: nat :: PartAt(s, part, i)
  }

  lemma {:induction false} JoinedComponents(dir: string, n: string)
    requires Plain(n)
    ensures Components(dir + "/" + n) == Components(dir) + [n]
  {
    var path := dir + "/" + n;
    if n == "" {
      assert path[..|path| - 1] == dir;
    } else {
      var m := |n| - 1;
      JoinedComponents(dir, n[..m]);
      assert path[..|path| - 1] == dir + "/" + n[..m];
      assert n == n[..m] + [n[m]];
    }
  }

  lemma {:induction false} OneComponent(n: string)
    ensures Components(n) == [n] <==> Plain(n)
  {
    if n != "" {
      var m := |n| - 1;
      OneComponent(n[..m]);
      assert n == n[..m] + [n[m]];
      var c := Components(n[..m]);
      if !Separator(n[m]) && Components(n) == [n] {
        assert Components(n) == c[..|c| - 1] + [c[|c| - 1] + [n[m]]] && |c| == |[n]|;
        assert Components(n)[0] == c[0] + [n[m]] && [n][0] == n;
        assert (c[0] + [n[m]])[..|c[0]|] == c[0] && (n[..m] + [n[m]])[..m] == n[..m];
        assert c == [n[..m]];
      }
    }
  }

  // ----- which names are valid -----

  /** Exactly the non-empty single components without two dots in a row and without a leading dot. */
  lemma ValidNameExact(n: string)
    ensures ValidName(n) <==> Components(n) == [n] && n != "" && !Contains(n, "..") && !("." <= n)
  {
    hide Components;
    OneComponent(n);
    DotDots(n);
    PlainIs(n);
  }

  lemma DotDots(n: string)
    ensures DotDot(n) <==> Contains(n, "..")
  {
    if i: nat :| PartAt(n, "..", i) {
      assert n[i] == n[i..i + 2][0] && n[i + 1] == n[i..i + 2][1];
    }
    if i :| 0 <= i < |n| - 1 && n[i] == '.' && n[i + 1] == '.' {
      assert n[i..i + 2] == [n[i], n[i + 1]];
      assert PartAt(n, "..", i);
    }
  }

  lemma PlainIs(n: string)
    ensures Plain(n) <==> '/' !in n && '\\' !in n
  {
  }

  /** A valid name adds itself as the last component and is neither a step up, nor hidden, nor a helper directory. */
  lemma Contained(dir: string, n: string)
    requires ValidName(n)
    ensures Components(dir + "/" + n) == Components(dir) + [n]
    ensures n != "" && n != "." && n != ".." && n != STAGING && n != BACKUP
  {
    hide Components;
    PlainIs(n);
    JoinedComponents(dir, n);
  }

  predicate RealName(n: string) {
    n == VAULT || n == KEY || ItemFileName(n)
  }

  /** The name of every file of a vault is valid. */
  lemma RealNameValid(n: string)
    requires RealName(n)
    ensures ValidName(n)
  {
    if ItemFileName(n) {
      assert n[64] == n[64..][0] && n[65] == n[64..][1] && n[66] == n[64..][2] && n[67] == n[64..][3];
      assert forall i | 0 <= i < 68 && i != 64 :: n[i] != '.' && n[i] != '/' && n[i] != '\\';
    }
  }

  // ----- real vaults -----

  /** The files of a vault, none of them larger than 50 MB. */
  predicate RealFiles(files: Files) {
    forall n | n in files :: RealName(n) && |files[n]| <= 52_428_800
  }

  lemma RealFilesFine(v: string, files: Files)
    requires ValidName(v) && RealFiles(files)
    ensures FineFiles(v, files)
  {
    hide ValidName, RealName;
    forall n | n in files
      ensures FineFile(files, n)
    {
      RealNameValid(n);
    }
  }

  /** A host of real vaults with valid names, one for each entry of its catalogue, all of which can be read. */
  predicate RealHost(h: Host) {
    && h.unlistable == {} && h.unreadable == {}
    && forall v | v in h.catalogue :: v in h.dirs && ValidName(v) && RealFiles(h.dirs[v])
  }

  /** Any two hosts of real vaults in the same mode are honest, so that all their sessions complete. */
  lemma RealHostsHonest(hi: Host, hr: Host)
    requires RealHost(hi) && RealHost(hr) && hi.strict == hr.strict
    ensures Honest(hi, hr)
  {
    hide ValidName, RealFiles, Judge, FineFiles;
    forall n
      ensures (var v := VerdictOn(hi.catalogue, hr.catalogue, hi.strict, n);
        && v == Mirror(VerdictOn(hr.catalogue, hi.catalogue, hr.strict, n))
        && (v == Send(Push) ==> SentFine(hi, n) && FineFiles(n, FilesOf(hi, n)))
        && (v == Send(Pull) ==> SentFine(hr, n) && FineFiles(n, FilesOf(hr, n))))
    {
      JudgeMirrored(Get(hi.catalogue, n), Get(hr.catalogue, n), hi.strict);
      SendSource(Get(hi.catalogue, n), Get(hr.catalogue, n), hi.strict);
      if n in hi.catalogue {
        RealFilesFine(n, hi.dirs[n]);
      }
      if n in hr.catalogue {
        RealFilesFine(n, hr.dirs[n]);
      }
    }
  }

  // ----- what a receive commits -----

  predicate FineMessage(m: Message) {
    m.FileMsg? && ValidName(m.name) && |m.data| <= 52_428_800
  }

  /** k files with valid names and within the limit, and then the end of a block. */
  predicate Ends(inbox: seq<Message>, k: nat) {
    k < |inbox| && inbox[k].EndMsg? && forall i | 0 <= i < k :: FineMessage(inbox[i])
  }

  /** Files written one after the other. */
  function Written(messages: seq<Message>): Files {
    if messages == [] then map[]
    else
      var last := messages[|messages| - 1];
      var before := Written(messages[..|messages| - 1]);
      if last.FileMsg? then before[last.name := last.data] else before
  }

  lemma WrittenMore(done: seq<Message>, m: Message)
    requires m.FileMsg?
    ensures Written(done + [m]) == Written(done)[m.name := m.data]
  {
    assert (done + [m])[..|done|] == done;
  }

  predicate Writes(m: Message, n: string) {
    m.FileMsg? && m.name == n
  }

  /** A file is there exactly if some message has its name. */
  lemma {:induction false} WrittenNames(messages: seq<Message>, n: string)
    ensures n in Written(messages) <==> exists i :: 0 <= i < |messages| && Writes(messages[i], n)
  {
    if messages != [] {
      var m := |messages| - 1;
      WrittenNames(messages[..m], n);
      assert forall i | 0 <= i < m :: messages[..m][i] == messages[i];
    }
  }

  /** A file has the data of the last message with its name. */
  lemma {:induction false} LastWritten(messages: seq<Message>, n: string, i: nat)
    requires i < |messages| && Writes(messages[i], n) && forall j | i < j < |messages| :: !Writes(messages[j], n)
    ensures n in Written(messages) && Written(messages)[n] == messages[i].data
  {
    var m := |messages| - 1;
    if i < m {
      LastWritten(messages[..m], n, i);
      assert !Writes(messages[m], n);
    }
  }

  lemma {:induction false} FilesRead(inbox: seq<Message>, done: seq<Message>, k: nat)
    requires Ends(inbox, k)
    ensures ReceiveFiles(inbox, Written(done)) == Reception(Some(Written(done + inbox[..k])), inbox[k + 1..])
    decreases k
  {
    hide ValidName, Written;
    if k == 0 {
      assert done + inbox[..0] == done;
    } else {
      assert FineMessage(inbox[0]);
      assert forall i | 0 <= i < k - 1 :: inbox[1..][i] == inbox[i + 1];
      WrittenMore(done, inbox[0]);
      FilesRead(inbox[1..], done + [inbox[0]], k - 1);
      assert done + [inbox[0]] + inbox[1..][..k - 1] == done + inbox[..k];
    }
  }

  lemma {:induction false} FilesEnd(inbox: seq<Message>, staged: Files) returns (k: nat)
    requires ReceiveFiles(inbox, staged).staged.Some?
    ensures Ends(inbox, k)
    decreases |inbox|
  {
    hide ValidName;
    if inbox[0].EndMsg? {
      k := 0;
    } else {
      k := FilesEnd(inbox[1..], staged[inbox[0].name := inbox[0].data]);
      k := k + 1;
    }
  }

  /**
   A receive commits exactly if the vault's name is valid and the stream starts with a begin, files with valid names and
   of at most 50 MB, and an end; it commits what those files say, the last one of each name.
   */
  lemma ReceiveExact(v: string, inbox: seq<Message>)
    ensures Receive(v, inbox).staged.Some? <==>
              ValidName(v) && inbox != [] && inbox[0].BeginMsg? && exists k: nat :: Ends(inbox[1..], k)
    ensures forall k: nat | ValidName(v) && inbox != [] && inbox[0].BeginMsg? && Ends(inbox[1..], k) ::
              Receive(v, inbox) == Reception(Some(Written(inbox[1..][..k])), inbox[1..][k + 1..])
  {
    hide ValidName, ReceiveFiles, FineMessage, Written;
    if ValidName(v) && inbox != [] && inbox[0].BeginMsg? {
      WrittenNone();
      if Receive(v, inbox).staged.Some? {
        var k := FilesEnd(inbox[1..], map[]);
      }
      forall k: nat | Ends(inbox[1..], k)
        ensures Receive(v, inbox) == Reception(Some(Written(inbox[1..][..k])), inbox[1..][k + 1..])
      {
        FilesRead(inbox[1..], [], k);
        assert [] + inbox[1..][..k] == inbox[1..][..k];
      }
    }
  }

  lemma WrittenNone()
    ensures Written([]) == map[]
  {
  }

  /** Whatever arrives on a stream, only files inside the vault's own directory are ever committed. */
  lemma CommittedContained(v: string, inbox: seq<Message>, n: string, root: string)
    requires Receive(v, inbox).staged.Some? && n in Receive(v, inbox).staged.value
    ensures Components(root + "/" + v + "/" + n) == Components(root) + [v, n]
    ensures n != ".." && v != ".." && n != STAGING && n != BACKUP && |Receive(v, inbox).staged.value[n]| <= 52_428_800
  {
    hide ValidName, Receive, Components, Written, FineMessage;
    ReceiveExact(v, inbox);
    var k: nat :| Ends(inbox[1..], k);
    var messages := inbox[1..][..k];
    var i := WriterOf(messages, n);
    EndsAt(inbox[1..], k, i);
    Contained(root, v);
    Contained(root + "/" + v, n);
  }

  lemma EndsAt(inbox: seq<Message>, k: nat, i: nat)
    requires Ends(inbox, k) && i < k
    ensures inbox[..k][i] == inbox[i] && FineMessage(inbox[i])
  {
  }

  lemma {:induction false} WriterOf(messages: seq<Message>, n: string) returns (i: nat)
    requires n in Written(messages)
    ensures i < |messages| && Writes(messages[i], n) && messages[i].data == Written(messages)[n]
  {
    var m := |messages| - 1;
    if Writes(messages[m], n) {
      i := m;
    } else {
      i := WriterOf(messages[..m], n);
    }
  }

  /** Message k is the first that is not a valid file: neither is it an end, or the stream is over there. */
  predicate Breaks(inbox: seq<Message>, k: nat) {
    && k <= |inbox| && (forall i | 0 <= i < k :: FineMessage(inbox[i]))
    && (k < |inbox| ==> !inbox[k].EndMsg? && !FineMessage(inbox[k]))
  }

  lemma {:induction false} FilesBreak(inbox: seq<Message>, staged: Files, k: nat)
    requires Breaks(inbox, k)
    ensures ReceiveFiles(inbox, staged) == Reception(None, if k < |inbox| then inbox[k + 1..] else [])
    decreases k
  {
    hide ValidName;
    if k > 0 {
      assert FineMessage(inbox[0]);
      assert forall i | 0 <= i < k - 1 :: inbox[1..][i] == inbox[i + 1];
      FilesBreak(inbox[1..], staged[inbox[0].name := inbox[0].data], k - 1);
    }
  }

  /** What a receive that commits nothing has read: nothing for an invalid name, otherwise up to what it refused. */
  lemma RefusedExact(v: string, inbox: seq<Message>, k: nat)
    ensures !ValidName(v) ==> Receive(v, inbox) == Reception(None, inbox)
    ensures ValidName(v) && inbox == [] ==> Receive(v, inbox) == Reception(None, [])
    ensures ValidName(v) && inbox != [] && !inbox[0].BeginMsg? ==> Receive(v, inbox) == Reception(None, inbox[1..])
    ensures ValidName(v) && inbox != [] && inbox[0].BeginMsg? && Breaks(inbox[1..], k) ==>
              Receive(v, inbox) == Reception(None, if k < |inbox| - 1 then inbox[k + 2..] else [])
  {
    hide ValidName, Breaks;
    if ValidName(v) && inbox != [] && inbox[0].BeginMsg? && Breaks(inbox[1..], k) {
      FilesBreak(inbox[1..], map[], k);
    }
  }
}
