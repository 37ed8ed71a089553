/**
 Any number of peers that edit vaults and sync pairwise: where everything a peer holds comes from. A sync is a whole
 session of module Session in any interleaving, with any failures, finished or blocked; an edit goes through
 CatalogueManager.UpdateVaultEntry (internal/config/catalogue.go:85-110).
 */
module Network {
  import opened Transfer
  import opened Entries
  import opened Negotiation
  import opened CatalogueStore
  import opened ChainCatalogue
  import opened Convergence
  import opened Results
  import opened Session
  import opened SessionRuns
  import opened SessionResults
  import opened SessionEnds
  import opened SessionFinish
  import opened SessionDelivery

  datatype Node = Node(dirs: map<string, Files>, catalogue: Catalogue)

  /** The part of a catalogue entry that travels with a vault. */
  datatype Stamp = Stamp(version: int, modified: Time, fingerprint: string, chainCS: string, itemCount: int)

  function StampOf(e: VaultEntry): Stamp {
    Stamp(e.version, e.modified, e.fingerprint, e.chainCS, e.itemCount)
  }

  /** What one local edit of a vault recorded, and the files it left. */
  datatype Record = Record(name: string, stamp: Stamp, files: Files)

  datatype Net = Net(nodes: map<nat, Node>, log: set<Record>)

  /** A new checksum: those of the hash chains never repeat. */
  predicate Unused(checksum: string, log: set<Record>) {
    checksum != "" && forall r | r in log :: r.stamp.chainCS != checksum
  }

  function Edited(n: Node, v: Vault, files: Files, root: string, now: Time, checksum: string): Node {
    Node(n.dirs[v.name := files],
         n.catalogue[v.name := StampedEntry(Get(n.catalogue, v.name), v, root, now, checksum)])
  }

  datatype Change =
    | Edit(id: nat, v: Vault, files: Files, root: string, now: Time, checksum: string)
    | Sync(a: nat, b: nat, hi: Host, hr: Host, run: seq<Sys>)

  /** A vault is stored or unlocked on one peer, or two peers have a session that goes on until it can go no further. */
  ghost predicate NetStep(s: Net, t: Net, c: Change) {
    match c
    case Edit(id, v, files, root, now, checksum) =>
      && id in s.nodes && Unused(checksum, s.log)
      && var n := Edited(s.nodes[id], v, files, root, now, checksum);
         t == Net(s.nodes[id := n], s.log + {Record(v.name, StampOf(n.catalogue[v.name]), files)})
    case Sync(a, b, hi, hr, run) =>
      && a in s.nodes && b in s.nodes && a != b
      && hi.dirs == s.nodes[a].dirs && hi.catalogue == s.nodes[a].catalogue
      && hr.dirs == s.nodes[b].dirs && hr.catalogue == s.nodes[b].catalogue
      && SessionRun(hi, hr, run)
      && var last := run[|run| - 1];
         && Stuck(last)
         && t == Net(s.nodes[a := Node(last.i.dirs, last.i.catalogue)][b := Node(last.r.dirs, last.r.catalogue)], s.log)
  }

  // ----- every entry and every file comes from one edit -----

  /** The entry and the files of the vault come from one edit. */
  predicate TracedVault(n: Node, log: set<Record>, v: string)
    requires v in n.catalogue
  {
    v in n.dirs && Record(v, StampOf(n.catalogue[v]), n.dirs[v]) in log
  }

  predicate TracedNode(n: Node, log: set<Record>) {
    forall v | v in n.catalogue :: TracedVault(n, log, v)
  }

  /** Different edits have different checksums; migrated entries have none. */
  predicate LogSound(log: set<Record>) {
    forall r, q | r in log && q in log && r.stamp.chainCS == q.stamp.chainCS && r.stamp.chainCS != "" :: r == q
  }

  predicate Traced(s: Net) {
    forall id | id in s.nodes :: TracedNode(s.nodes[id], s.log)
  }

  /** Nothing has disappeared from a catalogue, and no version has gone down. */
  predicate VersionsKept(before: Catalogue, later: Catalogue) {
    forall v | v in before :: v in later && before[v].version <= later[v].version
  }

  lemma EditTraced(n: Node, log: set<Record>, v: Vault, files: Files, root: string, now: Time, checksum: string)
    requires TracedNode(n, log)
    ensures var m := Edited(n, v, files, root, now, checksum);
            var r := Record(v.name, StampOf(m.catalogue[v.name]), files);
            && TracedNode(m, log + {r}) && VersionsKept(n.catalogue, m.catalogue)
            && (LogSound(log) && Unused(checksum, log) ==> LogSound(log + {r}))
  {
  }

  lemma MoreLog(n: Node, log: set<Record>, r: Record)
    requires TracedNode(n, log)
    ensures TracedNode(n, log + {r})
  {
  }

  lemma SendVersions(l: Catalogue, r: Catalogue, strict: bool, v: string)
    ensures VerdictOn(l, r, strict, v) == Send(Pull) && v in l ==> v in r && l[v].version <= r[v].version
    ensures VerdictOn(l, r, strict, v) == Send(Push) && v in r ==> v in l && r[v].version <= l[v].version
  {
  }

  // ----- what any session does to one side -----

  function Before(p: Peer): Node {
    Node(p.host.dirs, p.host.catalogue)
  }

  function After(p: Peer): Node {
    Node(p.dirs, p.catalogue)
  }

  /** Every vault that is received gets the files that the other side has under its name. */
  predicate Own(src: Host, names: seq<string>, outcomes: seq<Option<Files>>) {
    |outcomes| == |names| && forall i | 0 <= i < |names| && outcomes[i].Some? :: Get(src.dirs, names[i]) == outcomes[i]
  }

  /** What one side has after a session: the vaults at their positions, and all others as before. */
  ghost predicate EndsUp(p: Peer, src: Host, names: seq<string>, outcomes: seq<Option<Files>>) {
    && |outcomes| == |names| && Elsewhere(p, names)
    && forall i | 0 <= i < |names| :: Landed(p, src, names[i], outcomes[i])
  }

  /** Each vault is as before, or landed with what the receive at its position left. */
  lemma OneVault(p: Peer, src: Host, names: seq<string>, outcomes: seq<Option<Files>>, v: string) returns (i: int)
    requires EndsUp(p, src, names, outcomes)
    ensures v in names ==> 0 <= i < |names| && names[i] == v && Landed(p, src, v, outcomes[i])
    ensures v !in names ==> Untouched(p, v)
  {
    hide Landed;
    i := 0;
    if v in names {
      i :| 0 <= i < |names| && names[i] == v;
    }
  }

  lemma UntouchedTraced(p: Peer, log: set<Record>, v: string)
    requires Untouched(p, v) && TracedNode(Before(p), log) && v in p.catalogue
    ensures TracedVault(After(p), log, v)
  {
    assert Get(p.catalogue, v) == Get(p.host.catalogue, v);
    assert v in Before(p).catalogue && TracedVault(Before(p), log, v);
  }

  /** A vault that landed is traced if it got its own files; and only then if its entry has a checksum. */
  lemma LandedTraced(p: Peer, src: Host, log: set<Record>, v: string, outcome: Option<Files>)
    requires Landed(p, src, v, outcome) && TracedNode(Before(p), log) && TracedNode(Node(src.dirs, src.catalogue), log)
    ensures v in p.catalogue && (outcome.Some? ==> Get(src.dirs, v) == outcome) ==> TracedVault(After(p), log, v)
    ensures outcome.Some? ==> v in p.catalogue && v in src.catalogue
    ensures outcome.Some? && LogSound(log) && src.catalogue[v].chainCS != "" && TracedVault(After(p), log, v) ==>
              Get(src.dirs, v) == outcome
  {
    if outcome.None? {
      if v in p.catalogue {
        UntouchedTraced(p, log, v);
      }
    } else {
      assert TracedVault(Node(src.dirs, src.catalogue), log, v);
      assert p.catalogue[v] == Received(Get(p.host.catalogue, v), src.catalogue[v], v, p.host.root);
      assert StampOf(p.catalogue[v]) == StampOf(src.catalogue[v]);
    }
  }

  lemma SideTraced(p: Peer, src: Host, names: seq<string>, outcomes: seq<Option<Files>>, log: set<Record>)
    requires EndsUp(p, src, names, outcomes)
    requires TracedNode(Before(p), log) && TracedNode(Node(src.dirs, src.catalogue), log)
    ensures Own(src, names, outcomes) ==> TracedNode(After(p), log)
    ensures LogSound(log) && TracedNode(After(p), log)
            && (forall v | v in names && v in src.catalogue :: src.catalogue[v].chainCS != "")
            ==> Own(src, names, outcomes)
  {
    hide TracedVault, Landed, LogSound, Elsewhere, Untouched;
    if Own(src, names, outcomes) {
      forall v | v in p.catalogue
        ensures TracedVault(After(p), log, v)
      {
        var i := OneVault(p, src, names, outcomes, v);
        if v in names {
          LandedTraced(p, src, log, v, outcomes[i]);
        } else {
          UntouchedTraced(p, log, v);
        }
      }
    }
    if && LogSound(log) && TracedNode(After(p), log)
       && forall v | v in names && v in src.catalogue :: src.catalogue[v].chainCS != "" {
      forall i | 0 <= i < |names| && outcomes[i].Some?
        ensures Get(src.dirs, names[i]) == outcomes[i]
      {
        LandedTraced(p, src, log, names[i], outcomes[i]);
      }
    }
  }

  lemma SideVersions(p: Peer, src: Host, names: seq<string>, outcomes: seq<Option<Files>>)
    requires EndsUp(p, src, names, outcomes)
    requires forall v | v in names && v in p.host.catalogue && v in src.catalogue ::
               p.host.catalogue[v].version <= src.catalogue[v].version
    ensures VersionsKept(p.host.catalogue, p.catalogue)
  {
    hide Elsewhere;
    forall v | v in p.host.catalogue
      ensures v in p.catalogue && p.host.catalogue[v].version <= p.catalogue[v].version
    {
      var i := OneVault(p, src, names, outcomes, v);
      assert Get(p.host.catalogue, v) == Some(p.host.catalogue[v]);
    }
  }

  /** A side on which nothing was committed. */
  lemma SideUntouched(p: Peer, log: set<Record>)
    requires forall v :: Untouched(p, v)
    ensures VersionsKept(p.host.catalogue, p.catalogue)
    ensures TracedNode(Before(p), log) ==> TracedNode(After(p), log)
  {
    forall v | v in p.host.catalogue
      ensures v in p.catalogue && p.host.catalogue[v].version <= p.catalogue[v].version
    {
      assert Untouched(p, v);
    }
    if TracedNode(Before(p), log) {
      forall v | v in p.catalogue
        ensures TracedVault(After(p), log, v)
      {
        UntouchedTraced(p, log, v);
      }
    }
  }

  // ----- what any session does to both -----

  ghost function Last(c: Change): Sys
    requires c.Sync? && c.run != []
  {
    c.run[|c.run| - 1]
  }

  /** The plans agree, and every vault that is received gets the files its peer has under that name. */
  ghost predicate OwnFiles(c: Change)
    requires c.Sync? && c.run != [] && Last(c).i.plan.Some?
  {
    var p := Last(c).i.plan.value;
    Own(c.hi, PushNames(p), PushOutcomes(c.hi, p)) && Own(c.hr, PullNames(p), PullOutcomes(c.hi, c.hr, p))
  }

  ghost predicate IsSession(c: Change) {
    c.Sync? && c.run != [] && SessionRun(c.hi, c.hr, c.run) && Stuck(Last(c))
  }

  /** The peers disagree and nothing is committed, or every vault ends up as SessionDelivery.EveryVault says. */
  lemma SessionEnd(c: Change)
    requires IsSession(c)
    ensures var s := Last(c);
            && s.i.host == c.hi && s.r.host == c.hr && s.i.plan.Some? && s.r.plan.Some?
            && Plans(c.hi, c.hr, s.i.plan.value, s.r.plan.value)
            && (!InAgreement(s) ==> forall v :: Untouched(s.i, v) && Untouched(s.r, v))
            && (InAgreement(s) ==>
                  && EndsUp(s.r, c.hi, PushNames(s.i.plan.value), PushOutcomes(c.hi, s.i.plan.value))
                  && EndsUp(s.i, c.hr, PullNames(s.i.plan.value), PullOutcomes(c.hi, c.hr, s.i.plan.value)))
  {
    hide Fate, Agree, Stuck, Plans, PushNames, PullNames, PushOutcomes, PullOutcomes, Landed, Finishes, Elsewhere, Untouched;
    var s := Last(c);
    FinishExact(c.hi, c.hr, c.run);
    RunFate(c.hi, c.hr, c.run);
    FateHosts(c.hi, c.hr, s);
    if InAgreement(s) {
      EveryVault(c.hi, c.hr, c.run);
    } else {
      NothingCommitted(c.hi, c.hr, c.run);
      forall v
        ensures Untouched(s.i, v) && Untouched(s.r, v)
      {
        Unchanged(s.i, PullNames(s.i.plan.value), v);
        SameUntouched(s.r, v);
      }
    }
  }

  lemma FateHosts(hi: Host, hr: Host, s: Sys)
    requires Fate(hi, hr, s)
    ensures s.i.host == hi && s.r.host == hr
  {
  }

  lemma Unchanged(p: Peer, names: seq<string>, v: string)
    requires Elsewhere(p, names) && (v in names ==> Untouched(p, v))
    ensures Untouched(p, v)
  {
  }

  lemma SameUntouched(p: Peer, v: string)
    requires p.dirs == p.host.dirs && p.catalogue == p.host.catalogue
    ensures Untouched(p, v)
  {
  }

  /** No version goes down in a session, whatever fails in it. */
  lemma SessionVersions(c: Change)
    requires IsSession(c)
    ensures VersionsKept(c.hi.catalogue, Last(c).i.catalogue) && VersionsKept(c.hr.catalogue, Last(c).r.catalogue)
  {
    hide Stuck, SessionRun, Plans, Agree, PushNames, PullNames, PushOutcomes, PullOutcomes, EndsUp, VersionsKept, VerdictOn,
      Untouched, PlansAgree;
    SessionEnd(c);
    var s := Last(c);
    if InAgreement(s) {
      var p := s.i.plan.value;
      NamesPlanned(c.hi, c.hr, p, s.r.plan.value);
      forall v
        ensures v in PullNames(p) && v in c.hi.catalogue ==>
                  v in c.hr.catalogue && c.hi.catalogue[v].version <= c.hr.catalogue[v].version
        ensures v in PushNames(p) && v in c.hr.catalogue ==>
                  v in c.hi.catalogue && c.hr.catalogue[v].version <= c.hi.catalogue[v].version
      {
        SendVersions(c.hi.catalogue, c.hr.catalogue, c.hi.strict, v);
      }
      SideVersions(s.i, c.hr, PullNames(p), PullOutcomes(c.hi, c.hr, p));
      SideVersions(s.r, c.hi, PushNames(p), PushOutcomes(c.hi, p));
    } else {
      SideUntouched(s.i, {});
      SideUntouched(s.r, {});
    }
  }

  /** Every vault that the session is to transfer has a checksum at its source. */
  ghost predicate Checked(c: Change)
    requires c.Sync? && c.run != [] && Last(c).i.plan.Some?
  {
    var p := Last(c).i.plan.value;
    && (forall v | v in PushNames(p) && v in c.hi.catalogue :: c.hi.catalogue[v].chainCS != "")
    && (forall v | v in PullNames(p) && v in c.hr.catalogue :: c.hr.catalogue[v].chainCS != "")
  }

  /** A session of any outcome keeps the origin of everything if and only if each vault it commits gets its own files. */
  lemma SessionTraced(c: Change, log: set<Record>)
    requires IsSession(c)
    requires TracedNode(Node(c.hi.dirs, c.hi.catalogue), log) && TracedNode(Node(c.hr.dirs, c.hr.catalogue), log)
    ensures var s := Last(c);
            && s.i.plan.Some?
            && ((InAgreement(s) ==> OwnFiles(c)) ==> TracedNode(After(s.i), log) && TracedNode(After(s.r), log))
            && (LogSound(log) && Checked(c) && TracedNode(After(s.i), log) && TracedNode(After(s.r), log) ==>
                  (InAgreement(s) ==> OwnFiles(c)))
  {
    hide Stuck, SessionRun, Plans, Agree, PushNames, PullNames, PushOutcomes, PullOutcomes, EndsUp, Untouched, TracedNode,
      LogSound, Own;
    SessionEnd(c);
    var s := Last(c);
    if InAgreement(s) {
      var p := s.i.plan.value;
      SideTraced(s.i, c.hr, PullNames(p), PullOutcomes(c.hi, c.hr, p), log);
      SideTraced(s.r, c.hi, PushNames(p), PushOutcomes(c.hi, p), log);
    } else {
      SideUntouched(s.i, log);
      SideUntouched(s.r, log);
    }
  }

  /** The session keeps the files of each vault with its entry: the peers disagree, or each vault gets its own files. */
  ghost predicate Faithful(c: Change) {
    c.Sync? ==> c.run != [] && Last(c).i.plan.Some? && (InAgreement(Last(c)) ==> OwnFiles(c))
  }

  ghost predicate AllChecked(c: Change) {
    c.Sync? ==> c.run != [] && Last(c).i.plan.Some? && Checked(c)
  }

  lemma SyncIs(s: Net, t: Net, c: Change)
    requires c.Sync? && NetStep(s, t, c)
    ensures c.run != [] && IsSession(c) && c.a != c.b
    ensures c.a in s.nodes && s.nodes[c.a] == Node(c.hi.dirs, c.hi.catalogue)
    ensures c.b in s.nodes && s.nodes[c.b] == Node(c.hr.dirs, c.hr.catalogue)
    ensures t == Net(s.nodes[c.a := After(Last(c).i)][c.b := After(Last(c).r)], s.log)
  {
    hide Stuck;
  }

  /** No change lowers a version anywhere, whatever fails in a session. */
  lemma StepVersions(s: Net, t: Net, c: Change)
    requires NetStep(s, t, c)
    ensures t.nodes.Keys == s.nodes.Keys && s.log <= t.log
    ensures forall id | id in s.nodes :: VersionsKept(s.nodes[id].catalogue, t.nodes[id].catalogue)
  {
    hide IsSession, SessionRun, Stuck;
    if c.Sync? {
      SyncIs(s, t, c);
      SessionVersions(c);
    }
  }

  /** A change keeps the origin of everything if it is an edit or a session that keeps each vault's files with its entry. */
  lemma StepTraced(s: Net, t: Net, c: Change)
    requires NetStep(s, t, c) && Traced(s)
    ensures LogSound(s.log) ==> LogSound(t.log)
    ensures Faithful(c) ==> Traced(t)
    ensures LogSound(s.log) && AllChecked(c) && Traced(t) ==> Faithful(c)
  {
    hide IsSession, SessionRun, Stuck, LogSound, TracedNode, InAgreement, Checked, OwnFiles;
    match c
    case Edit(id, v, files, root, now, checksum) =>
      EditTraced(s.nodes[id], s.log, v, files, root, now, checksum);
      var r := Record(v.name, StampOf(t.nodes[id].catalogue[v.name]), files);
      forall k | k in s.nodes
        ensures TracedNode(s.nodes[k], t.log)
      {
        MoreLog(s.nodes[k], s.log, r);
      }
    case Sync(a, b, _, _, _) =>
      SyncIs(s, t, c);
      assert t.nodes[a] == After(Last(c).i) && t.nodes[b] == After(Last(c).r);
      SessionTraced(c, s.log);
  }

  ghost predicate NetRun(run: seq<Net>, changes: seq<Change>) {
    |run| == |changes| + 1 && forall k | 0 <= k < |changes| :: NetStep(run[k], run[k + 1], changes[k])
  }

  /** Over any history of edits and sessions among any number of peers, no version a peer holds ever goes down. */
  lemma {:induction false} HistoryVersions(run: seq<Net>, changes: seq<Change>, k: nat)
    requires NetRun(run, changes) && k < |run|
    ensures run[k].nodes.Keys == run[|run| - 1].nodes.Keys && run[k].log <= run[|run| - 1].log
    ensures forall id | id in run[k].nodes :: VersionsKept(run[k].nodes[id].catalogue, run[|run| - 1].nodes[id].catalogue)
  {
    hide NetStep, VersionsKept;
    var m := |changes|;
    if k == m {
      forall id | id in run[m].nodes
        ensures VersionsKept(run[m].nodes[id].catalogue, run[m].nodes[id].catalogue)
      {
        SameVersions(run[m].nodes[id].catalogue);
      }
    } else {
      HistoryVersions(run[..m], changes[..m - 1], k);
      assert NetStep(run[m - 1], run[m], changes[m - 1]);
      StepVersions(run[m - 1], run[m], changes[m - 1]);
      forall id | id in run[k].nodes
        ensures VersionsKept(run[k].nodes[id].catalogue, run[m].nodes[id].catalogue)
      {
        LaterVersions(run[k].nodes[id].catalogue, run[m - 1].nodes[id].catalogue, run[m].nodes[id].catalogue);
      }
    }
  }

  /**
   Over any history in which each session keeps every vault's files with its entry, every entry a peer holds was recorded
   by some peer's edit and its files are the files of that edit.
   */
  lemma {:induction false} HistoryTraced(run: seq<Net>, changes: seq<Change>, k: nat)
    requires NetRun(run, changes) && Traced(run[0]) && k < |run| && forall i | 0 <= i < k :: Faithful(changes[i])
    ensures Traced(run[k]) && (LogSound(run[0].log) ==> LogSound(run[k].log))
    decreases k
  {
    hide Traced, NetStep, LogSound, Faithful;
    if k > 0 {
      HistoryTraced(run, changes, k - 1);
      assert NetStep(run[k - 1], run[k], changes[k - 1]);
      StepTraced(run[k - 1], run[k], changes[k - 1]);
    }
  }

  /**
   When every vault to be transferred has a checksum, the origin of everything is kept all along a history if and only
   if each of its sessions gives every vault that it commits its own files.
   */
  lemma HistoryExact(run: seq<Net>, changes: seq<Change>)
    requires NetRun(run, changes) && Traced(run[0]) && LogSound(run[0].log)
    requires forall i | 0 <= i < |changes| :: AllChecked(changes[i])
    ensures (forall k | 0 <= k < |run| :: Traced(run[k])) <==> (forall i | 0 <= i < |changes| :: Faithful(changes[i]))
  {
    hide Traced, NetStep, LogSound, Faithful, AllChecked;
    if forall i | 0 <= i < |changes| :: Faithful(changes[i]) {
      forall k | 0 <= k < |run|
        ensures Traced(run[k])
      {
        HistoryTraced(run, changes, k);
      }
    }
    if forall k | 0 <= k < |run| :: Traced(run[k]) {
      forall i | 0 <= i < |changes|
        ensures Faithful(changes[i])
      {
        TracedFaithful(run, changes, i);
      }
    }
  }

  lemma {:induction false} TracedFaithful(run: seq<Net>, changes: seq<Change>, i: int)
    requires NetRun(run, changes) && LogSound(run[0].log) && 0 <= i < |changes|
    requires forall k | 0 <= k < |run| :: Traced(run[k])
    requires forall k | 0 <= k < |changes| :: AllChecked(changes[k])
    ensures Faithful(changes[i]) && LogSound(run[i + 1].log)
  {
    hide Traced, NetStep, LogSound, Faithful, AllChecked;
    if i > 0 {
      TracedFaithful(run, changes, i - 1);
    }
    assert NetStep(run[i], run[i + 1], changes[i]);
    StepTraced(run[i], run[i + 1], changes[i]);
  }

  lemma SameVersions(c: Catalogue)
    ensures VersionsKept(c, c)
  {
  }

  lemma LaterVersions(a: Catalogue, b: Catalogue, c: Catalogue)
    requires VersionsKept(a, b) && VersionsKept(b, c)
    ensures VersionsKept(a, c)
  {
  }

  // ----- what a session achieves -----

  /** The two peers hold the same edit of the vault. */
  predicate SameVault(a: Node, b: Node, v: string) {
    && v in a.catalogue && v in b.catalogue && StampOf(a.catalogue[v]) == StampOf(b.catalogue[v])
    && v in a.dirs && v in b.dirs && a.dirs[v] == b.dirs[v]
  }

  /** Not both entries carry a checksum, and everything else that negotiation compares is equal. */
  predicate Alike(a: Catalogue, b: Catalogue, v: string, strict: bool) {
    && v in a && v in b && !Chained(a[v], b[v])
    && a[v].version == b[v].version && a[v].modified == b[v].modified && a[v].itemCount == b[v].itemCount
    && !(strict && FingerprintMismatch(a[v], b[v]))
  }

  /**
   In a traced net, two peers are in sync on a vault that one of them knows exactly when they hold the same edit, or one
   of them holds a migrated entry and the two look alike.
   */
  lemma InSyncExact(a: Node, b: Node, log: set<Record>, strict: bool, v: string)
    requires TracedNode(a, log) && TracedNode(b, log) && LogSound(log)
    requires v in a.catalogue || v in b.catalogue
    ensures VerdictOn(a.catalogue, b.catalogue, strict, v) == InSync <==>
              SameVault(a, b, v) || Alike(a.catalogue, b.catalogue, v, strict)
  {
    if v in a.catalogue && v in b.catalogue {
      var r, q := Record(v, StampOf(a.catalogue[v]), a.dirs[v]), Record(v, StampOf(b.catalogue[v]), b.dirs[v]);
      assert r in log && q in log;
    }
  }

  /** The session finishes without a failure. */
  ghost predicate Smooth(c: Change) {
    c.Sync? && c.run != [] && Done(Last(c)) && NoErrors(Last(c))
  }

  lemma SmoothCompleted(c: Change)
    requires IsSession(c) && Smooth(c)
    ensures Completed(c.hi, c.hr, Last(c))
  {
    hide Completed, Honest, Stuck;
    CompletionExact(c.hi, c.hr, c.run);
  }

  /** A session that finishes without a failure keeps every vault's files with its entry. */
  lemma SmoothFaithful(c: Change)
    requires IsSession(c) && Smooth(c)
    ensures Faithful(c)
  {
    hide SessionRun, Stuck, Plans, PlansAgree, Agree, PushNames, PullNames, PushOutcomes, PullOutcomes, Elsewhere, Pulled,
      VerdictOn, Moved, PlanOn, InAgreement;
    SmoothCompleted(c);
    SessionEnd(c);
    var s := Last(c);
    if InAgreement(s) {
      var p := s.i.plan.value;
      NamesPlanned(c.hi, c.hr, p, s.r.plan.value);
      OwnLanded(s.i, c.hr, PullNames(p), PullOutcomes(c.hi, c.hr, p));
      OwnLanded(s.r, c.hi, PushNames(p), PushOutcomes(c.hi, p));
    }
  }

  lemma OwnLanded(p: Peer, src: Host, names: seq<string>, outcomes: seq<Option<Files>>)
    requires EndsUp(p, src, names, outcomes) && forall v | v in names :: Get(p.dirs, v) == Get(src.dirs, v)
    ensures Own(src, names, outcomes)
  {
    hide Elsewhere;
    forall i | 0 <= i < |names| && outcomes[i].Some?
      ensures Get(src.dirs, names[i]) == outcomes[i]
    {
      assert names[i] in names && Landed(p, src, names[i], outcomes[i]);
    }
  }

  /**
   After a session without a failure every vault that either peer knows is the same on both, or a conflict, or only looks
   alike.
   */
  lemma SameOrConflict(s: Net, t: Net, c: Change, v: string)
    requires c.Sync? && NetStep(s, t, c) && Smooth(c) && Traced(s) && LogSound(s.log)
    requires v in t.nodes[c.a].catalogue || v in t.nodes[c.b].catalogue
    ensures || SameVault(t.nodes[c.a], t.nodes[c.b], v)
            || VerdictOn(c.hi.catalogue, c.hr.catalogue, c.hi.strict, v) == Conflict
            || Alike(c.hi.catalogue, c.hr.catalogue, v, c.hi.strict)
  {
    hide SessionRun, Delivered, Moved, Pulled, LogSound, TracedNode, PlanOn, Judge, VerdictOn, SameVault, Alike;
    SyncIs(s, t, c);
    SmoothCompleted(c);
    var last := c.run[|c.run| - 1];
    var l, r := c.hi.catalogue, c.hr.catalogue;
    var d := VerdictOn(l, r, c.hi.strict, v);
    KnownBefore(s, t, c, v);
    if d.Send? {
      SentSame(c.hi, c.hr, last, v);
    } else if d.InSync? {
      KeptSame(c.hi, c.hr, last, v);
      InSyncExact(s.nodes[c.a], s.nodes[c.b], s.log, c.hi.strict, v);
    }
  }

  lemma KnownBefore(s: Net, t: Net, c: Change, v: string)
    requires c.Sync? && NetStep(s, t, c) && Traced(s) && c.run != [] && Completed(c.hi, c.hr, c.run[|c.run| - 1])
    requires v in t.nodes[c.a].catalogue || v in t.nodes[c.b].catalogue
    ensures v in c.hi.catalogue || v in c.hr.catalogue
    ensures (v in c.hi.catalogue ==> v in c.hi.dirs) && (v in c.hr.catalogue ==> v in c.hr.dirs)
    ensures TracedNode(Node(c.hi.dirs, c.hi.catalogue), s.log) && TracedNode(Node(c.hr.dirs, c.hr.catalogue), s.log)
  {
    hide SessionRun, Delivered, Moved, PlanOn, VerdictOn, Received;
    assert s.nodes[c.a] == Node(c.hi.dirs, c.hi.catalogue) && s.nodes[c.b] == Node(c.hr.dirs, c.hr.catalogue);
  }

  /** A transferred vault is the same on both peers, whatever checksum it has. */
  lemma SentSame(hi: Host, hr: Host, s: Sys, v: string)
    requires Completed(hi, hr, s) && VerdictOn(hi.catalogue, hr.catalogue, hi.strict, v).Send?
    requires v in hi.catalogue ==> v in hi.dirs
    requires v in hr.catalogue ==> v in hr.dirs
    ensures SameVault(Node(s.i.dirs, s.i.catalogue), Node(s.r.dirs, s.r.catalogue), v)
  {
    hide Judge, PlanOn, Moved;
    var p := s.i.plan.value;
    PlanMoved(hi.catalogue, hr.catalogue, hi.strict, p);
    SendSource(Get(hi.catalogue, v), Get(hr.catalogue, v), hi.strict);
    var d := VerdictOn(hi.catalogue, hr.catalogue, hi.strict, v).direction;
    assert v in Moved(p, d) && v !in Moved(p, FlipDirection(d));
    assert Get(s.i.dirs, v) == Get(s.r.dirs, v);
  }

  /** A vault that is not transferred is as before on both peers. */
  lemma KeptSame(hi: Host, hr: Host, s: Sys, v: string)
    requires Completed(hi, hr, s) && !VerdictOn(hi.catalogue, hr.catalogue, hi.strict, v).Send?
    ensures Get(s.i.catalogue, v) == Get(hi.catalogue, v) && Get(s.r.catalogue, v) == Get(hr.catalogue, v)
    ensures SameVault(Node(hi.dirs, hi.catalogue), Node(hr.dirs, hr.catalogue), v) ==>
              SameVault(Node(s.i.dirs, s.i.catalogue), Node(s.r.dirs, s.r.catalogue), v)
  {
    hide Judge, PlanOn, Moved;
    var p := s.i.plan.value;
    PlanMoved(hi.catalogue, hr.catalogue, hi.strict, p);
    assert v !in Moved(p, Pull) && v !in Moved(p, Push);
    assert Get(s.i.dirs, v) == Get(hi.dirs, v) && Get(s.r.dirs, v) == Get(hr.dirs, v);
    PulledOther(hi.catalogue, hr.catalogue, Moved(p, Pull), hi.root, v);
    PulledOther(hr.catalogue, hi.catalogue, Moved(p, Push), hr.root, v);
    SameEntries(hi, hr, s, v);
  }

  lemma PulledOther(local: Catalogue, remote: Catalogue, names: set<string>, root: string, v: string)
    requires v !in names
    ensures Get(Pulled(local, remote, names, root), v) == Get(local, v)
  {
  }

  lemma SameEntries(hi: Host, hr: Host, s: Sys, v: string)
    requires Get(s.i.catalogue, v) == Get(hi.catalogue, v) && Get(s.r.catalogue, v) == Get(hr.catalogue, v)
    requires Get(s.i.dirs, v) == Get(hi.dirs, v) && Get(s.r.dirs, v) == Get(hr.dirs, v)
    ensures SameVault(Node(hi.dirs, hi.catalogue), Node(hr.dirs, hr.catalogue), v) ==>
              SameVault(Node(s.i.dirs, s.i.catalogue), Node(s.r.dirs, s.r.catalogue), v)
  {
  }

  /**
   Unlocking stamps the entry anew without raising the version (internal/usm/storage_os.go:150-152): a vault that was
   the same on two peers becomes a conflict as soon as one of them unlocks it. Only a migrated entry, without a checksum,
   whose item count and time are unchanged stays in sync, in the strict mode also only if the fingerprints do not differ.
   */
  lemma UnlockMakesConflict(a: Node, b: Node, log: set<Record>, strict: bool, v: Vault, root: string, now: Time, checksum: string)
    requires TracedNode(a, log) && TracedNode(b, log) && LogSound(log) && SameVault(a, b, v.name)
    requires Unused(checksum, log) && v.modified == a.catalogue[v.name].modified
    ensures var u := Edited(a, v, a.dirs[v.name], root, now, checksum);
            && u.dirs == a.dirs && u.catalogue[v.name].version == a.catalogue[v.name].version
            && (VerdictOn(u.catalogue, b.catalogue, strict, v.name) == Conflict <==>
                  || a.catalogue[v.name].chainCS != "" || v.size != a.catalogue[v.name].itemCount
                  || (v.modified == ZERO_TIME && now != ZERO_TIME)
                  || (strict && v.fingerprint != "" && b.catalogue[v.name].fingerprint != ""
                      && v.fingerprint != b.catalogue[v.name].fingerprint))
  {
    assert TracedVault(a, log, v.name);
  }

  // ----- one edit since the last session -----

  lemma OnlyTransfer(l: Catalogue, r: Catalogue, strict: bool, p: Plan, n: string, d: Direction)
    requires IsPlan(l, r, strict, p) && VerdictOn(l, r, strict, n) == Send(d)
    requires forall m | m != n :: VerdictOn(l, r, strict, m) == InSync
    ensures p == Plan([VaultTransfer(n, d, 1)], [])
  {
    hide VerdictOn;
    assert n in l.Keys + r.Keys by {
      KnownName(l, r, strict, n);
    }
    var t := VaultTransfer(n, d, 1);
    assert t in p.auto;
    forall u | u in p.auto
      ensures u == t
    {
      assert VerdictOn(l, r, strict, u.vaultName) == Send(u.direction);
    }
    FirstTwo(p);
    assert p.auto == [t];
    forall c | c in p.conflicts
      ensures VerdictOn(l, r, strict, c.vaultName) == Conflict
    {
    }
  }

  lemma FirstTwo(p: Plan)
    requires DistinctTransfers(p.auto)
    ensures |p.auto| <= 1 || (p.auto[0] in p.auto && p.auto[1] in p.auto && p.auto[0] != p.auto[1])
    ensures p.conflicts == [] || p.conflicts[0] in p.conflicts
  {
  }

  lemma KnownName(l: Catalogue, r: Catalogue, strict: bool, n: string)
    requires VerdictOn(l, r, strict, n).Send?
    ensures n in l.Keys + r.Keys
  {
  }

  /**
   Two peers are in sync on every vault; then one of them edits a vault, which changes its modification stamp, or makes a
   new one. The next plans transfer exactly that vault, from the editor to the other, and report no conflict, unless the
   mode is strict and the fingerprints differ.
   */
  lemma EditTransfers(a: Node, b: Node, log: set<Record>, strict: bool, v: Vault, files: Files, root: string, now: Time,
                      checksum: string, p: Plan, q: Plan)
    requires TracedNode(a, log) && TracedNode(b, log) && LogSound(log) && Unused(checksum, log)
    requires forall n :: VerdictOn(a.catalogue, b.catalogue, strict, n) == InSync
    requires v.name in a.catalogue ==> v.modified != ZERO_TIME && v.modified != a.catalogue[v.name].modified
    requires strict && v.name in b.catalogue ==>
               v.fingerprint == "" || b.catalogue[v.name].fingerprint == "" || v.fingerprint == b.catalogue[v.name].fingerprint
    requires IsPlan(Edited(a, v, files, root, now, checksum).catalogue, b.catalogue, strict, p)
    requires IsPlan(b.catalogue, Edited(a, v, files, root, now, checksum).catalogue, strict, q)
    ensures p == Plan([VaultTransfer(v.name, Push, 1)], []) && q == Plan([VaultTransfer(v.name, Pull, 1)], [])
  {
    hide TracedNode, LogSound, PlanOn, Judge;
    var c := Edited(a, v, files, root, now, checksum).catalogue;
    EditSends(a, b, log, strict, v, files, root, now, checksum);
    forall n
      ensures VerdictOn(b.catalogue, c, strict, n) == Mirror(VerdictOn(c, b.catalogue, strict, n))
      ensures n != v.name ==> VerdictOn(c, b.catalogue, strict, n) == InSync
    {
      JudgeMirrored(Get(c, n), Get(b.catalogue, n), strict);
      assert n != v.name ==> Get(c, n) == Get(a.catalogue, n);
      assert VerdictOn(a.catalogue, b.catalogue, strict, n) == InSync;
    }
    OnlyTransfer(c, b.catalogue, strict, p, v.name, Push);
    OnlyTransfer(b.catalogue, c, strict, q, v.name, Pull);
  }

  lemma EditSends(a: Node, b: Node, log: set<Record>, strict: bool, v: Vault, files: Files, root: string, now: Time,
                  checksum: string)
    requires TracedNode(a, log) && TracedNode(b, log) && LogSound(log) && Unused(checksum, log)
    requires VerdictOn(a.catalogue, b.catalogue, strict, v.name) == InSync
    requires v.name in a.catalogue ==> v.modified != ZERO_TIME && v.modified != a.catalogue[v.name].modified
    requires strict && v.name in b.catalogue ==>
               v.fingerprint == "" || b.catalogue[v.name].fingerprint == "" || v.fingerprint == b.catalogue[v.name].fingerprint
    ensures VerdictOn(Edited(a, v, files, root, now, checksum).catalogue, b.catalogue, strict, v.name) == Send(Push)
  {
    if v.name in a.catalogue || v.name in b.catalogue {
      InSyncExact(a, b, log, strict, v.name);
    }
    if v.name in b.catalogue {
      assert TracedVault(b, log, v.name);
    }
  }
}
