/**
 Swapping a received vault into place, and recovering from a crash in the middle of it
 (internal/sync/transfer.go).

 A vault directory holds the live files and two helper directories, .sync-staging and .sync-backup. CommitStaging
 moves the live files to the backup one by one, then the staged files to the live directory one by one; at start-up
 CleanupOrphanedSync decides what to do from the presence of the backup and of one live file, vault.age.
 */
module Transfer {
  import opened Results
  import opened FileNames

  type Content = seq<nat>
  type Files = map<string, Content>

  /** What is on the disk for one vault. */
  datatype Dir = Dir(live: Files, staging: Option<Files>, backup: Option<Files>)

  function Only(m: Files, names: seq<string>): Files {
    map n | n in m && n in names :: m[n]
  }

  function Without(m: Files, names: seq<string>): Files {
    map n | n in m && n !in names :: m[n]
  }

  /** b holds some of the files of a, unchanged. */
  predicate Part(b: Files, a: Files) {
    forall n | n in b :: n in a && b[n] == a[n]
  }

  /** What a directory that is being removed may still hold. */
  predicate Remains(b: Option<Files>, a: Option<Files>) {
    b.None? || (a.Some? && Part(b.value, a.value))
  }

  // ----- the specification of CleanupOrphanedSync -----

  function Recover(s: Dir): Dir {
    if s.backup.None? || VAULT in s.live then Dir(s.live, None, None)
    else Dir(s.live + s.backup.value, None, None)
  }

  // ----- every point at which CommitStaging can be interrupted -----

  datatype CrashPoint =
    | Clearing                        // an older backup is being removed
    | BackingUp(k: nat)               // the first k live files have been moved to the backup
    | UndoingBackup(k: nat, i: nat)   // file k could not be moved; the first i of the k are back
    | UndoneBackup
    | Committing(j: nat)              // all live files are in the backup, the first j staged files are live
    | UndoingCommit(j: nat, i: nat)   // staged file j could not be moved; the first i live files are back
    | UndoneCommit(j: nat)
    | Finishing                       // all staged files are live; the helper directories are being removed

  /** The disk s is one that an interruption at point p leaves when CommitStaging started on d. */
  ghost predicate AtPoint(d: Dir, oldNames: seq<string>, newNames: seq<string>, p: CrashPoint, s: Dir)
    requires d.staging.Some?
  {
    var live, staged := d.live, d.staging.value;
    match p
    case Clearing =>
      s.live == live && s.staging == d.staging && Remains(s.backup, d.backup)
    case BackingUp(k) =>
      k <= |oldNames| && s == Dir(Without(live, oldNames[..k]), d.staging, Some(Only(live, oldNames[..k])))
    case UndoingBackup(k, i) =>
      i <= k < |oldNames| && s == Dir(Without(live, oldNames[i..k]), d.staging, Some(Only(live, oldNames[i..k])))
    case UndoneBackup =>
      s == Dir(live, d.staging, None)
    case Committing(j) =>
      j <= |newNames| && s == Dir(Only(staged, newNames[..j]), Some(Without(staged, newNames[..j])), Some(live))
    case UndoingCommit(j, i) =>
      (j < |newNames| || j == 0) && i <= |oldNames|
      && s == Dir(Only(staged, newNames[..j]) + Only(live, oldNames[..i]), Some(Without(staged, newNames[..j])),
                  Some(Without(live, oldNames[..i])))
    case UndoneCommit(j) =>
      (j < |newNames| || j == 0) && s == Dir(Only(staged, newNames[..j]) + live, Some(Without(staged, newNames[..j])), None)
    case Finishing =>
      s.live == staged && Remains(s.staging, Some(map[])) && Remains(s.backup, Some(live))
  }

  /** A set of files whose vault.age is there and is the last one in a listing; or no files at all. */
  predicate Sound(files: Files) {
    && (forall n | n in files :: AtMost(n, VAULT))
    && (files != map[] ==> VAULT in files)
  }

  /**
   The window in which a crash loses files: some file has been moved to the backup and not moved back, while the
   old vault.age is still in the live directory.
   */
  predicate InWindow(p: CrashPoint, count: nat) {
    match p
    case BackingUp(k) => 0 < k < count
    case UndoingBackup(k, i) => i < k
    case _ => false
  }

  /** The staged vault.age is live. */
  predicate SwitchedOver(p: CrashPoint, staged: nat) {
    match p
    case Committing(j) => j == staged
    case Finishing => true
    case _ => false
  }

  // ----- where vault.age is -----

  lemma VaultIsLast(files: Files, names: seq<string>)
    requires Sound(files) && Listing(names, files.Keys) && files != map[]
    ensures names != [] && names[|names| - 1] == VAULT
    ensures forall i | 0 <= i < |names| - 1 :: names[i] != VAULT
  {
    assert VAULT in Names(names);
    var last := names[|names| - 1];
    assert last in Names(names);
    LastIsMax(names);
    if last != VAULT {
      Transitive(last, VAULT, last);
      Irreflexive(last);
    }
    Irreflexive(VAULT);
  }

  lemma ListedAll(files: Files, names: seq<string>)
    requires Listing(names, files.Keys)
    ensures Only(files, names) == files && Without(files, names) == map[]
    ensures names == [] <==> files == map[]
  {
    assert forall n | n in files :: n in Names(names);
    if names != [] {
      assert names[0] in Names(names);
    }
  }

  /** A prefix of the listing that leaves something out leaves vault.age out. */
  lemma VaultNotInPrefix(files: Files, names: seq<string>, k: nat)
    requires Sound(files) && Listing(names, files.Keys) && k < |names|
    ensures VAULT in files && VAULT !in names[..k]
  {
    ListedAll(files, names);
    VaultIsLast(files, names);
  }

  // ----- what recovery makes of each point -----

  lemma RecoverWindow(d: Dir, oldNames: seq<string>, lo: nat, hi: nat, s: Dir)
    requires Sound(d.live) && Listing(oldNames, d.live.Keys) && lo <= hi < |oldNames|
    requires s == Dir(Without(d.live, oldNames[lo..hi]), d.staging, Some(Only(d.live, oldNames[lo..hi])))
    ensures Recover(s) == Dir(Without(d.live, oldNames[lo..hi]), None, None)
    ensures Part(d.live, Recover(s).live) <==> lo == hi
  {
    VaultNotInPrefix(d.live, oldNames, hi);
    assert forall n | n in oldNames[lo..hi] :: n in oldNames[..hi];
    if lo < hi {
      assert oldNames[lo] in Names(oldNames) && oldNames[lo] in oldNames[lo..hi];
    }
  }

  lemma Overlay(a: Files, live: Files, names: seq<string>)
    ensures (a + Only(live, names)) + Without(live, names) == a + live
  {
  }

  lemma RecoverBackup(d: Dir, oldNames: seq<string>, staged: Files, newNames: seq<string>, j: nat, i: nat, s: Dir)
    requires Sound(d.live) && Listing(oldNames, d.live.Keys) && i <= |oldNames|
    requires Sound(staged) && Listing(newNames, staged.Keys) && j < |newNames|
    requires s == Dir(Only(staged, newNames[..j]) + Only(d.live, oldNames[..i]), s.staging, Some(Without(d.live, oldNames[..i])))
    ensures Recover(s) == Dir(Only(staged, newNames[..j]) + d.live, None, None)
  {
    hide Sound, Listing;
    Overlay(Only(staged, newNames[..j]), d.live, oldNames[..i]);
    VaultNotInPrefix(staged, newNames, j);
    if i < |oldNames| {
      VaultNotInPrefix(d.live, oldNames, i);
    } else {
      assert oldNames[..i] == oldNames;
      ListedAll(d.live, oldNames);
    }
  }

  /** What CleanupOrphanedSync leaves after a crash at p. */
  ghost function Outcome(d: Dir, oldNames: seq<string>, newNames: seq<string>, p: CrashPoint, s: Dir): Files
    requires d.staging.Some?
  {
    var live, staged := d.live, d.staging.value;
    match p
    case Clearing => if live == map[] && s.backup.Some? then s.backup.value else live
    case BackingUp(k) => if k < |oldNames| then Without(live, oldNames[..k]) else live
    case UndoingBackup(k, i) => if i <= k < |oldNames| then Without(live, oldNames[i..k]) else live
    case Committing(j) => if j < |newNames| then Only(staged, newNames[..j]) + live else staged
    case UndoingCommit(j, _) => if j < |newNames| then Only(staged, newNames[..j]) + live else live
    case UndoneCommit(j) => if j < |newNames| then Only(staged, newNames[..j]) + live else live
    case Finishing => staged
    case _ => live
  }

  /** CommitStaging puts a complete new vault in the place of a complete old one, or in an empty directory. */
  ghost predicate Ready(d: Dir, oldNames: seq<string>, newNames: seq<string>) {
    && d.staging.Some? && Sound(d.live) && Sound(d.staging.value) && VAULT in d.staging.value
    && Listing(oldNames, d.live.Keys) && Listing(newNames, d.staging.value.Keys)
  }

  lemma RecoverBeforeSwitch(d: Dir, oldNames: seq<string>, newNames: seq<string>, p: CrashPoint, s: Dir)
    requires Ready(d, oldNames, newNames) && AtPoint(d, oldNames, newNames, p, s)
    requires p.Clearing? || p.BackingUp? || p.UndoingBackup? || p.UndoneBackup?
    ensures (p.BackingUp? && p.k == |oldNames|) || Recover(s) == Dir(Outcome(d, oldNames, newNames, p, s), None, None)
  {
    hide Listing;
    ListedAll(d.live, oldNames);
    match p
    case BackingUp(k) =>
      if k < |oldNames| {
        assert oldNames[0..k] == oldNames[..k];
        RecoverWindow(d, oldNames, 0, k, s);
      }
    case UndoingBackup(k, i) =>
      RecoverWindow(d, oldNames, i, k, s);
    case _ =>
  }

  lemma RecoverMidway(d: Dir, oldNames: seq<string>, newNames: seq<string>, p: CrashPoint, s: Dir)
    requires Ready(d, oldNames, newNames) && AtPoint(d, oldNames, newNames, p, s)
    requires (p.BackingUp? && p.k == |oldNames|) || p.Committing? || p.UndoingCommit?
    ensures Recover(s) == Dir(Outcome(d, oldNames, newNames, p, s), None, None)
  {
    hide Listing, Sound;
    var live, staged := d.live, d.staging.value;
    ListedAll(live, oldNames);
    ListedAll(staged, newNames);
    assert Without(live, oldNames[..0]) == live && Only(live, oldNames[..0]) == map[];
    match p
    case BackingUp(k) =>
      assert oldNames[..k] == oldNames;
    case Committing(j) =>
      if j < |newNames| {
        RecoverBackup(d, oldNames, staged, newNames, j, 0, s);
      } else {
        assert newNames[..j] == newNames;
      }
    case UndoingCommit(j, i) =>
      RecoverBackup(d, oldNames, staged, newNames, j, i, s);
  }

  lemma RecoverAt(d: Dir, oldNames: seq<string>, newNames: seq<string>, p: CrashPoint, s: Dir)
    requires Ready(d, oldNames, newNames) && AtPoint(d, oldNames, newNames, p, s)
    ensures Recover(s) == Dir(Outcome(d, oldNames, newNames, p, s), None, None)
  {
    hide Listing, Only, Without;
    ListedAll(d.staging.value, newNames);
    match p
    case BackingUp(k) =>
      if k == |oldNames| {
        RecoverMidway(d, oldNames, newNames, p, s);
      } else {
        RecoverBeforeSwitch(d, oldNames, newNames, p, s);
      }
    case Committing(_) => RecoverMidway(d, oldNames, newNames, p, s);
    case UndoingCommit(_, _) => RecoverMidway(d, oldNames, newNames, p, s);
    case UndoneCommit(_) =>
    case Finishing =>
    case _ => RecoverBeforeSwitch(d, oldNames, newNames, p, s);
  }

  /**
   Crash safety. Until the staged vault.age is live, recovery keeps every old file with its old content exactly when
   the crash is outside the window, and adds only staged files under other names, or, where the directory was empty,
   files of an older backup that had not yet been removed; from then on it leaves exactly the staged files.
   */
  lemma CrashSafety(d: Dir, oldNames: seq<string>, newNames: seq<string>, p: CrashPoint, s: Dir)
    requires Ready(d, oldNames, newNames) && AtPoint(d, oldNames, newNames, p, s)
    ensures Recover(s).staging.None? && Recover(s).backup.None?
    ensures SwitchedOver(p, |newNames|) ==> Recover(s).live == d.staging.value
    ensures !SwitchedOver(p, |newNames|) ==> (Part(d.live, Recover(s).live) <==> !InWindow(p, |oldNames|))
    ensures !SwitchedOver(p, |newNames|) ==>
              forall n | n in Recover(s).live && n !in d.live ::
                || (n in d.staging.value && Recover(s).live[n] == d.staging.value[n])
                || (p.Clearing? && d.live == map[] && d.backup.Some? && n in d.backup.value
                    && Recover(s).live[n] == d.backup.value[n])
    ensures InWindow(p, |oldNames|) ==> Part(Recover(s).live, d.live) && VAULT in Recover(s).live
  {
    hide Listing, Recover;
    RecoverAt(d, oldNames, newNames, p, s);
    match p
    case BackingUp(k) =>
      if k < |oldNames| {
        Lost(d.live, oldNames, 0, k);
        assert oldNames[0..k] == oldNames[..k];
      }
    case UndoingBackup(k, i) =>
      Lost(d.live, oldNames, i, k);
    case _ =>
  }

  lemma Lost(live: Files, oldNames: seq<string>, lo: nat, hi: nat)
    requires Sound(live) && Listing(oldNames, live.Keys) && lo <= hi < |oldNames|
    ensures VAULT in Without(live, oldNames[lo..hi])
    ensures Part(live, Without(live, oldNames[lo..hi])) <==> lo == hi
  {
    VaultNotInPrefix(live, oldNames, hi);
    assert forall n | n in oldNames[lo..hi] :: n in oldNames[..hi];
    if lo < hi {
      assert oldNames[lo] in Names(oldNames) && oldNames[lo] in oldNames[lo..hi];
    }
  }

  // ----- a crash of the recovery itself -----

  /** The disk t is one that an interruption of CleanupOrphanedSync leaves when it started on s. */
  ghost predicate DuringCleanup(s: Dir, t: Dir) {
    || (t.live == s.live && t.backup == s.backup && Remains(t.staging, s.staging))
    || (t.staging.None? && s.backup.Some? && VAULT in s.live && t.live == s.live && Remains(t.backup, s.backup))
    || (s.backup.Some? && VAULT !in s.live && exists names, k :: RollingBack(s, t, names, k))
    || t == Recover(s)
  }

  /** The first k backup files have been moved back over the live ones. */
  ghost predicate RollingBack(s: Dir, t: Dir, names: seq<string>, k: nat)
    requires s.backup.Some?
  {
    Listing(names, s.backup.value.Keys) && k <= |names| && t == RolledBack(s.(staging := None), names[..k])
  }

  function RolledBack(s: Dir, names: seq<string>): Dir
    requires s.backup.Some?
  {
    Dir(s.live + Only(s.backup.value, names), s.staging, Some(Without(s.backup.value, names)))
  }

  /** No file of the backup can be left behind by a second run that finds vault.age already moved back. */
  predicate NothingStranded(s: Dir) {
    s.backup.Some? && VAULT !in s.live && VAULT in s.backup.value ==>
      forall n | n in s.backup.value ::
        AtMost(n, VAULT) || (n in s.live && s.live[n] == s.backup.value[n])
  }

  lemma IndexIn(names: seq<string>, n: string) returns (i: nat)
    requires Increasing(names) && n in names
    ensures i < |names| && names[i] == n
    ensures forall k: nat | k <= |names| :: n in names[..k] <==> i < k
  {
    i :| i < |names| && names[i] == n;
    forall k: nat | k <= |names|
      ensures n in names[..k] <==> i < k
    {
      if i < k {
        assert names[..k][i] == n;
      }
      if m: nat :| m < k && names[m] == n {
        ListingDistinct(names, m, i);
      }
    }
  }

  /** A prefix of a listing that leaves out a name up to vault.age leaves out vault.age. */
  lemma PrefixOfListing(names: seq<string>, k: nat, n: string)
    requires Increasing(names) && k <= |names| && n in names && n !in names[..k] && AtMost(n, VAULT)
    ensures VAULT !in names[..k]
  {
    if n != VAULT && VAULT in names {
      var i := IndexIn(names, n);
      var j := IndexIn(names, VAULT);
      if j < i {
        Transitive(VAULT, n, VAULT);
        Irreflexive(VAULT);
      }
    }
  }

  lemma CleanupReentrant(s: Dir, t: Dir)
    requires DuringCleanup(s, t) && NothingStranded(s)
    ensures Recover(t) == Recover(s) && NothingStranded(t)
  {
    if s.backup.Some? && VAULT !in s.live {
      if names: seq<string>, k: nat :| RollingBack(s, t, names, k) {
        RollbackReentrant(s.(staging := None), names, k);
      }
    }
  }

  lemma ListedNames(files: Files, names: seq<string>)
    requires Listing(names, files.Keys)
    ensures Increasing(names) && forall n :: n in files <==> n in names
  {
    assert forall n :: n in names <==> n in Names(names);
  }

  lemma RollbackReentrant(s: Dir, names: seq<string>, k: nat)
    requires s.backup.Some? && VAULT !in s.live && NothingStranded(s)
    requires Listing(names, s.backup.value.Keys) && k <= |names|
    ensures Recover(RolledBack(s, names[..k])) == Recover(s) && NothingStranded(RolledBack(s, names[..k]))
  {
    hide Listing, AtMost;
    var b := s.backup.value;
    var t := RolledBack(s, names[..k]);
    Overlay(s.live, b, names[..k]);
    if VAULT in t.live {
      forall n | n in b && n !in names[..k]
        ensures n in s.live && s.live[n] == b[n]
      {
        ListedNames(b, names);
        if AtMost(n, VAULT) {
          PrefixOfListing(names, k, n);
        }
      }
      assert t.live == s.live + b;
    }
  }

  /** If some file can be stranded, some crash of the recovery followed by a second run loses it. */
  lemma CleanupStrands(s: Dir) returns (t: Dir)
    requires !NothingStranded(s)
    ensures DuringCleanup(s, t) && Recover(t) != Recover(s)
  {
    hide Only, Without, Increasing;
    var b := s.backup.value;
    var n :| n in b && !AtMost(n, VAULT) && !(n in s.live && s.live[n] == b[n]);
    var names := ListingOf(b.Keys);
    ListedNames(b, names);
    var i := IndexIn(names, VAULT);
    var j := IndexIn(names, n);
    VaultFirst(names, i, j);
    t := RolledBack(s.(staging := None), names[..i + 1]);
    Stranded(s.(staging := None), names[..i + 1], n);
    assert RollingBack(s, t, names, i + 1);
  }

  lemma Stranded(s: Dir, moved: seq<string>, n: string)
    requires s.backup.Some? && VAULT !in s.live && VAULT in moved && VAULT in s.backup.value
    requires n !in moved && n in s.backup.value && !(n in s.live && s.live[n] == s.backup.value[n])
    ensures Recover(RolledBack(s, moved)) != Recover(s)
  {
    var t := RolledBack(s, moved);
    assert n in t.live ==> t.live[n] == s.live[n];
    assert Recover(s).live[n] == s.backup.value[n];
    assert Recover(t).live == t.live;
  }

  lemma VaultFirst(names: seq<string>, i: nat, j: nat)
    requires Increasing(names) && i < |names| && j < |names| && names[i] == VAULT && !AtMost(names[j], VAULT)
    ensures i < j
  {
  }

  lemma ListingOf(files: set<string>) returns (names: seq<string>)
    ensures Listing(names, files)
    decreases |files|
  {
    if files == {} {
      names := [];
    } else {
      var n :| n in files;
      var rest := ListingOf(files - {n});
      assert n !in Names(rest);
      var k := Position(rest, n);
      Inserted(rest, n, k);
      names := rest[..k] + [n] + rest[k..];
    }
  }

  /** Recovery can be interrupted anywhere without changing what it finally leaves, exactly when nothing is stranded. */
  lemma ReentrancyExact(s: Dir)
    ensures NothingStranded(s) <==> forall t | DuringCleanup(s, t) :: Recover(t) == Recover(s)
  {
    if NothingStranded(s) {
      forall t | DuringCleanup(s, t)
        ensures Recover(t) == Recover(s)
      {
        CleanupReentrant(s, t);
      }
    } else {
      var t := CleanupStrands(s);
    }
  }

  /** Any number of interrupted recoveries, one after the other. */
  ghost predicate InterruptedRecoveries(run: seq<Dir>) {
    |run| > 0 && forall i | 0 < i < |run| :: DuringCleanup(run[i - 1], run[i])
  }

  lemma {:induction false} RecoveriesAgree(run: seq<Dir>)
    requires InterruptedRecoveries(run) && NothingStranded(run[0])
    ensures Recover(run[|run| - 1]) == Recover(run[0]) && NothingStranded(run[|run| - 1])
  {
    if |run| > 1 {
      var m := |run| - 1;
      RecoveriesAgree(run[..m]);
      CleanupReentrant(run[m - 1], run[m]);
    }
  }

  /** A crash of CommitStaging strands nothing, but perhaps files of an older backup beside an empty directory. */
  lemma CrashStrandsNothing(d: Dir, oldNames: seq<string>, newNames: seq<string>, p: CrashPoint, s: Dir)
    requires Ready(d, oldNames, newNames) && AtPoint(d, oldNames, newNames, p, s)
    ensures NothingStranded(s) || (p.Clearing? && d.live == map[])
  {
    hide Listing, AtMost;
  }

  /** Crash safety for whole histories: one crash of CommitStaging, then any number of crashes of the recovery. */
  lemma HistorySafety(d: Dir, oldNames: seq<string>, newNames: seq<string>, p: CrashPoint, run: seq<Dir>)
    requires InterruptedRecoveries(run) && Ready(d, oldNames, newNames)
    requires AtPoint(d, oldNames, newNames, p, run[0])
    ensures var final := Recover(run[|run| - 1]);
            && (SwitchedOver(p, |newNames|) ==> final == Dir(d.staging.value, None, None))
            && (!SwitchedOver(p, |newNames|) ==> (Part(d.live, final.live) <==> !InWindow(p, |oldNames|)))
  {
    CrashStrandsNothing(d, oldNames, newNames, p, run[0]);
    if NothingStranded(run[0]) {
      RecoveriesAgree(run);
      CrashSafety(d, oldNames, newNames, p, run[0]);
    }
  }
}
