/**
 The file-system steps of internal/sync/transfer.go on one vault directory, with every intermediate state of the
 disk recorded, proved against the specification in module Transfer.
 */
module VaultDirectory {
  import opened Results
  import opened FileNames
  import opened Transfer

  /** How CommitStaging ends; every value but Committed is one of its error returns. */
  datatype Commit =
    | Committed
    | NoStaging
    | VaultNotListed
    | NoBackupDirectory
    | BackupFailed(k: nat)
    | StagingNotListed
    | CommitFailed(j: nat)

  /** What became of the rollback: not needed, not started, or done but for the files whose rename failed. */
  datatype Undo = NotNeeded | NotListed | Undone(failed: set<string>)

  /** s is a state that an interruption of CommitStaging on d can leave. */
  ghost predicate Stop(d: Dir, oldNames: seq<string>, newNames: seq<string>, s: Dir)
    requires d.staging.Some?
  {
    exists p :: AtPoint(d, oldNames, newNames, p, s)
  }

  lemma StopAt(d: Dir, oldNames: seq<string>, newNames: seq<string>, p: CrashPoint, s: Dir)
    requires d.staging.Some? && AtPoint(d, oldNames, newNames, p, s)
    ensures Stop(d, oldNames, newNames, s)
  {
  }

  lemma OnlySnoc(m: Files, names: seq<string>, k: nat)
    requires k < |names| && names[k] in m && names[k] !in names[..k]
    ensures Only(m, names[..k + 1]) == Only(m, names[..k])[names[k] := m[names[k]]]
    ensures Without(m, names[..k + 1]) == Without(m, names[..k]) - {names[k]}
    ensures names[k] in Without(m, names[..k])
  {
    assert names[..k + 1] == names[..k] + [names[k]];
  }

  lemma NextName(names: seq<string>, files: set<string>, k: nat)
    requires Listing(names, files) && k < |names|
    ensures names[k] in files && names[k] !in names[..k]
  {
    assert names[k] in Names(names);
    if i: nat :| i < k && names[..k][i] == names[k] {
      ListingDistinct(names, i, k);
    }
  }

  /** s with the named files moved back, except those whose rename failed. */
  function Kept(b: Files, moved: seq<string>, failed: set<string>): Files {
    map n | n in b && (n !in moved || n in failed) :: b[n]
  }

  lemma KeptStep(b: Files, names: seq<string>, k: nat, failed: set<string>)
    requires Listing(names, b.Keys) && k < |names| && failed <= Names(names[..k])
    ensures names[k] in b && names[k] in Kept(b, names[..k], failed) && Kept(b, names[..k], failed)[names[k]] == b[names[k]]
    ensures Kept(b, names[..k + 1], failed) == Kept(b, names[..k], failed) - {names[k]}
    ensures Kept(b, names[..k + 1], failed + {names[k]}) == Kept(b, names[..k], failed)
    ensures failed + {names[k]} <= Names(names[..k + 1]) && failed <= Names(names[..k + 1])
  {
    NextName(names, b.Keys, k);
    assert names[k] !in Names(names[..k]);
    assert names[..k + 1] == names[..k] + [names[k]];
  }

  /** The live files after moving back: all of base, and the moved files that did not fail. */
  function Merged(base: Files, b: Files, moved: seq<string>, failed: set<string>): Files {
    base + (Only(b, moved) - failed)
  }

  lemma MovedStep(b: Files, names: seq<string>, k: nat, failed: set<string>)
    requires Listing(names, b.Keys) && k < |names| && failed <= Names(names[..k])
    ensures names[k] in b
    ensures Only(b, names[..k + 1]) - failed == (Only(b, names[..k]) - failed)[names[k] := b[names[k]]]
    ensures Only(b, names[..k + 1]) - (failed + {names[k]}) == Only(b, names[..k]) - failed
  {
    NextName(names, b.Keys, k);
    assert names[k] !in Names(names[..k]);
    assert names[..k + 1] == names[..k] + [names[k]];
  }

  lemma MergedStep(base: Files, b: Files, names: seq<string>, k: nat, failed: set<string>)
    requires Listing(names, b.Keys) && k < |names| && failed <= Names(names[..k])
    ensures names[k] in b
    ensures Merged(base, b, names[..k + 1], failed) == Merged(base, b, names[..k], failed)[names[k] := b[names[k]]]
    ensures Merged(base, b, names[..k + 1], failed + {names[k]}) == Merged(base, b, names[..k], failed)
  {
    hide Only, Listing;
    MovedStep(b, names, k, failed);
  }

  lemma MergedEnds(base: Files, b: Files, names: seq<string>, failed: set<string>)
    requires Listing(names, b.Keys)
    ensures Merged(base, b, names, failed) == base + (b - failed)
    ensures Kept(b, [], {}) == b && Merged(base, b, [], {}) == base
    ensures Kept(b, names, {}) == map[]
  {
    ListedAll(b, names);
    assert Only(b, names) == b;
  }

  lemma ListedFailed(names: seq<string>, files: set<string>, failed: set<string>)
    requires Listing(names, files) && failed <= Names(names)
    ensures failed <= files
  {
  }

  lemma UndoState(s: Dir, moved: seq<string>)
    requires s.backup.Some?
    ensures Dir(Merged(s.live, s.backup.value, moved, {}), s.staging, Some(Kept(s.backup.value, moved, {})))
         == RolledBack(s, moved)
  {
    assert Only(s.backup.value, moved) - {} == Only(s.backup.value, moved);
    assert Kept(s.backup.value, moved, {}) == Without(s.backup.value, moved);
  }

  /** t is a state that an interruption of the rollback on s can leave, when none of its renames fails. */
  ghost predicate RollbackStop(s: Dir, names: seq<string>, t: Dir) {
    s.backup.Some? &&
    ( || (exists k: nat :: k <= |names| && t == RolledBack(s, names[..k]))
      || t == Dir(s.live + s.backup.value, s.staging, None))
  }

  class VaultDir {
    var live: Files
    var staging: Option<Files>
    var backup: Option<Files>
    /** Every state the disk has been in after a file-system step: where a crash may stop. */
    ghost var visited: set<Dir>

    ghost function Now(): Dir
      reads this
    {
      Dir(live, staging, backup)
    }

    constructor (d: Dir)
      ensures Now() == d && visited == {}
    {
      live, staging, backup, visited := d.live, d.staging, d.backup, {};
    }

    // ----- single steps -----

    /** os.Rename from the live directory into the backup. */
    method MoveToBackup(name: string) returns (ok: bool)
      requires backup.Some? && name in live
      modifies this
      ensures visited == old(visited) + {Now()} && staging == old(staging)
      ensures ok ==> live == old(live) - {name} && backup == Some(old(backup).value[name := old(live)[name]])
      ensures !ok ==> Now() == old(Now())
    {
      ok := *;
      if ok {
        backup := Some(backup.value[name := live[name]]);
        live := live - {name};
      }
      visited := visited + {Now()};
    }

    /** os.Rename from the staging directory into the live directory. */
    method MoveFromStaging(name: string) returns (ok: bool)
      requires staging.Some? && name in staging.value
      modifies this
      ensures visited == old(visited) + {Now()} && backup == old(backup)
      ensures ok ==> live == old(live)[name := old(staging).value[name]] && staging == Some(old(staging).value - {name})
      ensures !ok ==> Now() == old(Now())
    {
      ok := *;
      if ok {
        live := live[name := staging.value[name]];
        staging := Some(staging.value - {name});
      }
      visited := visited + {Now()};
    }

    /** os.Rename from the backup over the live file of the same name. */
    method MoveBack(name: string) returns (ok: bool)
      requires backup.Some? && name in backup.value
      modifies this
      ensures visited == old(visited) + {Now()} && staging == old(staging)
      ensures ok ==> live == old(live)[name := old(backup).value[name]] && backup == Some(old(backup).value - {name})
      ensures !ok ==> Now() == old(Now())
    {
      ok := *;
      if ok {
        live := live[name := backup.value[name]];
        backup := Some(backup.value - {name});
      }
      visited := visited + {Now()};
    }

    /** os.RemoveAll of the backup: one file at a time in no particular order, then the directory. */
    method RemoveBackup()
      modifies this
      ensures live == old(live) && staging == old(staging) && backup == None
      ensures old(visited) <= visited
      ensures forall t | t in visited && t !in old(visited) ::
                t.live == live && t.staging == staging && Remains(t.backup, old(backup))
    {
      if backup.Some? {
        while backup.value != map[]
          invariant backup.Some? && Part(backup.value, old(backup).value)
          invariant live == old(live) && staging == old(staging)
          invariant old(visited) <= visited
          invariant forall t | t in visited && t !in old(visited) ::
                      t.live == live && t.staging == staging && Remains(t.backup, old(backup))
          decreases |backup.value|
        {
          var n :| n in backup.value;
          backup := Some(backup.value - {n});
          visited := visited + {Now()};
        }
      }
      backup := None;
      visited := visited + {Now()};
    }

    /** os.RemoveAll of the staging directory. */
    method RemoveStaging()
      modifies this
      ensures live == old(live) && backup == old(backup) && staging == None
      ensures old(visited) <= visited
      ensures forall t | t in visited && t !in old(visited) ::
                t.live == live && t.backup == backup && Remains(t.staging, old(staging))
    {
      if staging.Some? {
        while staging.value != map[]
          invariant staging.Some? && Part(staging.value, old(staging).value)
          invariant live == old(live) && backup == old(backup)
          invariant old(visited) <= visited
          invariant forall t | t in visited && t !in old(visited) ::
                      t.live == live && t.backup == backup && Remains(t.staging, old(staging))
          decreases |staging.value|
        {
          var n :| n in staging.value;
          staging := Some(staging.value - {n});
          visited := visited + {Now()};
        }
      }
      staging := None;
      visited := visited + {Now()};
    }

    // ----- rollbackFromBackup -----

    method RollbackFromBackup() returns (ghost undo: Undo, ghost names: seq<string>)
      requires backup.Some?
      modifies this
      ensures !undo.NotNeeded? && staging == old(staging) && old(visited) <= visited
      ensures undo.NotListed? ==> Now() == old(Now()) && visited == old(visited)
      ensures undo.Undone? ==> live == old(live) + (old(backup).value - undo.failed) && backup == None
      ensures undo.Undone? ==> undo.failed <= old(backup).value.Keys
      ensures undo == Undone({}) ==> Listing(names, old(backup).value.Keys)
      ensures undo == Undone({}) ==>
                forall t | t in visited && t !in old(visited) :: RollbackStop(old(Now()), names, t)
    {
      hide Listing, Kept, Merged, Only, Without, RolledBack, RollbackStop;
      names := [];
      var readable := *;
      if !readable {
        return NotListed, names;
      }
      ghost var s, b := Now(), backup.value;
      ghost var failed: set<string> := {};
      var entries := ReadDir(backup.value.Keys);
      names := entries;
      MergedEnds(live, b, entries, {});
      for k := 0 to |entries|
        invariant backup == Some(Kept(b, entries[..k], failed)) && staging == s.staging
        invariant live == Merged(s.live, b, entries[..k], failed)
        invariant failed <= Names(entries[..k]) && old(visited) <= visited
        invariant failed == {} ==> forall t | t in visited && t !in old(visited) :: RollbackStop(s, entries, t)
      {
        KeptStep(b, entries, k, failed);
        MergedStep(s.live, b, entries, k, failed);
        var ok := MoveBack(entries[k]);
        if !ok {
          failed := failed + {entries[k]};
        } else if failed == {} {
          UndoState(s, entries[..k + 1]);
          RollbackStops(s, entries, k + 1);
        }
      }
      assert entries[..|entries|] == entries;
      MergedEnds(s.live, b, entries, failed);
      ListedFailed(entries, b.Keys, failed);
      RemoveBackup();
      undo := Undone(failed);
      if failed == {} {
        RollbackEnds(s, names);
        assert b - {} == b;
      }
    }

    // ----- CommitStaging -----

    /** The first loop of CommitStaging. */
    method BackUpLive(entries: seq<string>, ghost d: Dir, ghost newNames: seq<string>) returns (stopped: Option<nat>)
      requires d.staging.Some? && live == d.live && staging == d.staging && backup == Some(map[])
      requires Listing(entries, live.Keys)
      modifies this
      ensures staging == old(staging) && old(visited) <= visited
      ensures stopped.None? ==> live == map[] && backup == Some(d.live)
      ensures stopped.Some? ==> stopped.value < |entries| && live == Without(d.live, entries[..stopped.value])
      ensures stopped.Some? ==> backup == Some(Only(d.live, entries[..stopped.value]))
      ensures forall t | t in visited && t !in old(visited) :: Stop(d, entries, newNames, t)
    {
      hide Listing, Only, Without, Stop;
      WholeAgain(live, entries);
      for k := 0 to |entries|
        invariant live == Without(d.live, entries[..k]) && backup == Some(Only(d.live, entries[..k]))
        invariant staging == d.staging && old(visited) <= visited
        invariant forall t | t in visited && t !in old(visited) :: Stop(d, entries, newNames, t)
      {
        NextName(entries, d.live.Keys, k);
        OnlySnoc(d.live, entries, k);
        WithoutAt(d.live, entries, k);
        var ok := MoveToBackup(entries[k]);
        if !ok {
          StopAt(d, entries, newNames, BackingUp(k), Now());
          return Some(k);
        }
        StopAt(d, entries, newNames, BackingUp(k + 1), Now());
      }
      assert entries[..|entries|] == entries;
      ListedAll(d.live, entries);
      return None;
    }

    /** The second loop of CommitStaging. */
    method CommitStaged(entries: seq<string>, ghost d: Dir, ghost oldNames: seq<string>) returns (stopped: Option<nat>)
      requires d.staging.Some? && live == map[] && staging == d.staging && backup == Some(d.live)
      requires Listing(entries, staging.value.Keys)
      modifies this
      ensures backup == old(backup) && old(visited) <= visited
      ensures stopped.None? ==> live == d.staging.value && staging == Some(map[])
      ensures stopped.Some? ==> stopped.value < |entries| && live == Only(d.staging.value, entries[..stopped.value])
      ensures stopped.Some? ==> staging == Some(Without(d.staging.value, entries[..stopped.value]))
      ensures forall t | t in visited && t !in old(visited) :: Stop(d, oldNames, entries, t)
    {
      hide Listing, Only, Without, Stop;
      ghost var staged := d.staging.value;
      WholeAgain(staged, entries);
      for j := 0 to |entries|
        invariant live == Only(staged, entries[..j]) && staging == Some(Without(staged, entries[..j]))
        invariant backup == Some(d.live) && old(visited) <= visited
        invariant forall t | t in visited && t !in old(visited) :: Stop(d, oldNames, entries, t)
      {
        NextName(entries, staged.Keys, j);
        OnlySnoc(staged, entries, j);
        WithoutAt(staged, entries, j);
        var ok := MoveFromStaging(entries[j]);
        if !ok {
          StopAt(d, oldNames, entries, Committing(j), Now());
          return Some(j);
        }
        StopAt(d, oldNames, entries, Committing(j + 1), Now());
      }
      assert entries[..|entries|] == entries;
      ListedAll(staged, entries);
      return None;
    }

    /** The rollback after a failure in the first loop. */
    method UndoBackup(ghost d: Dir, ghost oldNames: seq<string>, ghost newNames: seq<string>, ghost k: nat)
      returns (ghost undo: Undo)
      requires d.staging.Some? && Listing(oldNames, d.live.Keys) && k < |oldNames|
      requires Now() == Dir(Without(d.live, oldNames[..k]), d.staging, Some(Only(d.live, oldNames[..k])))
      modifies this
      ensures !undo.NotNeeded? && old(visited) <= visited
      ensures undo.NotListed? ==> Now() == old(Now()) && visited == old(visited)
      ensures undo.Undone? ==> Now() == Dir(d.live - undo.failed, d.staging, None)
      ensures undo == Undone({}) ==>
                forall t | t in visited && t !in old(visited) :: Stop(d, oldNames, newNames, t)
    {
      hide Listing, Only, Without, Stop, RollbackStop;
      ghost var s := Now();
      ghost var names;
      undo, names := RollbackFromBackup();
      if undo.Undone? {
        WholeBut(d.live, oldNames[..k], undo.failed);
      }
      if undo == Undone({}) {
        forall t | t in visited && t !in old(visited)
          ensures Stop(d, oldNames, newNames, t)
        {
          UndoBackupStops(d, oldNames, newNames, k, s, names, t);
        }
      }
    }

    /** The rollback after a failure in the second loop, or before it. */
    method UndoCommit(ghost d: Dir, ghost oldNames: seq<string>, ghost newNames: seq<string>, ghost j: nat)
      returns (ghost undo: Undo)
      requires d.staging.Some? && Listing(oldNames, d.live.Keys) && (j < |newNames| || j == 0)
      requires Now() == Dir(Only(d.staging.value, newNames[..j]), Some(Without(d.staging.value, newNames[..j])), Some(d.live))
      modifies this
      ensures !undo.NotNeeded? && old(visited) <= visited
      ensures undo.NotListed? ==> Now() == old(Now()) && visited == old(visited)
      ensures undo.Undone? ==>
                Now() == Dir(Only(d.staging.value, newNames[..j]) + (d.live - undo.failed), old(staging), None)
      ensures undo == Undone({}) ==>
                forall t | t in visited && t !in old(visited) :: Stop(d, oldNames, newNames, t)
    {
      hide Listing, Only, Without, Stop, RollbackStop;
      ghost var s := Now();
      ghost var names;
      undo, names := RollbackFromBackup();
      if undo == Undone({}) {
        forall t | t in visited && t !in old(visited)
          ensures Stop(d, oldNames, newNames, t)
        {
          UndoCommitStops(d, oldNames, newNames, j, s, names, t);
        }
      }
    }

    /** The steps of CommitStaging before its loops; on success the backup is there and empty. */
    method StartBackup(ghost d: Dir, ghost oldNames: seq<string>, ghost newNames: seq<string>)
      returns (failure: Option<Commit>, entries: seq<string>)
      requires d == Now() && d.staging.Some? && Listing(oldNames, live.Keys)
      modifies this
      ensures live == d.live && staging == d.staging && old(visited) <= visited
      ensures failure.Some? ==> (failure.value.VaultNotListed? || failure.value.NoBackupDirectory?) && backup == None
      ensures failure.None? ==> entries == oldNames && backup == Some(map[])
      ensures forall t | t in visited && t !in old(visited) :: Stop(d, oldNames, newNames, t)
    {
      hide Listing, Stop;
      RemoveBackup();
      forall t | t in visited && t !in old(visited)
        ensures Stop(d, oldNames, newNames, t)
      {
        StopAt(d, oldNames, newNames, Clearing, t);
      }
      entries := [];
      var readable, made := *, *;
      if !readable {
        return Some(VaultNotListed), entries;
      }
      entries := ReadDir(live.Keys);
      SameListing(entries, oldNames, live.Keys);
      if !made {
        return Some(NoBackupDirectory), entries;
      }
      backup := Some(map[]);
      visited := visited + {Now()};
      WholeAgain(live, oldNames);
      assert oldNames[..0] == [];
      StopAt(d, oldNames, newNames, BackingUp(0), Now());
      return None, entries;
    }

    /** The last steps of CommitStaging. */
    method RemoveHelpers(ghost d: Dir, ghost oldNames: seq<string>, ghost newNames: seq<string>)
      requires d.staging.Some? && Now() == Dir(d.staging.value, Some(map[]), Some(d.live))
      modifies this
      ensures Now() == Dir(d.staging.value, None, None) && old(visited) <= visited
      ensures forall t | t in visited && t !in old(visited) :: Stop(d, oldNames, newNames, t)
    {
      hide Stop;
      RemoveStaging();
      RemoveBackup();
      forall t | t in visited && t !in old(visited)
        ensures Stop(d, oldNames, newNames, t)
      {
        StopAt(d, oldNames, newNames, Finishing, t);
      }
    }

    /**
     Replaces the live files with the staged ones. After a failing rename the rollback leaves every live file as
     before, but for those whose own rename back failed, and the staged files already moved in under other names.
     */
    method CommitStaging()
      returns (r: Commit, ghost undo: Undo, ghost oldNames: seq<string>, ghost newNames: seq<string>)
      modifies this
      ensures old(visited) <= visited
      ensures r.NoStaging? <==> old(staging).None?
      ensures r.NoStaging? ==> Now() == old(Now()) && visited == old(visited)
      ensures r.VaultNotListed? || r.NoBackupDirectory? ==> Now() == Dir(old(live), old(staging), None)
      ensures r.Committed? ==> Now() == Dir(old(staging).value, None, None)
      ensures r.BackupFailed? && undo.Undone? ==> Now() == Dir(old(live) - undo.failed, old(staging), None)
      ensures r.StagingNotListed? && undo.Undone? ==> Now() == Dir(old(live) - undo.failed, old(staging), None)
      ensures r.CommitFailed? ==> r.j < |newNames|
      ensures r.CommitFailed? && undo.Undone? ==>
                Now() == Dir(Only(old(staging).value, newNames[..r.j]) + (old(live) - undo.failed),
                             Some(Without(old(staging).value, newNames[..r.j])), None)
      ensures r.BackupFailed? ==> r.k < |oldNames|
      ensures r.BackupFailed? && undo.NotListed? ==>
                Now() == Dir(Without(old(live), oldNames[..r.k]), old(staging), Some(Only(old(live), oldNames[..r.k])))
      ensures r.StagingNotListed? && undo.NotListed? ==> Now() == Dir(map[], old(staging), Some(old(live)))
      ensures r.CommitFailed? && undo.NotListed? ==>
                Now() == Dir(Only(old(staging).value, newNames[..r.j]), Some(Without(old(staging).value, newNames[..r.j])),
                             Some(old(live)))
      ensures undo.NotNeeded? <==> r.NoStaging? || r.VaultNotListed? || r.NoBackupDirectory? || r.Committed?
      ensures old(staging).Some? ==>
                Listing(oldNames, old(live).Keys) && Listing(newNames, old(staging).value.Keys)
      ensures old(staging).Some? && (undo.NotNeeded? || undo.NotListed? || undo == Undone({})) ==>
                forall t | t in visited && t !in old(visited) :: Stop(old(Now()), oldNames, newNames, t)
    {
      hide Listing, Only, Without, Stop;
      ghost var d := Now();
      oldNames, newNames, undo := [], [], NotNeeded;
      if staging.None? {
        return NoStaging, undo, oldNames, newNames;
      }
      oldNames := ListingOf(live.Keys);
      newNames := ListingOf(staging.value.Keys);
      var failure, entries := StartBackup(d, oldNames, newNames);
      if failure.Some? {
        return failure.value, undo, oldNames, newNames;
      }
      var stopped := BackUpLive(entries, d, newNames);
      if stopped.Some? {
        undo := UndoBackup(d, oldNames, newNames, stopped.value);
        return BackupFailed(stopped.value), undo, oldNames, newNames;
      }
      assert newNames[..0] == [];
      WholeAgain(d.staging.value, newNames);
      var readable := *;
      if !readable {
        undo := UndoCommit(d, oldNames, newNames, 0);
        if undo.Undone? {
          assert map[] + (d.live - undo.failed) == d.live - undo.failed;
        }
        return StagingNotListed, undo, oldNames, newNames;
      }
      var stagingEntries := ReadDir(staging.value.Keys);
      SameListing(stagingEntries, newNames, staging.value.Keys);
      stopped := CommitStaged(stagingEntries, d, oldNames);
      if stopped.Some? {
        undo := UndoCommit(d, oldNames, newNames, stopped.value);
        return CommitFailed(stopped.value), undo, oldNames, newNames;
      }
      RemoveHelpers(d, oldNames, newNames);
      return Committed, undo, oldNames, newNames;
    }

    // ----- PrepareStaging and CleanupOrphanedSync -----

    method PrepareStaging()
      modifies this
      ensures Now() == Dir(old(live), Some(map[]), old(backup))
      ensures old(visited) <= visited
      ensures forall t | t in visited && t !in old(visited) ::
                && t.live == old(live) && t.backup == old(backup)
                && (Remains(t.staging, old(staging)) || t.staging == Some(map[]))
    {
      RemoveStaging();
      staging := Some(map[]);
      visited := visited + {Now()};
    }

    /**
     Start-up recovery; `undo` tells about the rollback's own renames. A backup that cannot be listed stays; a backup file
     whose rename fails is removed with the backup.
     */
    method CleanupOrphanedSync() returns (ghost undo: Undo)
      modifies this
      ensures undo.NotNeeded? <==> old(backup).None? || VAULT in old(live)
      ensures undo.NotNeeded? || undo == Undone({}) ==> Now() == Recover(old(Now()))
      ensures undo.NotListed? ==> Now() == Dir(old(live), None, old(backup))
      ensures undo.Undone? ==>
                && undo.failed <= old(backup).value.Keys
                && Now() == Dir(old(live) + (old(backup).value - undo.failed), None, None)
      ensures old(visited) <= visited
      ensures undo.NotNeeded? || undo.NotListed? || undo == Undone({}) ==>
                forall t | t in visited && t !in old(visited) :: DuringCleanup(old(Now()), t)
    {
      hide Listing, RollbackStop;
      ghost var s := Now();
      undo := NotNeeded;
      if staging.Some? {
        RemoveStaging();
      }
      if backup.Some? {
        if VAULT in live {
          RemoveBackup();
        } else {
          ghost var mid := visited;
          ghost var names;
          undo, names := RollbackFromBackup();
          if undo == Undone({}) {
            assert s.backup.value - {} == s.backup.value;
            forall t | t in visited && t !in mid
              ensures DuringCleanup(s, t)
            {
              CleanupStops(s, names, t);
            }
          }
        }
      }
    }
  }

  lemma CleanupStops(s: Dir, names: seq<string>, t: Dir)
    requires s.backup.Some? && VAULT !in s.live && Listing(names, s.backup.value.Keys)
    requires RollbackStop(s.(staging := None), names, t)
    ensures DuringCleanup(s, t)
  {
    var u := s.(staging := None);
    if k: nat :| k <= |names| && t == RolledBack(u, names[..k]) {
      assert RollingBack(s, t, names, k);
    }
  }

  lemma SameListing(a: seq<string>, b: seq<string>, files: set<string>)
    requires Listing(a, files) && Listing(b, files)
    ensures a == b
  {
    ListingUnique(a, b);
  }

  lemma WholeBut(m: Files, names: seq<string>, failed: set<string>)
    requires failed <= Only(m, names).Keys
    ensures Without(m, names) + (Only(m, names) - failed) == m - failed
  {
  }

  lemma WithoutAt(m: Files, names: seq<string>, k: nat)
    requires k < |names| && names[k] in m && names[k] !in names[..k]
    ensures names[k] in Without(m, names[..k]) && Without(m, names[..k])[names[k]] == m[names[k]]
  {
  }

  // ----- the states of a rollback inside CommitStaging -----

  lemma PrefixListing(m: Files, names: seq<string>, k: nat)
    requires Listing(names, m.Keys) && k <= |names|
    ensures Listing(names[..k], Only(m, names[..k]).Keys)
  {
    assert forall n | n in names[..k] :: n in Names(names);
  }

  lemma Apart(names: seq<string>, i: nat, k: nat)
    requires Increasing(names) && i <= k <= |names|
    ensures forall n :: n in names[..k] <==> n in names[..i] || n in names[i..k]
    ensures forall n :: !(n in names[..i] && n in names[i..k])
  {
    assert names[..k] == names[..i] + names[i..k];
    forall n | n in names[..i]
      ensures n !in names[i..k]
    {
      var a :| 0 <= a < i && names[a] == n;
      if b: nat :| i <= b < k && names[b] == n {
        ListingDistinct(names, a, b);
      }
    }
  }

  lemma MovedBack(m: Files, all: seq<string>, first: seq<string>, rest: seq<string>)
    requires forall n :: n in all <==> n in first || n in rest
    requires forall n :: !(n in first && n in rest)
    ensures Without(m, all) + Only(Only(m, all), first) == Without(m, rest)
    ensures Without(Only(m, all), first) == Only(m, rest)
  {
  }

  lemma UndoBackupStops(d: Dir, oldNames: seq<string>, newNames: seq<string>, k: nat, s: Dir, names: seq<string>, t: Dir)
    requires d.staging.Some? && Listing(oldNames, d.live.Keys) && k < |oldNames|
    requires s == Dir(Without(d.live, oldNames[..k]), d.staging, Some(Only(d.live, oldNames[..k])))
    requires Listing(names, s.backup.value.Keys) && RollbackStop(s, names, t)
    ensures Stop(d, oldNames, newNames, t)
  {
    hide Only, Without, Increasing, Names, Stop;
    PrefixListing(d.live, oldNames, k);
    ListingUnique(names, oldNames[..k]);
    if i: nat :| i <= |names| && t == RolledBack(s, names[..i]) {
      assert oldNames[..k][..i] == oldNames[..i];
      Apart(oldNames, i, k);
      MovedBack(d.live, oldNames[..k], oldNames[..i], oldNames[i..k]);
      StopAt(d, oldNames, newNames, UndoingBackup(k, i), t);
    } else {
      WholeAgain(d.live, oldNames[..k]);
      StopAt(d, oldNames, newNames, UndoneBackup, t);
    }
  }

  lemma WholeAgain(m: Files, names: seq<string>)
    ensures Without(m, names) + Only(m, names) == m
    ensures Only(m, []) == map[] && Without(m, []) == m
  {
  }

  lemma UndoCommitStops(d: Dir, oldNames: seq<string>, newNames: seq<string>, j: nat, s: Dir, names: seq<string>, t: Dir)
    requires d.staging.Some? && Listing(oldNames, d.live.Keys) && (j < |newNames| || j == 0)
    requires s == Dir(Only(d.staging.value, newNames[..j]), Some(Without(d.staging.value, newNames[..j])), Some(d.live))
    requires Listing(names, d.live.Keys) && RollbackStop(s, names, t)
    ensures Stop(d, oldNames, newNames, t)
  {
    ListingUnique(names, oldNames);
    ListedAll(d.live, oldNames);
    hide Only, Without, Listing, Stop;
    if i: nat :| i <= |names| && t == RolledBack(s, names[..i]) {
      StopAt(d, oldNames, newNames, UndoingCommit(j, i), t);
    } else {
      StopAt(d, oldNames, newNames, UndoneCommit(j), t);
    }
  }

  lemma RollbackStops(s: Dir, names: seq<string>, k: nat)
    requires s.backup.Some? && k <= |names|
    ensures RollbackStop(s, names, RolledBack(s, names[..k]))
  {
  }

  lemma RollbackEnds(s: Dir, names: seq<string>)
    requires s.backup.Some? && Listing(names, s.backup.value.Keys)
    ensures forall t: Dir | t.live == s.live + s.backup.value && t.staging == s.staging && Remains(t.backup, Some(map[])) ::
              RollbackStop(s, names, t)
  {
    hide Listing;
    ListedAll(s.backup.value, names);
    assert names[..|names|] == names;
    RollbackStops(s, names, |names|);
    assert forall t: Dir | Remains(t.backup, Some(map[])) && t.backup.Some? :: t.backup.value == map[];
  }
}
