/**
 Which backups a series of password changes leaves (internal/usm/storage_os.go:276-284 and 323-327): a backup is called
 after the catalogue version at the time of the change, and a change removes only the backup of the version before.
 */
module Backups {
  import opened Results
  import opened Entries
  import opened Rekey
  import opened FileNames
  import opened Vaults
  import C = CatalogueStore

  /**
   A successful change: the catalogue version it finds, what the edits since the change before have made of the active
   directory, and the active directory it leaves.
   */
  datatype Change = Change(version: nat, working: Folder, made: Folder)

  function AfterChanges(before: map<string, Folder>, name: string, changes: seq<Change>): (r: map<string, Folder>)
    requires name in before
    ensures name in r
  {
    if changes == [] then before
    else
      var last := changes[|changes| - 1];
      ActiveStays(AfterChanges(before, name, changes[..|changes| - 1])[name := last.working], name, last.version, last.made);
      AfterChange(AfterChanges(before, name, changes[..|changes| - 1])[name := last.working], name, last.version, last.made)
  }

  lemma ActiveStays(before: map<string, Folder>, name: string, n: nat, made: Folder)
    requires name in before
    ensures Get(AfterChange(before, name, n, made), name) == Some(made)
  {
    if n > 1 {
      BackupKept(name, n - 1, n);
    }
  }

  /** The catalogue version rises from each change to the next; a change that finds it unchanged fails (NotMoved). */
  predicate Rising(changes: seq<Change>) {
    forall i, j | 0 <= i < j < |changes| :: 0 < changes[i].version < changes[j].version
  }

  /** What one change does to the backup of version n. */
  lemma BackupAfter(before: map<string, Folder>, name: string, version: nat, made: Folder, n: nat)
    requires name in before
    ensures Get(AfterChange(before, name, version, made), BackupName(name, n))
         == if n == version then Some(before[name])
            else if n > 0 && n + 1 == version then None
            else Get(before, BackupName(name, n))
  {
    hide BackupName;
    BackupKept(name, n, version);
    if version > 1 {
      BackupKept(name, version - 1, n);
      BackupKept(name, version - 1, version);
    }
  }

  /**
   Over any series of changes with any edits in between, a change's backup is still there at the end if and only if no
   change follows or the next one finds a version more than one higher. It then holds what the change found.
   */
  lemma {:induction false} BackupsLeft(before: map<string, Folder>, name: string, changes: seq<Change>, j: nat)
    requires name in before && Rising(changes) && j < |changes|
    ensures Get(AfterChanges(before, name, changes), BackupName(name, changes[j].version))
         == if j + 1 < |changes| && changes[j + 1].version == changes[j].version + 1 then None
            else Some(changes[j].working)
  {
    hide AfterChange, BackupName;
    var m := |changes| - 1;
    var n, last := changes[j].version, changes[m];
    var found := AfterChanges(before, name, changes[..m])[name := last.working];
    BackupKept(name, n, n);
    BackupAfter(found, name, last.version, last.made, n);
    if j < m {
      BackupsLeft(before, name, changes[..m], j);
      assert n < last.version && (j + 1 < m ==> changes[j + 1].version < last.version);
    }
  }

  /** A backup from before the series is removed by the change that finds the version after it, or else stays. */
  lemma {:induction false} OlderLeft(before: map<string, Folder>, name: string, changes: seq<Change>, n: nat)
    requires name in before && n > 0 && forall j | 0 <= j < |changes| :: changes[j].version != n
    ensures Get(AfterChanges(before, name, changes), BackupName(name, n))
         == if exists j :: 0 <= j < |changes| && changes[j].version == n + 1 then None else Get(before, BackupName(name, n))
  {
    hide AfterChange, BackupName;
    if changes != [] {
      var m := |changes| - 1;
      var last := changes[m];
      OlderLeft(before, name, changes[..m], n);
      BackupKept(name, n, n);
      BackupAfter(AfterChanges(before, name, changes[..m])[name := last.working], name, last.version, last.made, n);
      assert forall j | 0 <= j < m :: changes[..m][j] == changes[j];
      if j :| 0 <= j < |changes| && changes[j].version == n + 1 && j < m {
        assert changes[..m][j].version == n + 1;
      }
    }
  }

  // ----- the versions of two successive changes -----

  /** A change at a time later than everything recorded for the vault raises the version by one. */
  lemma VersionRises(c: Catalogue, v: C.Vault, root: string, now: Time)
    requires v.name in c && v.modified == now && now > ZERO_TIME && now > C.Recency(Some(c[v.name]))
    ensures v.name in C.Persisted(c, v, root, now, None)
    ensures C.Persisted(c, v, root, now, None)[v.name].version == c[v.name].version + 1
  {
    hide C.Persisted;
    C.PersistKeepsVersions(c, C.Persist(v, now, None), root);
  }

  /** Event number k is the store at the end of a successful change of the vault's password. */
  ghost predicate ChangeAt(history: seq<Catalogue>, events: seq<C.Event>, root: string, name: string, k: nat) {
    && C.Run(history, events, root) && k < |events| && events[k].Persist? && events[k].at.None?
    && events[k].v.name == name && events[k].v.modified == events[k].now
    && name in history[k] && history[k][name].version > 0
    && events[k].now > ZERO_TIME && events[k].now > C.Recency(Some(history[k][name]))
  }

  /**
   Two successive changes of a vault's password: the second removes the backup of the first, which opens with the older
   password, if and only if no store between them changes the vault's modification stamp.
   */
  lemma RemovedByNext(before: map<string, Folder>, history: seq<Catalogue>, events: seq<C.Event>, root: string,
                      name: string, k: nat, first: Change, second: Change)
    requires name in before && ChangeAt(history, events, root, name, k)
    requires first.version == history[k][name].version
    requires name in history[|events|] && second.version == history[|events|][name].version
    ensures BackupName(name, first.version) !in AfterChanges(before, name, [first, second]) <==>
              C.ChangesFrom(history, events, k + 1, name) == 0
  {
    hide AfterChange, BackupName, C.Run, C.Recency, C.Changes;
    var changes := [first, second];
    ChangeCounts(history, events, root, name, k);
    BackupsLeft(before, name, changes, 0);
  }

  lemma ChangeCounts(history: seq<Catalogue>, events: seq<C.Event>, root: string, name: string, k: nat)
    requires ChangeAt(history, events, root, name, k)
    ensures |history| == |events| + 1 && name in history[|events|]
    ensures history[|events|][name].version == history[k][name].version + 1 + C.ChangesFrom(history, events, k + 1, name)
  {
    hide C.Run, C.Recency;
    C.RunLength(history, events, root);
    C.VersionStep(history, events, root, k, name);
    C.VersionCounts(history, events, root, k + 1, name);
    ChangeChanges(history[k], events[k], name);
  }

  lemma ChangeChanges(c: Catalogue, e: C.Event, name: string)
    requires e.Persist? && e.v.name == name && name in c && e.v.modified > C.Recency(Some(c[name]))
    ensures C.Changes(c, e, name)
  {
  }

  // ----- the calls themselves -----

  const NO_FAULTS := Faults({}, false, false, {}, false, false, false, false)

  /** A store at a time later than everything recorded for the vault leaves the refreshed entry. */
  lemma LaterStored(c: Catalogue, v: C.Vault, root: string, now: Time)
    requires v.modified == now && now > ZERO_TIME && (v.name in c ==> now > C.Recency(Some(c[v.name])))
    ensures var d := C.Persisted(c, v, root, now, None);
            && v.name in d && d[v.name] == C.Refreshed(Get(c, v.name), v, root, now)
            && d[v.name].modified == now && d[v.name].itemCount == v.size && d[v.name].fingerprint == v.fingerprint
            && (v.name in c ==> d[v.name].created == c[v.name].created)
            && (v.name !in c && v.created != ZERO_TIME ==> d[v.name].created == v.created)
            && (v.name in c ==> C.Recency(Some(d[v.name])) == now)
            && forall n | n != v.name :: Get(d, n) == Get(c, n)
  {
  }

  /** What of a vault's directory and its index a change asks for: every item can be opened and yields its own ID. */
  ghost predicate Kept(s: OSStorage, vault: Vault)
    reads s, vault
  {
    && vault.ident == s.ident && Digests(s.ident) && vault.name in s.folders
    && WellKept(s.ident, s.folders[vault.name], vault.key, vault.Contents())
  }

  /** An ID leads to an item in the one directory exactly if it leads to that item in the other. */
  ghost predicate SameItems(ident: Ident, f: Folder, k: nat, c: Table, g: Folder, l: nat, d: Table) {
    forall id, item :: Holds(ident, f, k, c, id, item) <==> Holds(ident, g, l, d, id, item)
  }

  lemma SameItemsTwice(ident: Ident, f: Folder, k: nat, c: Table, g: Folder, l: nat, d: Table, h: Folder, m: nat, e: Table)
    requires SameItems(ident, f, k, c, g, l, d) && SameItems(ident, g, l, d, h, m, e)
    ensures SameItems(ident, f, k, c, h, m, e)
  {
    hide Holds;
    forall id, item: Item
      ensures Holds(ident, f, k, c, id, item) <==> Holds(ident, h, m, e, id, item)
    {
      assert Holds(ident, f, k, c, id, item) <==> Holds(ident, g, l, d, id, item);
    }
  }

  /** The vault file holds the old vault's name, colour, version and creation, the new index and the time of the change. */
  predicate VaultFile(made: Folder, vault: Vault, newKey: nat, contents: Table, now: Time)
    reads vault
  {
    && VAULT in made && made[VAULT].Sealed? && made[VAULT].key == newKey
    && var b := made[VAULT].body;
       && b.VaultBody? && b.name == vault.name && b.contents == contents && b.colour == vault.colour
       && b.version == vault.version && b.created == vault.created && b.modified == now
  }

  /** The stored entry of the vault, with a version, and a time later than everything recorded in it. */
  predicate Dated(s: OSStorage, name: string, now: Time)
    reads s
  {
    && s.stateFile.Saved? && name in s.stateFile.catalogue && s.stateFile.catalogue[name].version > 0
    && now > ZERO_TIME && now > C.Recency(Some(s.stateFile.catalogue[name]))
  }

  lemma KeptLoadable(ident: Ident, folder: Folder, key: nat, contents: Table)
    requires WellKept(ident, folder, key, contents)
    ensures AllLoadable(ident, folder, key, {}, contents)
  {
    hide CanLoad;
  }

  lemma KeptStorable(ident: Ident, folder: Folder, key: nat, contents: Table, items: seq<Item>)
    requires ItemsOf(ident, folder, contents, items) && WellKept(ident, folder, key, contents)
    ensures Storable(ident, items, {}) && Described(items)
  {
    hide ItemsOf, MetadataId, ItemFile, Known;
    forall i | 0 <= i < |items|
      ensures items[i].metadata.Some?
    {
      OldFile(ident, folder, key, contents, items, i);
    }
  }

  /**
   Without a fault a change succeeds, whenever the stored catalogue has version n and no directory has the name of backup
   n: the old directory is then backup n and backup n - 1 is gone, the catalogue gains exactly the event of a change, and
   the vault is conserved.
   */
  method ChangeOnce(s: OSStorage, vault: Vault, oldPassword: string, newPassword: string, newKey: nat, now: Time)
      returns (made: Vault, ghost change: Change)
    requires Kept(s, vault) && Dated(s, vault.name, now) && s.OpensWith(vault.name, oldPassword)
    requires vault.name != "" && newPassword != "" && oldPassword != newPassword
    requires BackupName(vault.name, s.stateFile.catalogue[vault.name].version) !in s.folders
    modifies s
    ensures made.name == vault.name && Kept(s, made) && s.OpensWith(vault.name, newPassword)
    ensures change == Change(old(s.stateFile).catalogue[vault.name].version, old(s.folders)[vault.name], s.folders[vault.name])
    ensures s.folders == AfterChange(old(s.folders), vault.name, change.version, change.made)
    ensures Get(s.folders, BackupName(vault.name, change.version)) == Some(old(s.folders)[vault.name])
    ensures change.version > 1 ==> BackupName(vault.name, change.version - 1) !in s.folders
    ensures s.stateFile.Saved?
    ensures ChangeAt([old(s.stateFile).catalogue, s.stateFile.catalogue], [C.Persist(s.Summary(made), now, None)], s.root,
                     vault.name, 0)
    ensures vault.name in s.stateFile.catalogue && s.stateFile.catalogue[vault.name].version == change.version + 1
    ensures s.stateFile.catalogue[vault.name].modified == now && C.Recency(Some(s.stateFile.catalogue[vault.name])) == now
    ensures s.stateFile.catalogue[vault.name].created == old(s.stateFile).catalogue[vault.name].created
    ensures s.stateFile.catalogue[vault.name].itemCount == |made.Contents()|
    ensures s.stateFile.catalogue[vault.name].fingerprint == s.fingerprint(newKey)
    ensures made.key == newKey && VaultFile(change.made, vault, newKey, made.Contents(), now)
    ensures SameItems(s.ident, old(s.folders)[vault.name], vault.key, vault.Contents(),
                      s.folders[vault.name], made.key, made.Contents())
  {
    hide WellKept, AllLoadable, Digests, Storable, ItemsOf, Rekeyed, Indexed, C.Persisted, C.Recency, BackupName, AfterChange,
      Holds, C.Run, Described;
    ghost var name, before, c := vault.name, s.folders, s.stateFile.catalogue;
    ghost var folder, contents := s.folders[vault.name], vault.Contents();
    KeptLoadable(s.ident, folder, vault.key, contents);
    var r, items := s.ChangeVaultPassword(vault, oldPassword, newPassword, newKey, now, NO_FAULTS);
    KeptStorable(s.ident, folder, vault.key, contents, items);
    made := r.value;
    ghost var body := s.VaultText(made);
    ActiveStays(before, name, c[name].version, Rekeyed(s.ident, newKey, newPassword, items, body));
    change := Change(c[name].version, folder, s.folders[name]);
    BackupAfter(before, name, change.version, change.made, change.version);
    if change.version > 1 {
      BackupAfter(before, name, change.version, change.made, change.version - 1);
    }
    KeptAgain(s.ident, folder, vault.key, contents, items, newKey, newPassword, body);
    forall id, item: Item
      ensures Holds(s.ident, folder, vault.key, contents, id, item) <==>
              Holds(s.ident, s.folders[name], newKey, made.Contents(), id, item)
    {
      Conserved(s.ident, folder, vault.key, contents, items, newKey, newPassword, body, id, item);
    }
    OneChange(c, s.Summary(made), s.root, now);
  }

  /**
   Two changes in a row, without a fault, both succeed: afterwards the backup of the first is gone, that of the second
   holds what the first one made, and the vault is conserved under the third password.
   */
  method ChangeTwice(s: OSStorage, vault: Vault, p0: string, p1: string, p2: string, key1: nat, key2: nat, t1: Time, t2: Time)
      returns (made: Vault, ghost between: Folder)
    requires Kept(s, vault) && Dated(s, vault.name, t1) && t1 < t2 && s.OpensWith(vault.name, p0)
    requires vault.name != "" && p1 != "" && p2 != "" && p0 != p1 && p1 != p2
    requires BackupName(vault.name, s.stateFile.catalogue[vault.name].version) !in s.folders
    requires BackupName(vault.name, s.stateFile.catalogue[vault.name].version + 1) !in s.folders
    modifies s
    ensures made.name == vault.name && Kept(s, made) && s.OpensWith(vault.name, p2)
    ensures var n := old(s.stateFile).catalogue[vault.name].version;
            && BackupName(vault.name, n) !in s.folders
            && Get(s.folders, BackupName(vault.name, n + 1)) == Some(between)
            && KEY in between && between[KEY].KeyFile? && between[KEY].password == p1
            && Dated(s, vault.name, t2 + 1) && s.stateFile.catalogue[vault.name].version == n + 2
    ensures SameItems(s.ident, old(s.folders)[vault.name], vault.key, vault.Contents(),
                      s.folders[vault.name], made.key, made.Contents())
  {
    hide WellKept, Digests, BackupName, Holds, C.Recency, ChangeAt, AfterChange, Kept, SameItems, VaultFile, Flat, Vault.Contents,
      OSStorage.Summary;
    ghost var before, contents := s.folders, vault.Contents();
    var first, c1 := ChangeOnce(s, vault, p0, p1, key1, t1);
    between := s.folders[vault.name];
    BackupAfter(before, vault.name, c1.version, c1.made, c1.version + 1);
    ghost var index := first.Contents();
    made, c1 := ChangeOnce(s, first, p1, p2, key2, t2);
    SameItemsTwice(s.ident, before[vault.name], vault.key, contents, between, first.key, index,
                   s.folders[vault.name], made.key, made.Contents());
  }

  lemma OneChange(c: Catalogue, v: C.Vault, root: string, now: Time)
    requires v.name in c && c[v.name].version > 0 && v.modified == now
    requires now > ZERO_TIME && now > C.Recency(Some(c[v.name]))
    ensures var d := C.Persisted(c, v, root, now, None);
            && ChangeAt([c, d], [C.Persist(v, now, None)], root, v.name, 0)
            && v.name in d && d[v.name].version == c[v.name].version + 1
            && d[v.name].modified == now && C.Recency(Some(d[v.name])) == now
            && d[v.name].created == c[v.name].created && d[v.name].itemCount == v.size
            && d[v.name].fingerprint == v.fingerprint
  {
    hide C.Persisted, C.Recency;
    var d := C.Persisted(c, v, root, now, None);
    VersionRises(c, v, root, now);
    LaterStored(c, v, root, now);
    var e := C.Persist(v, now, None);
    assert [c, d][..1] == [c] && C.Next([c], e, root) == d;
    assert C.StepAt([c, d], [e], root, 0);
  }

  /** One edit between two changes: the first backup is still there after the second change. */
  lemma EditKeepsBackup(before: map<string, Folder>, c: Catalogue, root: string, first: C.Vault, edited: C.Vault,
                        made: Folder, working: Folder, again: Folder)
    requires first.name in before && first.name in c && c[first.name].version > 0 && edited.name == first.name
    requires first.modified > ZERO_TIME && first.modified > C.Recency(Some(c[first.name])) && edited.modified > first.modified
    ensures var c1 := C.Persisted(c, first, root, first.modified, None);
            var c2 := C.Persisted(c1, edited, root, edited.modified, None);
            && first.name in c1 && first.name in c2 && c2[first.name].version == c[first.name].version + 2
            && var left := AfterChanges(before, first.name, [Change(c[first.name].version, before[first.name], made),
                                                             Change(c2[first.name].version, working, again)]);
               Get(left, BackupName(first.name, c[first.name].version)) == Some(before[first.name])
  {
    hide AfterChange, BackupName, C.Persisted;
    var c1 := C.Persisted(c, first, root, first.modified, None);
    var c2 := C.Persisted(c1, edited, root, edited.modified, None);
    VersionRises(c, first, root, first.modified);
    LatestIs(c, first, root);
    VersionRises(c1, edited, root, edited.modified);
    BackupsLeft(before, first.name, [Change(c[first.name].version, before[first.name], made),
                                     Change(c2[first.name].version, working, again)], 0);
  }

  lemma LatestIs(c: Catalogue, v: C.Vault, root: string)
    requires v.name in c && v.modified > ZERO_TIME && v.modified > C.Recency(Some(c[v.name]))
    ensures var d := C.Persisted(c, v, root, v.modified, None);
            v.name in d && C.Recency(Some(d[v.name])) == v.modified
  {
  }
}
