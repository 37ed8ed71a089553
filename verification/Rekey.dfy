/**
 Changing a vault's password (internal/usm/storage_os.go:253-330, internal/usm/storage.go:192-224): the vault directory
 is moved to a backup, everything is encrypted again under a new key, and any failure moves the backup back.
 Encryption is exact: a sealed file opens with its own key only.
 */
module Rekey {
  import opened Results
  import opened Entries
  import opened FileNames
  import opened Decimals
  import opened Vaults
  import C = CatalogueStore

  datatype Body =
    | VaultBody(name: string, contents: Table, colour: string, version: string, created: Time, modified: Time)
    | ItemBody(item: Item)

  /** Torn is what a write that failed may leave. */
  datatype File = KeyFile(password: string, key: nat) | Sealed(key: nat, body: Body) | Torn

  type Folder = map<string, File>

  /** Which file operations fail. */
  datatype Faults = Faults(
    unloadable: set<string>, move: bool, keyFile: bool, unstorable: set<string>, vaultFile: bool,
    stateNotOpened: bool, stateNotWritten: bool, moveBack: bool)

  /** usm.json: the catalogue in it, or what a write that failed leaves, since opening the file for writing empties it. */
  datatype StateFile = Saved(catalogue: Catalogue) | TornState

  datatype RekeyError =
    | NoVault | NoName | NoPassword | SamePassword | InvalidOldPassword | ItemsNotLoaded | NotMoved
    | NoKey | ItemNotAdded | ItemNotStored | VaultNotStored

  function ItemFile(id: string): string {
    id + ".age"
  }

  function BackupName(name: string, n: nat): string {
    name + ".v" + Itoa(n)
  }

  /** The item types of LoadItem. */
  predicate Known(t: ItemType) {
    t.code == 2 || t.code == 4 || t.code == 8 || t.code == 16
  }

  predicate CanLoad(ident: Ident, folder: Folder, key: nat, unloadable: set<string>, m: Metadata) {
    var f := ItemFile(MetadataId(ident, m));
    Known(m.kind) && f in folder && f !in unloadable && folder[f].Sealed? && folder[f].key == key && folder[f].body.ItemBody?
  }

  function Loaded(ident: Ident, folder: Folder, m: Metadata): Item
    requires ItemFile(MetadataId(ident, m)) in folder
    requires var f := folder[ItemFile(MetadataId(ident, m))]; f.Sealed? && f.body.ItemBody?
  {
    folder[ItemFile(MetadataId(ident, m))].body.item
  }

  predicate AllLoadable(ident: Ident, folder: Folder, key: nat, unloadable: set<string>, contents: Table) {
    forall p | p in contents :: CanLoad(ident, folder, key, unloadable, contents[p])
  }

  /** items are the items of the index, in some order. */
  ghost predicate ItemsOf(ident: Ident, folder: Folder, contents: Table, items: seq<Item>) {
    && (forall p | p in contents ::
          && ItemFile(MetadataId(ident, contents[p])) in folder
          && var f := folder[ItemFile(MetadataId(ident, contents[p]))];
             f.Sealed? && f.body.ItemBody? && f.body.item in items)
    && (forall i | 0 <= i < |items| :: FromIndex(ident, folder, contents, items[i]))
  }

  ghost predicate FromIndex(ident: Ident, folder: Folder, contents: Table, item: Item) {
    exists p :: p in contents && ItemFile(MetadataId(ident, contents[p])) in folder
             && var f := folder[ItemFile(MetadataId(ident, contents[p]))];
                f.Sealed? && f.body == ItemBody(item)
  }

  function ItemId(ident: Ident, item: Item): string
    requires item.metadata.Some?
  {
    MetadataId(ident, item.metadata.value)
  }

  predicate Described(items: seq<Item>) {
    forall i | 0 <= i < |items| :: items[i].metadata.Some?
  }

  predicate Storable(ident: Ident, items: seq<Item>, unstorable: set<string>) {
    Described(items) && forall i | 0 <= i < |items| :: ItemId(ident, items[i]) !in unstorable
  }

  /** The folder after the items have been stored one after the other. */
  function Stored(ident: Ident, key: nat, folder: Folder, items: seq<Item>): Folder
    requires Described(items)
  {
    if items == [] then folder
    else
      var last := items[|items| - 1];
      Stored(ident, key, folder, items[..|items| - 1])[ItemFile(ItemId(ident, last)) := Sealed(key, ItemBody(last))]
  }

  /** The index after the items have been added one after the other. */
  function Indexed(ident: Ident, items: seq<Item>): Table
    requires Described(items)
  {
    if items == [] then map[]
    else
      var last := items[|items| - 1];
      Indexed(ident, items[..|items| - 1])[KeyOf(ident, last.metadata.value) := last.metadata.value]
  }

  /** The new active directory. */
  function Rekeyed(ident: Ident, key: nat, password: string, items: seq<Item>, vault: Body): Folder
    requires Described(items)
  {
    Stored(ident, key, map[KEY := KeyFile(password, key)], items)[VAULT := Sealed(key, vault)]
  }

  /** The active directory has been moved to the backup, and nothing else but the active directory has changed since. */
  ghost predicate Moved(before: map<string, Folder>, folders: map<string, Folder>, active: string, backup: string) {
    && active in before && active != backup && backup in folders && folders[backup] == before[active]
    && forall d | d != active && d != backup :: Get(folders, d) == Get(before, d)
  }

  lemma MovedStays(before: map<string, Folder>, folders: map<string, Folder>, active: string, backup: string,
                   after: map<string, Folder>)
    requires Moved(before, folders, active, backup) && active in after && after == folders[active := after[active]]
    ensures Moved(before, after, active, backup) && after == Replaced(before, active, backup, after[active])
  {
    forall d
      ensures Get(after, d) == Get(Replaced(before, active, backup, after[active]), d)
    {
      assert d != active && d != backup ==> Get(folders, d) == Get(before, d);
    }
    SameFolders(after, Replaced(before, active, backup, after[active]));
  }

  lemma SameFolders(a: map<string, Folder>, b: map<string, Folder>)
    requires forall d :: Get(a, d) == Get(b, d)
    ensures a == b
  {
    forall d
      ensures d in a <==> d in b
      ensures d in a ==> a[d] == b[d]
    {
      assert Get(a, d) == Get(b, d);
    }
  }

  /** The active directory has its backup's name and nothing has its own. */
  function MovedAway(before: map<string, Folder>, active: string, backup: string): map<string, Folder>
    requires active in before
  {
    (before - {active})[backup := before[active]]
  }

  lemma MoveDone(before: map<string, Folder>, active: string, backup: string)
    requires active in before && active != backup
    ensures Moved(before, MovedAway(before, active, backup), active, backup)
  {
  }

  /** The old directory is the backup, and the active directory is new. */
  function Replaced(before: map<string, Folder>, active: string, backup: string, folder: Folder): map<string, Folder>
    requires active in before
  {
    before[backup := before[active]][active := folder]
  }

  /** A successful change at a catalogue version also removes the backup of the version before, if there is one. */
  function AfterChange(before: map<string, Folder>, name: string, version: nat, made: Folder): map<string, Folder>
    requires name in before
  {
    Replaced(before, name, BackupName(name, version), made) - (if version > 1 then {BackupName(name, version - 1)} else {})
  }

  class OSStorage {
    const root: string
    const ident: Ident
    const fingerprint: nat -> string
    /** The directories under the storage root. */
    var folders: map<string, Folder>
    var stateFile: StateFile

    constructor (root: string, ident: Ident, fingerprint: nat -> string)
      ensures folders == map[] && stateFile == Saved(map[])
    {
      this.root, this.ident, this.fingerprint, folders, stateFile := root, ident, fingerprint, map[], Saved(map[]);
    }

    /** catalogueVaultVersion; ChangeVaultPassword's test for a version below 1 never holds. */
    function CatalogueVersion(name: string): (n: nat)
      reads this`stateFile
      ensures stateFile.Saved? && name in stateFile.catalogue && stateFile.catalogue[name].version > 0 ==>
                n == stateFile.catalogue[name].version
      ensures n >= 1
    {
      if stateFile.Saved? && name in stateFile.catalogue && stateFile.catalogue[name].version > 0 then
        stateFile.catalogue[name].version
      else 1
    }

    predicate OpensWith(name: string, password: string)
      reads this`folders
    {
      && name in folders && KEY in folders[name]
      && folders[name][KEY].KeyFile? && folders[name][KEY].password == password
    }

    /** The files of a vault; a missing directory has none. */
    function FilesOf(name: string): Folder
      reads this`folders
    {
      if name in folders then folders[name] else map[]
    }

    /** loadVaultItems */
    method LoadVaultItems(vault: Vault, unloadable: set<string>) returns (r: Option<seq<Item>>)
      requires vault.ident == ident
      ensures r.Some? <==> AllLoadable(ident, FilesOf(vault.name), vault.key, unloadable, vault.Contents())
      ensures r.Some? ==> ItemsOf(ident, FilesOf(vault.name), vault.Contents(), r.value)
    {
      hide MetadataId, ItemFile, Flat, Known;
      var folder, contents := FilesOf(vault.name), vault.Contents();
      var items: seq<Item> := [];
      var todo := contents.Keys;
      while todo != {}
        invariant todo <= contents.Keys
        invariant forall p | p in contents && p !in todo ::
                    && CanLoad(ident, folder, vault.key, unloadable, contents[p])
                    && Loaded(ident, folder, contents[p]) in items
        invariant forall i | 0 <= i < |items| :: FromIndex(ident, folder, contents, items[i])
        decreases |todo|
      {
        var p :| p in todo;
        todo := todo - {p};
        if !CanLoad(ident, folder, vault.key, unloadable, contents[p]) {
          return None;
        }
        var item := Loaded(ident, folder, contents[p]);
        assert FromIndex(ident, folder, contents, item);
        items := items + [item];
      }
      return Some(items);
    }

    /** The restoreBackup closure, whose result is ignored. */
    method RestoreBackup(active: string, backup: string, fails: bool, ghost before: map<string, Folder>)
      requires Moved(before, folders, active, backup) && backup !in before
      modifies this`folders
      ensures folders == if fails then MovedAway(before, active, backup) else before
    {
      ghost var moved := folders;
      folders := folders - {active};
      if !fails {
        folders := (folders - {backup})[active := folders[backup]];
      }
      forall d
        ensures Get(folders, d) == Get(if fails then MovedAway(before, active, backup) else before, d)
      {
        assert d != active && d != backup ==> Get(moved, d) == Get(before, d);
      }
      SameFolders(folders, if fails then MovedAway(before, active, backup) else before);
    }

    /** CreateVaultKey; newKey is the key that MakeKey draws. */
    method CreateVaultKey(name: string, password: string, newKey: nat, fails: bool) returns (ok: bool)
      requires name !in folders
      modifies this`folders
      ensures ok <==> !fails
      ensures name in folders && folders == old(folders)[name := folders[name]]
      ensures ok ==> folders[name] == map[KEY := KeyFile(password, newKey)]
    {
      folders := folders[name := map[]];
      if fails {
        folders := folders[name := map[KEY := Torn]];
        return false;
      }
      folders := folders[name := map[KEY := KeyFile(password, newKey)]];
      return true;
    }

    method StoreItem(vault: Vault, item: Item, unstorable: set<string>) returns (ok: bool)
      requires vault.ident == ident && vault.name in folders && item.metadata.Some?
      modifies this`folders
      ensures ok <==> ItemId(ident, item) !in unstorable
      ensures folders == old(folders)[vault.name := old(folders)[vault.name][ItemFile(ItemId(ident, item)) :=
                if ok then Sealed(vault.key, ItemBody(item)) else Torn]]
    {
      var id := MetadataId(ident, item.metadata.value);
      if id in unstorable {
        folders := folders[vault.name := folders[vault.name][ItemFile(id) := Torn]];
        return false;
      }
      folders := folders[vault.name := folders[vault.name][ItemFile(id) := Sealed(vault.key, ItemBody(item))]];
      return true;
    }

    /** The loop of ChangeVaultPassword over the items. */
    method StoreItems(vault: Vault, items: seq<Item>, now: Time, unstorable: set<string>) returns (error: Option<RekeyError>)
      requires vault.ident == ident && vault.name in folders && vault.Contents() == map[] && vault.modified == now
      modifies this`folders, vault`items, vault`modified
      ensures vault.modified == now && vault.name in folders
      ensures folders == old(folders)[vault.name := folders[vault.name]]
      ensures error.None? <==> Storable(ident, items, unstorable)
      ensures error.None? ==>
                && Described(items)
                && folders[vault.name] == Stored(ident, vault.key, old(folders)[vault.name], items)
                && vault.Contents() == Indexed(ident, items)
    {
      hide Stored, Indexed, Storable, Flat, MetadataId, ItemFile, ItemId, KeyOf;
      ghost var before := folders;
      ghost var folder := folders[vault.name];
      NothingStored(ident, vault.key, folder, unstorable);
      assert items[..0] == [] && folders == before[vault.name := folder];
      for i := 0 to |items|
        invariant Storable(ident, items[..i], unstorable) && Described(items[..i]) && vault.name in folders
        invariant folders == before[vault.name := Stored(ident, vault.key, folder, items[..i])]
        invariant vault.Contents() == Indexed(ident, items[..i]) && vault.modified == now
      {
        var item := items[i];
        OneStored(ident, vault.key, folder, items, i, unstorable);
        var ok := vault.AddItem(item, now);
        if !ok {
          return Some(ItemNotAdded);
        }
        ok := StoreItem(vault, item, unstorable);
        if !ok {
          return Some(ItemNotStored);
        }
      }
      assert items[..|items|] == items;
      return None;
    }

    ghost function VaultText(v: Vault): Body
      reads v
    {
      VaultBody(v.name, v.Contents(), v.colour, v.version, v.created, v.modified)
    }

    /** Whether persistVaultCatalogue succeeds; it first loads the state. */
    predicate StateStores(faults: Faults)
      reads this`stateFile
    {
      stateFile.Saved? && !faults.stateNotOpened && !faults.stateNotWritten
    }

    /** Whether the attempt to store the state leaves usm.json torn: the file is opened, and its write fails. */
    predicate StateTears(faults: Faults)
      reads this`stateFile
    {
      stateFile.Saved? && !faults.stateNotOpened && faults.stateNotWritten
    }

    /** StoreVault with persistVaultCatalogue. */
    method StoreVault(vault: Vault, now: Time, faults: Faults) returns (ok: bool)
      requires vault.name in folders
      modifies this`folders, this`stateFile
      ensures ok <==> !faults.vaultFile && old(StateStores(faults))
      ensures vault.name in folders && folders == old(folders)[vault.name := folders[vault.name]]
      ensures !ok ==> stateFile == if !faults.vaultFile && old(StateTears(faults)) then TornState else old(stateFile)
      ensures ok ==>
                && folders[vault.name] == old(folders)[vault.name][VAULT := Sealed(vault.key, VaultText(vault))]
                && stateFile == Saved(C.Persisted(old(stateFile).catalogue, Summary(vault), root, now, None))
    {
      hide C.Persisted, Flat;
      if faults.vaultFile {
        folders := folders[vault.name := folders[vault.name][VAULT := Torn]];
        return false;
      }
      var body := VaultBody(vault.name, vault.Contents(), vault.colour, vault.version, vault.created, vault.modified);
      folders := folders[vault.name := folders[vault.name][VAULT := Sealed(vault.key, body)]];
      if stateFile.TornState? || faults.stateNotOpened {
        return false;
      }
      if faults.stateNotWritten {
        stateFile := TornState;
        return false;
      }
      stateFile := Saved(C.Persisted(stateFile.catalogue, Summary(vault), root, now, None));
      return true;
    }

    /** What the catalogue reads from a vault. */
    function Summary(v: Vault): C.Vault
      reads v
    {
      C.Vault(v.name, v.created, v.modified, fingerprint(v.key), |v.Contents()|)
    }

    /** The directory is moved to the backup. */
    ghost predicate CanMove(vault: Vault, oldPassword: string, newPassword: string, faults: Faults)
      reads this`folders, this`stateFile, vault`items
    {
      var backup := BackupName(vault.name, CatalogueVersion(vault.name));
      && vault.name != "" && newPassword != "" && oldPassword != newPassword
      && OpensWith(vault.name, oldPassword)
      && AllLoadable(ident, folders[vault.name], vault.key, faults.unloadable, vault.Contents())
      && !faults.move && backup !in folders
    }

    /** Nothing stands in the way of the change before the catalogue is stored, unless an item cannot be stored. */
    ghost predicate CanReencrypt(vault: Vault, oldPassword: string, newPassword: string, faults: Faults)
      reads this`folders, this`stateFile, vault`items
    {
      CanMove(vault, oldPassword, newPassword, faults) && !faults.keyFile && !faults.vaultFile
    }

    /** ChangeVaultPassword from the move to the backup on. */
    method Reencrypt(vault: Vault, items: seq<Item>, backup: string, newPassword: string, newKey: nat, now: Time, faults: Faults)
        returns (r: Result<Vault, RekeyError>)
      requires vault.ident == ident && vault.name in folders && backup !in folders
      modifies this`folders, this`stateFile
      ensures r.Ok? <==>
                && !faults.keyFile && !faults.vaultFile && old(StateStores(faults))
                && Storable(ident, items, faults.unstorable)
      ensures r.Err? ==> folders == if faults.moveBack then MovedAway(old(folders), vault.name, backup) else old(folders)
      ensures r.Err? ==>
                stateFile == if && !faults.keyFile && Storable(ident, items, faults.unstorable)
                                && !faults.vaultFile && old(StateTears(faults))
                             then TornState else old(stateFile)
      ensures r.Ok? ==>
                var made := r.value;
                && Described(items) && old(stateFile).Saved?
                && made.ident == ident && made.key == newKey && made.name == vault.name
                && made.colour == vault.colour && made.version == vault.version
                && made.created == vault.created && made.modified == now
                && made.Contents() == Indexed(ident, items)
                && folders == Replaced(old(folders), vault.name, backup, Rekeyed(ident, newKey, newPassword, items, VaultText(made)))
                && stateFile == Saved(C.Persisted(old(stateFile).catalogue, Summary(made), root, now, None))
    {
      hide Stored, Indexed, Storable, Flat, MetadataId, ItemFile, ItemId, KeyOf, C.Persisted, Moved, Replaced;
      var active := vault.name;
      ghost var before := folders;
      MoveDone(before, active, backup);
      folders := MovedAway(folders, active, backup);
      ghost var was := folders;
      var ok := CreateVaultKey(active, newPassword, newKey, faults.keyFile);
      MovedStays(before, was, active, backup, folders);
      if !ok {
        RestoreBackup(active, backup, faults.moveBack, before);
        return Err(NoKey);
      }
      var made := NewVersion(vault, newKey, now);
      was := folders;
      var error := StoreItems(made, items, now, faults.unstorable);
      MovedStays(before, was, active, backup, folders);
      if error.Some? {
        RestoreBackup(active, backup, faults.moveBack, before);
        return Err(error.value);
      }
      was := folders;
      ok := StoreVault(made, now, faults);
      MovedStays(before, was, active, backup, folders);
      if !ok {
        RestoreBackup(active, backup, faults.moveBack, before);
        return Err(VaultNotStored);
      }
      return Ok(made);
    }

    /** The new vault object, before any item is added. */
    method NewVersion(vault: Vault, newKey: nat, now: Time) returns (made: Vault)
      requires vault.ident == ident
      ensures fresh(made) && made.ident == ident && made.key == newKey && made.name == vault.name
      ensures made.colour == vault.colour && made.version == vault.version && made.created == vault.created
      ensures made.modified == now && made.Contents() == map[]
    {
      made := new Vault.NewVault(ident, newKey, vault.name, now);
      made.colour := vault.colour;
      made.version := vault.version;
      made.created := vault.created;
      made.modified := now;
      NoContents(made);
    }

    /** newKey is the new vault key, now the time of the change; items is the order the items were handled in. */
    method ChangeVaultPassword(vault: Vault?, oldPassword: string, newPassword: string, newKey: nat, now: Time, faults: Faults)
        returns (r: Result<Vault, RekeyError>, ghost items: seq<Item>)
      requires vault != null ==> vault.ident == ident
      modifies this`folders, this`stateFile
      ensures r.Ok? <==>
                && vault != null && old(CanReencrypt(vault, oldPassword, newPassword, faults))
                && Storable(ident, items, faults.unstorable) && old(StateStores(faults))
      ensures r.Ok? ==>
                && vault != null && vault.name != "" && newPassword != "" && oldPassword != newPassword
                && vault.name in old(folders) && KEY in old(folders)[vault.name] && old(folders)[vault.name][KEY].KeyFile?
                && old(folders)[vault.name][KEY].password == oldPassword
                && (old(stateFile).Saved? && vault.name in old(stateFile).catalogue
                    && old(stateFile).catalogue[vault.name].version > 0 ==>
                      BackupName(vault.name, old(stateFile).catalogue[vault.name].version) !in old(folders))
      ensures vault != null && old(CanMove(vault, oldPassword, newPassword, faults)) ==>
                ItemsOf(ident, old(folders)[vault.name], vault.Contents(), items)
      ensures r.Err? ==>
                folders == if vault != null && old(CanMove(vault, oldPassword, newPassword, faults)) && faults.moveBack
                           then MovedAway(old(folders), vault.name, BackupName(vault.name, old(CatalogueVersion(vault.name))))
                           else old(folders)
      ensures r.Err? ==>
                stateFile == if && vault != null && old(CanReencrypt(vault, oldPassword, newPassword, faults))
                                && Storable(ident, items, faults.unstorable) && old(StateTears(faults))
                             then TornState else old(stateFile)
      ensures r.Ok? ==>
                var n := old(CatalogueVersion(vault.name));
                var made := r.value;
                && Described(items) && vault.name in old(folders) && old(stateFile).Saved?
                && made.ident == ident && made.key == newKey && made.name == vault.name
                && made.colour == vault.colour && made.version == vault.version
                && made.created == vault.created && made.modified == now
                && made.Contents() == Indexed(ident, items)
                && folders == AfterChange(old(folders), vault.name, n,
                                          Rekeyed(ident, newKey, newPassword, items, VaultText(made)))
                && stateFile == Saved(C.Persisted(old(stateFile).catalogue, Summary(made), root, now, None))
    {
      hide Stored, Indexed, Storable, Flat, MetadataId, ItemFile, ItemId, KeyOf, C.Persisted, Moved, Replaced, Rekeyed,
        AllLoadable, ItemsOf, BackupName, Described;
      items := [];
      if vault == null {
        return Err(NoVault), items;
      }
      if vault.name == "" {
        return Err(NoName), items;
      }
      if newPassword == "" {
        return Err(NoPassword), items;
      }
      if oldPassword == newPassword {
        return Err(SamePassword), items;
      }
      if !OpensWith(vault.name, oldPassword) {
        return Err(InvalidOldPassword), items;
      }
      var loaded := LoadVaultItems(vault, faults.unloadable);
      if loaded.None? {
        return Err(ItemsNotLoaded), items;
      }
      items := loaded.value;
      var active := vault.name;
      var backupVersion := CatalogueVersion(vault.name);
      var backup := BackupName(active, backupVersion);
      if faults.move || backup in folders {
        return Err(NotMoved), items;
      }
      r := Reencrypt(vault, loaded.value, backup, newPassword, newKey, now, faults);
      if r.Ok? && backupVersion > 1 {
        folders := folders - {BackupName(active, backupVersion - 1)};
      }
    }
  }

  lemma NoContents(v: Vault)
    requires v.items == map[]
    ensures v.Contents() == map[]
  {
  }

  lemma NothingStored(ident: Ident, key: nat, folder: Folder, unstorable: set<string>)
    ensures Storable(ident, [], unstorable) && Described([]) && Stored(ident, key, folder, []) == folder && Indexed(ident, []) == map[]
  {
  }

  lemma OneStored(ident: Ident, key: nat, folder: Folder, items: seq<Item>, i: nat, unstorable: set<string>)
    requires i < |items| && Storable(ident, items[..i], unstorable)
    ensures items[i].metadata.Some? && ItemId(ident, items[i]) !in unstorable ==>
              && Storable(ident, items[..i + 1], unstorable) && Described(items[..i + 1])
              && Stored(ident, key, folder, items[..i + 1])
                 == Stored(ident, key, folder, items[..i])[ItemFile(ItemId(ident, items[i])) := Sealed(key, ItemBody(items[i]))]
              && Indexed(ident, items[..i + 1])
                 == Indexed(ident, items[..i])[KeyOf(ident, items[i].metadata.value) := items[i].metadata.value]
    ensures items[i].metadata.None? || ItemId(ident, items[i]) in unstorable ==> !Storable(ident, items, unstorable)
  {
    assert items[..i + 1][..i] == items[..i];
  }

  // ----- what a change conserves -----

  /** IDs are hexadecimal digests, so no item file is called key.age or vault.age. */
  ghost predicate Digests(ident: Ident) {
    forall t, n :: ItemFileName(ItemFile(ident(t, n)))
  }

  /** Under this key the index leads to this item by this ID. */
  ghost predicate Holds(ident: Ident, folder: Folder, key: nat, contents: Table, id: string, item: Item) {
    && (exists p :: p in contents && MetadataId(ident, contents[p]) == id && Known(contents[p].kind))
    && ItemFile(id) in folder && folder[ItemFile(id)] == Sealed(key, ItemBody(item))
  }

  /** Every item in the index yields the ID it is stored under. */
  predicate WellKept(ident: Ident, folder: Folder, key: nat, contents: Table) {
    forall p | p in contents ::
      && CanLoad(ident, folder, key, {}, contents[p])
      && var item := Loaded(ident, folder, contents[p]);
         item.metadata.Some? && Known(item.metadata.value.kind) && ItemId(ident, item) == MetadataId(ident, contents[p])
  }

  lemma {:induction false} StoredAt(ident: Ident, key: nat, folder: Folder, items: seq<Item>, id: string) returns (j: int)
    requires Described(items)
    ensures ItemFile(id) in Stored(ident, key, folder, items) <==>
              ItemFile(id) in folder || exists i :: 0 <= i < |items| && ItemId(ident, items[i]) == id
    ensures (exists i :: 0 <= i < |items| && ItemId(ident, items[i]) == id) ==>
              && 0 <= j < |items| && ItemId(ident, items[j]) == id
              && Stored(ident, key, folder, items)[ItemFile(id)] == Sealed(key, ItemBody(items[j]))
  {
    hide MetadataId;
    if items == [] {
      j := 0;
    } else {
      var m := |items| - 1;
      j := StoredAt(ident, key, folder, items[..m], id);
      FileOf(ItemId(ident, items[m]), id);
      assert forall i | 0 <= i < m :: items[..m][i] == items[i];
      if ItemId(ident, items[m]) == id {
        j := m;
      } else if i :| 0 <= i < |items| && ItemId(ident, items[i]) == id {
        assert ItemId(ident, items[..m][i]) == id;
      }
    }
  }

  lemma FileOf(a: string, b: string)
    ensures ItemFile(a) == ItemFile(b) ==> a == b
  {
    if ItemFile(a) == ItemFile(b) {
      assert ItemFile(a)[..|ItemFile(a)| - 4] == a && ItemFile(b)[..|ItemFile(b)| - 4] == b;
    }
  }

  lemma {:induction false} IndexedIs(ident: Ident, items: seq<Item>)
    requires Described(items)
    ensures forall p | p in Indexed(ident, items) :: KeyOf(ident, Indexed(ident, items)[p]) == p
    ensures forall p | p in Indexed(ident, items) :: exists i ::
              0 <= i < |items| && items[i].metadata == Some(Indexed(ident, items)[p])
    ensures forall i | 0 <= i < |items| :: KeyOf(ident, items[i].metadata.value) in Indexed(ident, items)
  {
    hide MetadataId, KeyOf;
    if items != [] {
      var m := |items| - 1;
      IndexedIs(ident, items[..m]);
      assert forall i | 0 <= i < m :: items[..m][i] == items[i];
      forall p | p in Indexed(ident, items)
        ensures exists i :: 0 <= i < |items| && items[i].metadata == Some(Indexed(ident, items)[p])
      {
        if p == KeyOf(ident, items[m].metadata.value) {
          assert items[m].metadata == Some(Indexed(ident, items)[p]);
        } else {
          var i :| 0 <= i < m && items[..m][i].metadata == Some(Indexed(ident, items[..m])[p]);
          assert items[i].metadata == Some(Indexed(ident, items)[p]);
        }
      }
    }
  }

  /** An item of the old index is what its file holds. */
  lemma OldFile(ident: Ident, folder: Folder, key: nat, contents: Table, items: seq<Item>, i: int)
    requires ItemsOf(ident, folder, contents, items) && WellKept(ident, folder, key, contents) && 0 <= i < |items|
    ensures items[i].metadata.Some? && Known(items[i].metadata.value.kind)
    ensures Holds(ident, folder, key, contents, ItemId(ident, items[i]), items[i])
  {
    hide MetadataId, ItemFile, Known;
    assert FromIndex(ident, folder, contents, items[i]);
    var p :| p in contents && ItemFile(MetadataId(ident, contents[p])) in folder
             && var f := folder[ItemFile(MetadataId(ident, contents[p]))]; f.Sealed? && f.body == ItemBody(items[i]);
    assert CanLoad(ident, folder, key, {}, contents[p]);
  }

  lemma OldItem(ident: Ident, folder: Folder, key: nat, contents: Table, items: seq<Item>, id: string, item: Item) returns (i: int)
    requires ItemsOf(ident, folder, contents, items) && WellKept(ident, folder, key, contents)
    requires Holds(ident, folder, key, contents, id, item)
    ensures 0 <= i < |items| && items[i] == item && item.metadata.Some? && ItemId(ident, item) == id
  {
    hide MetadataId, ItemFile, Known;
    var p :| p in contents && MetadataId(ident, contents[p]) == id && Known(contents[p].kind);
    assert CanLoad(ident, folder, key, {}, contents[p]);
    i :| 0 <= i < |items| && items[i] == item;
  }

  /** The item files of the new directory, and its key and vault files. */
  lemma NewFile(ident: Ident, folder: Folder, key: nat, contents: Table, items: seq<Item>, i: int,
                newKey: nat, password: string, vault: Body)
    requires ItemsOf(ident, folder, contents, items) && WellKept(ident, folder, key, contents) && Described(items)
    requires Digests(ident) && 0 <= i < |items|
    ensures var f := ItemFile(ItemId(ident, items[i]));
            var made := Rekeyed(ident, newKey, password, items, vault);
            f in made && made[f] == Sealed(newKey, ItemBody(items[i]))
  {
    hide ItemsOf, WellKept, MetadataId, Stored, Known;
    var id := ItemId(ident, items[i]);
    var j := StoredAt(ident, newKey, map[KEY := KeyFile(password, newKey)], items, id);
    OldFile(ident, folder, key, contents, items, i);
    OldFile(ident, folder, key, contents, items, j);
    NotReserved(ident, items[i].metadata.value);
  }

  lemma NotReserved(ident: Ident, m: Metadata)
    requires Digests(ident)
    ensures ItemFile(MetadataId(ident, m)) != VAULT && ItemFile(MetadataId(ident, m)) != KEY
  {
    assert ItemFileName(ItemFile(ident(m.kind, m.name)));
  }

  lemma NewHolds(ident: Ident, folder: Folder, key: nat, contents: Table, items: seq<Item>, i: int,
                 newKey: nat, password: string, vault: Body)
    requires ItemsOf(ident, folder, contents, items) && WellKept(ident, folder, key, contents) && Described(items)
    requires Digests(ident) && 0 <= i < |items|
    ensures Holds(ident, Rekeyed(ident, newKey, password, items, vault), newKey, Indexed(ident, items),
                  ItemId(ident, items[i]), items[i])
  {
    hide ItemsOf, WellKept, Known, Rekeyed, ItemFile, Indexed;
    NewFile(ident, folder, key, contents, items, i, newKey, password, vault);
    OldFile(ident, folder, key, contents, items, i);
    IndexedIs(ident, items);
    var p := KeyOf(ident, items[i].metadata.value);
    assert p in Indexed(ident, items) && KeyOf(ident, Indexed(ident, items)[p]) == p;
  }

  /**
   A successful change conserves the vault: an ID leads to an item in the new directory under the new key exactly when
   it led to that item in the old directory under the old key.
   */
  lemma Conserved(ident: Ident, folder: Folder, key: nat, contents: Table, items: seq<Item>,
                  newKey: nat, password: string, vault: Body, id: string, item: Item)
    requires ItemsOf(ident, folder, contents, items) && WellKept(ident, folder, key, contents) && Described(items)
    requires Digests(ident)
    ensures Holds(ident, folder, key, contents, id, item) <==>
            Holds(ident, Rekeyed(ident, newKey, password, items, vault), newKey, Indexed(ident, items), id, item)
  {
    hide ItemsOf, WellKept, Known, Rekeyed, ItemFile, Indexed, Digests, MetadataId;
    var made := Rekeyed(ident, newKey, password, items, vault);
    if Holds(ident, folder, key, contents, id, item) {
      var i := OldItem(ident, folder, key, contents, items, id, item);
      NewHolds(ident, folder, key, contents, items, i, newKey, password, vault);
    }
    if Holds(ident, made, newKey, Indexed(ident, items), id, item) {
      IndexedIs(ident, items);
      var p :| p in Indexed(ident, items) && MetadataId(ident, Indexed(ident, items)[p]) == id;
      var i :| 0 <= i < |items| && items[i].metadata == Some(Indexed(ident, items)[p]);
      NewFile(ident, folder, key, contents, items, i, newKey, password, vault);
      OldFile(ident, folder, key, contents, items, i);
    }
  }

  // ----- exactly which IDs are conserved -----

  /** Some entry of the index has this ID. */
  ghost predicate Listed(ident: Ident, contents: Table, id: string) {
    exists p :: p in contents && MetadataId(ident, contents[p]) == id
  }

  /** The item that claims this ID by its own metadata, the last one if there are several. */
  function Claimant(ident: Ident, items: seq<Item>, id: string): Option<Item>
    requires Described(items)
  {
    if items == [] then None
    else
      var m := |items| - 1;
      if ItemId(ident, items[m]) == id then Some(items[m]) else Claimant(ident, items[..m], id)
  }

  /** Some item claims this ID with a type that LoadItem knows. */
  ghost predicate Loadable(ident: Ident, items: seq<Item>, id: string)
    requires Described(items)
  {
    exists i :: 0 <= i < |items| && ItemId(ident, items[i]) == id && Known(items[i].metadata.value.kind)
  }

  lemma {:induction false} StoredClaimant(ident: Ident, key: nat, folder: Folder, items: seq<Item>, id: string)
    requires Described(items)
    ensures Get(Stored(ident, key, folder, items), ItemFile(id))
         == match Claimant(ident, items, id)
            case None => Get(folder, ItemFile(id))
            case Some(item) => Some(Sealed(key, ItemBody(item)))
  {
    hide MetadataId, ItemFile;
    if items != [] {
      var m := |items| - 1;
      StoredClaimant(ident, key, folder, items[..m], id);
      FileOf(ItemId(ident, items[m]), id);
    }
  }

  /** What an ID leads to in the old directory. */
  lemma OldHolds(ident: Ident, folder: Folder, key: nat, contents: Table, unloadable: set<string>, id: string, item: Item)
    requires AllLoadable(ident, folder, key, unloadable, contents)
    ensures Holds(ident, folder, key, contents, id, item) <==>
              Listed(ident, contents, id) && Get(folder, ItemFile(id)) == Some(Sealed(key, ItemBody(item)))
  {
    hide MetadataId, ItemFile, Known;
    if p :| p in contents && MetadataId(ident, contents[p]) == id {
      assert CanLoad(ident, folder, key, unloadable, contents[p]);
    }
  }

  /** What an ID leads to in the new directory: the last claimant, if one of the claimants has a known type. */
  lemma MadeHolds(ident: Ident, items: seq<Item>, newKey: nat, password: string, vault: Body, id: string, item: Item)
    requires Described(items) && Digests(ident)
    ensures Holds(ident, Rekeyed(ident, newKey, password, items, vault), newKey, Indexed(ident, items), id, item) <==>
              Loadable(ident, items, id) && Claimant(ident, items, id) == Some(item)
  {
    hide Known, ItemFile, Rekeyed, Digests, Claimant, Indexed, MetadataId;
    if Loadable(ident, items, id) {
      var p := LoadableIndexed(ident, items, id);
      MadeFile(ident, items, newKey, password, vault, id);
    } else if p :| p in Indexed(ident, items) && MetadataId(ident, Indexed(ident, items)[p]) == id
                   && Known(Indexed(ident, items)[p].kind) {
      IndexedLoadable(ident, items, p);
    }
  }

  lemma LoadableIndexed(ident: Ident, items: seq<Item>, id: string) returns (p: (ItemType, string))
    requires Described(items) && Loadable(ident, items, id)
    ensures p in Indexed(ident, items) && MetadataId(ident, Indexed(ident, items)[p]) == id
    ensures Known(Indexed(ident, items)[p].kind)
  {
    hide Known, Indexed, MetadataId;
    IndexedIs(ident, items);
    var i :| 0 <= i < |items| && ItemId(ident, items[i]) == id && Known(items[i].metadata.value.kind);
    p := KeyOf(ident, items[i].metadata.value);
    assert KeyOf(ident, Indexed(ident, items)[p]) == p;
  }

  lemma IndexedLoadable(ident: Ident, items: seq<Item>, p: (ItemType, string))
    requires Described(items) && p in Indexed(ident, items) && Known(Indexed(ident, items)[p].kind)
    ensures Loadable(ident, items, MetadataId(ident, Indexed(ident, items)[p]))
  {
    hide Known, Indexed, MetadataId;
    IndexedIs(ident, items);
    var i :| 0 <= i < |items| && items[i].metadata == Some(Indexed(ident, items)[p]);
    assert ItemId(ident, items[i]) == MetadataId(ident, Indexed(ident, items)[p]);
  }

  lemma MadeFile(ident: Ident, items: seq<Item>, newKey: nat, password: string, vault: Body, id: string)
    requires Described(items) && Digests(ident) && Loadable(ident, items, id)
    ensures var made := Rekeyed(ident, newKey, password, items, vault);
            && Claimant(ident, items, id).Some? && ItemFile(id) in made
            && made[ItemFile(id)] == Sealed(newKey, ItemBody(Claimant(ident, items, id).value))
  {
    hide ItemFile, Stored, Digests, Claimant, MetadataId, Known;
    LoadableClaimed(ident, items, id);
    var i :| 0 <= i < |items| && ItemId(ident, items[i]) == id;
    var start := map[KEY := KeyFile(password, newKey)];
    StoredClaimant(ident, newKey, start, items, id);
    NotReserved(ident, items[i].metadata.value);
    assert Get(Stored(ident, newKey, start, items), ItemFile(id)).Some?;
  }

  lemma LoadableClaimed(ident: Ident, items: seq<Item>, id: string)
    requires Described(items) && Loadable(ident, items, id)
    ensures Claimant(ident, items, id).Some?
  {
    hide Claimant, MetadataId, Known;
    var i :| 0 <= i < |items| && ItemId(ident, items[i]) == id;
    ClaimantFound(ident, items, i);
  }

  lemma {:induction false} ClaimantFound(ident: Ident, items: seq<Item>, i: int)
    requires Described(items) && 0 <= i < |items|
    ensures Claimant(ident, items, ItemId(ident, items[i])).Some?
  {
    hide MetadataId;
    if i < |items| - 1 {
      ClaimantFound(ident, items[..|items| - 1], i);
    }
  }

  /**
   A successful change conserves one ID if and only if the index has it, an item of a known type claims it and the last
   item to claim it is the one in its file; or the index does not have it and no item of a known type claims it.
   */
  lemma ConservedExact(ident: Ident, folder: Folder, key: nat, contents: Table, unloadable: set<string>, items: seq<Item>,
                       newKey: nat, password: string, vault: Body, id: string)
    requires AllLoadable(ident, folder, key, unloadable, contents) && Described(items) && Digests(ident)
    ensures (forall item :: Holds(ident, folder, key, contents, id, item) <==>
                            Holds(ident, Rekeyed(ident, newKey, password, items, vault), newKey, Indexed(ident, items), id, item))
            <==>
            if Listed(ident, contents, id) then
              && Loadable(ident, items, id) && Claimant(ident, items, id).Some?
              && Get(folder, ItemFile(id)) == Some(Sealed(key, ItemBody(Claimant(ident, items, id).value)))
            else !Loadable(ident, items, id)
  {
    hide AllLoadable, Described, Digests, Holds, Rekeyed, Indexed, Loadable, Claimant, ItemFile;
    forall item: Item
      ensures Holds(ident, folder, key, contents, id, item) <==>
                Listed(ident, contents, id) && Get(folder, ItemFile(id)) == Some(Sealed(key, ItemBody(item)))
      ensures Holds(ident, Rekeyed(ident, newKey, password, items, vault), newKey, Indexed(ident, items), id, item) <==>
                Loadable(ident, items, id) && Claimant(ident, items, id) == Some(item)
    {
      OldHolds(ident, folder, key, contents, unloadable, id, item);
      MadeHolds(ident, items, newKey, password, vault, id, item);
    }
    if Listed(ident, contents, id) {
      ListedFile(ident, folder, key, contents, unloadable, id);
      var item := folder[ItemFile(id)].body.item;
      assert Holds(ident, folder, key, contents, id, item);
    } else if Loadable(ident, items, id) {
      LoadableClaimed(ident, items, id);
      var item := Claimant(ident, items, id).value;
      assert !Holds(ident, folder, key, contents, id, item);
    }
  }

  lemma ListedFile(ident: Ident, folder: Folder, key: nat, contents: Table, unloadable: set<string>, id: string)
    requires AllLoadable(ident, folder, key, unloadable, contents) && Listed(ident, contents, id)
    ensures ItemFile(id) in folder && folder[ItemFile(id)].Sealed? && folder[ItemFile(id)].key == key
    ensures folder[ItemFile(id)].body.ItemBody?
  {
    hide MetadataId, ItemFile, Known;
    var p :| p in contents && MetadataId(ident, contents[p]) == id;
    assert CanLoad(ident, folder, key, unloadable, contents[p]);
  }

  /** The new directory is well kept again, opens with the new password only, and holds the vault itself. */
  lemma KeptAgain(ident: Ident, folder: Folder, key: nat, contents: Table, items: seq<Item>,
                  newKey: nat, password: string, vault: Body)
    requires ItemsOf(ident, folder, contents, items) && WellKept(ident, folder, key, contents) && Described(items)
    requires Digests(ident)
    ensures var made := Rekeyed(ident, newKey, password, items, vault);
            && WellKept(ident, made, newKey, Indexed(ident, items))
            && KEY in made && made[KEY] == KeyFile(password, newKey)
            && VAULT in made && made[VAULT] == Sealed(newKey, vault)
  {
    hide ItemsOf, Known, Rekeyed, ItemFile, Indexed, Digests, MetadataId;
    var made := Rekeyed(ident, newKey, password, items, vault);
    IndexedIs(ident, items);
    forall p | p in Indexed(ident, items)
      ensures CanLoad(ident, made, newKey, {}, Indexed(ident, items)[p])
      ensures var item := Loaded(ident, made, Indexed(ident, items)[p]);
              item.metadata.Some? && Known(item.metadata.value.kind)
              && ItemId(ident, item) == MetadataId(ident, Indexed(ident, items)[p])
    {
      var i :| 0 <= i < |items| && items[i].metadata == Some(Indexed(ident, items)[p]);
      NewFile(ident, folder, key, contents, items, i, newKey, password, vault);
      OldFile(ident, folder, key, contents, items, i);
    }
    KeyStays(ident, newKey, password, items, vault);
  }

  lemma KeyStays(ident: Ident, key: nat, password: string, items: seq<Item>, vault: Body)
    requires Described(items) && Digests(ident)
    ensures var made := Rekeyed(ident, key, password, items, vault);
            && KEY in made && made[KEY] == KeyFile(password, key) && VAULT in made && made[VAULT] == Sealed(key, vault)
  {
    StoredKey(ident, key, map[KEY := KeyFile(password, key)], items);
  }

  lemma {:induction false} StoredKey(ident: Ident, key: nat, folder: Folder, items: seq<Item>)
    requires Described(items) && Digests(ident) && KEY in folder
    ensures KEY in Stored(ident, key, folder, items) && Stored(ident, key, folder, items)[KEY] == folder[KEY]
  {
    hide ItemFile, Digests;
    if items != [] {
      StoredKey(ident, key, folder, items[..|items| - 1]);
      NotReserved(ident, items[|items| - 1].metadata.value);
    }
  }

  /** The directory kept as the backup is neither the active one nor the older backup that is removed. */
  lemma BackupKept(name: string, n: nat, m: nat)
    ensures BackupName(name, n) != name && (BackupName(name, n) == BackupName(name, m) <==> n == m)
  {
    var prefix := name + ".v";
    assert BackupName(name, n)[|prefix|..] == Itoa(n) && BackupName(name, m)[|prefix|..] == Itoa(m);
    if n != m && Itoa(n) == Itoa(m) {
      ItoaInjective(n, m);
    }
  }

  // ----- file names, item types and keys -----

  /** The file of an item with a digest of 64 hexadecimal digits as ID has the name of an item file. */
  lemma DigestFile(id: string)
    requires |id| == 64 && forall i | 0 <= i < 64 :: HexDigit(id[i])
    ensures ItemFileName(ItemFile(id)) && ItemFile(id)[..64] == id
  {
  }

  /** The number in a backup's name is the version. */
  lemma BackupNumber(name: string, n: nat)
    ensures name + ".v" <= BackupName(name, n) && Value(BackupName(name, n)[|name| + 2..]) == n
  {
    assert BackupName(name, n)[|name| + 2..] == Itoa(n);
    ItoaValue(n);
  }

  /** An item can be loaded exactly if it is a note, password, login or SSH key: the four flags after the first. */
  lemma KnownTypes(t: ItemType)
    ensures Known(t) <==> t.code in {1 * 2, 1 * 2 * 2, 1 * 2 * 2 * 2, 1 * 2 * 2 * 2 * 2}
  {
  }

  /** An item is opened exactly if its file can be read and was sealed with the key; what it yields is what was sealed. */
  lemma OpensExact(ident: Ident, folder: Folder, key: nat, unloadable: set<string>, m: Metadata)
    ensures CanLoad(ident, folder, key, unloadable, m) <==>
              && Known(m.kind) && ItemFile(MetadataId(ident, m)) !in unloadable
              && exists item :: Get(folder, ItemFile(MetadataId(ident, m))) == Some(Sealed(key, ItemBody(item)))
    ensures forall item | CanLoad(ident, folder, key, unloadable, m)
                          && Get(folder, ItemFile(MetadataId(ident, m))) == Some(Sealed(key, ItemBody(item))) ::
              Loaded(ident, folder, m) == item
  {
    hide Known, ItemFile, MetadataId;
    if CanLoad(ident, folder, key, unloadable, m) {
      assert Get(folder, ItemFile(MetadataId(ident, m))) == Some(Sealed(key, ItemBody(Loaded(ident, folder, m))));
    }
  }

  /** After a change no item can be loaded with the old key. */
  lemma OldKeyUseless(ident: Ident, items: seq<Item>, oldKey: nat, newKey: nat, password: string, vault: Body, m: Metadata)
    requires Described(items) && Digests(ident) && oldKey != newKey
    ensures !CanLoad(ident, Rekeyed(ident, newKey, password, items, vault), oldKey, {}, m)
  {
    hide Known, ItemFile, Stored, Digests, MetadataId, Claimant;
    var id := MetadataId(ident, m);
    StoredClaimant(ident, newKey, map[KEY := KeyFile(password, newKey)], items, id);
    NotReserved(ident, m);
    assert Get(map[KEY := KeyFile(password, newKey)], ItemFile(id)) == None;
  }

  lemma MovedAwayIs(before: map<string, Folder>, active: string, backup: string, d: string)
    requires active in before && active != backup
    ensures Get(MovedAway(before, active, backup), d)
         == if d == active then None else if d == backup then Some(before[active]) else Get(before, d)
  {
  }
}
