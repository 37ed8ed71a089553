/**
 The vault catalogue kept by the CatalogueManager (internal/config/catalogue.go:38-110) and its update after a vault
 has been received (internal/sync/service.go:716-750). The hash chain below it is a stored catalogue whose checksums
 are opaque.
 */
module ChainCatalogue {
  import opened Results
  import opened Entries
  import opened FileNames
  import opened CatalogueStore

  /** The entry of a received vault: the remote entry's metadata over the local entry, if there is one. */
  function Received(e: Option<VaultEntry>, r: VaultEntry, name: string, root: string): VaultEntry {
    var base := match e
      case None => VaultEntry(name, 0, Location(root, name), "", r.created, ZERO_TIME, ZERO_TIME, 0, "")
      case Some(e) => e;
    base.(version := r.version, chainCS := r.chainCS, fingerprint := r.fingerprint, modified := r.modified,
          itemCount := r.itemCount)
  }

  /** A catalogue after the named vaults have been received from a peer with catalogue remote. */
  function Pulled(local: Catalogue, remote: Catalogue, names: set<string>, root: string): Catalogue {
    map n | n in local.Keys + (names * remote.Keys) ::
      if n in names && n in remote then Received(Get(local, n), remote[n], n, root) else local[n]
  }

  lemma PulledStep(local: Catalogue, remote: Catalogue, names: set<string>, root: string, n: string)
    requires n !in names
    ensures Pulled(local, remote, {}, root) == local
    ensures n in remote ==>
              Pulled(local, remote, names + {n}, root)
              == Pulled(local, remote, names, root)[n := Received(Get(Pulled(local, remote, names, root), n), remote[n], n, root)]
    ensures n !in remote ==> Pulled(local, remote, names + {n}, root) == Pulled(local, remote, names, root)
  {
  }

  /** The entry for a vault that was stored or unlocked, stamped with the checksum of the chain. */
  function StampedEntry(e: Option<VaultEntry>, v: Vault, root: string, now: Time, checksum: string): VaultEntry {
    Refreshed(e, v, root, now).(chainCS := checksum)
  }

  class CatalogueManager {
    var stored: Catalogue

    constructor (c: Catalogue)
      ensures stored == c
    {
      stored := c;
    }

    /** checksum is the one that StoreCatalogue returns for the chain entry it appends. */
    method UpdateVaultEntry(v: Vault, root: string, now: Time, checksum: string)
      modifies this
      ensures stored == old(stored)[v.name := StampedEntry(Get(old(stored), v.name), v, root, now, checksum)]
    {
      stored := UpdateVaultCatalogue(stored, v, root, now);
      stored := stored[v.name := stored[v.name].(chainCS := checksum)];
    }

    /** updateCatalogueAfterReceive on the CatalogueManager path. */
    method UpdateCatalogueAfterReceive(remote: Catalogue, name: string, root: string) returns (ok: bool)
      modifies this
      ensures ok <==> name in remote
      ensures stored == if name in remote
                        then old(stored)[name := Received(Get(old(stored), name), remote[name], name, root)]
                        else old(stored)
    {
      if name !in remote {
        return false;
      }
      var r := remote[name];
      var entry: VaultEntry;
      if name in stored {
        entry := stored[name];
      } else {
        entry := VaultEntry(name, 0, Location(root, name), "", r.created, ZERO_TIME, ZERO_TIME, 0, "");
      }
      entry := entry.(version := r.version);
      entry := entry.(chainCS := r.chainCS);
      entry := entry.(fingerprint := r.fingerprint);
      entry := entry.(modified := r.modified);
      entry := entry.(itemCount := r.itemCount);
      stored := stored[name := entry];
      return true;
    }

    /** The updates made by the receive loop of a session. */
    method UpdateAll(remote: Catalogue, names: seq<string>, root: string)
      requires forall i, j | 0 <= i < j < |names| :: names[i] != names[j]
      modifies this
      ensures stored == Pulled(old(stored), remote, Names(names), root)
    {
      hide Pulled, Received;
      ghost var before := stored;
      PulledStep(before, remote, {}, root, "");
      assert Names(names[..0]) == {};
      for i := 0 to |names|
        invariant stored == Pulled(before, remote, Names(names[..i]), root)
      {
        ghost var done := Names(names[..i]);
        assert names[i] !in done;
        PulledStep(before, remote, done, root, names[i]);
        assert Names(names[..i + 1]) == done + {names[i]} by {
          assert names[..i + 1] == names[..i] + [names[i]];
        }
        var _ := UpdateCatalogueAfterReceive(remote, names[i], root);
      }
      assert names[..|names|] == names;
    }
  }

  /** A received entry has the remote metadata, and of a local entry its name, place, creation and unlock time. */
  lemma ReceivedMeans(e: Option<VaultEntry>, r: VaultEntry, name: string, root: string)
    ensures var x := Received(e, r, name, root);
            && x.version == r.version && x.chainCS == r.chainCS && x.fingerprint == r.fingerprint
            && x.modified == r.modified && x.itemCount == r.itemCount
            && (e.Some? ==>
                  && x.name == e.value.name && x.location == e.value.location && x.created == e.value.created
                  && x.lastUnlocked == e.value.lastUnlocked)
            && (e.None? ==>
                  && x.name == name && x.location == root + "/storage/" + name && x.created == r.created
                  && x.lastUnlocked == ZERO_TIME)
  {
  }

  /** An entry stamped with a checksum is the refreshed one in every other field. */
  lemma StampedMeans(e: Option<VaultEntry>, v: Vault, root: string, now: Time, checksum: string)
    ensures var s, r := StampedEntry(e, v, root, now, checksum), Refreshed(e, v, root, now);
            && s.chainCS == checksum && s.name == r.name && s.version == r.version && s.location == r.location
            && s.fingerprint == r.fingerprint && s.created == r.created && s.modified == r.modified
            && s.lastUnlocked == r.lastUnlocked && s.itemCount == r.itemCount
  {
  }
}
