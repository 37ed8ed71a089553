/**
 What a second negotiation finds after an error-free session: the CatalogueManager path converges
 (internal/sync/service.go:716-750), the usm.json path converges exactly under a condition on the two entries
 (internal/sync/service.go:752-779).
 */
module Convergence {
  import opened Results
  import opened Entries
  import opened Negotiation
  import opened CatalogueStore
  import opened ChainCatalogue

  /** The vaults that a plan moves in one direction. */
  function Moved(plan: Plan, d: Direction): set<string> {
    set n | n in Directions(plan.auto) && Directions(plan.auto)[n] == d
  }

  /** A received entry is in sync with the entry it was received from, in both modes and seen from both sides. */
  lemma ReceivedInSync(e: Option<VaultEntry>, r: VaultEntry, name: string, root: string, strict: bool)
    ensures Judge(Some(Received(e, r, name, root)), Some(r), strict) == InSync
    ensures Judge(Some(r), Some(Received(e, r, name, root)), strict) == InSync
  {
  }

  /** After the session the transferred vaults are in sync in any mode; the verdict on every other vault is unchanged. */
  lemma VerdictAfter(l: Catalogue, r: Catalogue, strict: bool, p: Plan, lRoot: string, rRoot: string, mode: bool, n: string)
    requires IsPlan(l, r, strict, p)
    ensures VerdictOn(Pulled(l, r, Moved(p, Pull), lRoot), Pulled(r, l, Moved(p, Push), rRoot), mode, n)
         == if VerdictOn(l, r, strict, n).Send? then InSync else VerdictOn(l, r, mode, n)
  {
    hide Judge, Directions, Received, PlanOn;
    PlanDirections(l, r, strict, p);
    SendSource(Get(l, n), Get(r, n), strict);
    var v := VerdictOn(l, r, strict, n);
    if v.Send? && v.direction == Pull {
      assert n in Moved(p, Pull) && n !in Moved(p, Push);
      ReceivedInSync(Get(l, n), r[n], n, lRoot, mode);
    } else if v.Send? {
      assert n in Moved(p, Push) && n !in Moved(p, Pull);
      ReceivedInSync(Get(r, n), l[n], n, rRoot, mode);
    } else {
      assert n !in Moved(p, Push) && n !in Moved(p, Pull);
    }
  }

  lemma SendSource(l: Option<VaultEntry>, r: Option<VaultEntry>, strict: bool)
    ensures var v := Judge(l, r, strict);
            v.Send? ==> (v.direction == Pull && r.Some?) || (v.direction == Push && l.Some?)
  {
  }

  /**
   Convergence: after an error-free session, negotiating again in the same mode transfers nothing and reports exactly
   the conflicts of the first plan.
   */
  lemma Converges(l: Catalogue, r: Catalogue, strict: bool, p: Plan, lRoot: string, rRoot: string, q: Plan)
    requires IsPlan(l, r, strict, p)
    requires IsPlan(Pulled(l, r, Moved(p, Pull), lRoot), Pulled(r, l, Moved(p, Push), rRoot), strict, q)
    ensures q.auto == [] && ConflictNames(q.conflicts) == ConflictNames(p.conflicts)
  {
    hide Judge, Directions, Pulled, Moved;
    var l2, r2 := Pulled(l, r, Moved(p, Pull), lRoot), Pulled(r, l, Moved(p, Push), rRoot);
    PlanDirections(l, r, strict, p);
    PlanDirections(l2, r2, strict, q);
    forall n
      ensures n !in Directions(q.auto)
      ensures n in ConflictNames(q.conflicts) <==> n in ConflictNames(p.conflicts)
    {
      VerdictAfter(l, r, strict, p, lRoot, rRoot, strict, n);
    }
    NoDirections(q.auto);
  }

  lemma NoDirections(auto: seq<VaultTransfer>)
    requires forall n :: n !in Directions(auto)
    ensures auto == []
  {
    if auto != [] {
      DirectionsNames(auto, auto[0].vaultName);
    }
  }

  // ----- the legacy path -----

  /** The entry that the usm.json path stores for a received vault: the checksum is not copied. */
  function LegacyReceived(e: Option<VaultEntry>, r: VaultEntry, name: string, root: string): VaultEntry {
    var base := match e
      case None => VaultEntry(name, 0, Location(root, name), "", r.created, ZERO_TIME, ZERO_TIME, 0, "")
      case Some(e) => e;
    base.(version := r.version, fingerprint := r.fingerprint, modified := r.modified, itemCount := r.itemCount)
  }

  function LegacyPulled(local: Catalogue, r: VaultEntry, name: string, root: string): Catalogue {
    Join(local, local[name := LegacyReceived(Get(local, name), r, name, root)])
  }

  /** updateCatalogueAfterReceive without a CatalogueManager; a missing catalogue counts as empty. */
  method LegacyUpdateAfterReceive(store: AppStore, c: Catalogue, remote: Catalogue, name: string, root: string)
      returns (ok: bool)
    requires store.stored == Some(Lift(c)) || (store.stored == None && c == map[])
    modifies store
    ensures ok <==> name in remote
    ensures !ok ==> store.stored == old(store.stored)
    ensures ok ==> store.stored == Some(Lift(LegacyPulled(c, remote[name], name, root)))
  {
    hide Joined, Join;
    if name !in remote {
      return false;
    }
    var r := remote[name];
    var entry: VaultEntry;
    if name in c {
      entry := c[name];
    } else {
      entry := VaultEntry(name, 0, Location(root, name), "", r.created, ZERO_TIME, ZERO_TIME, 0, "");
    }
    entry := entry.(version := r.version);
    entry := entry.(fingerprint := r.fingerprint);
    entry := entry.(modified := r.modified);
    entry := entry.(itemCount := r.itemCount);
    var updated := c[name := entry];
    store.StoreAppState(Some(Lift(updated)));
    JoinLifts(c, updated);
    JoinEmpty(updated);
    return true;
  }

  /**
   On the legacy path a pulled vault is in sync afterwards exactly when it is new, or the merge keeps the received
   entry and not both entries carry a checksum. If the merge drops the received entry the same pull is planned again;
   if both carry a checksum the stale local one makes a conflict.
   */
  lemma LegacyExact(local: Catalogue, remote: Catalogue, strict: bool, name: string, root: string)
    requires VerdictOn(local, remote, strict, name) == Send(Pull)
    ensures var after := VerdictOn(LegacyPulled(local, remote[name], name, root), remote, strict, name);
            && (after == InSync <==>
                  name !in local ||
                  (&& local[name].modified <= Max(Max(remote[name].modified, local[name].created), local[name].lastUnlocked)
                   && (local[name].chainCS == "" || remote[name].chainCS == "")))
            && (after.Send? <==>
                  name in local
                  && local[name].modified > Max(Max(remote[name].modified, local[name].created), local[name].lastUnlocked))
            && (after.Send? ==> after == Send(Pull))
  {
  }

  /** On the legacy path a received entry has the remote metadata but its own checksum, or none if it is new. */
  lemma LegacyReceivedMeans(e: Option<VaultEntry>, r: VaultEntry, name: string, root: string)
    ensures var x, y := LegacyReceived(e, r, name, root), Received(e, r, name, root);
            && x.chainCS == (if e.Some? then e.value.chainCS else "")
            && x.(chainCS := y.chainCS) == y
  {
  }
}
