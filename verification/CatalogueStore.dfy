/**
 The vault catalogue kept in the application state (internal/usm/storage.go:233-272 and 320-370,
 internal/usm/vault_catalogue.go, internal/usm/storage_os.go:361-374): every store merges what is on the disk with
 what is being stored, entry by entry, by recency.
 */
module CatalogueStore {
  import opened Results
  import opened Entries

  /** A catalogue as decoded from JSON: entries may be null. */
  type Nullable = map<string, Option<VaultEntry>>

  function Max(a: Time, b: Time): Time {
    if b > a then b else a
  }

  /** catalogueEntryRecency */
  function Recency(e: Option<VaultEntry>): Time {
    match e
    case None => ZERO_TIME
    case Some(e) => Max(Max(e.modified, e.created), e.lastUnlocked)
  }

  // ----- the merge -----

  predicate Real(c: Nullable, n: string) {
    n in c && c[n].Some?
  }

  /** Whether the stored entry replaces the incoming one: only when it is strictly more recent. */
  predicate StoredWins(current: Nullable, incoming: Nullable, n: string) {
    Real(current, n) && (n !in incoming || Recency(current[n]) > Recency(incoming[n]))
  }

  function Joined(current: Nullable, incoming: Nullable): Nullable {
    map n | n in current.Keys + incoming.Keys && (n in incoming || StoredWins(current, incoming, n)) ::
      if StoredWins(current, incoming, n) then current[n] else incoming[n]
  }

  function Merged(current: Option<Nullable>, incoming: Option<Nullable>): Option<Nullable> {
    if current.None? then incoming
    else Some(Joined(current.value, if incoming.None? then map[] else incoming.value))
  }

  method MergeCatalogueEntries(current: Option<Nullable>, incoming: Option<Nullable>) returns (merged: Option<Nullable>)
    ensures merged == Merged(current, incoming)
  {
    if current.None? {
      return incoming;
    }
    hide Joined, Recency;
    var start: Nullable := if incoming.None? then map[] else incoming.value;
    merged := Some(start);
    var todo := current.value.Keys;
    JoinedEnds(current.value, start);
    while todo != {}
      invariant todo <= current.value.Keys && merged == Some(Joined(current.value - todo, start))
      decreases |todo|
    {
      var name :| name in todo;
      JoinedStep(current.value, todo, name, start);
      todo := todo - {name};
      var entry := current.value[name];
      if entry.None? {
        continue;
      }
      if name !in merged.value || Recency(entry) > Recency(merged.value[name]) {
        merged := Some(merged.value[name := entry]);
      }
    }
    assert current.value - todo == current.value;
  }

  lemma JoinedEnds(current: Nullable, start: Nullable)
    ensures Joined(current - current.Keys, start) == start
  {
  }

  lemma JoinedStep(current: Nullable, todo: set<string>, name: string, start: Nullable)
    requires name in todo && todo <= current.Keys
    ensures (var before := Joined(current - todo, start);
             Joined(current - (todo - {name}), start)
             == if current[name].Some? && (name !in before || Recency(current[name]) > Recency(before[name]))
                then before[name := current[name]] else before)
  {
    hide Recency;
    var before, after := Joined(current - todo, start), Joined(current - (todo - {name}), start);
    assert name in before <==> name in start;
    forall n | n != name
      ensures n in after <==> n in before
      ensures n in after ==> after[n] == before[n]
    {
      assert n in current - todo <==> n in current - (todo - {name});
    }
  }

  /** The merge is a join: it keeps every real name, and each entry is the more recent of the two. */
  lemma MergeIsJoin(current: Nullable, incoming: Nullable, n: string)
    ensures Real(current, n) ==> n in Joined(current, incoming)
    ensures n in incoming ==> n in Joined(current, incoming)
    ensures n in Joined(current, incoming) ==>
              var e := Joined(current, incoming)[n];
              && (n in current ==> Recency(e) >= Recency(current[n]) || !Real(current, n))
              && (n in incoming ==> Recency(e) >= Recency(incoming[n]))
              && ((n in current && e == current[n]) || (n in incoming && e == incoming[n]))
    ensures Real(current, n) && Recency(current[n]) > ZERO_TIME ==> Real(Joined(current, incoming), n)
  {
  }

  function StoreRun(stored: Option<Nullable>, incoming: seq<Option<Nullable>>): Option<Nullable> {
    if incoming == [] then stored
    else Merged(StoreRun(stored, incoming[..|incoming| - 1]), incoming[|incoming| - 1])
  }

  /** No catalogue that is stored has a null entry for the vault. */
  predicate NeverNull(incoming: seq<Option<Nullable>>, n: string) {
    forall i | 0 <= i < |incoming| :: incoming[i].Some? && n in incoming[i].value ==> incoming[i].value[n].Some?
  }

  /**
   Over any run of stores no vault entry disappears or becomes less recent: a dated entry whatever the catalogues, an
   undated one if none of them has a null entry for the vault.
   */
  lemma {:induction false} StoresKeepEntries(stored: Nullable, incoming: seq<Option<Nullable>>, n: string)
    requires Real(stored, n) && (Recency(stored[n]) > ZERO_TIME || NeverNull(incoming, n))
    ensures var r := StoreRun(Some(stored), incoming);
            r.Some? && Real(r.value, n) && Recency(r.value[n]) >= Recency(stored[n])
  {
    if incoming != [] {
      var m := |incoming| - 1;
      StoresKeepEntries(stored, incoming[..m], n);
      var before := StoreRun(Some(stored), incoming[..m]).value;
      var next := if incoming[m].None? then map[] else incoming[m].value;
      MergeIsJoin(before, next, n);
      if Recency(before[n]) <= ZERO_TIME {
        assert incoming[m].Some? && n in incoming[m].value ==> incoming[m].value[n].Some?;
      }
    }
  }

  /** A null entry that comes in drops an undated one, and the next store without the vault drops the name. */
  lemma NullDropsUndated(stored: Nullable, n: string)
    requires Real(stored, n) && Recency(stored[n]) <= ZERO_TIME
    ensures n !in StoreRun(Some(stored), [Some(map[n := None]), Some(map[])]).value
  {
    var first: Option<Nullable> := Some(map[n := None]);
    var second: Option<Nullable> := Some(map[]);
    assert [first, second][..1] == [first] && [first][..0] == [];
    assert StoreRun(Some(stored), [first]) == Merged(Some(stored), first);
  }

  // ----- the version counter -----

  /** What UpdateVaultCatalogue reads from a vault. */
  datatype Vault = Vault(name: string, created: Time, modified: Time, fingerprint: string, size: int)

  function Location(root: string, name: string): string {
    root + "/storage/" + name
  }

  /** The entry for v after UpdateVaultCatalogue, given the entry before, if any. */
  function Refreshed(e: Option<VaultEntry>, v: Vault, root: string, now: Time): VaultEntry {
    var base := match e
      case None =>
        VaultEntry(v.name, 1, Location(root, v.name), "", if v.created == ZERO_TIME then now else v.created,
                   ZERO_TIME, ZERO_TIME, 0, "")
      case Some(e) =>
        if v.modified != ZERO_TIME && e.modified != v.modified then e.(version := e.version + 1) else e;
    base.(fingerprint := v.fingerprint, modified := if v.modified == ZERO_TIME then now else v.modified,
          itemCount := v.size)
  }

  /** What a refresh changes and what it leaves alone. */
  lemma RefreshedMeans(e: Option<VaultEntry>, v: Vault, root: string, now: Time)
    ensures var r := Refreshed(e, v, root, now);
            && r.fingerprint == v.fingerprint && r.itemCount == v.size
            && (r.modified == v.modified || (v.modified == ZERO_TIME && r.modified == now))
            && (e.Some? ==>
                  && r.name == e.value.name && r.location == e.value.location && r.created == e.value.created
                  && r.lastUnlocked == e.value.lastUnlocked && r.chainCS == e.value.chainCS
                  && (r.version == e.value.version <==> v.modified == ZERO_TIME || v.modified == e.value.modified)
                  && e.value.version <= r.version <= e.value.version + 1)
            && (e.None? ==>
                  && r.name == v.name && r.version == 1 && r.chainCS == "" && r.lastUnlocked == ZERO_TIME
                  && r.location == root + "/storage/" + v.name
                  && (r.created == v.created || (v.created == ZERO_TIME && r.created == now)))
  {
  }

  method UpdateVaultCatalogue(catalogue: Catalogue, v: Vault, root: string, now: Time) returns (updated: Catalogue)
    ensures updated == catalogue[v.name := Refreshed(Get(catalogue, v.name), v, root, now)]
  {
    updated := catalogue;
    var entry: VaultEntry;
    if v.name !in updated {
      entry := VaultEntry(v.name, 1, Location(root, v.name), "", v.created, ZERO_TIME, ZERO_TIME, 0, "");
      if entry.created == ZERO_TIME {
        entry := entry.(created := now);
      }
    } else {
      entry := updated[v.name];
      if v.modified != ZERO_TIME && entry.modified != v.modified {
        entry := entry.(version := entry.version + 1);
      }
    }
    entry := entry.(fingerprint := v.fingerprint);
    entry := entry.(modified := v.modified);
    if entry.modified == ZERO_TIME {
      entry := entry.(modified := now);
    }
    entry := entry.(itemCount := v.size);
    updated := updated[v.name := entry];
  }

  function Lift(c: Catalogue): Nullable {
    map n | n in c :: Some(c[n])
  }

  /** The merge of two catalogues without null entries. */
  function Join(current: Catalogue, incoming: Catalogue): Catalogue {
    map n | n in current.Keys + incoming.Keys ::
      if n !in incoming then current[n]
      else if n in current && Recency(Some(current[n])) > Recency(Some(incoming[n])) then current[n]
      else incoming[n]
  }

  lemma JoinLifts(current: Catalogue, incoming: Catalogue)
    ensures Joined(Lift(current), Lift(incoming)) == Lift(Join(current, incoming))
  {
  }

  lemma JoinEmpty(c: Catalogue)
    ensures Join(map[], c) == c
  {
  }

  function Unlocked(e: VaultEntry, at: Option<Time>): VaultEntry {
    if at.None? then e else e.(lastUnlocked := at.value)
  }

  /** The catalogue on the disk after persistVaultCatalogue, for a store (at is None) or an unlock at a given time. */
  function Persisted(c: Catalogue, v: Vault, root: string, now: Time, at: Option<Time>): Catalogue {
    Join(c, c[v.name := Unlocked(Refreshed(Get(c, v.name), v, root, now), at)])
  }

  class AppStore {
    var stored: Option<Nullable>

    constructor (c: Catalogue)
      ensures stored == Some(Lift(c))
    {
      stored := Some(Lift(c));
    }

    method StoreAppState(incoming: Option<Nullable>)
      modifies this
      ensures stored == Merged(old(stored), incoming)
    {
      stored := MergeCatalogueEntries(stored, incoming);
    }

    /**
     persistVaultCatalogue; a missing catalogue counts as empty, and an entry of the vault itself that is null would be
     dereferenced. Entries of other vaults may be null.
     */
    method PersistVaultCatalogue(v: Vault, root: string, now: Time, at: Option<Time>) returns (ok: bool)
      requires v.name != "" && stored.Some? && v.name in stored.value ==> stored.value[v.name].Some?
      modifies this
      ensures ok <==> v.name != ""
      ensures !ok ==> stored == old(stored)
      ensures var c := Present(old(stored));
              ok ==> stored == Some(Joined(c, c[v.name := Some(Unlocked(Refreshed(Entry(c, v.name), v, root, now), at))]))
    {
      hide Recency, Refreshed;
      if v.name == "" {
        return false;
      }
      var current := Present(stored);
      var own: Catalogue := if Real(current, v.name) then map[v.name := current[v.name].value] else map[];
      own := UpdateVaultCatalogue(own, v, root, now);
      if at.Some? {
        own := own[v.name := own[v.name].(lastUnlocked := at.value)];
      }
      var updated := current[v.name := Some(own[v.name])];
      StoreAppState(Some(updated));
      FirstStore(updated);
      return true;
    }
  }

  function Present(stored: Option<Nullable>): Nullable {
    if stored.None? then map[] else stored.value
  }

  function Entry(c: Nullable, n: string): Option<VaultEntry> {
    if n in c then c[n] else None
  }

  lemma FirstStore(c: Nullable)
    ensures Joined(map[], c) == c
  {
  }

  /** On catalogues without null entries a store or unlock leaves what Persisted says. */
  lemma PersistedLifts(c: Catalogue, v: Vault, root: string, now: Time, at: Option<Time>)
    ensures var e := Unlocked(Refreshed(Get(c, v.name), v, root, now), at);
            Joined(Lift(c), Lift(c)[v.name := Some(e)]) == Lift(Persisted(c, v, root, now, at))
    ensures Entry(Lift(c), v.name) == Get(c, v.name) && Present(Some(Lift(c))) == Lift(c)
  {
    hide Joined, Join, Refreshed;
    var updated := c[v.name := Unlocked(Refreshed(Get(c, v.name), v, root, now), at)];
    assert Lift(c)[v.name := Some(updated[v.name])] == Lift(updated);
    JoinLifts(c, updated);
  }

  // ----- runs of stores -----

  /** What happens to the stored catalogue: a vault is stored or unlocked, or an earlier copy is stored again. */
  datatype Event =
    | Persist(v: Vault, now: Time, at: Option<Time>)
    | StoreCopy(index: nat)

  /** history holds the catalogue after each event so far, the current one last. */
  function Next(history: seq<Catalogue>, e: Event, root: string): Catalogue
    requires history != [] && (e.StoreCopy? ==> e.index < |history|)
  {
    var current := history[|history| - 1];
    match e
    case Persist(v, now, at) => Persisted(current, v, root, now, at)
    case StoreCopy(i) => Join(current, history[i])
  }

  /** A stamp is the recorded one, or it is later than everything recorded for its vault. */
  predicate Stamped(current: Catalogue, e: Event) {
    e.Persist? ==>
      && e.v.modified != ZERO_TIME
      && (e.v.name in current ==>
            e.v.modified == current[e.v.name].modified || e.v.modified > Recency(Some(current[e.v.name])))
  }

  /** The event changes the modification stamp recorded for vault n. */
  predicate Changes(current: Catalogue, e: Event, n: string) {
    e.Persist? && e.v.name == n && n in current && current[n].modified != e.v.modified
  }

  /** earlier was stored before current: everything in it is still there, at most as recent and as new. */
  predicate Precedes(earlier: Catalogue, current: Catalogue) {
    forall n | n in earlier ::
      && n in current
      && Recency(Some(earlier[n])) <= Recency(Some(current[n])) && earlier[n].version <= current[n].version
      && (Recency(Some(earlier[n])) == Recency(Some(current[n])) ==>
            earlier[n].version == current[n].version && earlier[n].modified == current[n].modified)
  }

  ghost predicate Ordered(history: seq<Catalogue>) {
    history != [] && forall i | 0 <= i < |history| :: Precedes(history[i], history[|history| - 1])
  }

  ghost predicate Run(history: seq<Catalogue>, events: seq<Event>, root: string) {
    |history| == |events| + 1 && forall i: nat | i < |events| :: StepAt(history, events, root, i)
  }

  predicate StepAt(history: seq<Catalogue>, events: seq<Event>, root: string, i: nat)
    requires i < |events| && |history| == |events| + 1
  {
    && (events[i].StoreCopy? ==> events[i].index <= i)
    && Stamped(history[i], events[i])
    && history[i + 1] == Next(history[..i + 1], events[i], root)
  }

  lemma PersistKeepsVersions(current: Catalogue, e: Event, root: string)
    requires e.Persist? && Stamped(current, e)
    ensures Precedes(current, Persisted(current, e.v, root, e.now, e.at))
    ensures forall n | n in current ::
              Persisted(current, e.v, root, e.now, e.at)[n].version
              == current[n].version + (if Changes(current, e, n) then 1 else 0)
  {
    var next := Persisted(current, e.v, root, e.now, e.at);
    var entry := Unlocked(Refreshed(Get(current, e.v.name), e.v, root, e.now), e.at);
    if e.v.name in current {
      assert next[e.v.name] == entry || next[e.v.name] == current[e.v.name];
    }
  }

  lemma CopyKeepsVersions(current: Catalogue, copy: Catalogue)
    requires Precedes(copy, current)
    ensures Precedes(current, Join(current, copy))
    ensures forall n | n in current :: Join(current, copy)[n].version == current[n].version
  {
  }

  lemma StepKeepsVersions(history: seq<Catalogue>, e: Event, root: string)
    requires Ordered(history) && (e.StoreCopy? ==> e.index < |history|)
    requires Stamped(history[|history| - 1], e)
    ensures var current := history[|history| - 1];
            var next := Next(history, e, root);
            && Precedes(current, next)
            && forall n | n in current ::
                 n in next && next[n].version == current[n].version + (if Changes(current, e, n) then 1 else 0)
  {
    hide Persisted, Recency, Join;
    var current := history[|history| - 1];
    match e
    case Persist(_, _, _) => PersistKeepsVersions(current, e, root);
    case StoreCopy(i) => CopyKeepsVersions(current, history[i]);
  }

  lemma PrecedesTransitive(a: Catalogue, b: Catalogue, c: Catalogue)
    requires Precedes(a, b) && Precedes(b, c)
    ensures Precedes(a, c)
  {
  }

  lemma RunPrefix(history: seq<Catalogue>, events: seq<Event>, root: string, m: nat)
    requires Run(history, events, root) && m <= |events|
    ensures Run(history[..m + 1], events[..m], root)
  {
    hide Next, Stamped;
    var h, es := history[..m + 1], events[..m];
    forall i: nat | i < m
      ensures StepAt(h, es, root, i)
    {
      assert h[..i + 1] == history[..i + 1];
      assert StepAt(history, events, root, i);
    }
  }

  lemma {:induction false} RunOrdered(history: seq<Catalogue>, events: seq<Event>, root: string)
    requires Run(history, events, root)
    ensures Ordered(history)
  {
    hide Next, Stamped, Precedes;
    var m := |events|;
    if m == 0 {
      PrecedesReflexive(history[0]);
    } else {
      var before := history[..m];
      RunPrefix(history, events, root, m - 1);
      RunOrdered(before, events[..m - 1], root);
      assert StepAt(history, events, root, m - 1);
      StepKeepsVersions(before, events[m - 1], root);
      forall i | 0 <= i < |history|
        ensures Precedes(history[i], history[m])
      {
        if i < m {
          assert Precedes(before[i], before[m - 1]);
          PrecedesTransitive(history[i], history[m - 1], history[m]);
        } else {
          PrecedesReflexive(history[m]);
        }
      }
    }
  }

  lemma PrecedesReflexive(a: Catalogue)
    ensures Precedes(a, a)
  {
  }

  /**
   Over any run, also one that stores earlier copies again, a vault's stored version rises by one at each event that
   changes its modification stamp and stays the same at every other.
   */
  lemma VersionStep(history: seq<Catalogue>, events: seq<Event>, root: string, i: nat, n: string)
    requires Run(history, events, root) && i < |events| && n in history[i]
    ensures n in history[i + 1]
    ensures history[i + 1][n].version
         == history[i][n].version + (if Changes(history[i], events[i], n) then 1 else 0)
  {
    hide Next, Stamped, Precedes;
    RunPrefix(history, events, root, i);
    RunOrdered(history[..i + 1], events[..i], root);
    assert StepAt(history, events, root, i);
    StepKeepsVersions(history[..i + 1], events[i], root);
  }

  /** How many of the events from number i on change the modification stamp of vault n. */
  function ChangesFrom(history: seq<Catalogue>, events: seq<Event>, i: nat, n: string): nat
    requires |history| == |events| + 1 && i <= |events|
    decreases |events| - i
  {
    if i == |events| then 0
    else (if Changes(history[i], events[i], n) then 1 else 0) + ChangesFrom(history, events, i + 1, n)
  }

  /** The version counter counts: between any two points of a run it grows by the number of changed stamps. */
  lemma {:induction false} VersionCounts(history: seq<Catalogue>, events: seq<Event>, root: string, i: nat, n: string)
    requires Run(history, events, root) && i <= |events| && n in history[i]
    ensures n in history[|events|]
    ensures history[|events|][n].version == history[i][n].version + ChangesFrom(history, events, i, n)
    decreases |events| - i
  {
    hide Run, Changes;
    if i < |events| {
      RunLength(history, events, root);
      VersionStep(history, events, root, i, n);
      VersionCounts(history, events, root, i + 1, n);
    }
  }

  lemma RunLength(history: seq<Catalogue>, events: seq<Event>, root: string)
    requires Run(history, events, root)
    ensures |history| == |events| + 1
  {
  }

  // ----- unlocking -----

  /** An unlock later than everything recorded stamps the entry with its time. */
  lemma UnlockStored(c: Catalogue, v: Vault, root: string, now: Time, at: Time)
    requires v.name in c && at > Recency(Some(c[v.name])) && v.modified == c[v.name].modified && v.modified != ZERO_TIME
    ensures var d := Persisted(c, v, root, now, Some(at));
            && d.Keys == c.Keys && (forall n | n in c && n != v.name :: d[n] == c[n])
            && d[v.name].lastUnlocked == at && Recency(Some(d[v.name])) == at
            && d[v.name].version == c[v.name].version && d[v.name].modified == c[v.name].modified
            && d[v.name].created == c[v.name].created && d[v.name].chainCS == c[v.name].chainCS
            && d[v.name].itemCount == v.size && d[v.name].fingerprint == v.fingerprint
  {
  }

  /** A store leaves the unlock time alone. */
  lemma StoreKeepsUnlock(c: Catalogue, v: Vault, root: string, now: Time)
    requires v.name in c
    ensures v.name in Persisted(c, v, root, now, None)
    ensures Persisted(c, v, root, now, None)[v.name].lastUnlocked == c[v.name].lastUnlocked
  {
  }

  /** The recency of an entry is the latest of its three times. */
  lemma RecencyIs(e: VaultEntry, t: Time)
    ensures Recency(Some(e)) <= t <==> e.modified <= t && e.created <= t && e.lastUnlocked <= t
    ensures Recency(None) == ZERO_TIME
  {
  }

  /** Entry by entry, the stored one stays exactly if it is strictly more recent or the incoming catalogue lacks the name. */
  lemma MergeExact(current: Nullable, incoming: Nullable, n: string)
    ensures n in incoming && (!Real(current, n) || Recency(current[n]) <= Recency(incoming[n])) ==>
              Entry(Joined(current, incoming), n) == incoming[n] && n in Joined(current, incoming)
    ensures Real(current, n) && (n !in incoming || Recency(current[n]) > Recency(incoming[n])) ==>
              Entry(Joined(current, incoming), n) == current[n]
    ensures n in Joined(current, incoming) <==> n in incoming || Real(current, n)
  {
  }
}
