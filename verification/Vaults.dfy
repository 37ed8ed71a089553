/** The item index of a vault (internal/usm/vault.go:10-107): item metadata by type and then by ID. */
module Vaults {
  import opened Results
  import opened Entries

  /** A bit flag; any other code is passed through. */
  datatype ItemType = ItemType(code: int)

  datatype Metadata = Metadata(name: string, kind: ItemType, details: string)

  /** An item as decoded: without metadata if its text had none. */
  datatype Item = Item(metadata: Option<Metadata>, secret: string)

  /** Metadata.ID: a keyed digest of the type and the name. */
  type Ident = (ItemType, string) -> string

  function MetadataId(ident: Ident, m: Metadata): string {
    ident(m.kind, m.name)
  }

  type Index = map<ItemType, map<string, Metadata>>

  type Table = map<(ItemType, string), Metadata>

  /** The index as one table. */
  function Flat(items: Index): Table {
    map t, id | t in items && id in items[t] :: (t, id) := items[t][id]
  }

  function KeyOf(ident: Ident, m: Metadata): (ItemType, string) {
    (m.kind, MetadataId(ident, m))
  }

  lemma FlatIs(items: Index)
    ensures forall p :: p in Flat(items) <==> p.0 in items && p.1 in items[p.0]
    ensures forall p | p in Flat(items) :: Flat(items)[p] == items[p.0][p.1]
  {
    forall p: (ItemType, string)
      ensures p in Flat(items) <==> p.0 in items && p.1 in items[p.0]
    {
      assert p == (p.0, p.1);
      if p.0 in items && p.1 in items[p.0] {
        assert (p.0, p.1) in Flat(items);
      }
    }
  }

  lemma FlatAdd(items: Index, t: ItemType, id: string, m: Metadata)
    ensures var before := if t in items then items[t] else map[];
            Flat(items[t := before[id := m]]) == Flat(items)[(t, id) := m]
  {
    hide Flat;
    var before := if t in items then items[t] else map[];
    FlatIs(items);
    FlatIs(items[t := before[id := m]]);
  }

  lemma FlatRemove(items: Index, t: ItemType, id: string)
    ensures t in items ==> Flat(items[t := items[t] - {id}]) == Flat(items) - {(t, id)}
    ensures t !in items ==> Flat(items) - {(t, id)} == Flat(items)
  {
    hide Flat;
    FlatIs(items);
    if t in items {
      FlatIs(items[t := items[t] - {id}]);
    }
  }

  lemma FlatSize(items: Index, t: ItemType)
    requires t in items
    ensures |Flat(items)| == |items[t]| + |Flat(items - {t})|
  {
    hide Flat;
    var mine := set id | id in items[t] :: (t, id);
    PairCount(t, items[t].Keys, mine);
    FlatIs(items);
    FlatIs(items - {t});
    var rest := Flat(items - {t}).Keys;
    forall p: (ItemType, string)
      ensures p in Flat(items).Keys <==> p in mine + rest
    {
      assert p == (p.0, p.1);
    }
    assert Flat(items).Keys == mine + rest;
    assert mine !! rest;
  }

  lemma NothingFlat()
    ensures Flat(map[]) == map[]
  {
  }

  lemma PairCount(t: ItemType, ids: set<string>, pairs: set<(ItemType, string)>)
    requires pairs == set id | id in ids :: (t, id)
    ensures |pairs| == |ids|
    decreases |ids|
  {
    if ids != {} {
      var id :| id in ids;
      var fewer := set i | i in ids - {id} :: (t, i);
      PairCount(t, ids - {id}, fewer);
      assert pairs == fewer + {(t, id)};
    }
  }

  class Vault {
    const ident: Ident
    const key: nat
    const name: string
    var items: Index
    var colour: string
    var version: string
    var created: Time
    var modified: Time

    constructor NewVault(ident: Ident, key: nat, name: string, now: Time)
      ensures this.ident == ident && this.key == key && this.name == name && items == map[]
      ensures colour == "" && version == "" && created == now && modified == now
    {
      this.ident, this.key, this.name, items := ident, key, name, map[];
      colour, version, created, modified := "", "", now, now;
    }

    function Contents(): Table
      reads this`items
    {
      Flat(items)
    }

    method Size() returns (size: nat)
      ensures size == |Contents()|
    {
      hide Flat;
      size := 0;
      NothingFlat();
      var todo, types := items, items.Keys;
      while types != {}
        invariant size + |Flat(todo)| == |Flat(items)| && todo.Keys == types
        decreases |types|
      {
        var t :| t in types;
        FlatSize(todo, t);
        size := size + |todo[t]|;
        todo, types := todo - {t}, types - {t};
      }
      assert todo == map[];
    }

    method HasItem(item: Item) returns (has: bool)
      ensures has <==> item.metadata.Some? && KeyOf(ident, item.metadata.value) in Contents()
    {
      if item.metadata.None? {
        return false;
      }
      var meta := item.metadata.value;
      FlatIs(items);
      hide Flat;
      if meta.kind !in items {
        return false;
      }
      return MetadataId(ident, meta) in items[meta.kind];
    }

    method AddItem(item: Item, now: Time) returns (ok: bool)
      modifies this`items, this`modified
      ensures ok <==> item.metadata.Some?
      ensures !ok ==> items == old(items) && modified == old(modified)
      ensures ok ==>
                && Contents() == old(Contents())[KeyOf(ident, item.metadata.value) := item.metadata.value]
                && modified == now
    {
      if item.metadata.None? {
        return false;
      }
      var meta := item.metadata.value;
      FlatAdd(items, meta.kind, MetadataId(ident, meta), meta);
      hide Flat, MetadataId;
      var byType: map<string, Metadata> := map[];
      if meta.kind in items {
        byType := items[meta.kind];
      }
      items := items[meta.kind := byType[MetadataId(ident, meta) := meta]];
      modified := now;
      return true;
    }

    method DeleteItem(item: Item, now: Time)
      modifies this`items, this`modified
      ensures item.metadata.None? ==> Contents() == old(Contents()) && modified == old(modified)
      ensures item.metadata.Some? ==>
                && Contents() == old(Contents()) - {KeyOf(ident, item.metadata.value)}
                && modified == if item.metadata.value.kind in old(items) then now else old(modified)
    {
      if item.metadata.None? {
        return;
      }
      var meta := item.metadata.value;
      FlatRemove(items, meta.kind, MetadataId(ident, meta));
      hide Flat;
      if meta.kind !in items {
        return;
      }
      items := items[meta.kind := items[meta.kind] - {MetadataId(ident, meta)}];
      modified := now;
    }
  }

  /** Two items share a place in the index exactly if they have the same type and the same name. */
  lemma SamePlace(ident: Ident, a: Metadata, b: Metadata)
    requires forall t, u, m, n | ident(t, m) == ident(u, n) :: t == u && m == n
    ensures KeyOf(ident, a) == KeyOf(ident, b) <==> a.kind == b.kind && a.name == b.name
  {
  }
}
