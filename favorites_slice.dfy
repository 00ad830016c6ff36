/**
 * The favorites store: a normalized set of starred products, `ids` in
 * insertion order and `entities` from each id to its product. Hydration
 * (`setFavorites`) rebuilds it from a stored list; `addFavorite`,
 * `removeFavorite` and `toggleFavorite` change it in place and, when they
 * change something, write the whole list `ids.map(id => entities[id])` to
 * storage. The storage itself is not modelled: the store records, as ghost
 * state, every list it would write.
 */
module FavoritesSlice {
  import opened Common
  import opened JsBuiltins

  /** A snapshot of the store's fields. */
  datatype Favorites = Favorites(ids: seq<string>, entities: map<string, Product>)

  const Empty := Favorites([], map[])

  /** The key a product is stored under: `String(p.id)`. */
  function Key(p: Product): string {
    IdString(p.id)
  }

  predicate NoDuplicates(ids: seq<string>) {
    forall i, j :: 0 <= i < j < |ids| ==> ids[i] != ids[j]
  }

  /**
   * The store's invariant: no repeated id, the ids are exactly the keys of
   * `entities`, and each entity is stored under its own product's key.
   */
  ghost predicate WellFormed(f: Favorites) {
    && NoDuplicates(f.ids)
    && (forall k :: k in f.entities <==> k in f.ids)
    && (forall k :: k in f.entities ==> Key(f.entities[k]) == k)
  }

  /** `ids.indexOf(id)`: the first position of `id`, or -1. */
  function IndexOf(ids: seq<string>, id: string): (r: int)
    ensures -1 <= r < |ids|
    ensures r == -1 <==> id !in ids
    ensures r >= 0 ==> ids[r] == id && forall i :: 0 <= i < r ==> ids[i] != id
  {
    if ids == [] then -1
    else if ids[0] == id then 0
    else
      var r := IndexOf(ids[1..], id);
      if r == -1 then -1 else r + 1
  }

  /**
   * `ids.splice(start, 1)` as JavaScript does it: a negative start counts
   * from the end (so -1 removes the last element), and a start past the end
   * removes nothing.
   */
  function SpliceOne(ids: seq<string>, start: int): seq<string> {
    var at := if start < 0 then (if |ids| + start < 0 then 0 else |ids| + start)
              else (if start < |ids| then start else |ids|);
    if at < |ids| then ids[..at] + ids[at + 1..] else ids
  }

  /** `addFavorite(p)` on a snapshot: nothing when its key is present, else appended and mapped. */
  function AddValue(f: Favorites, p: Product): Favorites {
    var k := Key(p);
    if k in f.entities then f else Favorites(f.ids + [k], f.entities[k := p])
  }

  /** `removeFavorite(id)` on a snapshot: nothing when `id` is not listed, else spliced out and deleted. */
  function RemoveValue(f: Favorites, id: string): Favorites {
    var idx := IndexOf(f.ids, id);
    if idx == -1 then f else Favorites(SpliceOne(f.ids, idx), f.entities - {id})
  }

  /**
   * `toggleFavorite(p)` on a snapshot: decided on `entities`; when present,
   * the position removed is `ids.indexOf(key)`, whatever that yields.
   */
  function ToggleValue(f: Favorites, p: Product): Favorites {
    var k := Key(p);
    if k in f.entities then Favorites(SpliceOne(f.ids, IndexOf(f.ids, k)), f.entities - {k})
    else Favorites(f.ids + [k], f.entities[k := p])
  }

  /**
   * The list `persistFavorites` writes: `ids.map(id => entities[id])` with
   * missing entries dropped (`filter(Boolean)`).
   */
  function PersistList(ids: seq<string>, entities: map<string, Product>): seq<Product> {
    if ids == [] then []
    else
      var k := ids[|ids| - 1];
      PersistList(ids[..|ids| - 1], entities) + (if k in entities then [entities[k]] else [])
  }

  /** `setFavorites(list)`: every product of the list added in turn, without writing to storage. */
  function Hydrate(list: seq<Product>): Favorites {
    if list == [] then Empty else AddValue(Hydrate(list[..|list| - 1]), list[|list| - 1])
  }

  /** The first position in `list` of a product stored under `k`, or -1. */
  function FirstIndex(list: seq<Product>, k: string): (r: int)
    ensures -1 <= r < |list|
    ensures r == -1 <==> forall j :: 0 <= j < |list| ==> Key(list[j]) != k
    ensures r >= 0 ==> Key(list[r]) == k && forall j :: 0 <= j < r ==> Key(list[j]) != k
  {
    if list == [] then -1
    else if Key(list[0]) == k then 0
    else
      var r := FirstIndex(list[1..], k);
      if r == -1 then -1 else r + 1
  }

  // ---------------------------------------------------------------------
  // add, remove, toggle
  // ---------------------------------------------------------------------

  /** `addFavorite` keeps the invariant. */
  lemma AddPreservesWellFormed(f: Favorites, p: Product)
    requires WellFormed(f)
    ensures WellFormed(AddValue(f, p))
  {
  }

  /**
   * Adding is idempotent on the id: a second add of any product with the
   * same id changes nothing, and in particular keeps the first snapshot.
   */
  lemma AddIdempotent(f: Favorites, p: Product, q: Product)
    requires q.id == p.id
    ensures AddValue(AddValue(f, p), q) == AddValue(f, p)
    ensures Key(p) in AddValue(f, p).entities
  {
  }

  /**
   * Taking position `i` out of a duplicate-free list keeps it duplicate-free
   * and removes exactly the element that was there.
   */
  lemma RemoveAtSpec(ids: seq<string>, i: int)
    requires NoDuplicates(ids) && 0 <= i < |ids|
    ensures NoDuplicates(ids[..i] + ids[i + 1..])
    ensures forall k :: k in ids[..i] + ids[i + 1..] <==> k in ids && k != ids[i]
  {
    var t := ids[..i] + ids[i + 1..];
    assert forall a :: 0 <= a < |t| ==> t[a] == ids[if a < i then a else a + 1];
    forall k | k in ids && k != ids[i] ensures k in t {
      var j :| 0 <= j < |ids| && ids[j] == k;
      assert t[if j < i then j else j - 1] == k;
    }
  }

  /** Taking out one favorite, position and entity, keeps a store well-formed. */
  lemma RemoveAtWellFormed(f: Favorites, i: int)
    requires WellFormed(f) && 0 <= i < |f.ids|
    ensures WellFormed(Favorites(f.ids[..i] + f.ids[i + 1..], f.entities - {f.ids[i]}))
  {
    RemoveAtSpec(f.ids, i);
  }

  /** Removing position `i` of `ids` is what `removeFavorite` does for the id there. */
  lemma RemoveValueAt(f: Favorites, id: string)
    requires id in f.ids
    ensures var i := IndexOf(f.ids, id);
      RemoveValue(f, id) == Favorites(f.ids[..i] + f.ids[i + 1..], f.entities - {id})
  {
    var i := IndexOf(f.ids, id);
    assert SpliceOne(f.ids, i) == f.ids[..i] + f.ids[i + 1..];
  }

  /**
   * On a well-formed store, removing a listed id takes out exactly that
   * one position, the rest keeping their relative order, and deletes its
   * entity; removing an unlisted id changes nothing.
   */
  lemma RemoveSpec(f: Favorites, id: string)
    requires WellFormed(f)
    ensures var g := RemoveValue(f, id);
      && (id !in f.ids ==> g == f)
      && (id in f.ids ==>
            && (exists i :: 0 <= i < |f.ids| && f.ids[i] == id && g.ids == f.ids[..i] + f.ids[i + 1..])
            && g.entities == f.entities - {id}
            && (forall k :: k in g.ids <==> k in f.ids && k != id))
  {
    if id in f.ids {
      var i := IndexOf(f.ids, id);
      RemoveValueAt(f, id);
      assert f.ids[i] == id;
      RemoveAtSpec(f.ids, i);
    }
  }

  /** `removeFavorite` keeps the invariant. */
  lemma RemovePreservesWellFormed(f: Favorites, id: string)
    requires WellFormed(f)
    ensures WellFormed(RemoveValue(f, id))
  {
    if id in f.ids {
      RemoveValueAt(f, id);
      RemoveAtWellFormed(f, IndexOf(f.ids, id));
    }
  }

  /**
   * On a well-formed store, toggling is removal when the product's key is
   * present and addition when it is absent.
   */
  lemma ToggleIsRemoveOrAdd(f: Favorites, p: Product)
    requires WellFormed(f)
    ensures Key(p) in f.entities ==> ToggleValue(f, p) == RemoveValue(f, Key(p))
    ensures Key(p) !in f.entities ==> ToggleValue(f, p) == AddValue(f, p)
  {
  }

  /** `toggleFavorite` keeps the invariant. */
  lemma TogglePreservesWellFormed(f: Favorites, p: Product)
    requires WellFormed(f)
    ensures WellFormed(ToggleValue(f, p))
  {
    ToggleIsRemoveOrAdd(f, p);
    if Key(p) in f.entities {
      RemovePreservesWellFormed(f, Key(p));
    }
  }

  /** Toggling a product that is not a favorite twice restores the store exactly. */
  lemma ToggleTwiceFromAbsent(f: Favorites, p: Product)
    requires WellFormed(f) && Key(p) !in f.entities
    ensures ToggleValue(ToggleValue(f, p), p) == f
  {
    var k := Key(p);
    var g := ToggleValue(f, p);
    assert k !in f.ids;
    assert g.ids == f.ids + [k];
    assert IndexOf(g.ids, k) == |f.ids|;
    assert (f.ids + [k])[..|f.ids|] == f.ids;
    assert g.entities - {k} == f.entities;
  }

  /**
   * Toggling a favorite twice does not restore the store in general: the
   * id comes back at the end of `ids`, mapped to the product just toggled.
   * Unless it was already last, the order of `ids` changes.
   */
  lemma ToggleTwiceFromPresent(f: Favorites, p: Product)
    requires WellFormed(f) && Key(p) in f.entities
    ensures var h := ToggleValue(ToggleValue(f, p), p);
      && h.ids == RemoveValue(f, Key(p)).ids + [Key(p)]
      && h.entities == f.entities[Key(p) := p]
      && (f.ids[|f.ids| - 1] != Key(p) ==> h.ids != f.ids)
  {
    var k := Key(p);
    assert k in f.ids;
    var i := IndexOf(f.ids, k);
    var t := f.ids[..i] + f.ids[i + 1..];
    var g := Favorites(t, f.entities - {k});
    assert SpliceOne(f.ids, i) == t;
    assert ToggleValue(f, p) == g && RemoveValue(f, k) == g;
    assert k !in g.entities;
    assert ToggleValue(g, p) == Favorites(t + [k], (f.entities - {k})[k := p]);
    assert (f.entities - {k})[k := p] == f.entities[k := p];
    if f.ids[|f.ids| - 1] != k {
      assert (t + [k])[|f.ids| - 1] == k;
    }
  }

  // ---------------------------------------------------------------------
  // the persisted list
  // ---------------------------------------------------------------------

  /**
   * When every id has an entity, the persisted list is `ids.map(id =>
   * entities[id])`: one product per id, in insertion order.
   */
  lemma {:induction false} PersistListSpec(ids: seq<string>, entities: map<string, Product>)
    requires forall k :: k in ids ==> k in entities
    ensures |PersistList(ids, entities)| == |ids|
    ensures forall i :: 0 <= i < |ids| ==> PersistList(ids, entities)[i] == entities[ids[i]]
  {
    if ids != [] {
      var init := ids[..|ids| - 1];
      assert forall k :: k in init ==> k in ids;
      PersistListSpec(init, entities);
    }
  }

  /** The persisted list only reads the entities of listed ids. */
  lemma {:induction false} PersistListFrame(ids: seq<string>, e: map<string, Product>, e': map<string, Product>)
    requires forall k :: k in ids ==> (k in e <==> k in e') && (k in e ==> e[k] == e'[k])
    ensures PersistList(ids, e) == PersistList(ids, e')
  {
    if ids != [] {
      var init := ids[..|ids| - 1];
      assert forall k :: k in init ==> k in ids;
      PersistListFrame(init, e, e');
    }
  }

  /**
   * The persisted list of a well-formed store never holds two products with
   * the same numeric id.
   */
  lemma PersistedIdsDistinct(f: Favorites)
    requires WellFormed(f)
    ensures DistinctIds(PersistList(f.ids, f.entities))
  {
    var l := PersistList(f.ids, f.entities);
    PersistListSpec(f.ids, f.entities);
  }

  /** A well-formed store without its last favorite is still well-formed. */
  lemma DropLastWellFormed(f: Favorites)
    requires WellFormed(f) && f.ids != []
    ensures var n := |f.ids| - 1;
      && f.ids[n] !in f.ids[..n]
      && WellFormed(Favorites(f.ids[..n], f.entities - {f.ids[n]}))
  {
    var n := |f.ids| - 1;
    RemoveAtSpec(f.ids, n);
    assert f.ids[..n] + f.ids[n + 1..] == f.ids[..n];
  }

  /** Deleting a key and mapping it again to its old value gives the map back. */
  lemma ReinsertRemoved(e: map<string, Product>, k: string)
    requires k in e
    ensures (e - {k})[k := e[k]] == e
  {
  }

  /** Adding the last favorite of a well-formed store back to the store without it gives the store back. */
  lemma AddBackLast(f: Favorites)
    requires WellFormed(f) && f.ids != []
    ensures var n := |f.ids| - 1;
      AddValue(Favorites(f.ids[..n], f.entities - {f.ids[n]}), f.entities[f.ids[n]]) == f
  {
    var n := |f.ids| - 1;
    var k := f.ids[n];
    var e0 := f.entities - {k};
    assert k !in e0;
    ReinsertRemoved(f.entities, k);
    assert f.ids[..n] + [k] == f.ids;
  }

  /** Hydrating a list extended by one product adds that product last. */
  lemma HydrateSnoc(list: seq<Product>, p: Product)
    ensures Hydrate(list + [p]) == AddValue(Hydrate(list), p)
  {
    assert (list + [p])[..|list|] == list;
  }

  /**
   * Hydrating from the list a well-formed store persists gives that store
   * back: what `addFavorite`, `removeFavorite` and `toggleFavorite` write is
   * what `setFavorites` needs at the next start.
   */
  lemma {:induction false} PersistThenHydrate(f: Favorites)
    requires WellFormed(f)
    ensures Hydrate(PersistList(f.ids, f.entities)) == f
    decreases |f.ids|
  {
    if f.ids != [] {
      var n := |f.ids| - 1;
      var k := f.ids[n];
      var ids0 := f.ids[..n];
      var e0 := f.entities - {k};
      var f0 := Favorites(ids0, e0);
      assert k in f.entities;
      var p := f.entities[k];
      assert WellFormed(f0) && Key(p) == k && k !in e0 by {
        DropLastWellFormed(f);
      }
      PersistThenHydrate(f0);
      assert PersistList(f.ids, f.entities) == PersistList(ids0, e0) + [p] by {
        DropLastWellFormed(f);
        PersistListFrame(ids0, f.entities, e0);
      }
      HydrateSnoc(PersistList(ids0, e0), p);
      AddBackLast(f);
    }
  }

  // ---------------------------------------------------------------------
  // hydration
  // ---------------------------------------------------------------------

  /** Hydration yields a well-formed store. */
  lemma {:induction false} HydrateWellFormed(list: seq<Product>)
    ensures WellFormed(Hydrate(list))
  {
    if list != [] {
      HydrateWellFormed(list[..|list| - 1]);
      AddPreservesWellFormed(Hydrate(list[..|list| - 1]), list[|list| - 1]);
    }
  }

  /** Where a key first occurs in a list extended by one product. */
  lemma FirstIndexSnoc(init: seq<Product>, p: Product, k: string)
    ensures FirstIndex(init + [p], k) ==
      if FirstIndex(init, k) >= 0 then FirstIndex(init, k)
      else if Key(p) == k then |init| else -1
  {
    var l := init + [p];
    var r := FirstIndex(l, k);
    assert forall j :: 0 <= j < |init| ==> l[j] == init[j];
    if FirstIndex(init, k) >= 0 {
      var a := FirstIndex(init, k);
      assert Key(l[a]) == k;
    } else if Key(p) == k {
      assert Key(l[|init|]) == k;
    }
  }

  /** `setFavorites(list)` keeps exactly the keys that occur in the list. */
  lemma {:induction false} HydrateKeys(list: seq<Product>)
    ensures forall k :: k in Hydrate(list).entities <==> FirstIndex(list, k) >= 0
  {
    if list != [] {
      var init := list[..|list| - 1];
      var p := list[|list| - 1];
      assert list == init + [p];
      HydrateKeys(init);
      forall k ensures k in Hydrate(list).entities <==> FirstIndex(list, k) >= 0 {
        FirstIndexSnoc(init, p, k);
      }
    }
  }

  /** `setFavorites(list)` maps each key to the first product of the list stored under it. */
  lemma {:induction false} HydrateFirstWins(list: seq<Product>)
    ensures forall k :: k in Hydrate(list).entities ==>
      FirstIndex(list, k) >= 0 && Hydrate(list).entities[k] == list[FirstIndex(list, k)]
  {
    if list != [] {
      var init := list[..|list| - 1];
      var p := list[|list| - 1];
      assert list == init + [p];
      HydrateKeys(init);
      HydrateFirstWins(init);
      var g := Hydrate(init);
      forall k | k in Hydrate(list).entities
        ensures FirstIndex(list, k) >= 0 && Hydrate(list).entities[k] == list[FirstIndex(list, k)]
      {
        FirstIndexSnoc(init, p, k);
        if k in g.entities {
          assert list[FirstIndex(init, k)] == init[FirstIndex(init, k)];
        }
      }
    }
  }

  /** The keys `ids` appear in the order of their first occurrence in `list`. */
  ghost predicate InFirstOccurrenceOrder(list: seq<Product>, ids: seq<string>) {
    forall i, j :: 0 <= i < j < |ids| ==> FirstIndex(list, ids[i]) < FirstIndex(list, ids[j])
  }

  /** Growing the list does not move the first occurrence of a key it already holds. */
  lemma OrderedKeysSnoc(init: seq<Product>, p: Product, ids: seq<string>)
    requires forall i :: 0 <= i < |ids| ==> FirstIndex(init, ids[i]) >= 0
    requires InFirstOccurrenceOrder(init, ids)
    ensures forall i :: 0 <= i < |ids| ==> FirstIndex(init + [p], ids[i]) == FirstIndex(init, ids[i])
    ensures InFirstOccurrenceOrder(init + [p], ids)
  {
    var l := init + [p];
    forall i | 0 <= i < |ids| ensures FirstIndex(l, ids[i]) == FirstIndex(init, ids[i]) {
      FirstIndexSnoc(init, p, ids[i]);
    }
  }

  /** A key that first occurs after every key of `ids` can follow them. */
  lemma OrderedKeysExtend(l: seq<Product>, ids: seq<string>, k: string)
    requires InFirstOccurrenceOrder(l, ids)
    requires forall i :: 0 <= i < |ids| ==> FirstIndex(l, ids[i]) < FirstIndex(l, k)
    ensures InFirstOccurrenceOrder(l, ids + [k])
  {
    var ids' := ids + [k];
    forall i, j | 0 <= i < j < |ids'| ensures FirstIndex(l, ids'[i]) < FirstIndex(l, ids'[j]) {
      assert ids'[i] == ids[i];
      if j < |ids| {
        assert ids'[j] == ids[j];
      }
    }
  }

  /** A key first seen in the last product goes after every key seen before it. */
  lemma OrderedKeysAppend(init: seq<Product>, p: Product, ids: seq<string>)
    requires forall i :: 0 <= i < |ids| ==> FirstIndex(init, ids[i]) >= 0
    requires InFirstOccurrenceOrder(init, ids)
    requires FirstIndex(init, Key(p)) == -1
    ensures InFirstOccurrenceOrder(init + [p], ids + [Key(p)])
  {
    var l := init + [p];
    OrderedKeysSnoc(init, p, ids);
    FirstIndexSnoc(init, p, Key(p));
    OrderedKeysExtend(l, ids, Key(p));
  }

  /** `setFavorites(list)` orders the keys by their first occurrence in the list. */
  lemma {:induction false} HydrateOrder(list: seq<Product>)
    ensures InFirstOccurrenceOrder(list, Hydrate(list).ids)
  {
    if list != [] {
      var init := list[..|list| - 1];
      var p := list[|list| - 1];
      assert list == init + [p];
      var g := Hydrate(init);
      var k := Key(p);
      HydrateOrder(init);
      assert forall i :: 0 <= i < |g.ids| ==> FirstIndex(init, g.ids[i]) >= 0 by {
        HydrateKeys(init);
        HydrateWellFormed(init);
        assert forall i :: 0 <= i < |g.ids| ==> g.ids[i] in g.entities;
      }
      if k in g.entities {
        OrderedKeysSnoc(init, p, g.ids);
        assert Hydrate(list) == g;
      } else {
        assert FirstIndex(init, k) == -1 by {
          HydrateKeys(init);
        }
        OrderedKeysAppend(init, p, g.ids);
        assert Hydrate(list).ids == g.ids + [k];
      }
    }
  }

  /**
   * The `forEach` loop of `setFavorites`: builds `ids` and `entities` from
   * the list, skipping every product whose key is already mapped.
   */
  method BuildFavorites(list: seq<Product>) returns (ids: seq<string>, entities: map<string, Product>)
    ensures Favorites(ids, entities) == Hydrate(list)
    ensures WellFormed(Favorites(ids, entities))
    ensures forall k :: k in entities <==> FirstIndex(list, k) >= 0
    ensures forall k :: k in entities ==> entities[k] == list[FirstIndex(list, k)]
    ensures InFirstOccurrenceOrder(list, ids)
  {
    ids, entities := [], map[];
    var i := 0;
    while i < |list|
      invariant 0 <= i <= |list|
      invariant Favorites(ids, entities) == Hydrate(list[..i])
    {
      var p := list[i];
      var id := IdString(p.id);
      if id !in entities {
        ids := ids + [id];
        entities := entities[id := p];
      }
      assert list[..i + 1][..i] == list[..i];
      i := i + 1;
    }
    assert list[..|list|] == list;
    HydrateWellFormed(list);
    HydrateKeys(list);
    HydrateFirstWins(list);
    HydrateOrder(list);
  }

  // ---------------------------------------------------------------------
  // the store
  // ---------------------------------------------------------------------

  /** The store. `persisted` holds every list written to storage, oldest first. */
  class FavoritesStore {
    var ids: seq<string>
    var entities: map<string, Product>
    ghost var persisted: seq<seq<Product>>

    function State(): Favorites
      reads this
    {
      Favorites(ids, entities)
    }

    ghost predicate Valid()
      reads this
    {
      WellFormed(State())
    }

    /** The store as created: empty, nothing written yet. */
    constructor ()
      ensures State() == Empty && Valid() && persisted == []
    {
      ids, entities := [], map[];
      persisted := [];
    }

    /** `setFavorites(list)`: replaces the whole store; writes nothing. */
    method SetFavorites(list: seq<Product>)
      modifies this
      ensures State() == Hydrate(list) && Valid()
      ensures persisted == old(persisted)
    {
      ids, entities := BuildFavorites(list);
    }

    /**
     * `addFavorite(p)`: a product whose key is present changes nothing and
     * writes nothing; otherwise its key goes last in `ids`, it is mapped,
     * and the whole list is written.
     */
    method AddFavorite(p: Product)
      modifies this
      ensures State() == AddValue(old(State()), p)
      ensures Key(p) in old(entities) ==> persisted == old(persisted)
      ensures Key(p) !in old(entities) ==>
        ids == old(ids) + [Key(p)] && entities == old(entities)[Key(p) := p]
        && persisted == old(persisted) + [PersistList(ids, entities)]
      ensures old(Valid()) ==> Valid()
    {
      var id := Key(p);
      if id in entities {
        return;
      }
      ids := ids + [id];
      entities := entities[id := p];
      persisted := persisted + [PersistList(ids, entities)];
    }

    /**
     * `removeFavorite(id)`: an id not in `ids` changes nothing and writes
     * nothing; otherwise it is spliced out of `ids`, its entity deleted, and
     * the whole list written.
     */
    method RemoveFavorite(id: string)
      modifies this
      ensures State() == RemoveValue(old(State()), id)
      ensures id !in old(ids) ==> persisted == old(persisted)
      ensures id in old(ids) ==> persisted == old(persisted) + [PersistList(ids, entities)]
      ensures old(Valid()) ==> Valid()
    {
      ghost var before := State();
      var idx := IndexOf(ids, id);
      if idx == -1 {
        return;
      }
      ids := SpliceOne(ids, idx);
      entities := entities - {id};
      persisted := persisted + [PersistList(ids, entities)];
      if WellFormed(before) {
        RemovePreservesWellFormed(before, id);
      }
    }

    /**
     * `toggleFavorite(p)`: removal when its key is mapped, addition
     * otherwise; the whole list is written either way.
     */
    method ToggleFavorite(p: Product)
      modifies this
      ensures State() == ToggleValue(old(State()), p)
      ensures persisted == old(persisted) + [PersistList(ids, entities)]
      ensures old(Valid()) ==> Valid()
    {
      ghost var before := State();
      var id := Key(p);
      if id in entities {
        var idx := IndexOf(ids, id);
        ids := SpliceOne(ids, idx);
        entities := entities - {id};
      } else {
        ids := ids + [id];
        entities := entities[id := p];
      }
      persisted := persisted + [PersistList(ids, entities)];
      if WellFormed(before) {
        TogglePreservesWellFormed(before, p);
      }
    }
  }

  /**
   * Toggling a product on an empty store stars it and writes `[item]`;
   * toggling it again empties the store and writes `[]`.
   */
  method ScenarioToggle(item: Product) {
    var k := Key(item);
    var store := new FavoritesStore();
    store.ToggleFavorite(item);
    assert store.ids == [k] && store.entities == map[k := item];
    assert [k][..0] == [];
    assert PersistList([k], map[k := item]) == [item];
    assert store.persisted == [[item]];
    store.ToggleFavorite(item);
    assert store.ids == [] && store.entities == map[];
    assert store.persisted == [[item], []];
  }
}
