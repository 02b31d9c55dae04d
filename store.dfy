/**
 * The value behind a world: one table per component kind, each mapping an entity
 * id to that entity's component of the kind (shared/ecs.py:60, src/ecs.py:40).
 * A kind that was never added has no table at all; a table emptied by
 * destroy_entity stays present. Both World classes keep a `Tables` field and are
 * specified by the functions below; `Collect` is the get_components algorithm.
 */
module Store {
  import opened Wrappers
  import opened Components

  /** entity id -> component, for one kind */
  type Table = map<nat, Component>

  /** kind -> table */
  type Tables = map<Kind, Table>

  /** Every stored component sits in the table of its own kind. */
  ghost predicate WellKinded(t: Tables) {
    forall k, e :: k in t && e in t[k] ==> KindOf(t[k][e]) == k
  }

  /** get_component: the component of kind `k` on `e`, absent for a missing table or entry. */
  function Lookup(t: Tables, e: nat, k: Kind): (r: Option<Component>)
    ensures r.Some? <==> k in t && e in t[k]
    ensures WellKinded(t) && r.Some? ==> KindOf(r.value) == k
  {
    if k in t && e in t[k] then Some(t[k][e]) else None
  }

  /** add_component: create the kind's table on first use, then insert or overwrite. */
  function Insert(t: Tables, e: nat, c: Component): (r: Tables)
    ensures WellKinded(t) ==> WellKinded(r)
  {
    var k := KindOf(c);
    var table := if k in t then t[k] else map[];
    t[k := table[e := c]]
  }

  /** A sequence of add_component calls on one entity, in order. */
  function InsertAll(t: Tables, e: nat, cs: seq<Component>): (r: Tables)
    ensures WellKinded(t) ==> WellKinded(r)
    decreases |cs|
  {
    if cs == [] then t else Insert(InsertAll(t, e, cs[..|cs| - 1]), e, cs[|cs| - 1])
  }

  /** Adding one more component extends the bundle by one add_component. */
  lemma InsertAllSnoc(t: Tables, e: nat, cs: seq<Component>, c: Component)
    ensures InsertAll(t, e, cs + [c]) == Insert(InsertAll(t, e, cs), e, c)
  {
    assert (cs + [c])[..|cs|] == cs;
  }

  /** destroy_entity: drop `e` from every table, leaving the (possibly empty) tables in place. */
  function RemoveEntity(t: Tables, e: nat): (r: Tables)
    ensures WellKinded(t) ==> WellKinded(r)
    ensures r.Keys == t.Keys
  {
    map k | k in t :: t[k] - {e}
  }

  /** Entity `e` has a component of every kind in `kinds`. */
  predicate HasAll(t: Tables, e: nat, kinds: seq<Kind>) {
    forall i :: 0 <= i < |kinds| ==> kinds[i] in t && e in t[kinds[i]]
  }

  /** The components of `e`, one per requested kind, in request order. */
  function Row(t: Tables, e: nat, kinds: seq<Kind>): (row: seq<Component>)
    requires HasAll(t, e, kinds)
  {
    seq(|kinds|, i requires 0 <= i < |kinds| => t[kinds[i]][e])
  }

  /**
   * get_components: every entity holding all requested kinds, once each, with its
   * row. Python yields the rows in set-iteration order, which is no contract; a map
   * keeps "each entity once" and drops the order.
   */
  function Query(t: Tables, kinds: seq<Kind>): (rows: map<nat, seq<Component>>)
  {
    if |kinds| == 0 || kinds[0] !in t then map[]
    else map e | e in t[kinds[0]] && HasAll(t, e, kinds) :: Row(t, e, kinds)
  }

  /**
   * A system writing back the components it changed into table `k`; only entries
   * already present are replaced.
   */
  function Overwrite(t: Tables, k: Kind, updates: Table): (r: Tables)
    requires forall e :: e in updates ==> k in t && e in t[k]
    ensures r.Keys == t.Keys
    ensures forall k' :: k' in r ==> r[k'].Keys == t[k'].Keys
    ensures WellKinded(t) && (forall e :: e in updates ==> KindOf(updates[e]) == k) ==> WellKinded(r)
  {
    if k in t then t[k := t[k] + updates] else t
  }

  // ---------------------------------------------------------------- add / get

  /** After add_component(e, c), get_component(e, kind(c)) is c; every other entry is unchanged. */
  lemma LookupInsert(t: Tables, e: nat, c: Component, e': nat, k: Kind)
    ensures Lookup(Insert(t, e, c), e', k) ==
            if e' == e && k == KindOf(c) then Some(c) else Lookup(t, e', k)
  {
  }

  /** add_component creates the kind's table if it is missing and no other table. */
  lemma InsertKeys(t: Tables, e: nat, c: Component)
    ensures Insert(t, e, c).Keys == t.Keys + {KindOf(c)}
  {
  }

  /** add_component never removes an entry: a present (entity, kind) stays present. */
  lemma InsertKeepsEntries(t: Tables, e: nat, c: Component, e': nat, k: Kind)
    requires Lookup(t, e', k).Some?
    ensures Lookup(Insert(t, e, c), e', k).Some?
  {
  }

  /** The kinds of a bundle are pairwise distinct. */
  predicate DistinctKinds(cs: seq<Component>) {
    forall i, j :: 0 <= i < j < |cs| ==> KindOf(cs[i]) != KindOf(cs[j])
  }

  /** After adding a bundle with distinct kinds to `e`, each of its components is found on `e`. */
  lemma {:induction false} InsertAllHit(t: Tables, e: nat, cs: seq<Component>, i: nat)
    requires DistinctKinds(cs) && i < |cs|
    ensures Lookup(InsertAll(t, e, cs), e, KindOf(cs[i])) == Some(cs[i])
    decreases |cs|
  {
    var n := |cs| - 1;
    if i < n {
      assert DistinctKinds(cs[..n]);
      InsertAllHit(t, e, cs[..n], i);
      assert cs[..n][i] == cs[i];
    }
  }

  /** Adding a bundle to `e` leaves every other entity, and every kind outside the bundle, alone. */
  lemma {:induction false} InsertAllMiss(t: Tables, e: nat, cs: seq<Component>, e': nat, k: Kind)
    requires e' != e || forall i :: 0 <= i < |cs| ==> KindOf(cs[i]) != k
    ensures Lookup(InsertAll(t, e, cs), e', k) == Lookup(t, e', k)
    decreases |cs|
  {
    if cs != [] {
      var n := |cs| - 1;
      InsertAllMiss(t, e, cs[..n], e', k);
    }
  }

  /** Adding a bundle never removes an entry. */
  lemma {:induction false} InsertAllKeepsEntries(t: Tables, e: nat, cs: seq<Component>, e': nat, k: Kind)
    requires Lookup(t, e', k).Some?
    ensures Lookup(InsertAll(t, e, cs), e', k).Some?
    decreases |cs|
  {
    if cs != [] {
      InsertAllKeepsEntries(t, e, cs[..|cs| - 1], e', k);
    }
  }

  // ---------------------------------------------------------------- destroy

  /** After destroy_entity(e) nothing is found on `e`; every other entity keeps its entries. */
  lemma LookupRemove(t: Tables, e: nat, e': nat, k: Kind)
    ensures Lookup(RemoveEntity(t, e), e', k) == if e' == e then None else Lookup(t, e', k)
  {
  }

  /** A second destroy_entity of the same entity changes nothing. */
  lemma RemoveIdempotent(t: Tables, e: nat)
    ensures RemoveEntity(RemoveEntity(t, e), e) == RemoveEntity(t, e)
  {
    var once := RemoveEntity(t, e);
    forall k | k in once
      ensures RemoveEntity(once, e)[k] == once[k]
    {
      assert e !in once[k];
    }
  }

  // ---------------------------------------------------------------- get_components

  /** get_components with no kinds yields nothing. */
  lemma QueryNoKinds(t: Tables)
    ensures Query(t, []) == map[]
  {
  }

  /** If any requested kind has no table, or an empty one, get_components yields nothing. */
  lemma QueryMissingOrEmpty(t: Tables, kinds: seq<Kind>, i: nat)
    requires i < |kinds| && (kinds[i] !in t || t[kinds[i]] == map[])
    ensures Query(t, kinds) == map[]
  {
    if |kinds| > 0 && kinds[0] in t {
      forall e | e in t[kinds[0]]
        ensures !HasAll(t, e, kinds)
      {
      }
    }
  }

  /**
   * get_components yields exactly the entities that hold every requested kind, and
   * each row holds, in request order, what get_component returns for that kind.
   */
  lemma QueryMembers(t: Tables, kinds: seq<Kind>, e: nat)
    ensures e in Query(t, kinds) <==>
            |kinds| > 0 && forall i :: 0 <= i < |kinds| ==> Lookup(t, e, kinds[i]).Some?
    ensures e in Query(t, kinds) ==>
            |Query(t, kinds)[e]| == |kinds| &&
            forall i :: 0 <= i < |kinds| ==> Lookup(t, e, kinds[i]) == Some(Query(t, kinds)[e][i])
  {
    if |kinds| > 0 && forall i :: 0 <= i < |kinds| ==> Lookup(t, e, kinds[i]).Some? {
      assert Lookup(t, e, kinds[0]).Some?;
    }
  }

  /** In a well-kinded store the i-th component of a row has the i-th requested kind. */
  lemma QueryRowKind(t: Tables, kinds: seq<Kind>, e: nat, i: nat)
    requires WellKinded(t) && e in Query(t, kinds) && i < |kinds|
    ensures |Query(t, kinds)[e]| == |kinds| && KindOf(Query(t, kinds)[e][i]) == kinds[i]
  {
  }

  /** The i-th component of an entity's row is its entry in the i-th requested table. */
  lemma QueryRowAt(t: Tables, kinds: seq<Kind>, e: nat, i: nat)
    requires e in Query(t, kinds) && i < |kinds|
    ensures kinds[i] in t && e in t[kinds[i]]
    ensures |Query(t, kinds)[e]| == |kinds| && Query(t, kinds)[e][i] == t[kinds[i]][e]
  {
  }

  /** Writing one more entry back equals overwriting it with add_component. */
  lemma OverwriteStep(t: Tables, k: Kind, updates: Table, e: nat, c: Component)
    requires k in t && e in t[k] && KindOf(c) == k
    requires forall e' :: e' in updates ==> e' in t[k]
    ensures Overwrite(t, k, updates[e := c]) == Insert(Overwrite(t, k, updates), e, c)
  {
    assert t[k] + updates[e := c] == (t[k] + updates)[e := c];
  }

  /** add_component calls of two different kinds commute. */
  lemma InsertCommute(t: Tables, e: nat, c: Component, d: Component)
    requires KindOf(c) != KindOf(d)
    ensures Insert(Insert(t, e, c), e, d) == Insert(Insert(t, e, d), e, c)
  {
    var cd, dc := Insert(Insert(t, e, c), e, d), Insert(Insert(t, e, d), e, c);
    forall e', k
      ensures Lookup(cd, e', k) == Lookup(dc, e', k)
    {
      LookupInsert(t, e, c, e', k);
      LookupInsert(Insert(t, e, c), e, d, e', k);
      LookupInsert(t, e, d, e', k);
      LookupInsert(Insert(t, e, d), e, c, e', k);
    }
    SameLookups(cd, dc);
  }

  /** Writing nothing back leaves the store as it was. */
  lemma OverwriteNothing(t: Tables, k: Kind)
    ensures Overwrite(t, k, map[]) == t
  {
    if k in t {
      assert t[k] + map[] == t[k];
    }
  }

  /** Writing back into one table commutes with an add_component into another. */
  lemma OverwriteInsertCommute(t: Tables, k: Kind, updates: Table, e: nat, c: Component)
    requires KindOf(c) != k && forall e' :: e' in updates ==> k in t && e' in t[k]
    ensures Overwrite(Insert(t, e, c), k, updates) == Insert(Overwrite(t, k, updates), e, c)
  {
  }

  /** After a write-back into table `k` the updated entries read their new value; all else reads as before. */
  lemma LookupOverwrite(t: Tables, k: Kind, updates: Table, e: nat, k': Kind)
    requires forall e :: e in updates ==> k in t && e in t[k]
    ensures Lookup(Overwrite(t, k, updates), e, k') ==
            if k' == k && e in updates then Some(updates[e]) else Lookup(t, e, k')
  {
  }

  /** Two stores with the same tables that agree on every lookup are the same store. */
  lemma SameLookups(a: Tables, b: Tables)
    requires a.Keys == b.Keys
    requires forall e, k :: Lookup(a, e, k) == Lookup(b, e, k)
    ensures a == b
  {
    forall k | k in a
      ensures a[k] == b[k]
    {
      forall e
        ensures e in a[k] <==> e in b[k]
        ensures e in a[k] ==> a[k][e] == b[k][e]
      {
        assert Lookup(a, e, k) == Lookup(b, e, k);
      }
    }
  }

  /**
   * Writing back two tables with one more entry each equals writing back the
   * shorter updates and then adding that entry's two components in order.
   */
  lemma OverwriteTwiceStep(t: Tables, k: Kind, us: Table, c: Component,
                           k': Kind, us': Table, c': Component, e: nat)
    requires k != k' && KindOf(c) == k && KindOf(c') == k'
    requires k in t && e in t[k] && k' in t && e in t[k']
    requires forall e' :: e' in us ==> e' in t[k]
    requires forall e' :: e' in us' ==> e' in t[k']
    ensures Overwrite(Overwrite(t, k, us[e := c]), k', us'[e := c']) ==
            Insert(Insert(Overwrite(Overwrite(t, k, us), k', us'), e, c), e, c')
  {
    var before := Overwrite(t, k, us);
    calc {
      Overwrite(Overwrite(t, k, us[e := c]), k', us'[e := c']);
      { OverwriteStep(t, k, us, e, c); }
      Overwrite(Insert(before, e, c), k', us'[e := c']);
      { OverwriteInsertCommute(before, k', us'[e := c'], e, c); }
      Insert(Overwrite(before, k', us'[e := c']), e, c);
      { OverwriteStep(before, k', us', e, c'); }
      Insert(Insert(Overwrite(before, k', us'), e, c'), e, c);
      { InsertCommute(Overwrite(before, k', us'), e, c', c); }
      Insert(Insert(Overwrite(before, k', us'), e, c), e, c');
    }
  }

  /**
   * The get_components algorithm (shared/ecs.py:77-98): give up on no kinds or on a
   * missing or empty table, intersect the key sets of the requested tables, then
   * collect each common entity's components in request order.
   */
  method Collect(t: Tables, kinds: seq<Kind>) returns (rows: map<nat, seq<Component>>)
    ensures forall e :: e in rows <==> |kinds| > 0 && HasAll(t, e, kinds)
    ensures forall e :: e in rows ==> rows[e] == Row(t, e, kinds)
    ensures rows == Query(t, kinds)
  {
    rows := map[];
    if |kinds| == 0 {
      return;
    }
    var tables: seq<Table> := [];
    var i := 0;
    while i < |kinds|
      invariant 0 <= i <= |kinds| && |tables| == i
      invariant forall j :: 0 <= j < i ==> kinds[j] in t && tables[j] == t[kinds[j]]
    {
      if kinds[i] !in t || t[kinds[i]] == map[] {
        QueryMissingOrEmpty(t, kinds, i);
        return;
      }
      tables := tables + [t[kinds[i]]];
      i := i + 1;
    }
    var common := tables[0].Keys;
    var j := 1;
    while j < |tables|
      invariant 1 <= j <= |tables|
      invariant forall e :: e in common <==> forall m :: 0 <= m < j ==> e in tables[m]
    {
      common := common * tables[j].Keys;
      j := j + 1;
    }
    var pending := common;
    while pending != {}
      invariant pending <= common
      invariant forall e :: e in rows <==> e in common && e !in pending
      invariant forall e :: e in rows ==> HasAll(t, e, kinds) && rows[e] == Row(t, e, kinds)
      decreases pending
    {
      var e :| e in pending;
      var row := seq(|tables|, m requires 0 <= m < |tables| => tables[m][e]);
      assert row == Row(t, e, kinds);
      rows := rows[e := row];
      pending := pending - {e};
    }
  }
}
