/**
 * The earlier input system (src/systems/input_system.py:7-26): one intent is read
 * from the keys, WASD and the arrow keys alike, and written into the Input of
 * every entity holding Input and PlayerControlled, on the earlier World.
 */
module LegacyInputSystem {
  import opened Wrappers
  import opened Components
  import opened Store
  import InputSystem
  import LegacyEcs

  type Key = InputSystem.Key

  /** The kinds the system queries, in the order it unpacks them. */
  const SteerKinds: seq<Kind> := [InputKind, PlayerControlledKind]

  /** The one intent: either key of a direction counts, and down / right win. */
  function SharedIntent(keys: set<Key>): Component {
    Input(InputSystem.Axis(InputSystem.KeyA in keys || InputSystem.KeyLeft in keys,
                           InputSystem.KeyD in keys || InputSystem.KeyRight in keys),
          InputSystem.Axis(InputSystem.KeyW in keys || InputSystem.KeyUp in keys,
                           InputSystem.KeyS in keys || InputSystem.KeyDown in keys))
  }

  /** The source's sequential tests: start at rest, and each held direction overrides. */
  method ReadSharedIntent(keys: set<Key>) returns (moveX: real, moveY: real)
    ensures Input(moveX, moveY) == SharedIntent(keys)
  {
    moveX, moveY := 0.0, 0.0;
    if InputSystem.KeyW in keys || InputSystem.KeyUp in keys { moveY := -1.0; }
    if InputSystem.KeyS in keys || InputSystem.KeyDown in keys { moveY := 1.0; }
    if InputSystem.KeyA in keys || InputSystem.KeyLeft in keys { moveX := -1.0; }
    if InputSystem.KeyD in keys || InputSystem.KeyRight in keys { moveX := 1.0; }
  }

  /** W or Up gives -1 and S or Down +1 on the vertical axis, the latter winning. */
  lemma SharedVertical(keys: set<Key>)
    ensures var up, down := InputSystem.KeyW in keys || InputSystem.KeyUp in keys,
                            InputSystem.KeyS in keys || InputSystem.KeyDown in keys;
      && (SharedIntent(keys).moveY == 1.0 <==> down)
      && (SharedIntent(keys).moveY == -1.0 <==> up && !down)
  {
    InputSystem.AxisCases(InputSystem.KeyW in keys || InputSystem.KeyUp in keys,
                          InputSystem.KeyS in keys || InputSystem.KeyDown in keys);
  }

  /** A or Left gives -1 and D or Right +1 on the horizontal axis, the latter winning. */
  lemma SharedHorizontal(keys: set<Key>)
    ensures var left, right := InputSystem.KeyA in keys || InputSystem.KeyLeft in keys,
                               InputSystem.KeyD in keys || InputSystem.KeyRight in keys;
      && (SharedIntent(keys).moveX == 1.0 <==> right)
      && (SharedIntent(keys).moveX == -1.0 <==> left && !right)
  {
    InputSystem.AxisCases(InputSystem.KeyA in keys || InputSystem.KeyLeft in keys,
                          InputSystem.KeyD in keys || InputSystem.KeyRight in keys);
  }

  /** With no keys held the intent is rest. */
  lemma NoKeysRest()
    ensures SharedIntent({}) == Input(0.0, 0.0)
  {
  }

  // ---------------------------------------------------------------- the system

  /** Entity `e` is one the system writes. */
  predicate Steerable(t: Tables, e: nat) {
    InputKind in t && e in t[InputKind] && PlayerControlledKind in t && e in t[PlayerControlledKind]
  }

  /** The query's entities are exactly the steerable ones. */
  lemma QueryMembersSteerable(t: Tables)
    ensures forall e :: e in Query(t, SteerKinds) <==> Steerable(t, e)
  {
    forall e
      ensures e in Query(t, SteerKinds) <==> Steerable(t, e)
    {
      QueryMembers(t, SteerKinds, e);
      assert SteerKinds[0] == InputKind && SteerKinds[1] == PlayerControlledKind;
      if e in Query(t, SteerKinds) {
        assert Lookup(t, e, SteerKinds[0]).Some? && Lookup(t, e, SteerKinds[1]).Some?;
      }
    }
  }

  /** The Input values written for the entities in `done`: the same intent for each. */
  function SharedIntents(keys: set<Key>, done: set<nat>): (us: Table)
    ensures us.Keys == done
  {
    map e | e in done :: SharedIntent(keys)
  }

  /** The store after the system has handled the steerable entities in `done`. */
  function SteeredOn(t: Tables, keys: set<Key>, done: set<nat>): Tables
    requires done <= Query(t, SteerKinds).Keys
  {
    QueryMembersSteerable(t);
    Overwrite(t, InputKind, SharedIntents(keys, done))
  }

  /** The store after one run of the system. */
  function Steered(t: Tables, keys: set<Key>): Tables {
    SteeredOn(t, keys, Query(t, SteerKinds).Keys)
  }

  /** Handling no entity changes nothing. */
  lemma SteeredOnNothing(t: Tables, keys: set<Key>)
    ensures SteeredOn(t, keys, {}) == t
  {
    assert SharedIntents(keys, {}) == map[];
    OverwriteNothing(t, InputKind);
  }

  /** Handling one more entity is one add_component of the shared intent. */
  lemma SteeredStep(t: Tables, keys: set<Key>, done: set<nat>, e: nat)
    requires done <= Query(t, SteerKinds).Keys && e in Query(t, SteerKinds)
    ensures SteeredOn(t, keys, done + {e}) == Insert(SteeredOn(t, keys, done), e, SharedIntent(keys))
  {
    QueryMembersSteerable(t);
    var us := SharedIntents(keys, done);
    assert SharedIntents(keys, done + {e}) == us[e := SharedIntent(keys)];
    OverwriteStep(t, InputKind, us, e, SharedIntent(keys));
  }

  /**
   * get_component after one run: every steerable entity reads the same shared
   * intent; every other entry reads as before, and no table is created.
   */
  lemma LookupSteered(t: Tables, keys: set<Key>, e: nat, k: Kind)
    ensures Steered(t, keys).Keys == t.Keys
    ensures Lookup(Steered(t, keys), e, k) ==
      if Steerable(t, e) && k == InputKind then Some(SharedIntent(keys)) else Lookup(t, e, k)
  {
    QueryMembersSteerable(t);
    LookupOverwrite(t, InputKind, SharedIntents(keys, Query(t, SteerKinds).Keys), e, k);
  }

  /** Any two steerable entities end with the same Input. */
  lemma SameIntentForAll(t: Tables, keys: set<Key>, e: nat, e': nat)
    requires Steerable(t, e) && Steerable(t, e')
    ensures Lookup(Steered(t, keys), e, InputKind) == Lookup(Steered(t, keys), e', InputKind)
  {
    LookupSteered(t, keys, e, InputKind);
    LookupSteered(t, keys, e', InputKind);
  }

  /** Entities lacking Input or PlayerControlled, and every kind but Input, are unchanged. */
  lemma SteeredFrame(t: Tables, keys: set<Key>, e: nat, k: Kind)
    requires !Steerable(t, e) || k != InputKind
    ensures Lookup(Steered(t, keys), e, k) == Lookup(t, e, k)
  {
    LookupSteered(t, keys, e, k);
  }

  /** The system: read the intent once, then write it in a loop over the query. */
  method LegacyInputSystem(world: LegacyEcs.World, keys: set<Key>)
    requires world.Valid()
    modifies world
    ensures world.Valid() && world.next == old(world.next)
    ensures world.tables == Steered(old(world.tables), keys)
  {
    var moveX, moveY := ReadSharedIntent(keys);
    ghost var t0 := world.tables;
    var rows := world.GetComponents(SteerKinds);
    var pending := rows.Keys;
    ghost var done: set<nat> := {};
    SteeredOnNothing(t0, keys);
    while pending != {}
      invariant world.Valid() && world.next == old(world.next)
      invariant pending !! done && pending + done == rows.Keys
      invariant world.tables == SteeredOn(t0, keys, done)
      decreases pending
    {
      var e :| e in pending;
      SteeredStep(t0, keys, done, e);
      world.AddComponent(e, Input(moveX, moveY));
      done := done + {e};
      pending := pending - {e};
    }
    assert done == Query(t0, SteerKinds).Keys;
  }
}
