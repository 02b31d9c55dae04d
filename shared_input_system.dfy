/**
 * The per-player input system (shared/systems/input_system.py:7-42): every entity
 * holding Input, PlayerControlled and Player gets its Input overwritten with the
 * intent its player id reads from the keys held. The key state is a parameter.
 */
module InputSystem {
  import opened Wrappers
  import opened Components
  import opened Store
  import Ecs

  /** The keys the input systems poll. */
  datatype Key = KeyW | KeyA | KeyS | KeyD | KeyUp | KeyDown | KeyLeft | KeyRight

  /** The kinds the system queries, in the order it unpacks them. */
  const ControlKinds: seq<Kind> := [InputKind, PlayerControlledKind, PlayerKind]

  /** One axis of intent: -1 towards `neg`, +1 towards `pos`, and `pos` wins when both are held. */
  function Axis(neg: bool, pos: bool): real {
    if pos then 1.0 else if neg then -1.0 else 0.0
  }

  /** The intent of the player with this id: WASD for 1, the arrow keys for 2, rest for any other. */
  function Intent(id: int, keys: set<Key>): Component {
    if id == 1 then Input(Axis(KeyA in keys, KeyD in keys), Axis(KeyW in keys, KeyS in keys))
    else if id == 2 then Input(Axis(KeyLeft in keys, KeyRight in keys), Axis(KeyUp in keys, KeyDown in keys))
    else Input(0.0, 0.0)
  }

  /**
   * The source's tests for one player: start at rest, and every held key it tests
   * overrides what an earlier test set.
   */
  method ReadIntent(id: int, keys: set<Key>) returns (moveX: real, moveY: real)
    ensures Input(moveX, moveY) == Intent(id, keys)
  {
    moveX, moveY := 0.0, 0.0;
    if id == 1 {
      if KeyW in keys { moveY := -1.0; }
      if KeyS in keys { moveY := 1.0; }
      if KeyA in keys { moveX := -1.0; }
      if KeyD in keys { moveX := 1.0; }
    } else if id == 2 {
      if KeyUp in keys { moveY := -1.0; }
      if KeyDown in keys { moveY := 1.0; }
      if KeyLeft in keys { moveX := -1.0; }
      if KeyRight in keys { moveX := 1.0; }
    }
  }

  /** An axis is +1 exactly when its positive key is held, -1 exactly when only its negative one is. */
  lemma AxisCases(neg: bool, pos: bool)
    ensures Axis(neg, pos) == 1.0 <==> pos
    ensures Axis(neg, pos) == -1.0 <==> neg && !pos
    ensures Axis(neg, pos) == 0.0 <==> !neg && !pos
  {
  }

  /** Every written value is -1, 0 or 1. */
  lemma IntentIsUnit(id: int, keys: set<Key>)
    ensures var i := Intent(id, keys);
      && (i.moveX == -1.0 || i.moveX == 0.0 || i.moveX == 1.0)
      && (i.moveY == -1.0 || i.moveY == 0.0 || i.moveY == 1.0)
  {
  }

  /** Player 1 steers with WASD: S beats W, D beats A. */
  lemma PlayerOneKeys(keys: set<Key>)
    ensures Intent(1, keys).moveY == -1.0 <==> KeyW in keys && KeyS !in keys
    ensures Intent(1, keys).moveY == 1.0 <==> KeyS in keys
    ensures Intent(1, keys).moveX == -1.0 <==> KeyA in keys && KeyD !in keys
    ensures Intent(1, keys).moveX == 1.0 <==> KeyD in keys
  {
    AxisCases(KeyW in keys, KeyS in keys);
    AxisCases(KeyA in keys, KeyD in keys);
  }

  /** Player 2 steers with the arrow keys: Down beats Up, Right beats Left. */
  lemma PlayerTwoKeys(keys: set<Key>)
    ensures Intent(2, keys).moveY == -1.0 <==> KeyUp in keys && KeyDown !in keys
    ensures Intent(2, keys).moveY == 1.0 <==> KeyDown in keys
    ensures Intent(2, keys).moveX == -1.0 <==> KeyLeft in keys && KeyRight !in keys
    ensures Intent(2, keys).moveX == 1.0 <==> KeyRight in keys
  {
    AxisCases(KeyUp in keys, KeyDown in keys);
    AxisCases(KeyLeft in keys, KeyRight in keys);
  }

  /** Player 2 ignores WASD and player 1 ignores the arrow keys. */
  lemma PlayersIgnoreTheOtherKeys(keys: set<Key>)
    ensures Intent(2, keys) == Intent(2, keys - {KeyW, KeyA, KeyS, KeyD})
    ensures Intent(1, keys) == Intent(1, keys - {KeyUp, KeyDown, KeyLeft, KeyRight})
  {
  }

  /** Any other player id stays at rest whatever is held. */
  lemma OtherIdsRest(id: int, keys: set<Key>)
    requires id != 1 && id != 2
    ensures Intent(id, keys) == Input(0.0, 0.0)
  {
  }

  // ---------------------------------------------------------------- the system

  /** Entity `e` is one the system writes. */
  predicate Controllable(t: Tables, e: nat) {
    && InputKind in t && e in t[InputKind]
    && PlayerControlledKind in t && e in t[PlayerControlledKind]
    && PlayerKind in t && e in t[PlayerKind]
  }

  /** The query's entities are exactly the controllable ones. */
  lemma QueryMembersControllable(t: Tables)
    ensures forall e :: e in Query(t, ControlKinds) <==> Controllable(t, e)
  {
    forall e
      ensures e in Query(t, ControlKinds) <==> Controllable(t, e)
    {
      QueryMembers(t, ControlKinds, e);
      assert ControlKinds[0] == InputKind && ControlKinds[1] == PlayerControlledKind;
      assert ControlKinds[2] == PlayerKind;
      if e in Query(t, ControlKinds) {
        assert Lookup(t, e, ControlKinds[0]).Some? && Lookup(t, e, ControlKinds[1]).Some?;
        assert Lookup(t, e, ControlKinds[2]).Some?;
      }
    }
  }

  /** In a well-kinded store a controllable entity's Player entry is a Player. */
  lemma ControllableShapes(t: Tables, e: nat)
    requires WellKinded(t) && Controllable(t, e)
    ensures t[PlayerKind][e].Player?
  {
    assert KindOf(t[PlayerKind][e]) == PlayerKind;
  }

  /** A query row of a controllable entity holds its Player last. */
  lemma ControlRow(t: Tables, e: nat)
    requires e in Query(t, ControlKinds)
    ensures PlayerKind in t && e in t[PlayerKind]
    ensures |Query(t, ControlKinds)[e]| == 3 && Query(t, ControlKinds)[e][2] == t[PlayerKind][e]
  {
    QueryRowAt(t, ControlKinds, e, 2);
  }

  /** The Input values written for the entities in `done`. */
  function Intents(t: Tables, keys: set<Key>, done: set<nat>): (us: Table)
    requires WellKinded(t) && forall e :: e in done ==> Controllable(t, e)
    ensures us.Keys == done
  {
    map e | e in done :: (ControllableShapes(t, e); Intent(t[PlayerKind][e].id, keys))
  }

  /** The store after the system has handled the controllable entities in `done`. */
  function ControlledOn(t: Tables, keys: set<Key>, done: set<nat>): Tables
    requires WellKinded(t) && done <= Query(t, ControlKinds).Keys
  {
    QueryMembersControllable(t);
    Overwrite(t, InputKind, Intents(t, keys, done))
  }

  /** The store after one run of the system. */
  function Controlled(t: Tables, keys: set<Key>): Tables
    requires WellKinded(t)
  {
    ControlledOn(t, keys, Query(t, ControlKinds).Keys)
  }

  /** Handling no entity changes nothing. */
  lemma ControlledOnNothing(t: Tables, keys: set<Key>)
    requires WellKinded(t)
    ensures ControlledOn(t, keys, {}) == t
  {
    assert Intents(t, keys, {}) == map[];
    OverwriteNothing(t, InputKind);
  }

  /** Handling one more entity is one add_component of its intent. */
  lemma ControlledStep(t: Tables, keys: set<Key>, done: set<nat>, e: nat)
    requires WellKinded(t) && done <= Query(t, ControlKinds).Keys && e in Query(t, ControlKinds)
    ensures Controllable(t, e) && t[PlayerKind][e].Player?
    ensures ControlledOn(t, keys, done + {e}) ==
            Insert(ControlledOn(t, keys, done), e, Intent(t[PlayerKind][e].id, keys))
  {
    QueryMembersControllable(t);
    ControllableShapes(t, e);
    var us := Intents(t, keys, done);
    var c := Intent(t[PlayerKind][e].id, keys);
    assert Intents(t, keys, done + {e}) == us[e := c];
    OverwriteStep(t, InputKind, us, e, c);
  }

  /**
   * get_component after one run: a controllable entity reads the intent of its
   * player id; every other entry reads as before, and no table is created.
   */
  lemma LookupControlled(t: Tables, keys: set<Key>, e: nat, k: Kind)
    requires WellKinded(t)
    ensures Controlled(t, keys).Keys == t.Keys
    ensures Controllable(t, e) ==> t[PlayerKind][e].Player?
    ensures Lookup(Controlled(t, keys), e, k) ==
      if Controllable(t, e) && k == InputKind then Some(Intent(t[PlayerKind][e].id, keys))
      else Lookup(t, e, k)
  {
    QueryMembersControllable(t);
    LookupOverwrite(t, InputKind, Intents(t, keys, Query(t, ControlKinds).Keys), e, k);
    if Controllable(t, e) {
      ControllableShapes(t, e);
    }
  }

  /** Only the Input of entities holding Input, PlayerControlled and Player is written. */
  lemma ControlledFrame(t: Tables, keys: set<Key>, e: nat, k: Kind)
    requires WellKinded(t)
    requires !Controllable(t, e) || k != InputKind
    ensures Lookup(Controlled(t, keys), e, k) == Lookup(t, e, k)
  {
    LookupControlled(t, keys, e, k);
  }

  /** The previous Input plays no part: it is overwritten wholesale. */
  lemma InputOverwritten(t: Tables, keys: set<Key>, e: nat, i: Component)
    requires WellKinded(t) && Controllable(t, e) && i.Input?
    ensures Lookup(Controlled(Insert(t, e, i), keys), e, InputKind) == Lookup(Controlled(t, keys), e, InputKind)
  {
    var t' := Insert(t, e, i);
    LookupInsert(t, e, i, e, PlayerKind);
    LookupInsert(t, e, i, e, PlayerControlledKind);
    assert Controllable(t', e);
    LookupControlled(t, keys, e, InputKind);
    LookupControlled(t', keys, e, InputKind);
  }

  /** The loop body for one entity: read its player's intent and write it into its Input. */
  method ControlEntity(world: Ecs.World, e: nat, row: seq<Component>, keys: set<Key>,
                       ghost t0: Tables, ghost done: set<nat>)
    requires world.Valid() && WellKinded(t0)
    requires done <= Query(t0, ControlKinds).Keys && e in Query(t0, ControlKinds)
    requires row == Query(t0, ControlKinds)[e]
    requires world.tables == ControlledOn(t0, keys, done)
    modifies world
    ensures world.Valid() && world.next == old(world.next)
    ensures world.tables == ControlledOn(t0, keys, done + {e})
  {
    ControlRow(t0, e);
    ControlledStep(t0, keys, done, e);
    var player := row[2];
    var moveX, moveY := ReadIntent(player.id, keys);
    world.AddComponent(e, Input(moveX, moveY));
  }

  /** The system, written as the source's loop over the query. */
  method InputSystem(world: Ecs.World, keys: set<Key>)
    requires world.Valid()
    modifies world
    ensures world.Valid() && world.next == old(world.next)
    ensures world.tables == Controlled(old(world.tables), keys)
  {
    ghost var t0 := world.tables;
    var rows := world.GetComponents(ControlKinds);
    var pending := rows.Keys;
    ghost var done: set<nat> := {};
    ControlledOnNothing(t0, keys);
    while pending != {}
      invariant world.Valid() && world.next == old(world.next)
      invariant pending !! done && pending + done == rows.Keys
      invariant world.tables == ControlledOn(t0, keys, done)
      decreases pending
    {
      var e :| e in pending;
      ControlEntity(world, e, rows[e], keys, t0, done);
      done := done + {e};
      pending := pending - {e};
    }
    assert done == Query(t0, ControlKinds).Keys;
  }
}
