/**
 * The movement system (shared/systems/movement_system.py:6-16): for every entity
 * with Position, Velocity and Input, velocity := intent × 200, then
 * position += velocity × dt.
 */
module Movement {
  import opened Wrappers
  import opened Components
  import opened Store
  import Ecs

  const Speed: real := 200.0

  /** The kinds the system queries, in the order it unpacks them. */
  const MoveKinds: seq<Kind> := [PositionKind, VelocityKind, InputKind]

  /** Entity `e` is one the system moves. */
  predicate Movable(t: Tables, e: nat) {
    && PositionKind in t && e in t[PositionKind]
    && VelocityKind in t && e in t[VelocityKind]
    && InputKind in t && e in t[InputKind]
  }

  /** The velocity derived from an intent; the previous velocity plays no part. */
  function NewVelocity(input: Component): Component
    requires input.Input?
  {
    Velocity(input.moveX * Speed, input.moveY * Speed)
  }

  /** One explicit Euler step of `pos` under velocity `v`. */
  function NewPosition(pos: Component, v: Component, dt: real): Component
    requires pos.Position? && v.Velocity?
  {
    Position(pos.x + v.vx * dt, pos.y + v.vy * dt)
  }

  /** The two values one entity's step writes, spelt out. */
  lemma StepValues(p: Component, i: Component, dt: real)
    requires p.Position? && i.Input?
    ensures NewVelocity(i) == Velocity(i.moveX * 200.0, i.moveY * 200.0)
    ensures NewPosition(p, NewVelocity(i), dt) == Position(p.x + i.moveX * 200.0 * dt, p.y + i.moveY * 200.0 * dt)
  {
    var v := NewVelocity(i);
    assert v.vx == i.moveX * 200.0 && v.vy == i.moveY * 200.0;
    assert NewPosition(p, v, dt) == Position(p.x + v.vx * dt, p.y + v.vy * dt);
  }

  /** In a well-kinded store a movable entity's entries have the expected shapes. */
  lemma MovableShapes(t: Tables, e: nat)
    requires WellKinded(t) && Movable(t, e)
    ensures t[PositionKind][e].Position? && t[VelocityKind][e].Velocity? && t[InputKind][e].Input?
  {
    assert KindOf(t[PositionKind][e]) == PositionKind;
    assert KindOf(t[VelocityKind][e]) == VelocityKind;
    assert KindOf(t[InputKind][e]) == InputKind;
  }

  /** The velocities written for the entities in `done`. */
  function Velocities(t: Tables, done: set<nat>): (vs: Table)
    requires WellKinded(t) && forall e :: e in done ==> Movable(t, e)
    ensures vs.Keys == done
  {
    map e | e in done :: (MovableShapes(t, e); NewVelocity(t[InputKind][e]))
  }

  /** The positions written for the entities in `done`. */
  function Positions(t: Tables, dt: real, done: set<nat>): (ps: Table)
    requires WellKinded(t) && forall e :: e in done ==> Movable(t, e)
    ensures ps.Keys == done
  {
    map e | e in done :: (MovableShapes(t, e); NewPosition(t[PositionKind][e], NewVelocity(t[InputKind][e]), dt))
  }

  /** The store after the system has handled the movable entities in `done`. */
  function MovedOn(t: Tables, dt: real, done: set<nat>): (r: Tables)
    requires WellKinded(t) && done <= Query(t, MoveKinds).Keys
  {
    QueryMembersMovable(t);
    Overwrite(Overwrite(t, VelocityKind, Velocities(t, done)), PositionKind, Positions(t, dt, done))
  }

  /** The store after one run of the system: every movable entity handled. */
  function Moved(t: Tables, dt: real): (r: Tables)
    requires WellKinded(t)
  {
    MovedOn(t, dt, Query(t, MoveKinds).Keys)
  }

  /** The query's entities are exactly the movable ones. */
  lemma QueryMembersMovable(t: Tables)
    ensures forall e :: e in Query(t, MoveKinds) <==> Movable(t, e)
  {
    forall e
      ensures e in Query(t, MoveKinds) <==> Movable(t, e)
    {
      QueryMembers(t, MoveKinds, e);
      assert MoveKinds[0] == PositionKind && MoveKinds[1] == VelocityKind && MoveKinds[2] == InputKind;
      if e in Query(t, MoveKinds) {
        assert Lookup(t, e, MoveKinds[0]).Some? && Lookup(t, e, MoveKinds[1]).Some?;
        assert Lookup(t, e, MoveKinds[2]).Some?;
      }
    }
  }

  /** A query row of a movable entity holds its position first and its intent last. */
  lemma MoveRow(t: Tables, e: nat)
    requires e in Query(t, MoveKinds)
    ensures Movable(t, e)
    ensures |Query(t, MoveKinds)[e]| == 3
    ensures Query(t, MoveKinds)[e][0] == t[PositionKind][e] && Query(t, MoveKinds)[e][2] == t[InputKind][e]
  {
    QueryMembersMovable(t);
    QueryRowAt(t, MoveKinds, e, 0);
    QueryRowAt(t, MoveKinds, e, 2);
  }

  /** Handling no entity changes nothing. */
  lemma MovedOnNothing(t: Tables, dt: real)
    requires WellKinded(t)
    ensures MovedOn(t, dt, {}) == t
  {
    assert Velocities(t, {}) == map[];
    assert Positions(t, dt, {}) == map[];
    OverwriteNothing(t, VelocityKind);
    OverwriteNothing(t, PositionKind);
  }

  lemma VelocitiesStep(t: Tables, done: set<nat>, e: nat)
    requires WellKinded(t) && (forall e' :: e' in done ==> Movable(t, e')) && Movable(t, e)
    ensures t[InputKind][e].Input?
    ensures Velocities(t, done + {e}) == Velocities(t, done)[e := NewVelocity(t[InputKind][e])]
  {
    MovableShapes(t, e);
  }

  lemma PositionsStep(t: Tables, dt: real, done: set<nat>, e: nat)
    requires WellKinded(t) && (forall e' :: e' in done ==> Movable(t, e')) && Movable(t, e)
    ensures t[PositionKind][e].Position? && t[InputKind][e].Input?
    ensures Positions(t, dt, done + {e}) ==
            Positions(t, dt, done)[e := NewPosition(t[PositionKind][e], NewVelocity(t[InputKind][e]), dt)]
  {
    MovableShapes(t, e);
  }

  /** Handling one more entity is two add_component calls: velocity, then position. */
  lemma MovedStep(t: Tables, dt: real, done: set<nat>, e: nat)
    requires WellKinded(t) && done <= Query(t, MoveKinds).Keys && e in Query(t, MoveKinds)
    ensures Movable(t, e)
    ensures t[PositionKind][e].Position? && t[InputKind][e].Input?
    ensures MovedOn(t, dt, done + {e}) ==
            Insert(Insert(MovedOn(t, dt, done), e, NewVelocity(t[InputKind][e])),
                   e, NewPosition(t[PositionKind][e], NewVelocity(t[InputKind][e]), dt))
  {
    QueryMembersMovable(t);
    MovableShapes(t, e);
    var v := NewVelocity(t[InputKind][e]);
    var p := NewPosition(t[PositionKind][e], NewVelocity(t[InputKind][e]), dt);
    var vs, ps := Velocities(t, done), Positions(t, dt, done);
    VelocitiesStep(t, done, e);
    PositionsStep(t, dt, done, e);
    OverwriteTwiceStep(t, VelocityKind, vs, v, PositionKind, ps, p, e);
  }

  /**
   * get_component on the store after one run: a movable entity reads its new
   * velocity and position; every other entry reads as before, and no table is
   * created or dropped.
   */
  lemma LookupMoved(t: Tables, dt: real, e: nat, k: Kind)
    requires WellKinded(t)
    ensures Moved(t, dt).Keys == t.Keys
    ensures Movable(t, e) ==> t[PositionKind][e].Position? && t[InputKind][e].Input?
    ensures Lookup(Moved(t, dt), e, k) ==
      if Movable(t, e) && k == VelocityKind then Some(NewVelocity(t[InputKind][e]))
      else if Movable(t, e) && k == PositionKind
      then Some(NewPosition(t[PositionKind][e], NewVelocity(t[InputKind][e]), dt))
      else Lookup(t, e, k)
  {
    QueryMembersMovable(t);
    var done := Query(t, MoveKinds).Keys;
    var vs, ps := Velocities(t, done), Positions(t, dt, done);
    var mid := Overwrite(t, VelocityKind, vs);
    LookupOverwrite(t, VelocityKind, vs, e, k);
    LookupOverwrite(mid, PositionKind, ps, e, k);
    if Movable(t, e) {
      MovableShapes(t, e);
    }
  }

  /**
   * Every movable entity ends with velocity = intent × 200 and its position
   * advanced by that velocity × dt.
   */
  lemma MovedEffect(t: Tables, dt: real, e: nat, p: Component, i: Component)
    requires WellKinded(t) && Lookup(t, e, PositionKind) == Some(p) && Lookup(t, e, InputKind) == Some(i)
    requires VelocityKind in t && e in t[VelocityKind]
    ensures p.Position? && i.Input?
    ensures Lookup(Moved(t, dt), e, VelocityKind) == Some(Velocity(i.moveX * 200.0, i.moveY * 200.0))
    ensures Lookup(Moved(t, dt), e, PositionKind) ==
            Some(Position(p.x + i.moveX * 200.0 * dt, p.y + i.moveY * 200.0 * dt))
  {
    LookupMoved(t, dt, e, VelocityKind);
    LookupMoved(t, dt, e, PositionKind);
    StepValues(p, i, dt);
  }

  /**
   * Entities lacking one of the three kinds are untouched, and so is every kind
   * other than Velocity and Position (in particular Input).
   */
  lemma MovedFrame(t: Tables, dt: real, e: nat, k: Kind)
    requires WellKinded(t)
    requires !Movable(t, e) || (k != VelocityKind && k != PositionKind)
    ensures Lookup(Moved(t, dt), e, k) == Lookup(t, e, k)
  {
    LookupMoved(t, dt, e, k);
  }

  /** The run removes nothing: every entry present before is present after. */
  lemma MovedKeepsEntries(t: Tables, dt: real, e: nat, k: Kind)
    requires WellKinded(t) && Lookup(t, e, k).Some?
    ensures Lookup(Moved(t, dt), e, k).Some?
  {
    LookupMoved(t, dt, e, k);
  }

  /** Zero intent leaves the position where it was. */
  lemma ZeroIntentStays(t: Tables, dt: real, e: nat)
    requires WellKinded(t) && Movable(t, e) && t[InputKind][e] == Input(0.0, 0.0)
    ensures Lookup(Moved(t, dt), e, PositionKind) == Lookup(t, e, PositionKind)
  {
    MovedEffect(t, dt, e, t[PositionKind][e], t[InputKind][e]);
  }

  /** Replacing a movable entity's velocity beforehand changes no lookup after the run. */
  lemma VelocityIgnoredAt(t: Tables, dt: real, e: nat, v: Component, e': nat, k: Kind)
    requires WellKinded(t) && Movable(t, e) && v.Velocity?
    ensures Lookup(Moved(Insert(t, e, v), dt), e', k) == Lookup(Moved(t, dt), e', k)
  {
    var t' := Insert(t, e, v);
    LookupInsert(t, e, v, e', VelocityKind);
    LookupInsert(t, e, v, e', PositionKind);
    LookupInsert(t, e, v, e', InputKind);
    assert Movable(t', e') == Movable(t, e');
    LookupMoved(t, dt, e', k);
    LookupMoved(t', dt, e', k);
    LookupInsert(t, e, v, e', k);
  }

  /** The previous velocity plays no part: replacing it beforehand changes nothing after the run. */
  lemma VelocityIgnored(t: Tables, dt: real, e: nat, v: Component)
    requires WellKinded(t) && Movable(t, e) && v.Velocity?
    ensures Moved(Insert(t, e, v), dt) == Moved(t, dt)
  {
    var t' := Insert(t, e, v);
    forall e', k
      ensures Lookup(Moved(t', dt), e', k) == Lookup(Moved(t, dt), e', k)
    {
      VelocityIgnoredAt(t, dt, e, v, e', k);
    }
    LookupMoved(t, dt, e, VelocityKind);
    LookupMoved(t', dt, e, VelocityKind);
    SameLookups(Moved(t', dt), Moved(t, dt));
  }

  /** The loop body for one entity: write its new velocity, then its new position. */
  method MoveEntity(world: Ecs.World, e: nat, row: seq<Component>, dt: real,
                    ghost t0: Tables, ghost done: set<nat>)
    requires world.Valid() && WellKinded(t0)
    requires done <= Query(t0, MoveKinds).Keys && e in Query(t0, MoveKinds)
    requires row == Query(t0, MoveKinds)[e]
    requires world.tables == MovedOn(t0, dt, done)
    modifies world
    ensures world.Valid() && world.next == old(world.next)
    ensures world.tables == MovedOn(t0, dt, done + {e})
  {
    MoveRow(t0, e);
    MovedStep(t0, dt, done, e);
    var position, input := row[0], row[2];
    var velocity := NewVelocity(input);
    world.AddComponent(e, velocity);
    world.AddComponent(e, NewPosition(position, velocity, dt));
  }

  /**
   * The system, written as the source's loop over the query: each entity's velocity
   * is recomputed from its intent and its position advanced by velocity × dt,
   * both written back into the store.
   */
  method MovementSystem(world: Ecs.World, dt: real)
    requires world.Valid()
    modifies world
    ensures world.Valid() && world.next == old(world.next)
    ensures world.tables == Moved(old(world.tables), dt)
  {
    ghost var t0 := world.tables;
    var rows := world.GetComponents(MoveKinds);
    var pending := rows.Keys;
    ghost var done: set<nat> := {};
    MovedOnNothing(t0, dt);
    while pending != {}
      invariant world.Valid() && world.next == old(world.next)
      invariant pending !! done && pending + done == rows.Keys
      invariant world.tables == MovedOn(t0, dt, done)
      decreases pending
    {
      var e :| e in pending;
      MoveEntity(world, e, rows[e], dt, t0, done);
      done := done + {e};
      pending := pending - {e};
    }
    assert done == Query(t0, MoveKinds).Keys;
  }
}
