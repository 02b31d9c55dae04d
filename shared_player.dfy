/** The player entity factory of the shared package (shared/player.py:14-28). */
module PlayerFactory {
  import opened Wrappers
  import opened Components
  import opened Store
  import Ecs

  /** The seven components create_player attaches, in the order it adds them. */
  function PlayerBundle(x: real, y: real, playerId: int, color: Rgb): (cs: seq<Component>)
    ensures |cs| == 7
  {
    [Position(x, y)] + [Velocity(0.0, 0.0)] + [Renderable(32, 32, color)] + [PlayerControlled] +
      [Input()] + [Player(playerId)] + [Health(100, 100)]
  }

  /** The bundle holds one component of each of its kinds. */
  lemma PlayerBundleDistinct(x: real, y: real, playerId: int, color: Rgb)
    ensures DistinctKinds(PlayerBundle(x, y, playerId, color))
  {
  }

  /**
   * Allocate one entity and add the player bundle to it, one add_component at a
   * time; the colour defaults to green.
   */
  method CreatePlayer(world: Ecs.World, x: real, y: real, playerId: int, color: Rgb := Green)
    returns (player: nat)
    requires world.Valid()
    modifies world
    ensures world.Valid()
    ensures player == old(world.next) && world.next == old(world.next) + 1
    ensures world.tables == InsertAll(old(world.tables), player, PlayerBundle(x, y, playerId, color))
  {
    ghost var t0 := world.tables;
    ghost var added: seq<Component> := [];
    player := world.CreateEntity();
    world.AddComponent(player, Position(x, y));
    InsertAllSnoc(t0, player, added, Position(x, y));
    added := added + [Position(x, y)];
    world.AddComponent(player, Velocity(0.0, 0.0));
    InsertAllSnoc(t0, player, added, Velocity(0.0, 0.0));
    added := added + [Velocity(0.0, 0.0)];
    world.AddComponent(player, Renderable(32, 32, color));
    InsertAllSnoc(t0, player, added, Renderable(32, 32, color));
    added := added + [Renderable(32, 32, color)];
    world.AddComponent(player, PlayerControlled);
    InsertAllSnoc(t0, player, added, PlayerControlled);
    added := added + [PlayerControlled];
    world.AddComponent(player, Input());
    InsertAllSnoc(t0, player, added, Input());
    added := added + [Input()];
    world.AddComponent(player, Player(playerId));
    InsertAllSnoc(t0, player, added, Player(playerId));
    added := added + [Player(playerId)];
    world.AddComponent(player, Health(100, 100));
    InsertAllSnoc(t0, player, added, Health(100, 100));
    added := added + [Health(100, 100)];
  }


  /**
   * The new entity holds Position(x, y), Velocity(0, 0), Renderable(32, 32, color),
   * the PlayerControlled tag, Input(0, 0), Player(playerId) and Health(100, 100).
   */
  lemma PlayerHoldsBundle(t: Tables, e: nat, x: real, y: real, playerId: int, color: Rgb)
    ensures var t' := InsertAll(t, e, PlayerBundle(x, y, playerId, color));
      && Lookup(t', e, PositionKind) == Some(Position(x, y))
      && Lookup(t', e, VelocityKind) == Some(Velocity(0.0, 0.0))
      && Lookup(t', e, RenderableKind) == Some(Renderable(32, 32, color))
      && Lookup(t', e, PlayerControlledKind) == Some(PlayerControlled)
      && Lookup(t', e, InputKind) == Some(Input(0.0, 0.0))
      && Lookup(t', e, PlayerKind) == Some(Player(playerId))
      && Lookup(t', e, HealthKind) == Some(Health(100, 100))
  {
    var bundle := PlayerBundle(x, y, playerId, color);
    PlayerBundleDistinct(x, y, playerId, color);
    assert bundle[0] == Position(x, y);
    InsertAllHit(t, e, bundle, 0);
    assert bundle[1] == Velocity(0.0, 0.0);
    InsertAllHit(t, e, bundle, 1);
    assert bundle[2] == Renderable(32, 32, color);
    InsertAllHit(t, e, bundle, 2);
    assert bundle[3] == PlayerControlled;
    InsertAllHit(t, e, bundle, 3);
    assert bundle[4] == Input();
    InsertAllHit(t, e, bundle, 4);
    assert bundle[5] == Player(playerId);
    InsertAllHit(t, e, bundle, 5);
    assert bundle[6] == Health(100, 100);
    InsertAllHit(t, e, bundle, 6);
  }

  /** No other entity's components change. */
  lemma PlayerLeavesOthers(t: Tables, e: nat, x: real, y: real, playerId: int, color: Rgb, e': nat, k: Kind)
    requires e' != e
    ensures Lookup(InsertAll(t, e, PlayerBundle(x, y, playerId, color)), e', k) == Lookup(t, e', k)
  {
    InsertAllMiss(t, e, PlayerBundle(x, y, playerId, color), e', k);
  }

  /** The new player is picked up by the movement system's query. */
  lemma PlayerIsMovable(t: Tables, e: nat, x: real, y: real, playerId: int, color: Rgb)
    ensures e in Query(InsertAll(t, e, PlayerBundle(x, y, playerId, color)),
                       [PositionKind, VelocityKind, InputKind])
  {
    var t' := InsertAll(t, e, PlayerBundle(x, y, playerId, color));
    PlayerHoldsBundle(t, e, x, y, playerId, color);
    QueryMembers(t', [PositionKind, VelocityKind, InputKind], e);
  }

  /** Without a colour argument the player is drawn green. */
  method CreateDefaultPlayer(world: Ecs.World, x: real, y: real, playerId: int) returns (player: nat)
    requires world.Valid()
    modifies world
    ensures world.Valid() && player == old(world.next)
    ensures world.GetComponent(player, RenderableKind) == Some(Renderable(32, 32, Rgb(0, 200, 0)))
  {
    player := CreatePlayer(world, x, y, playerId);
    PlayerHoldsBundle(old(world.tables), player, x, y, playerId, Green);
  }
}
