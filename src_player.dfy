/** The earlier player factory (src/player.py:5-18): six components, no Health. */
module LegacyPlayerFactory {
  import opened Wrappers
  import opened Components
  import opened Store
  import LegacyEcs

  /** The six components the earlier create_player attaches, in order. */
  function LegacyPlayerBundle(x: real, y: real, playerId: int, color: Rgb): (cs: seq<Component>)
    ensures |cs| == 6
  {
    [Position(x, y)] + [Velocity(0.0, 0.0)] + [Renderable(32, 32, color)] + [PlayerControlled] +
      [Input()] + [Player(playerId)]
  }

  /** The bundle holds one component of each of its kinds. */
  lemma LegacyPlayerBundleDistinct(x: real, y: real, playerId: int, color: Rgb)
    ensures DistinctKinds(LegacyPlayerBundle(x, y, playerId, color))
  {
  }

  /** The earlier bundle carries no Health. */
  lemma LegacyBundleHasNoHealth(x: real, y: real, playerId: int, color: Rgb)
    ensures forall i :: 0 <= i < 6 ==> KindOf(LegacyPlayerBundle(x, y, playerId, color)[i]) != HealthKind
  {
  }

  /** Allocate one entity and add the six components to it, one add_component at a time. */
  method CreatePlayer(world: LegacyEcs.World, x: real, y: real, playerId: int, color: Rgb := Green)
    returns (player: nat)
    requires world.Valid()
    modifies world
    ensures world.Valid()
    ensures player == old(world.next) && world.next == old(world.next) + 1
    ensures world.tables == InsertAll(old(world.tables), player, LegacyPlayerBundle(x, y, playerId, color))
  {
    ghost var t0 := world.tables;
    ghost var added: seq<Component> := [];
    player := world.CreateEntity();
    world.AddComponent(player, Position(x, y));
    InsertAllSnoc(t0, player, added, Position(x, y));
    added := added + [Position(x, y)];
    world.AddComponent(player, Velocity(0.0, 0.0));
    InsertAllSnoc(t0, player, added, Velocity(0.0, 0.0));
    added := added + [Velocity(0.0, 0.0)];
    world.AddComponent(player, Renderable(32, 32, color));
    InsertAllSnoc(t0, player, added, Renderable(32, 32, color));
    added := added + [Renderable(32, 32, color)];
    world.AddComponent(player, PlayerControlled);
    InsertAllSnoc(t0, player, added, PlayerControlled);
    added := added + [PlayerControlled];
    world.AddComponent(player, Input());
    InsertAllSnoc(t0, player, added, Input());
    added := added + [Input()];
    world.AddComponent(player, Player(playerId));
    InsertAllSnoc(t0, player, added, Player(playerId));
    added := added + [Player(playerId)];
  }


  /**
   * The new entity holds Position(x, y), Velocity(0, 0), Renderable(32, 32, color),
   * the PlayerControlled tag, Input(0, 0) and Player(playerId); its Health entry,
   * if any, is what it was before: the bundle adds none.
   */
  lemma LegacyPlayerHoldsBundle(t: Tables, e: nat, x: real, y: real, playerId: int, color: Rgb)
    ensures var t' := InsertAll(t, e, LegacyPlayerBundle(x, y, playerId, color));
      && Lookup(t', e, PositionKind) == Some(Position(x, y))
      && Lookup(t', e, VelocityKind) == Some(Velocity(0.0, 0.0))
      && Lookup(t', e, RenderableKind) == Some(Renderable(32, 32, color))
      && Lookup(t', e, PlayerControlledKind) == Some(PlayerControlled)
      && Lookup(t', e, InputKind) == Some(Input(0.0, 0.0))
      && Lookup(t', e, PlayerKind) == Some(Player(playerId))
      && Lookup(t', e, HealthKind) == Lookup(t, e, HealthKind)
  {
    var bundle := LegacyPlayerBundle(x, y, playerId, color);
    LegacyPlayerBundleDistinct(x, y, playerId, color);
    assert bundle[0] == Position(x, y);
    InsertAllHit(t, e, bundle, 0);
    assert bundle[1] == Velocity(0.0, 0.0);
    InsertAllHit(t, e, bundle, 1);
    assert bundle[2] == Renderable(32, 32, color);
    InsertAllHit(t, e, bundle, 2);
    assert bundle[3] == PlayerControlled;
    InsertAllHit(t, e, bundle, 3);
    assert bundle[4] == Input();
    InsertAllHit(t, e, bundle, 4);
    assert bundle[5] == Player(playerId);
    InsertAllHit(t, e, bundle, 5);
    LegacyBundleHasNoHealth(x, y, playerId, color);
    InsertAllMiss(t, e, bundle, e, HealthKind);
  }

  /** No other entity's components change. */
  lemma LegacyPlayerLeavesOthers(t: Tables, e: nat, x: real, y: real, playerId: int, color: Rgb, e': nat, k: Kind)
    requires e' != e
    ensures Lookup(InsertAll(t, e, LegacyPlayerBundle(x, y, playerId, color)), e', k) == Lookup(t, e', k)
  {
    InsertAllMiss(t, e, LegacyPlayerBundle(x, y, playerId, color), e', k);
  }
}
