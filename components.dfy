/**
 * The component records of the entity-component store (shared/ecs.py:8-51) and the
 * tag that the store's tables are keyed by. Python keys its tables by the runtime
 * class of a component; here every component carries its kind as a constructor,
 * and `KindOf` gives the key.
 */
module Components {

  /** One table per kind of component. */
  datatype Kind =
    | PositionKind
    | VelocityKind
    | RenderableKind
    | PlayerControlledKind
    | InputKind
    | PlayerKind
    | HealthKind

  /** An RGB colour triple, Python's `tuple[int, int, int]`. */
  datatype Rgb = Rgb(r: int, g: int, b: int)

  const Green: Rgb := Rgb(0, 200, 0)
  const Red: Rgb := Rgb(200, 0, 0)

  /**
   * The component records. `Input`'s fields default to 0.0 as in the dataclass;
   * `Health` is the shape its one call site uses (shared/player.py:26), since the
   * store's module does not define it.
   */
  datatype Component =
    | Position(x: real, y: real)
    | Velocity(vx: real, vy: real)
    | Renderable(width: int, height: int, color: Rgb)
    | PlayerControlled
    | Input(moveX: real := 0.0, moveY: real := 0.0)
    | Player(id: int)
    | Health(current: int, maximum: int)

  /** The table a component is stored in: Python's `type(component)`. */
  function KindOf(c: Component): Kind {
    match c
    case Position(_, _) => PositionKind
    case Velocity(_, _) => VelocityKind
    case Renderable(_, _, _) => RenderableKind
    case PlayerControlled => PlayerControlledKind
    case Input(_, _) => InputKind
    case Player(_) => PlayerKind
    case Health(_, _) => HealthKind
  }
}
