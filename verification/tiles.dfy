/**
 * Tiles as values. Only the information the spatial model and the level builder
 * inspect is kept: the payloads drawn from reward pools, riddles and shop
 * inventories are reduced to the kind of tile that carries them.
 */
module Tiles {
  import opened Navigation
  import opened Wrappers

  datatype DoorOpenState = Open | Closed | KeyLocked | EventLocked

  datatype DoorOneWayState = NoOneWay | Temporary | Permanent

  /** The attributes a door receives from a hallway definition of a level file. */
  datatype DoorAttributes = DoorAttributes(
    openState: DoorOpenState,
    oneWay: DoorOneWayState,
    eventId: Option<string>,
    explanation: Option<string>,
    eventToTrigger: Option<string>)

  /**
   * A door faces `direction`. A door built from its direction alone (attributes
   * None) keeps the default open and one-way state of the door tile.
   */
  datatype Door = Door(direction: Direction, attributes: Option<DoorAttributes>)

  /** What a collectible tile holds: a draw from a reward pool or an energy pickup. */
  datatype CollectibleSource = FromRewardPool | EnergyPickup

  datatype Tile =
    | Invalid
    | Void
    | FogOfWar
    | Floor
    | Wall
    | Obstacle
    | DoorTile(door: Door)
    | EnemyTile(eid: int)
    | CollectibleTile(source: CollectibleSource)
    | EnergyTile
    | TriggerTile
    | MessageTile
    | RiddlerTile
    | ShopKeeperTile

  /** The codes the level builder assigns to tiles. */
  datatype TileCode =
    | CodeInvalid | CodeVoid | CodeFog | CodeFloor | CodeWall | CodeObstacle | CodeDoor
    | CodeEnemy | CodeCollectible | CodeEnergy | CodeTrigger | CodeMessage
    | CodeRiddler | CodeShopKeeper

  function Code(t: Tile): (c: TileCode)
    ensures c == CodeEnemy <==> t.EnemyTile?
    ensures c == CodeInvalid <==> t.Invalid?
  {
    match t
    case Invalid => CodeInvalid
    case Void => CodeVoid
    case FogOfWar => CodeFog
    case Floor => CodeFloor
    case Wall => CodeWall
    case Obstacle => CodeObstacle
    case DoorTile(_) => CodeDoor
    case EnemyTile(_) => CodeEnemy
    case CollectibleTile(_) => CodeCollectible
    case EnergyTile => CodeEnergy
    case TriggerTile => CodeTrigger
    case MessageTile => CodeMessage
    case RiddlerTile => CodeRiddler
    case ShopKeeperTile => CodeShopKeeper
  }
}
