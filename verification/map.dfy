/**
 * The dungeon map: a grid of rooms, 7 across and 3 down, in which the player
 * moves tile by tile. Every room occupies a 7x7 block of map tiles; between two
 * neighbouring blocks runs a one-tile boundary line that holds the hallways.
 */
module GameMap {
  import opened Wrappers
  import opened Navigation
  import opened Tiles
  import opened Rooms

  /** Rooms per map row and per map column. */
  const Columns := 7
  const Rows := 3

  /** A room block plus the boundary line to its East (or South). */
  const CellWidth := UnitWidth + 1
  const CellHeight := UnitHeight + 1

  /** The map position of `posInRoom` within the room at grid position `posOfRoom`. */
  function CalculatePos(posOfRoom: Coordinate, posInRoom: Coordinate): (c: Coordinate)
    ensures 0 <= posInRoom.x < CellWidth && 0 <= posOfRoom.x ==>
      c.x / CellWidth == posOfRoom.x && c.x % CellWidth == posInRoom.x
    ensures 0 <= posInRoom.y < CellHeight && 0 <= posOfRoom.y ==>
      c.y / CellHeight == posOfRoom.y && c.y % CellHeight == posInRoom.y
  {
    Coordinate(posOfRoom.x * CellWidth + posInRoom.x, posOfRoom.y * CellHeight + posInRoom.y)
  }

  /** The width of the map in tiles: it ends with the East wall of the last room column. */
  function Width(): (w: int)
    ensures w == 55
    ensures w == CalculatePos(Coordinate(Columns - 1, 0), Coordinate(UnitWidth - 1, 0)).x + 1
  {
    Columns * CellWidth - 1
  }

  /** The height of the map in tiles: it ends with the South wall of the last room row. */
  function Height(): (h: int)
    ensures h == 23
    ensures h == CalculatePos(Coordinate(0, Rows - 1), Coordinate(0, UnitHeight - 1)).y + 1
  {
    Rows * CellHeight - 1
  }

  /**
   * Where a map position lies: inside the room at grid position (rx, ry) at local
   * position (lx, ly), on the boundary line belonging to the hallway on side `side`
   * of that room, or on a crossing of two boundary lines, which belongs to nothing.
   */
  datatype Cell =
    | RoomCell(rx: int, ry: int, lx: int, ly: int)
    | HallwayCell(rx: int, ry: int, side: Direction, lx: int, ly: int)
    | Crossing

  /**
   * The arithmetic part of resolving a map position: a position on a vertical
   * boundary line belongs to the East hallway of the room to its left, one on a
   * horizontal boundary line to the South hallway of the room above it.
   */
  function Locate(x: int, y: int): (c: Cell)
    requires 0 <= x && 0 <= y
    ensures c.Crossing? <==> x % CellWidth == UnitWidth && y % CellHeight == UnitHeight
    ensures c.RoomCell? ==>
      && 0 <= c.lx < UnitWidth && 0 <= c.ly < UnitHeight && 0 <= c.rx && 0 <= c.ry
      && CalculatePos(Coordinate(c.rx, c.ry), Coordinate(c.lx, c.ly)) == Coordinate(x, y)
    ensures c.HallwayCell? && c.side == East ==>
      && 0 <= c.rx && 0 <= c.ry && 0 <= c.ly < UnitHeight
      && CalculatePos(Coordinate(c.rx, c.ry), Coordinate(UnitWidth, c.ly)) == Coordinate(x, y)
    ensures c.HallwayCell? && c.side == South ==>
      && 0 <= c.rx && 0 <= c.ry && 0 <= c.lx < UnitWidth
      && CalculatePos(Coordinate(c.rx, c.ry), Coordinate(c.lx, UnitHeight)) == Coordinate(x, y)
    ensures c.HallwayCell? ==> c.side == East || c.side == South
  {
    DivMod(x);
    DivMod(y);
    var xMod := x % CellWidth;
    var yMod := y % CellHeight;
    if xMod == UnitWidth then
      if yMod == UnitHeight then Crossing
      else HallwayCell((x - 1) / CellWidth, y / CellHeight, East, xMod - 1, yMod)
    else if yMod == UnitHeight then
      HallwayCell(x / CellWidth, (y - 1) / CellHeight, South, xMod, yMod - 1)
    else
      RoomCell(x / CellWidth, y / CellHeight, xMod, yMod)
  }

  /** Division by the block size, and the step back from a boundary line into its block. */
  lemma DivMod(v: int)
    requires 0 <= v
    ensures v == (v / 8) * 8 + v % 8 && 0 <= v % 8 < 8
    ensures v % 8 == 7 ==> (v - 1) / 8 == v / 8 && (v - 1) % 8 == 6
  {
  }

  /** Every position inside a room block resolves to that room and that local position. */
  lemma LocateCalculatePos(posOfRoom: Coordinate, posInRoom: Coordinate)
    requires 0 <= posOfRoom.x && 0 <= posOfRoom.y
    requires 0 <= posInRoom.x < UnitWidth && 0 <= posInRoom.y < UnitHeight
    ensures var p := CalculatePos(posOfRoom, posInRoom);
      Locate(p.x, p.y) == RoomCell(posOfRoom.x, posOfRoom.y, posInRoom.x, posInRoom.y)
  {
  }

  /** What the player can stand in: a room or a hallway. */
  datatype Place = RoomPlace(room: Room) | HallwayPlace(hallway: Hallway) {

    /** The place is one of the given rooms or hallways. */
    predicate In(rooms: set<Room>, hallways: set<Hallway>) {
      match this
      case RoomPlace(room) => room in rooms
      case HallwayPlace(hallway) => hallway in hallways
    }

    /**
     * The effect of entering the place: a room is visible and visited; both rooms
     * of a hallway are shown.
     */
    ghost predicate Entered()
      reads if RoomPlace? then {room.area} else {hallway}
      reads if HallwayPlace? && hallway.room1 != null then hallway.room1.hallways.Values + hallway.room1.Cascade() else {}
      reads if HallwayPlace? && hallway.room2 != null then hallway.room2.hallways.Values + hallway.room2.Cascade() else {}
    {
      match this
      case RoomPlace(room) => room.area.visible && room.area.visited
      case HallwayPlace(h) =>
        && h.room1 != null && h.room2 != null && h.room1.Valid() && h.room2.Valid()
        && h.room1.Shown() && h.room2.Shown()
    }

    /** The areas entering the place may put in sight: everything its rooms' hallways reach. */
    ghost function SeenAreas(): set<Area>
      reads if HallwayPlace? then {hallway} else {}
      reads if HallwayPlace? && hallway.room1 != null then hallway.room1.hallways.Values else {}
      reads if HallwayPlace? && hallway.room2 != null then hallway.room2.hallways.Values else {}
    {
      match this
      case RoomPlace(_) => {}
      case HallwayPlace(h) =>
        (if h.room1 != null then h.room1.Cascade() else {}) + (if h.room2 != null then h.room2.Cascade() else {})
    }

    /**
     * The areas entering the place may make visible: a room's own area, or the
     * rooms of a hallway with their hallways, but not the rooms beyond those.
     */
    ghost function LitAreas(): set<Area>
      reads if HallwayPlace? then {hallway} else {}
      reads if HallwayPlace? && hallway.room1 != null then hallway.room1.hallways.Values else {}
      reads if HallwayPlace? && hallway.room2 != null then hallway.room2.hallways.Values else {}
    {
      match this
      case RoomPlace(room) => {room.area}
      case HallwayPlace(h) =>
        (if h.room1 != null then h.room1.Revealed() else {}) + (if h.room2 != null then h.room2.Revealed() else {})
    }

    /** The areas entering the place may mark visited: a room's own area only. */
    ghost function VisitedAreas(): set<Area> {
      match this
      case RoomPlace(room) => {room.area}
      case HallwayPlace(_) => {}
    }
  }

  /**
   * A room grid the map can be built on, together with its rooms, their hallways
   * and all their areas: 3 rows of 7 slots, every room of the grid and every
   * room a hallway links is known, and the areas are well formed.
   */
  ghost predicate GridClosed(rooms: seq<seq<Room?>>, roomSet: set<Room>, hallwaySet: set<Hallway>, areas: set<Area>)
    reads hallwaySet, areas`tiles
  {
    && |rooms| == Rows
    && (forall y | 0 <= y < Rows :: |rooms[y]| == Columns)
    && (forall y, x | 0 <= y < Rows && 0 <= x < Columns && rooms[y][x] != null :: rooms[y][x] in roomSet)
    && (forall r | r in roomSet ::
          r.Valid() && r.area in areas && r.area.Valid() && !r.area.placeholder && r.hallways.Values <= hallwaySet)
    && (forall h | h in hallwaySet :: h.area in areas && h.area.Valid() && h.room1 in roomSet && h.room2 in roomSet)
  }

  class Map {
    const seed: int
    const rooms: seq<seq<Room?>>
    var playerPos: Coordinate
    var curArea: Place

    /** The rooms, hallways and areas of the grid. */
    ghost const roomSet: set<Room>
    ghost const hallwaySet: set<Hallway>
    ghost const areas: set<Area>

    ghost predicate Valid()
      reads hallwaySet, areas`tiles
    {
      GridClosed(rooms, roomSet, hallwaySet, areas)
    }

    /** Everything entering a room of the grid may touch is an area of the grid. */
    lemma CascadeInAreas(r: Room)
      requires Valid() && r in roomSet
      ensures r.Cascade() <= areas
    {
      ReachInAreas(r, North);
      ReachInAreas(r, East);
      ReachInAreas(r, South);
      ReachInAreas(r, West);
    }

    /** Everything entering a place of the grid may touch is an area of the grid. */
    lemma PlaceInAreas(place: Place)
      requires Valid() && place.In(roomSet, hallwaySet)
      ensures place.SeenAreas() <= areas && place.LitAreas() <= areas && place.VisitedAreas() <= areas
    {
      match place
      case RoomPlace(_) =>
      case HallwayPlace(h) =>
        CascadeInAreas(h.room1);
        CascadeInAreas(h.room2);
    }

    lemma ReachInAreas(r: Room, d: Direction)
      requires Valid() && r in roomSet
      ensures r.Reach(d) <= areas
    {
      if d in r.hallways {
        var h := r.hallways[d];
        assert h in r.hallways.Values;
        assert h.room1 in roomSet && h.room2 in roomSet;
      }
    }

    /**
     * Places the player in the middle of the spawn room, enters that room and
     * makes it visible, which puts its hallways and neighbours in sight.
     */
    constructor (seed: int, rooms: seq<seq<Room?>>, spawnRoom: Coordinate,
                 ghost roomSet: set<Room>, ghost hallwaySet: set<Hallway>, ghost areas: set<Area>)
      requires GridClosed(rooms, roomSet, hallwaySet, areas)
      requires 0 <= spawnRoom.y < Rows && 0 <= spawnRoom.x < Columns
      requires rooms[spawnRoom.y][spawnRoom.x] != null
      modifies areas`inSight, areas`visible, areas`visited
      ensures Valid() && this.seed == seed && this.rooms == rooms
      ensures this.roomSet == roomSet && this.hallwaySet == hallwaySet && this.areas == areas
      ensures playerPos == CalculatePos(spawnRoom, Coordinate(MidX, MidY))
      ensures curArea == RoomPlace(rooms[spawnRoom.y][spawnRoom.x])
      ensures curArea.room.area.visited && curArea.room.Shown()
      ensures forall a: Area | old(allocated(a)) ::
        (old(a.inSight) ==> a.inSight) && (old(a.visible) ==> a.visible) && (old(a.visited) ==> a.visited)
      ensures var spawn := rooms[spawnRoom.y][spawnRoom.x];
        forall a: Area | old(allocated(a)) && a !in old(spawn.Cascade()) :: a.inSight == old(a.inSight)
      ensures forall a: Area | old(allocated(a)) && a !in rooms[spawnRoom.y][spawnRoom.x].Revealed() ::
        a.visible == old(a.visible)
      ensures forall a: Area | old(allocated(a)) && a != rooms[spawnRoom.y][spawnRoom.x].area ::
        a.visited == old(a.visited)
    {
      this.seed := seed;
      this.rooms := rooms;
      this.roomSet, this.hallwaySet, this.areas := roomSet, hallwaySet, areas;
      var spawn := rooms[spawnRoom.y][spawnRoom.x];
      playerPos := CalculatePos(spawnRoom, Coordinate(MidX, MidY));
      curArea := RoomPlace(spawn);
      new;
      CascadeInAreas(spawn);
      ReachStays(spawn);
      EnterAndReveal(spawn, rooms, roomSet, hallwaySet, areas);
    }

    /** The room at grid position (x, y), or null outside the grid. */
    function RoomAt(x: int, y: int): (r: Room?)
      requires Valid()
      reads hallwaySet, areas`tiles
      ensures !(0 <= x < Columns && 0 <= y < Rows) ==> r == null
      ensures r != null ==> r in roomSet
      ensures 0 <= x < Columns && 0 <= y < Rows ==> r == rooms[y][x]
    {
      if 0 <= x < Columns && 0 <= y < Rows then rooms[y][x] else null
    }

    /**
     * The room or hallway at map position (x, y) and the tile it shows there;
     * no place and the Invalid tile on a boundary crossing, at an empty room slot
     * and where a room has no hallway.
     */
    function GetArea(x: int, y: int, revealed: bool): (r: (Option<Place>, Tile))
      requires Valid()
      requires 0 <= x < Width() && 0 <= y < Height()
      reads hallwaySet, areas
      ensures r.0.None? ==> r.1 == Invalid
      ensures Locate(x, y).Crossing? ==> r == (None, Invalid)
      ensures r.0.Some? && r.0.value.RoomPlace? ==>
        var c := Locate(x, y);
        && c.RoomCell? && r.0.value.room == rooms[c.ry][c.rx]
        && r.1 == r.0.value.room.area.At(c.lx, c.ly, false, revealed)
      ensures r.0.Some? && r.0.value.HallwayPlace? ==>
        var c := Locate(x, y);
        && c.HallwayCell? && rooms[c.ry][c.rx] != null
        && rooms[c.ry][c.rx].GetHallway(c.side) == Some(r.0.value.hallway)
      ensures Locate(x, y).RoomCell? && rooms[Locate(x, y).ry][Locate(x, y).rx] != null ==> r.0.Some?
      ensures var c := Locate(x, y);
        c.HallwayCell? && rooms[c.ry][c.rx] != null && c.side in rooms[c.ry][c.rx].hallways ==>
          var h := rooms[c.ry][c.rx].hallways[c.side];
          r == (Some(HallwayPlace(h)),
                if h.IsHorizontal() then h.area.At(c.lx, 0, false, revealed) else h.area.At(0, c.ly, false, revealed))
      ensures r.0.Some? ==> r.0.value.In(roomSet, hallwaySet)
    {
      match Locate(x, y)
      case Crossing => (None, Invalid)
      case RoomCell(rx, ry, lx, ly) =>
        var room := rooms[ry][rx];
        if room == null then (None, Invalid)
        else (Some(RoomPlace(room)), room.area.At(lx, ly, false, revealed))
      case HallwayCell(rx, ry, side, lx, ly) =>
        var room := rooms[ry][rx];
        if room == null then (None, Invalid)
        else
          match room.GetHallway(side)
          case None => (None, Invalid)
          case Some(hallway) =>
            assert hallway in room.hallways.Values;
            if hallway.IsHorizontal() then (Some(HallwayPlace(hallway)), hallway.area.At(lx, 0, false, revealed))
            else (Some(HallwayPlace(hallway)), hallway.area.At(0, ly, false, revealed))
    }

    /**
     * Tries to move the player one tile in `direction`. `walkable` is the tile's
     * walkability for the player; the Invalid tile is never walkable.
     */
    method Move(direction: Direction, walkable: (Tile, Direction) -> bool, revealed: bool) returns (moved: bool)
      requires Valid()
      requires forall d :: !walkable(Invalid, d)
      modifies this`playerPos, this`curArea, areas`inSight, areas`visible, areas`visited
      ensures Valid()
      ensures !moved ==> playerPos == old(playerPos) && curArea == old(curArea) && unchanged(areas)
      ensures moved <==>
        var p := old(playerPos).Plus(direction);
        && 0 <= p.x < Width() && 0 <= p.y < Height()
        && walkable(old(GetArea(p.x, p.y, revealed)).1, direction)
      ensures moved ==> playerPos == old(playerPos).Plus(direction)
      ensures moved ==> var p := old(playerPos).Plus(direction);
        Some(curArea) == old(GetArea(p.x, p.y, revealed)).0
      ensures moved && curArea == old(curArea) ==> unchanged(areas)
      ensures moved && curArea != old(curArea) ==> curArea.Entered()
      ensures var c := curArea; forall a: Area | old(allocated(a)) && a !in old(c.SeenAreas()) :: a.inSight == old(a.inSight)
      ensures var c := curArea; forall a: Area | old(allocated(a)) && a !in old(c.LitAreas()) :: a.visible == old(a.visible)
      ensures forall a: Area | old(allocated(a)) && a !in curArea.VisitedAreas() :: a.visited == old(a.visited)
      ensures forall a: Area | old(allocated(a)) ::
        (old(a.inSight) ==> a.inSight) && (old(a.visible) ==> a.visible) && (old(a.visited) ==> a.visited)
    {
      var newPos := playerPos.Plus(direction);
      if newPos.y < 0 || Height() <= newPos.y || newPos.x < 0 || Width() <= newPos.x {
        return false;
      }
      var (place, tile) := GetArea(newPos.x, newPos.y, revealed);
      if walkable(tile, direction) {
        PlaceInAreas(place.value);
        MoveTo(newPos, place.value, direction);
        return true;
      }
      return false;
    }

    /** Puts the player at `pos` in `place`, entering `place` when it is not the current one. */
    method MoveTo(pos: Coordinate, place: Place, direction: Direction)
      requires Valid() && place.In(roomSet, hallwaySet)
      modifies this`playerPos, this`curArea
      modifies place.SeenAreas()`inSight, place.LitAreas()`visible, place.VisitedAreas()`visited
      ensures Valid() && playerPos == pos && curArea == place
      ensures place == old(curArea) ==> unchanged(areas)
      ensures place != old(curArea) ==> place.Entered()
      ensures forall a: Area | old(allocated(a)) && a !in old(place.SeenAreas()) :: a.inSight == old(a.inSight)
      ensures forall a: Area | old(allocated(a)) && a !in old(place.LitAreas()) :: a.visible == old(a.visible)
      ensures forall a: Area | old(allocated(a)) && a !in place.VisitedAreas() :: a.visited == old(a.visited)
      ensures forall a: Area | old(allocated(a)) ::
        (old(a.inSight) ==> a.inSight) && (old(a.visible) ==> a.visible) && (old(a.visited) ==> a.visited)
    {
      // The player's position is set first: nothing below reads it.
      playerPos := pos;
      if place != curArea {
        curArea := place;
        PlaceAreasStay(place);
        EnterPlace(curArea, direction);
      }
    }

    /** Enters a room (marks it visible and visited) or a hallway (makes both its rooms visible). */
    method EnterPlace(place: Place, direction: Direction)
      requires Valid() && place.In(roomSet, hallwaySet)
      modifies place.SeenAreas()`inSight, place.LitAreas()`visible, place.VisitedAreas()`visited
      ensures Valid() && place.Entered()
      ensures forall a: Area | old(allocated(a)) ::
        (old(a.inSight) ==> a.inSight) && (old(a.visible) ==> a.visible) && (old(a.visited) ==> a.visited)
    {
      match place
      case RoomPlace(room) =>
        room.area.Enter(direction);
      case HallwayPlace(hallway) =>
        hallway.Enter(direction);
    }
  }

  /**
   * Enters a room of a grid from nowhere and makes it visible: only the room
   * is visited, only it and its hallways are revealed, and the rooms beyond
   * its hallways are only put in sight.
   */
  method EnterAndReveal(room: Room, ghost rooms: seq<seq<Room?>>, ghost roomSet: set<Room>,
                        ghost hallwaySet: set<Hallway>, ghost areas: set<Area>)
    requires GridClosed(rooms, roomSet, hallwaySet, areas) && room in roomSet
    modifies room.Cascade()`inSight, room.Revealed()`visible, room.area`visited
    ensures GridClosed(rooms, roomSet, hallwaySet, areas)
    ensures room.area.visited && room.Shown()
    ensures forall a: Area | old(allocated(a)) ::
      (old(a.inSight) ==> a.inSight) && (old(a.visible) ==> a.visible) && (old(a.visited) ==> a.visited)
  {
    label start:
    room.area.Enter(Center);
    ReachStays(room);
    room.MakeVisible();
    assert unchanged@start(hallwaySet, areas`tiles);
  }

  /** While no hallway changes its rooms, a place keeps the areas entering it may touch. */
  twostate lemma PlaceAreasStay(place: Place)
    requires forall h: Hallway | old(allocated(h)) :: h.room1 == old(h.room1) && h.room2 == old(h.room2)
    ensures place.SeenAreas() == old(place.SeenAreas())
    ensures place.LitAreas() == old(place.LitAreas())
  {
    match place
    case RoomPlace(_) =>
    case HallwayPlace(h) =>
      assert h.room1 == old(h.room1) && h.room2 == old(h.room2);
      if h.room1 != null {
        ReachStays(h.room1);
      }
      if h.room2 != null {
        ReachStays(h.room2);
      }
  }

  /**
   * Every tile of a room on the map can be looked up again: the position computed
   * for a local position of the room at (rx, ry) resolves back to that room and
   * shows that room's tile there.
   */
  lemma GetAreaCalculatePos(m: Map, posOfRoom: Coordinate, posInRoom: Coordinate, revealed: bool)
    requires m.Valid()
    requires m.RoomAt(posOfRoom.x, posOfRoom.y) != null
    requires 0 <= posInRoom.x < UnitWidth && 0 <= posInRoom.y < UnitHeight
    ensures var p := CalculatePos(posOfRoom, posInRoom);
      var room := m.RoomAt(posOfRoom.x, posOfRoom.y);
      && 0 <= p.x < Width() && 0 <= p.y < Height()
      && m.GetArea(p.x, p.y, revealed) == (Some(RoomPlace(room)), room.area.At(posInRoom.x, posInRoom.y, false, revealed))
  {
    LocateCalculatePos(posOfRoom, posInRoom);
  }

  /**
   * The boundary cells east and south of an existing room lie on the map
   * unless the room is in the last column or row; there they resolve to the
   * room's hallway on that side and show its tile at the matching offset.
   */
  lemma GetAreaHallwayPos(m: Map, posOfRoom: Coordinate, side: Direction, k: int, revealed: bool)
    requires m.Valid()
    requires m.RoomAt(posOfRoom.x, posOfRoom.y) != null
    requires side == East || side == South
    requires side in m.RoomAt(posOfRoom.x, posOfRoom.y).hallways
    requires 0 <= k < (if side == East then UnitHeight else UnitWidth)
    ensures var p := if side == East then CalculatePos(posOfRoom, Coordinate(UnitWidth, k))
                     else CalculatePos(posOfRoom, Coordinate(k, UnitHeight));
      && (0 <= p.x < Width() && 0 <= p.y < Height() <==>
            if side == East then posOfRoom.x < Columns - 1 else posOfRoom.y < Rows - 1)
      && (0 <= p.x < Width() && 0 <= p.y < Height() ==>
            var h := m.RoomAt(posOfRoom.x, posOfRoom.y).hallways[side];
            var (lx, ly) := if side == East then (UnitWidth - 1, k) else (k, UnitHeight - 1);
            m.GetArea(p.x, p.y, revealed)
              == (Some(HallwayPlace(h)),
                  if h.IsHorizontal() then h.area.At(lx, 0, false, revealed) else h.area.At(0, ly, false, revealed)))
  {
    var p := if side == East then CalculatePos(posOfRoom, Coordinate(UnitWidth, k))
             else CalculatePos(posOfRoom, Coordinate(k, UnitHeight));
    if 0 <= p.x < Width() && 0 <= p.y < Height() {
      var c := Locate(p.x, p.y);
      if side == East {
        assert c == HallwayCell(posOfRoom.x, posOfRoom.y, East, UnitWidth - 1, k);
      } else {
        assert c == HallwayCell(posOfRoom.x, posOfRoom.y, South, k, UnitHeight - 1);
      }
    }
  }
}
