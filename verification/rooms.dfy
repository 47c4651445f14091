/**
 * The spatial model of a dungeon level: Areas (tile grids with a visibility
 * state), Hallways (one door between two rooms) and Rooms (a walled 7x7 grid
 * with up to one hallway per side). Area is the common part of Room and
 * Hallway; both hold their Area as a component.
 */
module Rooms {
  import opened Wrappers
  import opened Navigation
  import opened Tiles
  import opened Random

  /** The sides of a room, in the order a room registers its hallways. */
  const Sides: seq<Direction> := [North, East, South, West]

  const UnitWidth: int := 7
  const UnitHeight: int := 7
  const MidX: int := UnitWidth / 2
  const MidY: int := UnitHeight / 2
  /** Size of a room without its walls. */
  const InnerWidth: int := UnitWidth - 2
  const InnerHeight: int := UnitHeight - 2
  const LastRow: int := UnitHeight - 1
  const LastCol: int := UnitWidth - 1
  /** Number of enemy groups a wild room distributes its enemies into. */
  const NumOfEnemyGroups: int := 4

  /*********************************************************************
   * Area
   *********************************************************************/

  /**
   * A rectangular tile grid with three visibility flags. The flags are only
   * ever raised: in sight (seen from a neighbouring area, shown as fog),
   * visible (real tiles are shown) and visited (the player has entered).
   * A placeholder area always shows void and ignores in_sight and enter.
   */
  class Area {
    var tiles: seq<seq<Tile>>
    const width: nat
    const height: nat
    const placeholder: bool
    var inSight: bool
    var visible: bool
    var visited: bool

    ghost predicate Valid()
      reads this`tiles
    {
      |tiles| == height && forall y | 0 <= y < height :: |tiles[y]| == width
    }

    constructor (tileMatrix: seq<seq<Tile>>)
      requires 0 < |tileMatrix|
      requires forall y | 0 <= y < |tileMatrix| :: |tileMatrix[y]| == |tileMatrix[0]|
      ensures Valid() && !placeholder
      ensures tiles == tileMatrix && width == |tileMatrix[0]| && height == |tileMatrix|
      ensures !inSight && !visible && !visited
    {
      tiles := tileMatrix;
      width := |tileMatrix[0]|;
      height := |tileMatrix|;
      placeholder := false;
      inSight, visible, visited := false, false, false;
    }

    /** An area standing for a missing room or hallway. */
    constructor Placeholder()
      ensures Valid() && placeholder
      ensures tiles == [[Void]] && width == 1 && height == 1
      ensures !inSight && !visible && !visited
    {
      tiles := [[Void]];
      width, height := 1, 1;
      placeholder := true;
      inSight, visible, visited := false, false, false;
    }

    /** Whether real tiles are shown; `revealed` is the global reveal-the-map switch. */
    predicate IsVisible(revealed: bool)
      reads this
    {
      visible || revealed
    }

    /**
     * The tile shown at (x, y): the stored tile once the area is visible (or
     * revealed, or when forced), fog while it is only in sight, void while it
     * is unseen, and the Invalid sentinel outside the grid.
     */
    function At(x: int, y: int, force: bool, revealed: bool): (t: Tile)
      requires Valid()
      reads this
      ensures placeholder ==> t == Void
      ensures !placeholder && !(0 <= x < width && 0 <= y < height) ==> t == Invalid
      ensures !placeholder && 0 <= x < width && 0 <= y < height ==>
        t == (if IsVisible(revealed) || force then tiles[y][x]
              else if inSight then FogOfWar
              else Void)
    {
      if placeholder then Void
      else if 0 <= x < width && 0 <= y < height then
        if IsVisible(revealed) || force then tiles[y][x]
        else if inSight then FogOfWar
        else Void
      else Invalid
    }

    /** Places `tile` at (x, y) when that lies inside a unit-sized grid. */
    method SetTile(tile: Tile, x: int, y: int) returns (ok: bool)
      requires Valid() && UnitWidth <= width && UnitHeight <= height
      modifies this`tiles
      ensures Valid()
      ensures ok <==> 0 <= x < UnitWidth && 0 <= y < UnitHeight
      ensures ok ==> tiles[y][x] == tile
      ensures ok ==> forall j, i | 0 <= j < height && 0 <= i < width && (j != y || i != x) ::
                       tiles[j][i] == old(tiles[j][i])
      ensures !ok ==> tiles == old(tiles)
    {
      if 0 <= x < UnitWidth && 0 <= y < UnitHeight {
        tiles := tiles[y := tiles[y][x := tile]];
        return true;
      }
      return false;
    }

    method MakeVisible()
      modifies this`inSight, this`visible
      ensures inSight && visible
    {
      inSight := true;
      visible := true;
    }

    method InSight()
      modifies this`inSight
      ensures inSight == (old(inSight) || !placeholder)
    {
      if !placeholder {
        inSight := true;
      }
    }

    method Enter(direction: Direction)
      modifies this`visible, this`visited
      ensures visible == (old(visible) || !placeholder)
      ensures visited == (old(visited) || !placeholder)
    {
      if !placeholder {
        visible := true;
        visited := true;
      }
    }
  }

  /*********************************************************************
   * Hallway
   *********************************************************************/

  /**
   * Whether a hallway lying in direction `d` of a room sees that room as its
   * first room: true for East and South.
   */
  predicate IsFirst(d: Direction)
    ensures IsFirst(d) <==> d.Dx() + d.Dy() > 0
  {
    d == East || d == South
  }

  /** The two rooms at the ends of a hallway see it from opposite sides, so one is first and one second. */
  lemma IsFirstOppositeSides(d: Direction)
    requires d != Center
    ensures IsFirst(d) != IsFirst(d.Opposite())
  {
  }

  function Voids(n: nat): (s: seq<Tile>)
    ensures |s| == n && forall i | 0 <= i < n :: s[i] == Void
  {
    seq(n, _ => Void)
  }

  /** Turns a sequence of tiles into a one-tile-wide column. */
  function Column(s: seq<Tile>): (g: seq<seq<Tile>>)
    ensures |g| == |s| && forall i | 0 <= i < |s| :: g[i] == [s[i]]
  {
    seq(|s|, i requires 0 <= i < |s| => [s[i]])
  }

  /**
   * The tiles of the hallway holding `door`: a door between two walls, padded
   * with void to the size of a unit. It is a row when the door does not
   * connect horizontally, and a column when it does.
   */
  function HallwayTiles(door: Door): (g: seq<seq<Tile>>)
    ensures !door.direction.IsHorizontal() ==>
      && |g| == 1 && |g[0]| == UnitWidth
      && g[0][MidX] == DoorTile(door)
      && g[0][MidX - 1] == Wall && g[0][MidX + 1] == Wall
      && forall x | 0 <= x < UnitWidth && (x < MidX - 1 || MidX + 1 < x) :: g[0][x] == Void
    ensures door.direction.IsHorizontal() ==>
      && |g| == UnitHeight
      && (forall y | 0 <= y < UnitHeight :: |g[y]| == 1)
      && g[MidY][0] == DoorTile(door)
      && g[MidY - 1][0] == Wall && g[MidY + 1][0] == Wall
      && forall y | 0 <= y < UnitHeight && (y < MidY - 1 || MidY + 1 < y) :: g[y][0] == Void
  {
    if !door.direction.IsHorizontal() then
      var missingHalf := (UnitWidth - 3) / 2;
      [Voids(missingHalf) + [Wall, DoorTile(door), Wall] + Voids(missingHalf)]
    else
      var missingHalf := (UnitHeight - 3) / 2;
      Column(Voids(missingHalf) + [Wall, DoorTile(door), Wall] + Voids(missingHalf))
  }

  /**
   * A single row or column holding one door. The rooms at its two ends are
   * attached after construction, by the rooms themselves.
   */
  class Hallway {
    const door: Door
    const area: Area
    var room1: Room?
    var room2: Room?

    constructor (door: Door)
      ensures this.door == door && room1 == null && room2 == null
      ensures fresh(area) && area.Valid() && !area.placeholder
      ensures area.tiles == HallwayTiles(door)
      ensures !area.inSight && !area.visible && !area.visited
    {
      this.door := door;
      var tiles := HallwayTiles(door);
      area := new Area(tiles);
      room1, room2 := null, null;
    }

    /** Whether the hallway links a room to its East/West neighbour. */
    predicate ConnectsHorizontally()
      ensures ConnectsHorizontally() <==> door.direction.Dx() != 0
    {
      door.direction.IsHorizontal()
    }

    /** Whether the hallway's tiles form a row. */
    predicate IsHorizontal()
      ensures IsHorizontal() <==> |HallwayTiles(door)| == 1
      ensures IsHorizontal() ==> |HallwayTiles(door)[0]| == UnitWidth
    {
      !ConnectsHorizontally()
    }

    /** The first (East/South side) or second room of the hallway. */
    function GetRoom(first: bool): (r: Room?)
      reads this
      ensures r == (if first then room1 else room2)
    {
      if first then room1 else room2
    }

    /** The areas of the rooms attached so far. */
    ghost function RoomAreas(): set<Area>
      reads this
    {
      (if room1 != null then {room1.area} else {}) + (if room2 != null then {room2.area} else {})
    }

    /** Attaches `room`, which sees this hallway in `direction`. */
    method SetRoom(room: Room, direction: Direction)
      modifies this`room1, this`room2
      ensures IsFirst(direction) ==> room1 == room && room2 == old(room2)
      ensures !IsFirst(direction) ==> room2 == room && room1 == old(room1)
      ensures GetRoom(IsFirst(direction)) == room
    {
      if IsFirst(direction) {
        room1 := room;
      } else {
        room2 := room;
      }
    }

    /** The hallway is visible and the rooms attached to it are in sight. */
    ghost predicate Shown()
      reads this, area, RoomAreas()
    {
      && area.inSight && area.visible
      && (room1 != null ==> room1.area.inSight || room1.area.placeholder)
      && (room2 != null ==> room2.area.inSight || room2.area.placeholder)
    }

    /** Seeing a hallway reveals it and puts both of its rooms in sight. */
    method InSight()
      modifies area`inSight, area`visible, RoomAreas()`inSight
      ensures Shown()
      ensures forall a: Area | old(allocated(a)) :: (old(a.inSight) ==> a.inSight) && (old(a.visible) ==> a.visible)
    {
      area.MakeVisible();
      if room1 != null {
        room1.area.InSight();
      }
      if room2 != null {
        room2.area.InSight();
      }
    }

    /** Entering a hallway makes both of its rooms visible. */
    method Enter(direction: Direction)
      requires room1 != null && room2 != null && room1.Valid() && room2.Valid()
      modifies room1.Cascade()`inSight, room1.Revealed()`visible
      modifies room2.Cascade()`inSight, room2.Revealed()`visible
      ensures room1.Shown() && room2.Shown()
      ensures forall a: Area | old(allocated(a)) :: (old(a.inSight) ==> a.inSight) && (old(a.visible) ==> a.visible)
    {
      room1.MakeVisible();
      label firstShown:
      ReachStays(room2);
      room2.MakeVisible();
      ShownPreserved@firstShown(room1);
    }
  }

  /*********************************************************************
   * Room
   *********************************************************************/

  /** Whether a room interior position lies inside the 5x5 interior. */
  predicate InInterior(p: Coordinate) {
    0 <= p.x < InnerWidth && 0 <= p.y < InnerHeight
  }

  function IndexToCoordinate(i: int): Coordinate {
    Coordinate(i % InnerWidth, i / InnerWidth)
  }

  /** The position of an interior coordinate in a row-major tile list. */
  function CoordinateToIndex(p: Coordinate): (i: int)
    ensures InInterior(p) ==> 0 <= i < InnerWidth * InnerHeight && IndexToCoordinate(i) == p
  {
    p.y * InnerWidth + p.x
  }

  lemma IndexToCoordinateInverse(i: int)
    requires 0 <= i < InnerWidth * InnerHeight
    ensures InInterior(IndexToCoordinate(i)) && CoordinateToIndex(IndexToCoordinate(i)) == i
  {
  }

  lemma CoordinateToIndexInjective(p: Coordinate, q: Coordinate)
    requires InInterior(p) && InInterior(q) && p != q
    ensures CoordinateToIndex(p) != CoordinateToIndex(q)
  {
    assert IndexToCoordinate(CoordinateToIndex(p)) == p;
    assert IndexToCoordinate(CoordinateToIndex(q)) == q;
  }

  /** A tile list of an empty room: Floor everywhere. */
  function EmptyRoomTileList(): (s: seq<Tile>)
    ensures |s| == InnerWidth * InnerHeight && forall i | 0 <= i < |s| :: s[i] == Floor
  {
    seq(InnerWidth * InnerHeight, _ => Floor)
  }

  datatype RoomError = IndexError(index: int)

  /**
   * The tile a (coordinate, tile) listing puts at position `i`: the tile of
   * the last entry whose coordinate maps to `i`, or Floor when none does.
   */
  function Placed(entries: seq<(Coordinate, Tile)>, i: int): (t: Tile)
    ensures (forall k | 0 <= k < |entries| :: CoordinateToIndex(entries[k].0) != i) ==> t == Floor
    ensures t == Floor || exists k | 0 <= k < |entries| :: entries[k].1 == t && CoordinateToIndex(entries[k].0) == i
  {
    if entries == [] then Floor
    else if CoordinateToIndex(entries[|entries| - 1].0) == i then entries[|entries| - 1].1
    else Placed(entries[..|entries| - 1], i)
  }

  /** Whether every coordinate of the listing maps into the tile list. */
  predicate AllInRange(entries: seq<(Coordinate, Tile)>) {
    forall k | 0 <= k < |entries| :: 0 <= CoordinateToIndex(entries[k].0) < InnerWidth * InnerHeight
  }

  /**
   * Converts a tile dictionary (given in its iteration order) into a tile
   * list of the room interior; a coordinate outside the list is an error.
   */
  method DicToTileList(tileDic: Option<seq<(Coordinate, Tile)>>) returns (r: Result<seq<Tile>, RoomError>)
    ensures r.Success? <==> (tileDic.None? || AllInRange(tileDic.value))
    ensures r.Success? ==> |r.value| == InnerWidth * InnerHeight
    ensures r.Success? && tileDic.None? ==> r.value == EmptyRoomTileList()
    ensures r.Success? && tileDic.Some? ==>
      forall i | 0 <= i < InnerWidth * InnerHeight :: r.value[i] == Placed(tileDic.value, i)
  {
    var tileList := EmptyRoomTileList();
    if tileDic.None? {
      return Success(tileList);
    }
    var entries := tileDic.value;
    var k := 0;
    while k < |entries|
      invariant 0 <= k <= |entries|
      invariant AllInRange(entries[..k])
      invariant |tileList| == InnerWidth * InnerHeight
      invariant forall i | 0 <= i < InnerWidth * InnerHeight :: tileList[i] == Placed(entries[..k], i)
    {
      var index := CoordinateToIndex(entries[k].0);
      assert entries[..k + 1][..k] == entries[..k];
      if 0 <= index < |tileList| {
        tileList := tileList[index := entries[k].1];
      } else {
        assert !AllInRange(entries) by {
          assert CoordinateToIndex(entries[k].0) == index;
        }
        return Failure(IndexError(index));
      }
      k := k + 1;
    }
    assert entries[..k] == entries;
    return Success(tileList);
  }

  /** Whether a room attaches hallway `h` on side `d`: N/S need a vertical link, E/W a horizontal one. */
  predicate Registers(h: Hallway?, d: Direction) {
    h != null && d != Center && (h.ConnectsHorizontally() <==> d.IsHorizontal())
  }

  /** A fresh area holding the tiles of a room. */
  method NewRoomArea(tileList: Option<seq<Tile>>, openN: bool, openE: bool, openS: bool, openW: bool)
    returns (area: Area)
    requires tileList.Some? ==> |tileList.value| >= InnerWidth * InnerHeight
    ensures fresh(area) && area.Valid() && !area.placeholder
    ensures area.width == UnitWidth && area.height == UnitHeight
    ensures !area.inSight && !area.visible && !area.visited
    ensures area.tiles == RoomGrid(tileList, openN, openE, openS, openW)
  {
    var tiles := BuildRoomTiles(tileList, openN, openE, openS, openW);
    area := new Area(tiles);
  }

  /**
   * After `room` attached itself on the open sides: an East or South hallway
   * has it as its first room, a North or West one as its second, and every
   * other end of the given hallways keeps the room it had.
   */
  twostate predicate Attached(new room: Room, north: Hallway?, east: Hallway?, south: Hallway?, west: Hallway?,
                              openN: bool, openE: bool, openS: bool, openW: bool)
    reads north, east, south, west
  {
    && EndsAfter(north, room, north, east, south, west, openN, openE, openS, openW)
    && EndsAfter(east, room, north, east, south, west, openN, openE, openS, openW)
    && EndsAfter(south, room, north, east, south, west, openN, openE, openS, openW)
    && EndsAfter(west, room, north, east, south, west, openN, openE, openS, openW)
  }

  /** The ends of hallway `h`, one of the four given, after `room` attached itself. */
  twostate predicate EndsAfter(h: Hallway?, new room: Room, north: Hallway?, east: Hallway?, south: Hallway?, west: Hallway?,
                               openN: bool, openE: bool, openS: bool, openW: bool)
    reads h
  {
    h != null ==>
      && h.room1 == (if (openE && h == east) || (openS && h == south) then room else old(h.room1))
      && h.room2 == (if (openN && h == north) || (openW && h == west) then room else old(h.room2))
  }

  /** Tells each registered hallway that `room` is now one of its ends. */
  method Attach(room: Room, north: Hallway?, east: Hallway?, south: Hallway?, west: Hallway?,
                openN: bool, openE: bool, openS: bool, openW: bool)
    requires openN ==> north != null
    requires openE ==> east != null
    requires openS ==> south != null
    requires openW ==> west != null
    modifies north, east, south, west
    ensures Attached(room, north, east, south, west, openN, openE, openS, openW)
  {
    if openN {
      north.SetRoom(room, North);
    }
    if openE {
      east.SetRoom(room, East);
    }
    if openS {
      south.SetRoom(room, South);
    }
    if openW {
      west.SetRoom(room, West);
    }
  }

  /**
   * Two rooms built on either side of one hallway between East/West
   * neighbours are both its ends: building the East room leaves the West room
   * attached as the first room.
   */
  method LinkNeighbours(door: Door) returns (h: Hallway, west: Room, east: Room)
    requires door.direction.IsHorizontal()
    ensures h.room1 == west && h.room2 == east
    ensures west.hallways == map[East := h] && east.hallways == map[West := h]
  {
    h := new Hallway(door);
    west := new Room(None, null, h, null, null);
    east := new Room(None, null, null, null, h);
  }

  /** The hallways a room registers, keyed by the side they attach to. */
  function HallwayTable(north: Hallway?, east: Hallway?, south: Hallway?, west: Hallway?): (t: map<Direction, Hallway>)
    reads north, east, south, west
    ensures t.Keys <= {North, East, South, West}
    ensures North in t <==> Registers(north, North)
    ensures East in t <==> Registers(east, East)
    ensures South in t <==> Registers(south, South)
    ensures West in t <==> Registers(west, West)
    ensures North in t ==> t[North] == north
    ensures East in t ==> t[East] == east
    ensures South in t ==> t[South] == south
    ensures West in t ==> t[West] == west
  {
    var withN: map<Direction, Hallway> := if Registers(north, North) then map[North := north] else map[];
    var withE := if Registers(east, East) then withN[East := east] else withN;
    var withS := if Registers(south, South) then withE[South := south] else withE;
    if Registers(west, West) then withS[West := west] else withS
  }

  function Walls(n: nat): (s: seq<Tile>)
    ensures |s| == n && forall i | 0 <= i < n :: s[i] == Wall
  {
    seq(n, _ => Wall)
  }

  /** The interior tile at position `i` (Floor when no tile list is given). */
  function InnerTile(tileList: Option<seq<Tile>>, i: int): Tile
    requires tileList.Some? ==> 0 <= i < |tileList.value|
  {
    if tileList.Some? then tileList.value[i] else Floor
  }

  function InnerRow(tileList: Option<seq<Tile>>, y: int): (row: seq<Tile>)
    requires 0 <= y < InnerHeight
    requires tileList.Some? ==> |tileList.value| >= InnerWidth * InnerHeight
    ensures |row| == InnerWidth
    ensures forall x | 0 <= x < InnerWidth :: row[x] == InnerTile(tileList, x + y * InnerWidth)
  {
    seq(InnerWidth, x requires 0 <= x < InnerWidth => InnerTile(tileList, x + y * InnerWidth))
  }

  /** Row `y + 1` of a room: an interior row fenced by two walls. */
  function FencedRow(tileList: Option<seq<Tile>>, y: int): (row: seq<Tile>)
    requires 0 <= y < InnerHeight
    requires tileList.Some? ==> |tileList.value| >= InnerWidth * InnerHeight
    ensures |row| == UnitWidth && row[0] == Wall && row[LastCol] == Wall
    ensures forall x | 1 <= x <= InnerWidth :: row[x] == InnerTile(tileList, (x - 1) + y * InnerWidth)
  {
    [Wall] + InnerRow(tileList, y) + [Wall]
  }

  /** The room grid before any hallway opening is cut. */
  function FencedGrid(tileList: Option<seq<Tile>>): (g: seq<seq<Tile>>)
    requires tileList.Some? ==> |tileList.value| >= InnerWidth * InnerHeight
    ensures |g| == UnitHeight && g[0] == Walls(UnitWidth) && g[LastRow] == Walls(UnitWidth)
    ensures forall y | 1 <= y <= InnerHeight :: g[y] == FencedRow(tileList, y - 1)
  {
    [Walls(UnitWidth)]
    + seq(InnerHeight, y requires 0 <= y < InnerHeight => FencedRow(tileList, y))
    + [Walls(UnitWidth)]
  }

  /** `g` with the tile at (x, y) replaced by Floor when `open` holds. */
  function Opened(g: seq<seq<Tile>>, x: int, y: int, open: bool): (r: seq<seq<Tile>>)
    requires 0 <= y < |g| && 0 <= x < |g[y]|
    ensures |r| == |g| && forall j | 0 <= j < |g| :: |r[j]| == |g[j]|
    ensures forall j, i | 0 <= j < |g| && 0 <= i < |g[j]| ::
      r[j][i] == (if open && j == y && i == x then Floor else g[j][i])
  {
    if open then g[y := g[y][x := Floor]] else g
  }

  /**
   * The tiles of a room: the interior tiles fenced by walls, with the middle
   * wall tile of each side that has a hallway replaced by Floor.
   */
  function RoomGrid(tileList: Option<seq<Tile>>, openN: bool, openE: bool, openS: bool, openW: bool)
    : (g: seq<seq<Tile>>)
    requires tileList.Some? ==> |tileList.value| >= InnerWidth * InnerHeight
    ensures |g| == UnitHeight && forall y | 0 <= y < UnitHeight :: |g[y]| == UnitWidth
  {
    var fenced := FencedGrid(tileList);
    var g1 := Opened(fenced, MidX, 0, openN);
    var g2 := Opened(g1, LastCol, MidY, openE);
    var g3 := Opened(g2, MidX, LastRow, openS);
    Opened(g3, 0, MidY, openW)
  }

  /** The top and bottom walls of a room grid are Floor exactly at the midpoints of the open sides. */
  lemma RoomGridTopBottom(tileList: Option<seq<Tile>>, openN: bool, openE: bool, openS: bool, openW: bool)
    requires tileList.Some? ==> |tileList.value| >= InnerWidth * InnerHeight
    ensures var g := RoomGrid(tileList, openN, openE, openS, openW);
      && (forall x | 0 <= x < UnitWidth :: g[0][x] == (if x == MidX && openN then Floor else Wall))
      && (forall x | 0 <= x < UnitWidth :: g[LastRow][x] == (if x == MidX && openS then Floor else Wall))
  {
    FencedGridRows(tileList);
  }

  /** The side walls of a room grid are Floor exactly at the midpoints of the open sides. */
  lemma RoomGridSides(tileList: Option<seq<Tile>>, openN: bool, openE: bool, openS: bool, openW: bool)
    requires tileList.Some? ==> |tileList.value| >= InnerWidth * InnerHeight
    ensures var g := RoomGrid(tileList, openN, openE, openS, openW);
      && (forall y | 0 < y < LastRow :: g[y][0] == (if y == MidY && openW then Floor else Wall))
      && (forall y | 0 < y < LastRow :: g[y][LastCol] == (if y == MidY && openE then Floor else Wall))
  {
    FencedGridRows(tileList);
  }

  /** Interior cell (x, y) of a room grid holds tile (x - 1) + (y - 1) * 5 of the tile list. */
  lemma RoomGridInterior(tileList: Option<seq<Tile>>, openN: bool, openE: bool, openS: bool, openW: bool)
    requires tileList.Some? ==> |tileList.value| >= InnerWidth * InnerHeight
    ensures var g := RoomGrid(tileList, openN, openE, openS, openW);
      forall y, x | 1 <= y <= InnerHeight && 1 <= x <= InnerWidth ::
        g[y][x] == InnerTile(tileList, (x - 1) + (y - 1) * InnerWidth)
  {
    FencedGridRows(tileList);
  }

  lemma FencedGridRows(tileList: Option<seq<Tile>>)
    requires tileList.Some? ==> |tileList.value| >= InnerWidth * InnerHeight
    ensures forall y | 0 <= y < UnitHeight :: |FencedGrid(tileList)[y]| == UnitWidth
  {
    var fenced := FencedGrid(tileList);
    forall y | 0 <= y < UnitHeight ensures |fenced[y]| == UnitWidth {
      if 1 <= y <= InnerHeight {
        assert fenced[y] == FencedRow(tileList, y - 1);
      }
    }
  }

  /** Builds the fenced room rows from the tile list, row by row. */
  method FenceTiles(tileList: Option<seq<Tile>>) returns (tiles: seq<seq<Tile>>)
    requires tileList.Some? ==> |tileList.value| >= InnerWidth * InnerHeight
    ensures tiles == FencedGrid(tileList)
  {
    tiles := [Walls(UnitWidth)];
    for y := 0 to InnerHeight
      invariant |tiles| == y + 1 && tiles[0] == Walls(UnitWidth)
      invariant forall j | 1 <= j <= y :: tiles[j] == FencedRow(tileList, j - 1)
    {
      var row := [Wall];
      for x := 0 to InnerWidth
        invariant row == [Wall] + InnerRow(tileList, y)[..x]
      {
        if tileList.Some? {
          var index := x + y * InnerWidth;
          if index < |tileList.value| {
            row := row + [tileList.value[index]];
          }
        } else {
          row := row + [Floor];
        }
        assert InnerRow(tileList, y)[..x + 1] == InnerRow(tileList, y)[..x] + [InnerRow(tileList, y)[x]];
      }
      assert InnerRow(tileList, y)[..InnerWidth] == InnerRow(tileList, y);
      row := row + [Wall];
      tiles := tiles + [row];
    }
    tiles := tiles + [Walls(UnitWidth)];
    ghost var g := FencedGrid(tileList);
    assert |tiles| == |g|;
    forall y | 0 <= y < |g| ensures tiles[y] == g[y] {
    }
  }

  /**
   * Builds the tiles of a room: fences the interior with walls, then cuts
   * an opening in the middle of each side that has a hallway.
   */
  method BuildRoomTiles(tileList: Option<seq<Tile>>, openN: bool, openE: bool, openS: bool, openW: bool)
    returns (tiles: seq<seq<Tile>>)
    requires tileList.Some? ==> |tileList.value| >= InnerWidth * InnerHeight
    ensures tiles == RoomGrid(tileList, openN, openE, openS, openW)
  {
    tiles := FenceTiles(tileList);
    ghost var g := tiles;
    if openN {
      tiles := tiles[0 := tiles[0][MidX := Floor]];
    }
    g := Opened(g, MidX, 0, openN);
    assert tiles == g;
    if openE {
      tiles := tiles[MidY := tiles[MidY][LastCol := Floor]];
    }
    g := Opened(g, LastCol, MidY, openE);
    assert tiles == g;
    if openS {
      tiles := tiles[LastRow := tiles[LastRow][MidX := Floor]];
    }
    g := Opened(g, MidX, LastRow, openS);
    assert tiles == g;
    if openW {
      tiles := tiles[MidY := tiles[MidY][0 := Floor]];
    }
    g := Opened(g, 0, MidY, openW);
  }

  /**
   * A walled 7x7 area with at most one hallway per side. Only the
   * constructor writes the hallway table.
   */
  class Room {
    const area: Area
    const hallways: map<Direction, Hallway>

    /** Hallways are registered only on the four sides. */
    ghost predicate Valid() {
      hallways.Keys <= {North, East, South, West}
    }

    /** The areas reached through the hallway on side `d`: the hallway's own and its rooms'. */
    ghost function Reach(d: Direction): set<Area>
      reads hallways.Values
    {
      if d in hallways then {hallways[d].area} + hallways[d].RoomAreas() else {}
    }

    /** Every area that making this room visible may touch. */
    ghost function Cascade(): set<Area>
      reads hallways.Values
    {
      {area} + Reach(North) + Reach(East) + Reach(South) + Reach(West)
    }

    /** The area of the hallway on side `d`, if the room has one. */
    ghost function HallwayArea(d: Direction): set<Area> {
      if d in hallways then {hallways[d].area} else {}
    }

    /**
     * The areas making this room visible may reveal: its own and its
     * hallways'. The rooms beyond the hallways are only put in sight.
     */
    ghost function Revealed(): set<Area> {
      {area} + HallwayArea(North) + HallwayArea(East) + HallwayArea(South) + HallwayArea(West)
    }

    /**
     * The room is visible and the hallway on each of its sides is shown; a valid
     * room has hallways on no other side.
     */
    ghost predicate Shown()
      reads hallways.Values, Cascade()
    {
      && area.inSight && area.visible
      && SideShown(North) && SideShown(East) && SideShown(South) && SideShown(West)
    }

    /** The hallway on side `d`, if the room has one, is shown. */
    ghost predicate SideShown(d: Direction)
      reads hallways.Values, Reach(d)
    {
      d in hallways ==> hallways[d].Shown()
    }

    constructor (tileList: Option<seq<Tile>>, north: Hallway?, east: Hallway?, south: Hallway?, west: Hallway?)
      requires tileList.Some? ==> |tileList.value| >= InnerWidth * InnerHeight
      modifies north, east, south, west
      ensures fresh(area) && area.Valid() && !area.placeholder
      ensures area.width == UnitWidth && area.height == UnitHeight
      ensures !area.inSight && !area.visible && !area.visited
      ensures area.tiles == RoomGrid(tileList, Registers(north, North), Registers(east, East),
                                     Registers(south, South), Registers(west, West))
      ensures hallways.Keys <= {North, East, South, West}
      ensures North in hallways <==> Registers(north, North)
      ensures East in hallways <==> Registers(east, East)
      ensures South in hallways <==> Registers(south, South)
      ensures West in hallways <==> Registers(west, West)
      ensures North in hallways ==> hallways[North] == north
      ensures East in hallways ==> hallways[East] == east
      ensures South in hallways ==> hallways[South] == south
      ensures West in hallways ==> hallways[West] == west
      ensures Attached(this, north, east, south, west, Registers(north, North), Registers(east, East),
                       Registers(south, South), Registers(west, West))
    {
      var openN := Registers(north, North);
      var openE := Registers(east, East);
      var openS := Registers(south, South);
      var openW := Registers(west, West);
      var roomArea := NewRoomArea(tileList, openN, openE, openS, openW);
      area := roomArea;
      hallways := HallwayTable(north, east, south, west);
      new;
      Attach(this, north, east, south, west, openN, openE, openS, openW);
    }

    /** The hallway on side `direction`, if the room has one. */
    function GetHallway(direction: Direction): (r: Option<Hallway>)
      ensures r.Some? <==> direction in hallways
      ensures r.Some? ==> r.value == hallways[direction]
    {
      if direction in hallways then Some(hallways[direction]) else None
    }

    /** What the side `d` may touch lies within what the whole room may touch. */
    lemma SideInFrames(d: Direction)
      requires d in Sides
      ensures Reach(d) <= Cascade() && HallwayArea(d) <= Revealed()
    {
    }

    /**
     * Making a room visible puts every hallway of it in sight, which reveals
     * the hallway. The hallways are visited in the order they were registered.
     */
    method MakeVisible()
      requires Valid()
      modifies Cascade()`inSight, Revealed()`visible
      ensures Shown()
      ensures forall a: Area | old(allocated(a)) :: (old(a.inSight) ==> a.inSight) && (old(a.visible) ==> a.visible)
    {
      area.MakeVisible();
      for k := 0 to |Sides|
        invariant area.inSight && area.visible
        invariant forall i | 0 <= i < k :: SideShown(Sides[i])
        invariant forall a: Area | old(allocated(a)) :: (old(a.inSight) ==> a.inSight) && (old(a.visible) ==> a.visible)
      {
        ReachStays(this);
        SideInFrames(Sides[k]);
        RevealSide(this, Sides[k]);
      }
      assert SideShown(Sides[0]) && SideShown(Sides[1]) && SideShown(Sides[2]) && SideShown(Sides[3]);
    }
  }

  /** Puts the hallway on side `d` of a room, if there is one, in sight; shown sides stay shown. */
  method RevealSide(room: Room, d: Direction)
    modifies room.Reach(d)`inSight, room.HallwayArea(d)`visible
    ensures room.SideShown(d)
    ensures forall e: Direction :: old(room.SideShown(e)) ==> room.SideShown(e)
    ensures forall a: Area | old(allocated(a)) :: (old(a.inSight) ==> a.inSight) && (old(a.visible) ==> a.visible)
  {
    if d in room.hallways {
      room.hallways[d].InSight();
    }
  }

  /** The areas a room reaches stay the same while no hallway of it changes its rooms. */
  twostate lemma ReachStays(r: Room)
    requires forall h | h in r.hallways.Values :: h.room1 == old(h.room1) && h.room2 == old(h.room2)
    ensures r.Cascade() == old(r.Cascade())
  {
  }

  /** A room stays shown while no area loses a flag and no hallway changes. */
  twostate lemma ShownPreserved(r: Room)
    requires old(r.Shown())
    requires unchanged(r.hallways.Values)
    requires forall a: Area | old(allocated(a)) :: (old(a.inSight) ==> a.inSight) && (old(a.visible) ==> a.visible)
    ensures r.Shown()
  {
  }

  /*********************************************************************
   * WildRoom
   *********************************************************************/

  function Ceil(r: real): int {
    -((-r).Floor)
  }

  /**
   * The number of enemies of a wild room: the interior size times `chance`,
   * rounded down or up.
   */
  function EnemyTarget(chance: real, roundDown: bool): (n: int)
    ensures chance <= 1.0 ==> n <= InnerWidth * InnerHeight
    ensures (InnerWidth * InnerHeight) as real * chance - 1.0 < n as real < (InnerWidth * InnerHeight) as real * chance + 1.0
  {
    var exact := (InnerWidth * InnerHeight) as real * chance;
    if roundDown then exact.Floor else Ceil(exact)
  }

  /** A loop over range(n) runs max(n, 0) times. */
  function AtLeastZero(n: int): nat {
    if n < 0 then 0 else n
  }

  /** The interior positions in row-major order. */
  function InteriorPositions(n: nat): (ps: seq<Coordinate>)
    requires n <= InnerWidth * InnerHeight
    ensures |ps| == n && forall i | 0 <= i < n :: ps[i] == IndexToCoordinate(i)
  {
    seq(n, i => IndexToCoordinate(i))
  }

  /** Every tile is Floor or an enemy of a group in [0, NumOfEnemyGroups]. */
  ghost predicate FloorOrGroupedEnemy(tileList: seq<Tile>) {
    forall t | t in tileList :: t == Floor || (t.EnemyTile? && 0 <= t.eid <= NumOfEnemyGroups)
  }

  /** Group `k` lists exactly the enemies of id `k` placed in the tile list. */
  ghost predicate GroupsMatch(dictionary: map<int, seq<Tile>>, tileList: seq<Tile>) {
    && dictionary.Keys == {1, 2, 3, 4, 5, 6, 7, 8, 9}
    && forall k | k in dictionary ::
         && |dictionary[k]| == multiset(tileList)[EnemyTile(k)]
         && forall t | t in dictionary[k] :: t == EnemyTile(k)
  }

  /** The candidate enemy positions of a wild room: every interior position, row by row. */
  method InteriorPositionList() returns (available: seq<Coordinate>)
    ensures available == InteriorPositions(InnerWidth * InnerHeight)
  {
    available := [];
    for y := 0 to InnerHeight
      invariant available == InteriorPositions(y * InnerWidth)
    {
      for x := 0 to InnerWidth
        invariant available == InteriorPositions(y * InnerWidth + x)
      {
        available := available + [Coordinate(x, y)];
      }
    }
  }

  /**
   * Places `count` enemies of random group ids at random free positions,
   * each removed from the free positions once taken, and collects the
   * enemies of every non-zero id in that id's group.
   */
  method SeedEnemies(rm: RandomManager, count: nat, positions: seq<Coordinate>)
    returns (tileList: seq<Tile>, groups: map<int, seq<Tile>>)
    requires count <= InnerWidth * InnerHeight
    requires positions == InteriorPositions(InnerWidth * InnerHeight)
    modifies rm
    ensures |tileList| == InnerWidth * InnerHeight
    ensures FloorOrGroupedEnemy(tileList)
    ensures GroupsMatch(groups, tileList)
    ensures multiset(tileList)[Floor] == InnerWidth * InnerHeight - count
  {
    groups := map[1 := [], 2 := [], 3 := [], 4 := [], 5 := [], 6 := [], 7 := [], 8 := [], 9 := []];
    var available := positions;
    tileList := EmptyRoomTileList();
    SeedingStart(available, tileList, groups);
    for i := 0 to count
      invariant Seeding(available, tileList, groups, i)
    {
      var id := rm.GetInt(0, NumOfEnemyGroups + 1);
      var enemy := EnemyTile(id);
      ghost var before := groups;
      if id > 0 {
        groups := groups[id := groups[id] + [enemy]];
      }
      var j := rm.GetIndex(|available|);
      var pos := available[j];
      SeedStep(available, tileList, before, i, j, id);
      available := available[..j] + available[j + 1..];
      tileList := tileList[CoordinateToIndex(pos) := enemy];
    }
  }

  /**
   * A wild interior for enemy chance `chance`: floors and grouped enemies,
   * the target number of enemies rounded down or up, and the groups listed.
   */
  ghost predicate WildTiles(chance: real, tileList: seq<Tile>, groups: map<int, seq<Tile>>, count: nat)
  {
    && |tileList| == InnerWidth * InnerHeight
    && FloorOrGroupedEnemy(tileList)
    && GroupsMatch(groups, tileList)
    && (count == AtLeastZero(EnemyTarget(chance, true)) || count == AtLeastZero(EnemyTarget(chance, false)))
    && multiset(tileList)[Floor] == InnerWidth * InnerHeight - count
  }

  /**
   * The interior of a wild room: a coin decides whether the target number of
   * enemies is rounded down or up, then that many enemies are seeded.
   */
  method WildInterior(chance: real, rm: RandomManager) returns (tileList: seq<Tile>, groups: map<int, seq<Tile>>, count: nat)
    requires chance <= 1.0
    modifies rm
    ensures WildTiles(chance, tileList, groups, count)
  {
    var available := InteriorPositionList();
    var coin := rm.Get();
    count := AtLeastZero(EnemyTarget(chance, coin < 0.5));
    tileList, groups := SeedEnemies(rm, count, available);
  }

  /**
   * A room seeded with enemies at random interior positions. Enemies of the
   * same non-zero id form a group; the room keeps every group's list.
   */
  class WildRoom {
    const room: Room
    const dictionary: map<int, seq<Tile>>
    /** The interior tile list the room was built from. */
    ghost const interior: seq<Tile>
    /** The number of enemies placed. */
    ghost const numOfEnemies: nat

    constructor (chance: real, rm: RandomManager, north: Hallway?, east: Hallway?, south: Hallway?, west: Hallway?)
      requires chance <= 1.0
      modifies rm, north, east, south, west
      ensures WildTiles(chance, interior, dictionary, numOfEnemies)
      ensures fresh(room.area) && room.area.Valid() && !room.area.placeholder
      ensures room.area.width == UnitWidth && room.area.height == UnitHeight
      ensures !room.area.inSight && !room.area.visible && !room.area.visited
      ensures room.Valid()
      ensures North in room.hallways <==> Registers(north, North)
      ensures East in room.hallways <==> Registers(east, East)
      ensures South in room.hallways <==> Registers(south, South)
      ensures West in room.hallways <==> Registers(west, West)
      ensures North in room.hallways ==> room.hallways[North] == north
      ensures East in room.hallways ==> room.hallways[East] == east
      ensures South in room.hallways ==> room.hallways[South] == south
      ensures West in room.hallways ==> room.hallways[West] == west
      ensures Attached(room, north, east, south, west, Registers(north, North), Registers(east, East),
                       Registers(south, South), Registers(west, West))
      ensures room.area.tiles == RoomGrid(Some(interior), Registers(north, North), Registers(east, East),
                                          Registers(south, South), Registers(west, West))
    {
      label start:
      var tileList, groups, count := WildInterior(chance, rm);
      dictionary := groups;
      interior := tileList;
      numOfEnemies := count;
      assert north != null ==> unchanged@start(north);
      assert east != null ==> unchanged@start(east);
      assert south != null ==> unchanged@start(south);
      assert west != null ==> unchanged@start(west);
      room := new Room(Some(tileList), north, east, south, west);
    }

    /** The enemies of group `id`; ids outside the table raise in the game. */
    function GetTilesById(id: int): (r: Option<seq<Tile>>)
      requires GroupsMatch(dictionary, interior)
      ensures r.Some? <==> 1 <= id <= 9
      ensures r.Some? ==> |r.value| == multiset(interior)[EnemyTile(id)]
      ensures r.Some? ==> forall t | t in r.value :: t == EnemyTile(id)
    {
      if id in dictionary then Some(dictionary[id]) else None
    }
  }

  /** The state of the enemy placement loop after `placed` enemies. */
  ghost predicate Seeding(available: seq<Coordinate>, tileList: seq<Tile>, groups: map<int, seq<Tile>>, placed: int) {
    && |available| == InnerWidth * InnerHeight - placed
    && |tileList| == InnerWidth * InnerHeight
    && (forall p | p in available :: InInterior(p) && tileList[CoordinateToIndex(p)] == Floor)
    && (forall a, b | 0 <= a < b < |available| :: available[a] != available[b])
    && multiset(tileList)[Floor] == InnerWidth * InnerHeight - placed
    && FloorOrGroupedEnemy(tileList)
    && GroupsMatch(groups, tileList)
  }

  /** Before the loop: every interior position is free, the room is all Floor and the groups are empty. */
  lemma SeedingStart(available: seq<Coordinate>, tileList: seq<Tile>, groups: map<int, seq<Tile>>)
    requires available == InteriorPositions(InnerWidth * InnerHeight)
    requires tileList == EmptyRoomTileList()
    requires groups == map[1 := [], 2 := [], 3 := [], 4 := [], 5 := [], 6 := [], 7 := [], 8 := [], 9 := []]
    ensures Seeding(available, tileList, groups, 0)
  {
    forall p | p in available ensures InInterior(p) && tileList[CoordinateToIndex(p)] == Floor {
      var i :| 0 <= i < |available| && available[i] == p;
      IndexToCoordinateInverse(i);
    }
    CountUniform(tileList, Floor);
    forall a, b | 0 <= a < b < |available| ensures available[a] != available[b] {
      IndexToCoordinateInverse(a);
      IndexToCoordinateInverse(b);
    }
  }

  function AddToGroup(groups: map<int, seq<Tile>>, id: int, enemy: Tile): map<int, seq<Tile>>
    requires id > 0 ==> id in groups
  {
    if id > 0 then groups[id := groups[id] + [enemy]] else groups
  }

  /** One round of the placement loop keeps its state consistent. */
  lemma SeedStep(available: seq<Coordinate>, tileList: seq<Tile>, groups: map<int, seq<Tile>>,
                 placed: int, j: nat, id: int)
    requires Seeding(available, tileList, groups, placed)
    requires j < |available| && 0 <= id <= NumOfEnemyGroups
    ensures Seeding(available[..j] + available[j + 1..],
                    tileList[CoordinateToIndex(available[j]) := EnemyTile(id)],
                    AddToGroup(groups, id, EnemyTile(id)), placed + 1)
  {
    PlaceEnemy(available, j, tileList, EnemyTile(id));
    GroupsStep(tileList, groups, CoordinateToIndex(available[j]), id);
  }

  /** Overwriting one element swaps one occurrence in the multiset. */
  lemma MultisetUpdate(s: seq<Tile>, i: int, x: Tile)
    requires 0 <= i < |s|
    ensures multiset(s[i := x]) == multiset(s) - multiset{s[i]} + multiset{x}
  {
    assert s == s[..i] + [s[i]] + s[i + 1..];
    assert s[i := x] == s[..i] + [x] + s[i + 1..];
  }

  /** Putting enemy `id` on a Floor cell adds it to its group's count and removes one Floor. */
  lemma GroupsStep(tileList: seq<Tile>, groups: map<int, seq<Tile>>, index: int, id: int)
    requires 0 <= index < |tileList| && tileList[index] == Floor && 0 <= id <= NumOfEnemyGroups
    requires FloorOrGroupedEnemy(tileList) && GroupsMatch(groups, tileList)
    ensures var placed := tileList[index := EnemyTile(id)];
      && FloorOrGroupedEnemy(placed)
      && GroupsMatch(AddToGroup(groups, id, EnemyTile(id)), placed)
      && multiset(placed)[Floor] == multiset(tileList)[Floor] - 1
  {
    MultisetUpdate(tileList, index, EnemyTile(id));
    GroupedAfterPlace(tileList, index, id);
    GroupsMatchAfterPlace(tileList, groups, index, id);
  }

  lemma GroupedAfterPlace(tileList: seq<Tile>, index: int, id: int)
    requires 0 <= index < |tileList| && 0 <= id <= NumOfEnemyGroups
    requires FloorOrGroupedEnemy(tileList)
    ensures FloorOrGroupedEnemy(tileList[index := EnemyTile(id)])
  {
    var placed := tileList[index := EnemyTile(id)];
    forall t | t in placed ensures t == Floor || (t.EnemyTile? && 0 <= t.eid <= NumOfEnemyGroups) {
      var k :| 0 <= k < |placed| && placed[k] == t;
      if k != index {
        assert t in tileList;
      }
    }
  }

  lemma GroupsMatchAfterPlace(tileList: seq<Tile>, groups: map<int, seq<Tile>>, index: int, id: int)
    requires 0 <= index < |tileList| && tileList[index] == Floor && 0 <= id <= NumOfEnemyGroups
    requires GroupsMatch(groups, tileList)
    requires multiset(tileList[index := EnemyTile(id)])
             == multiset(tileList) - multiset{Floor} + multiset{EnemyTile(id)}
    ensures GroupsMatch(AddToGroup(groups, id, EnemyTile(id)), tileList[index := EnemyTile(id)])
  {
    var placed := tileList[index := EnemyTile(id)];
    var after := AddToGroup(groups, id, EnemyTile(id));
    forall k | k in after
      ensures |after[k]| == multiset(placed)[EnemyTile(k)]
      ensures forall t | t in after[k] :: t == EnemyTile(k)
    {
      assert multiset(placed)[EnemyTile(k)] == multiset(tileList)[EnemyTile(k)] + (if k == id then 1 else 0);
    }
  }

  /** A list holding only `t` holds it once per position. */
  lemma {:induction false} CountUniform(s: seq<Tile>, t: Tile)
    requires forall i | 0 <= i < |s| :: s[i] == t
    ensures multiset(s)[t] == |s|
  {
    if s != [] {
      assert s == s[..|s| - 1] + [s[|s| - 1]];
      CountUniform(s[..|s| - 1], t);
    }
  }

  /**
   * Placing an enemy on the Floor cell of the chosen free position keeps the
   * other free positions' cells Floor and removes one Floor from the list.
   */
  lemma PlaceEnemy(available: seq<Coordinate>, j: nat, tileList: seq<Tile>, enemy: Tile)
    requires j < |available| && enemy != Floor
    requires |tileList| == InnerWidth * InnerHeight
    requires forall p | p in available :: InInterior(p) && tileList[CoordinateToIndex(p)] == Floor
    requires forall a, b | 0 <= a < b < |available| :: available[a] != available[b]
    ensures var rest := available[..j] + available[j + 1..];
            var placed := tileList[CoordinateToIndex(available[j]) := enemy];
            && (forall p | p in rest :: InInterior(p) && placed[CoordinateToIndex(p)] == Floor)
            && (forall a, b | 0 <= a < b < |rest| :: rest[a] != rest[b])
  {
    var pos := available[j];
    var rest := available[..j] + available[j + 1..];
    forall p | p in rest ensures p != pos {
      var k :| 0 <= k < |rest| && rest[k] == p;
      if k < j {
        assert rest[k] == available[k];
      } else {
        assert rest[k] == available[k + 1];
      }
    }
    forall p | p in rest ensures p != pos && CoordinateToIndex(p) != CoordinateToIndex(pos) {
      CoordinateToIndexInjective(p, pos);
    }
    forall a, b | 0 <= a < b < |rest| ensures rest[a] != rest[b] {
      var a' := if a < j then a else a + 1;
      var b' := if b < j then b else b + 1;
      assert rest[a] == available[a'] && rest[b] == available[b'];
    }
  }
}
