/**
 * The level builder: the data logic that the visitor of a parsed level file
 * performs. The parse tree itself is given as plain values (token lists, the
 * attributes of a hallway definition, the rows of a room definition).
 */
module LevelGenerator {
  import opened Wrappers
  import opened Navigation
  import opened Tiles
  import Rooms

  /**
   * The glyphs of the level-file syntax. Their concrete values live in the
   * parser utilities, which are not part of this model.
   */
  datatype Syntax = Syntax(
    collectible: string,
    trigger: string,
    message: string,
    energy: string,
    riddler: string,
    shopKeeper: string,
    floor: string,
    obstacle: string,
    placeholder: string,
    emptyHallway: string,
    defaultHallway: string)
  {
    /** The named tile glyphs, in the order the builder tests them. */
    function TileStrs(): seq<string>
    {
      [collectible, trigger, message, energy, riddler, shopKeeper, floor, obstacle]
    }

    /** Named tile glyphs are pairwise different and none of them is a number. */
    ghost predicate WellFormed()
    {
      && (forall i, j | 0 <= i < j < |TileStrs()| :: TileStrs()[i] != TileStrs()[j])
      && (forall i | 0 <= i < |TileStrs()| :: !IsDigits(TileStrs()[i]))
    }
  }

  /** A non-empty string of decimal digits. */
  predicate IsDigits(s: string)
  {
    |s| > 0 && forall i | 0 <= i < |s| :: '0' <= s[i] <= '9'
  }

  /** The value of a string of decimal digits. */
  function DecimalValue(s: string): nat
    requires forall i | 0 <= i < |s| :: '0' <= s[i] <= '9'
  {
    if |s| == 0 then 0
    else DecimalValue(s[..|s| - 1]) * 10 + (s[|s| - 1] - '0') as nat
  }

  /** The decimal representation of a natural number, without leading zeros. */
  function Decimal(n: nat): (s: string)
    ensures IsDigits(s)
    ensures |s| == 1 || s[0] != '0'
  {
    if n < 10 then [('0' as int + n) as char]
    else Decimal(n / 10) + [('0' as int + n % 10) as char]
  }

  /** Printing a number and reading it back yields the number. */
  lemma {:induction false} DecimalRoundTrip(n: nat)
    ensures DecimalValue(Decimal(n)) == n
  {
    if n >= 10 {
      DecimalRoundTrip(n / 10);
      var s := Decimal(n);
      assert s[..|s| - 1] == Decimal(n / 10);
    }
  }

  /** The decimal representation of an integer, with a minus sign when negative. */
  function IntToString(i: int): (s: string)
    ensures 0 <= i ==> IsDigits(s) && DecimalValue(s) == i
  {
    if i < 0 then "-" + Decimal(-i)
    else DecimalRoundTrip(i); Decimal(i)
  }

  /**
   * The code of a tile glyph: a number is an enemy, a named glyph its tile,
   * anything else invalid.
   */
  function TileStrToCode(syn: Syntax, s: string): (c: TileCode)
    ensures IsDigits(s) ==> c == CodeEnemy
    ensures !IsDigits(s) ==> (c == CodeInvalid <==> s !in syn.TileStrs())
  {
    if IsDigits(s) then CodeEnemy
    else if s == syn.collectible then CodeCollectible
    else if s == syn.trigger then CodeTrigger
    else if s == syn.message then CodeMessage
    else if s == syn.energy then CodeEnergy
    else if s == syn.riddler then CodeRiddler
    else if s == syn.shopKeeper then CodeShopKeeper
    else if s == syn.floor then CodeFloor
    else if s == syn.obstacle then CodeObstacle
    else CodeInvalid
  }

  /** The codes that have a glyph of their own when a room is written back. */
  const PrintableCodes: set<TileCode> :=
    {CodeEnemy, CodeCollectible, CodeTrigger, CodeMessage, CodeEnergy, CodeRiddler, CodeShopKeeper, CodeFloor}

  /** The glyph of a tile code; enemies print as "0", unsupported codes have none. */
  function TileCodeToStr(syn: Syntax, c: TileCode): (r: Option<string>)
    ensures r.Some? <==> c in PrintableCodes
    ensures c == CodeEnemy ==> r == Some("0")
    ensures r.Some? && c != CodeEnemy ==> r.value in syn.TileStrs()
  {
    match c
    case CodeEnemy => Some("0")
    case CodeCollectible => Some(syn.collectible)
    case CodeTrigger => Some(syn.trigger)
    case CodeMessage => Some(syn.message)
    case CodeEnergy => Some(syn.energy)
    case CodeRiddler => Some(syn.riddler)
    case CodeShopKeeper => Some(syn.shopKeeper)
    case CodeFloor => Some(syn.floor)
    case _ => None
  }

  /** With a well-formed syntax, writing a code back and reading it again gives the code. */
  lemma TileCodeRoundTrip(syn: Syntax, c: TileCode)
    requires syn.WellFormed()
    requires c in PrintableCodes
    ensures TileStrToCode(syn, TileCodeToStr(syn, c).value) == c
  {
    var t := syn.TileStrs();
    assert t[0] == syn.collectible && t[1] == syn.trigger && t[2] == syn.message && t[3] == syn.energy;
    assert t[4] == syn.riddler && t[5] == syn.shopKeeper && t[6] == syn.floor && t[7] == syn.obstacle;
    if c != CodeEnemy {
      var s := TileCodeToStr(syn, c).value;
      var i :| 0 <= i < |t| && t[i] == s;
      assert !IsDigits(s);
    }
  }

  // ---------------------------------------------------------------- gates

  datatype Gate = XGate | YGate | ZGate | HGate | CXGate | SwapGate | IGate

  /** The short names a level file may use for a gate; each also works with "gate" appended. */
  function GateAliases(g: Gate): seq<string>
  {
    match g
    case XGate => ["x"]
    case YGate => ["y"]
    case ZGate => ["z"]
    case HGate => ["h", "hadamard"]
    case CXGate => ["cx"]
    case SwapGate => ["swap"]
    case IGate => ["i"]
  }

  /**
   * Gate resolution as written: the long form of "hadamard" is spelled
   * "hadamarggate". The flag says whether a warning is given (unknown names
   * resolve to the identity gate).
   */
  function GateOfAsWritten(ref: string): (Gate, bool)
  {
    if ref in ["x", "xgate"] then (XGate, false)
    else if ref in ["y", "ygate"] then (YGate, false)
    else if ref in ["z", "zgate"] then (ZGate, false)
    else if ref in ["h", "hgate", "hadamard", "hadamarggate"] then (HGate, false)
    else if ref in ["cx", "cxgate"] then (CXGate, false)
    else if ref in ["swap", "swapgate"] then (SwapGate, false)
    else (IGate, ref !in ["i", "igate"])
  }

  /** The long name "hadamardgate" falls through to the identity gate with a warning. */
  lemma HadamardGateTypo()
    ensures "hadamard" in GateAliases(HGate)
    ensures GateOfAsWritten("hadamard" + "gate") == (IGate, true)
  {
    assert "hadamard" + "gate" == "hadamardgate";
    assert "hadamardgate"[7] != "hadamarggate"[7];
  }

  /** Gate resolution with the long name of the Hadamard gate spelled correctly. */
  function GateOf(ref: string): (r: (Gate, bool))
    ensures r.1 <==> r.0 == IGate && ref !in ["i", "igate"]
  {
    if ref in ["x", "xgate"] then (XGate, false)
    else if ref in ["y", "ygate"] then (YGate, false)
    else if ref in ["z", "zgate"] then (ZGate, false)
    else if ref in ["h", "hgate", "hadamard", "hadamardgate"] then (HGate, false)
    else if ref in ["cx", "cxgate"] then (CXGate, false)
    else if ref in ["swap", "swapgate"] then (SwapGate, false)
    else (IGate, ref !in ["i", "igate"])
  }

  /** Every alias of a gate, alone or with "gate" appended, resolves to that gate without a warning. */
  lemma GateOfAliases(g: Gate, a: string)
    requires a in GateAliases(g)
    ensures GateOf(a) == (g, false)
    ensures GateOf(a + "gate") == (g, false)
  {
    GateOfLongAlias(g, a);
  }

  /** The long form of an alias names the same gate. */
  lemma GateOfLongAlias(g: Gate, a: string)
    requires a in GateAliases(g)
    ensures GateOf(a + "gate") == (g, false)
  {
    var long := a + "gate";
    match g
    case XGate => assert long == "xgate";
    case YGate => assert long == "ygate";
    case ZGate => assert long == "zgate";
    case HGate =>
      if a == "h" {
        assert long == "hgate";
      } else {
        assert long == "hadamardgate";
      }
    case CXGate => assert long == "cxgate";
    case SwapGate => assert long == "swapgate";
    case IGate => assert long == "igate";
  }

  /** The corrected resolution differs from the written one on the misspelled names only. */
  lemma GateOfAgrees(ref: string)
    requires ref != "hadamardgate" && ref != "hadamarggate"
    ensures GateOf(ref) == GateOfAsWritten(ref)
  {
  }

  // ---------------------------------------------------------------- hallway table

  /** The hallway table: for a room position, the door to each neighbouring room position. */
  type HallwayTable = map<Coordinate, map<Coordinate, Door>>

  function Entry(h: HallwayTable, a: Coordinate, b: Coordinate): Option<Door>
  {
    if a in h && b in h[a] then Some(h[a][b]) else None
  }

  /** The door between two rooms is found from either side. */
  ghost predicate Symmetric(h: HallwayTable)
  {
    forall a, b :: Entry(h, a, b) == Entry(h, b, a)
  }

  /**
   * The table after connecting `r1` and `r2` by `door`: both directions are
   * set, every other entry is kept; no door leaves the table as it is.
   */
  function AddedHallway(h: HallwayTable, r1: Coordinate, r2: Coordinate, door: Option<Door>): (r: HallwayTable)
    ensures forall a, b :: Entry(r, a, b) == (if door.Some? && ((a == r1 && b == r2) || (a == r2 && b == r1))
                                              then door else Entry(h, a, b))
    ensures door.Some? ==> r.Keys == h.Keys + {r1, r2}
    ensures door.None? ==> r == h
  {
    if door.None? then h
    else
      var h1 := h[r1 := (if r1 in h then h[r1] else map[])[r2 := door.value]];
      h1[r2 := (if r2 in h1 then h1[r2] else map[])[r1 := door.value]]
  }

  /** Adding a hallway keeps the table symmetric. */
  lemma AddedHallwaySymmetric(h: HallwayTable, r1: Coordinate, r2: Coordinate, door: Option<Door>)
    requires Symmetric(h)
    ensures Symmetric(AddedHallway(h, r1, r2, door))
  {
  }

  /**
   * The door a hallway reference stands for: a defined hallway, no door for
   * the empty-hallway glyph, otherwise a default door.
   */
  function LoadHallway(byId: map<string, Door>, syn: Syntax, reference: string): (r: Option<Door>)
    ensures reference in byId ==> r == Some(byId[reference])
    ensures r.None? <==> reference !in byId && reference == syn.emptyHallway
    ensures reference !in byId && reference != syn.emptyHallway ==> r == Some(Door(North, None))
  {
    if reference in byId then Some(byId[reference])
    else if reference == syn.emptyHallway then None
    else if reference == syn.defaultHallway then Some(Door(North, None))
    else Some(Door(North, None))
  }

  // ---------------------------------------------------------------- layout rows

  datatype TokenKind = HallwayId | EmptyHallway | RoomId | EmptyRoom | VerticalSeparator | OtherToken

  datatype Token = Token(kind: TokenKind, text: string)

  const HallwayTokens: set<TokenKind> := {HallwayId, EmptyHallway}
  const RoomTokens: set<TokenKind> := {RoomId, EmptyRoom}

  /**
   * The tokens of a layout row from position `c` on that occupy a column, up
   * to the first token that the column limit rejects; the flag says whether
   * the row was cut there. `x` is the column of the next counted token.
   */
  function Scan(children: seq<Token>, c: nat, x: int, counted: set<TokenKind>, over: (int, TokenKind) -> bool)
    : (r: (seq<Token>, bool))
    requires c <= |children|
    ensures forall k | 0 <= k < |r.0| :: r.0[k].kind in counted && r.0[k] in children
    ensures |r.0| <= |children| - c
    decreases |children| - c
  {
    if c == |children| then ([], false)
    else if over(x, children[c].kind) then ([], true)
    else if children[c].kind in counted then
      var rest := Scan(children, c + 1, x + 1, counted, over);
      ([children[c]] + rest.0, rest.1)
    else Scan(children, c + 1, x, counted, over)
  }

  /** `done` is what a scan of the whole row has counted before reaching position `c` at column `x`. */
  ghost predicate ScannedUpTo(children: seq<Token>, c: nat, x: int, counted: set<TokenKind>,
                              over: (int, TokenKind) -> bool, done: seq<Token>)
  {
    && c <= |children|
    && Scan(children, 0, 0, counted, over).0 == done + Scan(children, c, x, counted, over).0
    && Scan(children, 0, 0, counted, over).1 == Scan(children, c, x, counted, over).1
  }

  /** Scanning one more token that the column limit accepts. */
  lemma ScanAdvance(children: seq<Token>, c: nat, x: int, counted: set<TokenKind>,
                    over: (int, TokenKind) -> bool, done: seq<Token>)
    requires ScannedUpTo(children, c, x, counted, over, done)
    requires c < |children| && !over(x, children[c].kind)
    ensures children[c].kind in counted ==> ScannedUpTo(children, c + 1, x + 1, counted, over, done + [children[c]])
    ensures children[c].kind !in counted ==> ScannedUpTo(children, c + 1, x, counted, over, done)
  {
    if children[c].kind in counted {
      var rest := Scan(children, c + 1, x + 1, counted, over).0;
      assert done + ([children[c]] + rest) == (done + [children[c]]) + rest;
    }
  }

  /** A scan ends at the end of the row, or cut at the first token the column limit rejects. */
  lemma ScanEnd(children: seq<Token>, c: nat, x: int, counted: set<TokenKind>,
                over: (int, TokenKind) -> bool, done: seq<Token>)
    requires ScannedUpTo(children, c, x, counted, over, done)
    requires c == |children| || over(x, children[c].kind)
    ensures Scan(children, 0, 0, counted, over) == (done, c < |children|)
  {
    assert done + [] == done;
  }

  /** The hallway table after one more scanned token. */
  lemma AddRowHallwaysSnoc(h: HallwayTable, byId: map<string, Door>, syn: Syntax,
                           done: seq<Token>, t: Token, y: int, direction: Direction)
    ensures AddRowHallways(h, byId, syn, done + [t], y, direction)
            == if t.kind == HallwayId then
                 AddedHallway(AddRowHallways(h, byId, syn, done, y, direction), Coordinate(|done|, y),
                              Coordinate(|done|, y).Plus(direction), LoadHallway(byId, syn, t.text))
               else AddRowHallways(h, byId, syn, done, y, direction)
  {
    assert (done + [t])[..|done|] == done;
  }

  /** The hallway table after connecting the hallways of a scanned row, column by column. */
  function AddRowHallways(h: HallwayTable, byId: map<string, Door>, syn: Syntax,
                          slots: seq<Token>, y: int, direction: Direction): HallwayTable
  {
    if |slots| == 0 then h
    else
      var n := |slots| - 1;
      var before := AddRowHallways(h, byId, syn, slots[..n], y, direction);
      if slots[n].kind == HallwayId then
        var origin := Coordinate(n, y);
        AddedHallway(before, origin, origin.Plus(direction), LoadHallway(byId, syn, slots[n].text))
      else before
  }

  /** Connecting the hallways of a row keeps the table symmetric. */
  lemma {:induction false} AddRowHallwaysSymmetric(h: HallwayTable, byId: map<string, Door>, syn: Syntax,
                                                   slots: seq<Token>, y: int, direction: Direction)
    requires Symmetric(h)
    ensures Symmetric(AddRowHallways(h, byId, syn, slots, y, direction))
  {
    if |slots| > 0 {
      var n := |slots| - 1;
      AddRowHallwaysSymmetric(h, byId, syn, slots[..n], y, direction);
      var before := AddRowHallways(h, byId, syn, slots[..n], y, direction);
      if slots[n].kind == HallwayId {
        AddedHallwaySymmetric(before, Coordinate(n, y), Coordinate(n, y).Plus(direction),
                              LoadHallway(byId, syn, slots[n].text));
      }
    }
  }

  /** Every hallway id of the row connects its column to the neighbour in `direction`. */
  lemma {:induction false} AddRowHallwaysConnects(h: HallwayTable, byId: map<string, Door>, syn: Syntax,
                                                  slots: seq<Token>, y: int, direction: Direction, k: nat)
    requires k < |slots| && slots[k].kind == HallwayId
    requires LoadHallway(byId, syn, slots[k].text).Some?
    requires direction.East? || direction.South?
    ensures Entry(AddRowHallways(h, byId, syn, slots, y, direction), Coordinate(k, y), Coordinate(k, y).Plus(direction))
            == LoadHallway(byId, syn, slots[k].text)
  {
    var n := |slots| - 1;
    if k < n {
      AddRowHallwaysConnects(h, byId, syn, slots[..n], y, direction, k);
      assert slots[..n][k] == slots[k];
    }
  }

  // ---------------------------------------------------------------- tiles of a room

  /**
   * The tile a glyph without a descriptor stands for, and whether it draws a
   * warning: the placeholder and the floor glyph are floors, a number an enemy
   * with that id, a named glyph its default tile, and an unknown glyph a floor
   * with a warning.
   */
  function DefaultTile(syn: Syntax, s: string): (r: (Tile, bool))
    ensures s == syn.placeholder ==> r == (Floor, false)
    ensures r.1 <==> s != syn.placeholder && TileStrToCode(syn, s) == CodeInvalid
    ensures r.1 ==> r.0 == Floor
    ensures s != syn.placeholder && IsDigits(s) ==> r.0 == EnemyTile(DecimalValue(s))
    ensures r.0.EnemyTile? ==> IsDigits(s)
  {
    if s == syn.placeholder then (Floor, false)
    else match TileStrToCode(syn, s)
      case CodeEnemy => (EnemyTile(DecimalValue(s)), false)
      case CodeCollectible => (CollectibleTile(FromRewardPool), false)
      case CodeTrigger => (TriggerTile, false)
      case CodeMessage => (MessageTile, false)
      case CodeEnergy => (CollectibleTile(EnergyPickup), false)
      case CodeRiddler => (RiddlerTile, false)
      case CodeShopKeeper => (ShopKeeperTile, false)
      case CodeFloor => (Floor, false)
      case CodeObstacle => (Obstacle, false)
      case _ => (Floor, true)
  }

  /**
   * A known glyph yields a tile of its own code, except the energy glyph,
   * which yields a collectible holding an energy pickup.
   */
  lemma DefaultTileCode(syn: Syntax, s: string)
    requires s != syn.placeholder && TileStrToCode(syn, s) != CodeInvalid
    ensures TileStrToCode(syn, s) != CodeEnergy ==> Code(DefaultTile(syn, s).0) == TileStrToCode(syn, s)
    ensures TileStrToCode(syn, s) == CodeEnergy ==> Code(DefaultTile(syn, s).0) == CodeCollectible
  {
  }

  /** The glyph under which a described tile is filed: an enemy's id, otherwise the glyph of its code. */
  function KeyOf(syn: Syntax, t: Tile): Option<string>
  {
    if t.EnemyTile? then Some(IntToString(t.eid)) else TileCodeToStr(syn, Code(t))
  }

  /** The described tiles filed under `key`, in order. */
  function Matching(syn: Syntax, ds: seq<Tile>, key: Option<string>): seq<Tile>
  {
    if |ds| == 0 then []
    else
      var n := |ds| - 1;
      Matching(syn, ds[..n], key) + (if KeyOf(syn, ds[n]) == key then [ds[n]] else [])
  }

  type TileTable = map<Option<string>, seq<Tile>>

  /** Adds `t` at the end of the list under `key`. */
  function Filed<K(!new), V>(m: map<K, seq<V>>, key: K, t: V): (r: map<K, seq<V>>)
    ensures key in r && r[key] == (if key in m then m[key] else []) + [t]
  {
    m[key := (if key in m then m[key] else []) + [t]]
  }

  /**
   * The descriptor table of a room: every described tile filed under its
   * glyph, each list holding the matching descriptors in order.
   */
  function DescriptorTable(syn: Syntax, ds: seq<Tile>): (r: TileTable)
    ensures forall key | key in r :: |r[key]| > 0
  {
    if |ds| == 0 then map[]
    else
      var n := |ds| - 1;
      Filed(DescriptorTable(syn, ds[..n]), KeyOf(syn, ds[n]), ds[n])
  }

  /** Filing one more descriptor. */
  lemma DescriptorTableSnoc(syn: Syntax, ds: seq<Tile>, t: Tile)
    ensures DescriptorTable(syn, ds + [t]) == Filed(DescriptorTable(syn, ds), KeyOf(syn, t), t)
  {
    assert (ds + [t])[..|ds|] == ds;
  }

  /**
   * The descriptor table files under each glyph exactly the descriptors
   * with that glyph, in the order they are given; a glyph without
   * descriptors has no entry.
   */
  lemma {:induction false} DescriptorTableMatching(syn: Syntax, ds: seq<Tile>, key: Option<string>)
    ensures key in DescriptorTable(syn, ds) <==> |Matching(syn, ds, key)| > 0
    ensures key in DescriptorTable(syn, ds) ==> DescriptorTable(syn, ds)[key] == Matching(syn, ds, key)
  {
    if |ds| > 0 {
      DescriptorTableMatching(syn, ds[..|ds| - 1], key);
    }
  }

  /** The room's glyphs in reading order. */
  function Flatten(rows: seq<seq<string>>): seq<string>
  {
    if |rows| == 0 then [] else Flatten(rows[..|rows| - 1]) + rows[|rows| - 1]
  }

  /** The glyphs read before column `j` of row `i`. */
  function Before(rows: seq<seq<string>>, i: nat, j: nat): seq<string>
    requires i < |rows| && j <= |rows[i]|
  {
    Flatten(rows[..i]) + rows[i][..j]
  }

  function Occurrences(s: seq<string>, x: string): nat
  {
    if |s| == 0 then 0
    else Occurrences(s[..|s| - 1], x) + (if s[|s| - 1] == x then 1 else 0)
  }

  lemma OccurrencesSnoc(s: seq<string>, y: string, x: string)
    ensures Occurrences(s + [y], x) == Occurrences(s, x) + (if y == x then 1 else 0)
  {
    assert (s + [y])[..|s|] == s;
  }

  function Min(a: int, b: int): int
  {
    if a < b then a else b
  }

  function Max(a: int, b: int): int
  {
    if a < b then b else a
  }

  /**
   * The tile placed for a glyph that has been read `uses` times before: a
   * described glyph takes its descriptors in order and keeps the last one once
   * they run out; any other glyph takes its default tile.
   */
  function CellTile(syn: Syntax, table: TileTable, s: string, uses: nat): Tile
    requires forall key | key in table :: |table[key]| > 0
  {
    if Some(s) in table then table[Some(s)][Min(uses, |table[Some(s)]| - 1)]
    else DefaultTile(syn, s).0
  }

  /** Every descriptor filed under a glyph carries that glyph. */
  lemma {:induction false} MatchingKeys(syn: Syntax, ds: seq<Tile>, key: Option<string>)
    ensures forall t | t in Matching(syn, ds, key) :: KeyOf(syn, t) == key
  {
    if |ds| > 0 {
      MatchingKeys(syn, ds[..|ds| - 1], key);
    }
  }

  /**
   * In a room's descriptor table, the use of glyph `s` after `uses` earlier
   * ones takes the descriptor of that glyph at position `uses`, the last one
   * once they run out; a glyph without descriptors takes its default tile.
   */
  lemma DescribedCell(syn: Syntax, ds: seq<Tile>, s: string, uses: nat)
    ensures var m := Matching(syn, ds, Some(s));
      && (|m| > 0 ==> CellTile(syn, DescriptorTable(syn, ds), s, uses) == m[Min(uses, |m| - 1)])
      && (|m| == 0 ==> CellTile(syn, DescriptorTable(syn, ds), s, uses) == DefaultTile(syn, s).0)
  {
    DescriptorTableMatching(syn, ds, Some(s));
  }

  /** The descriptor index a glyph has reached, 0 before its first use. */
  function IndexOf(indices: map<string, nat>, s: string): nat
  {
    if s in indices then indices[s] else 0
  }

  /** `indices` holds, for each described glyph, the descriptor its next use takes. */
  ghost predicate IndicesAfter(table: TileTable, indices: map<string, nat>, read: seq<string>)
  {
    forall s | Some(s) in table :: IndexOf(indices, s) == Min(Occurrences(read, s), |table[Some(s)]| - 1)
  }

  /** The tile matrix as the room definition describes it, before padding. */
  ghost predicate CellsAsDescribed(syn: Syntax, table: TileTable, rows: seq<seq<string>>, i: nat,
                                   cells: seq<Tile>, upTo: nat)
    requires forall key | key in table :: |table[key]| > 0
    requires i < |rows| && upTo <= |rows[i]| && upTo <= |cells|
  {
    forall j | 0 <= j < upTo :: cells[j] == CellTile(syn, table, rows[i][j], Occurrences(Before(rows, i, j), rows[i][j]))
  }

  /** A glyph without descriptors moves no descriptor index. */
  lemma IndicesAfterSkip(table: TileTable, indices: map<string, nat>, read: seq<string>, s: string)
    requires IndicesAfter(table, indices, read) && Some(s) !in table
    ensures IndicesAfter(table, indices, read + [s])
  {
    forall x | Some(x) in table
      ensures IndexOf(indices, x) == Min(Occurrences(read + [s], x), |table[Some(x)]| - 1)
    {
      OccurrencesSnoc(read, s, x);
    }
  }

  /** The glyphs read before the next column of a row. */
  lemma BeforeNext(rows: seq<seq<string>>, i: nat, j: nat)
    requires i < |rows| && j < |rows[i]|
    ensures Before(rows, i, j + 1) == Before(rows, i, j) + [rows[i][j]]
  {
    assert rows[i][..j + 1] == rows[i][..j] + [rows[i][j]];
  }

  /** The glyphs read after a whole row are those of the rows up to it. */
  lemma BeforeRowEnd(rows: seq<seq<string>>, i: nat)
    requires i < |rows|
    ensures Flatten(rows[..i + 1]) == Before(rows, i, |rows[i]|)
  {
    assert rows[..i + 1][..i] == rows[..i];
    assert rows[i][..|rows[i]|] == rows[i];
  }

  /** Describing one more cell of a row. */
  lemma CellsAsDescribedSnoc(syn: Syntax, table: TileTable, rows: seq<seq<string>>, i: nat,
                             cells: seq<Tile>, tile: Tile)
    requires forall key | key in table :: |table[key]| > 0
    requires i < |rows| && |cells| < |rows[i]| && CellsAsDescribed(syn, table, rows, i, cells, |cells|)
    requires tile == CellTile(syn, table, rows[i][|cells|], Occurrences(Before(rows, i, |cells|), rows[i][|cells|]))
    ensures CellsAsDescribed(syn, table, rows, i, cells + [tile], |cells| + 1)
  {
  }

  /** Floors that fill a row to `width`; nothing when the row is already as wide. */
  function FloorPadding(n: int, width: int): (r: seq<Tile>)
    ensures |r| == Max(width - n, 0)
    ensures forall k | 0 <= k < |r| :: r[k] == Floor
  {
    if n >= width then [] else seq(width - n, _ => Floor)
  }

  /** Row `i` of a room matrix: its glyphs placed by `CellTile`, then floors up to the inner width. */
  ghost predicate RowAsDescribed(syn: Syntax, table: TileTable, rows: seq<seq<string>>, i: nat, cells: seq<Tile>)
    requires forall key | key in table :: |table[key]| > 0
    requires i < |rows|
  {
    && |cells| == Max(|rows[i]|, Rooms.InnerWidth)
    && CellsAsDescribed(syn, table, rows, i, cells, |rows[i]|)
    && (forall j | |rows[i]| <= j < |cells| :: cells[j] == Floor)
  }

  /** Padding a fully described row with floors gives the row of the room matrix. */
  lemma PaddedRowAsDescribed(syn: Syntax, table: TileTable, rows: seq<seq<string>>, i: nat, cells: seq<Tile>)
    requires forall key | key in table :: |table[key]| > 0
    requires i < |rows| && |cells| == |rows[i]| && CellsAsDescribed(syn, table, rows, i, cells, |cells|)
    ensures RowAsDescribed(syn, table, rows, i, cells + FloorPadding(|cells|, Rooms.InnerWidth))
  {
    var padded := cells + FloorPadding(|cells|, Rooms.InnerWidth);
    forall j | 0 <= j < |cells|
      ensures padded[j] == CellTile(syn, table, rows[i][j], Occurrences(Before(rows, i, j), rows[i][j]))
    {
      assert padded[j] == cells[j];
    }
  }

  /**
   * The tile matrix of a room definition: at least the inner size of a room,
   * every written glyph placed by `CellTile`, floors everywhere else.
   */
  ghost predicate RoomMatrix(syn: Syntax, table: TileTable, rows: seq<seq<string>>, m: seq<seq<Tile>>)
    requires forall key | key in table :: |table[key]| > 0
  {
    && |m| == Max(|rows|, Rooms.InnerHeight)
    && (forall i | 0 <= i < |rows| :: RowAsDescribed(syn, table, rows, i, m[i]))
    && (forall i | |rows| <= i < |m| :: m[i] == FloorPadding(0, Rooms.InnerWidth))
  }

  /** A room matrix covers the whole interior of a room. */
  lemma RoomMatrixCoversInterior(syn: Syntax, table: TileTable, rows: seq<seq<string>>, m: seq<seq<Tile>>)
    requires forall key | key in table :: |table[key]| > 0
    requires RoomMatrix(syn, table, rows, m)
    ensures |m| >= Rooms.InnerHeight
    ensures forall i | 0 <= i < |m| :: |m[i]| >= Rooms.InnerWidth
  {
  }

  /** Padding a room row to `width` with empty slots. */
  ghost predicate PaddedRows<T>(matrix: seq<seq<Option<T>>>, padded: seq<seq<Option<T>>>, width: nat)
  {
    && |padded| == |matrix|
    && (forall i | 0 <= i < |matrix| :: |padded[i]| == width && |matrix[i]| <= width)
    && (forall i, j | 0 <= i < |matrix| && 0 <= j < |matrix[i]| :: padded[i][j] == matrix[i][j])
    && (forall i, j | 0 <= i < |matrix| && |matrix[i]| <= j < width :: padded[i][j].None?)
  }

  /**
   * Makes all rows of the room layout as long as the longest one by adding
   * empty slots at their ends.
   */
  method PadRows<T>(matrix: seq<seq<Option<T>>>) returns (padded: seq<seq<Option<T>>>, width: nat)
    ensures PaddedRows(matrix, padded, width)
    ensures |matrix| > 0 ==> exists i | 0 <= i < |matrix| :: |matrix[i]| == width
    ensures |matrix| == 0 ==> width == 0
  {
    width := 0;
    for i := 0 to |matrix|
      invariant forall k | 0 <= k < i :: |matrix[k]| <= width
      invariant i > 0 ==> exists k | 0 <= k < i :: |matrix[k]| == width
      invariant i == 0 ==> width == 0
    {
      if |matrix[i]| > width {
        width := |matrix[i]|;
      }
    }
    padded := [];
    for i := 0 to |matrix|
      invariant |padded| == i
      invariant forall k | 0 <= k < i :: |padded[k]| == width
      invariant forall k, j | 0 <= k < i && 0 <= j < |matrix[k]| :: padded[k][j] == matrix[k][j]
      invariant forall k, j | 0 <= k < i && |matrix[k]| <= j < width :: padded[k][j].None?
    {
      var row := matrix[i];
      if |row| < width {
        row := row + seq(width - |row|, _ => None);
      }
      padded := padded + [row];
    }
  }

  /** A room definition of the level file, as the parser delivers it. */
  datatype RoomCtx = RoomCtx(
    id: string,
    visible: bool,
    foggy: bool,
    roomType: AreaType,
    rows: seq<seq<string>>,
    descriptors: seq<Tile>)

  // ---------------------------------------------------------------- rooms and doors

  datatype AreaType = SpawnRoom | Placeholder | OtherRoomType(name: string)

  datatype Visibility = Hidden | InSight | Visible

  /**
   * A room as the builder knows it: a room defined in the level file, a spawn
   * room, a template or an empty room standing in for an unknown reference.
   */
  datatype RoomDef =
    | CustomRoom(roomType: AreaType, tiles: seq<seq<Tile>>, visibility: Visibility)
    | NewSpawnRoom
    | TemplateRoom
    | PlaceholderRoom
  {
    function Type(): AreaType
    {
      match this
      case CustomRoom(t, _, _) => t
      case NewSpawnRoom => SpawnRoom
      case _ => Placeholder
    }
  }

  /** The attributes of a hallway definition, as the parser delivers them. */
  datatype HAttributes = HAttributes(
    direction: Option<string>,
    permanent: bool,
    openLit: bool,
    closedLit: bool,
    lockedLit: bool,
    eventLit: bool,
    references: seq<string>,
    tutorial: bool,
    trigger: bool)

  /**
   * The open state of a door, the raw event reference it waits for, whether a
   * warning is given, and how many references the open state consumed.
   */
  function OpenState(a: HAttributes): (r: (DoorOpenState, Option<string>, bool, nat))
    ensures r.3 <= |a.references| && r.3 <= 1
    ensures r.2 <==> r.0 == Closed && !a.closedLit
    ensures r.0 == EventLocked <==> r.1.Some?
  {
    if a.openLit then (Open, None, false, 0)
    else if a.closedLit then (Closed, None, false, 0)
    else if a.lockedLit then (KeyLocked, None, false, 0)
    else if a.eventLit then
      if |a.references| > 0 then (EventLocked, Some(a.references[0]), false, 1)
      else (Closed, None, true, 0)
    else (Closed, None, true, 0)
  }

  /** An event lock without its event is a closed door with one warning; with it, an event lock. */
  lemma EventLockStates(a: HAttributes)
    requires !a.openLit && !a.closedLit && !a.lockedLit
    ensures a.eventLit && |a.references| > 0 ==> OpenState(a) == (EventLocked, Some(a.references[0]), false, 1)
    ensures a.eventLit && |a.references| == 0 ==> OpenState(a).0 == Closed && OpenState(a).2
    ensures !a.eventLit ==> OpenState(a).0 == Closed && OpenState(a).2
  {
  }

  /** The one-way state: none without a direction, otherwise permanent or temporary. */
  function OneWay(a: HAttributes): (r: DoorOneWayState)
    ensures r == NoOneWay <==> a.direction.None?
    ensures r == Permanent <==> a.direction.Some? && a.permanent
  {
    if a.direction.None? then NoOneWay
    else if a.permanent then Permanent
    else Temporary
  }

  /** The facing of a door: the named direction, North when none or an unknown one is given. */
  function DoorDirection(a: HAttributes): (d: Direction)
    ensures d != Center
  {
    if a.direction == Some("East") then East
    else if a.direction == Some("South") then South
    else if a.direction == Some("West") then West
    else North
  }

  /** The references a hallway definition must carry for its tutorial and trigger parts. */
  ghost predicate HasReferences(a: HAttributes)
  {
    var next := OpenState(a).3 + (if a.tutorial then 1 else 0);
    && (a.tutorial ==> OpenState(a).3 < |a.references|)
    && (a.trigger ==> next < |a.references|)
  }

  // ---------------------------------------------------------------- the generator

  class Generator {
    const syntax: Syntax
    /** The reference normalisation of the parser utilities, not part of this model. */
    const normalize: string -> string
    /** The parser utilities' test whether a token lies beyond the map's last column. */
    const overspecified: (int, TokenKind) -> bool
    /** The help texts by type, read from the game's resources. */
    const helpText: string -> Option<string>
    /** The messages section of the level file, by reference. */
    const messages: map<string, string>

    var warnings: nat
    var hallwaysById: map<string, Door>
    var hallways: HallwayTable
    var rooms: map<string, RoomDef>
    var spawnPos: Option<Coordinate>

    constructor (syntax: Syntax, normalize: string -> string, overspecified: (int, TokenKind) -> bool,
                 helpText: string -> Option<string>, messages: map<string, string>)
      ensures this.syntax == syntax && this.messages == messages
      ensures this.normalize == normalize && this.overspecified == overspecified && this.helpText == helpText
      ensures warnings == 0 && hallwaysById == map[] && hallways == map[] && rooms == map[]
      ensures spawnPos == None
    {
      this.syntax := syntax;
      this.normalize := normalize;
      this.overspecified := overspecified;
      this.helpText := helpText;
      this.messages := messages;
      warnings := 0;
      hallwaysById := map[];
      hallways := map[];
      rooms := map[];
      spawnPos := None;
    }

    /** Reports a problem of the level file and counts it. */
    method Warning()
      modifies this`warnings
      ensures warnings == old(warnings) + 1
    {
      warnings := warnings + 1;
    }

    /** Connects two rooms in the hallway table (nothing happens without a door). */
    method AddHallway(room1: Coordinate, room2: Coordinate, door: Option<Door>)
      modifies this`hallways
      ensures hallways == AddedHallway(old(hallways), room1, room2, door)
    {
      if door.Some? {
        if room1 in hallways {
          hallways := hallways[room1 := hallways[room1][room2 := door.value]];
        } else {
          hallways := hallways[room1 := map[room2 := door.value]];
        }
        if room2 in hallways {
          hallways := hallways[room2 := hallways[room2][room1 := door.value]];
        } else {
          hallways := hallways[room2 := map[room1 := door.value]];
        }
      }
    }

    /** The gate a reference names; unknown names give the identity gate and a warning. */
    method LoadGate(reference: string) returns (g: Gate)
      modifies this`warnings
      ensures g == GateOf(normalize(reference)).0
      ensures warnings == old(warnings) + (if GateOf(normalize(reference)).1 then 1 else 0)
    {
      var ref := normalize(reference);
      if ref in ["x", "xgate"] {
        g := XGate;
      } else if ref in ["y", "ygate"] {
        g := YGate;
      } else if ref in ["z", "zgate"] {
        g := ZGate;
      } else if ref in ["h", "hgate", "hadamard", "hadamardgate"] {
        g := HGate;
      } else if ref in ["cx", "cxgate"] {
        g := CXGate;
      } else if ref in ["swap", "swapgate"] {
        g := SwapGate;
      } else {
        if ref !in ["i", "igate"] {
          Warning();
        }
        g := IGate;
      }
    }

    /**
     * The text of a message reference: a message of the level file under the
     * reference or its normalised form, else a help text, else an error text
     * with a warning.
     */
    function MessageOf(reference: string): (r: (string, bool))
      ensures r.1 <==> reference !in messages && normalize(reference) !in messages
                       && (|normalize(reference)| < 8 || normalize(reference)[..8] != "helptext"
                           || helpText(normalize(reference)[8..]).None?)
    {
      var norm := normalize(reference);
      if reference in messages then (messages[reference], false)
      else if norm in messages then (messages[norm], false)
      else if |norm| >= 8 && norm[..8] == "helptext" && helpText(norm[8..]).Some? then
        (helpText(norm[8..]).value, false)
      else ("Message not found!", true)
    }

    /** The door a hallway definition describes. */
    function DoorOf(a: HAttributes): (d: Door)
      requires HasReferences(a)
      ensures d.direction == DoorDirection(a)
      ensures d.attributes.Some?
      ensures d.attributes.value.openState == OpenState(a).0
      ensures d.attributes.value.oneWay == OneWay(a)
      ensures d.attributes.value.eventId.Some? <==> OpenState(a).0 == EventLocked
    {
      var (open, event, _, used) := OpenState(a);
      var explanation := if a.tutorial then Some(MessageOf(a.references[used]).0) else None;
      var next := used + (if a.tutorial then 1 else 0);
      var toTrigger := if a.trigger then Some(normalize(a.references[next])) else None;
      var eventId := if event.Some? then Some(normalize(event.value)) else None;
      Door(DoorDirection(a), Some(DoorAttributes(open, OneWay(a), eventId, explanation, toTrigger)))
    }

    /** The number of warnings a hallway definition gives. */
    function DoorWarnings(a: HAttributes): nat
      requires HasReferences(a)
    {
      (if OpenState(a).2 then 1 else 0)
      + (if a.tutorial && MessageOf(a.references[OpenState(a).3]).1 then 1 else 0)
    }

    /** Builds the door of a hallway definition. */
    method VisitHAttributes(a: HAttributes) returns (door: Door)
      requires HasReferences(a)
      modifies this`warnings
      ensures door == DoorOf(a)
      ensures warnings == old(warnings) + DoorWarnings(a)
    {
      var direction, oneWay := VisitDirection(a);
      var openState, eventId, refIndex := VisitOpenState(a);
      var explanation: Option<string> := None;
      if a.tutorial {
        var (text, warn) := MessageOf(a.references[refIndex]);
        if warn {
          Warning();
        }
        explanation := Some(text);
        refIndex := refIndex + 1;
      }
      var toTrigger: Option<string> := None;
      if a.trigger {
        toTrigger := Some(normalize(a.references[refIndex]));
      }
      door := Door(direction, Some(DoorAttributes(openState, oneWay, eventId, explanation, toTrigger)));
    }

    /** The facing and one-way state of a hallway definition's door. */
    static method VisitDirection(a: HAttributes) returns (direction: Direction, oneWay: DoorOneWayState)
      ensures direction == DoorDirection(a) && oneWay == OneWay(a)
    {
      direction := North;
      oneWay := NoOneWay;
      if a.direction.Some? {
        var dirStr := a.direction.value;
        if dirStr == "North" {
          direction := North;
        } else if dirStr == "East" {
          direction := East;
        } else if dirStr == "South" {
          direction := South;
        } else if dirStr == "West" {
          direction := West;
        }
        if a.permanent {
          oneWay := Permanent;
        } else {
          oneWay := Temporary;
        }
      }
    }

    /** The open state of a hallway definition's door, its event and how many references it used. */
    method VisitOpenState(a: HAttributes) returns (openState: DoorOpenState, eventId: Option<string>, used: nat)
      modifies this`warnings
      ensures openState == OpenState(a).0 && used == OpenState(a).3
      ensures eventId == if OpenState(a).1.Some? then Some(normalize(OpenState(a).1.value)) else None
      ensures warnings == old(warnings) + (if OpenState(a).2 then 1 else 0)
    {
      used := 0;
      eventId := None;
      if a.openLit {
        openState := Open;
      } else if a.closedLit {
        openState := Closed;
      } else if a.lockedLit {
        openState := KeyLocked;
      } else if a.eventLit {
        if |a.references| > used {
          eventId := Some(normalize(a.references[used]));
          openState := EventLocked;
          used := used + 1;
        } else {
          openState := Closed;
          Warning();
        }
      } else {
        openState := Closed;
        Warning();
      }
    }

    /** Whether placing `reference` places a spawn room. */
    predicate IsSpawnRef(table: map<string, RoomDef>, reference: string)
    {
      if reference in table then table[reference].Type() == SpawnRoom else normalize(reference) == "sr"
    }

    /**
     * The room that placing `reference` yields: a room of the table, a new
     * spawn room for the spawn glyph, a template for a reference starting with
     * `_`, and a placeholder for any other unknown reference.
     */
    function Loaded(table: map<string, RoomDef>, reference: string): (r: RoomDef)
      ensures r.Type() == SpawnRoom <==> IsSpawnRef(table, reference)
      ensures reference !in table && normalize(reference) != "sr" ==> r.Type() == Placeholder
    {
      if reference in table then table[reference]
      else if normalize(reference) == "sr" then NewSpawnRoom
      else if |reference| > 0 && reference[0] == '_' then TemplateRoom
      else PlaceholderRoom
    }

    /** The room table after placing `reference`: an unknown reference other than the spawn glyph is recorded. */
    function Recorded(table: map<string, RoomDef>, reference: string): map<string, RoomDef>
    {
      if reference in table || normalize(reference) == "sr" then table
      else table[reference := Loaded(table, reference)]
    }

    /** Two room tables from which every reference loads the same room. */
    ghost predicate LoadsAlike(a: map<string, RoomDef>, b: map<string, RoomDef>)
    {
      forall r :: Loaded(a, r) == Loaded(b, r)
    }

    /** Recording a reference changes the room no reference loads. */
    lemma RecordedLoadsAlike(table: map<string, RoomDef>, reference: string)
      ensures reference in Recorded(table, reference) || normalize(reference) == "sr"
      ensures LoadsAlike(table, Recorded(table, reference))
    {
      var t := Recorded(table, reference);
      forall r
        ensures Loaded(table, r) == Loaded(t, r)
      {
        if r == reference && reference !in table && normalize(reference) != "sr" {
          assert t[r] == Loaded(table, r);
        }
      }
    }

    /** The warnings placing `reference` gives: a second spawn room, and an unknown reference that is no template. */
    function LoadWarnings(table: map<string, RoomDef>, sp: Option<Coordinate>, reference: string): nat
    {
      (if IsSpawnRef(table, reference) && sp.Some? then 1 else 0)
      + (if reference !in table && normalize(reference) != "sr" && !(|reference| > 0 && reference[0] == '_') then 1 else 0)
    }

    /**
     * Places the room `reference` at (x, y). Placing a spawn room moves the
     * spawn position there and warns if one was set before; a template or an
     * unknown reference is recorded as a placeholder room, the latter with a
     * warning.
     */
    method LoadRoom(reference: string, x: int, y: int) returns (room: RoomDef)
      requires |reference| > 0
      modifies this`rooms, this`spawnPos, this`warnings
      ensures room == Loaded(old(rooms), reference)
      ensures rooms == Recorded(old(rooms), reference) && LoadsAlike(old(rooms), rooms)
      ensures spawnPos == if IsSpawnRef(old(rooms), reference) then Some(Coordinate(x, y)) else old(spawnPos)
      ensures warnings == old(warnings) + LoadWarnings(old(rooms), old(spawnPos), reference)
    {
      RecordedLoadsAlike(rooms, reference);
      if reference in rooms {
        room := rooms[reference];
        if room.Type() == SpawnRoom {
          if spawnPos.Some? {
            Warning();
          }
          spawnPos := Some(Coordinate(x, y));
        }
      } else if normalize(reference) == "sr" {
        room := NewSpawnRoom;
        if spawnPos.Some? {
          Warning();
        }
        spawnPos := Some(Coordinate(x, y));
      } else if reference[0] == '_' {
        room := TemplateRoom;
        rooms := rooms[reference := room];
      } else {
        Warning();
        room := PlaceholderRoom;
        rooms := rooms[reference := room];
      }
    }

    /** The slot a scanned token of a room row yields: none for an empty-room token, otherwise the room it loads. */
    function SlotOf(table: map<string, RoomDef>, t: Token): Option<RoomDef>
    {
      if t.kind == EmptyRoom then None else Some(Loaded(table, t.text))
    }

    /** `row` holds one slot per scanned token. */
    ghost predicate Placed(table: map<string, RoomDef>, slots: seq<Token>, row: seq<Option<RoomDef>>)
    {
      && |row| == |slots|
      && forall k | 0 <= k < |row| :: row[k] == SlotOf(table, slots[k])
    }

    /** The room table after placing the room ids of a row, in order. */
    function RecordAll(table: map<string, RoomDef>, slots: seq<Token>): map<string, RoomDef>
    {
      if |slots| == 0 then table
      else
        var n := |slots| - 1;
        var t := RecordAll(table, slots[..n]);
        if slots[n].kind == RoomId then Recorded(t, slots[n].text) else t
    }

    /** A placed row has an empty slot exactly for the empty-room tokens, and a spawn room exactly for the spawn references. */
    lemma PlacedSlots(table: map<string, RoomDef>, slots: seq<Token>, row: seq<Option<RoomDef>>)
      requires Placed(table, slots, row)
      ensures forall k | 0 <= k < |row| :: row[k].None? <==> slots[k].kind == EmptyRoom
      ensures forall k | 0 <= k < |row| && row[k].Some? :: row[k].value.Type() == SpawnRoom <==> IsSpawnRef(table, slots[k].text)
    {
      forall k | 0 <= k < |row| && row[k].Some?
        ensures row[k].value.Type() == SpawnRoom <==> IsSpawnRef(table, slots[k].text)
      {
        assert row[k].value == Loaded(table, slots[k].text);
      }
    }

    /** Where the spawn room ends up after placing the rooms of a row, the last one winning. */
    function LastSpawn(sp: Option<Coordinate>, table: map<string, RoomDef>, slots: seq<Token>, y: int): Option<Coordinate>
    {
      if |slots| == 0 then sp
      else
        var n := |slots| - 1;
        if slots[n].kind == RoomId && IsSpawnRef(table, slots[n].text) then Some(Coordinate(n, y))
        else LastSpawn(sp, table, slots[..n], y)
    }

    lemma LastSpawnSnoc(sp: Option<Coordinate>, table: map<string, RoomDef>, done: seq<Token>, t: Token, y: int)
      ensures LastSpawn(sp, table, done + [t], y)
              == if t.kind == RoomId && IsSpawnRef(table, t.text) then Some(Coordinate(|done|, y))
                 else LastSpawn(sp, table, done, y)
    {
      assert (done + [t])[..|done|] == done;
    }

    lemma PlacedSnoc(table: map<string, RoomDef>, done: seq<Token>, row: seq<Option<RoomDef>>,
                     t: Token, slot: Option<RoomDef>)
      requires Placed(table, done, row) && slot == SlotOf(table, t)
      ensures Placed(table, done + [t], row + [slot])
    {
    }

    lemma RecordAllSnoc(table: map<string, RoomDef>, done: seq<Token>, t: Token)
      ensures RecordAll(table, done + [t])
              == if t.kind == RoomId then Recorded(RecordAll(table, done), t.text) else RecordAll(table, done)
    {
      assert (done + [t])[..|done|] == done;
    }

    /** A row with a spawn room leaves the spawn position on its last one, in this row. */
    lemma {:induction false} LastSpawnInRow(sp: Option<Coordinate>, table: map<string, RoomDef>, slots: seq<Token>, y: int, k: nat)
      requires k < |slots| && slots[k].kind == RoomId && IsSpawnRef(table, slots[k].text)
      ensures var r := LastSpawn(sp, table, slots, y); r.Some? && r.value.y == y && k <= r.value.x < |slots|
    {
      var n := |slots| - 1;
      if k < n && !(slots[n].kind == RoomId && IsSpawnRef(table, slots[n].text)) {
        assert slots[..n][k] == slots[k];
        LastSpawnInRow(sp, table, slots[..n], y, k);
      }
    }

    /** The default tile of a glyph; an enemy is also filed under its id. */
    method GetDefaultTile(s: string, enemyDic: map<int, seq<Tile>>) returns (tile: Tile, dic: map<int, seq<Tile>>)
      modifies this`warnings
      ensures tile == DefaultTile(syntax, s).0
      ensures warnings == old(warnings) + (if DefaultTile(syntax, s).1 then 1 else 0)
      ensures dic == if tile.EnemyTile? then Filed(enemyDic, tile.eid, tile) else enemyDic
    {
      dic := enemyDic;
      if s == syntax.placeholder {
        return Floor, dic;
      }
      var code := TileStrToCode(syntax, s);
      if code == CodeEnemy {
        var enemyId := DecimalValue(s);
        tile := EnemyTile(enemyId);
        if enemyId !in dic {
          dic := dic[enemyId := []];
        }
        dic := dic[enemyId := dic[enemyId] + [tile]];
      } else {
        var unknown;
        tile, unknown := PlainTile(s, code);
        if unknown {
          Warning();
        }
      }
    }

    /** The tile of a glyph that is neither the placeholder nor an enemy id; the flag marks an unknown glyph. */
    method PlainTile(s: string, code: TileCode) returns (tile: Tile, unknown: bool)
      requires s != syntax.placeholder && code == TileStrToCode(syntax, s) && code != CodeEnemy
      ensures (tile, unknown) == DefaultTile(syntax, s)
    {
      unknown := false;
      if code == CodeCollectible {
        tile := CollectibleTile(FromRewardPool);
      } else if code == CodeTrigger {
        tile := TriggerTile;
      } else if code == CodeMessage {
        tile := MessageTile;
      } else if code == CodeEnergy {
        tile := CollectibleTile(EnergyPickup);
      } else if code == CodeRiddler {
        tile := RiddlerTile;
      } else if code == CodeShopKeeper {
        tile := ShopKeeperTile;
      } else if code == CodeFloor {
        tile := Floor;
      } else if code == CodeObstacle {
        tile := Obstacle;
      } else {
        tile, unknown := Floor, true;
      }
    }

    /** Files every tile descriptor of a room under its glyph. */
    method BuildTable(descriptors: seq<Tile>) returns (table: TileTable)
      ensures table == DescriptorTable(syntax, descriptors)
    {
      table := map[];
      ghost var done: seq<Tile> := [];
      for i := 0 to |descriptors|
        invariant done == descriptors[..i] && table == DescriptorTable(syntax, done)
      {
        table := FileDescriptor(table, done, descriptors[i]);
        done := done + [descriptors[i]];
        assert descriptors[..i + 1] == descriptors[..i] + [descriptors[i]];
      }
      assert descriptors[..|descriptors|] == descriptors;
    }

    /** Files one tile descriptor under its glyph: an enemy under its id, any other tile under its code's glyph. */
    method FileDescriptor(table: TileTable, ghost done: seq<Tile>, tile: Tile) returns (table': TileTable)
      requires table == DescriptorTable(syntax, done)
      ensures table' == DescriptorTable(syntax, done + [tile])
    {
      var key;
      if tile.EnemyTile? {
        key := Some(IntToString(tile.eid));
      } else {
        key := TileCodeToStr(syntax, Code(tile));
      }
      DescriptorTableSnoc(syntax, done, tile);
      table' := Filed(table, key, tile);
    }

    /** The next descriptor of a described glyph; the index advances until the last descriptor. */
    method NextDescriptor(table: TileTable, indices: map<string, nat>, s: string, ghost read: seq<string>)
      returns (tile: Tile, indices': map<string, nat>)
      requires forall key | key in table :: |table[key]| > 0
      requires Some(s) in table && IndicesAfter(table, indices, read)
      ensures tile == CellTile(syntax, table, s, Occurrences(read, s))
      ensures IndicesAfter(table, indices', read + [s])
    {
      indices' := indices;
      if s !in indices' {
        indices' := indices'[s := 0];
      }
      var index := indices'[s];
      tile := table[Some(s)][index];
      if index + 1 < |table[Some(s)]| {
        indices' := indices'[s := index + 1];
      }
      forall x | Some(x) in table
        ensures IndexOf(indices', x) == Min(Occurrences(read + [s], x), |table[Some(x)]| - 1)
      {
        OccurrencesSnoc(read, s, x);
      }
    }

    /** Builds row `i` of a room's tile matrix, padded with floors to the inner width. */
    method BuildRow(rows: seq<seq<string>>, i: nat, table: TileTable, indices: map<string, nat>,
                    enemyDic: map<int, seq<Tile>>)
      returns (cells: seq<Tile>, indices': map<string, nat>, enemyDic': map<int, seq<Tile>>)
      requires forall key | key in table :: |table[key]| > 0
      requires i < |rows| && IndicesAfter(table, indices, Flatten(rows[..i]))
      modifies this`warnings
      ensures RowAsDescribed(syntax, table, rows, i, cells)
      ensures IndicesAfter(table, indices', Flatten(rows[..i + 1]))
    {
      var row := rows[i];
      cells := [];
      indices' := indices;
      enemyDic' := enemyDic;
      ghost var read := Flatten(rows[..i]);
      for j := 0 to |row|
        invariant |cells| == j
        invariant read == Before(rows, i, j)
        invariant IndicesAfter(table, indices', read)
        invariant CellsAsDescribed(syntax, table, rows, i, cells, j)
      {
        var s := row[j];
        var tile;
        if Some(s) in table {
          tile, indices' := NextDescriptor(table, indices', s, read);
        } else {
          tile, enemyDic' := GetDefaultTile(s, enemyDic');
          IndicesAfterSkip(table, indices', read, s);
        }
        CellsAsDescribedSnoc(syntax, table, rows, i, cells, tile);
        BeforeNext(rows, i, j);
        cells := cells + [tile];
        read := read + [s];
      }
      PaddedRowAsDescribed(syntax, table, rows, i, cells);
      BeforeRowEnd(rows, i);
      cells := cells + FloorPadding(|cells|, Rooms.InnerWidth);
    }

    /** Builds the tile matrix of a room definition. */
    method BuildMatrix(rows: seq<seq<string>>, table: TileTable) returns (matrix: seq<seq<Tile>>)
      requires forall key | key in table :: |table[key]| > 0
      modifies this`warnings
      ensures RoomMatrix(syntax, table, rows, matrix)
    {
      var indices: map<string, nat> := map[];
      var enemyDic: map<int, seq<Tile>> := map[];
      matrix := [];
      for i := 0 to |rows|
        invariant |matrix| == i
        invariant IndicesAfter(table, indices, Flatten(rows[..i]))
        invariant forall k | 0 <= k < i :: RowAsDescribed(syntax, table, rows, k, matrix[k])
      {
        var cells;
        cells, indices, enemyDic := BuildRow(rows, i, table, indices, enemyDic);
        matrix := matrix + [cells];
      }
      matrix := PadHeight(matrix);
    }

    /** Appends rows of floors until the matrix is as high as a room's interior. */
    static method PadHeight(rows: seq<seq<Tile>>) returns (matrix: seq<seq<Tile>>)
      ensures |matrix| == Max(|rows|, Rooms.InnerHeight)
      ensures matrix[..|rows|] == rows
      ensures forall k | |rows| <= k < |matrix| :: matrix[k] == FloorPadding(0, Rooms.InnerWidth)
    {
      matrix := rows;
      while |matrix| < Rooms.InnerHeight
        invariant |rows| <= |matrix| <= Max(|rows|, Rooms.InnerHeight)
        invariant matrix[..|rows|] == rows
        invariant forall k | |rows| <= k < |matrix| :: matrix[k] == FloorPadding(0, Rooms.InnerWidth)
        decreases Rooms.InnerHeight - |matrix|
      {
        matrix := matrix + [FloorPadding(0, Rooms.InnerWidth)];
      }
    }

    /**
     * `room` is the room a definition describes: a custom room of its type,
     * visible or in sight as its attributes say, holding the described tiles.
     */
    ghost predicate BuiltFrom(ctx: RoomCtx, room: RoomDef)
    {
      && room.CustomRoom? && room.roomType == ctx.roomType
      && room.visibility == (if ctx.visible then Visible else if ctx.foggy then InSight else Hidden)
      && RoomMatrix(syntax, DescriptorTable(syntax, ctx.descriptors), ctx.rows, room.tiles)
    }

    /** No definition after the `k`-th and before the `i`-th has the same id. */
    predicate LastWithId(ctxs: seq<RoomCtx>, k: nat, i: nat)
      requires k < i <= |ctxs|
    {
      forall j | k < j < i :: ctxs[j].id != ctxs[k].id
    }

    /**
     * `now` is `start` after recording the first `i` definitions: its ids are the
     * old ones and theirs, ids they do not name keep their room, and each id
     * holds the room of its last definition so far.
     */
    ghost predicate RoomsRecorded(ctxs: seq<RoomCtx>, i: nat, start: map<string, RoomDef>, now: map<string, RoomDef>)
      requires i <= |ctxs|
    {
      && now.Keys == start.Keys + (set k | 0 <= k < i :: ctxs[k].id)
      && (forall r | r in start && forall k | 0 <= k < i :: ctxs[k].id != r :: now[r] == start[r])
      && LastBuilt(ctxs, i, now)
    }

    /** Each id of the first `i` definitions holds the room of its last definition among them. */
    ghost predicate LastBuilt(ctxs: seq<RoomCtx>, i: nat, now: map<string, RoomDef>)
      requires i <= |ctxs|
    {
      forall k | 0 <= k < i && LastWithId(ctxs, k, i) :: ctxs[k].id in now && BuiltFrom(ctxs[k], now[ctxs[k].id])
    }

    /** The ids of the first `i + 1` definitions are those of the first `i` and the `i`-th. */
    lemma IdsGrow(ctxs: seq<RoomCtx>, i: nat)
      requires i < |ctxs|
      ensures (set k | 0 <= k < i + 1 :: ctxs[k].id) == (set k | 0 <= k < i :: ctxs[k].id) + {ctxs[i].id}
    {
    }

    /** Recording the `i`-th definition keeps the rooms of the earlier last definitions. */
    lemma LastBuiltStep(ctxs: seq<RoomCtx>, i: nat, now: map<string, RoomDef>, room: RoomDef)
      requires i < |ctxs| && LastBuilt(ctxs, i, now)
      requires BuiltFrom(ctxs[i], room)
      ensures LastBuilt(ctxs, i + 1, now[ctxs[i].id := room])
    {
      var next := now[ctxs[i].id := room];
      forall k | 0 <= k < i + 1 && LastWithId(ctxs, k, i + 1)
        ensures ctxs[k].id in next && BuiltFrom(ctxs[k], next[ctxs[k].id])
      {
        if k < i {
          assert LastWithId(ctxs, k, i) && ctxs[i].id != ctxs[k].id;
          assert next[ctxs[k].id] == now[ctxs[k].id];
        } else {
          assert next[ctxs[k].id] == room;
        }
      }
    }

    /** Recording the `i`-th definition extends what the first `i` recorded. */
    lemma RecordStep(ctxs: seq<RoomCtx>, i: nat, start: map<string, RoomDef>, now: map<string, RoomDef>, room: RoomDef)
      requires i < |ctxs| && RoomsRecorded(ctxs, i, start, now)
      requires BuiltFrom(ctxs[i], room)
      ensures RoomsRecorded(ctxs, i + 1, start, now[ctxs[i].id := room])
    {
      IdsGrow(ctxs, i);
      LastBuiltStep(ctxs, i, now, room);
    }

    /** Builds a room of the level file: its tile matrix and its visibility. */
    method VisitRoom(ctx: RoomCtx) returns (id: string, room: RoomDef)
      modifies this`warnings
      ensures id == ctx.id && BuiltFrom(ctx, room)
    {
      var table := BuildTable(ctx.descriptors);
      var matrix := BuildMatrix(ctx.rows, table);
      var visibility := Hidden;
      if ctx.visible {
        visibility := Visible;
      } else if ctx.foggy {
        visibility := InSight;
      }
      return ctx.id, CustomRoom(ctx.roomType, matrix, visibility);
    }

    /** Records every room definition under its id. */
    method VisitRooms(ctxs: seq<RoomCtx>)
      modifies this`rooms, this`warnings
      ensures rooms.Keys == old(rooms).Keys + set k | 0 <= k < |ctxs| :: ctxs[k].id
      ensures forall r | r in old(rooms) && forall k | 0 <= k < |ctxs| :: ctxs[k].id != r :: rooms[r] == old(rooms)[r]
      ensures forall k | 0 <= k < |ctxs| && LastWithId(ctxs, k, |ctxs|) :: BuiltFrom(ctxs[k], rooms[ctxs[k].id])
    {
      for i := 0 to |ctxs|
        invariant RoomsRecorded(ctxs, i, old(rooms), rooms)
      {
        var id, room := VisitRoom(ctxs[i]);
        RecordStep(ctxs, i, old(rooms), rooms, room);
        rooms := rooms[id := room];
      }
    }

    /** The hallway table by id after the hallway definitions, a later definition replacing an earlier one. */
    function DoorsAfter(byId: map<string, Door>, defs: seq<(string, HAttributes)>): (r: map<string, Door>)
      requires forall k | 0 <= k < |defs| :: HasReferences(defs[k].1)
      ensures forall id | id in byId :: id in r
      ensures forall k | 0 <= k < |defs| :: defs[k].0 in r
      ensures |defs| > 0 ==> r[defs[|defs| - 1].0] == DoorOf(defs[|defs| - 1].1)
    {
      if |defs| == 0 then byId
      else
        var n := |defs| - 1;
        DoorsAfter(byId, defs[..n])[defs[n].0 := DoorOf(defs[n].1)]
    }

    /** The ids of the table after the hallway definitions are the old ids and the defined ones. */
    lemma {:induction false} DoorsAfterKeys(byId: map<string, Door>, defs: seq<(string, HAttributes)>)
      requires forall k | 0 <= k < |defs| :: HasReferences(defs[k].1)
      ensures forall id :: id in DoorsAfter(byId, defs) <==> id in byId || exists k | 0 <= k < |defs| :: defs[k].0 == id
    {
      if |defs| > 0 {
        var n := |defs| - 1;
        var front := defs[..n];
        DoorsAfterKeys(byId, front);
        assert DoorsAfter(byId, defs) == DoorsAfter(byId, front)[defs[n].0 := DoorOf(defs[n].1)];
        forall id
          ensures id in DoorsAfter(byId, defs) <==> id in byId || exists k | 0 <= k < |defs| :: defs[k].0 == id
        {
          if id != defs[n].0 && id !in byId {
            if k :| 0 <= k < |defs| && defs[k].0 == id {
              assert front[k].0 == id;
            }
            if k :| 0 <= k < n && front[k].0 == id {
              assert defs[k].0 == id;
            }
          }
        }
      }
    }

    /** After the hallway definitions each defined id holds the door of its last definition. */
    lemma {:induction false} DoorsAfterLast(byId: map<string, Door>, defs: seq<(string, HAttributes)>)
      requires forall k | 0 <= k < |defs| :: HasReferences(defs[k].1)
      ensures forall k | 0 <= k < |defs| && LastDefinition(defs, k) ::
        DoorsAfter(byId, defs)[defs[k].0] == DoorOf(defs[k].1)
    {
      if |defs| > 0 {
        var n := |defs| - 1;
        var front := defs[..n];
        var prev := DoorsAfter(byId, front);
        DoorsAfterLast(byId, front);
        assert DoorsAfter(byId, defs) == prev[defs[n].0 := DoorOf(defs[n].1)];
        forall k | 0 <= k < |defs| && LastDefinition(defs, k)
          ensures DoorsAfter(byId, defs)[defs[k].0] == DoorOf(defs[k].1)
        {
          if k < n {
            assert front[k] == defs[k];
            assert LastDefinition(front, k) by {
              forall j | k < j < n ensures front[j].0 != front[k].0 { assert front[j] == defs[j]; }
            }
            assert defs[n].0 != defs[k].0;
            assert prev[defs[k].0] == DoorOf(defs[k].1);
          }
        }
      }
    }

    /** After the hallway definitions every id that no definition names keeps its old door. */
    lemma {:induction false} DoorsAfterUntouched(byId: map<string, Door>, defs: seq<(string, HAttributes)>)
      requires forall k | 0 <= k < |defs| :: HasReferences(defs[k].1)
      ensures forall id | id in byId && (forall k | 0 <= k < |defs| :: defs[k].0 != id) ::
        DoorsAfter(byId, defs)[id] == byId[id]
    {
      if |defs| > 0 {
        var n := |defs| - 1;
        var front := defs[..n];
        DoorsAfterUntouched(byId, front);
        forall id | id in byId && (forall k | 0 <= k < |defs| :: defs[k].0 != id)
          ensures DoorsAfter(byId, defs)[id] == byId[id]
        {
          assert defs[n].0 != id;
          assert forall k | 0 <= k < n :: front[k].0 == defs[k].0;
        }
      }
    }

    /** No later hallway definition reuses the id of definition `k`. */
    predicate LastDefinition(defs: seq<(string, HAttributes)>, k: nat)
      requires k < |defs|
    {
      forall j | k < j < |defs| :: defs[j].0 != defs[k].0
    }

    /** Records the door of every hallway definition under its id. */
    method VisitHallways(defs: seq<(string, HAttributes)>)
      requires forall k | 0 <= k < |defs| :: HasReferences(defs[k].1)
      modifies this`hallwaysById, this`warnings
      ensures hallwaysById == DoorsAfter(old(hallwaysById), defs)
    {
      for i := 0 to |defs|
        invariant hallwaysById == DoorsAfter(old(hallwaysById), defs[..i])
      {
        var door := VisitHAttributes(defs[i].1);
        hallwaysById := hallwaysById[defs[i].0 := door];
        assert defs[..i + 1][..i] == defs[..i];
      }
      assert defs[..|defs|] == defs;
    }

    /**
     * Connects every hallway id of a layout row from its column to the
     * neighbour in `direction`, up to the column limit, which gives a warning.
     */
    method HallwayHandling(children: seq<Token>, y: int, direction: Direction)
      modifies this`hallways, this`warnings
      ensures var (slots, cut) := Scan(children, 0, 0, HallwayTokens, overspecified);
        && hallways == AddRowHallways(old(hallways), hallwaysById, syntax, slots, y, direction)
        && warnings == old(warnings) + (if cut then 1 else 0)
    {
      var x := 0;
      ghost var h0 := hallways;
      ghost var done: seq<Token> := [];
      for c := 0 to |children|
        invariant x == |done| && ScannedUpTo(children, c, x, HallwayTokens, overspecified, done)
        invariant hallways == AddRowHallways(h0, hallwaysById, syntax, done, y, direction)
        invariant warnings == old(warnings)
      {
        var child := children[c];
        if overspecified(x, child.kind) {
          ScanEnd(children, c, x, HallwayTokens, overspecified, done);
          Warning();
          return;
        }
        ScanAdvance(children, c, x, HallwayTokens, overspecified, done);
        if child.kind in HallwayTokens {
          HallwayNext(child, x, y, direction, h0, done);
          done := done + [child];
          x := x + 1;
        }
      }
      ScanEnd(children, |children|, x, HallwayTokens, overspecified, done);
    }

    /** Connects the next scanned token of a row when it is a hallway id. */
    method HallwayNext(child: Token, x: int, y: int, direction: Direction,
                       ghost h0: HallwayTable, ghost done: seq<Token>)
      requires child.kind in HallwayTokens && x == |done|
      requires hallways == AddRowHallways(h0, hallwaysById, syntax, done, y, direction)
      modifies this`hallways
      ensures hallways == AddRowHallways(h0, hallwaysById, syntax, done + [child], y, direction)
    {
      AddRowHallwaysSnoc(h0, hallwaysById, syntax, done, child, y, direction);
      if child.kind == HallwayId {
        var origin := Coordinate(x, y);
        AddHallway(origin, origin.Plus(direction), LoadHallway(hallwaysById, syntax, child.text));
      }
    }

    /** A row of hallways in the layout: connects its hallways downwards to the next room row. */
    method VisitLHallwayRow(children: seq<Token>, y: int)
      modifies this`hallways, this`warnings
      ensures var (slots, cut) := Scan(children, 0, 0, HallwayTokens, overspecified);
        && hallways == AddRowHallways(old(hallways), hallwaysById, syntax, slots, y, South)
        && warnings == old(warnings) + (if cut then 1 else 0)
    {
      HallwayHandling(children, y, South);
    }

    /**
     * A row of rooms in the layout: connects its hallways eastwards, then
     * places one room (or an empty slot) per column up to the column limit.
     */
    method VisitLRoomRow(children: seq<Token>, y: int) returns (row: seq<Option<RoomDef>>)
      requires forall k | 0 <= k < |children| :: children[k].kind == RoomId ==> |children[k].text| > 0
      modifies this`hallways, this`rooms, this`spawnPos, this`warnings
      ensures hallways == AddRowHallways(old(hallways), hallwaysById, syntax,
                                         Scan(children, 0, 0, HallwayTokens, overspecified).0, y, East)
      ensures var slots := Scan(children, 0, 0, RoomTokens, overspecified).0;
        && Placed(old(rooms), slots, row)
        && rooms == RecordAll(old(rooms), slots)
        && spawnPos == LastSpawn(old(spawnPos), old(rooms), slots, y)
    {
      HallwayHandling(children, y, East);
      row := PlaceRooms(children, y);
    }

    /** One column of a layout row: the room a room id places, or an empty slot. */
    method PlaceSlot(child: Token, x: int, y: int) returns (slot: Option<RoomDef>)
      requires child.kind in RoomTokens && (child.kind == RoomId ==> |child.text| > 0)
      modifies this`rooms, this`spawnPos, this`warnings
      ensures slot == SlotOf(old(rooms), child)
      ensures rooms == (if child.kind == RoomId then Recorded(old(rooms), child.text) else old(rooms))
      ensures LoadsAlike(old(rooms), rooms)
      ensures spawnPos == if child.kind == RoomId && IsSpawnRef(old(rooms), child.text) then Some(Coordinate(x, y))
                          else old(spawnPos)
      ensures warnings == old(warnings) + (if child.kind == RoomId then LoadWarnings(old(rooms), old(spawnPos), child.text) else 0)
    {
      if child.kind == RoomId {
        var room := LoadRoom(child.text, x, y);
        slot := Some(room);
      } else {
        slot := None;
      }
    }

    /** Places the next scanned token of a row, extending `row` and the spawn bookkeeping by it. */
    method PlaceNext(child: Token, x: int, y: int, ghost rooms0: map<string, RoomDef>, ghost sp0: Option<Coordinate>,
                     ghost done: seq<Token>, row: seq<Option<RoomDef>>)
      returns (row': seq<Option<RoomDef>>)
      requires child.kind in RoomTokens && (child.kind == RoomId ==> |child.text| > 0)
      requires x == |done| && Placed(rooms0, done, row) && LoadsAlike(rooms0, rooms)
      requires rooms == RecordAll(rooms0, done) && spawnPos == LastSpawn(sp0, rooms0, done, y)
      modifies this`rooms, this`spawnPos, this`warnings
      ensures Placed(rooms0, done + [child], row') && LoadsAlike(rooms0, rooms)
      ensures rooms == RecordAll(rooms0, done + [child]) && spawnPos == LastSpawn(sp0, rooms0, done + [child], y)
    {
      var slot := PlaceSlot(child, x, y);
      PlacedSnoc(rooms0, done, row, child, slot);
      LastSpawnSnoc(sp0, rooms0, done, child, y);
      RecordAllSnoc(rooms0, done, child);
      row' := row + [slot];
    }

    /** The room-placing loop of a layout row. */
    method PlaceRooms(children: seq<Token>, y: int) returns (row: seq<Option<RoomDef>>)
      requires forall k | 0 <= k < |children| :: children[k].kind == RoomId ==> |children[k].text| > 0
      modifies this`rooms, this`spawnPos, this`warnings
      ensures var slots := Scan(children, 0, 0, RoomTokens, overspecified).0;
        && Placed(old(rooms), slots, row)
        && rooms == RecordAll(old(rooms), slots)
        && spawnPos == LastSpawn(old(spawnPos), old(rooms), slots, y)
    {
      row := [];
      var x := 0;
      ghost var rooms0 := rooms;
      ghost var sp0 := spawnPos;
      ghost var done: seq<Token> := [];
      for c := 0 to |children|
        invariant x == |done| && ScannedUpTo(children, c, x, RoomTokens, overspecified, done)
        invariant Placed(rooms0, done, row) && LoadsAlike(rooms0, rooms)
        invariant rooms == RecordAll(rooms0, done) && spawnPos == LastSpawn(sp0, rooms0, done, y)
      {
        var child := children[c];
        if overspecified(x, child.kind) {
          ScanEnd(children, c, x, RoomTokens, overspecified, done);
          Warning();
          return;
        }
        ScanAdvance(children, c, x, RoomTokens, overspecified, done);
        if child.kind in RoomTokens {
          row := PlaceNext(child, x, y, rooms0, sp0, done, row);
          done := done + [child];
          x := x + 1;
        }
      }
      ScanEnd(children, |children|, x, RoomTokens, overspecified, done);
    }
  }
}
