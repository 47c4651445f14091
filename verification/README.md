# Qrogue dungeon core in Dafny

This project models the spatial core of Qrogue, a quantum-computing roguelike:

- the **areas** a level is made of: rooms, hallways and placeholders, together with their tile grids and their fog-of-war state;
- the **map** that places those areas on a grid of 7 columns and 3 rows, translates screen coordinates into areas and moves the player;
- the **collectible and shop factories** that draw rewards and shop offers from pools;
- the data logic of the **level builder**, which turns the parsed text of a level file into rooms, hallways, doors and a spawn position.

Modules:

- `Navigation`: directions and coordinates.
- `Tiles`: tiles and doors.
- `Random`: the random manager, as an oracle that only respects ranges.
- `Rooms`: the classes `Area`, `Hallway`, `Room` and `WildRoom`.
- `GameMap`: the class `Map`.
- `Factory`: the classes `CollectibleFactory` and `ShopFactory`.
- `LevelGenerator`: the class `Generator`, plus the pure functions that specify it.

Objects whose fields the game updates in place are classes. Their methods state the new state and the invariants it keeps, for example:

- visibility only ever grows;
- a room's hallways point back at it;
- the hallway table stays symmetric;
- the spawn position is the last spawn reference placed.

The builder's loops are methods proved against specification functions: `Scan`, `AddRowHallways`, `DescriptorTable`, `CellTile` and `RoomMatrix`. The properties that the game relies on are proved as lemmas about those functions.

## Model

| member | source | states |
|---|---|---|
| Rooms.Area.constructor | game/map/rooms.py:23-33 | An area holds the given tile matrix, its width and height come from it, and it starts unseen, invisible and unvisited. |
| Rooms.Area.Placeholder | game/map/rooms.py:107-121 | A placeholder area is a single void tile. |
| Rooms.Area.At | game/map/rooms.py:56-73 | A placeholder always shows void. Outside the grid the result is Invalid. Inside it, the real tile shows when visible, revealed or forced, fog when only in sight, and void otherwise. |
| Rooms.Area.SetTile | game/map/rooms.py:43-54 | Succeeds exactly for coordinates inside the unit area. It then changes that one tile and nothing else; on failure the tiles are unchanged. |
| Rooms.Area.MakeVisible | game/map/rooms.py:89-91 | Afterwards the area is both in sight and visible. |
| Rooms.Area.InSight | game/map/rooms.py:93-94 | A real area becomes in sight; a placeholder keeps its state. |
| Rooms.Area.Enter | game/map/rooms.py:96-98 | A real area becomes visible and visited; a placeholder ignores the call. |
| Rooms.IsFirst | game/map/rooms.py:157-164 | A room takes the first slot of a hallway exactly when the hallway lies East or South of it, the two directions whose step increases a coordinate. |
| Rooms.IsFirstOppositeSides | game/map/rooms.py:157-164 | The two rooms seen from opposite sides of a hallway take different slots (first and second). |
| Rooms.HallwayTiles | game/map/rooms.py:166-177 | A hallway is a wall-door-wall strip padded with void: a row for a vertical connection, a column for a horizontal one. |
| Rooms.Hallway.constructor | game/map/rooms.py:166-177 | A new hallway keeps its door, has no rooms yet, and its fresh area holds the hallway tiles. |
| Rooms.Hallway.ConnectsHorizontally | game/map/rooms.py:191-197 | A hallway connects rooms side by side exactly when its door points East or West. |
| Rooms.Hallway.IsHorizontal | game/map/rooms.py:199-203 | A hallway is a row exactly when its tiles form a single row, and that row is a unit wide; otherwise its tiles form a column. |
| Rooms.Hallway.GetRoom | game/map/rooms.py:220-224 | Returns the first or the second room, as asked. |
| Rooms.Hallway.SetRoom | game/map/rooms.py:179-189 | A room seen from the east or south becomes the first room, otherwise the second; the other slot keeps its room, and asking for the slot of that side gives the room back. |
| Rooms.Hallway.InSight | game/map/rooms.py:205-214 | The hallway becomes visible and both its rooms in sight; no area loses visibility. |
| Rooms.Hallway.Enter | game/map/rooms.py:216-218 | Both rooms become shown. Only the two rooms and their hallways become visible; the rooms beyond those hallways are at most put in sight. No area loses visibility. |
| Rooms.CoordinateToIndex | game/map/rooms.py:239-240 | An interior coordinate maps to a row-major index inside the tile list that maps back to it. |
| Rooms.IndexToCoordinateInverse | game/map/rooms.py:239-240 | Every index of the tile list is the index of exactly the interior coordinate it maps to. |
| Rooms.CoordinateToIndexInjective | game/map/rooms.py:239-240 | Two different interior coordinates never share a list index. |
| Rooms.EmptyRoomTileList | game/map/rooms.py:243-244 | The empty room interior is all floor, of interior size. |
| Rooms.DicToTileList | game/map/rooms.py:247-257 | Fails exactly when some placed coordinate has a row-major index outside the tile list; (5, 0), say, lands on the next row. Otherwise every cell holds the last tile placed there, or floor where none was placed. |
| Rooms.NewRoomArea | game/map/rooms.py:261-279 | A room's fresh area is a unit-sized grid equal to `RoomGrid` of its tiles and open sides. |
| Rooms.FenceTiles | game/map/rooms.py:261-279 | Builds the interior fenced by walls, as `FencedGrid` describes it. |
| Rooms.BuildRoomTiles | game/map/rooms.py:261-298 | The fenced grid with a floor opening at the middle of each side that has a hallway. |
| Rooms.RoomGridTopBottom | game/map/rooms.py:262-298 | The top and bottom rows are walls except for the north and south openings. |
| Rooms.RoomGridSides | game/map/rooms.py:262-298 | The outer columns are walls except for the west and east openings. |
| Rooms.RoomGridInterior | game/map/rooms.py:262-298 | Every inner cell shows the tile list entry at its row-major index. |
| Rooms.HallwayTable | game/map/rooms.py:280-302 | A side is registered exactly when a hallway is given there whose orientation fits the side. |
| Rooms.Attach | game/map/rooms.py:280-302 | Every registered hallway gets the room in the slot its side dictates. Its other slot keeps its room, and a hallway that is not registered keeps both. |
| Rooms.Room.constructor | game/map/rooms.py:259-302 | The room's area is `RoomGrid` of its tiles and open sides. The hallway map holds exactly the fitting hallways. Each points back at the room in the slot its side dictates, its other slot is kept, and a hallway that does not fit keeps both rooms. |
| Rooms.LinkNeighbours | game/map/rooms.py:179-189 | Building a west room and then an east room on one horizontal hallway leaves the west room first and the east room second: the second constructor keeps the first one's back-reference. |
| Rooms.Room.GetHallway | game/map/rooms.py:304-310 | Returns the hallway of a side exactly when the room has one there. |
| Rooms.Room.MakeVisible | game/map/rooms.py:312-316 | The room and every hallway it has become shown, which puts the rooms beyond in sight. Only the room and its hallways become visible, only they and the rooms beyond come into sight, and no area loses visibility. |
| Rooms.RevealSide | game/map/rooms.py:205-214 | The hallway of one side, if any, becomes shown and its rooms come into sight. Only that hallway becomes visible, only it and its rooms come into sight, sides already shown stay shown, and no area loses visibility. |
| Rooms.EnemyTarget | game/map/rooms.py:378-382 | The enemy count is the interior size times the chance, rounded down or up; with a chance of at most 1 it fits the interior. |
| Rooms.InteriorPositionList | game/map/rooms.py:375-377 | The candidate positions are every interior coordinate in row-major order. |
| Rooms.SeedEnemies | game/map/rooms.py:386-393 | Places exactly `count` enemies with ids 0 to 4 and floor everywhere else. Each group lists exactly the enemies of its id. |
| Rooms.SeedStep | game/map/rooms.py:387-393 | Placing one enemy at a free position keeps the seeding invariant with one position fewer. |
| Rooms.GroupsStep | game/map/rooms.py:387-393 | Filing the placed enemy under its id keeps the groups in step with the tiles. |
| Rooms.PlaceEnemy | game/map/rooms.py:387-393 | The remaining positions stay distinct, interior and free. |
| Rooms.WildInterior | game/map/rooms.py:373-393 | The interior has one tile per interior cell, each floor or an enemy of ids 0 to 4. The groups list its enemies, the enemy count is the target rounded down or up, and every other cell is floor. |
| Rooms.WildRoom.constructor | game/map/rooms.py:361-395 | The interior is as `WildInterior` builds it, the groups match it, and the room area is the grid of that interior. The new room is valid, hidden, unvisited and a unit in size. A side has a hallway exactly when one is given and registers that side, and then it is that hallway, attached as for any room. |
| Rooms.WildRoom.GetTilesById | game/map/rooms.py:400-401 | Ids 1 to 9 give the enemies of that id, as many as the interior holds; other ids give nothing. |
| GameMap.CalculatePos | game/map/map.py:15-26 | Screen position from room and in-room position: dividing by the cell size gives back the room, the remainder the in-room position. |
| GameMap.Width | game/map/map.py:47-49 | The map is 55 wide, one past the last cell of the last column. |
| GameMap.Height | game/map/map.py:43-45 | The map is 23 high, one past the last cell of the last row. |
| GameMap.Locate | game/map/map.py:66-86 | Classifies a screen position as a room cell, an east or south hallway cell, or a crossing. It gives coordinates that `CalculatePos` maps back to the position. |
| GameMap.LocateCalculatePos | game/map/map.py:66-86 | A position computed from a room cell is located back in that cell. |
| GameMap.Map.constructor | game/map/map.py:28-37 | The player stands in the middle of the spawn room, which is the current area and is visited and shown. Only the spawn room is visited, only it and its hallways become visible, and only they and the rooms beyond come into sight. |
| GameMap.EnterAndReveal | game/map/map.py:36-37 | The room is visited and shown, and the grid stays closed. Only the room is visited, only it and its hallways become visible, only they and the rooms beyond come into sight, and no area loses visibility. |
| GameMap.Map.PlaceInAreas | game/map/map.py:119-124 | Every area that entering a place of the grid may touch belongs to the grid. |
| GameMap.Map.RoomAt | game/map/map.py:103-106 | Returns the grid entry, or null outside the grid. |
| GameMap.Map.GetArea | game/map/map.py:59-101 | A crossing is Invalid with no area. A room cell gives its room and that room's tile. A hallway cell of a room with a hallway on that side gives that hallway and its tile at the cell's offset along the hallway; without one it is Invalid with no area. |
| GameMap.GetAreaCalculatePos | game/map/map.py:59-101 | Every cell of an existing room is found by `GetArea` as that room with its tile. |
| GameMap.GetAreaHallwayPos | game/map/map.py:66-99 | The boundary cells east and south of a room are on the map exactly when the room is not in the last column or row. There they give the room's hallway on that side and its tile at that offset. |
| GameMap.Map.Move | game/map/map.py:108-132 | Moves exactly when the next position is on the map and its tile is walkable. Otherwise nothing changes. The new current area is the one at the new position and is entered. Only the entered place's own areas are visited, only they and their hallways become visible, only those and the rooms beyond come into sight, and no area loses visibility. |
| GameMap.Map.MoveTo | game/map/map.py:120-129 | The player is at the position and in the place. A new place is entered; the current place changes nothing. Fog-of-war flags change only within the areas the place may see, light and visit, and never decrease. |
| GameMap.Map.EnterPlace | game/map/map.py:120-129 | Entering a room makes it visible and visited; entering a hallway shows both its rooms. Only the areas the place may see, light and visit change, and no area loses visibility. |
| Factory.CollectibleFactory.constructor | game/collectibles/factory.py:8-10 | The factory keeps its pool. |
| Factory.CollectibleFactory.Produce | game/collectibles/factory.py:12-13 | Produces an element of the pool exactly when the pool is not empty, using one draw. |
| Factory.CollectibleFactory.ProduceMultiple | game/collectibles/factory.py:15-20 | Produces `n` pool elements at drawn indices. Unique draws succeed exactly when `n` fits the pool and never repeat an index; repeated draws need a non-empty pool. |
| Factory.CollectibleFactory.ProduceUnique | game/collectibles/factory.py:16-18 | Distinct indices, so the result is a sub-multiset of the pool. |
| Factory.CollectibleFactory.ProduceRepeated | game/collectibles/factory.py:19-20 | `n` draws from a non-empty pool, with repetition. |
| Factory.RemoveAt | game/collectibles/factory.py:18 | Removing one element keeps the others in order and removes exactly it from the multiset. |
| Factory.TracksStep | game/collectibles/factory.py:17-18 | After a removal the remaining elements still record their original pool indices. |
| Factory.DrawingStep | game/collectibles/factory.py:17-18 | Drawing one more element keeps "drawn plus remaining is the pool". |
| Factory.RoundHalfEven | game/collectibles/factory.py:88-91 | Rounds to the nearest integer, with ties going to the even one. |
| Factory.RoundHalfEvenUnique | game/collectibles/factory.py:88-91 | That rounding is the only one with those properties. |
| Factory.ShopFactory.constructor | game/collectibles/factory.py:39-57 | The shop factory keeps its pools, quality level, item range, discount and base unit. |
| Factory.ShopFactory.Price | game/collectibles/factory.py:87-91 | A shop item for the collectible with a fair price: half the default price rounded half to even when discounted, otherwise the default price plus a rounded variation of at most the sigma. |
| Factory.ShopFactory.Slot | game/collectibles/factory.py:75-93 | A special item is taken out of the special pool while quality allows, and is forced on the last quality slot. Otherwise a common item is drawn, if the common pool is not empty. |
| Factory.ShopFactory.Target | game/collectibles/factory.py:71-72 | An explicit count is kept; otherwise the target is drawn in the shop's range. |
| Factory.ShopFactory.Produce | game/collectibles/factory.py:59-95 | As written: target plus one fairly priced items. Specials come only from the special pool and only within quality. |
| Factory.ShopFactory.ProduceExact | game/collectibles/factory.py:59-95 | Corrected: exactly the target number of items, so a drawn count lies in the shop's range. |
| Factory.ShopFactory.Fill | game/collectibles/factory.py:74-94 | Fills `count` slots forming a valid offer whenever the common pool is not empty. |
| Factory.ShopFactory.OfferSpecialBound | game/collectibles/factory.py:69-94 | An offer never holds more specials than the special pool or the quality level. |
| Factory.ShopFactory.OfferSnoc | game/collectibles/factory.py:74-94 | Adding a valid slot keeps the offer valid and the special pool accounted for. |
| Factory.ShopFactory.SlotsSnoc | game/collectibles/factory.py:74-94 | Adding a fairly priced slot from the right pool keeps every slot valid. |
| Factory.ShopFactory.SpecialsOkSnoc | game/collectibles/factory.py:74-94 | Adding a slot keeps the specials in the quality prefix and the special pool accounted for. |
| Factory.SpecialsBelowQuality | game/collectibles/factory.py:75-94 | Specials only in the first `quality` slots means at most `quality` specials. |
| Factory.SlotsAsWrittenLeaveRange | game/collectibles/factory.py:71-74 | A target of 4 in the range [2, 5) yields 5 items, outside the range. |
| Factory.SlotsInRange | game/collectibles/factory.py:71-74 | The corrected count stays in range, and the loop as written gives one more. |
| LevelGenerator.TileStrToCode | qrogue/game/world/dungeon_generator/QrogueLevelGenerator.py:34-55 | A digit string is an enemy. Each named glyph gives its tile code, and anything else is Invalid. |
| LevelGenerator.TileCodeToStr | qrogue/game/world/dungeon_generator/QrogueLevelGenerator.py:58-78 | Printable codes give their glyph and Enemy gives "0". Obstacle and the other codes give none. |
| LevelGenerator.TileCodeRoundTrip | qrogue/game/world/dungeon_generator/QrogueLevelGenerator.py:34-78 | For well-formed glyphs, code to glyph to code is the identity on printable codes. |
| LevelGenerator.DecimalRoundTrip | qrogue/game/world/dungeon_generator/QrogueLevelGenerator.py:173 | Reading back the decimal text of a natural number gives the number. |
| LevelGenerator.IntToString | qrogue/game/world/dungeon_generator/QrogueLevelGenerator.py:764 | The decimal text of an enemy id is a digit string. |
| LevelGenerator.Generator.constructor | qrogue/game/world/dungeon_generator/QrogueLevelGenerator.py:80-115 | The builder starts with no warnings, hallways, rooms or spawn. |
| LevelGenerator.Generator.Warning | qrogue/game/world/dungeon_generator/QrogueLevelGenerator.py:121-123 | A warning is counted. |
| LevelGenerator.PadRows | qrogue/game/world/dungeon_generator/QrogueLevelGenerator.py:142-149 | Every row is padded with empty cells to the longest row's width, keeping its prefix; the width is that of some row. |
| LevelGenerator.AddedHallway | qrogue/game/world/dungeon_generator/QrogueLevelGenerator.py:155-164 | With a door, both directions of the pair are set to it and every other entry is kept. |
| LevelGenerator.Generator.AddHallway | qrogue/game/world/dungeon_generator/QrogueLevelGenerator.py:155-164 | The hallway table becomes `AddedHallway` of the old one. |
| LevelGenerator.AddedHallwaySymmetric | qrogue/game/world/dungeon_generator/QrogueLevelGenerator.py:155-164 | Adding a hallway keeps the table symmetric. |
| LevelGenerator.DefaultTile | qrogue/game/world/dungeon_generator/QrogueLevelGenerator.py:166-209 | The placeholder is floor. Digits are an enemy of that id. Each named glyph is its tile, and an unknown glyph is floor with a warning. |
| LevelGenerator.DefaultTileCode | qrogue/game/world/dungeon_generator/QrogueLevelGenerator.py:166-209 | A default tile that is not an unknown glyph has the code its text names. |
| LevelGenerator.Generator.GetDefaultTile | qrogue/game/world/dungeon_generator/QrogueLevelGenerator.py:166-209 | Returns `DefaultTile` and warns when it does. An enemy is filed under its id in the enemy dictionary. |
| LevelGenerator.Generator.PlainTile | qrogue/game/world/dungeon_generator/QrogueLevelGenerator.py:180-209 | The non-enemy branch agrees with `DefaultTile`. |
| LevelGenerator.GateOfAsWritten | qrogue/game/world/dungeon_generator/QrogueLevelGenerator.py:243-260 | The gate lookup as written, with its misspelt Hadamard alias. |
| LevelGenerator.HadamardGateTypo | qrogue/game/world/dungeon_generator/QrogueLevelGenerator.py:251 | As written, "hadamardgate" is not recognised and warns. |
| LevelGenerator.GateOf | qrogue/game/world/dungeon_generator/QrogueLevelGenerator.py:243-260 | Corrected lookup: every alias gives its gate, and an unknown reference warns. |
| LevelGenerator.GateOfAliases | qrogue/game/world/dungeon_generator/QrogueLevelGenerator.py:243-260 | Every short and long alias, "hadamardgate" included, gives its gate without warning. |
| LevelGenerator.GateOfAgrees | qrogue/game/world/dungeon_generator/QrogueLevelGenerator.py:243-260 | The correction changes only the misspelt alias. |
| LevelGenerator.Generator.LoadGate | qrogue/game/world/dungeon_generator/QrogueLevelGenerator.py:243-260 | Loads the gate of the normalised reference by the corrected lookup `GateOf`, and warns exactly when that reference is unknown. |
| LevelGenerator.Generator.MessageOf | qrogue/game/world/dungeon_generator/QrogueLevelGenerator.py:278-290 | Warns exactly when neither the reference, nor its normalised form, nor a help text for it is known. |
| LevelGenerator.LoadHallway | qrogue/game/world/dungeon_generator/QrogueLevelGenerator.py:292-301 | A known reference gives its door, and the empty-hallway glyph gives no door. Any other reference gives the default North door. |
| LevelGenerator.Generator.Loaded | qrogue/game/world/dungeon_generator/QrogueLevelGenerator.py:303-333 | The room a reference places is a spawn room exactly for a spawn reference, and a placeholder for an unknown reference other than the spawn glyph. |
| LevelGenerator.Generator.RecordedLoadsAlike | qrogue/game/world/dungeon_generator/QrogueLevelGenerator.py:322-333 | Recording a template or unknown reference adds it to the table without changing the room that any reference loads. |
| LevelGenerator.Generator.LoadRoom | qrogue/game/world/dungeon_generator/QrogueLevelGenerator.py:303-333 | Returns the room `Loaded` from the old table and records an unknown reference other than the spawn glyph. A spawn reference moves the spawn position here. It warns once for a second spawn and once for an unknown reference that is not a template. |
| LevelGenerator.Generator.LastSpawnInRow | qrogue/game/world/dungeon_generator/QrogueLevelGenerator.py:303-333 | If a row contains a spawn reference, the spawn ends up in that row at or after it. |
| LevelGenerator.Generator.PlacedSlots | qrogue/game/world/dungeon_generator/QrogueLevelGenerator.py:871-877 | In a placed row, a slot is empty exactly for an empty-room token, and holds a spawn room exactly for a spawn reference. |
| LevelGenerator.OpenState | qrogue/game/world/dungeon_generator/QrogueLevelGenerator.py:533-552 | Only an event lock carries an event id. A defaulted closed door is the one that warns, and at most one reference is used. |
| LevelGenerator.EventLockStates | qrogue/game/world/dungeon_generator/QrogueLevelGenerator.py:533-552 | An event lock needs a reference and is otherwise a closed door with a warning. |
| LevelGenerator.Generator.VisitOpenState | qrogue/game/world/dungeon_generator/QrogueLevelGenerator.py:533-552 | Computes `OpenState`, normalises the event id and warns exactly when it does. |
| LevelGenerator.OneWay | qrogue/game/world/dungeon_generator/QrogueLevelGenerator.py:516-531 | A door is one-way exactly when it has a direction, and permanent exactly when it is also marked permanent. |
| LevelGenerator.DoorDirection | qrogue/game/world/dungeon_generator/QrogueLevelGenerator.py:516-531 | A door's direction is never Center. |
| LevelGenerator.Generator.VisitDirection | qrogue/game/world/dungeon_generator/QrogueLevelGenerator.py:516-531 | Computes the direction and the one-way state. |
| LevelGenerator.Generator.DoorOf | qrogue/game/world/dungeon_generator/QrogueLevelGenerator.py:515-566 | The door has that direction, open state and one-way state, and an event id exactly when event-locked. |
| LevelGenerator.Generator.VisitHAttributes | qrogue/game/world/dungeon_generator/QrogueLevelGenerator.py:515-566 | Builds `DoorOf` and counts its warnings. |
| LevelGenerator.Generator.DoorsAfter | qrogue/game/world/dungeon_generator/QrogueLevelGenerator.py:568-577 | Every earlier and every defined id has a door, and the last definition's door wins. |
| LevelGenerator.Generator.DoorsAfterKeys | qrogue/game/world/dungeon_generator/QrogueLevelGenerator.py:568-577 | The ids of the table are exactly the earlier ids and the defined ones. |
| LevelGenerator.Generator.DoorsAfterLast | qrogue/game/world/dungeon_generator/QrogueLevelGenerator.py:568-577 | Each defined id holds the door of its last definition. |
| LevelGenerator.Generator.DoorsAfterUntouched | qrogue/game/world/dungeon_generator/QrogueLevelGenerator.py:568-577 | An id that no definition names keeps its earlier door. |
| LevelGenerator.Generator.VisitHallways | qrogue/game/world/dungeon_generator/QrogueLevelGenerator.py:568-577 | The doors by id become `DoorsAfter` of the definitions. |
| LevelGenerator.DescriptorTable | qrogue/game/world/dungeon_generator/QrogueLevelGenerator.py:760-770 | Every key of the descriptor table has at least one tile. |
| LevelGenerator.DescriptorTableMatching | qrogue/game/world/dungeon_generator/QrogueLevelGenerator.py:760-770 | A key is in the table exactly when some descriptor has it, and its list is those descriptors in order. |
| LevelGenerator.MatchingKeys | qrogue/game/world/dungeon_generator/QrogueLevelGenerator.py:760-770 | Every tile filed under a key has that key. |
| LevelGenerator.Generator.BuildTable | qrogue/game/world/dungeon_generator/QrogueLevelGenerator.py:760-770 | The loop builds `DescriptorTable` of the descriptors. |
| LevelGenerator.Generator.FileDescriptor | qrogue/game/world/dungeon_generator/QrogueLevelGenerator.py:764-770 | Filing one more descriptor gives the table of the longer list. |
| LevelGenerator.DescribedCell | qrogue/game/world/dungeon_generator/QrogueLevelGenerator.py:782-800 | A described glyph takes its next descriptor, and the last one is repeated once they run out. An undescribed glyph takes its default tile. |
| LevelGenerator.Generator.NextDescriptor | qrogue/game/world/dungeon_generator/QrogueLevelGenerator.py:786-794 | The cell is the descriptor due after the earlier uses of the glyph, and the indices advance. |
| LevelGenerator.Generator.BuildRow | qrogue/game/world/dungeon_generator/QrogueLevelGenerator.py:783-800 | Each cell is as described in reading order, and the row is padded with floor to the interior width. |
| LevelGenerator.Generator.BuildMatrix | qrogue/game/world/dungeon_generator/QrogueLevelGenerator.py:782-803 | The whole tile matrix satisfies `RoomMatrix`. |
| LevelGenerator.Generator.PadHeight | qrogue/game/world/dungeon_generator/QrogueLevelGenerator.py:802-803 | Adds floor rows up to the interior height and keeps the existing rows. |
| LevelGenerator.RoomMatrixCoversInterior | qrogue/game/world/dungeon_generator/QrogueLevelGenerator.py:782-803 | The matrix is at least interior-sized. |
| LevelGenerator.Generator.VisitRoom | qrogue/game/world/dungeon_generator/QrogueLevelGenerator.py:752-812 | The room keeps its id and type, is visible or in sight as its attributes say, and holds the described tile matrix. |
| LevelGenerator.Generator.VisitRooms | qrogue/game/world/dungeon_generator/QrogueLevelGenerator.py:814-817 | Every defined id is registered and other rooms keep their definition. Each id holds the room built from its last definition. |
| LevelGenerator.AddRowHallwaysSymmetric | qrogue/game/world/dungeon_generator/QrogueLevelGenerator.py:839-854 | A row of hallways keeps the table symmetric. |
| LevelGenerator.AddRowHallwaysConnects | qrogue/game/world/dungeon_generator/QrogueLevelGenerator.py:839-854 | A known hallway id at a slot connects its two neighbouring rooms in the row's direction. |
| LevelGenerator.Generator.HallwayHandling | qrogue/game/world/dungeon_generator/QrogueLevelGenerator.py:839-854 | Adds the hallways of the scanned slots, and warns once if the row is cut off as over-specified. |
| LevelGenerator.Generator.HallwayNext | qrogue/game/world/dungeon_generator/QrogueLevelGenerator.py:847-851 | One hallway slot extends the row's hallways by one. |
| LevelGenerator.Generator.VisitLHallwayRow | qrogue/game/world/dungeon_generator/QrogueLevelGenerator.py:856-857 | A hallway row connects rooms to the south, and warns once if the row is cut off as over-specified. |
| LevelGenerator.Generator.VisitLRoomRow | qrogue/game/world/dungeon_generator/QrogueLevelGenerator.py:859-878 | A room row adds its east hallways and places, per column, the room its token loads or an empty slot. It records the unknown references and leaves the spawn at its last spawn reference. |
| LevelGenerator.Generator.PlaceRooms | qrogue/game/world/dungeon_generator/QrogueLevelGenerator.py:859-878 | Each scanned slot holds the room its token loads from the old table, or none for an empty-room token. The table records the row's unknown references, and the spawn ends at the last spawn reference. |
| LevelGenerator.Generator.PlaceSlot | qrogue/game/world/dungeon_generator/QrogueLevelGenerator.py:871-877 | An empty-room token gives no room. A room id gives the room `Loaded` from the table and records it as `LoadRoom` does. It moves the spawn there exactly for a spawn reference and counts the same warnings. |
| LevelGenerator.Generator.PlaceNext | qrogue/game/world/dungeon_generator/QrogueLevelGenerator.py:871-877 | Placing one more slot extends the placed row, the recorded table and the spawn position accordingly. |

## Left out

- Logging, pop-ups, screen rendering (`get_row_str`, `__str__`) and the game callbacks are not modelled. The builder's warnings are a counter.
- The cheat configuration's revealed map is the `revealed` parameter of `At`, `GetArea` and `Move`.
- The random generator is not part of this model. Each draw is an arbitrary value in the requested range. Drawing an element from an empty pool is modelled as no result.
- The price arithmetic (`0.1 * price`, halving) is done in exact reals, not binary floating point. The rounding itself is Python's round-half-to-even.
- Collectibles are reduced to a name and a default price. `ShopItem.base_unit()` is the parameter `baseUnit`.
- `GateFactory`, `ShopFactory.default` and the special-room classes (gate, riddle, shop, treasure, boss) are not modelled.
- The `special_pool is not None` test of the shop factory cannot fail in the model.
- The tile classes, the door tiles and their walkability rules are not part of this model. Walkability is a parameter of `Move`; it must reject Invalid tiles, which the game never lets the player enter.
- The parser utilities' glyph constants are the `Syntax` record. Reference normalisation is the `normalize` function. The over-specified-column test is the `overspecified` function. Help texts and level messages are constructor parameters.
- Reward pools, state-vector pools, triggers, enemy factories and the payloads of tiles are reduced to tile kinds. `__load_reward_pool`, `__load_stv_pool` and `__load_trigger` are not modelled.
- The ANTLR lexer and parser, reading the level file, `visitLayout`'s row loop, `visitComplex_number`, the robot and the final level object are not modelled. State vectors are not part of this model.
- LevelGenerator.Generator.VisitRoom: does not state the warning count or the enemy dictionary filled while reading default tiles.
- LevelGenerator.Generator.VisitLRoomRow: does not state the warning count.
- LevelGenerator.Generator.PlaceRooms: does not state the warning count.
- Factory.ShopFactory.Produce: requires `min < max` when the count is drawn, because the random manager's draw needs a non-empty range.
- LevelGenerator.IsDigits accepts only ASCII digits; Python's `isdigit` also accepts other Unicode digits.
- Coordinates are always truthy in the source, so the door test in `_add_hallway` depends only on the door.
- The placeholder room types of the builder are collapsed into one `Placeholder` room.
- The padding in `generate` extends the rows in place; the model computes the padded rows as new values.
- Rooms.Room.constructor: requires a tile list of at least interior size. The source accepts a shorter list: it skips the missing cells, which leaves ragged rows (rooms.py:271-272 has no else branch). The model excludes such lists.
- The aliasing of the vertical hallways' shared placeholder column is not modelled.
- Area ids are not modelled.
- Rooms.WildRoom.constructor: requires a chance of at most 1, since the source would otherwise try to place more enemies than there are positions.
- The pop-up that `Hallway.in_sight` shows when a room is missing is not modelled.
- GameMap.Map.constructor: requires a grid whose hallways link rooms of the grid, and a spawn room that exists.
- GameMap.Map.GetArea: requires the position to be on the map, as `move` checks before calling it.
- The walk triggers of tiles, the player tile and the seed's use are not modelled.
- Rooms.EnemyTarget: multiplies the interior size by the chance in exact reals. The source multiplies binary floats (rooms.py:378), so where the float product rounds across an integer the floor or ceiling can differ by one.
- Rooms.WildRoom.constructor: takes the random manager as a parameter; the source creates a new one with `RM.create_new()`.
- LevelGenerator.Generator.LoadRoom: returns the room definition from the table. The source returns `room.copy(hw_dic)`, a copy attached to the hallways around (x, y) that `parser_util.get_hallways` collects, and gives the new spawn, template and placeholder rooms those hallways too. `get_hallways`, `Room.copy` and these links are not part of this model.
- LevelGenerator.Generator.LoadGate: follows the corrected lookup `GateOf`, so "hadamardgate" loads the Hadamard gate. As written the source warns and returns its default gate for it (see Findings).
- GameMap.Map.MoveTo: sets the player position before entering the new place; the source sets it after the walk trigger. Nothing in between reads the position.
- GameMap.Map.Move: its modifies clause names the fog-of-war flags of every area of the grid. Its ensures bound the changes to the entered place's areas. The same holds for GameMap.Map.constructor and the spawn room.
- `Area.leave` does nothing in the source and is not modelled.

## Findings

| source | as written | input that shows it | evidently intended | confidence | as-written member | corrected member |
|---|---|---|---|---|---|---|
| qrogue/game/world/dungeon_generator/QrogueLevelGenerator.py:251 | the Hadamard gate's long alias is spelt "hadamarggate" | reference "hadamardgate" is reported as unknown and falls back to the default gate | "hadamardgate" loads the Hadamard gate | not executed | LevelGenerator.HadamardGateTypo | LevelGenerator.GateOfAliases |
| game/collectibles/factory.py:74 | the loop runs while `len(shop_items) <= num_of_items`, producing one item more than the target | minimum 2, maximum 5, target drawn as 4 gives 5 items, outside [2, 5) | exactly the target number of items | not executed | Factory.SlotsAsWrittenLeaveRange | Factory.SlotsInRange |
