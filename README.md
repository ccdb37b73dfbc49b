# Rat Royale in Dafny

Rat Royale is a two-player, turn-based tactics game on a hexagonal board. Rodents and features stand on tiles. Players spend crumbs to deploy squeak cards. A pygame front end turns mouse gestures into page and element callbacks. This project models the game's rules engine and the front end's bookkeeping in Dafny and proves what they promise.

What is modelled, grouped as in the program:

- **Board geometry.**
  - `Hexagon` covers odd-r, axial and cube coordinates: conversion round trips, distance as a metric, neighbours, hexes within a range, and vector addition and subtraction.
  - `HexSearch` covers the breadth-first reachable-set search and the A* path finder. Both are loops over their frontier, visited set and cost tables.
  - `Sides` covers the two sides and their integer codes.
- **Game state.**
  - `Entities` covers entities and their damage, the `entity_data` skill validation, and effect classes.
  - `Features` and `CommonFeatures` cover features, their ID registry, the collision flags and the crumbs-stack reference count.
  - `Tiles`, `Timers` and `Maps` cover tiles, timers, and the map with its feature lists.
  - `Boards` covers the board: its entity cache, entity placement and moves.
  - `CrumbsModifier` covers the crumbs-per-turn modifier.
  - `SqueakSets` covers deck validation, deck building and dealing.
  - `GameManagers` covers the game manager: turns, crumbs, hands, skills, moves, effects and their expiry.
- **Rodent rules.**
  - `CommonSkills` covers target filtering and the shorthand-callback rule.
  - `Tanks` covers Cracker's one-shot bread abandonment.
  - `Supports` covers Quartermaster's soul effect and its two-phase skill.
- **The AI driver.**
  - `BaseAIs` covers the banned-action loop that drives an AI player.
- **Utilities.**
  - `DataPointers` covers the sequential byte reader, which reads integers of either byte order.
- **Front-end bookkeeping.**
  - `GestureReaders` covers the gesture state machine.
  - `PageManagers`, `BasePages` and `PageRegistries` cover the page stack with its back-end callback state machine, page input dispatch, and the page registry.
  - `ElementManagers`, `ElementGroups` and `Elements` cover element collections kept in z-order, selection groups, and the element tree with its hitboxes.
  - `GameBoards` covers the game board's selection and ability panel.
  - `SqueakElements` covers when a squeak card may be played.
  - `FeatureTextures` covers the feature-border triangle choice.
- **The visual layer.**
  - `SpritesheetManagers` covers the spritesheet cache and frame slicing.
  - `SpriteRegistries` covers the sprite metadata registries and the tile memo.
  - `SpriteAnims` covers frame selection in sprite animations.
  - `AnimCoordinators` covers the FIFO coordinator of animation sets.

The form of the model follows the source:
- Code that computes a value is datatypes, functions and lemmas.
- An object whose methods update its fields is a `class` whose methods carry `modifies` clauses, and each such method is proved against a function of its inputs and old state.
- An exception the source raises is an `Err` of the `Wrappers.Result` type, named after the Python exception.
- Python's semantics are written out where they matter:
  - floored `%` and `//`, and truncating `int()`;
  - negative list indices;
  - `list.remove` removing the first occurrence;
  - insertion-ordered dicts.

Several source files disagree with each other. Each file is modelled on its own text, and the disagreements are listed under "Left out".

Where the code contradicts its evident intent, the faulty operation is modelled twice, as written and corrected; "Findings" names both members. Operations that reach faulty code go through the as-written member:
- the climb test of `is_coord_blocked` uses `get_total_height` as written;
- `add_position` and `add_child` use the circle corner as written;
- the game board's `select_element` uses the page's `get_element` as written;
- the turn-end expiry uses `_effect_duration_over` as written;
- a page that the page manager opens gets the bindings of the binding scan as written, which are none.

Some value-level functions carry no contract of their own, because they are the specifications of methods:
- `GameBoards.NextSelection` specifies `GameBoards.GameBoard.SelectElement`, with `GameBoards.SelectTwice`;
- `GameManagers.Draw` and `GameManagers.DrawN` specify `DrawSqueak` and `DealHands`, with `GameManagers.DrawConserves` and `GameManagers.DrawNStops`;
- `GameManagers.Wanted` specifies `GameManagers.TopWanted`, `GetEnemyOnPos` and `GetAllyOnPos`;
- `GameManagers.Lasting` specifies `GameManagers.Survivors` and `DecrementDurations`.

## Model

| member | source | states |
|---|---|---|
| Wrappers.PyIndex | src/ratroyale/backend/game_manager.py:289 | a list read `s[i]` succeeds exactly for -n <= i < n; a negative index counts from the end |
| Wrappers.PyInt | src/ratroyale/frontend/visual/anim/core/sprite_anim.py:36 | `int()` truncates toward zero: the result is the floor for non-negative input and the ceiling for negative input |
| Sides.OtherSide | src/ratroyale/backend/side.py:8-13 | RAT and MOUSE are swapped and no side is its own opposite |
| Sides.FromInt | src/ratroyale/backend/side.py:15-19 | 0 is no side, 1 is RAT, 2 is MOUSE, and any other value raises ValueError |
| Sides.ToInt | src/ratroyale/backend/side.py:21-25 | None is 0, RAT is 1 and MOUSE is 2 |
| Sides.OtherSideInvolution | src/ratroyale/backend/side.py:8-13 | taking the other side twice gives back the original side |
| Sides.IntRoundTrip | src/ratroyale/backend/side.py:15-25 | `to_int(from_int(v)) == v` for every v in 0..2 |
| Sides.SideRoundTrip | src/ratroyale/backend/side.py:15-25 | `from_int(to_int(s)) == s` for every `Side` or None |
| Hexagon.Parity | src/ratroyale/backend/hexagon.py:50 | `row & 1` is 0 or 1 and leaves an even remainder, negative rows included |
| Hexagon.ToOddR | src/ratroyale/backend/hexagon.py:217-224 | axial to odd-r is a right inverse of odd-r to axial: converting the result back gives the input |
| Hexagon.ToCube | src/ratroyale/backend/hexagon.py:211-215 | every cube coordinate built from axial has q + r + s = 0 and keeps q and r |
| Hexagon.GetNeighbor | src/ratroyale/backend/hexagon.py:96-106 | a direction outside 0..5 raises ValueError; any other direction gives a coordinate at distance exactly 1 |
| Hexagon.Neighbors | src/ratroyale/backend/hexagon.py:108-113 | six neighbours, the d-th being the neighbour in direction d |
| Hexagon.OddRRoundTrip | src/ratroyale/backend/hexagon.py:46-53 | odd-r to axial and back is the identity for every integer pair, negative rows included |
| Hexagon.ToAxialInjective | src/ratroyale/backend/hexagon.py:46-53 | two odd-r coordinates with the same axial form are equal |
| Hexagon.CubeNumeratorEven | src/ratroyale/backend/hexagon.py:272-277 | the sum of the absolute cube differences is even, so the `// 2` is exact |
| Hexagon.DistanceIsMaxComponent | src/ratroyale/backend/hexagon.py:58-59 | the distance equals the largest absolute cube component of the difference |
| Hexagon.DistanceZeroIffEqual | src/ratroyale/backend/hexagon.py:58-59 | the distance is non-negative, and it is zero iff the coordinates are equal |
| Hexagon.DistanceSymmetric | src/ratroyale/backend/hexagon.py:58-59 | the distance is symmetric |
| Hexagon.DistanceTriangle | src/ratroyale/backend/hexagon.py:58-59 | the distance satisfies the triangle inequality |
| Hexagon.NeighborAtDistanceOne | src/ratroyale/backend/hexagon.py:96-106 | the neighbour in each valid direction is at distance 1 |
| Hexagon.NeighborsDistinct | src/ratroyale/backend/hexagon.py:29-36 | the six neighbours are pairwise distinct |
| Hexagon.NeighborAxial | src/ratroyale/backend/hexagon.py:29-36 | in axial form, each direction is the same unit step on even and odd rows |
| Hexagon.DistanceOneIsNeighbor | src/ratroyale/backend/hexagon.py:96-113 | conversely, every coordinate at distance 1 is one of the six neighbours |
| Hexagon.NeighborDistanceStep | src/ratroyale/backend/hexagon.py:96-106 | one step to a neighbour moves at most one unit away from any coordinate |
| Hexagon.AddSubInverse | src/ratroyale/backend/hexagon.py:146-150 | `(a + b) - b == a` and `(a - b) + b == a` |
| Hexagon.RangeColumnMembers | src/ratroyale/backend/hexagon.py:236-238 | the inner loop for column offset q yields exactly the coordinates whose r offset is within the column's bounds |
| Hexagon.RangeFromMembers | src/ratroyale/backend/hexagon.py:236-238 | the outer loop from column q yields exactly the in-band coordinates whose q offset is at least q |
| Hexagon.RangeFromDistinct | src/ratroyale/backend/hexagon.py:236-238 | the nested loops never yield a coordinate twice |
| Hexagon.InHexagonIsDistance | src/ratroyale/backend/hexagon.py:232-238 | lying within the three axial bands is the same as lying within cube distance N |
| Hexagon.AllInRangeExact | src/ratroyale/backend/hexagon.py:64-65 | `all_in_range(N)` yields each coordinate within distance N exactly once and nothing farther; a negative N yields nothing |
| HexSearch.StepUnion | src/ratroyale/backend/hexagon.py:129-135 | expanding a union of fringes is the union of the expansions |
| HexSearch.StepSingleton | src/ratroyale/backend/hexagon.py:131-135 | expanding one coordinate gives its unblocked neighbours |
| HexSearch.OutNext | src/ratroyale/backend/hexagon.py:132-135 | one more direction adds that neighbour exactly when its step is not blocked |
| HexSearch.ReachMonotone | src/ratroyale/backend/hexagon.py:129-135 | the set reached in k steps grows with k |
| HexSearch.ReachFromFringe | src/ratroyale/backend/hexagon.py:129-135 | expanding only the newest fringe gives the same set as expanding everything reached so far |
| HexSearch.ReachWithinDistance | src/ratroyale/backend/hexagon.py:115-140 | every coordinate reached in k steps is within distance k of the origin |
| HexSearch.ReachEntered | src/ratroyale/backend/hexagon.py:133-135 | every reached coordinate other than the origin was entered by an unblocked step from a coordinate reached one step earlier |
| HexSearch.GetReachableCoords | src/ratroyale/backend/hexagon.py:115-140 | the result is exactly the coordinates reachable in `reach` unblocked steps (only the origin's level for a negative reach), without the origin unless `is_include_self` |
| HexSearch.LinksUpdate | src/ratroyale/backend/hexagon.py:185-189 | giving a coordinate a parent and a higher cost than the parent's keeps the `came_from` links sound |
| HexSearch.PathInReach | src/ratroyale/backend/hexagon.py:152-200 | the end of an unblocked path of n steps is reached within n steps |
| HexSearch.ClosedHoldsReach | src/ratroyale/backend/hexagon.py:175-189 | a set that holds the origin and is closed under unblocked steps holds every reachable coordinate |
| HexSearch.MinPriority | src/ratroyale/backend/hexagon.py:176 | the frontier entry taken has the least priority |
| HexSearch.Relax | src/ratroyale/backend/hexagon.py:180-189 | for one neighbour: the links stay sound, no known cost is lost, and an unblocked neighbour ends up discovered |
| HexSearch.ExpandNeighbors | src/ratroyale/backend/hexagon.py:179-189 | after all six neighbours the search state stays consistent, and either a new coordinate was discovered or the sum of costs fell, which makes the search terminate |
| HexSearch.RebuildPath | src/ratroyale/backend/hexagon.py:194-200 | following the links back from the goal gives an unblocked neighbour path from the origin to the goal |
| HexSearch.PathFind | src/ratroyale/backend/hexagon.py:152-200 | a returned path runs from the origin to the goal by unblocked neighbour steps, and None is returned iff the goal cannot be reached |
| CrumbsModifier.CeilQuarter | src/ratroyale/backend/crumbs_per_turn_modifier.py:14 | `math.ceil(t / 4)` is the least r with t <= 4r |
| CrumbsModifier.DefaultBaseCrumbsPerTurn | src/ratroyale/backend/crumbs_per_turn_modifier.py:13-14 | the base income is at most 50 and a multiple of 10; it is 10 for turns 1..4 and reaches 50 exactly from turn 17 on |
| CrumbsModifier.DefaultBaseMonotone | src/ratroyale/backend/crumbs_per_turn_modifier.py:13-14 | the base income never falls as the turn count grows |
| CrumbsModifier.AdderSumNone | src/ratroyale/backend/crumbs_per_turn_modifier.py:25-30 | when no range holds the turn, the turn adder is 0 |
| CrumbsModifier.MultiplierSumNone | src/ratroyale/backend/crumbs_per_turn_modifier.py:32-37 | when no range holds the turn, the multipliers add nothing to the starting 1.0 |
| CrumbsModifier.CrumbsForDefault | src/ratroyale/backend/crumbs_per_turn_modifier.py:39-46 | with empty modifier lists and default side maps the income equals the base |
| CrumbsModifier.CrumbsForAdderShift | src/ratroyale/backend/crumbs_per_turn_modifier.py:41-45 | adders apply after flooring, so raising a side's adder by k raises the income by exactly k |
| CrumbsModifier.CrumbsForMultiplierMonotone | src/ratroyale/backend/crumbs_per_turn_modifier.py:41-44 | a non-negative base never earns less when the side's multiplier grows |
| CrumbsModifier.CrumbsPerTurnModifier.constructor | src/ratroyale/backend/crumbs_per_turn_modifier.py:17-23 | a new modifier has the given base, empty side maps (read as 0) and empty range lists |
| CrumbsModifier.CrumbsPerTurnModifier.GetTurnAdder | src/ratroyale/backend/crumbs_per_turn_modifier.py:25-30 | the loop's total is the sum of the adders whose range holds the turn |
| CrumbsModifier.CrumbsPerTurnModifier.GetTurnMultiplier | src/ratroyale/backend/crumbs_per_turn_modifier.py:32-37 | the loop's total is 1.0 plus the sum of the multipliers whose range holds the turn |
| CrumbsModifier.CrumbsPerTurnModifier.GetCrumbs | src/ratroyale/backend/crumbs_per_turn_modifier.py:39-46 | the income is the floored product of the base and the summed multipliers, plus the summed adders |
| Timers.TimerClass.constructor | src/ratroyale/backend/timer.py:10-11 | a Timer subclass starts undecorated |
| Timers.TimerClass.Decorate | src/ratroyale/backend/timer.py:37-42 | `timer_data(side)` marks the class as decorated with that clear side |
| Timers.TimerClearsOnOneTurn | src/ratroyale/backend/timer.py:24-25 | a timer clears on its class's side and on exactly one of any two opposite turns |
| Timers.Timer.constructor | src/ratroyale/backend/timer.py:21-22 | a timer of a decorated class keeps the given duration and intensity unchanged |
| Timers.NewTimer | src/ratroyale/backend/timer.py:16-22 | an undecorated class raises TypeError; otherwise a fresh timer holds the given duration and intensity |
| Features.Feature.constructor | src/ratroyale/backend/feature.py:12-17 | a feature holds the given shape, health, defense (default 0) and side |
| Features.Feature.TakeDamage | src/ratroyale/backend/feature.py:51-70 | no health raises ValueError and changes nothing; otherwise the hook's damage replaces the given one, health falls by `max(1, damage - defense)` clamped at 0, the loss returned is old minus new health, "died" holds iff health is 0, and a living feature always loses at least 1 |
| Features.FeatureRegistry.constructor | src/ratroyale/backend/feature.py:18 | the class-level registry starts empty |
| Features.FeatureRegistry.RegisterSubclass | src/ratroyale/backend/feature.py:31-36 | an ID already taken raises and leaves the registry unchanged; otherwise the ID maps to the new class |
| Tiles.MaxHeight | src/ratroyale/backend/tile.py:17 | the greatest entity height: no entity is taller, and some entity has it |
| Tiles.TotalHeightAsWritten | src/ratroyale/backend/tile.py:16-17 | an empty tile raises ValueError from `max`; otherwise the result is at least the tile height plus each entity's height, and equal to it for some entity |
| Tiles.EmptyTileHeightRaises | src/ratroyale/backend/tile.py:17 | a tile with no entities cannot compute its total height |
| Tiles.TotalHeight | src/ratroyale/backend/tile.py:16-17 | an empty tile stands at its own height; otherwise the result agrees with the code as written |
| Entities.ValidPrefix | src/ratroyale/backend/entity.py:115-127 | how many skills pass the checks before the first failing one: all before it pass, and the one at it fails |
| Entities.SkillList.constructor | src/ratroyale/backend/entity.py:50 | the class-level skill list starts empty |
| Entities.RegisterSkillsAsWritten | src/ratroyale/backend/entity.py:115-129 | `entity_data` as written: it succeeds iff every skill method exists, is callable and takes one parameter, otherwise ValueError; the skills checked before the failure are appended to the one shared list |
| Entities.PrefixStops | src/ratroyale/backend/entity.py:115-127 | the loop stops exactly at the first skill that fails its checks |
| Entities.SharedSkillListLeaks | src/ratroyale/backend/entity.py:50 | two decorated classes end up with one list holding both classes' skills, so the second class also lists the first class's skills |
| Entities.ClassSkills | src/ratroyale/backend/entity.py:115-129 | the corrected per-class list: ValueError iff some skill fails its checks; otherwise exactly the class's own skills |
| Entities.RawLoss | src/ratroyale/backend/entity.py:81 | the raw loss is `max(1, damage - defense)`: at least 1, at least the damage beyond defense, and equal to one of them |
| Entities.Entity.constructor | src/ratroyale/backend/entity.py:41-55 | a new entity has the given position and side, and its class's stats |
| Entities.Entity.TakeDamage | src/ratroyale/backend/entity.py:70-89 | no health raises ValueError and changes nothing; otherwise the hook's damage replaces the given one, health falls by `max(1, damage - (defense or 0))` clamped at 0, the loss returned is old minus new health, "died" holds iff health is 0, and a living entity always loses at least 1 |
| Entities.EffectClass.constructor | src/ratroyale/backend/entity_effect.py:20 | an effect class starts undecorated |
| Entities.EffectClass.Decorate | src/ratroyale/backend/entity_effect.py:81-91 | `effect_data` marks the class as decorated and records its clear side and name |
| Entities.ShouldClearFor | src/ratroyale/backend/entity_effect.py:42-59 | ENEMY and ALLY raise ValueError when the entity has no side; ENEMY clears iff the turn is the other side, ALLY iff it is the entity's side, ANY always |
| Entities.ShouldClearComplementary | src/ratroyale/backend/entity_effect.py:42-57 | an ENEMY effect clears on exactly one of two opposite turns, and on each turn exactly one of ENEMY and ALLY clears |
| Entities.EntityEffect.constructor | src/ratroyale/backend/entity_effect.py:36-40 | a new effect has the given duration and intensity, no turn passed and no overridden effects |
| Entities.NewEffect | src/ratroyale/backend/entity_effect.py:29-40 | an undecorated effect class raises TypeError; otherwise a fresh effect as the constructor sets it |
| CommonFeatures.FeatureIdOf | src/ratroyale/backend/features/common.py:17-53 | every feature ID is positive (Lair 1, DeploymentZone 2, CrumbsStack 3) |
| CommonFeatures.FeatureIdsDistinct | src/ratroyale/backend/features/common.py:17-53 | no two feature classes share an ID |
| CommonFeatures.IsCollision | src/ratroyale/backend/features/common.py:21-57 | only the Lair collides |
| CommonFeatures.DefineCommonFeatures | src/ratroyale/backend/feature.py:31-36 | defining the three classes succeeds iff none of their IDs is taken, and then registers all three |
| CommonFeatures.NewFeature | src/ratroyale/backend/features/common.py:15-49 | a fresh feature with its class's ID and collision flag, the given fields, and an empty side count |
| CommonFeatures.Enter | src/ratroyale/backend/features/common.py:74-76 | entering adds one to the side's count and raises its multiplier by 0.1 only on the first arrival; other sides are untouched |
| CommonFeatures.Exit | src/ratroyale/backend/features/common.py:86-88 | exiting takes one from the side's count and lowers its multiplier by 0.1 only when the last one leaves; other sides are untouched |
| CommonFeatures.ExitUndoesEnter | src/ratroyale/backend/features/common.py:66-88 | entering and then exiting restores every side's count and multiplier |
| CommonFeatures.BonusWhileOccupied | src/ratroyale/backend/features/common.py:74-76 | k arrivals on an empty stack count k and add the 0.1 bonus once, not k times |
| CommonFeatures.OnEntityEnter | src/ratroyale/backend/features/common.py:66-76 | an entity without a side changes nothing; otherwise the stack and the modifier change as Enter says |
| CommonFeatures.OnEntityExit | src/ratroyale/backend/features/common.py:78-88 | an entity without a side changes nothing; otherwise the stack and the modifier change as Exit says |
| Maps.Cell | src/ratroyale/backend/map.py:31-32 | `tiles[y][x]` with Python indexing: when it exists, the row and column found lie inside the grid |
| Maps.ReachablePrefix | src/ratroyale/backend/map.py:30-32 | how many shape offsets the loop handles before the first one whose tile index raises: all before it have a tile, and the one at it does not |
| Maps.SameCount | src/ratroyale/backend/map.py:27 | the number of dataclass-equal copies in a list is positive iff `feature in list` |
| Maps.RemoveFirstSame | src/ratroyale/backend/map.py:35 | `list.remove` takes out exactly one equal copy and nothing else |
| Maps.RemoveSameNUndoesRepeat | src/ratroyale/backend/map.py:32-38 | removing n copies after appending n copies to a list without one restores the list |
| Maps.RemoveFirstSkips | src/ratroyale/backend/map.py:35 | `list.remove` passes over a prefix that holds no equal copy |
| Maps.SetFeatures | src/ratroyale/backend/map.py:31-32 | replacing one tile's feature list changes that cell and no other |
| Maps.Map.Empty | src/ratroyale/backend/map.py:17-22 | the sizes, tiles and entities are stored, and the feature list starts empty |
| Maps.Map.AddFeature | src/ratroyale/backend/map.py:26-32 | an equal feature already present raises ValueError and changes nothing; otherwise the feature is appended to `features` and to the tile of each shape offset in turn, stopping with IndexError at the first offset without a tile |
| Maps.Map.RemoveFeature | src/ratroyale/backend/map.py:34-38 | an absent feature raises ValueError and changes nothing; otherwise its first copy leaves `features`, a removal that can be completed succeeds, and success means one copy left the tile of every shape offset |
| Maps.RemoveFromTiles | src/ratroyale/backend/map.py:36-38 | the tile loop of `remove_feature`: it keeps the grid's shape, succeeds whenever each covered tile holds enough copies, and on success one copy per offset has left each covered tile |
| Maps.RemoveUndoesAppend | src/ratroyale/backend/map.py:29-35 | removing a feature just appended to a list without it restores the list |
| Maps.RemoveUndoesAdd | src/ratroyale/backend/map.py:26-38 | after a complete `add_feature` of a new feature, `remove_feature` always succeeds on the tiles and restores every tile list |
| Maps.NewMapFails | src/ratroyale/backend/map.py:23-24 | a duplicate feature or an offset without a tile makes construction fail |
| Maps.NewMap | src/ratroyale/backend/map.py:17-24 | construction succeeds iff no feature repeats an earlier one and every offset has a tile; it then stores the sizes, entities and features, and each tile gains exactly the features covering it, in order |
| Boards.TileAt | src/ratroyale/backend/board.py:98-103 | a coordinate outside [0, size_x) x [0, size_y) gives None; inside, the tile stored there, or IndexError when the grid is shorter than its stated size |
| Boards.TileAtRectangular | src/ratroyale/backend/board.py:98-103 | on a grid of the stated size the lookup never raises, and it finds a tile exactly inside the bounds where one is stored |
| Boards.IsCoordBlocked | src/ratroyale/backend/board.py:110-133 | a step is blocked when the target has no tile, or when its tile collides (a colliding mover meets a colliding entity, or a feature collides); the climb test reaches `get_total_height` as written, so a tile without entities makes it raise ValueError; only IndexError and ValueError are raised |
| Boards.BlockedOnlyByClimb | src/ratroyale/backend/board.py:124-131 | between two tiles that exist, with a free target: ValueError when either tile has no entities (tile.py:16-17 as written); otherwise the step is blocked exactly when the climb exceeds the jump height |
| Boards.DefaultJumpHeight | src/ratroyale/backend/board.py:113-114 | between two tiles that both hold entities, with the default jump height a climb of 1 is allowed and a climb of 2 is blocked |
| Boards.ScanPath | src/ratroyale/backend/board.py:172-177 | the path loop fails only with IndexError, and a free path ends on a tile |
| Boards.ScanPathMeaning | src/ratroyale/backend/board.py:172-177 | the path scan succeeds iff every path coordinate has a tile that does not collide; it returns False only at some missing or colliding tile |
| Boards.RemoveFirst | src/ratroyale/backend/board.py:86 | `list.remove` takes exactly one copy out of the multiset of the list |
| Boards.RemoveFirstAppended | src/ratroyale/backend/board.py:69-86 | removing an element just appended to a list without it restores the list |
| Boards.AddedLists | src/ratroyale/backend/board.py:68-77 | `add_entity` appends to `entities` and to its side's list; to the health lists iff it has health; to `rodents` iff it is a Rodent; to the turn-change list iff it has that hook; other sides are untouched |
| Boards.RemoveKeyed | src/ratroyale/backend/board.py:87 | removing from a side's list succeeds iff the entity is in it, and changes only that side's list |
| Boards.RemoveFromCache | src/ratroyale/backend/board.py:84-96 | `remove_entity` succeeds iff the entity is in every list it must be removed from; otherwise ValueError |
| Boards.RemovedLists | src/ratroyale/backend/board.py:84-96 | a successful removal takes the first copy out of each list the entity belongs to, drops its feature entry, and leaves other sides alone |
| Boards.RemoveHp | src/ratroyale/backend/board.py:90-92 | the health step of `remove_entity` touches only the two health lists, and only when the entity has health |
| Boards.RemoveUndoesAdd | src/ratroyale/backend/board.py:68-96 | `remove_entity` after `add_entity` of a new entity succeeds and restores every cache list |
| Boards.AddedOnce | src/ratroyale/backend/board.py:68-77 | after an add, the entity is in each list it was added to, and removing its first copy gives the list before |
| Boards.RemovedRestores | src/ratroyale/backend/board.py:84-96 | removing the entity's first copy from each list it was appended to gives back the lists before the add |
| Boards.Filter | src/ratroyale/backend/board.py:20-35 | a filtered list holds exactly the entities of the list that meet the criterion |
| Boards.FilterAppend | src/ratroyale/backend/board.py:69-77 | filtering after an append adds the entity at the end iff it meets the criterion |
| Boards.FilterRemove | src/ratroyale/backend/board.py:86-96 | filtering after a removal removes the entity's first copy iff it meets the criterion |
| Boards.AddKeepsInv | src/ratroyale/backend/board.py:68-77 | `add_entity` keeps the cache invariant: every list is the filter of `entities` by its criterion, so the health lists and `rodents` are sublists and `sides[s]` holds exactly the entities of side s |
| Boards.SidesAfterAdd | src/ratroyale/backend/board.py:70 | appending to the entity's own side list keeps every side list equal to the filter of `entities` by side |
| Boards.RemoveKeepsInv | src/ratroyale/backend/board.py:84-96 | removing an entity the cache holds always succeeds and keeps the cache invariant |
| Boards.InvMembers | src/ratroyale/backend/board.py:20-35 | under the invariant, an entity in `entities` is in every list whose criterion it meets |
| Boards.InvAfterRemoval | src/ratroyale/backend/board.py:84-96 | the lists after a first-copy removal still satisfy the invariant |
| Boards.WithEntities | src/ratroyale/backend/board.py:180-181 | changing one tile's entity list keeps the grid's shape and changes no other cell |
| Boards.SameLayoutLookup | src/ratroyale/backend/board.py:98-103 | `get_tile` finds a tile at the same coordinates after entity lists change |
| Boards.MoveEffect | src/ratroyale/backend/board.py:180-181 | appending to the end tile and then removing from the start tile moves the entity between the two lists and touches no other cell; a move onto the same tile keeps its list's contents |
| Boards.ZonesOf | src/ratroyale/backend/board.py:56-57 | the deployment zones filed under a side are exactly the zones with that side |
| Boards.LairsOf | src/ratroyale/backend/board.py:58-61 | the lairs filed under a side are exactly the lairs with that side |
| Boards.ClassifyFeatures | src/ratroyale/backend/board.py:55-61 | the classification loop raises ValueError iff some lair has no side; otherwise every zone and lair is filed under its side |
| Boards.LairSet | src/ratroyale/backend/board.py:37-40 | `get_all_lairs` yields exactly the lairs filed under some side |
| Boards.LairsClassified | src/ratroyale/backend/board.py:37-61 | after classification, `get_all_lairs` yields exactly the lairs among the map's features |
| Boards.Cache.constructor | src/ratroyale/backend/board.py:20-35 | a new cache has every list and map empty |
| Boards.Cache.Add | src/ratroyale/backend/board.py:69-77 | the cache part of `add_entity`: the lists become AddToCache of the old lists |
| Boards.Cache.Remove | src/ratroyale/backend/board.py:84-96 | `remove_entity`: the lists and the result are those of RemoveFromCache |
| Boards.Board.Init | src/ratroyale/backend/board.py:53-64 | the board takes the map's sizes and tiles, a fresh empty cache, the map's features and the filed zones and lairs; these are the map's own objects, not the copies of the `deepcopy` at board.py:52 (see Left out) |
| Boards.Board.AddEntity | src/ratroyale/backend/board.py:68-82 | the cache is updated before the tile check; a position without a tile raises EntityInvalidPosError and leaves the tiles unchanged; otherwise the entity joins its tile's list |
| Boards.Board.RemoveEntity | src/ratroyale/backend/board.py:84-96 | the cache changes as RemoveFromCache says, and ValueError comes back when a list does not hold the entity |
| Boards.Board.AddEntities | src/ratroyale/backend/board.py:65-66 | adding the map's entities in order: the first failing position's error comes back; on success the tiles and the cache hold every entity |
| Boards.Board.AddNext | src/ratroyale/backend/board.py:65-66 | one pass of the loop: the next entity is placed and cached as the run so far extended by it says, or its error is the error of the whole run |
| Boards.Board.TryMove | src/ratroyale/backend/board.py:157-184 | no start tile raises EntityInvalidPosError; a missing or colliding path tile returns False with no change; an empty path fails its assertion; otherwise the entity joins the end tile, leaves the start tile (ValueError when it was not listed there) and takes the last path position |
| Boards.Lift | src/ratroyale/backend/board.py:53 | the map's grid becomes the board's grid cell for cell |
| Boards.Arrivals | src/ratroyale/backend/board.py:65-66 | each entity is placed at its own position, with health noted |
| Boards.AddAll | src/ratroyale/backend/board.py:65-66 | adding several entities appends them to `entities` in order |
| Boards.AddAllKeepsInv | src/ratroyale/backend/board.py:65-77 | adding any sequence of entities keeps the cache invariant |
| Boards.EmptyCacheInv | src/ratroyale/backend/board.py:20-35 | the empty cache satisfies the invariant |
| Boards.PlaceOne | src/ratroyale/backend/board.py:78-81 | placing succeeds iff the position has a tile, and the entity then joins that tile's list; no tile raises EntityInvalidPosError |
| Boards.PlaceAll | src/ratroyale/backend/board.py:65-66 | placing keeps the grid's shape and fails only with IndexError or EntityInvalidPosError |
| Boards.PlaceAllOk | src/ratroyale/backend/board.py:65-81 | placing all entities succeeds iff every position has a tile |
| Boards.PlaceAllFirstError | src/ratroyale/backend/board.py:65-81 | a failed placement reports the error of the first entity whose position has no tile |
| Boards.PlaceAllCell | src/ratroyale/backend/board.py:65-81 | after placing, each tile lists its old entities followed by the entities placed on it |
| Boards.NewBoard | src/ratroyale/backend/board.py:50-66 | a lair without a side raises ValueError; an empty grid raises IndexError; otherwise the first placement error comes back, or a fresh board with the map's sizes, every entity placed and cached, and the features filed by side; the board shares the map's Feature and Entity objects instead of copying them (see Left out) |
| Boards.Populate | src/ratroyale/backend/board.py:52-66 | a board of the map's size and tiles with the given filing of the features, to which the map's entities are added in order: the first placement error comes back, or every entity is placed and cached; the map's own Entity objects are placed (see Left out) |
| SqueakSets.LookupMeaning | src/ratroyale/backend/player_info/squeak_set.py:13-14 | a dict lookup finds a count iff the key is listed, and the count found is listed with it |
| SqueakSets.LookupAt | src/ratroyale/backend/player_info/squeak_set.py:13-14 | in a dict with distinct keys, looking up a listed key finds its own count |
| SqueakSets.Repeat | src/ratroyale/backend/player_info/squeak_set.py:42 | `for _ in range(n)` gives n copies, and none when n <= 0 |
| SqueakSets.CheckItems | src/ratroyale/backend/player_info/squeak_set.py:31-39 | the item loop fails only with InvalidDeckError |
| SqueakSets.CheckItemsMeaning | src/ratroyale/backend/player_info/squeak_set.py:31-39 | the item loop passes iff every squeak is owned and its count does not exceed the owned count |
| SqueakSets.Validate | src/ratroyale/backend/player_info/squeak_set.py:27-39 | `_validate_deck` fails only with InvalidDeckError |
| SqueakSets.ValidateMeaning | src/ratroyale/backend/player_info/squeak_set.py:27-39 | the set is valid iff the hand map has exactly 5 entries and every hand and deck entry is owned in at most the owned count |
| SqueakSets.NewDeck | src/ratroyale/backend/player_info/squeak_set.py:41-42 | the new deck's length is the sum of the positive counts |
| SqueakSets.ExpandLength | src/ratroyale/backend/player_info/squeak_set.py:42 | expanding a count dict gives as many squeaks as the positive counts add up to |
| SqueakSets.ExpandCounts | src/ratroyale/backend/player_info/squeak_set.py:42 | the expansion holds each squeak exactly as often as its count (none when it has no positive count) |
| SqueakSets.RepeatCount | src/ratroyale/backend/player_info/squeak_set.py:42 | n copies of q hold q max(0, n) times and nothing else |
| SqueakSets.NewDeckCounts | src/ratroyale/backend/player_info/squeak_set.py:41-42 | `get_new_deck` holds each squeak exactly `deck[squeak]` times |
| SqueakSets.DeckPart | src/ratroyale/backend/player_info/squeak_set.py:46-50 | the remaining-deck comprehension fails only with KeyError |
| SqueakSets.DeckAndHand | src/ratroyale/backend/player_info/squeak_set.py:44-52 | `get_deck_and_hand` fails only with KeyError |
| SqueakSets.DeckPartFails | src/ratroyale/backend/player_info/squeak_set.py:49 | the remaining deck raises KeyError iff some deck squeak has no hand entry |
| SqueakSets.DeckPartHits | src/ratroyale/backend/player_info/squeak_set.py:46-50 | the remaining deck holds each squeak of the deck map max(0, deck - hands) times, and the squeak has a hand entry |
| SqueakSets.DeckPartMisses | src/ratroyale/backend/player_info/squeak_set.py:46-50 | a squeak that is not in the deck map is not in the remaining deck |
| SqueakSets.DeckPartStep | src/ratroyale/backend/player_info/squeak_set.py:46-50 | the comprehension handles the first deck entry, then the rest |
| SqueakSets.OpeningHandCounts | src/ratroyale/backend/player_info/squeak_set.py:51 | the opening hand holds each squeak exactly `hands[squeak]` times |
| SqueakSets.RemainingDeckCounts | src/ratroyale/backend/player_info/squeak_set.py:44-52 | the deck returned with the hand holds `max(0, deck[s] - hands[s])` copies of each deck squeak and nothing else |
| GameManagers.CrumbPerTurn | src/ratroyale/backend/game_manager.py:33-34 | the income is at most 50 and a multiple of 10; it is 10 for turns 1..4 and 50 exactly from turn 17 on |
| GameManagers.CrumbPerTurnMonotone | src/ratroyale/backend/game_manager.py:33-34 | the income never falls as the turn count grows |
| GameManagers.CrumbPerTurnIsDefaultBase | src/ratroyale/backend/game_manager.py:33-34 | `crumb_per_turn` and the modifier's `default_base_crumbs_per_turn` agree on every turn |
| GameManagers.TurnCountCountsRounds | src/ratroyale/backend/game_manager.py:306-311 | starting on the first side, n turn ends alternate the side and raise the turn count by n / 2 |
| GameManagers.RoundRaisesCountOnce | src/ratroyale/backend/game_manager.py:306-311 | two turn ends give the turn back and raise the count by exactly one |
| GameManagers.DrawConserves | src/ratroyale/backend/game_manager.py:275-283 | a draw fails only when both the deck and its refill are empty; otherwise the drawn squeak and the rest make up the deck drawn from, one shorter |
| GameManagers.TopWanted | src/ratroyale/backend/game_manager.py:172-178 | the scan from the top returns the last entity with health on the wanted side, or None iff there is none |
| GameManagers.Survivors | src/ratroyale/backend/game_manager.py:347-351 | the rebuilt effect dict keeps exactly the effects that are permanent or last more than one turn |
| GameManagers.Strongest | src/ratroyale/backend/game_manager.py:352 | `max` by intensity picks the first effect of greatest intensity |
| GameManagers.ExtendedNeverShortens | src/ratroyale/backend/game_manager.py:327-333 | an equal-intensity effect never shortens the old duration, and a permanent one stays permanent |
| GameManagers.GameManager.Init | src/ratroyale/backend/game_manager.py:65-75 | the turn is the first side, the count is 1, the squeak sets are filed by side and each deck is the set's new deck |
| GameManagers.GameManager.DrawSqueak | src/ratroyale/backend/game_manager.py:275-283 | pops the last squeak of the side's deck; an empty deck is first refilled from the squeak set and shuffled; only that deck changes |
| GameManagers.GameManager.DrawHand | src/ratroyale/backend/game_manager.py:77-78 | the hand and the deck left are those of DrawN (five draws), no other deck changes, and a hand that is dealt is an opening hand of the deck |
| GameManagers.DrawNStops | src/ratroyale/backend/game_manager.py:77-78 | once a draw fails, the later draws of the comprehension change nothing |
| GameManagers.DrawNLength | src/ratroyale/backend/game_manager.py:77-78 | n draws that succeed give n squeaks |
| GameManagers.DrawNFromDeck | src/ratroyale/backend/game_manager.py:77-78 | with at least n cards in the deck, n draws are its last n cards, last first, and the deck loses exactly them |
| GameManagers.DrawNOpening | src/ratroyale/backend/game_manager.py:77-78 | five draws that succeed give an opening hand: five squeaks, the deck's last five when it held five |
| GameManagers.GameManager.DealHands | src/ratroyale/backend/game_manager.py:76-79 | each side gets an opening hand of five squeaks drawn from its new deck |
| GameManagers.GameManager.PlaceSqueak | src/ratroyale/backend/game_manager.py:285-294 | a bad hand index raises IndexError and too few crumbs raises NotEnoughCrumbError, changing nothing; otherwise crumbs drop by the cost, only that hand slot is replaced by a draw, and the hand keeps its length |
| GameManagers.GameManager.ActivateSkillAsWritten | src/ratroyale/backend/game_manager.py:159-163 | as written, a targeting result is stored under a mangled name, so `skill_targeting` never changes |
| GameManagers.GameManager.ActivateSkill | src/ratroyale/backend/game_manager.py:130-163 | selecting mode, a bad index, too few crumbs and no stamina each raise before anything changes; crumbs and stamina are paid only on SUCCESS; a targeting result with no targets becomes CANCELLED, and one with targets enters selecting mode |
| GameManagers.GameManager.ApplySkillCallback | src/ratroyale/backend/game_manager.py:102-116 | outside selecting mode it raises; SUCCESS pays the source skill's crumbs and stamina; a targeting result stays in selecting mode, and anything else leaves it |
| GameManagers.GameManager.GetEnemyOnPos | src/ratroyale/backend/game_manager.py:165-178 | no tile raises ValueError; otherwise the topmost entity with health not on the current side, or None iff there is none |
| GameManagers.GameManager.GetAllyOnPos | src/ratroyale/backend/game_manager.py:180-193 | no tile raises ValueError; otherwise the topmost entity with health on the current side, or None iff there is none |
| GameManagers.GameManager.MoveChecks | src/ratroyale/backend/game_manager.py:223-231 | the checks pass iff not selecting, crumbs cover the move cost, stamina is left, the target is within speed and no custom path is given |
| GameManagers.GameManager.MoveOnBoard | src/ratroyale/backend/game_manager.py:235 | a successful board move puts the rodent on the path's last tile; a failed one leaves its position unchanged |
| GameManagers.GameManager.MoveRodent | src/ratroyale/backend/game_manager.py:210-241 | the checks fail in source order with their own errors; no path raises InvalidMoveTargetError; only after all pass are the move cost and one stamina paid and the rodent moved to the path's end |
| GameManagers.GameManager.MoveRodentAsWritten | src/ratroyale/backend/game_manager.py:235 | as written, every move that passes the checks fails: `try_move` gets a coordinate where it iterates a path |
| GameManagers.GameManager.ApplyEffectAsWritten | src/ratroyale/backend/game_manager.py:314-340 | as written: a new name is registered; a stronger effect records the old one but is never registered under the name; an equal one only extends a finite duration; a weaker one is queued only when it outlasts a finite old duration |
| GameManagers.GameManager.ApplyEffect | src/ratroyale/backend/game_manager.py:314-340 | as above, except that a stronger effect also replaces the old one under its name |
| GameManagers.GameManager.StrongerEffectExpiryAsWritten | src/ratroyale/backend/game_manager.py:300-305 | as written, a stronger effect expiring at turn end is not the registered one and is not in its overridden list, so the removal raises ValueError |
| GameManagers.GameManager.StrongerEffectExpiry | src/ratroyale/backend/game_manager.py:300-305 | with the stronger effect registered, its expiry at turn end succeeds |
| GameManagers.GameManager.TargetAnswerAsWritten | src/ratroyale/backend/game_manager.py:102-106 | as written, answering a targeting request always raises, because selecting mode was never entered |
| GameManagers.GameManager.TargetAnswer | src/ratroyale/backend/game_manager.py:102-163 | with the request stored, a successful activation is followed by an answer that does not raise for lack of selecting mode |
| GameManagers.GameManager.EffectDurationOver | src/ratroyale/backend/game_manager.py:342-357 | the effect leaves the cache; without overridden effects it is unregistered and the dict rebuilt; otherwise the strongest overridden effect takes its place and inherits the rest of the overridden list |
| GameManagers.GameManager.EffectDurationOverAsWritten | src/ratroyale/backend/game_manager.py:344-352 | as written, an effect with no overridden effects is deleted and then `max` of the empty list raises ValueError |
| GameManagers.GameManager.ExpireEffect | src/ratroyale/backend/game_manager.py:300-305 | one step of the turn-end loop: only an effect with duration 1 that clears on this turn is touched; an unregistered name raises KeyError; a shadowed effect leaves its stronger effect's overridden list (ValueError when absent); a registered one runs `_effect_duration_over` as written, so with nothing overridden it raises ValueError after removing the effect from the cache and its name from the entity |
| GameManagers.GameManager.DecrementDurations | src/ratroyale/backend/game_manager.py:308-310 | every finite duration in the cache falls by one for each time its effect is listed |
| GameManagers.GameManager.EndTurn | src/ratroyale/backend/game_manager.py:296-312 | selecting mode raises and changes nothing; otherwise the turn flips, the count and durations change only when the first side's turn comes round, and crumbs become `crumb_per_turn(turn_count)` |
| GameManagers.NewGameManagerAsWritten | src/ratroyale/backend/game_manager.py:58-84 | as written, a new manager has turn count 1 and dealt hands but neither `crumbs` nor `first_turn` |
| GameManagers.NewGameManager | src/ratroyale/backend/game_manager.py:58-84 | the corrected constructor also sets `first_turn` and the first turn's crumbs (10) |
| GameManagers.FirstEndTurnAsWritten | src/ratroyale/backend/game_manager.py:307 | as written, the first `end_turn` always raises, because `first_turn` was never set |
| GameManagers.FirstEndTurn | src/ratroyale/backend/game_manager.py:296-312 | with the corrected constructor, the first `end_turn` hands the turn to the other side with count 1 and 10 crumbs |
| CommonSkills.FilterTargetableCoords | src/ratroyale/backend/entities/rodents/common_skills.py:29-82 | the loop returns exactly the filter of the coordinates given (the specification FilterCoords, whose properties follow) |
| CommonSkills.FilterErrSticks | src/ratroyale/backend/entities/rodents/common_skills.py:37-38 | once a coordinate makes `get_tile` raise, the whole call raises with that error |
| CommonSkills.SubsequenceGrow | src/ratroyale/backend/entities/rodents/common_skills.py:36-82 | a subsequence stays one when the list grows at the end |
| CommonSkills.SubsequenceDropLast | src/ratroyale/backend/entities/rodents/common_skills.py:36-82 | dropping the last element of a subsequence keeps it a subsequence |
| CommonSkills.SubsequencePrependRight | src/ratroyale/backend/entities/rodents/common_skills.py:36-82 | a subsequence stays one when the list grows at the front |
| CommonSkills.SubsequencePrependBoth | src/ratroyale/backend/entities/rodents/common_skills.py:36-82 | the same first element added to both keeps the subsequence |
| CommonSkills.FilterIsSubsequence | src/ratroyale/backend/entities/rodents/common_skills.py:36-82 | the targets are an order-preserving subsequence of the coordinates |
| CommonSkills.FilterMembers | src/ratroyale/backend/entities/rodents/common_skills.py:37-81 | a coordinate is returned iff it was given, it has a tile, and that tile is targetable in the mode (so no coordinate without a tile is returned) |
| CommonSkills.FeaturesIgnoredWhenUntargetable | src/ratroyale/backend/entities/rodents/common_skills.py:48-77 | with `is_feature_targetable` false, a tile's features never change whether it is targetable |
| CommonSkills.EnemyOrAlly | src/ratroyale/backend/entities/rodents/common_skills.py:64-81 | ENEMY and ALLY compare sides only: an occupied tile is an enemy or an ally target, and with one entity not both |
| CommonSkills.ModesNest | src/ratroyale/backend/entities/rodents/common_skills.py:42-72 | ENEMY_WITH_HP implies ENEMY, and ENEMY and ALLY each imply ANY |
| CommonSkills.RunShorthand | src/ratroyale/backend/entities/rodents/common_skills.py:101-108 | the callbacks run in order; it returns SUCCESS iff every one succeeds, and otherwise raises ShortHandSkillCallbackError right after the first that does not, running no more |
| CommonSkills.SelectTargets | src/ratroyale/backend/entities/rodents/common_skills.py:85-117 | the targeting request carries the target count, the rodent and the skill, and its targets are exactly the attackable coordinates that pass the side and feature filter, in order |
| Tanks.FirstAbandon | src/ratroyale/backend/entities/rodents/tank.py:18-66 | the first use on a Cracker at class defense 5 sets the flag, lowers height by 1, leaves defense 0, adds 12 speed and returns SUCCESS |
| Tanks.AbandonOnce | src/ratroyale/backend/entities/rodents/tank.py:58-66 | after any use the flag is set, every later use is CANCELLED and changes nothing, and the speed bonus is given at most once |
| Tanks.Cracker.constructor | src/ratroyale/backend/entities/rodents/tank.py:47 | the flag starts False |
| Tanks.Cracker.AbandonBread | src/ratroyale/backend/entities/rodents/tank.py:58-66 | the new flag, height, defense and speed and the result are those of Abandon on the old ones |
| Tanks.AbandonTwice | src/ratroyale/backend/entities/rodents/tank.py:58-66 | two uses on a fresh Cracker give SUCCESS then CANCELLED, and speed rises by 12 once |
| Supports.SoulRoundTrip | src/ratroyale/backend/entities/rodents/support.py:26-34 | applying then clearing the soul restores a Rodent's defense; a non-Rodent is never touched |
| Supports.SoulApplied | src/ratroyale/backend/entities/rodents/support.py:31-34 | `on_applied` raises a Rodent's defense by one (TypeError when it is None, no change) and leaves other entities alone |
| Supports.SoulCleared | src/ratroyale/backend/entities/rodents/support.py:26-29 | `on_cleared` lowers a Rodent's defense by one (TypeError when it is None, no change) and leaves other entities alone |
| Supports.Quartermaster.constructor | src/ratroyale/backend/entities/rodents/support.py:84 | no soul target is recorded at first |
| Supports.Quartermaster.MySoul | src/ratroyale/backend/entities/rodents/support.py:110-129 | the skill detonates and returns SUCCESS iff a target is recorded whose health is not 0; otherwise it asks for a target |
| Supports.Quartermaster.AssignMySoulTarget | src/ratroyale/backend/entities/rodents/support.py:131-139 | an entity becomes the recorded target and SUCCESS is returned; a feature fails the assertion and nothing changes |
| Supports.SoulThenDetonate | src/ratroyale/backend/entities/rodents/support.py:110-139 | once a living ally has received the soul, the next use of the skill detonates |
| DataPointers.PySlice | src/ratroyale/utils.py:38 | a Python slice is never longer than the data, and within bounds it is the plain subsequence |
| DataPointers.FromBigEndian | src/ratroyale/utils.py:35 | a big-endian reading of n bytes is below 256^n |
| DataPointers.FromBytes | src/ratroyale/utils.py:35 | `int.from_bytes` of n bytes, in either byte order, is below 256^n |
| DataPointers.ToBigEndian | src/ratroyale/utils.py:35 | the encoding has exactly the requested length |
| DataPointers.BigEndianRoundTrip | src/ratroyale/utils.py:35 | encoding a number below 256^n in n big-endian bytes and reading it back gives the number |
| DataPointers.BigEndianDecodeEncode | src/ratroyale/utils.py:35 | reading bytes and encoding the number in as many bytes gives the bytes back |
| DataPointers.EndiansMirror | src/ratroyale/utils.py:35 | little-endian reading is big-endian reading of the reversed bytes |
| DataPointers.DataPointer.constructor | src/ratroyale/utils.py:29-32 | the cursor starts at 0 over the given data and byte order |
| DataPointers.DataPointer.GetRawBytes | src/ratroyale/utils.py:37-40 | returns the Python slice from the cursor of the given size and advances the cursor by the size, even past the end |
| DataPointers.DataPointer.GetByte | src/ratroyale/utils.py:34-35 | returns the integer the slice encodes in the reader's byte order, below 256^size, and advances like GetRawBytes |
| DataPointers.DataPointer.VerifyEnd | src/ratroyale/utils.py:42-43 | true iff the cursor is exactly at the end of the data |
| DataPointers.PowMonotone | src/ratroyale/utils.py:35 | 256^a is at most 256^b when a is at most b |
| DataPointers.AdjacentSlices | src/ratroyale/utils.py:37-40 | two reads in a row return adjacent slices that together make the one slice spanning both |
| DataPointers.ReadSequence | src/ratroyale/utils.py:37-43 | reads of the given sizes from the start return the prefix of the total length (the whole data once the total reaches it), and `verify_end` holds iff the sizes add up to the data's length |
| BaseAIs.Prepend | src/ratroyale/backend/ai/base_ai.py:100-102 | every combination gets the same first element in front |
| BaseAIs.Combinations | src/ratroyale/backend/ai/base_ai.py:100-102 | `itertools.combinations` yields C(n, k) tuples, each of length k |
| BaseAIs.CombinationsAreSubsequences | src/ratroyale/backend/ai/base_ai.py:100-102 | each combination is an order-preserving subsequence of the targets |
| BaseAIs.SelectingTargetActions | src/ratroyale/backend/ai/base_ai.py:95-104 | in selecting mode only SelectTargets actions are offered, one per size-`target_count` combination of the available targets, in order |
| BaseAIs.MovesTo | src/ratroyale/backend/ai/base_ai.py:118-121 | one MoveAlly per reachable coordinate, costing the ally's move cost |
| BaseAIs.PlacesAt | src/ratroyale/backend/ai/base_ai.py:136-139 | one PlaceSqueak per placable coordinate, with the squeak's cost and hand index |
| BaseAIs.NonSelectingTargetActions | src/ratroyale/backend/ai/base_ai.py:106-140 | outside selecting mode exactly one EndTurn and no SelectTargets are offered, and the move, skill and place actions are those of the specification functions |
| BaseAIs.CollectMoves | src/ratroyale/backend/ai/base_ai.py:111-121 | the moves collected are MoveActions: per unit that passes the tests, one move per reachable coordinate, in order |
| BaseAIs.CollectSkills | src/ratroyale/backend/ai/base_ai.py:123-131 | the skills collected are ActivateActions over the side's units then the side-less ones |
| BaseAIs.CollectPlacements | src/ratroyale/backend/ai/base_ai.py:133-140 | the placements collected are PlaceActions over the whole hand |
| BaseAIs.MoveActionsMeaning | src/ratroyale/backend/ai/base_ai.py:111-121 | a MoveAlly is offered iff its ally is a Rodent of the AI's side with stamina above 0 and crumbs covering its move cost, and its target is reachable |
| BaseAIs.SkillActionsMeaning | src/ratroyale/backend/ai/base_ai.py:126-131 | an entity's skill is offered iff the crumbs cover its cost, with the skill's index and cost |
| BaseAIs.ActivateActionsMeaning | src/ratroyale/backend/ai/base_ai.py:123-131 | a skill is offered iff its entity is on the AI's side or neutral, its skill stamina is None or above 0, and the crumbs cover the skill's cost |
| BaseAIs.PlaceActionsMeaning | src/ratroyale/backend/ai/base_ai.py:133-139 | a placement is offered iff the hand slot holds that squeak, the crumbs cover its cost and the target is placable |
| BaseAIs.GetAllActions | src/ratroyale/backend/ai/base_ai.py:89-140 | with a pending targeting request the selecting actions are offered, the i-th SelectTargets action answering with the i-th size-`target_count` combination of the available targets; otherwise the non-selecting actions read from the board cache, the crumbs and the AI's hand |
| BaseAIs.RemoveFirstNoDup | src/ratroyale/backend/ai/base_ai.py:47-51 | removing a listed action from a list without duplicates leaves exactly the others, still without duplicates |
| BaseAIs.RemoveAllMeaning | src/ratroyale/backend/ai/base_ai.py:47-51 | removing the banned actions one by one, ignoring the missing ones, leaves exactly the actions not banned |
| BaseAIs.RemoveBanned | src/ratroyale/backend/ai/base_ai.py:47-51 | the loop removes the banned actions as RemoveAll does |
| BaseAIs.BanRunMeaning | src/ratroyale/backend/ai/base_ai.py:41-66 | a skill is banned at a pass iff it was chosen earlier and every pass since then was a cancelled skill: the ban lasts until some other action is taken |
| BaseAIs.Offers | src/ratroyale/backend/ai/base_ai.py:46-52 | one candidate list per pass |
| BaseAIs.OffersAt | src/ratroyale/backend/ai/base_ai.py:46-52 | the candidates of pass j are its offered skills less the skills banned at that pass |
| BaseAIs.PassStep | src/ratroyale/backend/ai/base_ai.py:46-73 | one more pass adds its candidates, and the ban list grows by the chosen skill after a cancellation and is emptied otherwise |
| BaseAIs.OffersIndex | src/ratroyale/backend/ai/base_ai.py:46-52 | the candidates of each pass are its offered skills less the skills banned at that pass |
| BaseAIs.RunAI | src/ratroyale/backend/ai/base_ai.py:33-73 | off its turn the AI raises NotAITurnError; otherwise the candidates of the passes are Offers, so (OffersIndex) every pass offers its skills less the banned ones; no pass runs after a game-over event, and the loop stops exactly when the turn passes, a game-over event is pending or the steps run out |
| BaseAIs.BannedNotOffered | src/ratroyale/backend/ai/base_ai.py:41-51 | a skill is a candidate iff it is offered and not chosen in the unbroken run of cancelled skills just before |
| BaseAIs.RunAIAsWritten | src/ratroyale/backend/ai/base_ai.py:38-40 | as written, on the AI's turn the loop reads `game_over_event`, which GameManager does not define, and raises AttributeError |
| GestureReaders.Scrolled | src/ratroyale/frontend/gesture/gesture_reader.py:223-225 | a scroll emits one SCROLL of dy iff dy is not 0 |
| GestureReaders.GestureReader.constructor | src/ratroyale/frontend/gesture/gesture_reader.py:57-66 | the reader starts idle with no press, no click history and an empty queue |
| GestureReaders.GestureReader.OnPress | src/ratroyale/frontend/gesture/gesture_reader.py:116-120 | the state becomes PRESSED with start and last position at the press and the start time now; the click history and the queue are kept |
| GestureReaders.GestureReader.ResetState | src/ratroyale/frontend/gesture/gesture_reader.py:230-235 | the state becomes IDLE with the press data cleared; the click history is kept |
| GestureReaders.GestureReader.OnMotion | src/ratroyale/frontend/gesture/gesture_reader.py:122-154 | the state and the emitted drags are those of Moved: a press turns into a drag past 5 px, a drag emits its delta, and the last position is always updated |
| GestureReaders.GestureReader.OnRelease | src/ratroyale/frontend/gesture/gesture_reader.py:156-203 | the state and the emitted gestures are those of Released: click, double click, drag end or nothing, then the reset |
| GestureReaders.GestureReader.CheckHold | src/ratroyale/frontend/gesture/gesture_reader.py:205-221 | the state and the emitted hold are those of HoldChecked |
| GestureReaders.GestureReader.OnScroll | src/ratroyale/frontend/gesture/gesture_reader.py:223-225 | the state is unchanged and the queue grows by Scrolled |
| GestureReaders.GestureReader.SyncWithHardware | src/ratroyale/frontend/gesture/gesture_reader.py:90-103 | a released button resets a pressed, dragging or held state, and a held button fakes a press from idle; no gesture is emitted |
| GestureReaders.GestureReader.ReadEvents | src/ratroyale/frontend/gesture/gesture_reader.py:68-86 | the queue is cleared, every event of the batch is dispatched in order, the hold check and the sync follow, and the gestures of this batch alone are returned |
| GestureReaders.DragTotalAppend | src/ratroyale/frontend/gesture/gesture_reader.py:145-152 | one more drag adds its delta to the total |
| GestureReaders.DragStep | src/ratroyale/frontend/gesture/gesture_reader.py:145-154 | while dragging, one motion emits one DRAG measured from the previous drag position, which moves to the new one |
| GestureReaders.DragDeltasSum | src/ratroyale/frontend/gesture/gesture_reader.py:145-154 | while dragging, a run of motions emits one DRAG each, and the deltas add up to the net displacement since the last drag position |
| GestureReaders.DragStart | src/ratroyale/frontend/gesture/gesture_reader.py:133-154 | from PRESSED, a motion more than 5 px from the start begins a drag with one DRAG from the last position; within 5 px only the last position moves |
| GestureReaders.ClickOrDoubleClick | src/ratroyale/frontend/gesture/gesture_reader.py:177-203 | a press and release emits DOUBLE_CLICK and forgets the click when within 0.4 s and 10 px of the last click, otherwise CLICK and remembers it; either way it ends IDLE with the press data cleared |
| GestureReaders.QuickSecondClick | src/ratroyale/frontend/gesture/gesture_reader.py:177-197 | a second click at the same spot within 0.4 s of a first CLICK is a DOUBLE_CLICK |
| GestureReaders.SpuriousRelease | src/ratroyale/frontend/gesture/gesture_reader.py:158-159 | a release with no recorded press changes nothing and emits nothing |
| GestureReaders.ReleaseAfterDragOrHold | src/ratroyale/frontend/gesture/gesture_reader.py:166-203 | releasing a drag emits DRAG_END, after a SWIPE when the swipe fires; releasing a hold emits nothing; both end in the reset state |
| GestureReaders.HoldFiresOnce | src/ratroyale/frontend/gesture/gesture_reader.py:205-221 | a hold fires exactly when pressed for at least 0.5 s within 10 px, emitting one HOLD at the start; a second check never fires again |
| GestureReaders.NoHoldWithoutPress | src/ratroyale/frontend/gesture/gesture_reader.py:74-221 | a batch with no left press, from a state that is not PRESSED, never ends PRESSED, so no hold fires |
| GestureReaders.SyncMatchesButton | src/ratroyale/frontend/gesture/gesture_reader.py:90-103 | after the sync the state is idle iff the button is up |
| GestureReaders.BatchSplits | src/ratroyale/frontend/gesture/gesture_reader.py:74-82 | dispatching two lists of events in turn is dispatching their concatenation, and the gestures concatenate |
| PageRegistries.Names | src/ratroyale/frontend/pages/page_managers/page_registry.py:34-36 | the names are the registered classes' names, in order |
| PageRegistries.Resolve | src/ratroyale/frontend/pages/page_managers/page_registry.py:22-32 | resolving succeeds iff the name is registered, with the class of that name; otherwise KeyError |
| PageRegistries.RegisterThenResolve | src/ratroyale/frontend/pages/page_managers/page_registry.py:6-32 | registering a name already present raises ValueError; otherwise the name is appended, names stay distinct, the new name resolves to the class and every other name resolves as before |
| PageRegistries.ResolveSame | src/ratroyale/frontend/pages/page_managers/page_registry.py:22-32 | a later registration of another name does not change what a name resolves to |
| PageRegistries.PageRegistry.constructor | src/ratroyale/frontend/pages/page_managers/page_registry.py:4 | the registry starts empty |
| PageRegistries.PageRegistry.RegisterPage | src/ratroyale/frontend/pages/page_managers/page_registry.py:6-19 | a new name is registered and its class returned; a duplicate raises ValueError and changes nothing; names stay distinct |
| PageRegistries.PageRegistry.ResolvePage | src/ratroyale/frontend/pages/page_managers/page_registry.py:22-32 | succeeds iff the name is registered, with the class of that name |
| PageRegistries.PageRegistry.AllPages | src/ratroyale/frontend/pages/page_managers/page_registry.py:34-36 | lists every registered name once, and every listed name resolves |
| PageManagers.Kinds | src/ratroyale/frontend/pages/page_managers/page_manager.py:41-43 | the page types of the stack, bottom first |
| PageManagers.IndexOf | src/ratroyale/frontend/pages/page_managers/page_manager.py:62-67 | finds the first position of a page type, or KeyError iff it is absent |
| PageManagers.Swap | src/ratroyale/frontend/pages/page_managers/page_manager.py:151-167 | exchanges two adjacent pages and keeps everything else, so the multiset of pages is kept |
| PageManagers.StackStaysDistinct | src/ratroyale/frontend/pages/page_managers/page_manager.py:69-167 | opening, replacing the top, removing and moving never give the stack two pages of one type |
| PageManagers.MoveKeepsDistinct | src/ratroyale/frontend/pages/page_managers/page_manager.py:143-167 | moving a page up or down keeps the types distinct |
| PageManagers.OpenKeepsDistinct | src/ratroyale/frontend/pages/page_managers/page_manager.py:69-76 | `open_page` never creates a second page of a type already on the stack |
| PageManagers.SwapKeepsDistinct | src/ratroyale/frontend/pages/page_managers/page_manager.py:151-167 | swapping adjacent pages keeps the types distinct |
| PageManagers.RemoveFirstKeepsDistinct | src/ratroyale/frontend/pages/page_managers/page_manager.py:125-130 | removing the first page of a type keeps the types distinct |
| PageManagers.MoveMeaning | src/ratroyale/frontend/pages/page_managers/page_manager.py:143-167 | moving an absent type raises KeyError; otherwise the multiset of pages is kept, the top page does not move up, the bottom page does not move down, and otherwise the page lands one place higher or lower |
| PageManagers.MoveUpThenDown | src/ratroyale/frontend/pages/page_managers/page_manager.py:143-167 | moving a page that is not on top up and then down restores the stack |
| PageManagers.IndexOfAt | src/ratroyale/frontend/pages/page_managers/page_manager.py:62-67 | the first position holding the type is the one found |
| PageManagers.NavigatedStops | src/ratroyale/frontend/pages/page_managers/page_manager.py:256-268 | the first failing navigation action ends the list: later actions are not run |
| PageManagers.NavigateRejects | src/ratroyale/frontend/pages/page_managers/page_manager.py:256-268 | a nameless action that needs a page, or a named action that takes none, raises ValueError; an unregistered name raises KeyError |
| PageManagers.NavigationKeepsDistinct | src/ratroyale/frontend/pages/page_managers/page_manager.py:256-268 | any list of navigation actions keeps the page types distinct |
| PageManagers.NavStepKeepsDistinct | src/ratroyale/frontend/pages/page_managers/page_manager.py:258-264 | one navigation action keeps the page types distinct |
| PageManagers.DrainStops | src/ratroyale/frontend/pages/page_managers/page_manager.py:89-120 | an error while draining the back-end queue ends the drain there |
| PageManagers.DrainMeaning | src/ratroyale/frontend/pages/page_managers/page_manager.py:85-123 | a drain that succeeds takes every message and leaves the back end running as the last start or stop set it; only handled game actions other than start and stop reach a page handler |
| PageManagers.BackendRules | src/ratroyale/frontend/pages/page_managers/page_manager.py:91-115 | with no back end, any action but "start" raises ValueError, and "start" needs its payload (AssertionError) and starts it; a running back end stops on "stop" and raises ValueError on "start" |
| PageManagers.AudienceMeaning | src/ratroyale/frontend/pages/page_managers/page_manager.py:239-245 | an input reaches the pages from the top down and stops after the first blocking page |
| PageManagers.WalkDownStep | src/ratroyale/frontend/pages/page_managers/page_manager.py:239-245 | a non-blocking page on top passes the input on to the pages below |
| PageManagers.PageManager.constructor | src/ratroyale/frontend/pages/page_managers/page_manager.py:41-58 | the stack is empty and no back end runs |
| PageManagers.PageManager.GetPage | src/ratroyale/frontend/pages/page_managers/page_manager.py:62-67 | the first page of the type with its index, or KeyError iff there is none |
| PageManagers.PageManager.OpenPage | src/ratroyale/frontend/pages/page_managers/page_manager.py:69-76 | a type already on the stack changes nothing; otherwise one new visible page of it, with the empty binding tables the as-written scan leaves (base_page.py:108-117), is pushed on top and the rest is kept |
| PageManagers.PageManager.RemoveTopPage | src/ratroyale/frontend/pages/page_managers/page_manager.py:78-83 | an empty stack raises IndexError; otherwise only the last page is removed |
| PageManagers.PageManager.RemovePage | src/ratroyale/frontend/pages/page_managers/page_manager.py:125-130 | only the first page of the type is removed, and an absent type changes nothing |
| PageManagers.PageManager.ReplaceTopPage | src/ratroyale/frontend/pages/page_managers/page_manager.py:132-136 | an empty stack is left empty; otherwise the top page is removed and the type opened |
| PageManagers.PageManager.RemoveAllPages | src/ratroyale/frontend/pages/page_managers/page_manager.py:138-141 | the stack ends empty |
| PageManagers.PageManager.MoveUpPage | src/ratroyale/frontend/pages/page_managers/page_manager.py:143-154 | an absent type raises KeyError with no change; otherwise the page swaps with the one above (no change on top); the multiset of pages is kept |
| PageManagers.PageManager.MoveDownPage | src/ratroyale/frontend/pages/page_managers/page_manager.py:156-167 | an absent type raises KeyError with no change; otherwise the page swaps with the one below (no change at the bottom); the multiset of pages is kept |
| PageManagers.PageManager.SetPageVisible | src/ratroyale/frontend/pages/page_managers/page_manager.py:169-173 | an absent type raises KeyError; otherwise only the first page of the type is hidden or shown |
| PageManagers.PageManager.Navigate | src/ratroyale/frontend/pages/page_managers/page_manager.py:256-268 | the result and the new stack are those of running the actions in order, stopping at the first error |
| PageManagers.PageManager.NavigateOnce | src/ratroyale/frontend/pages/page_managers/page_manager.py:258-268 | one action changes the stack as NavStep says, and an error changes nothing |
| PageManagers.PageManager.ApplyNavigation | src/ratroyale/frontend/pages/page_managers/page_manager.py:261-268 | a resolved class with a page command, or no class with a global command, changes the stack as Dispatch says; anything else raises ValueError and changes nothing |
| PageManagers.PageManager.NavigateToPage | src/ratroyale/frontend/pages/page_managers/page_manager.py:260-261 | a page command with a resolved class opens, closes or replaces the top with a page of it, as Dispatch says |
| PageManagers.DispatchKeepsDistinct | src/ratroyale/frontend/pages/page_managers/page_manager.py:261-264 | dispatching a command keeps the page types distinct |
| PageManagers.PageManager.ExecuteBackendPageCallback | src/ratroyale/frontend/pages/page_managers/page_manager.py:85-123 | the running flag, the handled actions and the messages taken are those of Drain; the back end is called iff the drain succeeded and it runs |
| PageManagers.PageManager.BroadcastInput | src/ratroyale/frontend/pages/page_managers/page_manager.py:235-245 | every event reaches exactly the audience of the stack: the pages from the top down to the first blocking page |
| PageManagers.PageManager.BroadcastEvent | src/ratroyale/frontend/pages/page_managers/page_manager.py:240-245 | one event reaches the pages from the top down, up to and including the first blocking page |
| PageManagers.PageManager.Delegate | src/ratroyale/frontend/pages/page_managers/page_manager.py:270-273 | every page, bottom first, runs the handler bound to the action, if any |
| PageManagers.RemoveFirstAt | src/ratroyale/frontend/pages/page_managers/page_manager.py:125-130 | removing the first page of a type takes out exactly the page at its first position |
| PageManagers.KindsRemoveAt | src/ratroyale/frontend/pages/page_managers/page_manager.py:128 | popping a page removes its type at the same position |
| PageManagers.SwapPages | src/ratroyale/frontend/pages/page_managers/page_manager.py:151-167 | swapping two pages swaps their types and keeps the multiset of pages |
| BasePages.Leaf | src/ratroyale/frontend/pages/page_managers/base_page.py:175 | the leaf holds no dot, is a suffix of the id, and is preceded by a dot whenever it is shorter: the text after the last dot |
| BasePages.LeafOfPlain | src/ratroyale/frontend/pages/page_managers/base_page.py:175 | an id without a dot is its own leaf |
| BasePages.LeafOfQualified | src/ratroyale/frontend/pages/page_managers/base_page.py:166-175 | the leaf of panel.leaf is the leaf, for any panel prefix |
| BasePages.LeafIdempotent | src/ratroyale/frontend/pages/page_managers/base_page.py:166-175 | taking the leaf twice is taking it once, unless the first leaf is empty; that happens exactly for an id ending in a dot |
| BasePages.LeafEmpty | src/ratroyale/frontend/pages/page_managers/base_page.py:166-175 | the leaf of a non-empty id is empty exactly when the id ends with a dot |
| BasePages.LeafNotIdempotent | src/ratroyale/frontend/pages/page_managers/base_page.py:175 | the leaf of "panel." is "", whose leaf is None |
| BasePages.FiringMeaning | src/ratroyale/frontend/pages/page_managers/base_page.py:142-153 | the handlers run are exactly those whose bindings fire for the event, in binding order; none run iff no binding fires |
| BasePages.GlobalAndTargeted | src/ratroyale/frontend/pages/page_managers/base_page.py:145-150 | a binding with no prefix fires on every event of its type; a prefixed one never fires without an element id; an empty prefix matches every element id |
| BasePages.BoundMeaning | src/ratroyale/frontend/pages/page_managers/base_page.py:155-164 | with one binding per action, at most one handler runs, and it is the one bound to the action |
| EventBinders.InputEventBind | src/ratroyale/frontend/pages/page_managers/event_binder.py:5-24 | the decorated method keeps its name and every other attribute, and its `input_bindings` list gains the (element id, event type) pair at the end, so stacked decorators accumulate |
| EventBinders.CallbackEventBind | src/ratroyale/frontend/pages/page_managers/event_binder.py:26-45 | the decorated method keeps its name and every other attribute, and its `page_bindings` list gains the action at the end |
| BasePages.PutInputMeaning | src/ratroyale/frontend/pages/page_managers/base_page.py:110-112 | assigning `_input_bindings[key] = handler` binds the key to the handler, keeps every binding of another key and adds nothing else |
| BasePages.PutInputDistinct | src/ratroyale/frontend/pages/page_managers/base_page.py:110-112 | the assignment keeps each key bound once |
| BasePages.PutActionMeaning | src/ratroyale/frontend/pages/page_managers/base_page.py:117 | assigning `_callback_bindings[action] = handler` binds the action to the handler, keeps every binding of another action and adds nothing else |
| BasePages.PutActionDistinct | src/ratroyale/frontend/pages/page_managers/base_page.py:117 | the assignment keeps each action bound once |
| BasePages.ScanInputTagsMeaning | src/ratroyale/frontend/pages/page_managers/base_page.py:108-112 | one method's input tags bind each tagged key to that method, keep every key bound before, add only bindings to that method from its tags, and keep the keys distinct |
| BasePages.ScanActionTagsMeaning | src/ratroyale/frontend/pages/page_managers/base_page.py:115-117 | one method's action tags bind each tagged action to that method, keep every action bound before, add only bindings to that method from its tags, and keep the actions distinct |
| BasePages.ScanMeaning | src/ratroyale/frontend/pages/page_managers/base_page.py:102-117 | the scan over the methods, whichever attributes it reads, binds every tagged key, keeps earlier keys, binds each key only to a method carrying its tag, and keeps the keys distinct |
| BasePages.UntaggedScan | src/ratroyale/frontend/pages/page_managers/base_page.py:102-117 | when no method has either attribute the scan reads, both tables stay empty |
| BasePages.AsWrittenBindsNothing | src/ratroyale/frontend/pages/page_managers/base_page.py:108-117 | as written, a page whose methods carry only the decorators' attributes ends with both tables empty |
| BasePages.SetupEventBindingsMeaning | src/ratroyale/frontend/pages/page_managers/base_page.py:91-117 | as intended, each key is bound once, every key a decorator tagged is bound, and every binding runs a method carrying its tag |
| BasePages.QuitNeverBound | src/ratroyale/frontend/pages/page_managers/base_page.py:80-82 | `quit_game`, bound to QUIT with no element, is left unbound by the scan as written and bound by the intended scan |
| BasePages.SwappedLookupMisses | src/ratroyale/frontend/pages/page_managers/base_page.py:88-89 | as written, looking up element "t1" of type "tile" raises KeyError, while the corrected lookup finds it |
| BasePages.Page.constructor | src/ratroyale/frontend/pages/page_managers/base_page.py:35-69 | a page starts visible, blocking as its type says, with its bindings and elements |
| BasePages.Page.GetElementAsWritten | src/ratroyale/frontend/pages/page_managers/base_page.py:88-89 | as written, the arguments reach the element manager swapped: the id is looked up as a type, and what is found is named after the type |
| BasePages.Page.GetElement | src/ratroyale/frontend/pages/page_managers/base_page.py:88-89 | succeeds iff the type's collection holds an element with that name, and returns one such element; otherwise KeyError |
| BasePages.Page.Hide | src/ratroyale/frontend/pages/page_managers/base_page.py:180-181 | the page becomes invisible |
| BasePages.Page.Show | src/ratroyale/frontend/pages/page_managers/base_page.py:183-184 | the page becomes visible |
| BasePages.Page.HandleGestures | src/ratroyale/frontend/pages/page_managers/base_page.py:119-130 | a hidden page returns every gesture; a visible one returns those its elements leave unconsumed |
| BasePages.Page.ExecuteInputCallback | src/ratroyale/frontend/pages/page_managers/base_page.py:132-153 | runs the handlers that fire for the event's leaf id and type, and reports whether any ran |
| BasePages.Page.ExecutePageCallback | src/ratroyale/frontend/pages/page_managers/base_page.py:155-164 | runs the handler bound to the action, and reports whether one ran |
| Elements.MoveTo | src/ratroyale/frontend/pages/page_elements/element.py:55-82 | a rectangle keeps its size and takes the new top-left corner; a circle does not move |
| Elements.SquareBound | src/ratroyale/frontend/pages/page_elements/element.py:72-75 | a coordinate whose square is within the squared radius lies within the radius |
| Elements.Outgrows | src/ratroyale/frontend/pages/page_elements/element.py:72-75 | a larger radius has a larger square |
| Elements.BoundingBoxCovers | src/ratroyale/frontend/pages/page_elements/element.py:32-88 | with the corrected circle corner, every point a hitbox contains lies in its bounding box |
| Elements.TopLeftAsWrittenMissesCircle | src/ratroyale/frontend/pages/page_elements/element.py:84-85 | as written, the top point (0, -5) of the circle of radius 5 at the origin is outside the box the corner (-5, 5) and size 10 x 10 describe |
| Elements.CircleSymmetric | src/ratroyale/frontend/pages/page_elements/element.py:72-75 | a circle contains a point iff it contains its mirror image through the centre, and a larger circle contains it too |
| Elements.MoveTranslates | src/ratroyale/frontend/pages/page_elements/element.py:46-56 | moving a rectangle by d moves the points it contains by d |
| Elements.RemoveFirst | src/ratroyale/frontend/pages/page_elements/element.py:261 | `list.remove` takes one copy of a listed value out and leaves an unlisted value's list as it was |
| Elements.RemoveAppended | src/ratroyale/frontend/pages/page_elements/element.py:243-261 | removing a just-appended new child restores the list |
| Elements.Element.constructor | src/ratroyale/frontend/pages/page_elements/element.py:167-188 | a new element has its id, hitbox, flags and z order, no offset, no parent and no children |
| Elements.Element.HandleGesture | src/ratroyale/frontend/pages/page_elements/element.py:190-205 | the gesture is taken iff the element is interactable, has a mouse position, and its hitbox contains it; then one event with the element's id is posted, and the position lies in the bounding box |
| Elements.Element.SetPosition | src/ratroyale/frontend/pages/page_elements/element.py:215-225 | the element and, through their offsets, all its descendants are placed relative to the new position; each hitbox only moves |
| Elements.Element.AddPosition | src/ratroyale/frontend/pages/page_elements/element.py:227-229 | the element and its descendants are placed at its corner as written (element.py:84-85 for a circle) plus the delta; a rectangle element moves by the delta and every hitbox only moves |
| Elements.Element.AddChild | src/ratroyale/frontend/pages/page_elements/element.py:231-269 | a child already attached raises ValueError with no change; otherwise it is appended, its parent is set, its offset is the given one or the current difference of the corners as written (element.py:84-85 for circles), and it is placed at that offset from the parent's corner |
| Elements.Element.RemoveChild | src/ratroyale/frontend/pages/page_elements/element.py:255-263 | a child not attached raises ValueError with no change; otherwise its first copy is removed and its parent and offset are reset |
| ElementManagers.ElementWrapper.constructor | src/ratroyale/frontend/pages/page_elements/element_manager.py:60-68 | a wrapper has its registered and grouping names, its parent reference and z order, and no parent or children yet |
| ElementManagers.ElementWrapper.AddChild | src/ratroyale/frontend/pages/page_elements/element_manager.py:75 | a child already attached raises ValueError with no change; otherwise it is appended and its parent is set |
| ElementManagers.ElementWrapper.LeaveParent | src/ratroyale/frontend/pages/page_elements/element_manager.py:92-94 | a wrapper with a parent that does not list it raises ValueError; otherwise its first copy leaves the parent's children and its parent is cleared |
| ElementManagers.Slot | src/ratroyale/frontend/pages/page_elements/element_manager.py:80-137 | the stable descending sort puts a new element after every element of at least its z order and before the first one below it |
| ElementManagers.InsertByZSorts | src/ratroyale/frontend/pages/page_elements/element_manager.py:80-137 | appending and re-sorting by descending z order keeps the list sorted, adds exactly the new element, and keeps the others in order |
| ElementManagers.SplicedSorted | src/ratroyale/frontend/pages/page_elements/element_manager.py:80-137 | an element put between the elements of at least its z-order and those of lower z-order leaves the list sorted by descending z-order |
| ElementManagers.InsertAt | src/ratroyale/frontend/pages/page_elements/element_manager.py:80-137 | the new element lands at its slot, with the elements before it unchanged and those after it shifted by one |
| ElementManagers.RemoveKeepsSorted | src/ratroyale/frontend/pages/page_elements/element_manager.py:98-102 | removing an element keeps the list sorted by descending z order |
| ElementManagers.Find | src/ratroyale/frontend/pages/page_elements/element_manager.py:60-108 | a name is found iff an element of the group has it, and the element found has that name |
| ElementManagers.Without | src/ratroyale/frontend/pages/page_elements/element_manager.py:116-121 | what is left holds exactly the flattened elements not in the group |
| ElementManagers.ClearGroupAsWrittenLeaks | src/ratroyale/frontend/pages/page_elements/element_manager.py:116-121 | as written, clearing a group of two raises RuntimeError with the second element still in the flattened list; the corrected clear empties both |
| ElementManagers.WithoutKeepsSorted | src/ratroyale/frontend/pages/page_elements/element_manager.py:116-121 | dropping a group's elements keeps the flattened list sorted |
| ElementManagers.FirstTaker | src/ratroyale/frontend/pages/page_elements/element_manager.py:185-193 | a gesture's taker is an interactable element that accepts it |
| ElementManagers.FirstTakerMeaning | src/ratroyale/frontend/pages/page_elements/element_manager.py:185-193 | there is no taker iff no interactable element accepts the gesture; otherwise the taker is the first one in z order |
| ElementManagers.UnconsumedMeaning | src/ratroyale/frontend/pages/page_elements/element_manager.py:180-198 | exactly the gestures no element takes are returned |
| ElementManagers.ElementManager.constructor | src/ratroyale/frontend/pages/page_elements/element_manager.py:28-31 | a manager starts with no collections and an empty flattened list |
| ElementManagers.ElementManager.CreateCollection | src/ratroyale/frontend/pages/page_elements/element_manager.py:41-45 | an existing collection is returned unchanged; otherwise an empty one is added |
| ElementManagers.ElementManager.GetCollection | src/ratroyale/frontend/pages/page_elements/element_manager.py:47-51 | the collection of the type, or KeyError iff there is none |
| ElementManagers.ElementManager.GetElementWrapper | src/ratroyale/frontend/pages/page_elements/element_manager.py:104-111 | the element of that name in the group, or KeyError iff the group or the name is missing |
| ElementManagers.ElementManager.AddElement | src/ratroyale/frontend/pages/page_elements/element_manager.py:53-81 | a taken name raises ValueError with no change; otherwise the element joins its group, is inserted by z order into the flattened list and, with a parent reference, becomes a child of its parent; other groups are unchanged |
| ElementManagers.ElementManager.RemoveElement | src/ratroyale/frontend/pages/page_elements/element_manager.py:83-102 | a missing type raises KeyError and a missing key changes nothing; otherwise the element leaves its parent (ValueError when the parent does not list it), the flattened list and its group |
| ElementManagers.ElementManager.Forget | src/ratroyale/frontend/pages/page_elements/element_manager.py:98-100 | the element leaves the flattened list and its group, keeping the manager's invariant |
| ElementManagers.ElementManager.ClearGroupByNameAsWritten | src/ratroyale/frontend/pages/page_elements/element_manager.py:113-121 | as written, the group and flattened list end as ClearGroupAsWritten says, RuntimeError included |
| ElementManagers.ElementManager.ClearGroupByName | src/ratroyale/frontend/pages/page_elements/element_manager.py:113-121 | a missing type raises KeyError; otherwise the group is emptied and its elements leave the flattened list, which stays sorted |
| ElementManagers.ElementManager.ClearAll | src/ratroyale/frontend/pages/page_elements/element_manager.py:123-126 | no collections and no flattened elements remain |
| ElementManagers.ElementManager.HandleGestures | src/ratroyale/frontend/pages/page_elements/element_manager.py:174-198 | each gesture goes to the first interactable element in z order that accepts it, and the gestures no element takes are returned in order |
| ElementManagers.KeysStayDistinct | src/ratroyale/frontend/pages/page_elements/element_manager.py:60-64 | a group with distinct names keeps the manager's names distinct |
| ElementManagers.RemoveKeepsDistinct | src/ratroyale/frontend/pages/page_elements/element_manager.py:100 | removing an element keeps a group's names distinct |
| ElementGroups.SelectionMeaning | src/ratroyale/frontend/pages/page_elements/element_group.py:88-115 | a selected name stays selected; at the limit PREVENT_NEW changes nothing and REMOVE_OLDEST evicts the oldest first (IndexError iff nothing is selected to evict); the name is added last iff `on_select` accepts it; names stay distinct and, within the limit, the count stays within it |
| ElementGroups.DeselectionMeaning | src/ratroyale/frontend/pages/page_elements/element_group.py:117-130 | deselection removes exactly that name, keeps names distinct, leaves an unselected name's list unchanged and otherwise shortens it by one |
| ElementGroups.SelectThenDeselect | src/ratroyale/frontend/pages/page_elements/element_group.py:88-130 | below the limit, an accepted selection appends the name and deselecting it restores the selection |
| ElementGroups.RemoveLast | src/ratroyale/frontend/pages/page_elements/element_group.py:129 | removing a name just appended restores the list |
| ElementGroups.LookupAllMeaning | src/ratroyale/frontend/pages/page_elements/element_group.py:43-140 | the lookup succeeds iff every selected name is registered, and then gives their elements in order; otherwise KeyError |
| ElementGroups.ElementGroup.constructor | src/ratroyale/frontend/pages/page_elements/element_group.py:12-24 | a group starts active and empty, with its limit and policy |
| ElementGroups.ElementGroup.GetElement | src/ratroyale/frontend/pages/page_elements/element_group.py:35-41 | the element of that name, or KeyError iff there is none |
| ElementGroups.ElementGroup.AddElement | src/ratroyale/frontend/pages/page_elements/element_group.py:26-33 | a taken name raises KeyError with no change; otherwise the element is registered and inserted by descending z order |
| ElementGroups.ElementGroup.RemoveElement | src/ratroyale/frontend/pages/page_elements/element_group.py:50-61 | an unknown name raises KeyError with no change; otherwise the element is returned and leaves the registry, the flattened list and the selection |
| ElementGroups.ElementGroup.ClearAsWritten | src/ratroyale/frontend/pages/page_elements/element_group.py:63-67 | as written, the registered names are returned and the elements dropped, but the selection is kept |
| ElementGroups.ElementGroup.Clear | src/ratroyale/frontend/pages/page_elements/element_group.py:63-67 | the registered names are returned, and the elements and the selection are dropped |
| ElementGroups.ElementGroup.SetActive | src/ratroyale/frontend/pages/page_elements/element_group.py:69-70 | the group's active flag becomes the given one |
| ElementGroups.ElementGroup.SetOverselectionPolicy | src/ratroyale/frontend/pages/page_elements/element_group.py:72-75 | the policy becomes the given one |
| ElementGroups.ElementGroup.Select | src/ratroyale/frontend/pages/page_elements/element_group.py:88-115 | an unknown name raises KeyError; otherwise the selection becomes Selection's, the element is returned unless PREVENT_NEW refused it, and the evicted name is the oldest, reported iff REMOVE_OLDEST evicted it |
| ElementGroups.ElementGroup.Deselect | src/ratroyale/frontend/pages/page_elements/element_group.py:117-130 | the name leaves the selection, and its element is returned iff it was selected and is still registered |
| ElementGroups.ElementGroup.Toggle | src/ratroyale/frontend/pages/page_elements/element_group.py:77-86 | a selected name is deselected; any other is selected as Select does, its KeyError or IndexError passed on with no change |
| ElementGroups.ElementGroup.GetSelectedElements | src/ratroyale/frontend/pages/page_elements/element_group.py:43-48 | the selected elements, oldest first, or KeyError at the first selected name no longer registered |
| ElementGroups.ElementGroup.DeselectAll | src/ratroyale/frontend/pages/page_elements/element_group.py:132-140 | the selected elements are returned and the selection emptied; a stale name raises KeyError and keeps the selection; with every selected name registered it succeeds |
| ElementGroups.ClearThenDeselectAll | src/ratroyale/frontend/pages/page_elements/element_group.py:63-67 | after `clear` as written, `deselect_all` on a group with one selected card raises KeyError; after the corrected clear it returns nothing selected |
| ElementGroups.Names | src/ratroyale/frontend/pages/page_elements/element_group.py:64 | the names of the elements, in order |
| ElementGroups.LookupStops | src/ratroyale/frontend/pages/page_elements/element_group.py:45-136 | the first unregistered name ends the lookup with its KeyError |
| ElementGroups.FindExtends | src/ratroyale/frontend/pages/page_elements/element_group.py:26-33 | registering a new name keeps names distinct and every selected name registered |
| ElementGroups.FindAfterRemove | src/ratroyale/frontend/pages/page_elements/element_group.py:50-61 | removing an unselected element keeps every selected name registered |
| ElementGroups.KnownSubset | src/ratroyale/frontend/pages/page_elements/element_group.py:117-130 | dropping names from the selection keeps every selected name registered |
| ElementGroups.KnownAfterSelect | src/ratroyale/frontend/pages/page_elements/element_group.py:88-115 | adding a registered name to the selection keeps every selected name registered |
| GameBoards.SelectTwice | src/ratroyale/frontend/pages/page_definitions/game_board.py:273-284 | clicking the same element twice with toggling restores an earlier selection of it and otherwise leaves none; without toggling a click always selects it |
| GameBoards.GameBoard.constructor | src/ratroyale/frontend/pages/page_definitions/game_board.py:256-286 | nothing is selected and no ability panel is open at first |
| GameBoards.GameBoard.SelectElement | src/ratroyale/frontend/pages/page_definitions/game_board.py:256-286 | every lookup goes through `get_element` as written (base_page.py:88-89): the previous selection is looked up and un-highlighted first (KeyError when the lookup fails); the same element with toggling is deselected and None returned; otherwise the element is looked up (KeyError), highlighted, selected and returned; an id that names no collection raises KeyError and keeps the selection; at most one element is highlighted on |
| GameBoards.GameBoard.CloseAbilityMenu | src/ratroyale/frontend/pages/page_definitions/game_board.py:242-246 | an open panel is removed and forgotten; with none (or an empty id) nothing changes |
| SqueakElements.TraceAlternates | src/ratroyale/frontend/pages/page_elements/preset_elements/squeak_element.py:138-154 | over any run of crumb counts the queued animations alternate, the first leaves the initial state and the last reaches the final one; no animation means no change; the final state is playable iff the cost is within the last count |
| SqueakElements.SqueakElement.constructor | src/ratroyale/frontend/pages/page_elements/preset_elements/squeak_element.py:45 | a new card starts playable with no animation queued |
| SqueakElements.SqueakElement.DecideInteractivity | src/ratroyale/frontend/pages/page_elements/preset_elements/squeak_element.py:138-154 | the card is playable iff its cost is within the crumbs, and an animation is queued iff that changed: enable on false to true, disable on true to false |
| SqueakElements.DecideTwice | src/ratroyale/frontend/pages/page_elements/preset_elements/squeak_element.py:150 | repeating the call with the same crumbs queues nothing |
| FeatureTextures.Clockwise | src/ratroyale/frontend/feature_texture.py:51-53 | the neighbours are re-indexed to n0, n5, n4, n3, n2, n1 |
| FeatureTextures.Direction | src/ratroyale/frontend/feature_texture.py:51-54 | the re-indexed position of a neighbour is a valid direction |
| FeatureTextures.TriangleTypeMeaning | src/ratroyale/frontend/feature_texture.py:46-67 | triangle i faces edge i // 2; it is ISOLATED iff that neighbour is no feature coordinate, and otherwise FULL_CONNECTED iff the next neighbour (clockwise for odd i, counter-clockwise for even) is one too, else CONNECTED |
| FeatureTextures.TriangleIndexBounds | src/ratroyale/frontend/feature_texture.py:49-54 | the index raises IndexError iff it lies outside -12..11 |
| FeatureTextures.CornerAgrees | src/ratroyale/frontend/feature_texture.py:59-65 | the two triangles meeting at a corner agree on whether they are FULL_CONNECTED |
| FeatureTextures.NegativeIndexWraps | src/ratroyale/frontend/feature_texture.py:49-54 | a negative index counts from the end, as the index plus 12 |
| SpritesheetManagers.RangeMeaning | src/ratroyale/frontend/visual/asset_management/spritesheet_manager.py:26-27 | `range(start, stop, step)` with a positive step holds ceil((stop - start) / step) values, the i-th being start + i * step, and none when start >= stop |
| SpritesheetManagers.Row | src/ratroyale/frontend/visual/asset_management/spritesheet_manager.py:27-34 | one row of the sheet yields one frame per x offset, in order, all at that row's y, each of the scaled output size |
| SpritesheetManagers.GridIndex | src/ratroyale/frontend/visual/asset_management/spritesheet_manager.py:26-34 | the nested loops yield rows times columns frames, frame k lying in column k mod columns and row k div columns (row-major order) |
| SpritesheetManagers.GridStep | src/ratroyale/frontend/visual/asset_management/spritesheet_manager.py:26-34 | appending one more row keeps the row-major placement of every frame |
| SpritesheetManagers.SlicesLayout | src/ratroyale/frontend/visual/asset_management/spritesheet_manager.py:19-36 | for a positive frame size and sheet size, loading succeeds and yields ceil(w / fw) * ceil(h / fh) frames, frame k cut at ((k mod columns) * fw, (k div columns) * fh) |
| SpritesheetManagers.CachedSpritesheet.constructor | src/ratroyale/frontend/visual/asset_management/spritesheet_manager.py:7-17 | a new cached sheet holds its key, frame size, animation table, frame rate and scale, and no frames yet |
| SpritesheetManagers.CachedSpritesheet.LoadSpritesheet | src/ratroyale/frontend/visual/asset_management/spritesheet_manager.py:19-36 | the frames become exactly the slicing of the sheet; a zero step raises ValueError and leaves the frames unchanged |
| SpritesheetManagers.CachedSpritesheet.GetSpriteByAbsIndex | src/ratroyale/frontend/visual/asset_management/spritesheet_manager.py:38-41 | no frames raise ValueError; otherwise an index in [-n, n) gives that frame, negative ones counting from the end, and any other raises IndexError |
| SpritesheetManagers.CachedSpritesheet.GetSpriteByName | src/ratroyale/frontend/visual/asset_management/spritesheet_manager.py:43-48 | an unknown animation raises ValueError, and an animation with no frames raises ZeroDivisionError |
| SpritesheetManagers.SpriteByNameWraps | src/ratroyale/frontend/visual/asset_management/spritesheet_manager.py:43-48 | the frame index wraps around the animation's length; an index within the animation picks the sheet frame its entry names, counting from the end for a negative index |
| SpritesheetManagers.SpritesheetManager.constructor | src/ratroyale/frontend/visual/asset_management/spritesheet_manager.py:55-58 | the cache starts empty |
| SpritesheetManagers.SpritesheetManager.RegisterSpritesheet | src/ratroyale/frontend/visual/asset_management/spritesheet_manager.py:61-75 | a registered key returns the cached sheet and loads nothing; a new key gets a fresh sheet, described by the metadata and holding its slicing, which is cached under the key and then found by lookup; a failed load caches nothing |
| SpritesheetManagers.SpritesheetManager.GetSpritesheet | src/ratroyale/frontend/visual/asset_management/spritesheet_manager.py:78-83 | a lookup succeeds iff the key is cached, giving that sheet; otherwise KeyError |
| SpritesheetManagers.SpritesheetManager.UnregisterSpritesheet | src/ratroyale/frontend/visual/asset_management/spritesheet_manager.py:86-89 | the key is removed, and nothing else; a later lookup raises KeyError |
| SpritesheetManagers.SpritesheetManager.Clear | src/ratroyale/frontend/visual/asset_management/spritesheet_manager.py:92-94 | the cache becomes empty |
| SpritesheetManagers.SpritesheetManager.GetFrameCount | src/ratroyale/frontend/visual/asset_management/spritesheet_manager.py:97-102 | succeeds iff the sheet is cached and has the animation, giving the length of its frame list; otherwise KeyError |
| SpritesheetManagers.RegisterTwice | src/ratroyale/frontend/visual/asset_management/spritesheet_manager.py:63-64 | registering the same key twice returns the sheet of the first registration, whatever the second sheet would have been |
| SpriteRegistries.NatString | src/ratroyale/frontend/visual/asset_management/game_obj_to_sprite_registry.py:217 | the decimal text of a natural number is non-empty and all digits |
| SpriteRegistries.NatStringInjective | src/ratroyale/frontend/visual/asset_management/game_obj_to_sprite_registry.py:217 | different natural numbers have different decimal texts |
| SpriteRegistries.IntStringInjective | src/ratroyale/frontend/visual/asset_management/game_obj_to_sprite_registry.py:217 | different integers have different texts |
| SpriteRegistries.SignShows | src/ratroyale/frontend/visual/asset_management/game_obj_to_sprite_registry.py:217 | the text of a number starts with a minus sign iff the number is negative |
| SpriteRegistries.TileKeysDistinct | src/ratroyale/frontend/visual/asset_management/game_obj_to_sprite_registry.py:216-217 | two tile ids of one map never share a spritesheet key, so the spritesheet cache keeps their frames apart |
| SpriteRegistries.MetadataCache.constructor | src/ratroyale/frontend/visual/asset_management/game_obj_to_sprite_registry.py:204-206 | the memo starts empty and every entry in it trivially shows its own tile |
| SpriteRegistries.MetadataCache.GetSpritesheetMetadata | src/ratroyale/frontend/visual/asset_management/game_obj_to_sprite_registry.py:209-225 | a tile id above the tile count raises ValueError and changes nothing; a memoised tile returns the stored metadata unchanged; a new tile gets the tileset's sheet and frame size with the single frame tile_id - 1, stored under its map and id and nothing else; every memoised entry keeps showing its own map and tile |
| SpriteRegistries.AskTwice | src/ratroyale/frontend/visual/asset_management/game_obj_to_sprite_registry.py:209-225 | asking twice for the same tile gives the same metadata both times, and both calls fail iff the id is above the tile count |
| SpriteRegistries.AssignMeaning | src/ratroyale/frontend/visual/asset_management/game_obj_to_sprite_registry.py:155-190 | the loop's assignments add exactly the listed keys; a key listed twice keeps the entry of its last position; other keys keep their entries |
| SpriteRegistries.AssignKeys | src/ratroyale/frontend/visual/asset_management/game_obj_to_sprite_registry.py:155-190 | after the loop the registry holds exactly the old keys plus the listed ones |
| SpriteRegistries.AssignAt | src/ratroyale/frontend/visual/asset_management/game_obj_to_sprite_registry.py:158-164 | one listed key holds the entry of its last position |
| SpriteRegistries.AssignSkips | src/ratroyale/frontend/visual/asset_management/game_obj_to_sprite_registry.py:177-183 | a key not listed keeps its entry |
| SpriteRegistries.AssignOrigin | src/ratroyale/frontend/visual/asset_management/game_obj_to_sprite_registry.py:155-190 | every entry after the loop is either an entry it had before or the entry of a position at which its key is listed |
| SpriteRegistries.SqueakKeyOwner | src/ratroyale/frontend/visual/asset_management/game_obj_to_sprite_registry.py:155-190 | each squeak card of the two loops is keyed by the `uuid4` draw of one position of the two lists, and that position holds that card |
| SpriteRegistries.SqueakKeysDistinct | src/ratroyale/frontend/visual/asset_management/game_obj_to_sprite_registry.py:155-190 | when every `uuid4` draw is fresh, no two squeak cards of the two loops share a sheet key |
| SpriteRegistries.SpriteRegistry.constructor | src/ratroyale/frontend/visual/asset_management/game_obj_to_sprite_registry.py:95-153 | both registries start empty (their literal entries are commented out) |
| SpriteRegistries.SpriteRegistry.RegisterSet | src/ratroyale/frontend/visual/asset_management/game_obj_to_sprite_registry.py:155-171 | the j-th pair of zip(rodents, squeaks) maps the rodent class to frame j of the shared sheet and the squeak card to frame j under the j-th random key; pairs past the shorter list are dropped |
| SpriteRegistries.BuildRegistry | src/ratroyale/frontend/visual/asset_management/game_obj_to_sprite_registry.py:155-190 | after both loops Tailblazer shows frame 4 of the first sheet, not overwritten by the second loop, and TheOne shows frame 0 of the second sheet; with fresh `uuid4` draws, no two squeaks share a sheet key |
| SpriteAnims.SpritesheetComponent.constructor | src/ratroyale/frontend/visual/asset_management/spritesheet_structure.py:17-25 | a new component shows frame 0 of IDLE |
| SpriteAnims.SpritesheetComponent.SetFrame | src/ratroyale/frontend/visual/asset_management/spritesheet_structure.py:27-29 | the component then shows the given frame of the given animation |
| SpriteAnims.SpritesheetComponent.CurrentFrame | src/ratroyale/frontend/visual/asset_management/spritesheet_structure.py:42-54 | a raw surface is drawn as it is; a key missing from the cache raises KeyError; an empty or unset animation name or unset index raises AttributeError; otherwise the sheet's frame for that name and index |
| SpriteAnims.FrameInRange | src/ratroyale/frontend/visual/anim/core/sprite_anim.py:35-43 | with at least one frame, any eased time and direction pick a frame index inside the animation |
| SpriteAnims.BaseIndexInRange | src/ratroyale/frontend/visual/anim/core/sprite_anim.py:36 | for eased time in [0, 1] the step count lies in [0, total - 1] |
| SpriteAnims.DirectionZeroFreezes | src/ratroyale/frontend/visual/anim/core/sprite_anim.py:39-41 | direction 0 freezes the animation on its start frame |
| SpriteAnims.NegativeDirectionMirrors | src/ratroyale/frontend/visual/anim/core/sprite_anim.py:39-43 | a negative direction plays the mirror image of the matching positive direction |
| SpriteAnims.Endpoints | src/ratroyale/frontend/visual/anim/core/sprite_anim.py:35-43 | a forward animation shows its start frame at t = 0 and has advanced total - 1 steps of its direction at t = 1 |
| SpriteAnims.ForwardSweep | src/ratroyale/frontend/visual/anim/core/sprite_anim.py:35-43 | from frame 0 in direction 1 later eased times never show earlier frames, and t = 1 shows the last frame |
| SpriteAnims.ForwardIsBase | src/ratroyale/frontend/visual/anim/core/sprite_anim.py:39-41 | from frame 0 in direction 1 the frame shown is the step count itself |
| SpriteAnims.BaseIndexMonotone | src/ratroyale/frontend/visual/anim/core/sprite_anim.py:36 | later eased time never gives a smaller step count |
| SpriteAnims.BaseIndexAtOne | src/ratroyale/frontend/visual/anim/core/sprite_anim.py:36 | at t = 1 the step count is total - 1 |
| SpriteAnims.SpriteAnim.constructor | src/ratroyale/frontend/visual/anim/core/sprite_anim.py:21-27 | a new animation starts at its start frame with the given direction and frame count |
| SpriteAnims.SpriteAnim.Update | src/ratroyale/frontend/visual/anim/core/sprite_anim.py:29-47 | the frame picked for the eased time is shown on the component under the animation's name and recorded; with no frames the modulo raises ZeroDivisionError and nothing changes |
| SpriteAnims.NewSpriteAnimAsWritten | src/ratroyale/frontend/visual/anim/core/sprite_anim.py:25-27 | as written, making any SpriteAnim raises AttributeError, because the component has no get_key |
| SpriteAnims.NewSpriteAnim | src/ratroyale/frontend/visual/anim/core/sprite_anim.py:25-27 | with the key read from the component's reference, an animation is made iff the sheet is cached and has the animation, with that animation's length as its frame count; otherwise KeyError |
| AnimCoordinators.TickMeaning | src/ratroyale/frontend/visual/anim/core/anim_coordinator.py:17-31 | with nothing queued a call changes nothing; a set starts iff one is queued and none is running, and it is the front set, taken off the queue; a running set is dropped iff all its animations have finished |
| AnimCoordinators.RunIsFifo | src/ratroyale/frontend/visual/anim/core/anim_coordinator.py:11-31 | over any sequence of calls, the sets started followed by the sets still waiting are the sets waiting at first followed by those queued since, in order: each set starts at most once and none overtakes an earlier one |
| AnimCoordinators.StepIsFifo | src/ratroyale/frontend/visual/anim/core/anim_coordinator.py:11-31 | one call keeps that order: a started set comes off the front and a queued set goes on the back |
| AnimCoordinators.AnimationCoordinator.constructor | src/ratroyale/frontend/visual/anim/core/anim_coordinator.py:7-9 | nothing is queued and nothing runs |
| AnimCoordinators.AnimationCoordinator.QueueAnimationSet | src/ratroyale/frontend/visual/anim/core/anim_coordinator.py:11-15 | the set goes on the back of the queue and the running set is unchanged |
| AnimCoordinators.AnimationCoordinator.QueueToElements | src/ratroyale/frontend/visual/anim/core/anim_coordinator.py:17-34 | the new state is the one TickMeaning describes, and a started set's animations are handed to their elements once each, in order |

## Left out

Rendering, foreign libraries and I/O:
- All pygame and pygame_gui drawing and widget construction is left out: the page definitions other than the game board's selection, hitbox drawing and `generate_feature_surface`. These are calls into foreign libraries.
- Image loading is also left out. `load_spritesheet` takes the sheet's width and height as parameters, and a frame is its rectangle and output size, not its pixels.
- SpritesheetManagers.CachedSpritesheet.LoadSpritesheet: a frame that reaches past the sheet's edge makes pygame's `subsurface` raise ValueError. The model cuts that frame anyway, because sheet pixels are not modelled.
- File, build and tool I/O are left out: the map-making CLI, `game_data`, the Cython build scripts and `tiled_tmj.py`. They read files or start processes, and `tiled_tmj.py` does not parse as Python.
- The superseded prototypes are left out because they do not import: `input/`, `render/`, `visual/` and the root-level copies of the board, hexagon, entity, tile and map modules.
- The data tables are left out: squeak card definitions, rodent stat blocks and the sprite paths beyond the two shared rodent sheets. They are constants, not behaviour.

Floating point, time and randomness:
- Floating point is exact `real` arithmetic in the model. This covers effect and timer intensities, crumb multipliers, the crumbs-stack bonus, sprite scales and eased time. Float rounding is not modelled.
- The floating-point geometry is left out: pixel conversion, `line_draw` and cube rounding in hexagon.py. So are the line-of-sight and attackable-coordinate queries built on them, the camera, the spatial component, and the hex and ellipse hitbox ray casts.
- Easing is left out. `AnimEvent.get_normalized_time` is not modelled: `SpriteAnims.SpriteAnim.Update` takes the eased time as a parameter, and the direction is the animation's `start_direction`. The `_direction` field that the easing code overwrites with an enum is not used.
- The gesture reader's clock is a parameter: event times are whole milliseconds. The swipe speed test is stated exactly on squared integer distances.
- `_sync_with_hardware` reads the pygame mouse, so its readings are parameters.
- Randomness is given as inputs:
  - the deck `shuffle` in `_draw_squeak` is a permutation given per side;
  - `uuid4` keys of squeak-card sheets are a function from position to text;
  - `gacha_squeak`, `RandomAI` and Mayo's dodge roll are left out.
- `EventQueue` locking and the coordination-manager mailboxes are concurrency plumbing. The mailbox is a sequence that the page manager drains.

Game rules:
- GameManagers.GameManager.EndTurn: the per-effect loop that calls each effect's `on_turn_change` hook is not modelled, because the hook runs code of each effect class. `ExpireEffect` models one iteration of the expiry that follows it.
- GameManagers.GameManager.MoveRodent: the path that `path_find` returns is a parameter. `HexSearch` models the path finder itself.
- HexSearch.PathFind: step costs are natural numbers of at least 1, and the searched area is a finite set, while `path_find` accepts float costs on an unbounded grid. Every call in board.py:202-207 uses the default cost of 1.0.
- Each effect's and timer's `on_applied`, `on_turn_change` and `on_cleared` hooks are left out, apart from Quartermaster's Soul.
- The other callbacks in common_skills.py are left out: `move`, `normal_damage`, `normal_heal`, `apply_timer`, `apply_effect` and `aoe_damage`. They are thin wrappers over the game manager operations, which are modelled.
- The targeting builders of "My Body", "My Heart" and "Bread Slap" are left out. tank.py and support.py import `SelectTarget` and `TargetAction` from common_skills.py, which does not define them.
- `Cracker.on_turn_change` and the detonation effects of "My Soul" are left out.
- Maps.Map: the same Tile object sitting in two grid cells (aliasing) is not modelled. Tiles are values.
- Boards.NewBoard, Boards.Populate: the `deepcopy(map)` of board.py:52 is not modelled. The board shares the map's Feature and Entity objects, so a later move or damage on the board also shows on the map's objects, where the source changes only its copies. GameManager never reads the map again after building the board (game_manager.py:67), so the game sees the same states.
- GameManagers.GameManager.EffectDurationOver: game_manager.py:356 makes the strongest survivor's `overridden_effects` the same list object as the expired effect's; the model copies the value, so a later change to one list is not seen through the other.
- The AI strategy (`select_action`) and the game manager's answers are the inputs of each pass of the AI loop.
- BaseAIs.GetAllActions: requires the game manager's crumbs to be set. On a game manager built as written (game_manager.py:58-84 never assigns `crumbs`) base_ai.py:116, :127 and :134 would raise AttributeError; `run_ai` as written never gets there, since base_ai.py:39 raises first (`BaseAIs.RunAIAsWritten`).
- The module-level `_cached_spritesheets` dict of `SpritesheetManager` is a single manager object.
- SpritesheetManagers.SpritesheetManager.GetFrameCount: the TypeError branch cannot be reached, because a cached sheet is never falsy. It is not modelled.
- SpriteRegistries.MetadataCache.GetSpritesheetMetadata: a tile id of 0 or below is accepted, as in the code. Its frame number is then negative.
- The registry constants `DUMMY_TEXTURE_METADATA`, `TILESET_MAP` entries other than the Starting Kitchen, `FEATURE_SPRITE_PATH` and `MISC_SPRITE_METADATA` are constants and are not modelled.

Front end:
- `AnimationCoordinator` aliasing is not modelled: `clear()` empties the set list object that the caller handed in. The model replaces the running set by an empty one.
- `queue_override_animation` is recorded as the sequence of hand-overs that `QueueToElements` returns. An animation's `is_finished()` is a parameter of each call.
- Element positions are whole pixels. `set_position` on a circle hitbox does nothing, as in the code.
- The visual, `destroy` and `on_deselect` hooks of elements are left out. The answer of `on_select` is a parameter.
- GameBoards.GameBoard.CloseAbilityMenu: an empty panel id is kept, not cleared, because the code tests the id's truth value.
- The page manager finds a page of a type with `isinstance`. The model matches the page's own class name, so a subclass of the requested page class does not match.
- BasePages.Page.constructor: takes the binding tables as arguments instead of scanning the page's methods; `BasePages.SetupEventBindingsAsWritten` and `BasePages.SetupEventBindings` model the scan. The page's methods are a list of names with their decorator tags, in the order `dir` lists them; which attributes are callable is not modelled.
- `handle_events` and the page hooks `on_open` and `on_close` are left out. They run page-specific code.
- Elements.Element.SetPosition: proved for elements whose children form a tree. A parent cycle would make the source recurse without end, and is outside its precondition.
- `max_selectable` of 0 or below makes every selection raise IndexError, as in the code.

Disagreements between source files (each file is modelled on its own text):
- `Tile.get_total_height` takes no argument, but board.py passes it a side.
- `ElementWrapper` is imported from element.py, which does not define it, by anim_coordinator.py, element_manager.py:1, element_group.py:1 and base_page.py:16. The model defines it in `ElementManagers`.
- board.py:176 calls `Tile.is_collision`, which tile.py does not define. The model uses the tile collision test of `is_coord_blocked` (`Boards.TileCollides`).
- The crumbs stack (features/common.py:75 and :88) updates `game_manager.crumbs_per_turn_modifier`, an attribute GameManager does not have. The model updates the side multipliers of crumbs_per_turn_modifier.py's modifier, held in the stack's state.
- Elements are built with `parent_element=...` in the preset elements, but element_manager.py reads `element_parent`.
- page_manager.py builds `BackendAdapter` with four arguments (game manager, page manager, coordination manager, AI type), but its `__init__` takes two. Starting the back end is modelled as the state change, without the adapter.
- `GESTURE_READER_CARES` is imported from gesture_reader.py, which does not define it.
- gesture_data.py has no `DOUBLE_CLICK` or `SCROLL` gesture type, and no end position, velocity or scroll amount, although the gesture reader uses them. The reader is modelled as written.
- feature.py gives features no `pos`, but map.py reads `feature.pos`. The model gives each feature a position.
- `end_turn` calls `effect._should_clear`, but entity_effect.py defines `should_clear`. The model calls `should_clear`.
- page_manager.py:99-103 builds `GameManager` with three arguments, but game_manager.py:58-64 also requires `coordination_manager`, so starting a game raises TypeError before the `BackendAdapter` call above. Starting is modelled as the state change.
- page_manager.py:116 reads `backend_adapter.game_manager_response`, which backend_adapter.py:8-14 does not define. The `hasHandler` parameter of `PageManagers.PageManager.ExecuteBackendPageCallback` stands for that lookup.
- `SkillCompleted` and `SkillTargeting` are imported from entity.py (game_manager.py:12, common_skills.py:6, base_ai.py:6, tank.py, support.py), which defines neither; its `SkillResult` is a dataclass of `target_count`, `available_targets` and `callback` (entity.py:23-27). `Entities.SkillResult` instead follows the use in common_skills.py:115 and game_manager.py:107-113: finished with a `SkillCompleted`, or a targeting request with the count, the candidates and the asking entity and skill.
- `AIActions` is imported from ai_action.py (base_ai.py:10-11), which does not define it. `BaseAIs.AIActions` is a shape read off its use in base_ai.py:98-139: one list per action kind.
- `is_ellipsis_body` is imported from utils.py (board.py:5), which does not define it. `Entities.Entity.hasTurnChangeHook` stands for `not is_ellipsis_body(entity.on_turn_change)` (board.py:76, :95).

## Findings

| source | as written | input that shows it | evidently intended | confidence | as-written member | corrected member |
|---|---|---|---|---|---|---|
| src/ratroyale/backend/game_manager.py:58-84 | `__init__` never assigns `first_turn` or `crumbs` | any new game, then `end_turn` | both are set when the game starts | high; not executed | GameManagers.NewGameManagerAsWritten, GameManagers.FirstEndTurnAsWritten | GameManagers.NewGameManager, GameManagers.FirstEndTurn |
| src/ratroyale/backend/game_manager.py:159-163 | the targeting request is stored as `self.__target`, a name-mangled attribute that nothing reads | activating a skill that asks for targets, then answering it | the request is stored in `skill_targeting` | high; not executed | GameManagers.GameManager.ActivateSkillAsWritten, GameManagers.GameManager.TargetAnswerAsWritten | GameManagers.GameManager.ActivateSkill, GameManagers.GameManager.TargetAnswer |
| src/ratroyale/backend/game_manager.py:235 | `try_move` receives the target coordinate where it expects a path | any move that passes the checks | the path found for the move is passed | high; not executed | GameManagers.GameManager.MoveRodentAsWritten | GameManagers.GameManager.MoveRodent |
| src/ratroyale/backend/game_manager.py:344-352 | `max` is taken of the overridden-effect list even when it is empty | an effect with no overridden effects reaching the end of its duration | with none left, the effect is simply removed | high; not executed | GameManagers.GameManager.EffectDurationOverAsWritten, GameManagers.GameManager.ExpireEffect | GameManagers.GameManager.EffectDurationOver |
| src/ratroyale/backend/game_manager.py:321-326 | a stronger effect of the same name records the old one but is not registered under the name | a stronger effect applied over a weaker one, then its expiry at turn end | the stronger effect becomes the registered one | medium; not executed | GameManagers.GameManager.ApplyEffectAsWritten, GameManagers.GameManager.StrongerEffectExpiryAsWritten | GameManagers.GameManager.ApplyEffect, GameManagers.GameManager.StrongerEffectExpiry |
| src/ratroyale/backend/entity.py:50 | `entity_data` appends to `Entity.skills`, one list shared by all classes | two decorated entity classes | each class gets its own skill list | high; not executed | Entities.RegisterSkillsAsWritten, Entities.SharedSkillListLeaks | Entities.ClassSkills |
| src/ratroyale/backend/tile.py:17 | `max` over the entities' heights raises on a tile with no entities | a tile with no entities | the tile's own height | high; not executed | Tiles.TotalHeightAsWritten, Tiles.EmptyTileHeightRaises, Boards.BlockedOnlyByClimb | Tiles.TotalHeight |
| src/ratroyale/backend/ai/base_ai.py:39 | the loop reads `game_manager.game_over_event`, which GameManager does not define | any AI turn | the loop stops on a pending game-over event | high; not executed | BaseAIs.RunAIAsWritten | BaseAIs.RunAI |
| src/ratroyale/frontend/pages/page_elements/element.py:84-85 | the circle's top-left corner is computed with `+ radius` on y | a circle of radius 5 at the origin, point (0, -5) | the corner is (x - r, y - r) | high; not executed | Elements.TopLeftAsWrittenMissesCircle, Elements.Element.AddChild | Elements.BoundingBoxCovers |
| src/ratroyale/frontend/pages/page_elements/element_manager.py:117-121 | the group dict is cleared inside the loop that iterates over it, so the second iteration raises RuntimeError | a group of two elements | every element of the group is removed from the flattened list, then the group is cleared | high; not executed | ElementManagers.ElementManager.ClearGroupByNameAsWritten, ElementManagers.ClearGroupAsWrittenLeaks | ElementManagers.ElementManager.ClearGroupByName, ElementManagers.WithoutKeepsSorted |
| src/ratroyale/frontend/pages/page_elements/element_group.py:63-67 | `clear` drops the elements but keeps the selection | a group with one selected card, `clear`, then `deselect_all` | the selection is emptied with the elements | high; not executed | ElementGroups.ElementGroup.ClearAsWritten, ElementGroups.ClearThenDeselectAll | ElementGroups.ElementGroup.Clear, ElementGroups.ElementGroup.DeselectAll |
| src/ratroyale/frontend/pages/page_managers/base_page.py:88-89 | `get_element` passes the id and the type to the element manager in swapped order | element "t1" of type "tile" | the type and the id in the manager's order | high; not executed | BasePages.Page.GetElementAsWritten, BasePages.SwappedLookupMisses, GameBoards.GameBoard.SelectElement | BasePages.Page.GetElement |
| src/ratroyale/frontend/pages/page_managers/base_page.py:108-117 | `setup_event_bindings` looks for the attributes `_input_bindings` and `_callback_bindings`, but the decorators (event_binder.py:19-21, 40-42) write `input_bindings` and `page_bindings` | the base page's `quit_game`, decorated `@input_event_bind(None, pygame.QUIT)` | every decorated method is bound to its keys | high; not executed | BasePages.SetupEventBindingsAsWritten, BasePages.AsWrittenBindsNothing, BasePages.QuitNeverBound | BasePages.SetupEventBindings, BasePages.SetupEventBindingsMeaning |
| src/ratroyale/frontend/visual/anim/core/sprite_anim.py:25-27 | `__post_init__` calls `get_key()` on the SpritesheetComponent, which has no such method | making any SpriteAnim | the component's sheet key is read from its reference | high; not executed | SpriteAnims.NewSpriteAnimAsWritten | SpriteAnims.NewSpriteAnim |
