/**
 * Movement rules of game.js: occupancy by other pawns, the breadth-first
 * path search, the unblocked exits of a room, the move validator with its
 * dice budget and the secret passages.
 */
module Movement {
  import opened Wrappers
  import opened Board

  /** The pawn map of a session: where each character's pawn stands. */
  type Pawns = map<Character, Position>

  /** Pawn `c`, not the mover's, stands on the hallway square `sq`. */
  predicate BlocksSquare(pawns: Pawns, c: Character, mover: Character, sq: Square)
  {
    c in pawns && c != mover && pawns[c].room.None? && pawns[c].sq == sq
  }

  /** Another pawn stands on `sq` outside any room. */
  predicate OccupiedByOther(sq: Square, pawns: Pawns, mover: Character)
  {
    exists c :: BlocksSquare(pawns, c, mover, sq)
  }

  /**
   * The pawn scan repeated in findPath, validateMove and getAllExitHallways:
   * walk over the pawn map and stop at the first other pawn on `sq`.
   */
  method PawnBlocks(sq: Square, pawns: Pawns, mover: Character) returns (blocked: bool)
    ensures blocked <==> OccupiedByOther(sq, pawns, mover)
  {
    var rest := pawns.Keys;
    while rest != {}
      invariant rest <= pawns.Keys
      invariant forall c :: c in pawns && c !in rest ==> !BlocksSquare(pawns, c, mover, sq)
      decreases |rest|
    {
      var c :| c in rest;
      if c != mover && pawns[c].room.None? && pawns[c].sq == sq {
        assert BlocksSquare(pawns, c, mover, sq);
        return true;
      }
      rest := rest - {c};
    }
    return false;
  }

  // ---------------------------------------------------------------------
  // findPath
  // ---------------------------------------------------------------------

  /** A square a path may step onto: walkable and free of other hallway pawns. */
  predicate Passable(sq: Square, pawns: Pawns, mover: Character)
  {
    IsWalkable(sq) && !OccupiedByOther(sq, pawns, mover)
  }

  /**
   * A path from `start` to `end` in 4-neighbour steps, every square after the
   * start passable. The start itself may be any square (a pawn's own square).
   */
  predicate SoundPath(path: seq<Square>, start: Square, end: Square, pawns: Pawns, mover: Character)
  {
    && |path| >= 1
    && path[0] == start
    && path[|path| - 1] == end
    && (forall k :: 0 <= k < |path| - 1 ==> Adjacent(path[k], path[k + 1]))
    && (forall k :: 1 <= k < |path| ==> Passable(path[k], pawns, mover))
  }

  datatype PathResult = PathResult(distance: nat, path: seq<Square>)

  /** A queue entry of the search: a square, its distance and the path to it. */
  datatype Entry = Entry(pos: Square, dist: nat, path: seq<Square>)

  predicate GoodEntry(e: Entry, start: Square, pawns: Pawns, mover: Character)
  {
    SoundPath(e.path, start, e.pos, pawns, mover) && |e.path| == e.dist + 1
  }

  /** The four neighbours in the order findPath tries them: up, down, left, right. */
  function Neighbours(pos: Square): (ns: seq<Square>)
    ensures |ns| == 4 && forall k :: 0 <= k < 4 ==> Adjacent(pos, ns[k])
  {
    [Square(pos.col, pos.row - 1), Square(pos.col, pos.row + 1),
     Square(pos.col - 1, pos.row), Square(pos.col + 1, pos.row)]
  }

  lemma ExtendSound(e: Entry, next: Square, start: Square, pawns: Pawns, mover: Character)
    requires GoodEntry(e, start, pawns, mover)
    requires Adjacent(e.pos, next) && Passable(next, pawns, mover)
    ensures GoodEntry(Entry(next, e.dist + 1, e.path + [next]), start, pawns, mover)
  {
  }

  lemma {:induction false} SubsetCardLe(a: set<Square>, b: set<Square>)
    requires a <= b
    ensures |a| <= |b|
    decreases |b|
  {
    if a != {} {
      var x :| x in a;
      SubsetCardLe(a - {x}, b - {x});
    }
  }

  /** Visiting a new square shrinks the set of squares left to visit. */
  lemma SubsetCard(u: set<Square>, a: set<Square>, b: set<Square>)
    requires a < b && b <= u
    ensures |u - b| < |u - a|
  {
    var x :| x in b && x !in a;
    assert x in u - a;
    assert u - b <= (u - a) - {x};
    assert |(u - a) - {x}| == |u - a| - 1;
    SubsetCardLe(u - b, (u - a) - {x});
  }

  /**
   * findPath: breadth-first search over walkable squares, skipping squares
   * held by other hallway pawns. A returned path is sound and its distance
   * is its number of steps; a search from a square to itself returns at once.
   */
  method FindPath(start: Square, end: Square, pawns: Pawns, mover: Character) returns (r: Option<PathResult>)
    ensures r.Some? ==> SoundPath(r.value.path, start, end, pawns, mover)
    ensures r.Some? ==> |r.value.path| == r.value.distance + 1
    ensures start == end ==> r == Some(PathResult(0, [start]))
  {
    var queue := [Entry(start, 0, [start])];
    var visited := {start};
    ghost var universe := RectSet(1, 1, BoardCols, BoardRows) + {start};
    while |queue| > 0
      invariant visited <= universe
      invariant forall k :: 0 <= k < |queue| ==> GoodEntry(queue[k], start, pawns, mover)
      invariant start == end ==> queue == [Entry(start, 0, [start])]
      decreases |universe - visited|, |queue|
    {
      var e := queue[0];
      queue := queue[1..];
      if e.pos == end {
        return Some(PathResult(e.dist, e.path));
      }
      var directions := Neighbours(e.pos);
      ghost var visited0, queue0 := visited, queue;
      for d := 0 to 4
        invariant visited0 <= visited <= universe
        invariant visited == visited0 ==> queue == queue0
        invariant forall k :: 0 <= k < |queue| ==> GoodEntry(queue[k], start, pawns, mover)
      {
        var next := directions[d];
        if next in visited {
          continue;
        }
        if !IsWalkable(next) {
          continue;
        }
        var blocked := PawnBlocks(next, pawns, mover);
        if blocked {
          continue;
        }
        assert next in RectSet(1, 1, BoardCols, BoardRows);
        ExtendSound(e, next, start, pawns, mover);
        visited := visited + {next};
        queue := queue + [Entry(next, e.dist + 1, e.path + [next])];
      }
      if visited != visited0 {
        SubsetCard(universe, visited0, visited);
      }
    }
    return None;
  }

  // ---------------------------------------------------------------------
  // getAllExitHallways
  // ---------------------------------------------------------------------

  /** The hallway squares of `doors` not held by another pawn, in door order. */
  function ExitsAmong(doors: seq<Door>, pawns: Pawns, mover: Character): seq<Square>
  {
    if |doors| == 0 then []
    else
      var last := doors[|doors| - 1];
      ExitsAmong(doors[..|doors| - 1], pawns, mover)
        + (if OccupiedByOther(last.hallway, pawns, mover) then [] else [last.hallway])
  }

  function UnblockedExits(r: Room, pawns: Pawns, mover: Character): seq<Square>
  {
    ExitsAmong(Doors(r), pawns, mover)
  }

  lemma {:induction false} ExitsAmongHas(doors: seq<Door>, pawns: Pawns, mover: Character, sq: Square)
    ensures sq in ExitsAmong(doors, pawns, mover) <==>
      !OccupiedByOther(sq, pawns, mover) && exists i :: 0 <= i < |doors| && doors[i].hallway == sq
    ensures |ExitsAmong(doors, pawns, mover)| <= |doors|
  {
    if |doors| > 0 {
      var front := doors[..|doors| - 1];
      ExitsAmongHas(front, pawns, mover, sq);
      if exists i :: 0 <= i < |front| && front[i].hallway == sq {
        var i :| 0 <= i < |front| && front[i].hallway == sq;
        assert doors[i].hallway == sq;
      }
    }
  }

  /**
   * The exits of a room are exactly its door hallway squares free of other
   * hallway pawns, and each of them is walkable.
   */
  lemma UnblockedExitsHas(r: Room, pawns: Pawns, mover: Character, sq: Square)
    ensures sq in UnblockedExits(r, pawns, mover) <==>
      !OccupiedByOther(sq, pawns, mover) && exists i :: 0 <= i < |Doors(r)| && Doors(r)[i].hallway == sq
    ensures sq in UnblockedExits(r, pawns, mover) ==> Passable(sq, pawns, mover)
  {
    ExitsAmongHas(Doors(r), pawns, mover, sq);
    if sq in UnblockedExits(r, pawns, mover) {
      var i :| 0 <= i < |Doors(r)| && Doors(r)[i].hallway == sq;
      DoorHallwaysWalkable(r, i);
    }
  }

  /** getAllExitHallways: collect the free door hallway squares of a room. */
  method GetAllExitHallways(r: Room, pawns: Pawns, mover: Character) returns (unblocked: seq<Square>)
    ensures unblocked == UnblockedExits(r, pawns, mover)
    ensures forall sq :: sq in unblocked ==> Passable(sq, pawns, mover)
  {
    var roomDoors := Doors(r);
    unblocked := [];
    for i := 0 to |roomDoors|
      invariant unblocked == ExitsAmong(roomDoors[..i], pawns, mover)
    {
      assert roomDoors[..i + 1][..i] == roomDoors[..i];
      var blocked := PawnBlocks(roomDoors[i].hallway, pawns, mover);
      if !blocked {
        unblocked := unblocked + [roomDoors[i].hallway];
      }
    }
    assert roomDoors[..|roomDoors|] == roomDoors;
    forall sq | sq in unblocked ensures Passable(sq, pawns, mover) {
      UnblockedExitsHas(r, pawns, mover, sq);
    }
  }

  // ---------------------------------------------------------------------
  // validateMove
  // ---------------------------------------------------------------------

  /** Leaving a room costs one step. */
  function ExitCost(current: Position): nat
  {
    if current.room.Some? then 1 else 0
  }

  /** Where a move may start: the free exits of the current room, or the pawn's own square. */
  function Starts(current: Position, pawns: Pawns, mover: Character): seq<Square>
  {
    if current.room.Some? then UnblockedExits(current.room.value, pawns, mover) else [current.sq]
  }

  datatype MoveError =
    | AllExitsBlocked
    | CannotReachRoom
    | NotWalkable
    | Occupied
    | NoPath
    | TooFar(distance: int, roll: int)

  datatype MoveResult =
    | ValidMove(newPosition: Position, enteredRoom: Option<Room>, path: seq<Square>)
    | InvalidMove(error: MoveError)

  /**
   * `path` enters room `tr` through its door `i`: it runs from a start to the
   * door's free hallway square, and with the exit and entry steps it fits the roll.
   */
  predicate EntryVia(path: seq<Square>, current: Position, tr: Room, i: nat, dice: int,
                     pawns: Pawns, mover: Character)
    requires i < |Doors(tr)|
  {
    var h := Doors(tr)[i].hallway;
    && !OccupiedByOther(h, pawns, mover)
    && |path| >= 1
    && path[0] in Starts(current, pawns, mover)
    && SoundPath(path, path[0], h, pawns, mover)
    && |path| - 1 + ExitCost(current) + 1 <= dice
  }

  /** `path` runs from a start to `target` in `distance` steps. */
  predicate HallwayRoute(path: seq<Square>, current: Position, target: Square, distance: int,
                         pawns: Pawns, mover: Character)
  {
    && |path| >= 1
    && path[0] in Starts(current, pawns, mover)
    && SoundPath(path, path[0], target, pawns, mover)
    && |path| - 1 == distance
  }

  /** A route to `target` whose steps plus the exit step come to `cost`. */
  predicate RouteCosting(path: seq<Square>, current: Position, target: Square, cost: int,
                         pawns: Pawns, mover: Character)
  {
    HallwayRoute(path, current, target, cost - ExitCost(current), pawns, mover)
  }

  /**
   * validateMove. A target square in a room asks for the shortest path,
   * within the roll, from any start to the hallway square of any free door
   * of that room; a hallway target must be walkable and free, and the
   * shortest path from any start plus the exit step must fit the roll.
   */
  method ValidateMove(current: Position, target: Square, dice: int, pawns: Pawns, mover: Character)
    returns (r: MoveResult)
    // Target in a room
    ensures RoomAt(target).Some? ==>
      (r == InvalidMove(AllExitsBlocked) <==> |Starts(current, pawns, mover)| == 0)
    ensures RoomAt(target).Some? && r.InvalidMove? ==>
      r.error == AllExitsBlocked || r.error == CannotReachRoom
    ensures RoomAt(target).Some? && r.ValidMove? ==>
      && r.newPosition == InsideRoom(RoomAt(target).value)
      && r.enteredRoom == RoomAt(target)
      && exists i :: 0 <= i < |Doors(RoomAt(target).value)|
           && EntryVia(r.path, current, RoomAt(target).value, i, dice, pawns, mover)
    // Target in the hallway
    ensures RoomAt(target).None? ==>
      (r == InvalidMove(NotWalkable) <==> !IsWalkable(target))
    ensures RoomAt(target).None? ==>
      (r == InvalidMove(Occupied) <==> IsWalkable(target) && OccupiedByOther(target, pawns, mover))
    ensures RoomAt(target).None? ==>
      (r == InvalidMove(AllExitsBlocked) <==>
        Passable(target, pawns, mover) && |Starts(current, pawns, mover)| == 0)
    ensures RoomAt(target).None? && r.ValidMove? ==>
      && Passable(target, pawns, mover)
      && r.newPosition == HallwayAt(target)
      && r.enteredRoom == None
      && HallwayRoute(r.path, current, target, |r.path| - 1, pawns, mover)
      && |r.path| - 1 + ExitCost(current) <= dice
    ensures RoomAt(target).None? && r.InvalidMove? && r.error.TooFar? ==>
      && r.error.roll == dice
      && r.error.distance > dice
      && exists path :: RouteCosting(path, current, target, r.error.distance, pawns, mover)
  {
    var targetRoom := RoomAt(target);
    var exitCost := ExitCost(current);
    var startPositions: seq<Square>;
    if current.room.Some? {
      startPositions := GetAllExitHallways(current.room.value, pawns, mover);
    } else {
      startPositions := [current.sq];
    }

    if targetRoom.Some? {
      var tr := targetRoom.value;
      if |startPositions| == 0 {
        return InvalidMove(AllExitsBlocked);
      }
      var bestPath := BestRoomEntry(current, tr, dice, pawns, mover, startPositions);
      if bestPath.Some? {
        return ValidMove(InsideRoom(tr), Some(tr), bestPath.value.path);
      }
      return InvalidMove(CannotReachRoom);
    } else {
      if !IsWalkable(target) {
        return InvalidMove(NotWalkable);
      }
      var occupied := PawnBlocks(target, pawns, mover);
      if occupied {
        return InvalidMove(Occupied);
      }
      if |startPositions| == 0 {
        return InvalidMove(AllExitsBlocked);
      }
      var bestPath := BestHallwayRoute(current, target, pawns, mover, startPositions);
      if bestPath.None? {
        return InvalidMove(NoPath);
      }
      var totalDistance := bestPath.value.distance + exitCost;
      if totalDistance > dice {
        assert RouteCosting(bestPath.value.path, current, target, totalDistance, pawns, mover);
        return InvalidMove(TooFar(totalDistance, dice));
      }
      return ValidMove(HallwayAt(target), None, bestPath.value.path);
    }
  }

  /**
   * The room branch of validateMove: over every free door and every start,
   * keep the shortest path to the door's hallway square that, with the exit
   * step and the step into the room, fits the roll.
   */
  method BestRoomEntry(current: Position, tr: Room, dice: int, pawns: Pawns, mover: Character,
                       startPositions: seq<Square>)
    returns (bestPath: Option<PathResult>)
    requires startPositions == Starts(current, pawns, mover)
    ensures bestPath.Some? ==>
      exists k :: 0 <= k < |Doors(tr)| && EntryVia(bestPath.value.path, current, tr, k, dice, pawns, mover)
  {
    var roomDoors := Doors(tr);
    var totalExtraCost := ExitCost(current) + 1;
    bestPath := None;
    for i := 0 to |roomDoors|
      invariant bestPath.Some? ==> |bestPath.value.path| == bestPath.value.distance + 1
      invariant bestPath.Some? ==>
        exists k :: 0 <= k < |roomDoors| && EntryVia(bestPath.value.path, current, tr, k, dice, pawns, mover)
    {
      var doorBlocked := PawnBlocks(roomDoors[i].hallway, pawns, mover);
      if doorBlocked {
        continue;
      }
      for j := 0 to |startPositions|
        invariant bestPath.Some? ==> |bestPath.value.path| == bestPath.value.distance + 1
        invariant bestPath.Some? ==>
          exists k :: 0 <= k < |roomDoors| && EntryVia(bestPath.value.path, current, tr, k, dice, pawns, mover)
      {
        var path := FindPath(startPositions[j], roomDoors[i].hallway, pawns, mover);
        if path.Some? && path.value.distance + totalExtraCost <= dice {
          if bestPath.None? || path.value.distance < bestPath.value.distance {
            bestPath := path;
            assert EntryVia(bestPath.value.path, current, tr, i, dice, pawns, mover);
          }
        }
      }
    }
  }

  /** The hallway branch of validateMove: the shortest path to `target` from any start. */
  method BestHallwayRoute(current: Position, target: Square, pawns: Pawns, mover: Character,
                          startPositions: seq<Square>)
    returns (bestPath: Option<PathResult>)
    requires startPositions == Starts(current, pawns, mover)
    ensures bestPath.Some? ==>
      HallwayRoute(bestPath.value.path, current, target, bestPath.value.distance, pawns, mover)
  {
    bestPath := None;
    for j := 0 to |startPositions|
      invariant bestPath.Some? ==>
        HallwayRoute(bestPath.value.path, current, target, bestPath.value.distance, pawns, mover)
    {
      var path := FindPath(startPositions[j], target, pawns, mover);
      if path.Some? && (bestPath.None? || path.value.distance < bestPath.value.distance) {
        bestPath := path;
      }
    }
  }

  // ---------------------------------------------------------------------
  // useSecretPassage
  // ---------------------------------------------------------------------

  datatype PassageError = NotInRoom | NoSecretPassage

  datatype PassageResult =
    | PassageTaken(newPosition: Position, destinationRoom: Room)
    | PassageRefused(error: PassageError)

  /**
   * useSecretPassage: from a room with a passage, land on the centre of the
   * destination room; refuse outside rooms and in rooms without one.
   */
  function UseSecretPassage(current: Position): (r: PassageResult)
    ensures r == PassageRefused(NotInRoom) <==> current.room.None?
    ensures r == PassageRefused(NoSecretPassage) <==> current.room.Some? && Passage(current.room.value).None?
    ensures r.PassageTaken? ==>
      && Passage(current.room.value).Some?
      && r.destinationRoom == Passage(current.room.value).value.destination
      && r.newPosition == InsideRoom(r.destinationRoom)
      && r.destinationRoom != current.room.value
      && RoomAt(r.newPosition.sq) == Some(r.destinationRoom)
  {
    if current.room.None? then PassageRefused(NotInRoom)
    else
      var passage := Passage(current.room.value);
      if passage.None? then PassageRefused(NoSecretPassage)
      else
        PassagesPair(current.room.value);
        CenterInOwnRoom(passage.value.destination);
        PassageTaken(InsideRoom(passage.value.destination), passage.value.destination)
  }

  /** Taking a secret passage twice brings the pawn back to the room it left, at its centre. */
  lemma PassageRoundTrip(current: Position)
    requires UseSecretPassage(current).PassageTaken?
    ensures UseSecretPassage(UseSecretPassage(current).newPosition)
      == PassageTaken(InsideRoom(current.room.value), current.room.value)
  {
    PassagesPair(current.room.value);
  }
}
