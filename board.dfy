/**
 * The static board of game.js: the 24 x 25 grid, the nine rooms with their
 * squares, display areas, doors and secret passages, the blocked squares and
 * the envelope, and the geometric queries over them.
 */
module Board {
  import opened Wrappers

  const BoardCols := 24
  const BoardRows := 25

  /** A grid square, 1-based: columns A..X are 1..24, rows are 1..25. */
  datatype Square = Square(col: int, row: int)

  datatype Character = Mustard | Scarlett | Plum | Green | White | Peacock
  datatype Weapon = Candlestick | Knife | LeadPipe | Revolver | Rope | Wrench
  datatype Room = Kitchen | Ballroom | Conservatory | Billiard | Library | Study | Hall | Lounge | Dining

  /** The keys of CHARACTERS, the WEAPONS list and the ROOMS list, in source order. */
  const Characters: seq<Character> := [Mustard, Scarlett, Plum, Green, White, Peacock]
  const Weapons: seq<Weapon> := [Candlestick, Knife, LeadPipe, Revolver, Rope, Wrench]
  const Rooms: seq<Room> := [Kitchen, Ballroom, Conservatory, Billiard, Library, Study, Hall, Lounge, Dining]

  /**
   * Where a pawn stands: a hallway square (`room` is None), or inside a room,
   * in which case `sq` is only the display point the source stores beside the tag.
   */
  datatype Position = Position(sq: Square, room: Option<Room>)

  function HallwayAt(sq: Square): Position { Position(sq, None) }

  datatype Area = Area(minCol: int, minRow: int, maxCol: int, maxRow: int)
  datatype Door = Door(door: Square, hallway: Square)
  datatype SecretPassage = SecretPassage(passage: Square, destination: Room)

  function StartingSquare(c: Character): Square
  {
    match c
    case Mustard => Square(24, 8)
    case Scarlett => Square(17, 1)
    case Plum => Square(1, 6)
    case Green => Square(10, 25)
    case White => Square(15, 25)
    case Peacock => Square(1, 19)
  }

  function InitialWeaponRoom(w: Weapon): Room
  {
    match w
    case Candlestick => Kitchen
    case Knife => Ballroom
    case LeadPipe => Conservatory
    case Revolver => Billiard
    case Rope => Library
    case Wrench => Study
  }

  // ---------------------------------------------------------------------
  // Rectangles of squares
  // ---------------------------------------------------------------------

  /** The squares (col, minRow) .. (col, maxRow), top to bottom. */
  function Column(col: int, minRow: int, maxRow: int): seq<Square>
    decreases maxRow - minRow + 1
  {
    if maxRow < minRow then [] else Column(col, minRow, maxRow - 1) + [Square(col, maxRow)]
  }

  /** The rectangle's squares, column by column, as generateRectangle pushes them. */
  function Rectangle(minCol: int, minRow: int, maxCol: int, maxRow: int): seq<Square>
    decreases maxCol - minCol + 1
  {
    if maxCol < minCol then [] else Rectangle(minCol, minRow, maxCol - 1, maxRow) + Column(maxCol, minRow, maxRow)
  }

  predicate InArea(sq: Square, minCol: int, minRow: int, maxCol: int, maxRow: int)
  {
    minCol <= sq.col <= maxCol && minRow <= sq.row <= maxRow
  }

  /** The squares of a rectangle as a set: what the room and envelope lists are searched for. */
  function RectSet(minCol: int, minRow: int, maxCol: int, maxRow: int): set<Square>
  {
    set c: int, r: int | minCol <= c <= maxCol && minRow <= r <= maxRow :: Square(c, r)
  }

  lemma {:induction false} ColumnHas(sq: Square, col: int, minRow: int, maxRow: int)
    ensures sq in Column(col, minRow, maxRow) <==> sq.col == col && minRow <= sq.row <= maxRow
    decreases maxRow - minRow + 1
  {
    if minRow <= maxRow {
      ColumnHas(sq, col, minRow, maxRow - 1);
    }
  }

  /** A square is listed in a rectangle exactly when it lies within its bounds. */
  lemma {:induction false} RectangleHas(sq: Square, minCol: int, minRow: int, maxCol: int, maxRow: int)
    ensures sq in Rectangle(minCol, minRow, maxCol, maxRow) <==> InArea(sq, minCol, minRow, maxCol, maxRow)
    decreases maxCol - minCol + 1
  {
    if minCol <= maxCol {
      RectangleHas(sq, minCol, minRow, maxCol - 1, maxRow);
      ColumnHas(sq, maxCol, minRow, maxRow);
    }
  }

  /** generateRectangle: two nested loops pushing every square of the rectangle. */
  method GenerateRectangle(minCol: int, minRow: int, maxCol: int, maxRow: int) returns (squares: seq<Square>)
    ensures squares == Rectangle(minCol, minRow, maxCol, maxRow)
    ensures forall sq :: sq in squares <==> InArea(sq, minCol, minRow, maxCol, maxRow)
  {
    squares := [];
    var col := minCol;
    while col <= maxCol
      invariant minCol <= col <= maxCol + 1 || (maxCol < minCol && col == minCol)
      invariant squares == Rectangle(minCol, minRow, col - 1, maxRow)
      decreases maxCol - col + 1
    {
      var row := minRow;
      while row <= maxRow
        invariant minRow <= row <= maxRow + 1 || (maxRow < minRow && row == minRow)
        invariant squares == Rectangle(minCol, minRow, col - 1, maxRow) + Column(col, minRow, row - 1)
        decreases maxRow - row + 1
      {
        squares := squares + [Square(col, row)];
        row := row + 1;
      }
      col := col + 1;
    }
    forall sq ensures sq in squares <==> InArea(sq, minCol, minRow, maxCol, maxRow) {
      RectangleHas(sq, minCol, minRow, maxCol, maxRow);
    }
  }

  /** The list generateRectangle builds holds exactly the squares of RectSet. */
  lemma RectangleIsRectSet(minCol: int, minRow: int, maxCol: int, maxRow: int)
    ensures forall sq :: sq in Rectangle(minCol, minRow, maxCol, maxRow) <==> sq in RectSet(minCol, minRow, maxCol, maxRow)
  {
    forall sq ensures sq in Rectangle(minCol, minRow, maxCol, maxRow) <==> sq in RectSet(minCol, minRow, maxCol, maxRow) {
      RectangleHas(sq, minCol, minRow, maxCol, maxRow);
    }
  }

  // ---------------------------------------------------------------------
  // Board tables
  // ---------------------------------------------------------------------

  /**
   * ROOM_SQUARES[r].squares, as the set of squares the list holds (the list
   * is built by generateRectangle plus a few extra squares).
   */
  function RoomSquares(r: Room): set<Square>
  {
    match r
    case Study => RectSet(1, 1, 7, 4)
    case Hall => RectSet(10, 1, 15, 7)
    case Lounge => RectSet(18, 1, 24, 6)
    case Library =>
      RectSet(2, 7, 6, 11)
      + {Square(1, 8), Square(1, 9), Square(1, 10), Square(7, 8), Square(7, 9), Square(7, 10)}
    case Dining =>
      RectSet(17, 10, 24, 15)
      + {Square(20, 16), Square(21, 16), Square(22, 16), Square(23, 16), Square(24, 16)}
    case Billiard => RectSet(1, 13, 6, 17)
    case Conservatory =>
      RectSet(1, 21, 6, 24)
      + {Square(2, 20), Square(3, 20), Square(4, 20), Square(5, 20)}
    case Ballroom =>
      RectSet(9, 18, 16, 23)
      + {Square(11, 24), Square(12, 24), Square(13, 24), Square(14, 24),
         Square(11, 25), Square(12, 25), Square(13, 25), Square(14, 25)}
    case Kitchen => RectSet(19, 19, 24, 24)
  }

  /** ROOM_SQUARES[r].displayArea. */
  function DisplayArea(r: Room): Area
  {
    match r
    case Study => Area(1, 1, 7, 4)
    case Hall => Area(10, 1, 15, 7)
    case Lounge => Area(18, 1, 24, 6)
    case Library => Area(2, 7, 6, 11)
    case Dining => Area(17, 10, 24, 15)
    case Billiard => Area(1, 13, 6, 17)
    case Conservatory => Area(2, 21, 5, 24)
    case Ballroom => Area(9, 18, 16, 23)
    case Kitchen => Area(19, 19, 24, 24)
  }

  /** DOORS[r]: each door's room square and the hallway square in front of it. */
  function Doors(r: Room): seq<Door>
  {
    match r
    case Study => [Door(Square(7, 4), Square(7, 5))]
    case Hall =>
      [Door(Square(10, 5), Square(9, 5)), Door(Square(12, 7), Square(12, 8)), Door(Square(13, 7), Square(13, 8))]
    case Lounge => [Door(Square(18, 6), Square(18, 7))]
    case Library => [Door(Square(7, 9), Square(8, 9)), Door(Square(4, 11), Square(4, 12))]
    case Billiard => [Door(Square(2, 13), Square(2, 12)), Door(Square(6, 16), Square(7, 16))]
    case Dining => [Door(Square(17, 13), Square(16, 13)), Door(Square(18, 10), Square(18, 9))]
    case Conservatory => [Door(Square(5, 20), Square(6, 20))]
    case Ballroom =>
      [Door(Square(10, 18), Square(10, 17)), Door(Square(15, 18), Square(15, 17)),
       Door(Square(9, 20), Square(8, 20)), Door(Square(16, 20), Square(17, 20))]
    case Kitchen => [Door(Square(20, 19), Square(20, 18))]
  }

  /** SECRET_PASSAGES[r], present for the four corner rooms only. */
  function Passage(r: Room): Option<SecretPassage>
  {
    match r
    case Study => Some(SecretPassage(Square(1, 4), Kitchen))
    case Lounge => Some(SecretPassage(Square(24, 6), Conservatory))
    case Conservatory => Some(SecretPassage(Square(2, 20), Lounge))
    case Kitchen => Some(SecretPassage(Square(19, 24), Study))
    case _ => None
  }

  /** BLOCKED_SQUARES: walls and edges. */
  const BlockedSquares: seq<Square> := [
    Square(9, 1), Square(16, 1),
    Square(1, 5), Square(1, 7), Square(1, 11), Square(1, 12), Square(1, 18), Square(1, 20),
    Square(24, 7), Square(24, 9), Square(24, 17),
    Square(7, 24), Square(18, 24),
    Square(1, 25), Square(2, 25), Square(3, 25), Square(4, 25),
    Square(5, 25), Square(6, 25), Square(7, 25), Square(8, 25),
    Square(9, 25),
    Square(16, 25), Square(17, 25), Square(18, 25), Square(19, 25),
    Square(20, 25), Square(21, 25), Square(22, 25), Square(23, 25),
    Square(24, 25)
  ]

  /** ENVELOPE_SQUARES: the centre block J9-N15. */
  const EnvelopeSquares: set<Square> := RectSet(10, 9, 14, 15)

  // ---------------------------------------------------------------------
  // Geometric queries
  // ---------------------------------------------------------------------

  /**
   * isInRoom / getRoomAtPosition: the first room, in ROOM_SQUARES order,
   * whose square list holds the square.
   */
  function RoomAt(sq: Square): Option<Room>
  {
    if sq in RoomSquares(Study) then Some(Study)
    else if sq in RoomSquares(Hall) then Some(Hall)
    else if sq in RoomSquares(Lounge) then Some(Lounge)
    else if sq in RoomSquares(Library) then Some(Library)
    else if sq in RoomSquares(Dining) then Some(Dining)
    else if sq in RoomSquares(Billiard) then Some(Billiard)
    else if sq in RoomSquares(Conservatory) then Some(Conservatory)
    else if sq in RoomSquares(Ballroom) then Some(Ballroom)
    else if sq in RoomSquares(Kitchen) then Some(Kitchen)
    else None
  }

  predicate IsDoorOf(sq: Square, r: Room)
  {
    exists i :: 0 <= i < |Doors(r)| && Doors(r)[i].door == sq
  }

  /** isBlocked: a wall, the envelope, or a room square that is not one of its room's doors. */
  predicate IsBlocked(sq: Square)
  {
    || sq in BlockedSquares
    || sq in EnvelopeSquares
    || (RoomAt(sq).Some? && !IsDoorOf(sq, RoomAt(sq).value))
  }

  predicate InBounds(sq: Square)
  {
    1 <= sq.col <= BoardCols && 1 <= sq.row <= BoardRows
  }

  /** isWalkable: an in-bounds hallway square that is neither blocked nor in a room. */
  predicate IsWalkable(sq: Square)
  {
    InBounds(sq) && !IsBlocked(sq) && RoomAt(sq).None?
  }

  /** getRoomCenter: the floored midpoint of the room's display area. */
  function Center(r: Room): Square
  {
    var a := DisplayArea(r);
    Square((a.minCol + a.maxCol) / 2, (a.minRow + a.maxRow) / 2)
  }

  /** The position getRoomCenter(r) tagged with r: where a pawn inside r is put. */
  function InsideRoom(r: Room): Position
  {
    Position(Center(r), Some(r))
  }

  /** getStartingPosition: a copy of the character's starting square. */
  function StartingPosition(c: Character): Position
  {
    HallwayAt(StartingSquare(c))
  }

  // ---------------------------------------------------------------------
  // Lemmas about the tables
  // ---------------------------------------------------------------------

  /** The shape of each room's square list, as bounds. */
  predicate RoomShape(r: Room, sq: Square)
  {
    match r
    case Study => InArea(sq, 1, 1, 7, 4)
    case Hall => InArea(sq, 10, 1, 15, 7)
    case Lounge => InArea(sq, 18, 1, 24, 6)
    case Library => InArea(sq, 2, 7, 6, 11) || ((sq.col == 1 || sq.col == 7) && 8 <= sq.row <= 10)
    case Dining => InArea(sq, 17, 10, 24, 15) || (sq.row == 16 && 20 <= sq.col <= 24)
    case Billiard => InArea(sq, 1, 13, 6, 17)
    case Conservatory => InArea(sq, 1, 21, 6, 24) || (sq.row == 20 && 2 <= sq.col <= 5)
    case Ballroom => InArea(sq, 9, 18, 16, 23) || (11 <= sq.col <= 14 && 24 <= sq.row <= 25)
    case Kitchen => InArea(sq, 19, 19, 24, 24)
  }

  lemma RoomSquaresShape(r: Room, sq: Square)
    ensures sq in RoomSquares(r) <==> RoomShape(r, sq)
  {
  }

  lemma AllRoomShapes(sq: Square)
    ensures forall r :: sq in RoomSquares(r) <==> RoomShape(r, sq)
  {
    forall r ensures sq in RoomSquares(r) <==> RoomShape(r, sq) {
      RoomSquaresShape(r, sq);
    }
  }

  /**
   * The nine square lists are pairwise disjoint, so the first-match search of
   * isInRoom finds the one room that lists the square.
   */
  lemma RoomAtExact(sq: Square, r: Room)
    ensures RoomAt(sq) == Some(r) <==> sq in RoomSquares(r)
  {
    RoomAtListed(sq, r);
    if sq in RoomSquares(r) && RoomAt(sq).Some? {
      var found := RoomAt(sq).value;
      RoomSquaresShape(r, sq);
      RoomSquaresShape(found, sq);
      ShapesDisjoint(sq, r, found);
    }
  }

  /** The first-match search only answers a room that lists the square. */
  lemma RoomAtListed(sq: Square, r: Room)
    ensures RoomAt(sq).Some? ==> sq in RoomSquares(RoomAt(sq).value)
    ensures RoomAt(sq).None? ==> sq !in RoomSquares(r)
  {
    match r
    case Study =>
    case Hall =>
    case Lounge =>
    case Library =>
    case Dining =>
    case Billiard =>
    case Conservatory =>
    case Ballroom =>
    case Kitchen =>
  }

  /** No square has the shape of two rooms. */
  lemma ShapesDisjoint(sq: Square, r1: Room, r2: Room)
    requires RoomShape(r1, sq) && RoomShape(r2, sq)
    ensures r1 == r2
  {
  }

  lemma RoomAtNone(sq: Square)
    ensures RoomAt(sq).None? <==> forall r :: !RoomShape(r, sq)
  {
    AllRoomShapes(sq);
  }

  /** The centre of every room lies in its display area and in its own square list. */
  lemma CenterInOwnRoom(r: Room)
    ensures InArea(Center(r), DisplayArea(r).minCol, DisplayArea(r).minRow, DisplayArea(r).maxCol, DisplayArea(r).maxRow)
    ensures Center(r) in RoomSquares(r)
    ensures RoomAt(Center(r)) == Some(r)
  {
    RoomSquaresShape(r, Center(r));
    RoomAtExact(Center(r), r);
  }

  /** A walkable square is a hallway square: never inside any room, door squares included. */
  lemma WalkableIsHallway(sq: Square)
    requires IsWalkable(sq)
    ensures forall r :: sq !in RoomSquares(r) && !IsDoorOf(sq, r)
    ensures sq !in BlockedSquares && sq !in EnvelopeSquares
  {
    forall r ensures sq !in RoomSquares(r) && !IsDoorOf(sq, r) {
      RoomAtExact(sq, r);
      if IsDoorOf(sq, r) {
        var i :| 0 <= i < |Doors(r)| && Doors(r)[i].door == sq;
        DoorSquareInRoom(r, i);
      }
    }
  }

  /** The squares of BLOCKED_SQUARES, as bounds. */
  predicate BlockedShape(sq: Square)
  {
    || (sq.row == 25 && (1 <= sq.col <= 9 || 16 <= sq.col <= 24))
    || (sq.row == 1 && (sq.col == 9 || sq.col == 16))
    || (sq.col == 1 && (sq.row == 5 || sq.row == 7 || sq.row == 11 || sq.row == 12 || sq.row == 18 || sq.row == 20))
    || (sq.col == 24 && (sq.row == 7 || sq.row == 9 || sq.row == 17))
    || (sq.row == 24 && (sq.col == 7 || sq.col == 18))
  }

  lemma BlockedSquaresShape(sq: Square)
    ensures sq in BlockedSquares <==> BlockedShape(sq)
  {
  }

  /** Conditions, stated as bounds, under which a square is walkable. */
  lemma WalkableByBounds(sq: Square)
    requires InBounds(sq) && !BlockedShape(sq) && !InArea(sq, 10, 9, 14, 15)
    requires forall r :: !RoomShape(r, sq)
    ensures IsWalkable(sq)
  {
    BlockedSquaresShape(sq);
    RoomAtNone(sq);
  }

  lemma DoorSquareInRoom(r: Room, i: nat)
    requires i < |Doors(r)|
    ensures RoomAt(Doors(r)[i].door) == Some(r)
  {
    var sq := Doors(r)[i].door;
    RoomSquaresShape(r, sq);
    RoomAtExact(sq, r);
  }

  function Adjacent(a: Square, b: Square): bool
  {
    (a.col == b.col && (a.row - b.row == 1 || b.row - a.row == 1))
    || (a.row == b.row && (a.col - b.col == 1 || b.col - a.col == 1))
  }

  /**
   * Every door is a square of its own room that is not blocked (yet not
   * walkable), and it is next to its hallway square.
   */
  lemma DoorsWellPlaced(r: Room, i: nat)
    requires i < |Doors(r)|
    ensures RoomAt(Doors(r)[i].door) == Some(r)
    ensures !IsBlocked(Doors(r)[i].door) && !IsWalkable(Doors(r)[i].door)
    ensures Adjacent(Doors(r)[i].door, Doors(r)[i].hallway)
  {
    var sq := Doors(r)[i].door;
    DoorSquareInRoom(r, i);
    BlockedSquaresShape(sq);
    assert IsDoorOf(sq, r);
  }

  /** The hallway square in front of every door is walkable. */
  lemma DoorHallwaysWalkable(r: Room, i: nat)
    requires i < |Doors(r)|
    ensures IsWalkable(Doors(r)[i].hallway)
  {
    WalkableByBounds(Doors(r)[i].hallway);
  }

  /** Every starting square is a walkable hallway square, and no two coincide. */
  lemma StartingSquaresWalkable(c: Character)
    ensures IsWalkable(StartingSquare(c))
    ensures forall d :: d != c ==> StartingSquare(d) != StartingSquare(c)
  {
    var sq := StartingSquare(c);
    WalkableByBounds(sq);
  }

  /** Secret passages pair up: study with kitchen, lounge with conservatory. */
  lemma PassagesPair(r: Room)
    requires Passage(r).Some?
    ensures Passage(Passage(r).value.destination).Some?
    ensures Passage(Passage(r).value.destination).value.destination == r
    ensures Passage(r).value.destination != r
    ensures RoomAt(Passage(r).value.passage) == Some(r)
  {
    var p := Passage(r).value.passage;
    RoomSquaresShape(r, p);
    RoomAtExact(p, r);
  }

  // ---------------------------------------------------------------------
  // Initial pawn and weapon placement
  // ---------------------------------------------------------------------

  /** The three lists name every suspect, weapon and room. */
  lemma AllListed()
    ensures forall c: Character :: c in Characters
    ensures forall w: Weapon :: w in Weapons
    ensures forall r: Room :: r in Rooms
  {
    forall c: Character ensures c in Characters {
      assert c == Mustard || c == Scarlett || c == Plum || c == Green || c == White || c == Peacock;
    }
    forall w: Weapon ensures w in Weapons {
      assert w == Candlestick || w == Knife || w == LeadPipe || w == Revolver || w == Rope || w == Wrench;
    }
    forall r: Room ensures r in Rooms {
      assert r == Kitchen || r == Ballroom || r == Conservatory || r == Billiard || r == Library
        || r == Study || r == Hall || r == Lounge || r == Dining;
    }
  }

  /** The pawn map initializePawns builds: every character on its starting square. */
  function StartingPawns(): map<Character, Position>
  {
    map c | c in Characters :: StartingPosition(c)
  }

  /** The weapon map initializeWeapons builds. */
  function StartingWeapons(): map<Weapon, Room>
  {
    map w | w in Weapons :: InitialWeaponRoom(w)
  }

  /** initializePawns: one entry per starting position, in table order. */
  method InitializePawns() returns (pawns: map<Character, Position>)
    ensures pawns == StartingPawns()
    ensures forall c :: c in pawns && pawns[c] == HallwayAt(StartingSquare(c))
  {
    pawns := map[];
    for k := 0 to |Characters|
      invariant pawns == map c | c in Characters[..k] :: StartingPosition(c)
    {
      pawns := pawns[Characters[k] := StartingPosition(Characters[k])];
    }
    assert Characters[..|Characters|] == Characters;
    AllListed();
  }

  /** initializeWeapons: one entry per weapon, in table order. */
  method InitializeWeapons() returns (weapons: map<Weapon, Room>)
    ensures weapons == StartingWeapons()
    ensures forall w :: w in weapons && weapons[w] == InitialWeaponRoom(w)
  {
    weapons := map[];
    for k := 0 to |Weapons|
      invariant weapons == map w | w in Weapons[..k] :: InitialWeaponRoom(w)
    {
      weapons := weapons[Weapons[k] := InitialWeaponRoom(Weapons[k])];
    }
    assert Weapons[..|Weapons|] == Weapons;
    AllListed();
  }
}
