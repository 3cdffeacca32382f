/**
 * The per-room session record of server.js and the socket handlers that
 * mutate it, from join-room to disconnect, with the helpers
 * continueDisproving and endTurn. One Session object stands for one entry
 * of the room registry; `open` says whether that entry exists.
 */
module Server {
  import opened Wrappers
  import opened Board
  import opened Deck
  import opened Movement
  import opened Roster

  /** room.pendingSuggestion: the suggestion being disproved and the disproof cursor. */
  datatype Suggestion = Suggestion(suggesterId: SocketId, suggesterName: string,
                                   suspect: Character, weapon: Weapon, room: Room,
                                   currentDisproverIndex: nat, disproved: bool)

  datatype TurnPhase = Roll | Move | Suggest | End
  datatype GamePhase = Lobby | Playing | Finished

  /** The error messages a handler sends back instead of acting. */
  datatype Refusal =
    | InvalidRoomCode | GameAlreadyStarted | RoomFull | NameAlreadyTaken
    | NotHost | NotEnoughPlayers
    | NotYourTurn | CannotRollNow | CannotMoveNow | MoveRefused(error: MoveError)
    | ReenterSameRoom | CannotUsePassageNow | PassageRefusedBy(reason: PassageError)
    | CannotStayPutNow | NotInRoomToStay | CannotSuggestNow | NotInRoomToSuggest
    | NotYourTurnToDisprove | CardNotInHand | CardDoesNotMatch
    | AlreadyAccused | MustSuggestFirst

  /**
   * What a handler did: acted, answered with an error message and changed
   * nothing, or returned silently and changed nothing.
   */
  datatype Reply = Ok | Refused(reason: Refusal) | Ignored

  const MaxPlayers := 6
  const MinPlayers := 3

  /** parseInt(roomCode) is a number in 1..999; None stands for NaN. */
  predicate ValidRoomCode(code: Option<int>)
  {
    code.Some? && 1 <= code.value <= 999
  }

  /** A card the suggestion names: its suspect, its weapon or its room. */
  predicate Matches(card: Card, s: Suggestion)
  {
    card == SuspectCard(s.suspect) || card == WeaponCard(s.weapon) || card == RoomCard(s.room)
  }

  /**
   * The index of the player asked to disprove: the cursor counts places after
   * the suggester, round the table.
   */
  function DisproverIndex(players: seq<Player>, s: Suggestion): (r: nat)
    requires |players| >= 1
    ensures r < |players|
    ensures IndexOf(players, s.suggesterId) >= 0 && s.currentDisproverIndex < |players| - 1 ==>
      r != IndexOf(players, s.suggesterId)
  {
    var si := IndexOf(players, s.suggesterId);
    var r := (si + 1 + s.currentDisproverIndex) % |players|;
    if si >= 0 && s.currentDisproverIndex < |players| - 1 then
      DisproversGoRound(si, |players|, s.currentDisproverIndex, s.currentDisproverIndex);
      r
    else r
  }

  /**
   * While the round is under way, the player asked is never the suggester, and
   * two cursors ask two different players: nobody is asked twice.
   */
  lemma DisproverNeverRepeats(players: seq<Player>, s: Suggestion, k1: nat, k2: nat)
    requires |players| >= 1 && IndexOf(players, s.suggesterId) >= 0
    requires k1 < |players| - 1 && k2 < |players| - 1
    ensures DisproverIndex(players, s.(currentDisproverIndex := k1)) != IndexOf(players, s.suggesterId)
    ensures k1 != k2 ==>
      DisproverIndex(players, s.(currentDisproverIndex := k1)) != DisproverIndex(players, s.(currentDisproverIndex := k2))
  {
    DisproversGoRound(IndexOf(players, s.suggesterId), |players|, k1, k2);
  }

  /** What a player record carries from the lobby into the game: id, name and accusation flag. */
  function Who(p: Player): (SocketId, string, bool) { (p.id, p.name, p.hasAccused) }

  /** A reordering keeps hand sizes within one of each other. */
  lemma BalancedPermutes(h: seq<seq<Card>>, r: seq<seq<Card>>)
    requires multiset(r) == multiset(h) && Balanced(h)
    ensures Balanced(r)
  {
    forall i, j | 0 <= i < |r| && 0 <= j < |r| ensures |r[i]| <= |r[j]| + 1 {
      assert r[i] in multiset(h) && r[j] in multiset(h);
      var a :| 0 <= a < |h| && h[a] == r[i];
      var b :| 0 <= b < |h| && h[b] == r[j];
    }
  }

  /** Reordering the hands for the turn order keeps the cards they hold together. */
  lemma HandsMoveToFront(h: seq<seq<Card>>, i: nat)
    requires i < |h|
    ensures HandsMultiset(MoveToFront(h, i)) == HandsMultiset(h)
  {
    MoveToFrontSplit(h, i);
    HandsExchange(h, MoveToFront(h, i), h[..i], [h[i]], h[i + 1..]);
  }

  /** Moving one element to the front permutes any field of the elements too. */
  lemma MoveToFrontMapped<T, U>(f: T -> U, s: seq<T>, i: nat)
    requires i < |s|
    ensures Map(f, MoveToFront(s, i)) == MoveToFront(Map(f, s), i)
    ensures multiset(Map(f, MoveToFront(s, i))) == multiset(Map(f, s))
    ensures Distinct(Map(f, s)) ==> Distinct(Map(f, MoveToFront(s, i)))
  {
    MoveToFrontPermutes(f, s, i);
    MoveToFrontPermutes((u: U) => u, Map(f, s), i);
  }

  /** A reordering of cast players leaves them cast. */
  lemma CastPermutes(s: seq<Player>, r: seq<Player>)
    requires multiset(r) == multiset(s) && AllCast(s)
    ensures AllCast(r)
  {
    forall i | 0 <= i < |r| ensures Cast(r[i]) {
      assert r[i] in multiset(s);
    }
  }

  /**
   * Every player of the table stands on the starting square of their
   * character.
   */
  predicate AtStart(players: seq<Player>)
  {
    forall i :: 0 <= i < |players| ==>
      players[i].character.Some? && players[i].position == Some(StartingPosition(players[i].character.value))
  }

  lemma AtStartPermutes(s: seq<Player>, r: seq<Player>)
    requires multiset(r) == multiset(s) && AtStart(s)
    ensures AtStart(r)
  {
    forall i | 0 <= i < |r|
      ensures r[i].character.Some? && r[i].position == Some(StartingPosition(r[i].character.value))
    {
      assert r[i] in multiset(s);
    }
  }

  /**
   * The first steps of start-game: assignCharacters, the forEach giving each
   * player a character and its starting square, and the shuffle of the turn order.
   */
  method SeatAndShuffle(players: seq<Player>, characterDraws: seq<nat>, turnDraws: seq<nat>)
    returns (order: seq<Player>)
    requires |players| <= MaxPlayers
    requires DrawsFor(characterDraws, |Characters|) && DrawsFor(turnDraws, |players|)
    ensures |order| == |players|
    ensures multiset(Map(Who, order)) == multiset(Map(Who, players))
    ensures AllCast(order) && DistinctCharacters(order) && AtStart(order)
  {
    var chars := AssignCharacters(|players|, characterDraws);
    var seated := SeatPlayers(players, chars);
    assert AtStart(seated);
    assert Map(Who, seated) == Map(Who, players);
    order := ShuffleSeq(seated, turnDraws);
    ShuffledPermutes(Map(CharacterOf, seated), turnDraws);
    ShuffledMap(CharacterOf, seated, turnDraws);
    ShuffledPermutes(Map(Who, seated), turnDraws);
    ShuffledMap(Who, seated, turnDraws);
    CastPermutes(seated, order);
    AtStartPermutes(seated, order);
  }

  /**
   * initializePawns and the forEach putting each player's pawn on the
   * player's position: with every player on their starting square, that is
   * the starting pawn map itself.
   */
  method PlaceStartingPawns(order: seq<Player>) returns (pawns: Pawns)
    requires AllCast(order) && DistinctCharacters(order) && AtStart(order)
    ensures pawns == StartingPawns()
    ensures forall c :: c in pawns && pawns[c] == StartingPosition(c)
  {
    pawns := PlacePawns(order);
    forall c ensures c in pawns && pawns[c] == StartingPosition(c) {
      if i :| 0 <= i < |order| && order[i].character == Some(c) {
        assert pawns[order[i].character.value] == order[i].position.value;
      }
    }
    AllListed();
  }

  /** dealCards and the forEach handing player `i` hand `i`. */
  method DealHands(order: seq<Player>, suspectDraws: seq<nat>, weaponDraws: seq<nat>,
                   roomDraws: seq<nat>, restDraws: seq<nat>)
    returns (table: seq<Player>, solution: Solution)
    requires |order| >= 1
    requires AllCast(order) && DistinctCharacters(order) && AtStart(order)
    requires DrawsFor(suspectDraws, 6) && DrawsFor(weaponDraws, 6)
    requires DrawsFor(roomDraws, 9) && DrawsFor(restDraws, 18)
    ensures |table| == |order|
    ensures Map(Who, table) == Map(Who, order)
    ensures AllCast(table) && DistinctCharacters(table) && AtStart(table)
    ensures HandsMultiset(Map(CardsOf, table)) + multiset(SolutionCards(solution)) == multiset(FullDeck())
    ensures Balanced(Map(CardsOf, table))
  {
    var hands;
    solution, hands := DealCards(|order|, suspectDraws, weaponDraws, roomDraws, restDraws);
    table := HandOut(order, hands);
    forall i | 0 <= i < |table| ensures table[i].character == order[i].character && table[i].position == order[i].position {
      assert table[i] == order[i].(cards := hands[i]);
    }
    assert Map(Who, table) == Map(Who, order);
  }

  /**
   * The find of Miss Scarlett's player and its splice/unshift to the front
   * of the turn order; the table is otherwise only reordered.
   */
  method ScarlettFirst(table: seq<Player>) returns (front: seq<Player>)
    requires AllCast(table) && DistinctCharacters(table) && AtStart(table)
    requires Balanced(Map(CardsOf, table))
    ensures |front| == |table|
    ensures multiset(Map(Who, front)) == multiset(Map(Who, table))
    ensures AllCast(front) && DistinctCharacters(front) && AtStart(front)
    ensures (exists i :: 0 <= i < |front| && front[i].character == Some(Scarlett)) ==>
      front[0].character == Some(Scarlett)
    ensures HandsMultiset(Map(CardsOf, front)) == HandsMultiset(Map(CardsOf, table))
    ensures Balanced(Map(CardsOf, front))
  {
    var si := FindIndex(table, (p: Player) => p.character == Some(Scarlett));
    if si >= 0 {
      var hands := Map(CardsOf, table);
      front := MoveToFront(table, si);
      MoveToFrontMapped(Who, table, si);
      MoveToFrontMapped(CharacterOf, table, si);
      MoveToFrontMapped(CardsOf, table, si);
      MoveToFrontPermutes(CardsOf, table, si);
      HandsMoveToFront(hands, si);
      CastPermutes(table, front);
      AtStartPermutes(table, front);
      BalancedPermutes(hands, Map(CardsOf, front));
    } else {
      front := table;
    }
  }

  /** The socket is one of the players (the find of the handlers succeeds). */
  predicate Seated(players: seq<Player>, id: SocketId)
  {
    IndexOf(players, id) >= 0
  }

  /**
   * What start-game makes of the lobby's players `before`: the same players
   * (id, name and accusation flag) in some order, each with a character of
   * their own, standing on its starting square; Miss Scarlett's player first
   * whenever somebody plays her; hands that with the solution hold every card
   * of the deck exactly once, their sizes within one of each other.
   */
  predicate SetUp(before: seq<Player>, table: seq<Player>, solution: Solution)
  {
    && |table| == |before|
    && multiset(Map(Who, table)) == multiset(Map(Who, before))
    && AllCast(table) && DistinctCharacters(table) && AtStart(table)
    && ((exists i :: 0 <= i < |table| && table[i].character == Some(Scarlett)) ==>
          |table| > 0 && table[0].character == Some(Scarlett))
    && HandsMultiset(Map(CardsOf, table)) + multiset(SolutionCards(solution)) == multiset(FullDeck())
    && Balanced(Map(CardsOf, table))
  }

  /** The start-game steps from assignCharacters to the reordering for Miss Scarlett. */
  method SetUpTable(players: seq<Player>, characterDraws: seq<nat>, turnDraws: seq<nat>,
                    suspectDraws: seq<nat>, weaponDraws: seq<nat>, roomDraws: seq<nat>,
                    restDraws: seq<nat>)
    returns (table: seq<Player>, solution: Solution)
    requires 1 <= |players| <= MaxPlayers
    requires DrawsFor(characterDraws, |Characters|) && DrawsFor(turnDraws, |players|)
    requires DrawsFor(suspectDraws, 6) && DrawsFor(weaponDraws, 6)
    requires DrawsFor(roomDraws, 9) && DrawsFor(restDraws, 18)
    ensures SetUp(players, table, solution)
  {
    var order := SeatAndShuffle(players, characterDraws, turnDraws);
    var dealt;
    dealt, solution := DealHands(order, suspectDraws, weaponDraws, roomDraws, restDraws);
    table := ScarlettFirst(dealt);
  }

  /**
   * The find of make-suggestion: the first player other than the suggester
   * who plays the suspect is put where the suspect's pawn now stands. With
   * characters of their own, that is every such player.
   */
  function Summon(players: seq<Player>, suspect: Character, suggester: SocketId, landing: Position): (r: seq<Player>)
    ensures |r| == |players|
    ensures DistinctCharacters(players) ==> forall i :: 0 <= i < |players| ==>
      r[i] == if players[i].character == Some(suspect) && players[i].id != suggester
              then players[i].(position := Some(landing)) else players[i]
  {
    var si := FindIndex(players, (p: Player) => p.character == Some(suspect) && p.id != suggester);
    if si < 0 then players
    else
      players[si := players[si].(position := Some(landing))]
  }

  /** Summoning changes positions only, so cast players with characters of their own stay so. */
  lemma SummonKeepsCast(players: seq<Player>, suspect: Character, suggester: SocketId, landing: Position)
    requires AllCast(players) && DistinctCharacters(players)
    ensures AllCast(Summon(players, suspect, suggester, landing))
    ensures DistinctCharacters(Summon(players, suspect, suggester, landing))
  {
    assert Map(CharacterOf, Summon(players, suspect, suggester, landing)) == Map(CharacterOf, players);
  }

  /** The player record after start-new-game: what join-room created, id and name kept. */
  function Rejoined(p: Player): (r: Player)
    ensures r.id == p.id && r.name == p.name
    ensures r.character.None? && r.position.None? && r.cards == [] && !r.hasAccused
  {
    NewPlayer(p.id, p.name)
  }

  /**
   * Where endTurn passes the turn: the first non-eliminated player after the
   * one holding `current`, round the table (index 0 when `current` has left).
   */
  function TurnAfter(players: seq<Player>, eliminated: seq<SocketId>, current: SocketId): (r: nat)
    requires |players| >= 1
    ensures r < |players|
    ensures IsNextTurn(Map(IdOf, players), eliminated, (IndexOf(players, current) + 1) % |players|, r)
    ensures (exists i :: 0 <= i < |players| && players[i].id !in eliminated) ==> players[r].id !in eliminated
  {
    var ids := Map(IdOf, players);
    var s := (IndexOf(players, current) + 1) % |players|;
    FirstActiveIsNext(ids, eliminated, s, 0);
    var r := FirstActiveFrom(ids, eliminated, s, 0);
    if i :| 0 <= i < |players| && players[i].id !in eliminated then
      NextTurnActive(ids, eliminated, s, r, i);
      r
    else r
  }

  /**
   * A departed player is no longer found, so the turn after theirs is the
   * first non-eliminated player from the start of the table.
   */
  lemma TurnAfterDeparted(players: seq<Player>, eliminated: seq<SocketId>, departed: SocketId)
    requires |players| >= 1 && IndexOf(players, departed) == -1
    ensures TurnAfter(players, eliminated, departed) == FirstActiveFrom(Map(IdOf, players), eliminated, 0, 0)
  {
    assert (IndexOf(players, departed) + 1) % |players| == 0;
  }

  /**
   * The effect of a legal move of `mover` from `current` to `target`: into a
   * room, the pawn lands on its centre, having reached the hallway square of
   * a free door within the roll; in the hallway, it lands on the target,
   * which is free, by a path that fits the roll with the exit step.
   */
  ghost predicate LegalMove(current: Position, target: Square, dice: int, pawns: Pawns,
                            mover: Character, landing: Position)
  {
    if RoomAt(target).Some? then
      && landing == InsideRoom(RoomAt(target).value)
      && exists i: nat, path :: i < |Doors(RoomAt(target).value)|
           && EntryVia(path, current, RoomAt(target).value, i, dice, pawns, mover)
    else
      && landing == HallwayAt(target)
      && Passable(target, pawns, mover)
      && exists d: nat, path :: d + ExitCost(current) <= dice && HallwayRoute(path, current, target, d, pawns, mover)
  }

  /** Updating one player without changing their id keeps every socket seated or unseated. */
  lemma ReplaceKeepsSeats(players: seq<Player>, i: nat, p: Player, id: SocketId)
    requires i < |players| && p.id == players[i].id
    ensures Seated(players[i := p], id) <==> Seated(players, id)
  {
    if Seated(players, id) {
      var k := IndexOf(players, id);
      assert players[i := p][k].id == id;
    }
    if Seated(players[i := p], id) {
      var k := IndexOf(players[i := p], id);
      assert players[k].id == id;
    }
  }

  /** Updating one player without changing their character keeps the table cast and distinct. */
  lemma ReplaceKeepsCast(players: seq<Player>, i: nat, p: Player)
    requires i < |players| && AllCast(players) && DistinctCharacters(players)
    requires Cast(p) && p.character == players[i].character
    ensures AllCast(players[i := p]) && DistinctCharacters(players[i := p])
  {
    assert Map(CharacterOf, players[i := p]) == Map(CharacterOf, players);
  }

  // ---------------------------------------------------------------------
  // The session record
  // ---------------------------------------------------------------------

  class Session {
    /** Whether the room exists in the registry. */
    var open: bool
    var players: seq<Player>
    var host: SocketId
    var gameStarted: bool
    var phase: GamePhase
    var solution: Option<Solution>
    var currentTurn: Option<SocketId>
    var turnPhase: Option<TurnPhase>
    var pendingSuggestion: Option<Suggestion>
    var eliminatedPlayers: seq<SocketId>
    var winner: Option<SocketId>
    var diceResult: Option<int>
    var pawns: Pawns
    var weapons: map<Weapon, Room>

    /**
     * The record during a game names a seated current player; a disconnect
     * of that player breaks this until endTurn passes the turn on.
     */
    ghost predicate Valid()
      reads this
    {
      Consistent() && (open && gameStarted ==> Seated(players, currentTurn.value))
    }

    /**
     * An existing room holds between one and six players (an empty room is
     * deleted, join refuses a seventh); once started it has a solution, a
     * current turn and a turn phase, every player has a character of
     * their own and a position, and every pawn and every weapon is on the
     * board; a player about to move has a roll of two dice.
     */
    ghost predicate Consistent()
      reads this
    {
      open ==>
        && 1 <= |players| <= MaxPlayers
        && (gameStarted ==>
              && solution.Some? && currentTurn.Some? && turnPhase.Some?
              && AllCast(players) && DistinctCharacters(players)
              && (forall c: Character :: c in pawns)
              && (forall w: Weapon :: w in weapons))
        && (turnPhase == Some(Move) ==> diceResult.Some? && 2 <= diceResult.value <= 12)
    }

    /** The game fields as the room record is created and as start-new-game resets them. */
    ghost predicate InLobby()
      reads this
    {
      && !gameStarted && phase == Lobby && solution.None? && currentTurn.None?
      && turnPhase.None? && pendingSuggestion.None? && eliminatedPlayers == []
      && winner.None? && diceResult.None? && pawns == map[] && weapons == map[]
    }

    /** No room exists yet. */
    constructor ()
      ensures Valid() && !open
    {
      open := false;
      players := [];
      host := [];
      gameStarted := false;
      phase := Lobby;
      solution := None;
      currentTurn := None;
      turnPhase := None;
      pendingSuggestion := None;
      eliminatedPlayers := [];
      winner := None;
      diceResult := None;
      pawns := map[];
      weapons := map[];
    }

    method ResetGame()
      modifies this
      ensures InLobby()
      ensures open == old(open) && players == old(players) && host == old(host)
    {
      ClearTurn();
      ClearOutcome();
    }

    /** No turn under way: no current player, phase, roll or suggestion. */
    method ClearTurn()
      modifies this
      ensures currentTurn.None? && turnPhase.None? && pendingSuggestion.None? && diceResult.None?
      ensures unchanged(this`open, this`players, this`host, this`gameStarted, this`phase, this`solution)
      ensures unchanged(this`eliminatedPlayers, this`winner, this`pawns, this`weapons)
    {
      currentTurn := None;
      turnPhase := None;
      pendingSuggestion := None;
      diceResult := None;
    }

    /** No game: not started, in the lobby, no solution, eliminations, winner, pawns or weapons. */
    method ClearOutcome()
      modifies this
      ensures !gameStarted && phase == Lobby && solution.None? && eliminatedPlayers == []
      ensures winner.None? && pawns == map[] && weapons == map[]
      ensures unchanged(this`open, this`players, this`host, this`currentTurn, this`turnPhase)
      ensures unchanged(this`pendingSuggestion, this`diceResult)
    {
      gameStarted := false;
      phase := Lobby;
      solution := None;
      eliminatedPlayers := [];
      winner := None;
      pawns := map[];
      weapons := map[];
    }

    /**
     * join-room: the code must parse to 1..999; a missing room is created with
     * the caller as host; a started game, a full room and a name already taken
     * (case-insensitively) are refused; otherwise the player is appended.
     */
    method Join(caller: SocketId, playerName: string, roomCode: Option<int>) returns (reply: Reply)
      requires Valid()
      modifies this
      ensures Valid()
      ensures reply != Ok ==> unchanged(this)
      ensures reply == Refused(InvalidRoomCode) <==> !ValidRoomCode(roomCode)
      ensures reply == Refused(GameAlreadyStarted) <==>
        ValidRoomCode(roomCode) && old(open && gameStarted)
      ensures reply == Refused(RoomFull) <==>
        ValidRoomCode(roomCode) && old(open && !gameStarted && |players| >= MaxPlayers)
      ensures reply == Refused(NameAlreadyTaken) <==>
        ValidRoomCode(roomCode) && old(open && !gameStarted && |players| < MaxPlayers && NameTaken(players, playerName))
      ensures reply == Ok || reply == Refused(InvalidRoomCode) || reply == Refused(GameAlreadyStarted)
        || reply == Refused(RoomFull) || reply == Refused(NameAlreadyTaken)
      ensures reply == Ok && old(open) ==>
        && players == old(players) + [NewPlayer(caller, playerName)]
        && unchanged(this`open, this`host, this`gameStarted, this`phase, this`solution, this`currentTurn)
        && unchanged(this`turnPhase, this`pendingSuggestion, this`eliminatedPlayers, this`winner)
        && unchanged(this`diceResult, this`pawns, this`weapons)
      ensures reply == Ok && !old(open) ==>
        open && players == [NewPlayer(caller, playerName)] && host == caller && InLobby()
    {
      if !ValidRoomCode(roomCode) {
        return Refused(InvalidRoomCode);
      }
      if !open {
        open := true;
        players := [];
        host := caller;
        ResetGame();
      }
      if gameStarted {
        return Refused(GameAlreadyStarted);
      }
      if |players| >= MaxPlayers {
        return Refused(RoomFull);
      }
      if NameTaken(players, playerName) {
        return Refused(NameAlreadyTaken);
      }
      players := players + [NewPlayer(caller, playerName)];
      return Ok;
    }

    /** endTurn: pass the turn on, back to rolling, with no roll and no suggestion pending. */
    method EndTurn()
      requires Consistent()
      modifies this
      ensures Valid()
      ensures !old(open && gameStarted) ==> unchanged(this)
      ensures old(open && gameStarted) ==>
        && unchanged(this`open, this`players, this`host, this`gameStarted, this`phase, this`solution)
        && unchanged(this`eliminatedPlayers, this`winner, this`pawns, this`weapons)
        && currentTurn == Some(players[TurnAfter(players, eliminatedPlayers, old(currentTurn).value)].id)
        && turnPhase == Some(Roll) && diceResult.None? && pendingSuggestion.None?
    {
      if !open || !gameStarted {
        return;
      }
      var ids := Map(IdOf, players);
      var currentIndex := IndexOf(players, currentTurn.value);
      var next := NextTurnIndex(ids, eliminatedPlayers, currentIndex);
      NextTurnDetermined(ids, eliminatedPlayers, (currentIndex + 1) % |ids|, next);
      assert next == TurnAfter(players, eliminatedPlayers, currentTurn.value);
      assert Seated(players, players[next].id) by {
        assert IndexOf(players, players[next].id) != -1;
      }
      PassTurn(players[next].id);
    }

    /** The assignments closing endTurn. */
    method PassTurn(next: SocketId)
      modifies this
      ensures currentTurn == Some(next) && turnPhase == Some(Roll)
      ensures diceResult.None? && pendingSuggestion.None?
      ensures unchanged(this`open, this`players, this`host, this`gameStarted, this`phase, this`solution)
      ensures unchanged(this`eliminatedPlayers, this`winner, this`pawns, this`weapons)
    {
      currentTurn := Some(next);
      turnPhase := Some(Roll);
      diceResult := None;
      pendingSuggestion := None;
    }

    /**
     * continueDisproving: once the cursor has gone past every other player the
     * suggestion lapses and the turn moves to its end; otherwise the next
     * disprover is only notified.
     */
    method ContinueDisproving()
      requires Valid()
      modifies this
      ensures Valid()
      ensures old(open && pendingSuggestion.Some? && pendingSuggestion.value.currentDisproverIndex >= |players| - 1) ==>
        && pendingSuggestion.None? && turnPhase == Some(End)
        && unchanged(this`open, this`players, this`host, this`gameStarted, this`phase, this`solution)
        && unchanged(this`currentTurn, this`eliminatedPlayers, this`winner, this`diceResult, this`pawns, this`weapons)
      ensures !old(open && pendingSuggestion.Some? && pendingSuggestion.value.currentDisproverIndex >= |players| - 1) ==>
        unchanged(this)
    {
      if !open || pendingSuggestion.None? {
        return;
      }
      if pendingSuggestion.value.currentDisproverIndex >= |players| - 1 {
        pendingSuggestion := None;
        turnPhase := Some(End);
      }
    }

    /**
     * start-game: only the host, and only with three players or more. The
     * record is otherwise left as it was: the roll, the eliminations, the
     * winner and any pending suggestion are not reset.
     */
    method StartGame(caller: SocketId, characterDraws: seq<nat>, turnDraws: seq<nat>,
                     suspectDraws: seq<nat>, weaponDraws: seq<nat>, roomDraws: seq<nat>,
                     restDraws: seq<nat>) returns (reply: Reply)
      requires Valid()
      requires DrawsFor(characterDraws, |Characters|) && DrawsFor(turnDraws, |players|)
      requires DrawsFor(suspectDraws, 6) && DrawsFor(weaponDraws, 6)
      requires DrawsFor(roomDraws, 9) && DrawsFor(restDraws, 18)
      modifies this
      ensures Valid()
      ensures reply != Ok ==> unchanged(this)
      ensures reply == Ignored <==> !old(open)
      ensures reply == Refused(NotHost) <==> old(open) && caller != old(host)
      ensures reply == Refused(NotEnoughPlayers) <==>
        old(open) && caller == old(host) && |old(players)| < MinPlayers
      ensures reply == Ok || reply == Ignored || reply == Refused(NotHost) || reply == Refused(NotEnoughPlayers)
      ensures reply == Ok ==>
        && unchanged(this`open, this`host, this`pendingSuggestion, this`eliminatedPlayers)
        && unchanged(this`winner, this`diceResult)
        && gameStarted && phase == Playing && turnPhase == Some(Roll) && solution.Some?
        && SetUp(old(players), players, solution.value)
        && currentTurn == Some(players[0].id)
        && pawns == StartingPawns() && weapons == StartingWeapons()
    {
      if !open {
        return Ignored;
      }
      if caller != host {
        return Refused(NotHost);
      }
      if |players| < MinPlayers {
        return Refused(NotEnoughPlayers);
      }
      var table, newSolution := SetUpTable(players, characterDraws, turnDraws,
                                           suspectDraws, weaponDraws, roomDraws, restDraws);
      var newPawns := PlaceStartingPawns(table);
      var newWeapons := InitializeWeapons();
      Begin(table, newPawns, newWeapons, newSolution);
      return Ok;
    }

    /** The assignments closing start-game. */
    method Begin(table: seq<Player>, newPawns: Pawns, newWeapons: map<Weapon, Room>, newSolution: Solution)
      requires |table| > 0
      modifies this
      ensures gameStarted && phase == Playing && players == table
      ensures pawns == newPawns && weapons == newWeapons && solution == Some(newSolution)
      ensures currentTurn == Some(table[0].id) && turnPhase == Some(Roll)
      ensures unchanged(this`open, this`host, this`pendingSuggestion, this`eliminatedPlayers, this`winner, this`diceResult)
    {
      Deal(table, newPawns, newWeapons, newSolution);
      currentTurn := Some(table[0].id);
      turnPhase := Some(Roll);
    }

    /** The table, the board and the solution of a new game. */
    method Deal(table: seq<Player>, newPawns: Pawns, newWeapons: map<Weapon, Room>, newSolution: Solution)
      modifies this
      ensures gameStarted && phase == Playing && players == table
      ensures pawns == newPawns && weapons == newWeapons && solution == Some(newSolution)
      ensures unchanged(this`open, this`host, this`currentTurn, this`turnPhase, this`pendingSuggestion)
      ensures unchanged(this`eliminatedPlayers, this`winner, this`diceResult)
    {
      gameStarted := true;
      phase := Playing;
      players := table;
      pawns := newPawns;
      weapons := newWeapons;
      solution := Some(newSolution);
    }

    /** roll-dice: the current player, in the roll phase, rolls two dice and moves on to moving. */
    method RollDice(caller: SocketId, die1: int, die2: int) returns (reply: Reply)
      requires Valid()
      requires 1 <= die1 <= 6 && 1 <= die2 <= 6
      modifies this
      ensures Valid()
      ensures reply != Ok ==> unchanged(this)
      ensures reply == Ignored <==> !old(open && gameStarted && Seated(players, caller))
      ensures reply == Refused(NotYourTurn) <==> old(open && gameStarted && Seated(players, caller)) && old(currentTurn) != Some(caller)
      ensures reply == Refused(CannotRollNow) <==>
        old(open && gameStarted && Seated(players, caller)) && old(currentTurn) == Some(caller) && old(turnPhase) != Some(Roll)
      ensures reply == Ok || reply == Ignored || reply == Refused(NotYourTurn) || reply == Refused(CannotRollNow)
      ensures reply == Ok ==> old(open && gameStarted && Seated(players, caller) && currentTurn == Some(caller) && turnPhase == Some(Roll))
      ensures reply == Ok ==>
        && diceResult == Some(die1 + die2) && 2 <= diceResult.value <= 12 && turnPhase == Some(Move)
        && unchanged(this`open, this`players, this`host, this`gameStarted, this`phase, this`solution)
        && unchanged(this`currentTurn, this`pendingSuggestion, this`eliminatedPlayers, this`winner)
        && unchanged(this`pawns, this`weapons)
    {
      if !open || !gameStarted || IndexOf(players, caller) < 0 {
        return Ignored;
      }
      if currentTurn != Some(caller) {
        return Refused(NotYourTurn);
      }
      if turnPhase != Some(Roll) {
        return Refused(CannotRollNow);
      }
      diceResult, turnPhase := Some(die1 + die2), Some(Move);
      return Ok;
    }

    /**
     * move-pawn: the current player, in the move phase, moves by
     * validateMove; a move back into the room the pawn stands in is refused.
     * Entering a room leads to a suggestion, a hallway move to the end of the turn.
     */
    method MovePawn(caller: SocketId, target: Square) returns (reply: Reply)
      requires Valid()
      modifies this
      ensures Valid()
      ensures reply != Ok ==> unchanged(this)
      ensures reply == Ignored <==> !old(open && gameStarted && Seated(players, caller))
      ensures reply == Refused(CannotMoveNow) <==> old(open && gameStarted && Seated(players, caller)) && !old(open && gameStarted && Seated(players, caller) && currentTurn == Some(caller) && turnPhase == Some(Move))
      ensures reply == Ok || reply == Ignored || reply == Refused(CannotMoveNow) || reply == Refused(ReenterSameRoom)
        || (reply.Refused? && reply.reason.MoveRefused?)
      ensures reply == Ok || (reply.Refused? && reply.reason.MoveRefused?) ==> old(open && gameStarted && Seated(players, caller) && currentTurn == Some(caller) && turnPhase == Some(Move))
      ensures old(open && gameStarted && Seated(players, caller) && currentTurn == Some(caller) && turnPhase == Some(Move)) && RoomAt(target).None? ==>
        (reply == Refused(MoveRefused(NotWalkable)) <==> !IsWalkable(target))
      ensures old(open && gameStarted && Seated(players, caller) && currentTurn == Some(caller) && turnPhase == Some(Move)) ==>
        var me := old(players)[IndexOf(old(players), caller)];
        var mover := me.character.value;
        && (RoomAt(target).None? ==>
              (reply == Refused(MoveRefused(Occupied)) <==> IsWalkable(target) && OccupiedByOther(target, old(pawns), mover)))
        && (reply == Refused(MoveRefused(AllExitsBlocked)) <==>
              (RoomAt(target).Some? || Passable(target, old(pawns), mover))
              && |Starts(me.position.value, old(pawns), mover)| == 0)
      ensures reply == Refused(ReenterSameRoom) ==>
        old(open && gameStarted && Seated(players, caller) && currentTurn == Some(caller) && turnPhase == Some(Move))
        && RoomAt(target) == old(players)[IndexOf(old(players), caller)].position.value.room
      ensures reply == Ok ==>
        var i := IndexOf(old(players), caller);
        var me := old(players)[i];
        var mover := me.character.value;
        && mover in pawns
        && LegalMove(me.position.value, target, old(diceResult).value, old(pawns), mover, pawns[mover])
        && (RoomAt(target).Some? ==> RoomAt(target) != me.position.value.room)
        && players == old(players)[i := me.(position := Some(pawns[mover]))]
        && pawns == old(pawns)[mover := pawns[mover]]
        && turnPhase == (if RoomAt(target).Some? then Some(Suggest) else Some(End))
        && unchanged(this`open, this`host, this`gameStarted, this`phase, this`solution, this`currentTurn)
        && unchanged(this`pendingSuggestion, this`eliminatedPlayers, this`winner, this`diceResult, this`weapons)
    {
      var i := IndexOf(players, caller);
      if !open || !gameStarted || i < 0 {
        return Ignored;
      }
      if currentTurn != Some(caller) || turnPhase != Some(Move) {
        return Refused(CannotMoveNow);
      }
      var me := players[i];
      var mover := me.character.value;
      var current := me.position.value;
      var result := ValidateMove(current, target, diceResult.value, pawns, mover);
      if result.InvalidMove? {
        return Refused(MoveRefused(result.error));
      }
      if result.enteredRoom.Some? && current.room == result.enteredRoom {
        return Refused(ReenterSameRoom);
      }
      if RoomAt(target).None? {
        assert HallwayRoute(result.path, current, target, |result.path| - 1, pawns, mover);
      }
      ReplaceKeepsCast(players, i, me.(position := Some(result.newPosition)));
      ReplaceKeepsSeats(players, i, me.(position := Some(result.newPosition)), currentTurn.value);
      Relocate(i, result.newPosition, if result.enteredRoom.Some? then Suggest else End);
      return Ok;
    }

    /** The assignments of a move: the player's position, their pawn and the turn phase. */
    method Relocate(i: nat, landing: Position, tp: TurnPhase)
      requires i < |players| && players[i].character.Some?
      modifies this
      ensures players == old(players)[i := old(players)[i].(position := Some(landing))]
      ensures pawns == old(pawns)[old(players)[i].character.value := landing]
      ensures turnPhase == Some(tp)
      ensures unchanged(this`open, this`host, this`gameStarted, this`phase, this`solution, this`currentTurn)
      ensures unchanged(this`pendingSuggestion, this`eliminatedPlayers, this`winner, this`diceResult, this`weapons)
    {
      pawns := pawns[players[i].character.value := landing];
      players := players[i := players[i].(position := Some(landing))];
      turnPhase := Some(tp);
    }

    /**
     * use-secret-passage: the current player, in the roll phase, takes the
     * passage of the room they are in and must then suggest.
     */
    method TakeSecretPassage(caller: SocketId) returns (reply: Reply)
      requires Valid()
      modifies this
      ensures Valid()
      ensures reply != Ok ==> unchanged(this)
      ensures reply == Ignored <==> !old(open && gameStarted && Seated(players, caller))
      ensures reply == Refused(CannotUsePassageNow) <==> old(open && gameStarted && Seated(players, caller)) && !old(open && gameStarted && Seated(players, caller) && currentTurn == Some(caller) && turnPhase == Some(Roll))
      ensures reply == Ok || (reply.Refused? && reply.reason.PassageRefusedBy?) ==> old(open && gameStarted && Seated(players, caller) && currentTurn == Some(caller) && turnPhase == Some(Roll))
      ensures old(open && gameStarted && Seated(players, caller) && currentTurn == Some(caller) && turnPhase == Some(Roll)) ==>
        var i := IndexOf(old(players), caller);
        var me := old(players)[i];
        var taken := UseSecretPassage(me.position.value);
        && (taken.PassageRefused? ==> reply == Refused(PassageRefusedBy(taken.error)))
        && (taken.PassageTaken? ==>
              && reply == Ok
              && players == old(players)[i := me.(position := Some(taken.newPosition))]
              && pawns == old(pawns)[me.character.value := taken.newPosition]
              && turnPhase == Some(Suggest))
      ensures reply == Ok ==>
        && unchanged(this`open, this`host, this`gameStarted, this`phase, this`solution, this`currentTurn)
        && unchanged(this`pendingSuggestion, this`eliminatedPlayers, this`winner, this`diceResult, this`weapons)
    {
      var i := IndexOf(players, caller);
      if !open || !gameStarted || i < 0 {
        return Ignored;
      }
      if currentTurn != Some(caller) || turnPhase != Some(Roll) {
        return Refused(CannotUsePassageNow);
      }
      var me := players[i];
      var taken := UseSecretPassage(me.position.value);
      if taken.PassageRefused? {
        return Refused(PassageRefusedBy(taken.error));
      }
      ReplaceKeepsCast(players, i, me.(position := Some(taken.newPosition)));
      ReplaceKeepsSeats(players, i, me.(position := Some(taken.newPosition)), currentTurn.value);
      Relocate(i, taken.newPosition, Suggest);
      return Ok;
    }

    /**
     * stay-put: the current player, in the roll phase, stays in the room
     * their square lies in and must then suggest. No check is made that the
     * player was brought there by another player's suggestion.
     */
    method StayPut(caller: SocketId) returns (reply: Reply)
      requires Valid()
      modifies this
      ensures Valid()
      ensures reply != Ok ==> unchanged(this)
      ensures reply == Ignored <==> !old(open && gameStarted && Seated(players, caller))
      ensures reply == Refused(CannotStayPutNow) <==> old(open && gameStarted && Seated(players, caller)) && !old(open && gameStarted && Seated(players, caller) && currentTurn == Some(caller) && turnPhase == Some(Roll))
      ensures reply == Refused(NotInRoomToStay) <==>
        old(open && gameStarted && Seated(players, caller) && currentTurn == Some(caller) && turnPhase == Some(Roll)) && RoomAt(old(players)[IndexOf(old(players), caller)].position.value.sq).None?
      ensures reply == Ok || reply == Ignored || reply == Refused(CannotStayPutNow) || reply == Refused(NotInRoomToStay)
      ensures reply == Ok ==> old(open && gameStarted && Seated(players, caller) && currentTurn == Some(caller) && turnPhase == Some(Roll))
      ensures reply == Ok ==>
        && turnPhase == Some(Suggest)
        && unchanged(this`open, this`players, this`host, this`gameStarted, this`phase, this`solution)
        && unchanged(this`currentTurn, this`pendingSuggestion, this`eliminatedPlayers, this`winner)
        && unchanged(this`diceResult, this`pawns, this`weapons)
    {
      var i := IndexOf(players, caller);
      if !open || !gameStarted || i < 0 {
        return Ignored;
      }
      if currentTurn != Some(caller) || turnPhase != Some(Roll) {
        return Refused(CannotStayPutNow);
      }
      if RoomAt(players[i].position.value.sq).None? {
        return Refused(NotInRoomToStay);
      }
      turnPhase := Some(Suggest);
      return Ok;
    }

    // -------------------------------------------------------------------
    // Suggestions and the disproof round
    // -------------------------------------------------------------------

    /** The assignments of make-suggestion before the round starts. */
    method Summoning(newPlayers: seq<Player>, suspect: Character, weapon: Weapon, room: Room, sg: Suggestion)
      modifies this
      ensures players == newPlayers && pendingSuggestion == Some(sg)
      ensures pawns == old(pawns)[suspect := InsideRoom(room)] && weapons == old(weapons)[weapon := room]
      ensures unchanged(this`open, this`host, this`gameStarted, this`phase, this`solution, this`currentTurn)
      ensures unchanged(this`turnPhase, this`eliminatedPlayers, this`winner, this`diceResult)
    {
      pawns := pawns[suspect := InsideRoom(room)];
      weapons := weapons[weapon := room];
      players := newPlayers;
      pendingSuggestion := Some(sg);
    }

    /**
     * make-suggestion: the current player, in the suggest phase and standing
     * in a room, names a suspect and a weapon. Both are brought into that
     * room, the suspect's player with them, and the disproof round opens
     * with the cursor at 0 (at once closed again when nobody else plays).
     */
    method MakeSuggestion(caller: SocketId, suspect: Character, weapon: Weapon) returns (reply: Reply)
      requires Valid()
      modifies this
      ensures Valid()
      ensures reply != Ok ==> unchanged(this)
      ensures reply == Ignored <==> !old(open && gameStarted && Seated(players, caller))
      ensures reply == Refused(CannotSuggestNow) <==>
        old(open && gameStarted && Seated(players, caller))
        && !old(currentTurn == Some(caller) && turnPhase == Some(Suggest))
      ensures reply == Refused(NotInRoomToSuggest) <==>
        old(open && gameStarted && Seated(players, caller) && currentTurn == Some(caller) && turnPhase == Some(Suggest))
        && RoomAt(old(players)[IndexOf(old(players), caller)].position.value.sq).None?
      ensures reply == Ok || reply == Ignored || reply == Refused(CannotSuggestNow) || reply == Refused(NotInRoomToSuggest)
      ensures reply == Ok ==>
        old(open && gameStarted && Seated(players, caller) && currentTurn == Some(caller) && turnPhase == Some(Suggest))
      ensures reply == Ok ==>
        var me := old(players)[IndexOf(old(players), caller)];
        var room := RoomAt(me.position.value.sq).value;
        && unchanged(this`open, this`host, this`gameStarted, this`phase, this`solution, this`currentTurn)
        && unchanged(this`eliminatedPlayers, this`winner, this`diceResult)
        && pawns == old(pawns)[suspect := InsideRoom(room)]
        && weapons == old(weapons)[weapon := room]
        && players == Summon(old(players), suspect, caller, InsideRoom(room))
        && (|players| <= 1 ==> pendingSuggestion.None? && turnPhase == Some(End))
        && (|players| > 1 ==>
              && pendingSuggestion == Some(Suggestion(caller, me.name, suspect, weapon, room, 0, false))
              && turnPhase == Some(Suggest))
    {
      var i := IndexOf(players, caller);
      if !open || !gameStarted || i < 0 {
        return Ignored;
      }
      if currentTurn != Some(caller) || turnPhase != Some(Suggest) {
        return Refused(CannotSuggestNow);
      }
      var me := players[i];
      var currentRoom := RoomAt(me.position.value.sq);
      if currentRoom.None? {
        return Refused(NotInRoomToSuggest);
      }
      var room := currentRoom.value;
      SummonKeepsCast(players, suspect, caller, InsideRoom(room));
      var summoned := Summon(players, suspect, caller, InsideRoom(room));
      Summoning(summoned, suspect, weapon, room, Suggestion(caller, me.name, suspect, weapon, room, 0, false));
      ContinueDisproving();
      return Ok;
    }

    /** The player asked to disprove the pending suggestion is `caller`. */
    ghost predicate AskedToDisprove(caller: SocketId)
      requires Valid()
      reads this
    {
      open && pendingSuggestion.Some?
      && players[DisproverIndex(players, pendingSuggestion.value)].id == caller
    }

    /** The assignments ending a disproof round. */
    method CloseSuggestion()
      modifies this
      ensures pendingSuggestion.None? && turnPhase == Some(End)
      ensures unchanged(this`open, this`players, this`host, this`gameStarted, this`phase, this`solution)
      ensures unchanged(this`currentTurn, this`eliminatedPlayers, this`winner, this`diceResult, this`pawns, this`weapons)
    {
      pendingSuggestion := None;
      turnPhase := Some(End);
    }

    /**
     * show-card: the player asked shows a card of their own hand that the
     * suggestion names; the round closes and the turn moves to its end.
     */
    method ShowCard(caller: SocketId, card: Card) returns (reply: Reply)
      requires Valid()
      modifies this
      ensures Valid()
      ensures reply != Ok ==> unchanged(this)
      ensures reply == Ignored <==> !old(open && pendingSuggestion.Some?)
      ensures reply == Refused(NotYourTurnToDisprove) <==>
        old(open && pendingSuggestion.Some?) && !old(AskedToDisprove(caller))
      ensures reply == Refused(CardNotInHand) <==>
        old(AskedToDisprove(caller))
        && card !in old(players)[DisproverIndex(old(players), old(pendingSuggestion).value)].cards
      ensures reply == Refused(CardDoesNotMatch) <==>
        old(AskedToDisprove(caller))
        && card in old(players)[DisproverIndex(old(players), old(pendingSuggestion).value)].cards
        && !Matches(card, old(pendingSuggestion).value)
      ensures reply == Ok || reply == Ignored || reply == Refused(NotYourTurnToDisprove)
        || reply == Refused(CardNotInHand) || reply == Refused(CardDoesNotMatch)
      ensures reply == Ok ==>
        && pendingSuggestion.None? && turnPhase == Some(End)
        && unchanged(this`open, this`players, this`host, this`gameStarted, this`phase, this`solution)
        && unchanged(this`currentTurn, this`eliminatedPlayers, this`winner, this`diceResult, this`pawns, this`weapons)
    {
      if !open || pendingSuggestion.None? {
        return Ignored;
      }
      var suggestion := pendingSuggestion.value;
      var disprover := players[DisproverIndex(players, suggestion)];
      if caller != disprover.id {
        return Refused(NotYourTurnToDisprove);
      }
      if card !in disprover.cards {
        return Refused(CardNotInHand);
      }
      if !Matches(card, suggestion) {
        return Refused(CardDoesNotMatch);
      }
      CloseSuggestion();
      return Ok;
    }

    /**
     * cannot-disprove: the player asked passes; the cursor moves on to the
     * next player, and the round lapses once it has gone past every other player.
     */
    method CannotDisprove(caller: SocketId) returns (reply: Reply)
      requires Valid()
      modifies this
      ensures Valid()
      ensures reply != Ok ==> unchanged(this)
      ensures reply == Ignored <==> !old(open && pendingSuggestion.Some?)
      ensures reply == Refused(NotYourTurnToDisprove) <==>
        old(open && pendingSuggestion.Some?) && !old(AskedToDisprove(caller))
      ensures reply == Ok || reply == Ignored || reply == Refused(NotYourTurnToDisprove)
      ensures reply == Ok ==>
        var k := old(pendingSuggestion).value.currentDisproverIndex + 1;
        && unchanged(this`open, this`players, this`host, this`gameStarted, this`phase, this`solution)
        && unchanged(this`currentTurn, this`eliminatedPlayers, this`winner, this`diceResult, this`pawns, this`weapons)
        && (k >= |players| - 1 ==> pendingSuggestion.None? && turnPhase == Some(End))
        && (k < |players| - 1 ==>
              && pendingSuggestion == Some(old(pendingSuggestion).value.(currentDisproverIndex := k))
              && turnPhase == old(turnPhase))
    {
      if !open || pendingSuggestion.None? {
        return Ignored;
      }
      var suggestion := pendingSuggestion.value;
      var disprover := players[DisproverIndex(players, suggestion)];
      if caller != disprover.id {
        return Refused(NotYourTurnToDisprove);
      }
      pendingSuggestion := Some(suggestion.(currentDisproverIndex := suggestion.currentDisproverIndex + 1));
      ContinueDisproving();
      return Ok;
    }

    // -------------------------------------------------------------------
    // Accusations, ending turns, new games and disconnects
    // -------------------------------------------------------------------

    /** The assignments declaring a winner. */
    method Win(id: SocketId)
      modifies this
      ensures winner == Some(id) && phase == Finished
      ensures unchanged(this`open, this`players, this`host, this`gameStarted, this`solution, this`currentTurn)
      ensures unchanged(this`turnPhase, this`pendingSuggestion, this`eliminatedPlayers, this`diceResult)
      ensures unchanged(this`pawns, this`weapons)
    {
      winner := Some(id);
      phase := Finished;
    }

    /** The assignments eliminating player `i` after a wrong accusation. */
    method Eliminate(i: nat)
      requires i < |players|
      modifies this
      ensures players == old(players)[i := old(players)[i].(hasAccused := true)]
      ensures eliminatedPlayers == old(eliminatedPlayers) + [old(players)[i].id]
      ensures unchanged(this`open, this`host, this`gameStarted, this`phase, this`solution, this`currentTurn)
      ensures unchanged(this`turnPhase, this`pendingSuggestion, this`winner, this`diceResult, this`pawns, this`weapons)
    {
      eliminatedPlayers := eliminatedPlayers + [players[i].id];
      players := players[i := players[i].(hasAccused := true)];
    }

    /**
     * make-accusation: the current player, in any turn phase, if not already
     * eliminated, names the solution. Right, they win; wrong, they are
     * eliminated, and either the one player left wins or the turn passes on.
     */
    method MakeAccusation(caller: SocketId, suspect: Character, weapon: Weapon, room: Room)
      returns (reply: Reply)
      requires Valid()
      modifies this
      ensures Valid()
      ensures reply != Ok ==> unchanged(this)
      ensures reply == Ignored <==> !old(open && gameStarted && Seated(players, caller))
      ensures reply == Refused(NotYourTurn) <==>
        old(open && gameStarted && Seated(players, caller)) && old(currentTurn) != Some(caller)
      ensures reply == Refused(AlreadyAccused) <==>
        old(open && gameStarted && Seated(players, caller) && currentTurn == Some(caller))
        && old(players)[IndexOf(old(players), caller)].hasAccused
      ensures reply == Ok || reply == Ignored || reply == Refused(NotYourTurn) || reply == Refused(AlreadyAccused)
      ensures reply == Ok && old(solution) == Some(Solution(suspect, weapon, room)) ==>
        && winner == Some(caller) && phase == Finished
        && unchanged(this`open, this`players, this`host, this`gameStarted, this`solution, this`currentTurn)
        && unchanged(this`turnPhase, this`pendingSuggestion, this`eliminatedPlayers, this`diceResult)
        && unchanged(this`pawns, this`weapons)
      ensures reply == Ok && old(solution) != Some(Solution(suspect, weapon, room)) ==>
        var i := IndexOf(old(players), caller);
        var active := ActivePlayers(players, eliminatedPlayers);
        && unchanged(this`open, this`host, this`gameStarted, this`solution, this`pawns, this`weapons)
        && players == old(players)[i := old(players)[i].(hasAccused := true)]
        && eliminatedPlayers == old(eliminatedPlayers) + [caller]
        && (|active| == 1 ==>
              && winner == Some(active[0].id) && phase == Finished
              && unchanged(this`currentTurn, this`turnPhase, this`pendingSuggestion, this`diceResult))
        && (|active| != 1 ==>
              && currentTurn == Some(players[TurnAfter(players, eliminatedPlayers, caller)].id)
              && turnPhase == Some(Roll) && diceResult.None? && pendingSuggestion.None?
              && unchanged(this`winner, this`phase))
    {
      var i := IndexOf(players, caller);
      if !open || !gameStarted || i < 0 {
        return Ignored;
      }
      if currentTurn != Some(caller) {
        return Refused(NotYourTurn);
      }
      if players[i].hasAccused {
        return Refused(AlreadyAccused);
      }
      if solution == Some(Solution(suspect, weapon, room)) {
        Win(caller);
        return Ok;
      }
      ReplaceKeepsCast(players, i, players[i].(hasAccused := true));
      ReplaceKeepsSeats(players, i, players[i].(hasAccused := true), currentTurn.value);
      Eliminate(i);
      var active := ActivePlayers(players, eliminatedPlayers);
      if |active| == 1 {
        Win(active[0].id);
      } else {
        EndTurn();
      }
      return Ok;
    }

    /** end-turn: the current player ends the turn, except with a suggestion still owed. */
    method EndTurnCommand(caller: SocketId) returns (reply: Reply)
      requires Valid()
      modifies this
      ensures Valid()
      ensures reply != Ok ==> unchanged(this)
      ensures reply == Ignored <==> !old(open && gameStarted)
      ensures reply == Refused(NotYourTurn) <==> old(open && gameStarted) && old(currentTurn) != Some(caller)
      ensures reply == Refused(MustSuggestFirst) <==>
        old(open && gameStarted && currentTurn == Some(caller) && turnPhase == Some(Suggest))
      ensures reply == Ok || reply == Ignored || reply == Refused(NotYourTurn) || reply == Refused(MustSuggestFirst)
      ensures reply == Ok ==>
        && unchanged(this`open, this`players, this`host, this`gameStarted, this`phase, this`solution)
        && unchanged(this`eliminatedPlayers, this`winner, this`pawns, this`weapons)
        && currentTurn == Some(players[TurnAfter(players, eliminatedPlayers, caller)].id)
        && turnPhase == Some(Roll) && diceResult.None? && pendingSuggestion.None?
    {
      if !open || !gameStarted {
        return Ignored;
      }
      if currentTurn != Some(caller) {
        return Refused(NotYourTurn);
      }
      if turnPhase == Some(Suggest) {
        return Refused(MustSuggestFirst);
      }
      EndTurn();
      return Ok;
    }

    /**
     * start-new-game: the host sends the room back to the lobby, keeping the
     * players but clearing everything the game gave them.
     */
    method StartNewGame(caller: SocketId) returns (reply: Reply)
      requires Valid()
      modifies this
      ensures Valid()
      ensures reply == Ok || reply == Ignored
      ensures reply == Ignored <==> !old(open && host == caller)
      ensures reply == Ignored ==> unchanged(this)
      ensures reply == Ok ==>
        && unchanged(this`open, this`host)
        && InLobby()
        && players == Map(Rejoined, old(players))
    {
      if !open || host != caller {
        return Ignored;
      }
      ResetGame();
      players := Map(Rejoined, players);
      return Ok;
    }

    /** The assignments of a disconnect that leaves the room non-empty. */
    method Leave(remaining: seq<Player>, newHost: SocketId)
      modifies this
      ensures players == remaining && host == newHost
      ensures unchanged(this`open, this`gameStarted, this`phase, this`solution, this`currentTurn, this`turnPhase)
      ensures unchanged(this`pendingSuggestion, this`eliminatedPlayers, this`winner, this`diceResult)
      ensures unchanged(this`pawns, this`weapons)
    {
      players := remaining;
      host := newHost;
    }

    /**
     * disconnect: the socket's records leave the room; an empty room is
     * deleted; a departing host hands over to the first player left; a
     * departing current player's turn passes on, and as the departed player
     * is no longer found, it passes to the first non-eliminated player from
     * the start of the table.
     */
    method Disconnect(caller: SocketId) returns (reply: Reply)
      requires Valid()
      modifies this
      ensures Valid()
      ensures reply == Ok || reply == Ignored
      ensures reply == Ignored <==> !old(open)
      ensures reply == Ignored ==> unchanged(this)
      ensures reply == Ok ==> (open <==> |Without(old(players), caller)| > 0)
      ensures reply == Ok && open ==>
        && players == Without(old(players), caller)
        && host == (if old(host) == caller then players[0].id else old(host))
        && unchanged(this`gameStarted, this`phase, this`solution, this`eliminatedPlayers, this`winner)
        && unchanged(this`pawns, this`weapons)
        && (old(gameStarted && currentTurn == Some(caller)) ==>
              && currentTurn == Some(players[FirstActiveFrom(Map(IdOf, players), eliminatedPlayers, 0, 0)].id)
              && turnPhase == Some(Roll) && diceResult.None? && pendingSuggestion.None?)
        && (!old(gameStarted && currentTurn == Some(caller)) ==>
              unchanged(this`currentTurn, this`turnPhase, this`diceResult, this`pendingSuggestion))
    {
      if !open {
        return Ignored;
      }
      var remaining := Without(players, caller);
      if |remaining| == 0 {
        open, players := false, [];
        return Ok;
      }
      if gameStarted {
        WithoutKeepsCast(players, caller);
      }
      WithoutGone(players, caller);
      if gameStarted && currentTurn != Some(caller) {
        var seat := players[IndexOf(players, currentTurn.value)];
        WithoutHas(players, caller, seat);
      }
      TurnAfterDeparted(remaining, eliminatedPlayers, caller);
      Leave(remaining, if host == caller then remaining[0].id else host);
      if gameStarted && currentTurn == Some(caller) {
        EndTurn();
      }
      return Ok;
    }
  }
}
