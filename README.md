# Clue: board rules and room sessions, in Dafny

This project models the two parts of the Clue server that hold the game's rules.

- **`game.js`: board and rules.**
  - The 24×25 board tables: room squares, doors, secret passages, blocked squares and the envelope.
  - The geometric queries `isInRoom`, `isBlocked`, `isWalkable` and `getRoomCenter`.
  - The breadth-first `findPath`, the move validator `validateMove`, `getAllExitHallways` and `useSecretPassage`.
  - The deck engine: `shuffleArray`, `assignCharacters` and `dealCards`.
- **`server.js`: the per-room session record and its socket handlers.**
  - The handlers are join-room, start-game, roll-dice, move-pawn, use-secret-passage, stay-put, make-suggestion, show-card, cannot-disprove, make-accusation, end-turn, start-new-game and disconnect.
  - The helpers are `continueDisproving` and `endTurn`.

Files:

- `wrappers.dfy` holds `Option`.
- `board.dfy` (module `Board`) holds the tables, the queries, `generateRectangle`, `initializePawns` and `initializeWeapons`.
- `deck.dfy` (module `Deck`) holds the cards, the Fisher–Yates shuffle, the deal, and the move-to-front reordering used by start-game.
- `movement.dfy` (module `Movement`) holds pawn blocking, `findPath`, `getAllExitHallways`, `validateMove` and `useSecretPassage`.
- `roster.dfy` (module `Roster`) holds player records and the `find`, `findIndex` and `filter` views of the roster. It also holds the endTurn index loop, the disproof cursor arithmetic, and the start-game `forEach` steps.
- `server.dfy` (module `Server`) holds the `Session` class. It has one field per field of the room record that the handlers read, and one method per handler.
  - `open` says whether the room exists in the registry. Join re-creates a missing room with the caller as host, and a disconnect that empties the room deletes it.

How the model represents the source:

- **Randomness.** The `Math.random` draws are parameters.
  - The dice are two values in 1..6.
  - Each shuffle takes a sequence of draws, with `draws[i] <= i`. Each draw is the value `Math.floor(Math.random() * (i + 1))` takes at step `i`.
- **Messages.** Every emitted message is dropped. A handler's `Reply` says whether it acted (`Ok`), sent an error message (`Refused` with the reason), or returned silently (`Ignored`).
- **Unchanged on rejection.** Every handler that refuses or ignores a command proves that the record is unchanged.
- **Exact replies.** Every handler lists exactly the replies it can return. Together with the refusal conditions, this means a command that passes every check is answered `Ok`. move-pawn is the exception: see `Server.Session.MovePawn` under "## Left out".
- **Session invariant.** `Session.Valid` states the invariant every handler keeps.
  - An existing room holds one to six players.
  - During a game there is a solution, a current turn naming a seated player, and a turn phase.
  - During a game every player has a character of their own and a position.
  - During a game every pawn and every weapon is on the board.
  - A player about to move holds a roll of 2..12.

Quirks of the code, modelled as written:

- stay-put only asks that the player's square lie in a room. It does not check that another player's suggestion brought them there.
- An accusation is accepted in any turn phase, even with a suggestion pending.
- start-game does not reset the roll, the eliminations, the winner or a pending suggestion.
- On a disconnect, endTurn runs after the departed player has been filtered out. `findIndex` then answers -1, so the turn passes to the first non-eliminated player from index 0, not to the player who sat after the departed one (`Server.TurnAfterDeparted`).
- A disprover may disconnect mid-round. Disconnect leaves the pending suggestion as it is, and the next disprover is then computed over the smaller table.
- join-room does not check socket ids. The roster may hold two records of one socket, so lookups are always "the first record with this id".

## Model

| member | source | states |
|---|---|---|
| Board.GenerateRectangle | game.js:186-194 | the list is built column by column; a square is in it exactly when it lies within the four bounds |
| Board.RectangleIsRectSet | game.js:56-117 | each room list built by generateRectangle holds the same squares as the rectangle set the tables use |
| Board.RoomSquaresShape | game.js:56-117 | a square is in a room's list exactly when it lies in that room's rectangle or is one of the room's extra squares |
| Board.RoomAtExact | game.js:215-227 | the first-match search of isInRoom answers room r exactly when r's list holds the square, because the nine lists are pairwise disjoint |
| Board.RoomAtNone | game.js:215-222 | isInRoom answers null exactly when no room's shape covers the square |
| Board.CenterInOwnRoom | game.js:270-280 | the floored midpoint of each room's display area lies in that area and in the room's own list, and isInRoom of it is that room |
| Board.WalkableIsHallway | game.js:230-267 | a walkable square is in no room's list and is no door; it is neither an explicitly blocked square nor an envelope square |
| Board.BlockedSquaresShape | game.js:159-176 | the blocked list holds exactly the edge and wall squares described by a bounds predicate |
| Board.WalkableByBounds | game.js:230-267 | an in-bounds square that is not blocked, not in the envelope and in no room shape is walkable |
| Board.DoorsWellPlaced | game.js:120-148 | every door square lies in its own room, is neither blocked nor walkable, and is 4-adjacent to its hallway square |
| Board.DoorHallwaysWalkable | game.js:120-148 | the hallway square in front of every door is walkable |
| Board.StartingSquaresWalkable | game.js:36-43 | every starting square is walkable, and no two characters share one |
| Board.PassagesPair | game.js:151-156 | passages pair rooms symmetrically (study and kitchen, lounge and conservatory), never lead to the same room, and start from a square of their own room |
| Board.AllListed | game.js:19-32 | every character, weapon and room appears in the lists the deck is built from |
| Board.InitializePawns | game.js:308-314 | all six pawns are placed, each on a copy of its character's starting square |
| Board.InitializeWeapons | game.js:317-323 | all six weapons are placed, each in its initial room |
| Deck.FullDeckHasEveryCardOnce | game.js:328-334 | the deck has 21 cards and holds every card exactly once |
| Deck.SwapPermutes | game.js:286 | a swap keeps the multiset of elements, and keeps them distinct when they were |
| Deck.ShuffleArray | game.js:283-289 | the array is shuffled in place into the result of the descending swap loop for the given draws |
| Deck.ShuffledPermutes | game.js:283-289 | the shuffle result is a permutation of its input, and without repetitions when the input had none |
| Deck.ShuffledMap | game.js:283-289 | the shuffle moves elements by position only, so it commutes with taking a field of every element |
| Deck.ShuffleSeq | game.js:283-289 | shuffling a copy of a list gives a permutation of the list |
| Deck.AssignCharacters | game.js:296-300 | the first min(n, 6) characters of the shuffled character list; there are min(n, 6) of them and they are distinct |
| Deck.RoundRobinDealsAll | game.js:353-358 | dealing round-robin puts every card into exactly one hand |
| Deck.RoundRobinSizes | game.js:353-358 | hand i gets ⌊m/n⌋ cards, plus one when i < m mod n |
| Deck.RoundRobinBalanced | game.js:353-358 | hand sizes differ by at most one |
| Deck.HandsAppend | game.js:356 | pushing a card onto one hand adds exactly that card to the cards dealt |
| Deck.DealRoundRobin | game.js:353-358 | the playerIndex loop computes the round-robin deal, which holds every card once, in balanced hands |
| Deck.DrawSolution | game.js:336-349 | after the piles are shuffled and popped, the 18 cards left and the three solution cards are the whole deck |
| Deck.DealCards | game.js:326-361 | n hands that, with the solution, partition the 21 cards; hand sizes within one of each other |
| Deck.DealIsPartition | game.js:326-361 | each card is either in the solution or in the hands, never both |
| Deck.MoveToFront | server.js:167-169 | splice then unshift: the element at i comes first and the others keep their order |
| Deck.MoveToFrontPermutes | server.js:166-169 | moving one element to the front is a permutation, commutes with taking a field, and keeps elements distinct |
| Deck.HandsMultisetConcat | game.js:353-358 | the cards of two runs of hands put together are the cards of each run |
| Movement.PawnBlocks | game.js:392-398 | the pawn loop reports a block exactly when a pawn of another character stands on the square outside any room |
| Movement.ExtendSound | game.js:384-403 | the BFS queue entry for a passable neighbour carries a sound path one step longer |
| Movement.FindPath | game.js:364-407 | a returned path runs from start to end through 4-adjacent steps; every square after the start is walkable and free of other hallway pawns; its length is distance + 1; start = end gives distance 0 |
| Movement.UnblockedExitsHas | game.js:525-543 | an exit is listed exactly when it is the hallway square of one of the room's doors and no other hallway pawn stands on it |
| Movement.GetAllExitHallways | game.js:525-543 | the loop returns the free door hallway squares of the room in door order, each passable |
| Movement.BestRoomEntry | game.js:437-459 | any path kept reaches the free hallway square of a door of the target room from a start, and its cost with the exit and entry steps fits the roll |
| Movement.BestHallwayRoute | game.js:496-502 | any path kept is a sound route from a start to the target |
| Movement.ValidateMove | game.js:410-522 | room target: "all exits blocked" exactly when no start exists; success lands on the room centre via a free door within the roll. Hallway target: not walkable, occupied and all-exits-blocked each exactly when their condition holds; success lands on the target by a route that, with the exit step, fits the roll; "too far" carries a real route's cost, above the roll, and the roll |
| Movement.UseSecretPassage | game.js:552-569 | refused exactly when not in a room, or in a room with no passage; otherwise lands on the centre of the room the passage table names for the room left, tagged with it |
| Movement.PassageRoundTrip | game.js:151-156 | taking a passage and then the passage of the room reached brings the pawn back to the centre of the room it left |
| Roster.FindIndex | server.js:163 | the first index whose element satisfies the test, or -1 exactly when none does |
| Roster.IndexOf | server.js:845 | the first index holding the socket id, or -1 exactly when no player has it |
| Roster.LowerMatches | server.js:83 | two names lower to the same string exactly when they have the same length and agree letter by letter up to ASCII case |
| Roster.LowerIdempotent | server.js:83 | lowering twice is lowering once, and leaves no upper-case ASCII letter |
| Roster.FilterHas | server.js:736 | the filter keeps exactly the elements that pass the test |
| Roster.FilterDistinct | server.js:736 | filtering keeps a field distinct when it was distinct before |
| Roster.FilterCast | server.js:736 | filtering players who all have a character and a position leaves such players |
| Roster.ActivePlayersHas | server.js:606 | the active players are exactly the players whose id is not eliminated |
| Roster.WithoutHas | server.js:736 | after the disconnect filter, exactly the records of other sockets remain |
| Roster.WithoutGone | server.js:736 | after the disconnect filter, the departed socket is no longer found |
| Roster.WithoutKeepsCast | server.js:736 | the remaining players keep their characters, still distinct |
| Roster.NextTurnIndex | server.js:845-853 | the skipping loop ends on the first non-eliminated index from the one after the current player, cyclically, or on the start index when all are eliminated |
| Roster.FirstActiveIsNext | server.js:846-853 | walking from the start past eliminated players only lands where endTurn lands |
| Roster.NextTurnDetermined | server.js:846-853 | the next turn is pinned down: any index meeting the description is the first active one walking round |
| Roster.NextTurnUnique | server.js:846-853 | at most one index meets the description of the next turn |
| Roster.NextTurnActive | server.js:846-853 | while some player is not eliminated, the turn never lands on an eliminated one |
| Roster.DisproversGoRound | server.js:787-806 | with the cursor below n - 1, (suggesterIndex + 1 + k) mod n is never the suggester, and distinct cursors ask distinct players |
| Roster.SeatPlayers | server.js:135-139 | player i gets character i and its starting square, and nothing else changes; distinct characters give distinct characters |
| Roster.PlacePawns | server.js:145-149 | every pawn is placed; each player's pawn is on the player's position; other characters' pawns stay on their starting squares |
| Roster.HandOut | server.js:157-160 | player i gets hand i, and nothing else changes |
| Server.DisproverIndex | server.js:464-465 | the disprover index is a valid index, and not the suggester's while the cursor is below n - 1 |
| Server.DisproverNeverRepeats | server.js:779-806 | during a round nobody is asked twice and the suggester is never asked |
| Server.HandsMoveToFront | server.js:163-169 | moving Miss Scarlett's player to the front keeps the cards the hands hold |
| Server.SeatAndShuffle | server.js:134-142 | after assignCharacters, the forEach and the shuffle, the same players appear in some order. Each has a distinct character and stands on its starting square |
| Server.PlaceStartingPawns | server.js:144-149 | with every player on their starting square, the pawn map is the starting pawn map: every character's pawn stands on its starting square |
| Server.DealHands | server.js:154-160 | players keep their order and identity; the hands and the solution partition the deck; hand sizes within one |
| Server.ScarlettFirst | server.js:162-172 | Miss Scarlett's player, when present, comes first. Otherwise the table is only reordered, and cards, characters and hand balance are kept |
| Server.SetUpTable | server.js:134-172 | the start-game table: the lobby's players in some order, each with a distinct character on its starting square. Miss Scarlett's player is first when present. The hands and the solution partition the deck, with sizes within one |
| Server.Summon | server.js:423-426 | with characters of their own, exactly the other players of the suggested suspect move to the room centre; nobody else changes |
| Server.SummonKeepsCast | server.js:423-426 | summoning changes positions only, so characters stay distinct |
| Server.Rejoined | server.js:694-700 | the player keeps id and name and loses character, position, cards and accusation |
| Server.TurnAfter | server.js:841-859 | the index endTurn chooses: the first non-eliminated player after the current one, cyclically; active whenever some player is |
| Server.TurnAfterDeparted | server.js:736-753 | when the current player has left, the turn goes to the first non-eliminated player from index 0 |
| Server.Session.constructor | server.js:26 | no room exists yet |
| Server.Session.Join | server.js:33-110 | each refusal holds exactly when its check fails, in order: code outside 1..999, game started, six players, name taken ignoring case. There is no other reply, so a join passing all four is accepted. A refusal changes nothing. Success appends the new player, creating the room with the caller as host when missing |
| Server.Session.EndTurn | server.js:841-868 | the turn passes to TurnAfter of the current player, in the roll phase, with the roll and any suggestion cleared; nothing else changes |
| Server.Session.ContinueDisproving | server.js:779-838 | once the cursor reaches n - 1 the suggestion is cleared and the phase is 'end'; otherwise nothing changes |
| Server.Session.StartGame | server.js:113-199 | ignored without a room; refused exactly when the caller is not the host, or with fewer than three players; accepted otherwise. Success produces the start-game table, a solution, the starting pawns and weapons, the first player to move, and the roll phase. Refusals change nothing |
| Server.Session.RollDice | server.js:202-237 | ignored unless seated in a started game; refused exactly when not the current player or not in the roll phase; accepted otherwise, setting a roll of 2..12 and the move phase; refusals change nothing |
| Server.Session.MovePawn | server.js:240-308 | ignored unless seated in a started game; refused exactly when not the current player in the move phase; for that player, refused as not walkable, as occupied, and as all exits blocked exactly when validateMove's conditions for those errors hold; refused on re-entering the room left; a move validateMove accepts, not back into the room left, updates the player's position and pawn; the phase becomes 'suggest' after entering a room, 'end' otherwise |
| Server.Session.TakeSecretPassage | server.js:311-356 | only the current player in the roll phase; a passage taken moves the player and their pawn to the destination's centre and sets 'suggest'; a refused passage changes nothing |
| Server.Session.StayPut | server.js:359-389 | ignored unless seated in a started game; refused exactly when not the current player in the roll phase, or when the player's square lies in no room; accepted otherwise, setting 'suggest' and changing nothing else |
| Server.Session.MakeSuggestion | server.js:392-453 | ignored unless seated in a started game; refused exactly when not the current player in the suggest phase, or not in a room; accepted otherwise. The suspect's pawn and the weapon move to that room, and the suspect's other player is summoned. The round opens with cursor 0, or lapses at once with no other player |
| Server.Session.ShowCard | server.js:456-518 | ignored without a pending suggestion; refused exactly when the caller is not the player asked, the card is not in their hand, or the suggestion does not name it; accepted otherwise. The round then closes and the phase is 'end' |
| Server.Session.CannotDisprove | server.js:521-550 | only the player asked; the cursor moves on, and the round lapses into 'end' once it reaches n - 1 |
| Server.Session.MakeAccusation | server.js:553-624 | only the current player, not yet accused, in any phase. Right, they win, and nothing else changes. Wrong, they are eliminated, and then the one player left wins, or the turn passes on |
| Server.Session.EndTurnCommand | server.js:627-644 | only the current player, and not in the suggest phase; then the turn passes as endTurn passes it |
| Server.Session.StartNewGame | server.js:669-708 | only the host; the record returns to the lobby state and every player keeps only id and name |
| Server.Session.Disconnect | server.js:727-767 | the socket's records leave. An empty room is deleted, and a departing host hands over to the first player left. The current player's departure passes the turn to the first active player from index 0 |

## Left out

- Emitted messages, `console.log`, Express serving, `socket.join` and the socket lookups are left out. Only the room record is modelled.
- The global `rooms` registry is left out. One `Session` stands for one room code. The string keys ("007" and "7" parse to the same number but name different rooms) and a socket moving between rooms are not modelled.
- close-win-modal and decline-new-game are left out: they are lobby bookkeeping with no rule of the game in them.
- The write-only fields `playerCards`, `lastSuggestionRoom`, `playersClosedModal` and `p.eliminated` are left out. Nothing in the handlers modelled here reads them.
- `Math.random` is left out: the dice and the shuffle draws are parameters.
- Client inputs are typed. Room codes arrive as `Option<int>`, the result of `parseInt`, with None for NaN. Suspects, weapons and cards arrive as members of their datatypes. Unknown names and a target given as a room name are not modelled.
- The pixel helpers, `colLetterToIndex`, `rowNumberToIndex` and the unused `getExitHallway` are left out.
- `toLowerCase` is modelled on ASCII letters only; other Unicode case mappings are not.
- The `matchingCards` list that continueDisproving sends to the disprover is left out. It only feeds a message.
- Aliasing is left out. A moved player's position and their pawn entry are one object in the source, and two equal values here.
- Movement.FindPath: only soundness is proved. That the path is shortest, and that a path is found whenever one exists, are not stated.
- Server.Session.MovePawn: a legal command whose target is reachable within the roll is not promised `Ok`. The refusals "cannot reach", "no path" and "too far" depend on validateMove's completeness, which is not stated.
- Movement.ValidateMove: success and the "too far" error are tied to a real route within the roll. That the route chosen is the shortest, and that "cannot reach" or "no path" means no route exists, are not stated.
- Movement.BestRoomEntry: states what any kept path satisfies, not that it is the shortest over all doors and starts.
- Movement.BestHallwayRoute: states what any kept path satisfies, not that it is the shortest over all starts.
