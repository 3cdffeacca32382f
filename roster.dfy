/**
 * The player records of a server.js session and the list operations the
 * handlers run over them: first-match search, case-insensitive name
 * comparison, the active-player filter, the cyclic turn order that skips
 * eliminated players, the order in which players are asked to disprove, and
 * the seating, pawn placement and card hand-out of start-game.
 */
module Roster {
  import opened Wrappers
  import opened Board
  import opened Deck
  import opened Movement

  /** A socket id; only compared for equality. */
  type SocketId = string

  datatype Player = Player(id: SocketId, name: string, character: Option<Character>,
                           position: Option<Position>, cards: seq<Card>, hasAccused: bool)

  /** The record join-room pushes: no character, position or cards yet. */
  function NewPlayer(id: SocketId, name: string): Player
  {
    Player(id, name, None, None, [], false)
  }

  function IdOf(p: Player): SocketId { p.id }
  function CharacterOf(p: Player): Option<Character> { p.character }
  function CardsOf(p: Player): seq<Card> { p.cards }

  /** A player who has a character and a position, as every player has once the game started. */
  predicate Cast(p: Player)
  {
    p.character.Some? && p.position.Some?
  }

  predicate AllCast(players: seq<Player>)
  {
    forall i :: 0 <= i < |players| ==> Cast(players[i])
  }

  predicate DistinctCharacters(players: seq<Player>)
  {
    Distinct(Map(CharacterOf, players))
  }

  // ---------------------------------------------------------------------
  // Array.prototype.find / findIndex
  // ---------------------------------------------------------------------

  /** findIndex: the first index whose element satisfies `p`, or -1. */
  function FindIndex<T>(s: seq<T>, p: T -> bool): (r: int)
    ensures -1 <= r < |s|
    ensures r == -1 <==> forall i :: 0 <= i < |s| ==> !p(s[i])
    ensures r >= 0 ==> p(s[r]) && forall i :: 0 <= i < r ==> !p(s[i])
  {
    if |s| == 0 then -1
    else if p(s[0]) then 0
    else
      var r := FindIndex(s[1..], p);
      assert forall i :: 1 <= i < |s| ==> s[1..][i - 1] == s[i];
      if r == -1 then -1 else r + 1
  }

  /** The index of the first player with socket id `id`, or -1. */
  function IndexOf(players: seq<Player>, id: SocketId): (r: int)
    ensures -1 <= r < |players|
    ensures r == -1 <==> forall i :: 0 <= i < |players| ==> players[i].id != id
    ensures r >= 0 ==> players[r].id == id && forall i :: 0 <= i < r ==> players[i].id != id
  {
    FindIndex(players, (p: Player) => p.id == id)
  }

  // ---------------------------------------------------------------------
  // Names
  // ---------------------------------------------------------------------

  /** toLowerCase on the ASCII letters. */
  function LowerChar(c: char): char
  {
    if 'A' <= c <= 'Z' then (c as int + 32) as char else c
  }

  function Lower(s: string): string
  {
    seq(|s|, i requires 0 <= i < |s| => LowerChar(s[i]))
  }

  /** Two characters are the same ASCII letter up to case, or simply equal. */
  predicate SameIgnoringCase(a: char, b: char)
  {
    || a == b
    || ('A' <= a <= 'Z' && b as int == a as int + 32)
    || ('A' <= b <= 'Z' && a as int == b as int + 32)
  }

  /**
   * The comparison join-room makes between names: two names lower to the
   * same string exactly when they have the same length and agree letter by
   * letter up to ASCII case.
   */
  lemma LowerMatches(a: string, b: string)
    ensures Lower(a) == Lower(b) <==>
      |a| == |b| && forall i :: 0 <= i < |a| ==> SameIgnoringCase(a[i], b[i])
  {
    if Lower(a) == Lower(b) {
      forall i | 0 <= i < |a|
        ensures SameIgnoringCase(a[i], b[i])
      {
        assert Lower(a)[i] == Lower(b)[i];
      }
    }
    if |a| == |b| && forall i :: 0 <= i < |a| ==> SameIgnoringCase(a[i], b[i]) {
      forall i | 0 <= i < |a|
        ensures Lower(a)[i] == Lower(b)[i]
      {
        assert SameIgnoringCase(a[i], b[i]);
      }
    }
  }

  /** Lowering is idempotent and leaves no upper-case ASCII letter. */
  lemma LowerIdempotent(s: string)
    ensures Lower(Lower(s)) == Lower(s)
    ensures forall i :: 0 <= i < |s| ==> !('A' <= Lower(s)[i] <= 'Z')
  {
  }

  /** Some player already has `name`, compared case-insensitively. */
  predicate NameTaken(players: seq<Player>, name: string)
  {
    exists i :: 0 <= i < |players| && Lower(players[i].name) == Lower(name)
  }

  // ---------------------------------------------------------------------
  // Eliminated players
  // ---------------------------------------------------------------------

  /** Array.prototype.filter: the elements satisfying `keep`, in order. */
  function Filter<T>(s: seq<T>, keep: T -> bool): (r: seq<T>)
    ensures |r| <= |s|
  {
    if |s| == 0 then []
    else
      var front := Filter(s[..|s| - 1], keep);
      if keep(s[|s| - 1]) then front + [s[|s| - 1]] else front
  }

  /** The filter keeps exactly the elements satisfying `keep`. */
  lemma {:induction false} FilterHas<T>(s: seq<T>, keep: T -> bool, x: T)
    ensures x in Filter(s, keep) <==> x in s && keep(x)
  {
    if |s| > 0 {
      var front := s[..|s| - 1];
      FilterHas(front, keep, x);
      assert s == front + [s[|s| - 1]];
    }
  }

  /** Filtering keeps a field distinct when it was distinct before. */
  lemma {:induction false} FilterDistinct<T, U>(s: seq<T>, keep: T -> bool, f: T -> U)
    requires Distinct(Map(f, s))
    ensures Distinct(Map(f, Filter(s, keep)))
  {
    if |s| > 0 {
      var last := |s| - 1;
      var front := s[..last];
      assert Map(f, front) == Map(f, s)[..last];
      FilterDistinct(front, keep, f);
      var r := Filter(s, keep);
      if keep(s[last]) {
        var fr := Filter(front, keep);
        forall p | 0 <= p < |fr| ensures f(fr[p]) != f(s[last]) {
          FilterHas(front, keep, fr[p]);
          var k :| 0 <= k < |front| && front[k] == fr[p];
          assert Map(f, s)[k] != Map(f, s)[last];
        }
        assert r == fr + [s[last]];
      }
    }
  }

  /** Filtering a list of cast players leaves cast players. */
  lemma FilterCast(players: seq<Player>, keep: Player -> bool)
    requires AllCast(players)
    ensures AllCast(Filter(players, keep))
  {
    var r := Filter(players, keep);
    forall i | 0 <= i < |r| ensures Cast(r[i]) {
      FilterHas(players, keep, r[i]);
    }
  }

  /** players.filter(p => !eliminatedPlayers.includes(p.id)) */
  function ActivePlayers(players: seq<Player>, eliminated: seq<SocketId>): seq<Player>
  {
    Filter(players, (p: Player) => p.id !in eliminated)
  }

  /** The active players are exactly the players whose id is not eliminated. */
  lemma ActivePlayersHas(players: seq<Player>, eliminated: seq<SocketId>, p: Player)
    ensures p in ActivePlayers(players, eliminated) <==> p in players && p.id !in eliminated
  {
    FilterHas(players, (q: Player) => q.id !in eliminated, p);
  }

  /** players.filter(p => p.id !== id): the roster after a disconnect. */
  function Without(players: seq<Player>, id: SocketId): seq<Player>
  {
    Filter(players, (p: Player) => p.id != id)
  }

  /** Removing a socket keeps everyone else, in order, and removes every record of it. */
  lemma WithoutHas(players: seq<Player>, id: SocketId, p: Player)
    ensures p in Without(players, id) <==> p in players && p.id != id
  {
    FilterHas(players, (q: Player) => q.id != id, p);
  }

  /** After a disconnect the departed socket is no longer found. */
  lemma WithoutGone(players: seq<Player>, id: SocketId)
    ensures IndexOf(Without(players, id), id) == -1
  {
    var rest := Without(players, id);
    forall j | 0 <= j < |rest| ensures rest[j].id != id {
      WithoutHas(players, id, rest[j]);
    }
  }

  /** Removing a socket keeps the remaining players cast, with characters of their own. */
  lemma WithoutKeepsCast(players: seq<Player>, id: SocketId)
    requires AllCast(players) && DistinctCharacters(players)
    ensures AllCast(Without(players, id)) && DistinctCharacters(Without(players, id))
  {
    FilterCast(players, (p: Player) => p.id != id);
    FilterDistinct(players, (p: Player) => p.id != id, CharacterOf);
  }

  // ---------------------------------------------------------------------
  // endTurn: the next player
  // ---------------------------------------------------------------------

  /** The index `j` places after `s`, going round a table of `n`. */
  function Walk(s: nat, j: nat, n: nat): nat
    requires s < n && j <= n
  {
    if s + j < n then s + j else s + j - n
  }

  /** The first `k` players after `s`, in turn order, are all eliminated. */
  predicate EliminatedBefore(ids: seq<SocketId>, eliminated: seq<SocketId>, s: nat, k: nat)
    requires s < |ids| && k <= |ids|
  {
    forall j :: 0 <= j < k ==> ids[Walk(s, j, |ids|)] in eliminated
  }

  /**
   * `next` is where endTurn lands when it starts looking at `s`: the first
   * non-eliminated player from `s` on, cyclically, or `s` itself when every
   * player is eliminated.
   */
  predicate IsNextTurn(ids: seq<SocketId>, eliminated: seq<SocketId>, s: nat, next: nat)
    requires s < |ids|
  {
    || (exists k :: 0 <= k < |ids| && next == Walk(s, k, |ids|)
          && ids[next] !in eliminated && EliminatedBefore(ids, eliminated, s, k))
    || (EliminatedBefore(ids, eliminated, s, |ids|) && next == s)
  }

  /**
   * The index loop of endTurn: start after `currentIndex` (which is -1 when
   * the current player is gone) and skip eliminated players, at most n times.
   */
  method NextTurnIndex(ids: seq<SocketId>, eliminated: seq<SocketId>, currentIndex: int) returns (next: nat)
    requires |ids| >= 1 && -1 <= currentIndex < |ids|
    ensures next < |ids|
    ensures IsNextTurn(ids, eliminated, (currentIndex + 1) % |ids|, next)
  {
    var n := |ids|;
    next := (currentIndex + 1) % n;
    ghost var s := next;
    var attempts := 0;
    while ids[next] in eliminated && attempts < n
      invariant 0 <= attempts <= n
      invariant next == Walk(s, attempts, n)
      invariant EliminatedBefore(ids, eliminated, s, attempts)
      decreases n - attempts
    {
      ModNext(next, n);
      next := (next + 1) % n;
      attempts := attempts + 1;
    }
  }

  /** Looking from the `j`-th place after `s` on: the first non-eliminated index, or `s`. */
  function FirstActiveFrom(ids: seq<SocketId>, eliminated: seq<SocketId>, s: nat, j: nat): (r: nat)
    requires s < |ids| && j <= |ids|
    ensures r < |ids|
    decreases |ids| - j
  {
    if j == |ids| then s
    else if ids[Walk(s, j, |ids|)] !in eliminated then Walk(s, j, |ids|)
    else FirstActiveFrom(ids, eliminated, s, j + 1)
  }

  lemma {:induction false} FirstActiveAt(ids: seq<SocketId>, eliminated: seq<SocketId>, s: nat, j: nat, k: nat)
    requires s < |ids| && j <= k <= |ids|
    requires EliminatedBefore(ids, eliminated, s, k)
    requires k < |ids| ==> ids[Walk(s, k, |ids|)] !in eliminated
    ensures FirstActiveFrom(ids, eliminated, s, j) == if k < |ids| then Walk(s, k, |ids|) else s
    decreases k - j
  {
    if j < k {
      FirstActiveAt(ids, eliminated, s, j + 1, k);
    }
  }

  /** Walking from the `j`-th place on, past eliminated players only, ends where endTurn lands. */
  lemma {:induction false} FirstActiveIsNext(ids: seq<SocketId>, eliminated: seq<SocketId>, s: nat, j: nat)
    requires s < |ids| && j <= |ids|
    requires EliminatedBefore(ids, eliminated, s, j)
    ensures IsNextTurn(ids, eliminated, s, FirstActiveFrom(ids, eliminated, s, j))
    decreases |ids| - j
  {
    if j < |ids| && ids[Walk(s, j, |ids|)] in eliminated {
      FirstActiveIsNext(ids, eliminated, s, j + 1);
    }
  }

  /**
   * IsNextTurn pins the index down: whatever index satisfies it is the one
   * found by walking round the table from `s`.
   */
  lemma NextTurnDetermined(ids: seq<SocketId>, eliminated: seq<SocketId>, s: nat, next: nat)
    requires s < |ids|
    requires IsNextTurn(ids, eliminated, s, next)
    ensures next == FirstActiveFrom(ids, eliminated, s, 0)
  {
    var n := |ids|;
    if exists k :: 0 <= k < n && next == Walk(s, k, n) && ids[next] !in eliminated && EliminatedBefore(ids, eliminated, s, k) {
      var k :| 0 <= k < n && next == Walk(s, k, n) && ids[next] !in eliminated && EliminatedBefore(ids, eliminated, s, k);
      FirstActiveAt(ids, eliminated, s, 0, k);
    } else {
      FirstActiveAt(ids, eliminated, s, 0, n);
    }
  }

  /** The next turn is determined: at most one index satisfies IsNextTurn. */
  lemma NextTurnUnique(ids: seq<SocketId>, eliminated: seq<SocketId>, s: nat, a: nat, b: nat)
    requires s < |ids|
    requires IsNextTurn(ids, eliminated, s, a) && IsNextTurn(ids, eliminated, s, b)
    ensures a == b
  {
    NextTurnDetermined(ids, eliminated, s, a);
    NextTurnDetermined(ids, eliminated, s, b);
  }

  /** While some player is not eliminated, the turn never lands on an eliminated one. */
  lemma NextTurnActive(ids: seq<SocketId>, eliminated: seq<SocketId>, s: nat, next: nat, i: nat)
    requires s < |ids| && i < |ids| && ids[i] !in eliminated
    requires IsNextTurn(ids, eliminated, s, next)
    ensures next < |ids| && ids[next] !in eliminated
  {
    var n := |ids|;
    var j := if i >= s then i - s else i + n - s;
    assert Walk(s, j, n) == i;
    assert !EliminatedBefore(ids, eliminated, s, n);
  }

  // ---------------------------------------------------------------------
  // The disproof round
  // ---------------------------------------------------------------------

  lemma ModOnce(x: nat, n: nat)
    requires n >= 1 && x < 2 * n
    ensures x % n == if x < n then x else x - n
  {
    if x < n {
      DivModUnique(x, n, 0, x);
    } else {
      DivModUnique(x, n, 1, x - n);
    }
  }

  /**
   * The disprover with cursor `k` sits at (suggesterIndex + 1 + k) mod n.
   * While k < n - 1 that is never the suggester, and distinct cursors ask
   * distinct players, so the round asks each other player once.
   */
  lemma DisproversGoRound(si: nat, n: nat, k1: nat, k2: nat)
    requires si < n && k1 < n - 1 && k2 < n - 1
    ensures (si + 1 + k1) % n != si
    ensures k1 != k2 ==> (si + 1 + k1) % n != (si + 1 + k2) % n
  {
    ModOnce(si + 1 + k1, n);
    ModOnce(si + 1 + k2, n);
  }

  // ---------------------------------------------------------------------
  // start-game
  // ---------------------------------------------------------------------

  /** The forEach of start-game giving player `i` character `chars[i]` and its starting square. */
  method SeatPlayers(players: seq<Player>, chars: seq<Character>) returns (seated: seq<Player>)
    requires |chars| == |players|
    ensures |seated| == |players|
    ensures forall i :: 0 <= i < |players| ==>
      seated[i] == players[i].(character := Some(chars[i]), position := Some(StartingPosition(chars[i])))
    ensures Map(IdOf, seated) == Map(IdOf, players)
    ensures Distinct(chars) ==> DistinctCharacters(seated)
    ensures AllCast(seated)
  {
    seated := players;
    for i := 0 to |players|
      invariant |seated| == |players|
      invariant forall k :: 0 <= k < i ==>
        seated[k] == players[k].(character := Some(chars[k]), position := Some(StartingPosition(chars[k])))
      invariant forall k :: i <= k < |players| ==> seated[k] == players[k]
    {
      seated := seated[i := seated[i].(character := Some(chars[i]), position := Some(StartingPosition(chars[i])))];
    }
    assert Map(IdOf, seated) == Map(IdOf, players);
    if Distinct(chars) {
      forall p, q | 0 <= p < q < |seated| ensures Map(CharacterOf, seated)[p] != Map(CharacterOf, seated)[q] {
        assert chars[p] != chars[q];
      }
    }
  }

  /**
   * initializePawns followed by the forEach that puts each player's pawn on
   * the player's position.
   */
  method PlacePawns(players: seq<Player>) returns (pawns: Pawns)
    requires AllCast(players) && DistinctCharacters(players)
    ensures forall c :: c in pawns
    ensures forall i :: 0 <= i < |players| ==> pawns[players[i].character.value] == players[i].position.value
    ensures forall c :: (forall i :: 0 <= i < |players| ==> players[i].character != Some(c)) ==>
      pawns[c] == StartingPosition(c)
  {
    pawns := InitializePawns();
    for i := 0 to |players|
      invariant forall c :: c in pawns
      invariant forall k :: 0 <= k < i ==> pawns[players[k].character.value] == players[k].position.value
      invariant forall c :: (forall k :: 0 <= k < i ==> players[k].character != Some(c)) ==>
        pawns[c] == StartingPosition(c)
    {
      forall k | 0 <= k < i ensures players[k].character != players[i].character {
        assert Map(CharacterOf, players)[k] != Map(CharacterOf, players)[i];
      }
      pawns := pawns[players[i].character.value := players[i].position.value];
    }
  }

  /** The forEach of start-game giving player `i` the hand `hands[i]`. */
  method HandOut(players: seq<Player>, hands: seq<seq<Card>>) returns (dealt: seq<Player>)
    requires |hands| == |players|
    ensures |dealt| == |players|
    ensures forall i :: 0 <= i < |players| ==> dealt[i] == players[i].(cards := hands[i])
    ensures Map(CardsOf, dealt) == hands
    ensures Map(IdOf, dealt) == Map(IdOf, players)
    ensures Map(CharacterOf, dealt) == Map(CharacterOf, players)
  {
    dealt := players;
    for i := 0 to |players|
      invariant |dealt| == |players|
      invariant forall k :: 0 <= k < i ==> dealt[k] == players[k].(cards := hands[k])
      invariant forall k :: i <= k < |players| ==> dealt[k] == players[k]
    {
      dealt := dealt[i := dealt[i].(cards := hands[i])];
    }
    assert Map(CardsOf, dealt) == hands;
    assert Map(IdOf, dealt) == Map(IdOf, players);
    assert Map(CharacterOf, dealt) == Map(CharacterOf, players);
  }
}
