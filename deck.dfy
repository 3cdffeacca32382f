/**
 * The deck engine of game.js: the 21 cards, the in-place Fisher-Yates
 * shuffle, the random assignment of characters and the deal that draws the
 * hidden solution and hands the remaining cards out round-robin.
 *
 * Math.random is not modelled: each shuffle takes the sequence of indices it
 * draws, `draws[i]` being the value of floor(random * (i + 1)) at step `i`.
 */
module Deck {
  import opened Board

  datatype Card = SuspectCard(suspect: Character) | WeaponCard(weapon: Weapon) | RoomCard(room: Room)

  /** The hidden envelope: one suspect, one weapon and one room. */
  datatype Solution = Solution(suspect: Character, weapon: Weapon, room: Room)

  function SolutionCards(sol: Solution): seq<Card>
  {
    [SuspectCard(sol.suspect), WeaponCard(sol.weapon), RoomCard(sol.room)]
  }

  /** The three piles, in the order of the CHARACTERS keys, WEAPONS and ROOMS. */
  function SuspectPile(): seq<Card>
  {
    seq(|Characters|, k requires 0 <= k < |Characters| => SuspectCard(Characters[k]))
  }

  function WeaponPile(): seq<Card>
  {
    seq(|Weapons|, k requires 0 <= k < |Weapons| => WeaponCard(Weapons[k]))
  }

  function RoomPile(): seq<Card>
  {
    seq(|Rooms|, k requires 0 <= k < |Rooms| => RoomCard(Rooms[k]))
  }

  function FullDeck(): seq<Card>
  {
    SuspectPile() + WeaponPile() + RoomPile()
  }

  predicate Distinct<T(==)>(s: seq<T>)
  {
    forall p, q :: 0 <= p < q < |s| ==> s[p] != s[q]
  }

  /** The image of a sequence under `f`, element by element. */
  function Map<T, U>(f: T -> U, s: seq<T>): (r: seq<U>)
    ensures |r| == |s|
    ensures forall k :: 0 <= k < |s| ==> r[k] == f(s[k])
  {
    seq(|s|, k requires 0 <= k < |s| => f(s[k]))
  }

  /** Every card of the deck is present exactly once: 6 suspects, 6 weapons, 9 rooms. */
  lemma FullDeckHasEveryCardOnce(c: Card)
    ensures |FullDeck()| == 21
    ensures multiset(FullDeck())[c] == 1
  {
    AllListed();
    var d := FullDeck();
    assert Distinct(d) by {
      forall p, q | 0 <= p < q < |d| ensures d[p] != d[q] {
        assert d[p] == (if p < 6 then SuspectCard(Characters[p]) else if p < 12 then WeaponCard(Weapons[p - 6]) else RoomCard(Rooms[p - 12]));
      }
    }
    var i: nat :| i < |d| && d[i] == c by {
      match c
      case SuspectCard(s) =>
        assert s in Characters;
        var k :| 0 <= k < |Characters| && Characters[k] == s;
        assert d[k] == c;
      case WeaponCard(w) =>
        assert w in Weapons;
        var k :| 0 <= k < |Weapons| && Weapons[k] == w;
        assert d[6 + k] == c;
      case RoomCard(r) =>
        assert r in Rooms;
        var k :| 0 <= k < |Rooms| && Rooms[k] == r;
        assert d[12 + k] == c;
    }
    DistinctCountsOne(d, i);
  }

  /** In a sequence without repetitions, the element at `i` occurs exactly once. */
  lemma {:induction false} DistinctCountsOne<T>(s: seq<T>, i: nat)
    requires Distinct(s) && i < |s|
    ensures multiset(s)[s[i]] == 1
  {
    var last := |s| - 1;
    assert s == s[..last] + [s[last]];
    if i == last {
      assert s[i] !in s[..last];
    } else {
      assert Distinct(s[..last]);
      DistinctCountsOne(s[..last], i);
      assert s[..last][i] == s[i];
    }
  }

  // ---------------------------------------------------------------------
  // shuffleArray (Fisher-Yates)
  // ---------------------------------------------------------------------

  /** Random draws fit for shuffling `n` elements: step `i` picks an index in 0..i. */
  predicate DrawsFor(draws: seq<nat>, n: nat)
  {
    |draws| == n && forall i :: 0 <= i < n ==> draws[i] <= i
  }

  /** The destructuring swap `[a[i], a[j]] = [a[j], a[i]]`. */
  function Swap<T>(s: seq<T>, i: nat, j: nat): (r: seq<T>)
    requires i < |s| && j < |s|
    ensures |r| == |s| && r[i] == s[j] && r[j] == s[i]
    ensures forall k :: 0 <= k < |s| && k != i && k != j ==> r[k] == s[k]
  {
    s[i := s[j]][j := s[i]]
  }

  /** What the descending loop does from index `i` down to 1. */
  function ShuffleRest<T>(s: seq<T>, draws: seq<nat>, i: nat): (r: seq<T>)
    requires DrawsFor(draws, |s|) && i < |s|
    ensures |r| == |s|
    decreases i
  {
    if i == 0 then s else ShuffleRest(Swap(s, i, draws[i]), draws, i - 1)
  }

  /** The result of shuffleArray on `s` with the given draws. */
  function Shuffled<T>(s: seq<T>, draws: seq<nat>): (r: seq<T>)
    requires DrawsFor(draws, |s|)
    ensures |r| == |s|
  {
    if |s| == 0 then s else ShuffleRest(s, draws, |s| - 1)
  }

  lemma SwapPermutes<T>(s: seq<T>, i: nat, j: nat)
    requires i < |s| && j < |s|
    ensures multiset(Swap(s, i, j)) == multiset(s)
    ensures Distinct(s) ==> Distinct(Swap(s, i, j))
  {
    SwapMultiset(s, i, j);
    if Distinct(s) {
      SwapDistinct(s, i, j);
    }
  }

  lemma SwapMultiset<T>(s: seq<T>, i: nat, j: nat)
    requires i < |s| && j < |s|
    ensures multiset(Swap(s, i, j)) == multiset(s)
  {
    var t := s[i := s[j]];
    assert multiset(t) == multiset(s) - multiset{s[i]} + multiset{s[j]};
    assert t[j] == s[j];
  }

  lemma SwapDistinct<T>(s: seq<T>, i: nat, j: nat)
    requires i < |s| && j < |s| && Distinct(s)
    ensures Distinct(Swap(s, i, j))
  {
    var r := Swap(s, i, j);
    forall p, q | 0 <= p < q < |r| ensures r[p] != r[q] {
      var sp := if p == i then j else if p == j then i else p;
      var sq := if q == i then j else if q == j then i else q;
      assert r[p] == s[sp] && r[q] == s[sq] && sp != sq;
    }
  }

  lemma {:induction false} ShuffleRestPermutes<T>(s: seq<T>, draws: seq<nat>, i: nat)
    requires DrawsFor(draws, |s|) && i < |s|
    ensures |ShuffleRest(s, draws, i)| == |s|
    ensures multiset(ShuffleRest(s, draws, i)) == multiset(s)
    ensures Distinct(s) ==> Distinct(ShuffleRest(s, draws, i))
    decreases i
  {
    if i > 0 {
      SwapPermutes(s, i, draws[i]);
      ShuffleRestPermutes(Swap(s, i, draws[i]), draws, i - 1);
    }
  }

  /**
   * shuffleArray only swaps: its result is a permutation of its input, and
   * an input without repetitions gives an output without repetitions.
   */
  lemma ShuffledPermutes<T>(s: seq<T>, draws: seq<nat>)
    requires DrawsFor(draws, |s|)
    ensures |Shuffled(s, draws)| == |s|
    ensures multiset(Shuffled(s, draws)) == multiset(s)
    ensures Distinct(s) ==> Distinct(Shuffled(s, draws))
  {
    if |s| > 0 {
      ShuffleRestPermutes(s, draws, |s| - 1);
    }
  }

  lemma {:induction false} ShuffleRestMap<T, U>(f: T -> U, s: seq<T>, draws: seq<nat>, i: nat)
    requires DrawsFor(draws, |s|) && i < |s|
    ensures Map(f, ShuffleRest(s, draws, i)) == ShuffleRest(Map(f, s), draws, i)
    decreases i
  {
    if i > 0 {
      assert Map(f, Swap(s, i, draws[i])) == Swap(Map(f, s), i, draws[i]);
      ShuffleRestMap(f, Swap(s, i, draws[i]), draws, i - 1);
    }
  }

  /**
   * The shuffle moves elements by position only, so it commutes with taking
   * a field of every element (used for the characters of the shuffled roster).
   */
  lemma ShuffledMap<T, U>(f: T -> U, s: seq<T>, draws: seq<nat>)
    requires DrawsFor(draws, |s|)
    ensures Map(f, Shuffled(s, draws)) == Shuffled(Map(f, s), draws)
  {
    if |s| > 0 {
      ShuffleRestMap(f, s, draws, |s| - 1);
    }
  }

  /** shuffleArray: Fisher-Yates in place, from the last index down to 1. */
  method ShuffleArray<T>(a: array<T>, draws: seq<nat>)
    requires DrawsFor(draws, a.Length)
    modifies a
    ensures a[..] == Shuffled(old(a[..]), draws)
  {
    if a.Length == 0 {
      return;
    }
    var i := a.Length - 1;
    while i > 0
      invariant 0 <= i < a.Length
      invariant ShuffleRest(a[..], draws, i) == Shuffled(old(a[..]), draws)
      decreases i
    {
      var j := draws[i];
      ghost var before := a[..];
      var t := a[i];
      a[i] := a[j];
      a[j] := t;
      assert a[..] == Swap(before, i, j);
      i := i - 1;
    }
  }

  /** Shuffles a copy of `s` (the callers shuffle arrays they own). */
  method ShuffleSeq<T>(s: seq<T>, draws: seq<nat>) returns (r: seq<T>)
    requires DrawsFor(draws, |s|)
    ensures r == Shuffled(s, draws)
    ensures multiset(r) == multiset(s)
  {
    if |s| == 0 {
      return s;
    }
    var a := new T[|s|](k requires 0 <= k < |s| => s[k]);
    assert a[..] == s;
    ShuffleArray(a, draws);
    r := a[..];
    ShuffledPermutes(s, draws);
  }

  // ---------------------------------------------------------------------
  // assignCharacters
  // ---------------------------------------------------------------------

  function Min(a: int, b: int): int { if a <= b then a else b }

  /** assignCharacters: shuffle the six character keys and keep the first `playerCount`. */
  method AssignCharacters(playerCount: nat, draws: seq<nat>) returns (chars: seq<Character>)
    requires DrawsFor(draws, |Characters|)
    ensures chars == Shuffled(Characters, draws)[..Min(playerCount, |Characters|)]
    ensures |chars| == Min(playerCount, 6)
    ensures Distinct(chars)
  {
    var keys := ShuffleSeq(Characters, draws);
    ShuffledPermutes(Characters, draws);
    chars := keys[..Min(playerCount, |keys|)];
  }

  // ---------------------------------------------------------------------
  // dealCards
  // ---------------------------------------------------------------------

  /** `n` empty hands. */
  function EmptyHands(n: nat): (hands: seq<seq<Card>>)
    ensures |hands| == n && forall i :: 0 <= i < n ==> hands[i] == []
  {
    seq(n, _ => [])
  }

  /** Round-robin dealing: card `k` goes to hand `k % n`. */
  function RoundRobin(cards: seq<Card>, n: nat): (hands: seq<seq<Card>>)
    requires n >= 1
    ensures |hands| == n
  {
    if |cards| == 0 then EmptyHands(n)
    else
      var last := |cards| - 1;
      var h := RoundRobin(cards[..last], n);
      h[last % n := h[last % n] + [cards[last]]]
  }

  /** The cards of all hands together. */
  function HandsMultiset(hands: seq<seq<Card>>): multiset<Card>
  {
    if |hands| == 0 then multiset{} else HandsMultiset(hands[..|hands| - 1]) + multiset(hands[|hands| - 1])
  }

  /** A single hand holds the cards of that hand. */
  lemma HandsOne(y: seq<Card>)
    ensures HandsMultiset([y]) == multiset(y)
  {
    assert [y][..0] == [];
  }

  /** Replacing one hand `y` by `y2` exchanges the cards of the two. */
  lemma HandsReplace(h: seq<seq<Card>>, h2: seq<seq<Card>>,
                     a: seq<seq<Card>>, y: seq<Card>, y2: seq<Card>, b: seq<seq<Card>>)
    requires h == a + [y] + b && h2 == a + [y2] + b
    ensures HandsMultiset(h2) + multiset(y) == HandsMultiset(h) + multiset(y2)
  {
    HandsMultisetConcat(a + [y], b);
    HandsMultisetConcat(a, [y]);
    HandsMultisetConcat(a + [y2], b);
    HandsMultisetConcat(a, [y2]);
    HandsOne(y);
    HandsOne(y2);
  }

  /** Appending a card to one hand adds exactly that card to the cards dealt. */
  lemma HandsAppend(hands: seq<seq<Card>>, i: nat, x: Card)
    requires i < |hands|
    ensures HandsMultiset(hands[i := hands[i] + [x]]) == HandsMultiset(hands) + multiset{x}
  {
    var a, b := hands[..i], hands[i + 1..];
    assert hands == a + [hands[i]] + b;
    assert hands[i := hands[i] + [x]] == a + [hands[i] + [x]] + b;
    HandsReplace(hands, hands[i := hands[i] + [x]], a, hands[i], hands[i] + [x], b);
    assert multiset(hands[i] + [x]) == multiset(hands[i]) + multiset{x};
    var before, after := HandsMultiset(hands), HandsMultiset(hands[i := hands[i] + [x]]);
    forall c ensures after[c] == (before + multiset{x})[c] {
      assert (after + multiset(hands[i]))[c] == (before + multiset(hands[i] + [x]))[c];
    }
  }

  lemma {:induction false} EmptyHandsMultiset(n: nat)
    ensures HandsMultiset(EmptyHands(n)) == multiset{}
  {
    if n > 0 {
      assert EmptyHands(n)[..n - 1] == EmptyHands(n - 1);
      EmptyHandsMultiset(n - 1);
    }
  }

  lemma MulAtLeast(k: int, n: int)
    requires n >= 0
    ensures k >= 1 ==> k * n >= n
    ensures k <= -1 ==> k * n <= -n
  {
  }

  /** Euclidean division has one quotient and one remainder. */
  lemma DivModUnique(x: int, n: int, q: int, r: int)
    requires n >= 1 && x == q * n + r && 0 <= r < n
    ensures x / n == q && x % n == r
  {
    var q', r' := x / n, x % n;
    assert (q - q') * n == r' - r;
    MulAtLeast(q - q', n);
  }

  /** Advancing a cyclic index by one. */
  lemma ModNext(p: nat, n: nat)
    requires p < n
    ensures (p + 1) % n == if p + 1 < n then p + 1 else 0
  {
    if p + 1 < n {
      DivModUnique(p + 1, n, 0, p + 1);
    } else {
      DivModUnique(p + 1, n, 1, 0);
    }
  }

  /** How the card after the first `m` lands: it raises the quotient or the remainder. */
  lemma DivModStep(m: nat, n: nat)
    requires n >= 1
    ensures m % n < n - 1 ==> (m + 1) / n == m / n && (m + 1) % n == m % n + 1
    ensures m % n == n - 1 ==> (m + 1) / n == m / n + 1 && (m + 1) % n == 0
  {
    var q, r := m / n, m % n;
    if r < n - 1 {
      DivModUnique(m + 1, n, q, r + 1);
    } else {
      assert m + 1 == (q + 1) * n;
      DivModUnique(m + 1, n, q + 1, 0);
    }
  }

  /** Dealing round-robin hands every card out exactly once. */
  lemma {:induction false} RoundRobinDealsAll(cards: seq<Card>, n: nat)
    requires n >= 1
    ensures HandsMultiset(RoundRobin(cards, n)) == multiset(cards)
  {
    if |cards| == 0 {
      EmptyHandsMultiset(n);
    } else {
      var last := |cards| - 1;
      var h := RoundRobin(cards[..last], n);
      RoundRobinDealsAll(cards[..last], n);
      HandsAppend(h, last % n, cards[last]);
      assert cards == cards[..last] + [cards[last]];
    }
  }

  /** The size of hand `i` after dealing `total` cards to `n` hands. */
  function HandSize(total: nat, n: nat, i: nat): nat
    requires n >= 1
  {
    total / n + (if i < total % n then 1 else 0)
  }

  lemma HandSizeStep(m: nat, n: nat, i: nat)
    requires n >= 1 && i < n
    ensures HandSize(m + 1, n, i) == HandSize(m, n, i) + (if i == m % n then 1 else 0)
  {
    DivModStep(m, n);
  }

  /** Hand `i` gets |cards| / n cards, plus one when `i` is below the remainder. */
  lemma {:induction false} RoundRobinSizes(cards: seq<Card>, n: nat)
    requires n >= 1
    ensures forall i :: 0 <= i < n ==> |RoundRobin(cards, n)[i]| == HandSize(|cards|, n, i)
  {
    if |cards| > 0 {
      var last := |cards| - 1;
      RoundRobinSizes(cards[..last], n);
      forall i | 0 <= i < n
        ensures |RoundRobin(cards, n)[i]| == HandSize(|cards|, n, i)
      {
        HandSizeStep(last, n, i);
      }
    }
  }

  /** Hand sizes differ by at most one. */
  predicate Balanced(hands: seq<seq<Card>>)
  {
    forall i, j :: 0 <= i < |hands| && 0 <= j < |hands| ==> |hands[i]| <= |hands[j]| + 1
  }

  lemma RoundRobinBalanced(cards: seq<Card>, n: nat)
    requires n >= 1
    ensures Balanced(RoundRobin(cards, n))
  {
    RoundRobinSizes(cards, n);
  }

  /** The dealing loop of dealCards: `playerIndex` cycles through the hands. */
  method DealRoundRobin(cards: seq<Card>, playerCount: nat) returns (hands: seq<seq<Card>>)
    requires playerCount >= 1
    ensures hands == RoundRobin(cards, playerCount)
    ensures HandsMultiset(hands) == multiset(cards)
    ensures Balanced(hands)
  {
    hands := EmptyHands(playerCount);
    var playerIndex := 0;
    for k := 0 to |cards|
      invariant hands == RoundRobin(cards[..k], playerCount)
      invariant playerIndex == k % playerCount
    {
      assert cards[..k + 1][..k] == cards[..k];
      assert RoundRobin(cards[..k + 1], playerCount)
        == hands[playerIndex := hands[playerIndex] + [cards[k]]];
      hands := hands[playerIndex := hands[playerIndex] + [cards[k]]];
      DivModStep(k, playerCount);
      ModNext(playerIndex, playerCount);
      playerIndex := (playerIndex + 1) % playerCount;
    }
    assert cards[..|cards|] == cards;
    RoundRobinDealsAll(cards, playerCount);
    RoundRobinBalanced(cards, playerCount);
  }

  /** Each pile holds cards of its own kind only. */
  lemma PileKinds(c: Card)
    ensures c in multiset(SuspectPile()) ==> c.SuspectCard?
    ensures c in multiset(WeaponPile()) ==> c.WeaponCard?
    ensures c in multiset(RoomPile()) ==> c.RoomCard?
  {
  }

  /** Popping the last card of a pile splits it into that card and the rest. */
  lemma PopLast(pile: seq<Card>)
    requires |pile| >= 1
    ensures multiset(pile) == multiset(pile[..|pile| - 1]) + multiset{pile[|pile| - 1]}
  {
    assert pile == pile[..|pile| - 1] + [pile[|pile| - 1]];
  }

  /**
   * Popping the last card of three shuffled piles leaves the rest, which
   * together with the three popped cards is the whole of the three piles.
   */
  lemma DrawPartition(sp: seq<Card>, wp: seq<Card>, rp: seq<Card>,
                      sus: seq<Card>, wea: seq<Card>, roo: seq<Card>)
    requires multiset(sus) == multiset(sp) && multiset(wea) == multiset(wp) && multiset(roo) == multiset(rp)
    requires |sus| >= 1 && |wea| >= 1 && |roo| >= 1
    ensures multiset(sus[..|sus| - 1] + wea[..|wea| - 1] + roo[..|roo| - 1])
      + multiset([sus[|sus| - 1], wea[|wea| - 1], roo[|roo| - 1]])
      == multiset(sp + wp + rp)
  {
    PopLast(sus);
    PopLast(wea);
    PopLast(roo);
  }

  /**
   * The first half of dealCards: shuffle each pile and pop its last card
   * into the solution; the cards left over are returned in pile order.
   */
  method DrawSolution(suspectDraws: seq<nat>, weaponDraws: seq<nat>, roomDraws: seq<nat>)
    returns (solution: Solution, remaining: seq<Card>)
    requires DrawsFor(suspectDraws, 6) && DrawsFor(weaponDraws, 6) && DrawsFor(roomDraws, 9)
    ensures |remaining| == 18
    ensures multiset(remaining) + multiset(SolutionCards(solution)) == multiset(FullDeck())
  {
    var suspects := ShuffleSeq(SuspectPile(), suspectDraws);
    var weapons := ShuffleSeq(WeaponPile(), weaponDraws);
    var rooms := ShuffleSeq(RoomPile(), roomDraws);
    solution := PopSolution(suspects, weapons, rooms);
    remaining := suspects[..5] + weapons[..5] + rooms[..8];
    DrawPartition(SuspectPile(), WeaponPile(), RoomPile(), suspects, weapons, rooms);
  }

  /** The solution made of the last card of each shuffled pile. */
  function PopSolution(suspects: seq<Card>, weapons: seq<Card>, rooms: seq<Card>): (solution: Solution)
    requires multiset(suspects) == multiset(SuspectPile()) && |suspects| == 6
    requires multiset(weapons) == multiset(WeaponPile()) && |weapons| == 6
    requires multiset(rooms) == multiset(RoomPile()) && |rooms| == 9
    ensures SolutionCards(solution) == [suspects[5], weapons[5], rooms[8]]
  {
    PileKinds(suspects[5]);
    PileKinds(weapons[5]);
    PileKinds(rooms[8]);
    Solution(suspects[5].suspect, weapons[5].weapon, rooms[8].room)
  }

  /**
   * dealCards: shuffle each pile, pop its last card into the solution, shuffle
   * the 18 remaining cards and deal them round-robin to `playerCount` hands.
   */
  method DealCards(playerCount: nat, suspectDraws: seq<nat>, weaponDraws: seq<nat>,
                   roomDraws: seq<nat>, restDraws: seq<nat>)
    returns (solution: Solution, hands: seq<seq<Card>>)
    requires playerCount >= 1
    requires DrawsFor(suspectDraws, 6) && DrawsFor(weaponDraws, 6)
    requires DrawsFor(roomDraws, 9) && DrawsFor(restDraws, 18)
    ensures |hands| == playerCount
    ensures HandsMultiset(hands) + multiset(SolutionCards(solution)) == multiset(FullDeck())
    ensures Balanced(hands)
    ensures forall i :: 0 <= i < playerCount ==> |hands[i]| == HandSize(18, playerCount, i)
  {
    var remaining;
    solution, remaining := DrawSolution(suspectDraws, weaponDraws, roomDraws);
    remaining := ShuffleSeq(remaining, restDraws);
    hands := DealRoundRobin(remaining, playerCount);
    RoundRobinSizes(remaining, playerCount);
  }

  /**
   * A deal meeting the postcondition of DealCards partitions the deck: each
   * of the 21 cards occurs exactly once, either in the envelope or in a hand.
   */
  lemma DealIsPartition(solution: Solution, hands: seq<seq<Card>>, c: Card)
    requires HandsMultiset(hands) + multiset(SolutionCards(solution)) == multiset(FullDeck())
    ensures HandsMultiset(hands)[c] + multiset(SolutionCards(solution))[c] == 1
    ensures c in SolutionCards(solution) <==> HandsMultiset(hands)[c] == 0
  {
    FullDeckHasEveryCardOnce(c);
  }

  /** splice(i, 1) followed by unshift: the element at `i` moves to the front. */
  function MoveToFront<T>(s: seq<T>, i: nat): (r: seq<T>)
    requires i < |s|
    ensures |r| == |s| && r[0] == s[i]
    ensures forall k :: 0 < k <= i ==> r[k] == s[k - 1]
    ensures forall k :: i < k < |s| ==> r[k] == s[k]
  {
    [s[i]] + s[..i] + s[i + 1..]
  }

  /** Moving one element to the front permutes the sequence and commutes with Map. */
  lemma MoveToFrontPermutes<T, U>(f: T -> U, s: seq<T>, i: nat)
    requires i < |s|
    ensures multiset(MoveToFront(s, i)) == multiset(s)
    ensures Map(f, MoveToFront(s, i)) == MoveToFront(Map(f, s), i)
    ensures Distinct(s) ==> Distinct(MoveToFront(s, i))
  {
    MoveToFrontMultiset(s, i);
    MoveToFrontMap(f, s, i);
    if Distinct(s) {
      MoveToFrontDistinct(s, i);
    }
  }

  /** The three blocks that MoveToFront exchanges. */
  lemma MoveToFrontSplit<T>(s: seq<T>, i: nat)
    requires i < |s|
    ensures s == s[..i] + [s[i]] + s[i + 1..]
    ensures MoveToFront(s, i) == [s[i]] + s[..i] + s[i + 1..]
  {
    assert s == s[..i] + [s[i]] + s[i + 1..];
  }

  lemma MoveToFrontMultiset<T>(s: seq<T>, i: nat)
    requires i < |s|
    ensures multiset(MoveToFront(s, i)) == multiset(s)
  {
    MoveToFrontSplit(s, i);
  }

  lemma MoveToFrontMap<T, U>(f: T -> U, s: seq<T>, i: nat)
    requires i < |s|
    ensures Map(f, MoveToFront(s, i)) == MoveToFront(Map(f, s), i)
  {
    var l, r := Map(f, MoveToFront(s, i)), MoveToFront(Map(f, s), i);
    forall k | 0 <= k < |s| ensures l[k] == r[k] {
      var m := if k == 0 then i else if k <= i then k - 1 else k;
      assert l[k] == f(s[m]) == r[k];
    }
  }

  lemma MoveToFrontDistinct<T>(s: seq<T>, i: nat)
    requires i < |s| && Distinct(s)
    ensures Distinct(MoveToFront(s, i))
  {
    var r := MoveToFront(s, i);
    forall p, q | 0 <= p < q < |r| ensures r[p] != r[q] {
      var sp := if p == 0 then i else if p <= i then p - 1 else p;
      var sq := if q == 0 then i else if q <= i then q - 1 else q;
      assert r[p] == s[sp] && r[q] == s[sq] && sp != sq;
    }
  }

  lemma {:induction false} HandsMultisetConcat(a: seq<seq<Card>>, b: seq<seq<Card>>)
    ensures HandsMultiset(a + b) == HandsMultiset(a) + HandsMultiset(b)
    decreases |b|
  {
    if |b| > 0 {
      var last := |b| - 1;
      assert (a + b)[..|a + b| - 1] == a + b[..last];
      HandsMultisetConcat(a, b[..last]);
    } else {
      assert a + b == a;
    }
  }

  /** Exchanging the first two of three blocks of hands keeps the cards they hold. */
  lemma HandsExchange(h: seq<seq<Card>>, moved: seq<seq<Card>>,
                      a: seq<seq<Card>>, x: seq<seq<Card>>, b: seq<seq<Card>>)
    requires h == a + x + b && moved == x + a + b
    ensures HandsMultiset(moved) == HandsMultiset(h)
  {
    HandsMultisetConcat(x + a, b);
    HandsMultisetConcat(x, a);
    HandsMultisetConcat(a + x, b);
    HandsMultisetConcat(a, x);
  }
}
