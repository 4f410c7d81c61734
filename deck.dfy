/** The deck of `createGameScene`: 12 numeric pairs and 4 special pairs,
    shuffled once in place by a Fisher–Yates pass and laid out row by row on
    a 4 x 8 board. */
module Deck {
  import opened Helpers
  import opened Rng

  /** The four special cards: "kakeru" (×n), "kakewaru" (×5 or ÷5),
      "tasu" (+n) and "tasuhiku" (+50 or -50). */
  datatype SpecialKind = Kakeru | Kakewaru | Tasu | Tasuhiku

  /** The name the script uses for each special kind. */
  function KindName(k: SpecialKind): string {
    match k
    case Kakeru => "kakeru"
    case Kakewaru => "kakewaru"
    case Tasu => "tasu"
    case Tasuhiku => "tasuhiku"
  }

  lemma KindNameInjective(k1: SpecialKind, k2: SpecialKind)
    requires KindName(k1) == KindName(k2)
    ensures k1 == k2
  {
  }

  /** A card's immutable data: `{type: "normal", key, value, imageId}` or
      `{type: "special", key, specialKind, imageId}`. */
  datatype Card =
    | Normal(key: string, value: int, imageId: string)
    | Special(key: string, specialKind: SpecialKind, imageId: string)

  const Rows: nat := 4
  const Cols: nat := 8
  const DeckSize: nat := 32

  /** The special kinds in the order the deck builder pushes them. */
  const SpecialOrder: seq<SpecialKind> := [Kakeru, Kakewaru, Tasu, Tasuhiku]

  /** The pair card for number n: it scores n and its key carries the
      numeric prefix "n_". */
  function NormalCard(n: nat): (c: Card)
    ensures c.Normal? && c.value == n && |c.key| > 2 && c.key[..2] == "n_"
  {
    Normal("n_" + DecimalString(n), n, "image_" + DecimalString(n))
  }

  /** The pair card for special kind k: its key carries the prefix "s_". */
  function SpecialCard(k: SpecialKind): (c: Card)
    ensures c.Special? && c.specialKind == k && |c.key| > 2 && c.key[..2] == "s_"
  {
    Special("s_" + KindName(k), k, "image_" + KindName(k))
  }

  /** One card of each of the 16 pairs, in the order they are built. */
  function PairCards(): (cs: seq<Card>)
    ensures |cs| == 16
  {
    seq(12, i requires 0 <= i < 12 => NormalCard(i + 1)) + seq(4, i requires 0 <= i < 4 => SpecialCard(SpecialOrder[i]))
  }

  /** The 16 pair keys, written out. */
  const PairKeys: seq<string> := [
    "n_1", "n_2", "n_3", "n_4", "n_5", "n_6", "n_7", "n_8", "n_9", "n_10", "n_11", "n_12",
    "s_kakeru", "s_kakewaru", "s_tasu", "s_tasuhiku"]

  /** Every card followed by a copy of itself. */
  function Doubled(cs: seq<Card>): (d: seq<Card>)
    ensures |d| == 2 * |cs|
  {
    if cs == [] then [] else Doubled(cs[..|cs| - 1]) + [cs[|cs| - 1], cs[|cs| - 1]]
  }

  /** The deck before shuffling: each pair card pushed twice in a row. */
  function UnshuffledDeck(): (d: seq<Card>)
    ensures |d| == DeckSize
  {
    Doubled(PairCards())
  }

  lemma DoubledPush(cs: seq<Card>, c: Card)
    ensures Doubled(cs + [c]) == Doubled(cs) + [c, c]
  {
    assert (cs + [c])[..|cs|] == cs;
  }

  lemma DoubledPrefix(cs: seq<Card>, m: nat)
    requires m < |cs|
    ensures Doubled(cs[..m + 1]) == Doubled(cs[..m]) + [cs[m], cs[m]]
  {
    assert cs[..m + 1] == cs[..m] + [cs[m]];
    DoubledPush(cs[..m], cs[m]);
  }

  lemma PairCardsAt(m: nat)
    requires m < 16
    ensures PairCards()[m] == if m < 12 then NormalCard(m + 1) else SpecialCard(SpecialOrder[m - 12])
  {
  }

  /** The deck after the numeric loop has pushed the pairs 1..n. */
  function NumericPairsDeck(n: nat): (d: seq<Card>)
    ensures |d| == 2 * n
  {
    if n == 0 then [] else NumericPairsDeck(n - 1) + [NormalCard(n), NormalCard(n)]
  }

  /** The cards the special loop has pushed after its first i rounds. */
  function SpecialPairsDeck(i: nat): (d: seq<Card>)
    requires i <= 4
    ensures |d| == 2 * i
  {
    if i == 0 then []
    else SpecialPairsDeck(i - 1) + [SpecialCard(SpecialOrder[i - 1]), SpecialCard(SpecialOrder[i - 1])]
  }

  lemma {:induction false} NumericPairsDoubled(n: nat)
    requires n <= 12
    ensures NumericPairsDeck(n) == Doubled(PairCards()[..n])
  {
    if n > 0 {
      NumericPairsDoubled(n - 1);
      PairCardsAt(n - 1);
      DoubledPrefix(PairCards(), n - 1);
    }
  }

  lemma {:induction false} SpecialPairsDoubled(i: nat)
    requires i <= 4
    ensures Doubled(PairCards()[..12]) + SpecialPairsDeck(i) == Doubled(PairCards()[..12 + i])
  {
    if i > 0 {
      SpecialPairsDoubled(i - 1);
      PairCardsAt(12 + i - 1);
      DoubledPrefix(PairCards(), 12 + i - 1);
    }
  }

  /** What the two loops push, in order, is the unshuffled deck. The counts
      are parameters fixed by the requires rather than the literals 12 and 4:
      a literal argument would make the verifier unroll NumericPairsDeck and
      SpecialPairsDeck all the way down. */
  lemma BuiltIsUnshuffled(n: nat, i: nat)
    requires n == 12 && i == 4
    ensures NumericPairsDeck(n) + SpecialPairsDeck(i) == UnshuffledDeck()
  {
    NumericPairsDoubled(n);
    SpecialPairsDoubled(i);
    assert PairCards()[..12 + i] == PairCards();
  }

  /** Regrouping for the loop bodies of BuildDeck: two single pushes of c
      append the pair [c, c] to what the loop has built so far. */
  lemma PushTwice(front: seq<Card>, back: seq<Card>, c: Card)
    ensures front + back + [c] + [c] == front + (back + [c, c])
  {
  }

  /** The deck-building loops of `createGameScene`. */
  method BuildDeck() returns (deck: seq<Card>)
    ensures deck == UnshuffledDeck()
  {
    deck := [];
    var n := 1;
    while n <= 12
      invariant 1 <= n <= 13
      invariant deck == NumericPairsDeck(n - 1)
    {
      var card := Normal("n_" + DecimalString(n), n, "image_" + DecimalString(n));
      deck := deck + [card];
      deck := deck + [card];
      n := n + 1;
    }
    var specials := SpecialOrder;
    var i := 0;
    while i < |specials|
      invariant 0 <= i <= 4
      invariant deck == NumericPairsDeck(n - 1) + SpecialPairsDeck(i)
    {
      var k := specials[i];
      var card := Special("s_" + KindName(k), k, "image_" + KindName(k));
      PushTwice(NumericPairsDeck(n - 1), SpecialPairsDeck(i), card);
      deck := deck + [card];
      deck := deck + [card];
      i := i + 1;
    }
    BuiltIsUnshuffled(n - 1, i);
  }

  // ----- Fisher–Yates shuffle -----

  function Swap<T>(s: seq<T>, i: nat, j: nat): (t: seq<T>)
    requires i < |s| && j < |s|
    ensures |t| == |s| && t[i] == s[j] && t[j] == s[i]
    ensures forall k :: 0 <= k < |s| && k != i && k != j ==> t[k] == s[k]
  {
    s[i := s[j]][j := s[i]]
  }

  lemma SwapPermutes<T>(s: seq<T>, i: nat, j: nat)
    requires i < |s| && j < |s|
    ensures multiset(Swap(s, i, j)) == multiset(s)
  {
    var t := s[i := s[j]];
    assert multiset(t) == multiset(s) - multiset{s[i]} + multiset{s[j]};
    assert multiset(t[j := s[i]]) == multiset(t) - multiset{t[j]} + multiset{s[i]};
  }

  /** The passes of the shuffle loop for indices i, i-1, ..., 1, where the
      pass for index i uses draw number k of the stream. */
  function ShuffleFrom<T>(s: seq<T>, i: nat, stream: nat -> Draw, k: nat): (t: seq<T>)
    requires i < |s|
    ensures |t| == |s|
    decreases i
  {
    if i == 0 then s
    else ShuffleFrom(Swap(s, i, ChoiceIndex(stream(k), i + 1)), i - 1, stream, k + 1)
  }

  /** One pass of ShuffleFrom, stated for the next index i2 = i - 1 and the
      next draw number k2 = k + 1. */
  lemma ShuffleStep<T>(s: seq<T>, i: nat, stream: nat -> Draw, k: nat, i2: nat, k2: nat)
    requires 0 < i < |s| && i2 == i - 1 && k2 == k + 1
    ensures ShuffleFrom(s, i, stream, k)
         == ShuffleFrom(Swap(s, i, ChoiceIndex(stream(k), i + 1)), i2, stream, k2)
  {
  }

  /** `shuffle(arr, random)` as a value: the result when the first draw taken
      is number k of the stream. */
  function Shuffled<T>(s: seq<T>, stream: nat -> Draw, k: nat): (t: seq<T>)
    ensures |t| == |s|
  {
    if |s| == 0 then s else ShuffleFrom(s, |s| - 1, stream, k)
  }

  lemma {:induction false} ShuffleFromPermutes<T>(s: seq<T>, i: nat, stream: nat -> Draw, k: nat)
    requires i < |s|
    ensures |ShuffleFrom(s, i, stream, k)| == |s|
    ensures multiset(ShuffleFrom(s, i, stream, k)) == multiset(s)
    decreases i
  {
    if i > 0 {
      var j := ChoiceIndex(stream(k), i + 1);
      SwapPermutes(s, i, j);
      ShuffleFromPermutes(Swap(s, i, j), i - 1, stream, k + 1);
    }
  }

  /** The shuffle is a permutation of its input, whatever the draws. */
  lemma ShuffledPermutes<T>(s: seq<T>, stream: nat -> Draw, k: nat)
    ensures |Shuffled(s, stream, k)| == |s|
    ensures multiset(Shuffled(s, stream, k)) == multiset(s)
  {
    if |s| > 0 {
      ShuffleFromPermutes(s, |s| - 1, stream, k);
    }
  }

  /** `shuffle(arr, random)`: swaps `arr[i]` with `arr[floor(r * (i + 1))]`
      for i from the last index down to 1, taking one draw per pass, so
      `arr.length - 1` draws in all. That the result is a permutation is
      ShuffledPermutes. */
  method Shuffle<T>(a: array<T>, random: Random)
    modifies a, random
    ensures a[..] == Shuffled(old(a[..]), random.stream, old(random.consumed))
    ensures random.consumed == old(random.consumed) + (if a.Length == 0 then 0 else a.Length - 1)
  {
    ghost var s0, k0, stream := a[..], random.consumed, random.stream;
    var i := a.Length - 1;
    while i > 0
      invariant -1 <= i < a.Length && (a.Length > 0 ==> 0 <= i)
      invariant random.consumed == k0 + (a.Length - 1 - i)
      invariant 0 <= i ==> ShuffleFrom(a[..], i, stream, random.consumed) == Shuffled(s0, stream, k0)
    {
      ghost var before, pass, k := a[..], i, random.consumed;
      var r := random.Generate();
      var j := ChoiceIndex(r, i + 1);
      var t := a[i];
      a[i] := a[j];
      a[j] := t;
      assert a[..] == Swap(before, pass, j);
      i := i - 1;
      ShuffleStep(before, pass, stream, k, i, random.consumed);
    }
  }

  // ----- Board -----

  /** The board loops: slot `idx = r * Cols + c` for r < Rows, c < Cols takes
      `deck[idx]`, so the board holds every deck position once, in order. */
  method LayOutBoard(deck: seq<Card>) returns (board: seq<Card>)
    requires |deck| == DeckSize
    ensures board == deck
  {
    board := [];
    var r := 0;
    while r < Rows
      invariant 0 <= r <= Rows
      invariant board == deck[..r * Cols]
    {
      var c := 0;
      while c < Cols
        invariant 0 <= c <= Cols
        invariant board == deck[..r * Cols + c]
      {
        var idx := r * Cols + c;
        board := board + [deck[idx]];
        c := c + 1;
      }
      r := r + 1;
    }
    assert deck[..Rows * Cols] == deck;
  }

  /** The deck part of the game scene's start: the unshuffled deck is built,
      shuffled in place with the host's random source and laid out as the
      board, so the board holds the 32 cards of the deck in a shuffled order. */
  method Deal(random: Random) returns (board: seq<Card>)
    modifies random
    ensures board == Shuffled(UnshuffledDeck(), random.stream, old(random.consumed))
    ensures |board| == DeckSize && IsDeck(board)
    ensures random.consumed == old(random.consumed) + DeckSize - 1
  {
    var deck := BuildDeck();
    var cards := new Card[|deck|](i requires 0 <= i < |deck| => deck[i]);
    assert cards[..] == deck;
    Shuffle(cards, random);
    ShuffledPermutes(deck, random.stream, old(random.consumed));
    board := LayOutBoard(cards[..]);
  }

  // ----- Deck composition -----

  /** How many cards of `d` carry key `k`. */
  function CountKey(d: seq<Card>, k: string): nat {
    if d == [] then 0
    else CountKey(d[..|d| - 1], k) + (if d[|d| - 1].key == k then 1 else 0)
  }

  lemma NormalKeyAt(n: nat)
    requires 1 <= n <= 12
    ensures NormalCard(n).key == PairKeys[n - 1]
  {
    if n >= 10 {
      assert DecimalString(n) == DecimalString(1) + [DigitChar(n - 10)];
    }
  }

  lemma PairKeysMatch()
    ensures forall p :: 0 <= p < 16 ==> PairCards()[p].key == PairKeys[p]
  {
    forall p | 0 <= p < 16
      ensures PairCards()[p].key == PairKeys[p]
    {
      PairCardsAt(p);
      if p < 12 {
        NormalKeyAt(p + 1);
      }
    }
  }

  lemma PairKeysDistinct()
    ensures forall p, q :: 0 <= p < q < 16 ==> PairKeys[p] != PairKeys[q]
  {
  }

  lemma {:induction false} DoubledMultiset(cs: seq<Card>)
    ensures multiset(Doubled(cs)) == multiset(cs) + multiset(cs)
  {
    if cs != [] {
      var n := |cs| - 1;
      DoubledMultiset(cs[..n]);
      assert cs == cs[..n] + [cs[n]];
    }
  }

  lemma {:induction false} DistinctMultiplicity(cs: seq<Card>, c: Card)
    requires forall p, q :: 0 <= p < q < |cs| ==> cs[p] != cs[q]
    ensures multiset(cs)[c] == if c in cs then 1 else 0
  {
    if cs != [] {
      var n := |cs| - 1;
      DistinctMultiplicity(cs[..n], c);
      assert cs == cs[..n] + [cs[n]];
      if c == cs[n] {
        assert c !in cs[..n];
      }
    }
  }

  /** Each of the 16 pair cards occurs exactly twice in the unshuffled deck,
      and no other card occurs. */
  lemma UnshuffledMultiplicity(c: Card)
    ensures multiset(UnshuffledDeck())[c] == if c in PairCards() then 2 else 0
  {
    PairKeysMatch();
    PairKeysDistinct();
    DoubledMultiset(PairCards());
    DistinctMultiplicity(PairCards(), c);
  }

  lemma {:induction false} CountKeyIsMultiplicity(d: seq<Card>, c: Card)
    requires forall i :: 0 <= i < |d| && d[i].key == c.key ==> d[i] == c
    ensures CountKey(d, c.key) == multiset(d)[c]
  {
    if d != [] {
      var n := |d| - 1;
      CountKeyIsMultiplicity(d[..n], c);
      assert d == d[..n] + [d[n]];
    }
  }

  lemma {:induction false} CountKeyAbsent(d: seq<Card>, k: string)
    requires forall i :: 0 <= i < |d| ==> d[i].key != k
    ensures CountKey(d, k) == 0
  {
    if d != [] {
      CountKeyAbsent(d[..|d| - 1], k);
    }
  }

  /** A deck is a shuffle of the built deck. */
  predicate IsDeck(d: seq<Card>) {
    multiset(d) == multiset(UnshuffledDeck())
  }

  /** Every card of a shuffled deck is one of the 16 pair cards. */
  lemma DeckCardIsPairCard(d: seq<Card>, i: nat)
    requires IsDeck(d) && i < |d|
    ensures d[i] in PairCards()
  {
    assert d[i] in multiset(d);
    UnshuffledMultiplicity(d[i]);
  }

  lemma PairCardValue(c: Card)
    requires c in PairCards() && c.Normal?
    ensures 1 <= c.value <= 12
  {
    var p :| 0 <= p < 16 && c == PairCards()[p];
    assert p < 12 && c == NormalCard(p + 1);
  }

  /** Two cards of a deck with the same key are the same card. */
  lemma SameKeySameCard(d: seq<Card>, i: nat, j: nat)
    requires IsDeck(d) && i < |d| && j < |d| && d[i].key == d[j].key
    ensures d[i] == d[j]
  {
    DeckCardIsPairCard(d, i);
    DeckCardIsPairCard(d, j);
    var p :| 0 <= p < 16 && d[i] == PairCards()[p];
    var q :| 0 <= q < 16 && d[j] == PairCards()[q];
    PairKeysMatch();
    PairKeysDistinct();
    assert PairKeys[p] == PairKeys[q];
  }

  /** Each pair key occurs exactly twice in a deck, and no other key occurs. */
  lemma KeyCount(d: seq<Card>, k: string)
    requires IsDeck(d)
    ensures CountKey(d, k) == if k in PairKeys then 2 else 0
  {
    PairKeysMatch();
    if k in PairKeys {
      var p :| 0 <= p < 16 && PairKeys[p] == k;
      var c := PairCards()[p];
      forall i | 0 <= i < |d| && d[i].key == c.key
        ensures d[i] == c
      {
        DeckCardIsPairCard(d, i);
        var q :| 0 <= q < 16 && d[i] == PairCards()[q];
        PairKeysDistinct();
        assert PairKeys[p] == PairKeys[q];
      }
      CountKeyIsMultiplicity(d, c);
      UnshuffledMultiplicity(c);
    } else {
      forall i | 0 <= i < |d|
        ensures d[i].key != k
      {
        DeckCardIsPairCard(d, i);
      }
      CountKeyAbsent(d, k);
    }
  }

  /** A shuffled deck has 32 cards. */
  lemma DeckSizeOf(d: seq<Card>)
    requires IsDeck(d)
    ensures |d| == DeckSize
  {
    assert |d| == |multiset(d)| == |UnshuffledDeck()|;
  }

  /** The two cards with the same key are identical: same type, value or
      special kind, and image. */
  lemma SameKeySameCards(d: seq<Card>)
    requires IsDeck(d)
    ensures forall i, j :: 0 <= i < |d| && 0 <= j < |d| && d[i].key == d[j].key ==> d[i] == d[j]
  {
    forall i, j | 0 <= i < |d| && 0 <= j < |d| && d[i].key == d[j].key
      ensures d[i] == d[j]
    {
      SameKeySameCard(d, i, j);
    }
  }

  /** Each of the 16 pair keys occurs exactly twice, and no other key. */
  lemma KeyCounts(d: seq<Card>)
    requires IsDeck(d)
    ensures forall k :: CountKey(d, k) == if k in PairKeys then 2 else 0
  {
    forall k
      ensures CountKey(d, k) == if k in PairKeys then 2 else 0
    {
      KeyCount(d, k);
    }
  }

  /** Numeric values lie in 1..12. */
  lemma NormalValues(d: seq<Card>)
    requires IsDeck(d)
    ensures forall i :: 0 <= i < |d| && d[i].Normal? ==> 1 <= d[i].value <= 12
  {
    forall i | 0 <= i < |d| && d[i].Normal?
      ensures 1 <= d[i].value <= 12
    {
      DeckCardIsPairCard(d, i);
      PairCardValue(d[i]);
    }
  }

  /** A numeric pair's base score is an even number in 2..24. */
  lemma NormalPairBase(d: seq<Card>, i: nat, j: nat)
    requires IsDeck(d) && i < |d| && j < |d|
    requires d[i].key == d[j].key && d[i].Normal?
    ensures d[j].Normal? && (d[i].value + d[j].value) % 2 == 0
    ensures 2 <= d[i].value + d[j].value <= 24
  {
    SameKeySameCard(d, i, j);
    DeckCardIsPairCard(d, i);
    PairCardValue(d[i]);
  }

  lemma PairCardSpecial(c: Card)
    requires c in PairCards() && c.Special?
    ensures c == SpecialCard(c.specialKind)
  {
    var p :| 0 <= p < 16 && c == PairCards()[p];
    assert 12 <= p && c == SpecialCard(SpecialOrder[p - 12]);
  }

  /** In a deck, the special kind of a card determines its key. */
  lemma SpecialKeyByKind(d: seq<Card>, i: nat, j: nat)
    requires IsDeck(d) && i < |d| && j < |d|
    requires d[i].Special? && d[j].Special? && d[i].specialKind == d[j].specialKind
    ensures d[i].key == d[j].key
  {
    DeckCardIsPairCard(d, i);
    DeckCardIsPairCard(d, j);
    PairCardSpecial(d[i]);
    PairCardSpecial(d[j]);
  }

  /** A value found at every index of `idx` occurs at least |idx| times. */
  lemma {:induction false} CopiesCounted<T>(d: seq<T>, c: T, idx: set<nat>)
    requires forall i :: i in idx ==> i < |d| && d[i] == c
    ensures multiset(d)[c] >= |idx|
    decreases |d|
  {
    if d == [] {
      assert idx == {};
    } else {
      var n := |d| - 1;
      var rest := idx - {n};
      CopiesCounted(d[..n], c, rest);
      assert d == d[..n] + [d[n]];
      if n in idx {
        assert idx == rest + {n};
      } else {
        assert rest == idx;
      }
    }
  }

  /** No key occurs on a third card: given two distinct cards with a key,
      every card with that key is one of them. */
  lemma AtMostTwoPerKey(d: seq<Card>, i: nat, j: nat, l: nat)
    requires IsDeck(d) && i < |d| && j < |d| && l < |d| && i != j
    requires d[i].key == d[j].key == d[l].key
    ensures l == i || l == j
  {
    if l != i && l != j {
      SameKeySameCard(d, i, j);
      SameKeySameCard(d, i, l);
      DeckCardIsPairCard(d, i);
      UnshuffledMultiplicity(d[i]);
      assert |{i, j, l}| == 3;
      CopiesCounted(d, d[i], {i, j, l});
    }
  }
}
