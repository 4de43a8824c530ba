/**
  * Deck helpers of the Scoundrel engine (src/games/scoundrel/logic.ts): the in-place
  * Fisher–Yates shuffle and the construction of the fixed 44-card deck.
  *
  * `Math.random` is replaced by a caller-supplied sequence of draws `rs`: the draw used
  * when slot `j` of an `n`-slot array is filled is `rs[j]`, an index in `[0, j]`.
  */
module DeckLogic {
  import opened ScoundrelTypes

  // ---------------------------------------------------------------------------
  // Ranks and suits
  // ---------------------------------------------------------------------------

  /** The numeric value of a rank: number ranks are literal, J = 11, Q = 12, K = 13, Ace = 14. */
  function NumericValue(v: CardValue): (n: int)
    ensures 2 <= n <= 14
    ensures n <= 10 <==> IsNumberRank(v)
  {
    match v
    case Two => 2
    case Three => 3
    case Four => 4
    case Five => 5
    case Six => 6
    case Seven => 7
    case Eight => 8
    case Nine => 9
    case Ten => 10
    case Jack => 11
    case Queen => 12
    case King => 13
    case Ace => 14
  }

  predicate IsNumberRank(v: CardValue) {
    !(v.Jack? || v.Queen? || v.King? || v.Ace?)
  }

  /** `i.toString() as CardValue` for a loop counter `i` in 2..10. */
  function NumberRank(i: int): (v: CardValue)
    requires 2 <= i <= 10
    ensures IsNumberRank(v) && NumericValue(v) == i
  {
    if i == 2 then Two
    else if i == 3 then Three
    else if i == 4 then Four
    else if i == 5 then Five
    else if i == 6 then Six
    else if i == 7 then Seven
    else if i == 8 then Eight
    else if i == 9 then Nine
    else Ten
  }

  /** The type a card of each suit is built with: ♠ and ♣ monsters, ♥ potions, ♦ weapons. */
  function TypeOfSuit(s: Suit): (t: CardType)
    ensures t == MonsterType <==> s.Spades? || s.Clubs?
    ensures t == PotionType <==> s.Hearts?
    ensures t == WeaponType <==> s.Diamonds?
  {
    match s
    case Spades => MonsterType
    case Clubs => MonsterType
    case Hearts => PotionType
    case Diamonds => WeaponType
  }

  /** The suit/rank pairs the deck holds: every rank of a monster suit, 2–10 of the others. */
  predicate Allowed(s: Suit, v: CardValue) {
    TypeOfSuit(s) == MonsterType || IsNumberRank(v)
  }

  // ---------------------------------------------------------------------------
  // Shuffle
  // ---------------------------------------------------------------------------

  /** `rs` holds one valid `Math.random` draw per slot of an `n`-slot array. */
  predicate ValidDraws(rs: seq<nat>, n: nat) {
    |rs| == n && forall j :: 0 <= j < n ==> rs[j] <= j
  }

  /** The destructuring swap `[a[i], a[j]] = [a[j], a[i]]`. */
  function Swap(s: seq<Card>, i: nat, j: nat): (r: seq<Card>)
    requires i < |s| && j < |s|
    ensures |r| == |s| && r[i] == s[j] && r[j] == s[i]
    ensures forall k :: 0 <= k < |s| && k != i && k != j ==> r[k] == s[k]
    ensures multiset(r) == multiset(s)
  {
    s[i := s[j]][j := s[i]]
  }

  /**
    * The Fisher–Yates steps for slots `i - 1` down to `0` (the iterations of the source
    * loop that remain while `currentIndex == i`): slot `k` is swapped with slot `rs[k]`.
    */
  function ShuffleSteps(s: seq<Card>, rs: seq<nat>, i: nat): (r: seq<Card>)
    requires i <= |s| && ValidDraws(rs, |s|)
    ensures |r| == |s| && multiset(r) == multiset(s)
    ensures r[i..] == s[i..]
    decreases i
  {
    if i == 0 then s else ShuffleSteps(Swap(s, i - 1, rs[i - 1]), rs, i - 1)
  }

  /** The permutation the source's `shuffle` produces from `s` under the draws `rs`. */
  function Shuffled(s: seq<Card>, rs: seq<nat>): (r: seq<Card>)
    requires ValidDraws(rs, |s|)
    ensures |r| == |s| && multiset(r) == multiset(s)
    ensures forall c :: c in r <==> c in s
    ensures |s| <= 1 ==> r == s
  {
    var r := ShuffleSteps(s, rs, |s|);
    assert forall c :: c in r <==> c in multiset(r);
    r
  }

  /**
    * In-place Durstenfeld shuffle: walks `currentIndex` down from the length, swapping the
    * last unshuffled slot with a drawn earlier-or-equal slot, and returns the same array.
    */
  method Shuffle(a: array<Card>, rs: seq<nat>) returns (r: array<Card>)
    requires ValidDraws(rs, a.Length)
    modifies a
    ensures r == a
    ensures a[..] == Shuffled(old(a[..]), rs)
    ensures multiset(a[..]) == multiset(old(a[..]))
  {
    var currentIndex := a.Length;
    while currentIndex != 0
      invariant 0 <= currentIndex <= a.Length
      invariant ShuffleSteps(a[..], rs, currentIndex) == Shuffled(old(a[..]), rs)
    {
      var randomIndex := rs[currentIndex - 1];
      currentIndex := currentIndex - 1;
      ghost var before := a[..];
      var t := a[currentIndex];
      a[currentIndex] := a[randomIndex];
      a[randomIndex] := t;
      assert a[..] == Swap(before, currentIndex, randomIndex);
    }
    r := a;
  }

  /** No two positions of `s` hold cards with the same key. */
  predicate DistinctBy<K(==)>(s: seq<Card>, key: Card -> K) {
    forall i, j :: 0 <= i < |s| && 0 <= j < |s| && i != j ==> key(s[i]) != key(s[j])
  }

  function CardId(c: Card): int { c.id }

  function SuitAndRank(c: Card): (Suit, CardValue) { (c.suit, c.value) }

  lemma SwapKeepsDistinct<K>(s: seq<Card>, x: nat, y: nat, key: Card -> K)
    requires x < |s| && y < |s| && DistinctBy(s, key)
    ensures DistinctBy(Swap(s, x, y), key)
  {
    var r := Swap(s, x, y);
    forall i, j | 0 <= i < |r| && 0 <= j < |r| && i != j
      ensures key(r[i]) != key(r[j])
    {
      var i' := if i == x then y else if i == y then x else i;
      var j' := if j == x then y else if j == y then x else j;
      assert r[i] == s[i'] && r[j] == s[j'];
    }
  }

  lemma {:induction false} ShuffleStepsKeepDistinct<K>(s: seq<Card>, rs: seq<nat>, i: nat, key: Card -> K)
    requires i <= |s| && ValidDraws(rs, |s|) && DistinctBy(s, key)
    ensures DistinctBy(ShuffleSteps(s, rs, i), key)
    decreases i
  {
    if i > 0 {
      SwapKeepsDistinct(s, i - 1, rs[i - 1], key);
      ShuffleStepsKeepDistinct(Swap(s, i - 1, rs[i - 1]), rs, i - 1, key);
    }
  }

  /** No key of a card in `a` is the key of a card in `b`. */
  predicate KeysDisjoint<K(==)>(a: seq<Card>, b: seq<Card>, key: Card -> K) {
    forall x, y :: x in a && y in b ==> key(x) != key(y)
  }

  /** Keys are distinct across `a + b` exactly when they are within each part and between the parts. */
  lemma DistinctConcat<K>(a: seq<Card>, b: seq<Card>, key: Card -> K)
    ensures DistinctBy(a + b, key) <==> DistinctBy(a, key) && DistinctBy(b, key) && KeysDisjoint(a, b, key)
  {
    var ab := a + b;
    if DistinctBy(ab, key) {
      forall i, j | 0 <= i < |a| && 0 <= j < |a| && i != j
        ensures key(a[i]) != key(a[j])
      {
        assert ab[i] == a[i] && ab[j] == a[j];
      }
      forall i, j | 0 <= i < |b| && 0 <= j < |b| && i != j
        ensures key(b[i]) != key(b[j])
      {
        assert ab[|a| + i] == b[i] && ab[|a| + j] == b[j];
      }
      forall x, y | x in a && y in b
        ensures key(x) != key(y)
      {
        var i :| 0 <= i < |a| && a[i] == x;
        var j :| 0 <= j < |b| && b[j] == y;
        assert ab[i] == x && ab[|a| + j] == y;
      }
    }
    if DistinctBy(a, key) && DistinctBy(b, key) && KeysDisjoint(a, b, key) {
      forall i, j | 0 <= i < |ab| && 0 <= j < |ab| && i != j
        ensures key(ab[i]) != key(ab[j])
      {
        if i < |a| && j < |a| {
          assert ab[i] == a[i] && ab[j] == a[j];
        } else if i >= |a| && j >= |a| {
          assert ab[i] == b[i - |a|] && ab[j] == b[j - |a|];
        } else if i < |a| {
          assert ab[i] == a[i] && ab[j] == b[j - |a|];
          assert a[i] in a && b[j - |a|] in b;
        } else {
          assert ab[i] == b[i - |a|] && ab[j] == a[j];
          assert a[j] in a && b[i - |a|] in b;
        }
      }
    }
  }

  /** Shuffling never puts two cards with one key where there was none: keys stay distinct. */
  lemma ShuffledKeepsDistinct<K>(s: seq<Card>, rs: seq<nat>, key: Card -> K)
    requires ValidDraws(rs, |s|) && DistinctBy(s, key)
    ensures DistinctBy(Shuffled(s, rs), key)
  {
    ShuffleStepsKeepDistinct(s, rs, |s|, key);
  }

  // ---------------------------------------------------------------------------
  // Deck construction
  // ---------------------------------------------------------------------------

  const NumberRanks: seq<CardValue> := [Two, Three, Four, Five, Six, Seven, Eight, Nine, Ten]
  const FaceCards: seq<CardValue> := [Jack, Queen, King, Ace]
  const SuitsMonsters: seq<Suit> := [Spades, Clubs]
  const OtherSuits: seq<(Suit, CardType)> := [(Hearts, PotionType), (Diamonds, WeaponType)]

  /** The cards pushed for `ranks` of one suit, numbered from `firstId`. */
  function SuitBlock(s: Suit, t: CardType, ranks: seq<CardValue>, firstId: int): seq<Card> {
    seq(|ranks|, k requires 0 <= k < |ranks| => Card(firstId + k, s, ranks[k], NumericValue(ranks[k]), t))
  }

  /** The cards pushed for the first `n` monster suits: 2–10 then J, Q, K, Ace of each. */
  function MonsterBlocks(n: nat): seq<Card>
    requires n <= |SuitsMonsters|
  {
    if n == 0 then []
    else
      MonsterBlocks(n - 1)
      + SuitBlock(SuitsMonsters[n - 1], MonsterType, NumberRanks, 13 * (n - 1))
      + SuitBlock(SuitsMonsters[n - 1], MonsterType, FaceCards, 13 * (n - 1) + 9)
  }

  /** The cards pushed for the first `n` potion/weapon suits: 2–10 of each. */
  function OtherBlocks(n: nat): seq<Card>
    requires n <= |OtherSuits|
  {
    if n == 0 then []
    else OtherBlocks(n - 1) + SuitBlock(OtherSuits[n - 1].0, OtherSuits[n - 1].1, NumberRanks, 26 + 9 * (n - 1))
  }

  /** The deck `createDeck` builds before shuffling it. */
  function OrderedDeck(): (d: seq<Card>)
    ensures |d| == 44
  {
    MonsterBlocks(2) + OtherBlocks(2)
  }

  /** A card as `createDeck` makes it: an allowed pair, the rank's value, the suit's type, an id in 0..43. */
  predicate WellFormedCard(c: Card) {
    && Allowed(c.suit, c.value)
    && c.numericValue == NumericValue(c.value)
    && c.cardType == TypeOfSuit(c.suit)
    && 0 <= c.id < 44
  }

  predicate HasCard(d: seq<Card>, s: Suit, v: CardValue) {
    exists c :: c in d && c.suit == s && c.value == v
  }

  predicate HasId(d: seq<Card>, id: int) {
    exists c :: c in d && c.id == id
  }

  /**
    * The full deck: 44 well-formed cards, every allowed suit/rank pair exactly once
    * (13 monsters each of ♠ and ♣, 9 potions of ♥, 9 weapons of ♦), ids exactly 0..43.
    */
  predicate StandardDeck(d: seq<Card>) {
    && |d| == 44
    && (forall c :: c in d ==> WellFormedCard(c))
    && (forall s, v :: Allowed(s, v) ==> HasCard(d, s, v))
    && DistinctBy(d, SuitAndRank)
    && (forall id :: 0 <= id < 44 ==> HasId(d, id))
    && DistinctBy(d, CardId)
  }

  /** The id createDeck gives each suit/rank pair: suits in push order, ranks in value order. */
  function IdOf(s: Suit, v: CardValue): int {
    (match s
     case Spades => 0
     case Clubs => 13
     case Hearts => 26
     case Diamonds => 35) + NumericValue(v) - 2
  }

  predicate IdsFrom(d: seq<Card>, base: int) {
    forall k :: 0 <= k < |d| ==> d[k].id == base + k
  }

  lemma IdsFromAppend(a: seq<Card>, b: seq<Card>, base: int)
    requires IdsFrom(a, base) && IdsFrom(b, base + |a|)
    ensures IdsFrom(a + b, base)
  {
    forall k | 0 <= k < |a + b|
      ensures (a + b)[k].id == base + k
    {
      if k >= |a| { assert (a + b)[k] == b[k - |a|]; }
    }
  }

  lemma RankTables()
    ensures forall k :: 0 <= k < |NumberRanks| ==> IsNumberRank(NumberRanks[k]) && NumericValue(NumberRanks[k]) == k + 2
    ensures forall k :: 0 <= k < |FaceCards| ==> NumericValue(FaceCards[k]) == k + 11
    ensures forall v :: IsNumberRank(v) ==> v in NumberRanks
    ensures forall v :: !IsNumberRank(v) ==> v in FaceCards
  {
    forall v: CardValue
      ensures (IsNumberRank(v) ==> v in NumberRanks) && (!IsNumberRank(v) ==> v in FaceCards)
    {
      match v
      case Two => assert NumberRanks[0] == v;
      case Three => assert NumberRanks[1] == v;
      case Four => assert NumberRanks[2] == v;
      case Five => assert NumberRanks[3] == v;
      case Six => assert NumberRanks[4] == v;
      case Seven => assert NumberRanks[5] == v;
      case Eight => assert NumberRanks[6] == v;
      case Nine => assert NumberRanks[7] == v;
      case Ten => assert NumberRanks[8] == v;
      case Jack => assert FaceCards[0] == v;
      case Queen => assert FaceCards[1] == v;
      case King => assert FaceCards[2] == v;
      case Ace => assert FaceCards[3] == v;
    }
  }

  /** Every card is well formed and carries the id its suit and rank are pushed under. */
  predicate AllPlaced(d: seq<Card>) {
    forall c :: c in d ==> WellFormedCard(c) && c.id == IdOf(c.suit, c.value)
  }

  lemma AllPlacedAppend(a: seq<Card>, b: seq<Card>)
    requires AllPlaced(a) && AllPlaced(b)
    ensures AllPlaced(a + b)
  {
  }

  lemma SuitBlockPlaced(s: Suit, t: CardType, ranks: seq<CardValue>, firstId: int)
    requires t == TypeOfSuit(s)
    requires forall k :: 0 <= k < |ranks| ==> Allowed(s, ranks[k]) && firstId + k == IdOf(s, ranks[k])
    requires 0 <= firstId && firstId + |ranks| <= 44
    ensures IdsFrom(SuitBlock(s, t, ranks, firstId), firstId)
    ensures AllPlaced(SuitBlock(s, t, ranks, firstId))
  {
  }

  lemma SuitBlockHasCards(s: Suit, t: CardType, ranks: seq<CardValue>, firstId: int)
    ensures forall v :: v in ranks ==> HasCard(SuitBlock(s, t, ranks, firstId), s, v)
  {
    var b := SuitBlock(s, t, ranks, firstId);
    forall v | v in ranks
      ensures HasCard(b, s, v)
    {
      var k :| 0 <= k < |ranks| && ranks[k] == v;
      assert b[k] in b;
    }
  }

  lemma OrderedDeckLayout()
    ensures OrderedDeck() ==
      SuitBlock(Spades, MonsterType, NumberRanks, 0) + SuitBlock(Spades, MonsterType, FaceCards, 9)
      + SuitBlock(Clubs, MonsterType, NumberRanks, 13) + SuitBlock(Clubs, MonsterType, FaceCards, 22)
      + SuitBlock(Hearts, PotionType, NumberRanks, 26) + SuitBlock(Diamonds, WeaponType, NumberRanks, 35)
  {
  }

  /** The unshuffled deck numbers its 44 cards 0..43 in order, each id fixed by suit and rank. */
  lemma {:induction false} OrderedDeckPlaced()
    ensures |OrderedDeck()| == 44
    ensures IdsFrom(OrderedDeck(), 0)
    ensures AllPlaced(OrderedDeck())
  {
    OrderedDeckLayout();
    RankTables();
    var sn := SuitBlock(Spades, MonsterType, NumberRanks, 0);
    var sf := SuitBlock(Spades, MonsterType, FaceCards, 9);
    var cn := SuitBlock(Clubs, MonsterType, NumberRanks, 13);
    var cf := SuitBlock(Clubs, MonsterType, FaceCards, 22);
    var hn := SuitBlock(Hearts, PotionType, NumberRanks, 26);
    var dn := SuitBlock(Diamonds, WeaponType, NumberRanks, 35);
    SuitBlockPlaced(Spades, MonsterType, NumberRanks, 0);
    SuitBlockPlaced(Spades, MonsterType, FaceCards, 9);
    SuitBlockPlaced(Clubs, MonsterType, NumberRanks, 13);
    SuitBlockPlaced(Clubs, MonsterType, FaceCards, 22);
    SuitBlockPlaced(Hearts, PotionType, NumberRanks, 26);
    SuitBlockPlaced(Diamonds, WeaponType, NumberRanks, 35);
    IdsFromAppend(sn, sf, 0);
    IdsFromAppend(sn + sf, cn, 0);
    IdsFromAppend(sn + sf + cn, cf, 0);
    IdsFromAppend(sn + sf + cn + cf, hn, 0);
    IdsFromAppend(sn + sf + cn + cf + hn, dn, 0);
    AllPlacedAppend(sn, sf);
    AllPlacedAppend(sn + sf, cn);
    AllPlacedAppend(sn + sf + cn, cf);
    AllPlacedAppend(sn + sf + cn + cf, hn);
    AllPlacedAppend(sn + sf + cn + cf + hn, dn);
  }

  /** Every allowed suit/rank pair occurs in the unshuffled deck. */
  lemma {:induction false} OrderedDeckHasEveryCard()
    ensures forall s, v :: Allowed(s, v) ==> HasCard(OrderedDeck(), s, v)
  {
    OrderedDeckLayout();
    RankTables();
    var sn := SuitBlock(Spades, MonsterType, NumberRanks, 0);
    var sf := SuitBlock(Spades, MonsterType, FaceCards, 9);
    var cn := SuitBlock(Clubs, MonsterType, NumberRanks, 13);
    var cf := SuitBlock(Clubs, MonsterType, FaceCards, 22);
    var hn := SuitBlock(Hearts, PotionType, NumberRanks, 26);
    var dn := SuitBlock(Diamonds, WeaponType, NumberRanks, 35);
    SuitBlockHasCards(Spades, MonsterType, NumberRanks, 0);
    SuitBlockHasCards(Spades, MonsterType, FaceCards, 9);
    SuitBlockHasCards(Clubs, MonsterType, NumberRanks, 13);
    SuitBlockHasCards(Clubs, MonsterType, FaceCards, 22);
    SuitBlockHasCards(Hearts, PotionType, NumberRanks, 26);
    SuitBlockHasCards(Diamonds, WeaponType, NumberRanks, 35);
    var d := OrderedDeck();
    forall s, v | Allowed(s, v)
      ensures HasCard(d, s, v)
    {
      var b :=
        match s
        case Spades => if IsNumberRank(v) then sn else sf
        case Clubs => if IsNumberRank(v) then cn else cf
        case Hearts => hn
        case Diamonds => dn;
      assert HasCard(b, s, v);
      var c :| c in b && c.suit == s && c.value == v;
      assert c in d;
    }
  }

  /** Distinct ids, each fixed by suit and rank, make the suit/rank pairs distinct too. */
  lemma PlacedDistinct(d: seq<Card>)
    requires IdsFrom(d, 0) && AllPlaced(d)
    ensures DistinctBy(d, CardId) && DistinctBy(d, SuitAndRank)
  {
    forall i, j | 0 <= i < |d| && 0 <= j < |d| && i != j
      ensures SuitAndRank(d[i]) != SuitAndRank(d[j])
    {
      assert d[i] in d && d[j] in d;
    }
  }

  /** The unshuffled deck is the standard deck. */
  lemma OrderedDeckIsStandard()
    ensures StandardDeck(OrderedDeck())
  {
    OrderedDeckPlaced();
    OrderedDeckHasEveryCard();
    PlacedDistinct(OrderedDeck());
    var d := OrderedDeck();
    forall id | 0 <= id < 44
      ensures HasId(d, id)
    {
      assert d[id] in d;
    }
  }

  /** The deck createDeck returns is the standard deck, in shuffled order. */
  lemma CreatedDeckIsStandard(rs: seq<nat>)
    requires ValidDraws(rs, 44)
    ensures |OrderedDeck()| == 44
    ensures StandardDeck(Shuffled(OrderedDeck(), rs))
  {
    OrderedDeckIsStandard();
    var d := Shuffled(OrderedDeck(), rs);
    ShuffledKeepsDistinct(OrderedDeck(), rs, SuitAndRank);
    ShuffledKeepsDistinct(OrderedDeck(), rs, CardId);
    forall s, v | Allowed(s, v)
      ensures HasCard(d, s, v)
    {
      assert HasCard(OrderedDeck(), s, v);
    }
    forall id | 0 <= id < 44
      ensures HasId(d, id)
    {
      assert HasId(OrderedDeck(), id);
    }
  }

  lemma SuitBlockSnoc(s: Suit, t: CardType, ranks: seq<CardValue>, firstId: int, k: nat)
    requires k < |ranks|
    ensures SuitBlock(s, t, ranks[..k + 1], firstId)
         == SuitBlock(s, t, ranks[..k], firstId) + [Card(firstId + k, s, ranks[k], NumericValue(ranks[k]), t)]
  {
  }

  /** One `for (let i = 2; i <= 10; i++)` loop of createDeck: pushes the 2–10 cards of a suit. */
  method PushNumberCards(deck: seq<Card>, idCounter: int, suit: Suit, t: CardType)
    returns (deck': seq<Card>, idCounter': int)
    ensures deck' == deck + SuitBlock(suit, t, NumberRanks, idCounter)
    ensures idCounter' == idCounter + 9
  {
    deck', idCounter' := deck, idCounter;
    for i := 2 to 11
      invariant deck' == deck + SuitBlock(suit, t, NumberRanks[..i - 2], idCounter)
      invariant idCounter' == idCounter + (i - 2)
    {
      RankTables();
      SuitBlockSnoc(suit, t, NumberRanks, idCounter, i - 2);
      deck' := deck' + [Card(idCounter', suit, NumberRank(i), i, t)];
      idCounter' := idCounter' + 1;
    }
  }

  /** The `faceCards.forEach` loop of createDeck: pushes J, Q, K, Ace of a monster suit. */
  method PushFaceCards(deck: seq<Card>, idCounter: int, suit: Suit)
    returns (deck': seq<Card>, idCounter': int)
    ensures deck' == deck + SuitBlock(suit, MonsterType, FaceCards, idCounter)
    ensures idCounter' == idCounter + 4
  {
    deck', idCounter' := deck, idCounter;
    for f := 0 to |FaceCards|
      invariant deck' == deck + SuitBlock(suit, MonsterType, FaceCards[..f], idCounter)
      invariant idCounter' == idCounter + f
    {
      var card := FaceCards[f];
      var numericValue := if card == Jack then 11 else if card == Queen then 12 else if card == King then 13 else 14;
      SuitBlockSnoc(suit, MonsterType, FaceCards, idCounter, f);
      deck' := deck' + [Card(idCounter', suit, card, numericValue, MonsterType)];
      idCounter' := idCounter' + 1;
    }
  }

  /** A fresh array holding `s`: the JavaScript array the source pushes into. */
  method ToArray(s: seq<Card>) returns (a: array<Card>)
    ensures fresh(a) && a[..] == s
  {
    a := new Card[|s|](k requires 0 <= k < |s| => s[k]);
  }

  /**
    * createDeck: pushes the monster suits, then the potion and weapon suits, numbering the
    * cards with a running counter, and returns the shuffled result.
    */
  method CreateDeck(rs: seq<nat>) returns (deck: Deck)
    requires ValidDraws(rs, 44)
    ensures deck == Shuffled(OrderedDeck(), rs)
    ensures StandardDeck(deck)
  {
    var cards: seq<Card> := [];
    var idCounter := 0;
    for m := 0 to |SuitsMonsters|
      invariant cards == MonsterBlocks(m) && idCounter == 13 * m
    {
      var suit := SuitsMonsters[m];
      cards, idCounter := PushNumberCards(cards, idCounter, suit, MonsterType);
      cards, idCounter := PushFaceCards(cards, idCounter, suit);
    }
    for o := 0 to |OtherSuits|
      invariant cards == MonsterBlocks(2) + OtherBlocks(o) && idCounter == 26 + 9 * o
    {
      var suit := OtherSuits[o].0;
      var t := OtherSuits[o].1;
      cards, idCounter := PushNumberCards(cards, idCounter, suit, t);
    }
    assert cards == OrderedDeck();
    OrderedDeckPlaced();
    CreatedDeckIsStandard(rs);
    var a := ToArray(cards);
    var shuffled := Shuffle(a, rs);
    deck := shuffled[..];
  }
}
