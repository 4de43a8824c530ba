/**
  * The rules of the current Scoundrel engine (src/games/scoundrel/state.ts): every handler
  * of the `useGameState` hook as one atomic transition on the whole GameState (all the
  * React setters of one event fire together), and the win check as a transition run
  * after each step.
  */
module ScoundrelRules {
  import opened ScoundrelTypes
  import opened DeckLogic

  const MaxHealth: int := 20
  /** `lastRanAwayRoomNumber` before the first forfeit of a game. */
  const NeverRanAway: int := -1

  function Min(a: int, b: int): int { if a <= b then a else b }

  function Max(a: int, b: int): int { if a >= b then a else b }

  /** The hook's `useState` defaults, before a game is started or a saved one is loaded. */
  function InitialState(): (g: GameState)
    ensures !g.gameStarted && g.deck == [] && g.room == [] && g.history == [] && g.health == 100
    ensures Undo(g) == g && WinCheck(g) == g && AbleToForfeit(g)
  {
    GameState([], [], 100, None, 0, NeverRanAway, false, false, [], false)
  }

  /** The snapshot saveState takes: every field except `history` and `gameStarted`. */
  function Snapshot(g: GameState): GameStateHistory {
    GameStateHistory(g.deck, g.room, g.health, g.equippedWeapon, g.currentRoomNumber,
                     g.lastRanAwayRoomNumber, g.gameOver, g.won)
  }

  /** saveState: pushes the snapshot of the current state on the history stack. */
  function SaveState(g: GameState): (r: GameState)
    ensures r.(history := g.history) == g
    ensures |r.history| == |g.history| + 1 && r.history[|g.history|] == Snapshot(g)
    ensures Undo(r) == g
  {
    var r := g.(history := g.history + [Snapshot(g)]);
    assert r.history[..|r.history| - 1] == g.history;
    r
  }

  // ---------------------------------------------------------------------------
  // Handlers
  // ---------------------------------------------------------------------------

  /**
    * handleNextRoom: ignored once the game is over; a single room card is kept and up to
    * three deck cards join it, otherwise the room is replaced by up to four deck cards.
    * The room size is not checked here (the button is only enabled for 0 or 1 cards).
    */
  function NextRoom(g: GameState): (r: GameState)
    ensures r.currentRoomNumber == g.currentRoomNumber + (if g.gameOver then 0 else 1)
    ensures |r.room| + |r.deck| <= |g.room| + |g.deck|
    ensures !g.gameOver ==> |r.room| <= 4 && (|r.room| == 4 || r.deck == [])
    ensures multiset(r.room + r.deck) <= multiset(g.room + g.deck)
  {
    if g.gameOver then g
    else if |g.room| == 1 then
      var drawCount := Min(3, |g.deck|);
      assert g.room + g.deck[..drawCount] + g.deck[drawCount..] == g.room + g.deck;
      SaveState(g).(room := g.room + g.deck[..drawCount], deck := g.deck[drawCount..],
                    currentRoomNumber := g.currentRoomNumber + 1)
    else
      var drawCount := Min(4, |g.deck|);
      assert g.deck[..drawCount] + g.deck[drawCount..] == g.deck;
      assert multiset(g.room + g.deck) == multiset(g.room) + multiset(g.deck);
      SaveState(g).(room := g.deck[..drawCount], deck := g.deck[drawCount..],
                    currentRoomNumber := g.currentRoomNumber + 1)
  }

  /** handleUndo: pops the last snapshot and restores its eight fields. */
  function Undo(g: GameState): (r: GameState)
    ensures |g.history| == 0 ==> r == g
    ensures |g.history| > 0 ==> |r.history| == |g.history| - 1 && Snapshot(r) == g.history[|g.history| - 1]
    ensures r.gameStarted == g.gameStarted
  {
    if |g.history| == 0 then g
    else
      var p := g.history[|g.history| - 1];
      g.(deck := p.deck, room := p.room, health := p.health, equippedWeapon := p.equippedWeapon,
         currentRoomNumber := p.currentRoomNumber, lastRanAwayRoomNumber := p.lastRanAwayRoomNumber,
         gameOver := p.gameOver, won := p.won, history := g.history[..|g.history| - 1])
  }

  /** handleNewGame: a freshly built and shuffled deck, its first four cards as the room. */
  function NewGame(rs: seq<nat>): (g: GameState)
    requires ValidDraws(rs, 44)
    ensures multiset(g.room + g.deck) == multiset(OrderedDeck())
    ensures |g.room| == 4 && |g.deck| == 40
    ensures g.gameStarted && !g.gameOver && g.history == [] && g.health == MaxHealth
  {
    StartGame(Shuffled(OrderedDeck(), rs))
  }

  /** The state handleNewGame sets up from the deck createDeck returned. */
  function StartGame(newDeck: Deck): (g: GameState)
    ensures g.room + g.deck == newDeck && |g.room| == Min(4, |newDeck|)
    ensures g.gameStarted && !g.gameOver && !g.won && g.history == [] && g.equippedWeapon == None
    ensures g.health == MaxHealth && AbleToForfeit(g) && Undo(g) == g
  {
    var roomSize := Min(4, |newDeck|);
    GameState(newDeck[roomSize..], newDeck[..roomSize], MaxHealth, None, 0, NeverRanAway,
              false, false, [], true)
  }

  /**
    * removeCardFromRoom: keeps, in order, the room cards whose id differs from `cardId`.
    * With distinct ids this takes out exactly one position: see RemoveCardFromRoomExact
    * and RemovalIsExact.
    */
  function RemoveCardFromRoom(room: Deck, cardId: int): (r: Deck)
    ensures forall c :: c in r <==> c in room && c.id != cardId
    ensures |r| <= |room|
    ensures (exists c :: c in room && c.id == cardId) ==> |r| < |room|
    decreases |room|
  {
    if room == [] then []
    else if room[0].id != cardId then [room[0]] + RemoveCardFromRoom(room[1..], cardId)
    else RemoveCardFromRoom(room[1..], cardId)
  }

  /** handleDrink: heals by the potion's value, never above 20. */
  function Drink(g: GameState, card: Card): (r: GameState)
    requires card in g.room && card.cardType == PotionType
    ensures g.gameOver ==> r == g
    ensures !g.gameOver ==>
      && r.health <= MaxHealth && (card.numericValue >= 0 ==> r.health >= Min(MaxHealth, g.health))
      && card !in r.room && |r.room| < |g.room| && r.history == g.history + [Snapshot(g)]
  {
    if g.gameOver then g
    else SaveState(g).(health := Min(MaxHealth, g.health + card.numericValue),
                       room := RemoveCardFromRoom(g.room, card.id))
  }

  /** handleEquip: the card becomes the weapon, unused; the previous weapon is dropped. */
  function Equip(g: GameState, card: Card): (r: GameState)
    requires card in g.room && card.cardType == WeaponType
    ensures g.gameOver ==> r == g
    ensures !g.gameOver ==>
      && r.equippedWeapon.Some? && r.equippedWeapon.value.lastUsedAttack.None?
      && card !in r.room && |r.room| < |g.room| && r.history == g.history + [Snapshot(g)]
  {
    if g.gameOver then g
    else SaveState(g).(equippedWeapon := Some(Weapon(card, None)),
                       room := RemoveCardFromRoom(g.room, card.id))
  }

  /** handleFightBareHands: the monster's full value is taken from health, with no floor. */
  function FightBareHands(g: GameState, card: Card): (r: GameState)
    requires card in g.room && card.cardType == MonsterType
    ensures g.gameOver ==> r == g
    ensures card.numericValue >= 0 ==> r.health <= g.health
    ensures !g.gameOver ==>
      card !in r.room && |r.room| < |g.room| && r.history == g.history + [Snapshot(g)]
  {
    if g.gameOver then g
    else SaveState(g).(health := g.health - card.numericValue,
                       room := RemoveCardFromRoom(g.room, card.id))
  }

  /** The weapon rule: a weapon is equipped and is unused or last killed a stronger monster. */
  predicate CanFightWithWeapon(g: GameState, card: Card): (able: bool)
    ensures card in g.room && card.cardType == MonsterType && !g.gameOver ==>
      (able <==> FightWithWeapon(g, card) != g)
  {
    && g.equippedWeapon.Some?
    && (|| g.equippedWeapon.value.lastUsedAttack.None?
        || card.numericValue < g.equippedWeapon.value.lastUsedAttack.value.numericValue)
  }

  /**
    * handleFightWithWeapon: ignored when the game is over, no weapon is equipped or the
    * monster is not weaker than the weapon's last kill; otherwise the weapon absorbs up to
    * its value and the monster becomes its last kill.
    */
  function FightWithWeapon(g: GameState, card: Card): (r: GameState)
    requires card in g.room && card.cardType == MonsterType
    ensures r.health <= g.health
    ensures r.equippedWeapon.Some? <==> g.equippedWeapon.Some?
    ensures r != g ==>
      && g.equippedWeapon.Some? && r.equippedWeapon.Some?
      && r.equippedWeapon.value.card == g.equippedWeapon.value.card
      && r.equippedWeapon.value.lastUsedAttack == Some(card)
      && card !in r.room && |r.room| < |g.room| && r.history == g.history + [Snapshot(g)]
  {
    if g.gameOver || g.equippedWeapon.None? then g
    else
      var w := g.equippedWeapon.value;
      if w.lastUsedAttack.Some? && card.numericValue >= w.lastUsedAttack.value.numericValue then g
      else SaveState(g).(health := g.health - Max(0, card.numericValue - w.card.numericValue),
                         equippedWeapon := Some(w.(lastUsedAttack := Some(card))),
                         room := RemoveCardFromRoom(g.room, card.id))
  }

  /** ableToForfeit: never ran away, or the last forfeit is at least two rooms back. */
  predicate AbleToForfeit(g: GameState): (able: bool)
    ensures g.lastRanAwayRoomNumber == NeverRanAway ==> able
    ensures g.lastRanAwayRoomNumber != NeverRanAway ==>
      (able <==> g.currentRoomNumber >= g.lastRanAwayRoomNumber + 2)
  {
    g.lastRanAwayRoomNumber == NeverRanAway || g.currentRoomNumber - g.lastRanAwayRoomNumber >= 2
  }

  /** In a running game, forfeit does something exactly when ableToForfeit allows it. */
  lemma ForfeitGate(g: GameState, rs: seq<nat>)
    requires ValidDraws(rs, |g.room|) && !g.gameOver
    ensures AbleToForfeit(g) <==> Forfeit(g, rs) != g
  {
    if AbleToForfeit(g) {
      assert |Forfeit(g, rs).history| == |g.history| + 1;
    }
  }

  /**
    * handleForfeit: the room, shuffled with the draws `rs`, goes to the back of the deck and
    * the room is left empty (no new room is drawn).
    */
  function Forfeit(g: GameState, rs: seq<nat>): (r: GameState)
    requires ValidDraws(rs, |g.room|)
    ensures multiset(r.deck + r.room) == multiset(g.deck + g.room)
    ensures r == g || (r.room == [] && r.lastRanAwayRoomNumber == r.currentRoomNumber)
    ensures r.currentRoomNumber == g.currentRoomNumber
    ensures r.health == g.health && r.equippedWeapon == g.equippedWeapon
    ensures r.gameOver == g.gameOver && r.won == g.won && r.gameStarted == g.gameStarted
  {
    if g.gameOver || !AbleToForfeit(g) then g
    else SaveState(g).(deck := g.deck + Shuffled(g.room, rs), room := [],
                       lastRanAwayRoomNumber := g.currentRoomNumber)
  }

  /** The win-check effect. There is no loss check: health at or below 0 ends nothing. */
  function WinCheck(g: GameState): (r: GameState)
    ensures r.(won := g.won, gameOver := g.gameOver) == g
    ensures r.won != g.won ==> r.won && r.gameOver && r.health > 0 && r.deck == [] && r.room == []
  {
    if g.gameStarted && !g.gameOver && g.health > 0 && |g.deck| == 0 && |g.room| == 0
    then g.(won := true, gameOver := true)
    else g
  }

  // ---------------------------------------------------------------------------
  // Player actions
  // ---------------------------------------------------------------------------

  /** The actions a player takes between two win checks; undo and new game are separate. */
  datatype Action =
    | NextRoomAction
    | DrinkAction(card: Card)
    | EquipAction(card: Card)
    | FightBareHandsAction(card: Card)
    | FightWithWeaponAction(card: Card)
    | ForfeitAction(draws: seq<nat>)

  /** What the interface guarantees before it calls a handler: the card is in the room and has the button's type. */
  predicate CanAttempt(g: GameState, a: Action) {
    match a
    case NextRoomAction => true
    case DrinkAction(c) => c in g.room && c.cardType == PotionType
    case EquipAction(c) => c in g.room && c.cardType == WeaponType
    case FightBareHandsAction(c) => c in g.room && c.cardType == MonsterType
    case FightWithWeaponAction(c) => c in g.room && c.cardType == MonsterType
    case ForfeitAction(rs) => ValidDraws(rs, |g.room|)
  }

  /** Whether the handler acts rather than returning early. */
  predicate Accepted(g: GameState, a: Action) {
    && !g.gameOver
    && match a
       case FightWithWeaponAction(c) => CanFightWithWeapon(g, c)
       case ForfeitAction(_) => AbleToForfeit(g)
       case _ => true
  }

  function Step(g: GameState, a: Action): GameState
    requires CanAttempt(g, a)
  {
    match a
    case NextRoomAction => NextRoom(g)
    case DrinkAction(c) => Drink(g, c)
    case EquipAction(c) => Equip(g, c)
    case FightBareHandsAction(c) => FightBareHands(g, c)
    case FightWithWeaponAction(c) => FightWithWeapon(g, c)
    case ForfeitAction(rs) => Forfeit(g, rs)
  }

  // ---------------------------------------------------------------------------
  // Properties of single handlers
  // ---------------------------------------------------------------------------

  /**
    * Next room, once the game is running, pushes one snapshot, advances the room counter by
    * exactly one and leaves health, weapon, forfeit room and flags alone.
    */
  lemma NextRoomBookkeeping(g: GameState)
    ensures g.gameOver ==> NextRoom(g) == g
    ensures !g.gameOver ==>
      var r := NextRoom(g);
      && r.history == g.history + [Snapshot(g)]
      && r.currentRoomNumber == g.currentRoomNumber + 1
      && r.health == g.health && r.equippedWeapon == g.equippedWeapon
      && r.lastRanAwayRoomNumber == g.lastRanAwayRoomNumber
      && r.gameOver == g.gameOver && r.won == g.won && r.gameStarted == g.gameStarted
  {
  }

  /**
    * Next room takes its cards from the front of the deck: a single room card stays first,
    * and the room is filled up to four cards or until the deck runs out.
    */
  lemma NextRoomDraws(g: GameState)
    requires !g.gameOver
    ensures var r := NextRoom(g);
      && (|g.room| == 1 ==> r.room[..1] == g.room && g.deck == r.room[1..] + r.deck)
      && (|g.room| != 1 ==> g.deck == r.room + r.deck)
      && (|r.room| == 4 || r.deck == [])
      && |r.room| <= 4
  {
    var r := NextRoom(g);
    if |g.room| == 1 {
      var n := Min(3, |g.deck|);
      assert g.deck == g.deck[..n] + g.deck[n..];
      assert r.room[1..] == g.deck[..n];
    } else {
      var n := Min(4, |g.deck|);
      assert g.deck == g.deck[..n] + g.deck[n..];
    }
  }

  /** With 0 or 1 room cards, next room loses no card: deck and room hold the same cards as before. */
  lemma NextRoomKeepsCards(g: GameState)
    requires |g.room| <= 1
    ensures multiset(NextRoom(g).deck + NextRoom(g).room) == multiset(g.deck + g.room)
  {
    if !g.gameOver {
      var r := NextRoom(g);
      NextRoomDraws(g);
      if |g.room| == 1 {
        calc {
          multiset(r.deck + r.room);
          multiset(r.deck) + multiset(r.room[..1] + r.room[1..]);
          { assert r.room[..1] + r.room[1..] == r.room; }
          multiset(r.deck) + multiset(g.room) + multiset(r.room[1..]);
          multiset(r.room[1..] + r.deck) + multiset(g.room);
        }
      } else {
        assert g.deck + g.room == g.deck;
      }
    }
  }

  /** With distinct ids, removing a room card by id removes exactly that card, keeping the order. */
  lemma {:induction false} RemoveCardFromRoomExact(room: Deck, i: nat)
    requires i < |room| && DistinctBy(room, CardId)
    ensures RemoveCardFromRoom(room, room[i].id) == room[..i] + room[i + 1..]
    decreases |room|
  {
    if i == 0 {
      RemoveFirstCardExact(room);
    } else {
      var id := room[i].id;
      assert DistinctBy(room[1..], CardId) by {
        DistinctConcat(room[..1], room[1..], CardId);
        assert room == room[..1] + room[1..];
      }
      assert room[0].id != id by { assert CardId(room[0]) != CardId(room[i]); }
      RemoveCardFromRoomExact(room[1..], i - 1);
      assert room[1..][..i - 1] + room[1..][i..] == room[1..i] + room[i + 1..];
      assert [room[0]] + room[1..i] == room[..i];
    }
  }

  /** With distinct ids, removing the first room card's id leaves exactly the rest. */
  lemma RemoveFirstCardExact(room: Deck)
    requires 0 < |room| && DistinctBy(room, CardId)
    ensures RemoveCardFromRoom(room, room[0].id) == room[1..]
  {
    var id := room[0].id;
    forall c | c in room[1..]
      ensures c.id != id
    {
      var j :| 0 <= j < |room[1..]| && room[1..][j] == c;
      assert room[j + 1] == c;
      assert CardId(room[0]) != CardId(room[j + 1]);
    }
    RemoveAbsentCard(room[1..], id);
  }

  /** Removing an id no room card has leaves the room as it is. */
  lemma {:induction false} RemoveAbsentCard(room: Deck, cardId: int)
    requires forall c :: c in room ==> c.id != cardId
    ensures RemoveCardFromRoom(room, cardId) == room
    decreases |room|
  {
    if room != [] {
      assert room[0] in room;
      RemoveAbsentCard(room[1..], cardId);
      assert [room[0]] + room[1..] == room;
    }
  }

  /** Removing cards keeps the keys of the rest distinct. */
  lemma {:induction false} RemoveKeepsDistinct<K>(room: Deck, cardId: int, key: Card -> K)
    requires DistinctBy(room, key)
    ensures DistinctBy(RemoveCardFromRoom(room, cardId), key)
    decreases |room|
  {
    if room != [] {
      DistinctConcat(room[..1], room[1..], key);
      assert room == room[..1] + room[1..];
      RemoveKeepsDistinct(room[1..], cardId, key);
      var rest := RemoveCardFromRoom(room[1..], cardId);
      if room[0].id != cardId {
        assert KeysDisjoint([room[0]], rest, key) by {
          assert room[..1] == [room[0]];
        }
        DistinctConcat([room[0]], rest, key);
      }
    }
  }

  /** `after` is `before` with exactly the one position holding `card` taken out, the rest in order. */
  predicate RemovedExactly(before: Deck, after: Deck, card: Card) {
    exists i :: 0 <= i < |before| && before[i] == card && after == before[..i] + before[i + 1..]
  }

  /** With distinct room ids, removing a room card's id takes out exactly that card. */
  lemma RemovalIsExact(room: Deck, card: Card)
    requires card in room && DistinctBy(room, CardId)
    ensures RemovedExactly(room, RemoveCardFromRoom(room, card.id), card)
  {
    var i :| 0 <= i < |room| && room[i] == card;
    RemoveCardFromRoomExact(room, i);
  }

  /** The fields a card action leaves alone: deck, room counters, flags and the forfeit rule. */
  predicate KeepsTable(g: GameState, r: GameState) {
    && r.deck == g.deck
    && r.currentRoomNumber == g.currentRoomNumber
    && r.lastRanAwayRoomNumber == g.lastRanAwayRoomNumber
    && r.gameOver == g.gameOver && r.won == g.won && r.gameStarted == g.gameStarted
  }

  /**
    * Drinking heals by the potion's value up to 20 and removes the potion (with distinct
    * room ids: exactly that card, the others staying in order); deck and counters stay.
    */
  lemma DrinkHeals(g: GameState, card: Card)
    requires card in g.room && card.cardType == PotionType && !g.gameOver
    ensures Drink(g, card).health == Min(MaxHealth, g.health + card.numericValue)
    ensures Drink(g, card).health <= MaxHealth
    ensures card.numericValue >= 0 ==> Drink(g, card).health >= Min(MaxHealth, g.health)
    ensures card !in Drink(g, card).room
    ensures KeepsTable(g, Drink(g, card)) && Drink(g, card).equippedWeapon == g.equippedWeapon
    ensures DistinctBy(g.room, CardId) ==> RemovedExactly(g.room, Drink(g, card).room, card)
  {
    if DistinctBy(g.room, CardId) {
      RemovalIsExact(g.room, card);
    }
  }

  /**
    * Equipping replaces the weapon by the fresh card; the old weapon goes nowhere; exactly
    * the card leaves the room (with distinct ids); health, deck and counters stay.
    */
  lemma EquipReplacesWeapon(g: GameState, card: Card)
    requires card in g.room && card.cardType == WeaponType && !g.gameOver
    ensures Equip(g, card).equippedWeapon == Some(Weapon(card, None))
    ensures KeepsTable(g, Equip(g, card)) && Equip(g, card).health == g.health
    ensures card !in Equip(g, card).room
    ensures DistinctBy(g.room, CardId) ==> RemovedExactly(g.room, Equip(g, card).room, card)
  {
    if DistinctBy(g.room, CardId) {
      RemovalIsExact(g.room, card);
    }
  }

  /**
    * A bare-handed fight costs exactly the monster's value, even below zero, and removes
    * exactly that card (with distinct ids); weapon, deck and counters stay.
    */
  lemma FightBareHandsDamage(g: GameState, card: Card)
    requires card in g.room && card.cardType == MonsterType && !g.gameOver
    ensures FightBareHands(g, card).health == g.health - card.numericValue
    ensures FightBareHands(g, card).equippedWeapon == g.equippedWeapon
    ensures KeepsTable(g, FightBareHands(g, card))
    ensures card !in FightBareHands(g, card).room
    ensures DistinctBy(g.room, CardId) ==> RemovedExactly(g.room, FightBareHands(g, card).room, card)
  {
    if DistinctBy(g.room, CardId) {
      RemovalIsExact(g.room, card);
    }
  }

  /**
    * A refused weapon fight changes nothing; an accepted one costs max(0, monster - weapon),
    * records the kill, and removes exactly that card (with distinct ids).
    */
  lemma FightWithWeaponRule(g: GameState, card: Card)
    requires card in g.room && card.cardType == MonsterType
    ensures !Accepted(g, FightWithWeaponAction(card)) ==> FightWithWeapon(g, card) == g
    ensures Accepted(g, FightWithWeaponAction(card)) ==>
      var r := FightWithWeapon(g, card);
      var w := g.equippedWeapon.value;
      && r.health == g.health - Max(0, card.numericValue - w.card.numericValue)
      && r.health <= g.health
      && (w.card.numericValue >= 0 && card.numericValue >= 0 ==> r.health >= g.health - card.numericValue)
      && r.equippedWeapon == Some(Weapon(w.card, Some(card)))
      && r.history == g.history + [Snapshot(g)]
      && KeepsTable(g, r)
      && card !in r.room
      && (DistinctBy(g.room, CardId) ==> RemovedExactly(g.room, r.room, card))
  {
    if Accepted(g, FightWithWeaponAction(card)) && DistinctBy(g.room, CardId) {
      RemovalIsExact(g.room, card);
    }
  }

  /** Two successive kills with one weapon: the second monster is strictly weaker. */
  lemma WeaponKillsDecrease(g: GameState, first: Card, second: Card)
    requires first in g.room && first.cardType == MonsterType
    requires Accepted(g, FightWithWeaponAction(first))
    requires second in FightWithWeapon(g, first).room && second.cardType == MonsterType
    requires Accepted(FightWithWeapon(g, first), FightWithWeaponAction(second))
    ensures second.numericValue < first.numericValue
    ensures FightWithWeapon(FightWithWeapon(g, first), second).equippedWeapon.value.card
         == g.equippedWeapon.value.card
  {
  }

  /** Forfeit puts the room, reordered, at the back of the deck, and remembers the room number. */
  lemma ForfeitReturnsRoom(g: GameState, rs: seq<nat>)
    requires ValidDraws(rs, |g.room|)
    ensures (g.gameOver || !AbleToForfeit(g)) ==> Forfeit(g, rs) == g
    ensures !g.gameOver && AbleToForfeit(g) ==>
      var r := Forfeit(g, rs);
      && r.room == []
      && r.deck[..|g.deck|] == g.deck
      && multiset(r.deck[|g.deck|..]) == multiset(g.room)
      && multiset(r.deck + r.room) == multiset(g.deck + g.room)
      && r.lastRanAwayRoomNumber == g.currentRoomNumber
      && r.currentRoomNumber == g.currentRoomNumber
      && r.history == g.history + [Snapshot(g)]
      && r.(deck := g.deck, room := g.room, lastRanAwayRoomNumber := g.lastRanAwayRoomNumber,
            history := g.history) == g
  {
    if !g.gameOver && AbleToForfeit(g) {
      var r := Forfeit(g, rs);
      assert r.deck[..|g.deck|] == g.deck;
      assert r.deck[|g.deck|..] == Shuffled(g.room, rs);
      assert r.deck + r.room == r.deck;
    }
  }

  /** After a forfeit in room N, forfeit is refused in rooms N and N + 1 and allowed in N + 2. */
  lemma ForfeitCooldown(g: GameState, rs: seq<nat>)
    requires ValidDraws(rs, |g.room|)
    requires !g.gameOver && AbleToForfeit(g) && g.currentRoomNumber >= 0
    ensures !AbleToForfeit(Forfeit(g, rs))
    ensures !AbleToForfeit(NextRoom(Forfeit(g, rs)))
    ensures AbleToForfeit(NextRoom(NextRoom(Forfeit(g, rs))))
  {
  }

  predicate IsCardAction(a: Action) {
    a.DrinkAction? || a.EquipAction? || a.FightBareHandsAction? || a.FightWithWeaponAction?
  }

  /**
    * Only next room moves the room number, and only forfeit moves the forfeit room: a card
    * action keeps deck, both counters and so whether forfeit is allowed.
    */
  lemma CardActionKeepsCounters(g: GameState, a: Action)
    requires CanAttempt(g, a) && IsCardAction(a)
    ensures KeepsTable(g, Step(g, a))
    ensures AbleToForfeit(Step(g, a)) <==> AbleToForfeit(g)
  {
  }

  /** `acts` are card actions the interface can offer one after another, each followed by the win check. */
  predicate CardTurns(g: GameState, acts: seq<Action>)
    decreases |acts|
  {
    |acts| == 0 ||
    (IsCardAction(acts[0]) && CanAttempt(g, acts[0]) && CardTurns(WinCheck(Step(g, acts[0])), acts[1..]))
  }

  /** The state after playing the card actions `acts` in one room. */
  function Play(g: GameState, acts: seq<Action>): (r: GameState)
    requires CardTurns(g, acts)
    ensures r.currentRoomNumber == g.currentRoomNumber
    ensures r.lastRanAwayRoomNumber == g.lastRanAwayRoomNumber
    decreases |acts|
  {
    if |acts| == 0 then g
    else
      CardActionKeepsCounters(g, acts[0]);
      Play(WinCheck(Step(g, acts[0])), acts[1..])
  }

  /**
    * After a forfeit in room N, however many card actions are played in room N, then in
    * room N + 1 after next room, forfeit stays refused throughout.
    */
  lemma ForfeitRefusedNextRoom(g: GameState, rs: seq<nat>, inRoomN: seq<Action>, inRoomN1: seq<Action>)
    requires ValidDraws(rs, |g.room|)
    requires !g.gameOver && AbleToForfeit(g) && g.currentRoomNumber >= 0
    requires CardTurns(Forfeit(g, rs), inRoomN)
    requires CardTurns(NextRoom(Play(Forfeit(g, rs), inRoomN)), inRoomN1)
    ensures !AbleToForfeit(Play(Forfeit(g, rs), inRoomN))
    ensures !AbleToForfeit(Play(NextRoom(Play(Forfeit(g, rs), inRoomN)), inRoomN1))
  {
  }

  /** Undo on an empty history does nothing; otherwise it restores the last snapshot and drops it. */
  lemma UndoRestores(g: GameState)
    ensures |g.history| == 0 ==> Undo(g) == g
    ensures |g.history| > 0 ==>
      && Snapshot(Undo(g)) == g.history[|g.history| - 1]
      && Undo(g).history == g.history[..|g.history| - 1]
      && Undo(g).gameStarted == g.gameStarted
  {
  }

  /**
    * Every player action either is refused and changes nothing, or pushes exactly one
    * snapshot of the state before it; undo then brings back that state exactly, also after
    * the win check has run. No player action changes `won` or `gameOver`.
    */
  lemma ActionThenUndo(g: GameState, a: Action)
    requires CanAttempt(g, a)
    ensures !Accepted(g, a) ==> Step(g, a) == g
    ensures Accepted(g, a) ==> Step(g, a).history == g.history + [Snapshot(g)]
    ensures Accepted(g, a) ==> Undo(Step(g, a)) == g
    ensures Accepted(g, a) ==> Undo(WinCheck(Step(g, a))) == g
    ensures Step(g, a).won == g.won && Step(g, a).gameOver == g.gameOver
    ensures Step(g, a).gameStarted == g.gameStarted
  {
    var r := Step(g, a);
    if Accepted(g, a) {
      UndoAfterSave(g, r);
      UndoAfterSave(g, WinCheck(r));
    }
  }

  /** A state whose history is `g`'s plus the snapshot of `g` is undone back to `g`. */
  lemma UndoAfterSave(g: GameState, r: GameState)
    requires r.history == g.history + [Snapshot(g)] && r.gameStarted == g.gameStarted
    ensures Undo(r) == g
  {
    assert r.history[..|r.history| - 1] == g.history;
  }

  /** A new game: full health, no weapon, counters reset, a four-card room over a 40-card deck. */
  lemma NewGameSetup(rs: seq<nat>)
    requires ValidDraws(rs, 44)
    ensures var g := NewGame(rs);
      && g.health == MaxHealth && g.equippedWeapon == None
      && g.currentRoomNumber == 0 && g.lastRanAwayRoomNumber == NeverRanAway
      && !g.gameOver && !g.won && g.history == [] && g.gameStarted
      && |g.room| == 4 && |g.deck| == 40
      && StandardDeck(g.room + g.deck)
  {
    CreatedDeckIsStandard(rs);
    StartGameSetup(Shuffled(OrderedDeck(), rs));
  }

  lemma StartGameSetup(d: Deck)
    requires StandardDeck(d)
    ensures var g := StartGame(d);
      && g.health == MaxHealth && g.equippedWeapon == None
      && g.currentRoomNumber == 0 && g.lastRanAwayRoomNumber == NeverRanAway
      && !g.gameOver && !g.won && g.history == [] && g.gameStarted
      && |g.room| == 4 && |g.deck| == 40
      && g.room + g.deck == d
  {
    assert d[..4] + d[4..] == d;
  }

  /**
    * The win check ends the game as won exactly when a started, running game has health
    * above 0 and neither deck nor room cards; it is the only step that sets `won`, and it
    * never ends a game whose health is at or below 0.
    */
  lemma WinCheckRule(g: GameState)
    ensures WinCheck(g).won <==>
      g.won || (g.gameStarted && !g.gameOver && g.health > 0 && g.deck == [] && g.room == [])
    ensures WinCheck(g).gameOver <==>
      g.gameOver || (g.gameStarted && g.health > 0 && g.deck == [] && g.room == [])
    ensures g.health <= 0 ==> WinCheck(g) == g
    ensures WinCheck(g).history == g.history
    ensures Snapshot(WinCheck(g)).deck == g.deck && WinCheck(g).health == g.health
  {
  }

  // ---------------------------------------------------------------------------
  // The invariant of a started game
  // ---------------------------------------------------------------------------

  predicate WeaponInv(w: Option<Weapon>) {
    w.Some? ==>
      && w.value.card.cardType == WeaponType
      && (w.value.lastUsedAttack.Some? ==> w.value.lastUsedAttack.value.cardType == MonsterType)
  }

  /**
    * What holds of the eight snapshot fields of every state of a started game: health at
    * most 20, sane room counters, at most four room cards, well-formed cards with distinct
    * ids across deck and room, a weapon card as weapon, and a win only with an empty table.
    */
  predicate SnapshotInv(h: GameStateHistory) {
    && h.health <= MaxHealth
    && 0 <= h.currentRoomNumber
    && (h.lastRanAwayRoomNumber == NeverRanAway || 0 <= h.lastRanAwayRoomNumber <= h.currentRoomNumber)
    && |h.room| <= 4
    && DistinctBy(h.deck + h.room, CardId)
    && (forall c :: c in h.deck ==> WellFormedCard(c))
    && (forall c :: c in h.room ==> WellFormedCard(c))
    && WeaponInv(h.equippedWeapon)
    && (h.won ==> h.gameOver && h.health > 0 && h.deck == [] && h.room == [])
  }

  /** A started game: its own fields and every saved snapshot keep SnapshotInv; snapshots are of running games. */
  predicate Inv(g: GameState) {
    && g.gameStarted
    && SnapshotInv(Snapshot(g))
    && forall h :: h in g.history ==> SnapshotInv(h) && !h.gameOver
  }

  lemma NewGameEstablishesInv(rs: seq<nat>)
    requires ValidDraws(rs, 44)
    ensures Inv(NewGame(rs))
  {
    CreatedDeckIsStandard(rs);
    StartGameEstablishesInv(Shuffled(OrderedDeck(), rs));
  }

  lemma StartGameEstablishesInv(d: Deck)
    requires StandardDeck(d)
    ensures Inv(StartGame(d))
  {
    StartGameSetup(d);
    var g := StartGame(d);
    DistinctConcat(g.room, g.deck, CardId);
    DistinctConcat(g.deck, g.room, CardId);
  }

  lemma SaveStateKeepsInv(g: GameState)
    requires Inv(g) && !g.gameOver
    ensures forall h :: h in SaveState(g).history ==> SnapshotInv(h) && !h.gameOver
  {
  }

  /** The deck/room conditions of SnapshotInv after a room card is removed. */
  lemma RemovalKeepsCards(deck: Deck, room: Deck, cardId: int)
    requires DistinctBy(deck + room, CardId)
    requires forall c :: c in room ==> WellFormedCard(c)
    ensures DistinctBy(deck + RemoveCardFromRoom(room, cardId), CardId)
    ensures forall c :: c in RemoveCardFromRoom(room, cardId) ==> WellFormedCard(c)
    ensures |RemoveCardFromRoom(room, cardId)| <= |room|
  {
    var rest := RemoveCardFromRoom(room, cardId);
    DistinctConcat(deck, room, CardId);
    RemoveKeepsDistinct(room, cardId, CardId);
    DistinctConcat(deck, rest, CardId);
  }

  lemma NextRoomKeepsInv(g: GameState)
    requires Inv(g)
    ensures Inv(NextRoom(g))
  {
    if !g.gameOver {
      SaveStateKeepsInv(g);
      var r := NextRoom(g);
      var n := if |g.room| == 1 then Min(3, |g.deck|) else Min(4, |g.deck|);
      var top, bottom := g.deck[..n], g.deck[n..];
      assert g.deck == top + bottom;
      DistinctConcat(g.deck, g.room, CardId);
      DistinctConcat(top, bottom, CardId);
      assert r.deck == bottom;
      if |g.room| == 1 {
        assert r.room == g.room + top;
        DistinctConcat(g.room, top, CardId);
        DistinctConcat(bottom, g.room + top, CardId);
      } else {
        assert r.room == top;
        DistinctConcat(bottom, top, CardId);
      }
    }
  }

  lemma CardActionKeepsInv(g: GameState, a: Action)
    requires Inv(g) && CanAttempt(g, a)
    requires IsCardAction(a)
    ensures Inv(Step(g, a))
  {
    if Accepted(g, a) {
      SaveStateKeepsInv(g);
      RemovalKeepsCards(g.deck, g.room, a.card.id);
    }
  }

  lemma ForfeitKeepsInv(g: GameState, rs: seq<nat>)
    requires Inv(g) && ValidDraws(rs, |g.room|)
    ensures Inv(Forfeit(g, rs))
  {
    if !g.gameOver && AbleToForfeit(g) {
      SaveStateKeepsInv(g);
      var r := Forfeit(g, rs);
      var shuffled := Shuffled(g.room, rs);
      DistinctConcat(g.deck, g.room, CardId);
      ShuffledKeepsDistinct(g.room, rs, CardId);
      DistinctConcat(g.deck, shuffled, CardId);
      assert r.deck + r.room == g.deck + shuffled;
    }
  }

  lemma UndoKeepsInv(g: GameState)
    requires Inv(g)
    ensures Inv(Undo(g))
  {
    if |g.history| > 0 {
      var p := g.history[|g.history| - 1];
      assert p in g.history;
      assert Snapshot(Undo(g)) == p;
    }
  }

  lemma WinCheckKeepsInv(g: GameState)
    requires Inv(g)
    ensures Inv(WinCheck(g))
  {
  }

  /**
    * Every step of a started game keeps the invariant: health never exceeds 20, the room
    * never holds more than four cards, ids stay distinct, a win needs an empty table, and
    * undo only ever returns to a running game.
    */
  lemma StepKeepsInv(g: GameState, a: Action)
    requires Inv(g) && CanAttempt(g, a)
    ensures Inv(Step(g, a))
    ensures Inv(WinCheck(Step(g, a)))
    ensures Inv(Undo(g))
  {
    match a {
      case NextRoomAction => NextRoomKeepsInv(g);
      case ForfeitAction(rs) => ForfeitKeepsInv(g, rs);
      case _ => CardActionKeepsInv(g, a);
    }
    WinCheckKeepsInv(Step(g, a));
    UndoKeepsInv(g);
  }
}
