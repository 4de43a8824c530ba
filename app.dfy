/**
  * The earlier Scoundrel engine (src/App.tsx): the same deck and shuffle, a weapon that
  * remembers only numbers, a forfeit cooldown held in the boolean `ranAwayLastRoom`, an
  * explicit loss check, and no undo, room counter or win.
  */
module EarlyApp {
  import opened ScoundrelTypes
  import opened DeckLogic
  import R = ScoundrelRules

  /** The weapon of this engine: its value and the value of the last monster it killed. */
  datatype AppWeapon = AppWeapon(value: int, lastUsedAttack: Option<int>)

  /** The six state variables of the App component. */
  datatype AppState = AppState(
    deck: Deck,
    room: Deck,
    health: int,
    equippedWeapon: Option<AppWeapon>,
    ranAwayLastRoom: bool,
    gameOver: bool)

  /** The component's `useState` initial values. */
  function Unmounted(): (s: AppState)
    ensures s.deck == [] && s.room == [] && s.equippedWeapon == None && !s.ranAwayLastRoom
    ensures s.health == R.MaxHealth && LossCheck(s) == s && NextRoom(s).room == []
  {
    AppState([], [], R.MaxHealth, None, false, false)
  }

  /** drawInitialRoom: nothing on an empty deck, else the first (up to) four cards become the room. */
  function WithInitialRoom(s: AppState, currentDeck: Deck): (r: AppState)
    ensures |currentDeck| == 0 ==> r == s
    ensures |currentDeck| > 0 ==>
      && r.room + r.deck == currentDeck && |r.room| == R.Min(4, |currentDeck|)
      && r.(room := s.room, deck := s.deck) == s
  {
    if |currentDeck| == 0 then s
    else
      var roomSize := R.Min(4, |currentDeck|);
      assert currentDeck[..roomSize] + currentDeck[roomSize..] == currentDeck;
      s.(room := currentDeck[..roomSize], deck := currentDeck[roomSize..])
  }

  /** The mount effect on the deck createDeck returned: set the deck, then draw the initial room. */
  function MountWith(newDeck: Deck): (s: AppState)
    ensures s.room + s.deck == newDeck && |s.room| == R.Min(4, |newDeck|)
    ensures s.health == R.MaxHealth && s.equippedWeapon == None && !s.ranAwayLastRoom && !s.gameOver
  {
    WithInitialRoom(Unmounted().(deck := newDeck), newDeck)
  }

  /** The state after mounting, with the draws `rs` for createDeck's shuffle. */
  function Mount(rs: seq<nat>): (s: AppState)
    requires ValidDraws(rs, 44)
    ensures multiset(s.room + s.deck) == multiset(OrderedDeck())
    ensures |s.room| == 4 && |s.deck| == 40
    ensures s.health == R.MaxHealth && s.equippedWeapon == None && !s.ranAwayLastRoom && !s.gameOver
  {
    MountWith(Shuffled(OrderedDeck(), rs))
  }

  /** handleNextRoom: the keep-one-draw-three / draw-four rule, and the forfeit flag is cleared. */
  function NextRoom(s: AppState): (r: AppState)
    ensures r.health == s.health && r.equippedWeapon == s.equippedWeapon && r.gameOver == s.gameOver
    ensures |r.room| + |r.deck| <= |s.room| + |s.deck|
    ensures !s.gameOver ==> !r.ranAwayLastRoom && |r.room| <= 4 && (|r.room| == 4 || r.deck == [])
    ensures multiset(r.room + r.deck) <= multiset(s.room + s.deck)
  {
    if s.gameOver then s
    else if |s.room| == 1 then
      var drawCount := R.Min(3, |s.deck|);
      assert s.room + s.deck[..drawCount] + s.deck[drawCount..] == s.room + s.deck;
      s.(room := s.room + s.deck[..drawCount], deck := s.deck[drawCount..], ranAwayLastRoom := false)
    else
      var drawCount := R.Min(4, |s.deck|);
      assert s.deck[..drawCount] + s.deck[drawCount..] == s.deck;
      assert multiset(s.room + s.deck) == multiset(s.room) + multiset(s.deck);
      s.(room := s.deck[..drawCount], deck := s.deck[drawCount..], ranAwayLastRoom := false)
  }

  /** handleDrink */
  function Drink(s: AppState, card: Card): (r: AppState)
    requires card in s.room && card.cardType == PotionType
    ensures s.gameOver ==> r == s
    ensures !s.gameOver ==>
      && r.health <= R.MaxHealth && (card.numericValue >= 0 ==> r.health >= R.Min(R.MaxHealth, s.health))
      && card !in r.room && |r.room| < |s.room|
      && r.equippedWeapon == s.equippedWeapon && r.deck == s.deck && r.ranAwayLastRoom == s.ranAwayLastRoom && r.gameOver == s.gameOver
  {
    if s.gameOver then s
    else s.(health := R.Min(R.MaxHealth, s.health + card.numericValue),
            room := R.RemoveCardFromRoom(s.room, card.id))
  }

  /** handleEquip: the weapon becomes the card's value, unused. */
  function Equip(s: AppState, card: Card): (r: AppState)
    requires card in s.room && card.cardType == WeaponType
    ensures s.gameOver ==> r == s
    ensures !s.gameOver ==>
      && r.equippedWeapon.Some? && r.equippedWeapon.value.lastUsedAttack.None?
      && card !in r.room && |r.room| < |s.room|
      && r.health == s.health && r.deck == s.deck && r.ranAwayLastRoom == s.ranAwayLastRoom && r.gameOver == s.gameOver
  {
    if s.gameOver then s
    else s.(equippedWeapon := Some(AppWeapon(card.numericValue, None)),
            room := R.RemoveCardFromRoom(s.room, card.id))
  }

  /** handleFightBareHands */
  function FightBareHands(s: AppState, card: Card): (r: AppState)
    requires card in s.room && card.cardType == MonsterType
    ensures s.gameOver ==> r == s
    ensures card.numericValue >= 0 ==> r.health <= s.health
    ensures !s.gameOver ==>
      && card !in r.room && |r.room| < |s.room|
      && r.equippedWeapon == s.equippedWeapon && r.deck == s.deck && r.ranAwayLastRoom == s.ranAwayLastRoom && r.gameOver == s.gameOver
  {
    if s.gameOver then s
    else s.(health := s.health - card.numericValue, room := R.RemoveCardFromRoom(s.room, card.id))
  }

  /** The `canFightWithWeapon` expression that enables the weapon button of a room card. */
  predicate CanFightWithWeapon(s: AppState, card: Card): (able: bool)
    ensures forall g :: Agrees(s, g) ==> (able <==> R.CanFightWithWeapon(g, card))
  {
    && s.equippedWeapon.Some?
    && (|| s.equippedWeapon.value.lastUsedAttack.None?
        || card.numericValue < s.equippedWeapon.value.lastUsedAttack.value)
  }

  /** handleFightWithWeapon */
  function FightWithWeapon(s: AppState, card: Card): (r: AppState)
    requires card in s.room && card.cardType == MonsterType
    ensures r.health <= s.health
    ensures r.equippedWeapon.Some? <==> s.equippedWeapon.Some?
    ensures s.gameOver ==> r == s
    ensures !s.gameOver ==> (r != s <==> CanFightWithWeapon(s, card))
    ensures r != s ==>
      && s.equippedWeapon.Some? && r.equippedWeapon.Some?
      && r.equippedWeapon.value.value == s.equippedWeapon.value.value
      && r.equippedWeapon.value.lastUsedAttack == Some(card.numericValue)
      && card !in r.room && |r.room| < |s.room| && r.deck == s.deck && r.ranAwayLastRoom == s.ranAwayLastRoom && r.gameOver == s.gameOver
  {
    if s.gameOver || s.equippedWeapon.None? then s
    else
      var w := s.equippedWeapon.value;
      if w.lastUsedAttack.Some? && card.numericValue >= w.lastUsedAttack.value then s
      else s.(health := s.health - R.Max(0, card.numericValue - w.value),
              equippedWeapon := Some(w.(lastUsedAttack := Some(card.numericValue))),
              room := R.RemoveCardFromRoom(s.room, card.id))
  }

  /** handleForfeit: refused after a forfeit until the next room; the shuffled room goes under the deck. */
  function Forfeit(s: AppState, rs: seq<nat>): (r: AppState)
    requires ValidDraws(rs, |s.room|)
    ensures multiset(r.deck + r.room) == multiset(s.deck + s.room)
    ensures r == s || (r.room == [] && r.ranAwayLastRoom)
    ensures r.health == s.health && r.equippedWeapon == s.equippedWeapon
  {
    if s.gameOver || s.ranAwayLastRoom then s
    else s.(deck := s.deck + Shuffled(s.room, rs), room := [], ranAwayLastRoom := true)
  }

  /** The loss-check effect: health at or below 0 ends the game. */
  function LossCheck(s: AppState): (r: AppState)
    ensures r.gameOver <==> s.gameOver || s.health <= 0
    ensures r.(gameOver := s.gameOver) == s
  {
    if s.health <= 0 then s.(gameOver := true) else s
  }

  /** The guarantee of the buttons before a handler runs: the card is in the room and has the button's type. */
  predicate CanAttempt(s: AppState, a: R.Action) {
    match a
    case NextRoomAction => true
    case DrinkAction(c) => c in s.room && c.cardType == PotionType
    case EquipAction(c) => c in s.room && c.cardType == WeaponType
    case FightBareHandsAction(c) => c in s.room && c.cardType == MonsterType
    case FightWithWeaponAction(c) => c in s.room && c.cardType == MonsterType
    case ForfeitAction(rs) => ValidDraws(rs, |s.room|)
  }

  /** Whether the handler acts rather than returning early. */
  predicate Accepted(s: AppState, a: R.Action) {
    && !s.gameOver
    && match a
       case FightWithWeaponAction(c) => CanFightWithWeapon(s, c)
       case ForfeitAction(_) => !s.ranAwayLastRoom
       case _ => true
  }

  function Step(s: AppState, a: R.Action): AppState
    requires CanAttempt(s, a)
  {
    match a
    case NextRoomAction => NextRoom(s)
    case DrinkAction(c) => Drink(s, c)
    case EquipAction(c) => Equip(s, c)
    case FightBareHandsAction(c) => FightBareHands(s, c)
    case FightWithWeaponAction(c) => FightWithWeapon(s, c)
    case ForfeitAction(rs) => Forfeit(s, rs)
  }

  // ---------------------------------------------------------------------------
  // Properties
  // ---------------------------------------------------------------------------

  /** Mounting gives full health, no weapon, a running game, and a four-card room over a 40-card standard deck. */
  lemma MountSetup(rs: seq<nat>)
    requires ValidDraws(rs, 44)
    ensures var s := Mount(rs);
      && s.health == R.MaxHealth && s.equippedWeapon == None
      && !s.ranAwayLastRoom && !s.gameOver
      && |s.room| == 4 && |s.deck| == 40
      && StandardDeck(s.room + s.deck)
  {
    CreatedDeckIsStandard(rs);
    MountWithSetup(Shuffled(OrderedDeck(), rs));
  }

  lemma MountWithSetup(d: Deck)
    requires StandardDeck(d)
    ensures var s := MountWith(d);
      && s.health == R.MaxHealth && s.equippedWeapon == None
      && !s.ranAwayLastRoom && !s.gameOver
      && |s.room| == 4 && |s.deck| == 40
      && s.room + s.deck == d
  {
    assert d[..4] + d[4..] == d;
  }

  /**
    * Next room is ignored once the game is over; otherwise it draws from the front of the
    * deck as the current engine does, and always clears the forfeit flag.
    */
  lemma NextRoomRule(s: AppState)
    ensures s.gameOver ==> NextRoom(s) == s
    ensures !s.gameOver ==>
      var r := NextRoom(s);
      && !r.ranAwayLastRoom
      && r.health == s.health && r.equippedWeapon == s.equippedWeapon && !r.gameOver
      && (|s.room| == 1 ==> r.room[..1] == s.room && s.deck == r.room[1..] + r.deck)
      && (|s.room| != 1 ==> s.deck == r.room + r.deck)
      && (|r.room| == 4 || r.deck == [])
  {
    if !s.gameOver {
      var r := NextRoom(s);
      if |s.room| == 1 {
        var n := R.Min(3, |s.deck|);
        assert s.deck == s.deck[..n] + s.deck[n..];
        assert r.room[1..] == s.deck[..n];
      } else {
        var n := R.Min(4, |s.deck|);
        assert s.deck == s.deck[..n] + s.deck[n..];
      }
    }
  }

  /**
    * Drink heals up to 20, equip takes the card's value unused, a bare-handed fight costs
    * the monster's value; each takes exactly that card out of the room (with distinct ids)
    * and leaves the deck and the forfeit flag alone.
    */
  lemma CardHandlerEffects(s: AppState, card: Card)
    requires card in s.room && !s.gameOver
    ensures card.cardType == PotionType ==>
      var r := Drink(s, card);
      && r.health == R.Min(R.MaxHealth, s.health + card.numericValue) && r.health <= R.MaxHealth
      && r.deck == s.deck && r.ranAwayLastRoom == s.ranAwayLastRoom && card !in r.room
      && (DistinctBy(s.room, CardId) ==> R.RemovedExactly(s.room, r.room, card))
    ensures card.cardType == WeaponType ==>
      var r := Equip(s, card);
      && r.equippedWeapon == Some(AppWeapon(card.numericValue, None)) && r.health == s.health
      && r.deck == s.deck && r.ranAwayLastRoom == s.ranAwayLastRoom && card !in r.room
      && (DistinctBy(s.room, CardId) ==> R.RemovedExactly(s.room, r.room, card))
    ensures card.cardType == MonsterType ==>
      var r := FightBareHands(s, card);
      && r.health == s.health - card.numericValue && r.equippedWeapon == s.equippedWeapon
      && r.deck == s.deck && r.ranAwayLastRoom == s.ranAwayLastRoom && card !in r.room
      && (DistinctBy(s.room, CardId) ==> R.RemovedExactly(s.room, r.room, card))
  {
    if DistinctBy(s.room, CardId) {
      R.RemovalIsExact(s.room, card);
    }
  }

  /**
    * The weapon handler acts exactly when the button is enabled (in a running game): a
    * refused fight changes nothing, an accepted one costs max(0, monster - weapon), records
    * the monster's value as the last kill and takes exactly that card out of the room.
    */
  lemma WeaponButtonMatchesHandler(s: AppState, card: Card)
    requires card in s.room && card.cardType == MonsterType
    ensures !Accepted(s, R.FightWithWeaponAction(card)) ==> FightWithWeapon(s, card) == s
    ensures Accepted(s, R.FightWithWeaponAction(card)) ==>
      var r := FightWithWeapon(s, card);
      var w := s.equippedWeapon.value;
      && r.health == s.health - R.Max(0, card.numericValue - w.value)
      && r.health <= s.health
      && r.equippedWeapon == Some(AppWeapon(w.value, Some(card.numericValue)))
      && r.deck == s.deck && r.ranAwayLastRoom == s.ranAwayLastRoom
      && card !in r.room
      && (DistinctBy(s.room, CardId) ==> R.RemovedExactly(s.room, r.room, card))
  {
    if Accepted(s, R.FightWithWeaponAction(card)) && DistinctBy(s.room, CardId) {
      R.RemovalIsExact(s.room, card);
    }
  }

  /** Running the loss check again changes nothing, and a running game with health above 0 stays running. */
  lemma LossCheckRule(s: AppState)
    ensures LossCheck(LossCheck(s)) == LossCheck(s)
    ensures !s.gameOver && s.health > 0 ==> LossCheck(s) == s
  {
  }

  /** Once the game is over every action is refused and changes nothing: a loss is final. */
  lemma GameOverIsFinal(s: AppState, a: R.Action)
    requires CanAttempt(s, a) && s.gameOver
    ensures !Accepted(s, a)
    ensures Step(s, a) == s && LossCheck(Step(s, a)) == s
  {
  }

  /** A refused action changes nothing, and no action changes gameOver itself. */
  lemma RefusedActionChangesNothing(s: AppState, a: R.Action)
    requires CanAttempt(s, a)
    ensures !Accepted(s, a) ==> Step(s, a) == s
    ensures Step(s, a).gameOver == s.gameOver
  {
  }

  /** Forfeit puts the room, reordered, under the deck and raises the flag; a second forfeit is refused. */
  lemma ForfeitReturnsRoom(s: AppState, rs: seq<nat>, rs2: seq<nat>)
    requires ValidDraws(rs, |s.room|) && Accepted(s, R.ForfeitAction(rs)) && ValidDraws(rs2, 0)
    ensures var r := Forfeit(s, rs);
      && r.room == [] && r.ranAwayLastRoom
      && r.deck[..|s.deck|] == s.deck
      && multiset(r.deck[|s.deck|..]) == multiset(s.room)
      && Forfeit(r, rs2) == r
  {
    var r := Forfeit(s, rs);
    assert r.deck[..|s.deck|] == s.deck;
    assert r.deck[|s.deck|..] == Shuffled(s.room, rs);
  }

  /**
    * As written, the flag does not stop a player running from two rooms in a row: after a
    * forfeit, next room clears it, so the freshly drawn room can be forfeited as well.
    */
  lemma ConsecutiveForfeits(s: AppState, rs: seq<nat>, rs2: seq<nat>)
    requires ValidDraws(rs, |s.room|) && Accepted(s, R.ForfeitAction(rs))
    requires |s.deck| > 0
    requires ValidDraws(rs2, |NextRoom(Forfeit(s, rs)).room|)
    ensures var t := NextRoom(Forfeit(s, rs));
      && |t.room| > 0
      && Accepted(t, R.ForfeitAction(rs2))
      && Forfeit(t, rs2).room == []
  {
    var f := Forfeit(s, rs);
    assert f.room == [] && f.ranAwayLastRoom && !f.gameOver;
    assert |f.deck| == |s.deck| + |s.room|;
    var t := NextRoom(f);
    assert t.room == f.deck[..R.Min(4, |f.deck|)];
    assert !t.ranAwayLastRoom && !t.gameOver;
  }

  // ---------------------------------------------------------------------------
  // Agreement with the current engine
  // ---------------------------------------------------------------------------

  /** How this engine sees a weapon of the current one: only the numbers. */
  function WeaponView(w: Option<Weapon>): Option<AppWeapon> {
    match w
    case None => None
    case Some(Weapon(card, last)) =>
      Some(AppWeapon(card.numericValue, match last case None => None case Some(m) => Some(m.numericValue)))
  }

  /** An App state and a state of the current engine showing the same table. */
  predicate Agrees(s: AppState, g: GameState) {
    && s.deck == g.deck && s.room == g.room && s.health == g.health
    && s.equippedWeapon == WeaponView(g.equippedWeapon) && s.gameOver == g.gameOver
  }

  /**
    * Next room and the four card actions do the same thing in both engines: started from
    * states showing the same table, they accept the same actions and end showing the same
    * table again. The engines differ only in forfeit gating, the loss check and undo.
    */
  lemma EnginesAgree(s: AppState, g: GameState, a: R.Action)
    requires Agrees(s, g) && CanAttempt(s, a) && !a.ForfeitAction?
    ensures R.CanAttempt(g, a)
    ensures Accepted(s, a) <==> R.Accepted(g, a)
    ensures Agrees(Step(s, a), R.Step(g, a))
  {
  }

  /** A forfeit both engines allow leaves the same table in both. */
  lemma ForfeitsAgree(s: AppState, g: GameState, rs: seq<nat>)
    requires Agrees(s, g) && ValidDraws(rs, |s.room|)
    requires !s.ranAwayLastRoom && R.AbleToForfeit(g)
    ensures Agrees(Forfeit(s, rs), R.Forfeit(g, rs))
  {
  }

  // ---------------------------------------------------------------------------
  // The invariant of a mounted App
  // ---------------------------------------------------------------------------

  /**
    * After every loss check: health at most 20, gameOver exactly when health is at or below
    * 0, at most four room cards, and well-formed cards with distinct ids across deck and room.
    */
  predicate AppInv(s: AppState) {
    && s.health <= R.MaxHealth
    && (s.gameOver <==> s.health <= 0)
    && |s.room| <= 4
    && DistinctBy(s.deck + s.room, CardId)
    && (forall c :: c in s.deck ==> WellFormedCard(c))
    && (forall c :: c in s.room ==> WellFormedCard(c))
  }

  lemma MountEstablishesInv(rs: seq<nat>)
    requires ValidDraws(rs, 44)
    ensures AppInv(Mount(rs))
  {
    CreatedDeckIsStandard(rs);
    MountWithEstablishesInv(Shuffled(OrderedDeck(), rs));
  }

  lemma MountWithEstablishesInv(d: Deck)
    requires StandardDeck(d)
    ensures AppInv(MountWith(d))
  {
    MountWithSetup(d);
    var s := MountWith(d);
    DistinctConcat(s.room, s.deck, CardId);
    DistinctConcat(s.deck, s.room, CardId);
  }

  lemma NextRoomKeepsInv(s: AppState)
    requires AppInv(s)
    ensures AppInv(NextRoom(s))
  {
    if !s.gameOver {
      var r := NextRoom(s);
      var n := if |s.room| == 1 then R.Min(3, |s.deck|) else R.Min(4, |s.deck|);
      var top, bottom := s.deck[..n], s.deck[n..];
      assert s.deck == top + bottom;
      DistinctConcat(s.deck, s.room, CardId);
      DistinctConcat(top, bottom, CardId);
      assert r.deck == bottom;
      if |s.room| == 1 {
        assert r.room == s.room + top;
        DistinctConcat(s.room, top, CardId);
        DistinctConcat(bottom, s.room + top, CardId);
      } else {
        assert r.room == top;
        DistinctConcat(bottom, top, CardId);
      }
    }
  }

  lemma CardActionKeepsInv(s: AppState, a: R.Action)
    requires AppInv(s) && CanAttempt(s, a)
    requires a.DrinkAction? || a.EquipAction? || a.FightBareHandsAction? || a.FightWithWeaponAction?
    ensures var r := Step(s, a);
      && r.health <= R.MaxHealth && |r.room| <= 4
      && DistinctBy(r.deck + r.room, CardId)
      && (forall c :: c in r.deck ==> WellFormedCard(c))
      && (forall c :: c in r.room ==> WellFormedCard(c))
      && (r.gameOver ==> r.health <= 0)
  {
    if Accepted(s, a) {
      R.RemovalKeepsCards(s.deck, s.room, a.card.id);
      assert WellFormedCard(a.card);
    }
  }

  lemma ForfeitKeepsInv(s: AppState, rs: seq<nat>)
    requires AppInv(s) && ValidDraws(rs, |s.room|)
    ensures AppInv(Forfeit(s, rs))
  {
    if Accepted(s, R.ForfeitAction(rs)) {
      var r := Forfeit(s, rs);
      var shuffled := Shuffled(s.room, rs);
      DistinctConcat(s.deck, s.room, CardId);
      ShuffledKeepsDistinct(s.room, rs, CardId);
      DistinctConcat(s.deck, shuffled, CardId);
      assert r.deck + r.room == s.deck + shuffled;
    }
  }

  /**
    * Every action followed by the loss check keeps the invariant: health never exceeds 20,
    * the game is over exactly when health is at or below 0, and ids stay distinct.
    */
  lemma StepKeepsInv(s: AppState, a: R.Action)
    requires AppInv(s) && CanAttempt(s, a)
    ensures AppInv(LossCheck(Step(s, a)))
  {
    match a {
      case NextRoomAction => NextRoomKeepsInv(s);
      case ForfeitAction(rs) => ForfeitKeepsInv(s, rs);
      case _ => CardActionKeepsInv(s, a);
    }
  }

  // ---------------------------------------------------------------------------
  // The component, updating its state variables in place
  // ---------------------------------------------------------------------------

  class App {
    var deck: Deck
    var room: Deck
    var health: int
    var equippedWeapon: Option<AppWeapon>
    var ranAwayLastRoom: bool
    var gameOver: bool

    function State(): AppState
      reads this
    {
      AppState(deck, room, health, equippedWeapon, ranAwayLastRoom, gameOver)
    }

    /** The initial state variables, then the mount effect with the draws `rs` for createDeck. */
    constructor (rs: seq<nat>)
      requires ValidDraws(rs, 44)
      ensures State() == Mount(rs)
    {
      deck, room := [], [];
      health := R.MaxHealth;
      equippedWeapon := None;
      ranAwayLastRoom, gameOver := false, false;
      new;
      var newDeck := CreateDeck(rs);
      MountEffect(newDeck);
    }

    /** The mount effect once createDeck has returned `newDeck`. */
    method MountEffect(newDeck: Deck)
      requires State() == Unmounted()
      modifies this
      ensures State() == MountWith(newDeck)
    {
      deck := newDeck;
      DrawInitialRoom(newDeck);
    }

    /** drawInitialRoom */
    method DrawInitialRoom(currentDeck: Deck)
      modifies this
      ensures State() == WithInitialRoom(old(State()), currentDeck)
    {
      if |currentDeck| == 0 { return; }
      var roomSize := R.Min(4, |currentDeck|);
      room := currentDeck[..roomSize];
      deck := currentDeck[roomSize..];
    }

    /** handleNextRoom */
    method HandleNextRoom()
      modifies this
      ensures State() == NextRoom(old(State()))
    {
      if gameOver { return; }
      var newRoom: Deck := [];
      if |room| == 1 {
        newRoom := room;
        var drawCount := R.Min(3, |deck|);
        newRoom := newRoom + deck[..drawCount];
        deck := deck[drawCount..];
      } else {
        var drawCount := R.Min(4, |deck|);
        newRoom := deck[..drawCount];
        deck := deck[drawCount..];
      }
      room := newRoom;
      ranAwayLastRoom := false;
    }

    /** removeCardFromRoom */
    method RemoveCardFromRoom(cardId: int)
      modifies this
      ensures State() == old(State()).(room := R.RemoveCardFromRoom(old(room), cardId))
    {
      room := R.RemoveCardFromRoom(room, cardId);
    }

    /** handleDrink */
    method HandleDrink(card: Card)
      requires card in room && card.cardType == PotionType
      modifies this
      ensures State() == Drink(old(State()), card)
    {
      if gameOver { return; }
      var newHealth := R.Min(R.MaxHealth, health + card.numericValue);
      health := newHealth;
      RemoveCardFromRoom(card.id);
    }

    /** handleEquip */
    method HandleEquip(card: Card)
      requires card in room && card.cardType == WeaponType
      modifies this
      ensures State() == Equip(old(State()), card)
    {
      if gameOver { return; }
      equippedWeapon := Some(AppWeapon(card.numericValue, None));
      RemoveCardFromRoom(card.id);
    }

    /** handleFightBareHands */
    method HandleFightBareHands(card: Card)
      requires card in room && card.cardType == MonsterType
      modifies this
      ensures State() == FightBareHands(old(State()), card)
    {
      if gameOver { return; }
      var damage := card.numericValue;
      health := health - damage;
      RemoveCardFromRoom(card.id);
    }

    /** handleFightWithWeapon */
    method HandleFightWithWeapon(card: Card)
      requires card in room && card.cardType == MonsterType
      modifies this
      ensures State() == FightWithWeapon(old(State()), card)
    {
      if gameOver || equippedWeapon.None? { return; }
      var weapon := equippedWeapon.value;
      if weapon.lastUsedAttack.Some? && card.numericValue >= weapon.lastUsedAttack.value { return; }
      var damage := R.Max(0, card.numericValue - weapon.value);
      health := health - damage;
      equippedWeapon := Some(weapon.(lastUsedAttack := Some(card.numericValue)));
      RemoveCardFromRoom(card.id);
    }

    /** handleForfeit, with the draws `rs` for the shuffle of the room. */
    method HandleForfeit(rs: seq<nat>)
      requires ValidDraws(rs, |room|)
      modifies this
      ensures State() == Forfeit(old(State()), rs)
    {
      if gameOver || ranAwayLastRoom { return; }
      var roomCopy := ToArray(room);
      var shuffledRoom := Shuffle(roomCopy, rs);
      deck := deck + shuffledRoom[..];
      room := [];
      ranAwayLastRoom := true;
    }

    /** The loss-check effect. */
    method CheckGameOver()
      modifies this
      ensures State() == LossCheck(old(State()))
    {
      if health <= 0 {
        gameOver := true;
      }
    }
  }
}
