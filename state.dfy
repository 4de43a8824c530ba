/**
  * The `useGameState` hook of the current engine (src/games/scoundrel/state.ts) as an
  * object: the hook's state variables are fields, and each handler updates them in place.
  * Every handler is proved to perform exactly the transition ScoundrelRules gives it.
  */
module ScoundrelState {
  import opened ScoundrelTypes
  import opened DeckLogic
  import opened ScoundrelRules

  class GameSession {
    var deck: Deck
    var room: Deck
    var health: int
    var equippedWeapon: Option<Weapon>
    var currentRoomNumber: int
    var lastRanAwayRoomNumber: int
    var gameOver: bool
    var won: bool
    var history: seq<GameStateHistory>
    var gameStarted: bool

    /** The record the hook persists: all ten state variables. */
    function State(): GameState
      reads this
    {
      GameState(deck, room, health, equippedWeapon, currentRoomNumber, lastRanAwayRoomNumber,
                gameOver, won, history, gameStarted)
    }

    /** The hook's initial `useState` values (no saved game loaded). */
    constructor ()
      ensures State() == InitialState()
    {
      deck, room := [], [];
      health := 100;
      equippedWeapon := None;
      currentRoomNumber, lastRanAwayRoomNumber := 0, NeverRanAway;
      gameOver, won := false, false;
      history := [];
      gameStarted := false;
    }

    /** saveState: pushes a copy of the eight non-history fields on the history stack. */
    method SaveState()
      modifies this
      ensures State() == ScoundrelRules.SaveState(old(State()))
    {
      var stateSnapshot := GameStateHistory(deck, room, health, equippedWeapon, currentRoomNumber,
                                            lastRanAwayRoomNumber, gameOver, won);
      history := history + [stateSnapshot];
    }

    /** handleNextRoom */
    method HandleNextRoom()
      modifies this
      ensures State() == NextRoom(old(State()))
    {
      if gameOver { return; }
      SaveState();
      var newRoom: Deck := [];
      if |room| == 1 {
        newRoom := room;
        var drawCount := Min(3, |deck|);
        newRoom := newRoom + deck[..drawCount];
        deck := deck[drawCount..];
      } else {
        var drawCount := Min(4, |deck|);
        newRoom := deck[..drawCount];
        deck := deck[drawCount..];
      }
      room := newRoom;
      currentRoomNumber := currentRoomNumber + 1;
    }

    /** handleUndo */
    method HandleUndo()
      modifies this
      ensures State() == Undo(old(State()))
    {
      if |history| == 0 { return; }
      var previousState := history[|history| - 1];
      deck := previousState.deck;
      room := previousState.room;
      health := previousState.health;
      equippedWeapon := previousState.equippedWeapon;
      currentRoomNumber := previousState.currentRoomNumber;
      lastRanAwayRoomNumber := previousState.lastRanAwayRoomNumber;
      gameOver := previousState.gameOver;
      won := previousState.won;
      history := history[..|history| - 1];
    }

    /** handleNewGame, with the draws `rs` for the shuffle inside createDeck. */
    method HandleNewGame(rs: seq<nat>)
      requires ValidDraws(rs, 44)
      modifies this
      ensures State() == NewGame(rs)
    {
      var newDeck := CreateDeck(rs);
      SetUpGame(newDeck);
    }

    /** The setters handleNewGame calls once createDeck has returned `newDeck`. */
    method SetUpGame(newDeck: Deck)
      modifies this
      ensures State() == StartGame(newDeck)
    {
      var roomSize := Min(4, |newDeck|);
      deck := newDeck[roomSize..];
      room := newDeck[..roomSize];
      health := MaxHealth;
      equippedWeapon := None;
      currentRoomNumber := 0;
      lastRanAwayRoomNumber := NeverRanAway;
      gameOver := false;
      won := false;
      history := [];
      gameStarted := true;
    }

    /** removeCardFromRoom */
    method RemoveCardFromRoom(cardId: int)
      modifies this
      ensures State() == old(State()).(room := ScoundrelRules.RemoveCardFromRoom(old(room), cardId))
    {
      room := ScoundrelRules.RemoveCardFromRoom(room, cardId);
    }

    /** handleDrink */
    method HandleDrink(card: Card)
      requires card in room && card.cardType == PotionType
      modifies this
      ensures State() == Drink(old(State()), card)
    {
      if gameOver { return; }
      SaveState();
      health := Min(MaxHealth, health + card.numericValue);
      RemoveCardFromRoom(card.id);
    }

    /** handleEquip */
    method HandleEquip(card: Card)
      requires card in room && card.cardType == WeaponType
      modifies this
      ensures State() == Equip(old(State()), card)
    {
      if gameOver { return; }
      SaveState();
      equippedWeapon := Some(Weapon(card, None));
      RemoveCardFromRoom(card.id);
    }

    /** handleFightBareHands */
    method HandleFightBareHands(card: Card)
      requires card in room && card.cardType == MonsterType
      modifies this
      ensures State() == FightBareHands(old(State()), card)
    {
      if gameOver { return; }
      SaveState();
      health := health - card.numericValue;
      RemoveCardFromRoom(card.id);
    }

    /** handleFightWithWeapon */
    method HandleFightWithWeapon(card: Card)
      requires card in room && card.cardType == MonsterType
      modifies this
      ensures State() == FightWithWeapon(old(State()), card)
    {
      if gameOver || equippedWeapon.None? { return; }
      var weapon := equippedWeapon.value;
      if weapon.lastUsedAttack.Some? && card.numericValue >= weapon.lastUsedAttack.value.numericValue {
        return;
      }
      SaveState();
      health := health - Max(0, card.numericValue - weapon.card.numericValue);
      equippedWeapon := Some(weapon.(lastUsedAttack := Some(card)));
      RemoveCardFromRoom(card.id);
    }

    /** handleForfeit, with the draws `rs` for the shuffle of the room. */
    method HandleForfeit(rs: seq<nat>)
      requires ValidDraws(rs, |room|)
      modifies this
      ensures State() == Forfeit(old(State()), rs)
    {
      var unableToForfeit := !AbleToForfeit(State());
      if gameOver || unableToForfeit { return; }
      SaveState();
      var roomCopy := ToArray(room);
      var shuffledRoom := Shuffle(roomCopy, rs);
      deck := deck + shuffledRoom[..];
      room := [];
      lastRanAwayRoomNumber := currentRoomNumber;
    }

    /** The win-check effect, run after every change of its inputs. */
    method CheckWin()
      modifies this
      ensures State() == WinCheck(old(State()))
    {
      if gameStarted && !gameOver && health > 0 && |deck| == 0 && |room| == 0 {
        won := true;
        gameOver := true;
      }
    }
  }

  /**
    * A client of the hook: in a running game, drinking a potion and undoing it brings back
    * every field of the session.
    */
  method DrinkThenUndo(session: GameSession, card: Card)
    requires !session.gameOver && card in session.room && card.cardType == PotionType
    modifies session
    ensures session.State() == old(session.State())
  {
    ghost var before := session.State();
    session.HandleDrink(card);
    ActionThenUndo(before, DrinkAction(card));
    session.HandleUndo();
  }
}
