/** The card and game-state types of the Scoundrel engine (src/games/scoundrel/types.ts). */
module ScoundrelTypes {

  /** `T | null` in the source. */
  datatype Option<+T> = None | Some(value: T)

  /** '♠' | '♣' | '♥' | '♦' */
  datatype Suit = Spades | Clubs | Hearts | Diamonds

  /** 'monster' | 'potion' | 'weapon' */
  datatype CardType = MonsterType | PotionType | WeaponType

  /** '2' .. '10' | 'J' | 'Q' | 'K' | 'Ace' */
  datatype CardValue =
    | Two | Three | Four | Five | Six | Seven | Eight | Nine | Ten
    | Jack | Queen | King | Ace

  /** A card as stored in the deck and the room; `id` is assigned when the deck is built. */
  datatype Card = Card(id: int, suit: Suit, value: CardValue, numericValue: int, cardType: CardType)

  /** An ordered sequence of cards, drawn from the front and appended to at the back. */
  type Deck = seq<Card>

  /**
    * The equipped weapon: in the source an intersection `Card & { lastUsedAttack }`,
    * here the weapon card together with the last monster it killed.
    */
  datatype Weapon = Weapon(card: Card, lastUsedAttack: Option<Card>)

  /** An undo snapshot: every field of GameState except `history` and `gameStarted`. */
  datatype GameStateHistory = GameStateHistory(
    deck: Deck,
    room: Deck,
    health: int,
    equippedWeapon: Option<Weapon>,
    currentRoomNumber: int,
    lastRanAwayRoomNumber: int,
    gameOver: bool,
    won: bool)

  /** The whole state held by the game hook (the persisted record). */
  datatype GameState = GameState(
    deck: Deck,
    room: Deck,
    health: int,
    equippedWeapon: Option<Weapon>,
    currentRoomNumber: int,
    lastRanAwayRoomNumber: int,
    gameOver: bool,
    won: bool,
    history: seq<GameStateHistory>,
    gameStarted: bool)
}
