# Scoundrel engine in Dafny

Scoundrel is a single-player dungeon crawl played with a 44-card deck. ♠ and ♣ are monsters
(2–10, J = 11, Q = 12, K = 13, Ace = 14). ♥ 2–10 are healing potions and ♦ 2–10 are weapons.

The player starts on 20 health. Each room is a row of up to four cards. In a room the
player can:
- drink a potion, which heals but never above 20;
- equip a weapon;
- fight a monster bare-handed, losing its full value;
- fight a monster with the weapon, losing only what exceeds the weapon's value. A used
  weapon can then only kill monsters weaker than its last kill;
- run from the room, which sends its cards, shuffled, to the bottom of the deck. This is
  not allowed two rooms in a row;
- go to the next room once at most one card is left. That card stays, and the room is
  refilled from the top of the deck.

The current engine wins the game when deck and room are both empty with health above 0.
It keeps an undo history of snapshots.

The project models two revisions of the engine:

- **`types.dfy` (`ScoundrelTypes`)**: cards, decks, weapons, the game state and its undo
  snapshot.
- **`logic.dfy` (`DeckLogic`)**:
  - the in-place Durstenfeld shuffle (`Shuffle`, on an `array`), proved to produce
    `Shuffled`, a permutation;
  - `CreateDeck`, the loops that push the 44 cards with a running id counter, proved to
    return the standard deck, in shuffled order, with ids 0..43.
- **`rules.dfy` (`ScoundrelRules`)**:
  - every handler of the current engine's game hook as one atomic transition on
    `GameState`;
  - the win check, run after each step;
  - the properties of the handlers, and an invariant of a started game kept by every
    action and by undo.
- **`state.dfy` (`ScoundrelState`)**: the hook itself as a class whose fields are the
  state variables. Each handler updates them in place and is proved to perform exactly
  its transition from `ScoundrelRules`.
- **`app.dfy` (`EarlyApp`)**: the earlier engine. It has the same deck, a numeric weapon,
  a boolean forfeit flag and a loss check. It is modelled both as transitions and as a
  class, and is proved to agree with the current engine on every card action and on next
  room.

`Math.random` is replaced by a sequence of draws `rs` supplied by the caller, with
`ValidDraws(rs, n)`: the draw for slot `j` is an index in `[0, j]`, as `Math.floor(Math.random() * (j + 1))` is.

Action handlers do not check the card's type, or that the card is in the room: the user
interface only offers Drink, Equip and Fight on cards of the matching type in the room.
That guarantee is each handler's precondition.

## Model

| member | source | states |
|---|---|---|
| DeckLogic.NumericValue | src/games/scoundrel/logic.ts:27-45 | a rank's value lies in 2..14 and is at most 10 exactly for the number ranks (J, Q, K, Ace are 11..14) |
| DeckLogic.NumberRank | src/games/scoundrel/logic.ts:27-31 | the rank pushed for loop counter `i` in 2..10 is a number rank whose value is `i` |
| DeckLogic.TypeOfSuit | src/games/scoundrel/logic.ts:24-63 | ♠ and ♣ cards are built as monsters, ♥ as potions and ♦ as weapons, and no suit has another type |
| DeckLogic.Swap | src/games/scoundrel/logic.ts:11-14 | the destructuring swap exchanges the two slots, leaves every other slot alone and keeps the multiset |
| DeckLogic.ShuffleSteps | src/games/scoundrel/logic.ts:8-15 | the remaining loop iterations keep length and multiset and never touch the slots above the current index |
| DeckLogic.Shuffled | src/games/scoundrel/logic.ts:4-17 | the shuffle result is a permutation of its input (same length, same multiset, same cards); arrays of length 0 or 1 come back unchanged |
| DeckLogic.Shuffle | src/games/scoundrel/logic.ts:4-17 | the in-place loop leaves the array holding `Shuffled` of its old contents, a permutation, and returns that same array |
| DeckLogic.SwapKeepsDistinct | src/games/scoundrel/logic.ts:11-14 | a swap keeps the keys of a deck distinct |
| DeckLogic.ShuffleStepsKeepDistinct | src/games/scoundrel/logic.ts:8-15 | the shuffle loop keeps the keys of a deck distinct |
| DeckLogic.ShuffledKeepsDistinct | src/games/scoundrel/logic.ts:4-17 | shuffling keeps ids (and suit/rank pairs) distinct |
| DeckLogic.OrderedDeck | src/games/scoundrel/logic.ts:20-64 | the deck built before shuffling has 44 cards |
| DeckLogic.OrderedDeckIsStandard | src/games/scoundrel/logic.ts:20-64 | the unshuffled deck is the standard deck: each allowed suit/rank pair once, type fixed by suit, value by rank, ids exactly 0..43 |
| DeckLogic.CreatedDeckIsStandard | src/games/scoundrel/logic.ts:20-66 | the shuffled deck is still the standard deck |
| DeckLogic.PushNumberCards | src/games/scoundrel/logic.ts:27-35 | the 2–10 loop appends the nine number cards of the suit, numbered from the counter, and advances the counter by 9 |
| DeckLogic.PushFaceCards | src/games/scoundrel/logic.ts:36-45 | the face-card loop appends J, Q, K, Ace with values 11..14, numbered from the counter, and advances it by 4 |
| DeckLogic.ToArray | src/games/scoundrel/state.ts:266 | the copy `[...room]` is a fresh array holding the same cards |
| DeckLogic.CreateDeck | src/games/scoundrel/logic.ts:20-66 | createDeck returns the shuffle of the 44-card ordered deck, which is the standard deck |
| ScoundrelRules.InitialState | src/games/scoundrel/state.ts:83-94 | before any game: empty deck and room, empty history, health 100, not started; undo and the win check leave it alone and forfeit is not yet blocked |
| ScoundrelRules.SaveState | src/games/scoundrel/state.ts:152-164 | only the history changes, growing by one snapshot of the eight other fields, and undo of the result gives back the state before |
| ScoundrelRules.StartGame | src/games/scoundrel/state.ts:200-214 | the room is the first min(4, n) cards of the new deck and the deck the rest; full health (20), no weapon, empty history, a started running game in which forfeit is allowed and undo does nothing |
| ScoundrelRules.NewGame | src/games/scoundrel/state.ts:200-214 | the 44 built cards, shuffled, are dealt as a 4-card room over a 40-card deck, with full health, empty history and a started, running game |
| ScoundrelRules.RemoveCardFromRoom | src/games/scoundrel/state.ts:216-218 | the filtered room holds exactly the room cards whose id differs, and is no longer |
| ScoundrelRules.NextRoom | src/games/scoundrel/state.ts:167-184 | the room number rises by exactly 1 unless the game is over; the cards on the table after are a sub-multiset of those before (no card is created); in a running game the room ends with at most four cards and is full unless the deck ran out |
| ScoundrelRules.Undo | src/games/scoundrel/state.ts:186-198 | undo on an empty history changes nothing; otherwise the eight snapshot fields become the last snapshot and the history shrinks by one |
| ScoundrelRules.Drink | src/games/scoundrel/state.ts:220-225 | ignored once the game is over; otherwise health ends at most 20 (and a potion never lowers it below min(20, health)), the potion leaves a strictly smaller room and one snapshot is pushed |
| ScoundrelRules.Equip | src/games/scoundrel/state.ts:227-232 | ignored once the game is over; otherwise the weapon is equipped unused, the card leaves a strictly smaller room and one snapshot is pushed |
| ScoundrelRules.FightBareHands | src/games/scoundrel/state.ts:234-239 | ignored once the game is over; a monster never raises health; otherwise the card leaves a strictly smaller room and one snapshot is pushed |
| ScoundrelRules.CanFightWithWeapon | src/games/scoundrel/state.ts:242-248 | for a monster in the room of a running game, the weapon rule holds exactly when the weapon handler changes the state |
| ScoundrelRules.FightWithWeapon | src/games/scoundrel/state.ts:241-256 | health never rises and the weapon is neither gained nor lost; when the state changes, the same weapon card records this monster as its last kill, the monster leaves a strictly smaller room and one snapshot is pushed |
| ScoundrelRules.AbleToForfeit | src/games/scoundrel/state.ts:258-261 | forfeit is allowed before the first forfeit of a game, and afterwards exactly from two rooms past the last forfeit room on |
| ScoundrelRules.ForfeitGate | src/games/scoundrel/state.ts:258-270 | in a running game, forfeit changes the state exactly when ableToForfeit allows it |
| ScoundrelRules.Forfeit | src/games/scoundrel/state.ts:263-270 | deck plus room keeps its multiset of cards; either nothing changes or the room is emptied and the forfeit room becomes the current room; the room number never changes; health, weapon and the flags never change |
| ScoundrelRules.WinCheck | src/games/scoundrel/state.ts:273-284 | only `won` and `gameOver` can change, and `won` changes only to a won, ended game with health above 0 and no deck or room cards |
| ScoundrelRules.RemovalIsExact | src/games/scoundrel/state.ts:216-218 | with distinct room ids, removing a room card by its id takes out exactly that one position, the other cards keeping their order |
| ScoundrelRules.NextRoomBookkeeping | src/games/scoundrel/state.ts:167-184 | next room is a no-op once the game is over; otherwise it pushes one snapshot, raises the room number by exactly 1 and changes no health, weapon, forfeit room or flag |
| ScoundrelRules.NextRoomDraws | src/games/scoundrel/state.ts:170-181 | a single room card stays first and up to three deck cards follow it; otherwise the room is up to four cards from the front of the deck; the drawn cards leave the deck; the room is full unless the deck ran out |
| ScoundrelRules.NextRoomKeepsCards | src/games/scoundrel/state.ts:167-184 | with 0 or 1 room cards, deck plus room holds the same multiset of cards after next room |
| ScoundrelRules.RemoveCardFromRoomExact | src/games/scoundrel/state.ts:216-218 | with distinct ids, removing the id of position `i` removes exactly that card and keeps the others in order |
| ScoundrelRules.RemoveAbsentCard | src/games/scoundrel/state.ts:216-218 | removing an id no room card has leaves the room unchanged |
| ScoundrelRules.RemoveKeepsDistinct | src/games/scoundrel/state.ts:216-218 | removal keeps the keys of the room distinct |
| ScoundrelRules.DrinkHeals | src/games/scoundrel/state.ts:220-225 | health becomes min(20, health + v), so at most 20; with distinct ids exactly the potion leaves the room and the other room cards stay in order; deck, weapon, counters and flags stay |
| ScoundrelRules.EquipReplacesWeapon | src/games/scoundrel/state.ts:227-232 | the card becomes the weapon with no last kill; the old weapon is dropped (not put in the deck); with distinct ids exactly that card leaves the room, the rest in order; health, deck, counters and flags stay |
| ScoundrelRules.FightBareHandsDamage | src/games/scoundrel/state.ts:234-239 | health drops by exactly the monster's value, with no floor, and the game does not end; with distinct ids exactly that card leaves the room, the rest in order; weapon, deck and counters stay |
| ScoundrelRules.FightWithWeaponRule | src/games/scoundrel/state.ts:241-256 | a fight the handler refuses (game over, no weapon, or a monster not weaker than the last kill) changes nothing; an accepted one costs max(0, v - weapon), records the monster as the last kill, pushes one snapshot, takes exactly that card out of the room (with distinct ids) and keeps deck and counters |
| ScoundrelRules.WeaponKillsDecrease | src/games/scoundrel/state.ts:243-254 | two successive kills with one weapon have strictly decreasing values, and the weapon card itself does not change |
| ScoundrelRules.ForfeitReturnsRoom | src/games/scoundrel/state.ts:263-270 | refused forfeit changes nothing; otherwise the room goes, permuted, after the old deck, the room is empty, the multiset of deck plus room is kept, the forfeit room becomes the current room, one snapshot is pushed, and every other field (health, weapon, room number, flags) stays |
| ScoundrelRules.ForfeitCooldown | src/games/scoundrel/state.ts:258-261 | after a forfeit in room N, forfeit is refused in rooms N and N + 1 and allowed again in N + 2 |
| ScoundrelRules.CardActionKeepsCounters | src/games/scoundrel/state.ts:220-256 | drink, equip and both fights keep the deck, the room number, the forfeit room and the flags, so they never change whether forfeit is allowed |
| ScoundrelRules.Play | src/games/scoundrel/state.ts:220-284 | any run of card actions, each followed by the win check, keeps the room number and the forfeit room |
| ScoundrelRules.ForfeitRefusedNextRoom | src/games/scoundrel/state.ts:258-270 | after a forfeit in room N, forfeit stays refused through any card actions in room N and, after next room, through any card actions in room N + 1 |
| ScoundrelRules.UndoRestores | src/games/scoundrel/state.ts:186-198 | undo on an empty history is a no-op; otherwise it restores the eight fields of the last snapshot and drops it |
| ScoundrelRules.ActionThenUndo | src/games/scoundrel/state.ts:152-164 | a refused action changes nothing; an accepted one pushes exactly one snapshot of the state before it, and undo (also after the win check) brings back that state exactly; no action changes `won` or `gameOver` |
| ScoundrelRules.NewGameSetup | src/games/scoundrel/state.ts:200-214 | a new game has health 20, no weapon, room number 0, forfeit room -1, flags cleared, empty history, started, a 4-card room over a 40-card deck, together the standard deck |
| ScoundrelRules.StartGameSetup | src/games/scoundrel/state.ts:202-213 | from a standard deck the room is its first four cards and the deck the other 40 |
| ScoundrelRules.WinCheckRule | src/games/scoundrel/state.ts:273-284 | the game is won exactly when a started, running game has health above 0 and an empty deck and room; a game at or below 0 health is never ended (there is no loss check) |
| ScoundrelRules.NewGameEstablishesInv | src/games/scoundrel/state.ts:200-214 | a new game satisfies the invariant of a started game |
| ScoundrelRules.StartGameEstablishesInv | src/games/scoundrel/state.ts:200-214 | a game set up from any standard deck satisfies the invariant |
| ScoundrelRules.SaveStateKeepsInv | src/games/scoundrel/state.ts:152-164 | in a running game, every snapshot in the history after saveState satisfies the invariant and is of a running game |
| ScoundrelRules.RemovalKeepsCards | src/games/scoundrel/state.ts:216-218 | removing a room card keeps ids across deck and room distinct and the cards well formed |
| ScoundrelRules.NextRoomKeepsInv | src/games/scoundrel/state.ts:167-184 | next room keeps the invariant (at most four room cards, distinct ids, health at most 20) |
| ScoundrelRules.CardActionKeepsInv | src/games/scoundrel/state.ts:220-256 | drink, equip and both fights keep the invariant |
| ScoundrelRules.ForfeitKeepsInv | src/games/scoundrel/state.ts:263-270 | forfeit keeps the invariant |
| ScoundrelRules.UndoKeepsInv | src/games/scoundrel/state.ts:186-198 | undo keeps the invariant |
| ScoundrelRules.WinCheckKeepsInv | src/games/scoundrel/state.ts:273-284 | the win check keeps the invariant (a win only with an empty table and health above 0) |
| ScoundrelRules.StepKeepsInv | src/games/scoundrel/state.ts:166-284 | every action, the win check after it, and undo keep the invariant of a started game |
| ScoundrelState.GameSession.constructor | src/games/scoundrel/state.ts:83-94 | the hook starts with health 100, room number 0, forfeit room -1, empty deck, room and history, not started |
| ScoundrelState.GameSession.SaveState | src/games/scoundrel/state.ts:152-164 | appends the snapshot of the eight non-history fields and changes nothing else |
| ScoundrelState.GameSession.HandleNextRoom | src/games/scoundrel/state.ts:167-184 | the in-place update performs exactly `NextRoom` |
| ScoundrelState.GameSession.HandleUndo | src/games/scoundrel/state.ts:186-198 | the in-place update performs exactly `Undo` |
| ScoundrelState.GameSession.HandleNewGame | src/games/scoundrel/state.ts:200-214 | the in-place update performs exactly `NewGame` with the same draws |
| ScoundrelState.GameSession.SetUpGame | src/games/scoundrel/state.ts:202-213 | the setters after createDeck produce `StartGame` of the new deck |
| ScoundrelState.GameSession.RemoveCardFromRoom | src/games/scoundrel/state.ts:216-218 | only the room changes, to its filtered version |
| ScoundrelState.GameSession.HandleDrink | src/games/scoundrel/state.ts:220-225 | the in-place update performs exactly `Drink` |
| ScoundrelState.GameSession.HandleEquip | src/games/scoundrel/state.ts:227-232 | the in-place update performs exactly `Equip` |
| ScoundrelState.GameSession.HandleFightBareHands | src/games/scoundrel/state.ts:234-239 | the in-place update performs exactly `FightBareHands` |
| ScoundrelState.GameSession.HandleFightWithWeapon | src/games/scoundrel/state.ts:241-256 | the in-place update performs exactly `FightWithWeapon` |
| ScoundrelState.GameSession.HandleForfeit | src/games/scoundrel/state.ts:258-270 | the in-place update, shuffling a copy of the room, performs exactly `Forfeit` |
| ScoundrelState.GameSession.CheckWin | src/games/scoundrel/state.ts:273-284 | the effect performs exactly `WinCheck` |
| ScoundrelState.DrinkThenUndo | src/games/scoundrel/state.ts:186-225 | usage example of the session class, not a source operation: in a running game, drinking a potion and then undoing brings every field of the session back |
| EarlyApp.MountSetup | src/App.tsx:105-126 | after mounting, health is 20, no weapon, the flags are clear and a 4-card room lies over a 40-card deck, together the standard deck |
| EarlyApp.MountWithSetup | src/App.tsx:114-126 | mounting on any standard deck deals its first four cards as the room |
| EarlyApp.Unmounted | src/App.tsx:105-110 | before mounting: no cards, no weapon, health 20, flag clear; the loss check leaves it alone and next room draws nothing |
| EarlyApp.MountWith | src/App.tsx:114-126 | the new deck is dealt with its first min(4, n) cards as the room and the rest as the deck, no card lost; health 20, no weapon, flag clear, game running |
| EarlyApp.Mount | src/App.tsx:114-126 | the 44 built cards, shuffled, are dealt as a 4-card room over a 40-card deck, with health 20, no weapon, flag clear and a running game |
| EarlyApp.WithInitialRoom | src/App.tsx:121-126 | drawInitialRoom is a no-op on an empty deck; otherwise the room is the first min(4, n) cards and the deck the rest, with no card lost and nothing else changed |
| EarlyApp.NextRoom | src/App.tsx:131-146 | health, weapon and gameOver never change; the cards on the table after are a sub-multiset of those before (no card is created); in a running game the forfeit flag is cleared and the room ends with at most four cards, full unless the deck ran out |
| EarlyApp.Drink | src/App.tsx:153-158 | ignored once the game is over; otherwise health ends at most 20 (never below min(20, health) for a potion), the potion leaves a strictly smaller room, and deck, weapon, flag and gameOver stay |
| EarlyApp.Equip | src/App.tsx:160-165 | ignored once the game is over; otherwise an unused weapon is equipped, the card leaves a strictly smaller room, and health, deck, flag and gameOver stay |
| EarlyApp.FightBareHands | src/App.tsx:167-172 | ignored once the game is over; a monster never raises health; otherwise the card leaves a strictly smaller room, and weapon, deck, flag and gameOver stay (no loss check here) |
| EarlyApp.CanFightWithWeapon | src/App.tsx:248-252 | the weapon button of this engine is enabled exactly when the current engine's weapon rule allows the fight, for any state of it showing the same table |
| EarlyApp.FightWithWeapon | src/App.tsx:174-186 | ignored once the game is over; health never rises and the weapon is neither gained nor lost; in a running game the state changes exactly when the weapon button is enabled, and then the weapon keeps its value and records this monster's value as its last kill, the monster leaves a strictly smaller room, and deck, flag and gameOver stay |
| EarlyApp.Forfeit | src/App.tsx:189-195 | deck plus room keeps its multiset of cards; either nothing changes or the room is emptied and the flag raised; health and weapon stay |
| EarlyApp.LossCheck | src/App.tsx:198-202 | gameOver is set exactly when health is at or below 0, and nothing else changes |
| EarlyApp.NextRoomRule | src/App.tsx:131-146 | next room is a no-op once the game is over; otherwise it draws from the front of the deck by the keep-one-draw-three / draw-four rule and always clears the forfeit flag |
| EarlyApp.CardHandlerEffects | src/App.tsx:149-172 | drink gives min(20, health + v); equip makes the weapon `{value: v, lastUsedAttack: null}`; a bare-handed fight costs exactly v; each takes exactly that card out of the room (with distinct ids), the rest in order, and keeps the deck and the forfeit flag |
| EarlyApp.WeaponButtonMatchesHandler | src/App.tsx:174-186 | a fight the handler refuses changes nothing; an accepted one costs max(0, v - value), records v as the last kill, takes exactly that card out of the room (with distinct ids) and keeps deck and flag |
| EarlyApp.LossCheckRule | src/App.tsx:198-202 | running the loss check twice is the same as once, and a running game with health above 0 is left running |
| EarlyApp.GameOverIsFinal | src/App.tsx:131-195 | once the game is over every action is refused and changes nothing |
| EarlyApp.RefusedActionChangesNothing | src/App.tsx:131-195 | a refused action changes nothing, and no action sets gameOver itself |
| EarlyApp.ForfeitReturnsRoom | src/App.tsx:189-195 | forfeit sends the room, permuted, after the old deck, empties the room and raises the flag, and a second forfeit is then refused |
| EarlyApp.ConsecutiveForfeits | src/App.tsx:131-195 | forfeit, next room, forfeit: the second forfeit of a non-empty room is accepted |
| EarlyApp.EnginesAgree | src/App.tsx:131-186 | from states showing the same table, next room and the card actions are accepted alike by both engines and leave the same table |
| EarlyApp.ForfeitsAgree | src/App.tsx:189-195 | a forfeit both engines allow leaves the same table in both |
| EarlyApp.MountEstablishesInv | src/App.tsx:105-126 | the mounted state satisfies the App invariant |
| EarlyApp.MountWithEstablishesInv | src/App.tsx:114-126 | mounting on any standard deck satisfies the invariant |
| EarlyApp.NextRoomKeepsInv | src/App.tsx:131-146 | next room keeps the invariant |
| EarlyApp.CardActionKeepsInv | src/App.tsx:153-186 | the card actions keep health at most 20, at most four room cards, distinct ids and well-formed cards |
| EarlyApp.ForfeitKeepsInv | src/App.tsx:189-195 | forfeit keeps the invariant |
| EarlyApp.StepKeepsInv | src/App.tsx:131-202 | every action followed by the loss check keeps health at most 20, gameOver exactly when health is at or below 0, at most four room cards and distinct ids |
| EarlyApp.App.constructor | src/App.tsx:105-118 | the initial state variables followed by the mount effect give exactly `Mount` |
| EarlyApp.App.MountEffect | src/App.tsx:114-118 | sets the deck and draws the initial room, giving `MountWith` of the new deck |
| EarlyApp.App.DrawInitialRoom | src/App.tsx:121-126 | the in-place update performs exactly drawInitialRoom |
| EarlyApp.App.HandleNextRoom | src/App.tsx:131-146 | the in-place update performs exactly `NextRoom` |
| EarlyApp.App.RemoveCardFromRoom | src/App.tsx:149-151 | only the room changes, to its filtered version |
| EarlyApp.App.HandleDrink | src/App.tsx:153-158 | the in-place update performs exactly `Drink` |
| EarlyApp.App.HandleEquip | src/App.tsx:160-165 | the in-place update performs exactly `Equip` |
| EarlyApp.App.HandleFightBareHands | src/App.tsx:167-172 | the in-place update performs exactly `FightBareHands` |
| EarlyApp.App.HandleFightWithWeapon | src/App.tsx:174-186 | the in-place update performs exactly `FightWithWeapon` |
| EarlyApp.App.HandleForfeit | src/App.tsx:189-195 | the in-place update, shuffling a copy of the room, performs exactly `Forfeit` |
| EarlyApp.App.CheckGameOver | src/App.tsx:198-202 | the effect performs exactly `LossCheck` |

## Left out

- Loading and saving the game in `localStorage`, with `JSON.parse`/`stringify` and console logging (src/games/scoundrel/state.ts:99-149): browser I/O. The constructor models a session with no saved game.
- `roomAnimationKey`: a counter that only forces a re-render.
- The raw setters the hook re-exports: they bypass every rule.
- React effect and batching timing. Each handler is one atomic transition. The win check (current engine) and the loss check (earlier engine) run as a separate step after each action. The loss effect in src/App.tsx runs only when health changes; under the invariant `gameOver <==> health <= 0` running it after every step gives the same states.
- The uniformity of `Math.random`: the draws are inputs, so the model says which permutation each draw sequence gives, not how likely it is.
- The copies of `shuffle` and `createDeck` in src/games/scoundrel/state.ts:17-80 and src/App.tsx:12-58: they are the same code as src/games/scoundrel/logic.ts and are modelled once, in `DeckLogic`. App.tsx's `Card.type` is the same field as `cardType` here.
- All rendering code: the game page, the card and deck components, the `CardComponent` of App.tsx, page metadata, the entry point and the build configuration. The button gating is used only as preconditions.
- The current engine has no loss check. Health at or below 0 never ends a game there; only the earlier engine's effect does that. The model follows the code, and `ScoundrelRules.WinCheckRule` states it.
- Next room does not check the room size. With 2 or 3 room cards the current room is discarded; `NextRoomDraws` models that, and `NextRoomKeepsCards` holds only for 0 or 1 cards.
- Forfeit does not draw a new room; the room stays empty until next room.
- ScoundrelRules.FightWithWeaponRule: its lower bound `health - v` on the new health is stated only for non-negative card and weapon values, which every card the deck builds has.

## Findings

| source | as written | input that shows it | evidently intended | confidence | as-written member | corrected member |
|---|---|---|---|---|---|---|
| src/App.tsx:189-195 | the forfeit flag `ranAwayLastRoom` is cleared by every next room, so it only blocks a second forfeit of the already empty room | forfeit room 1, press Next Room with cards left in the deck, forfeit room 2: accepted, so two rooms in a row are run from | the rule text at src/games/scoundrel/index.tsx:21 says a player cannot run from two rooms in a row, and the current engine enforces it by room number | high, not executed | EarlyApp.ConsecutiveForfeits | ScoundrelRules.ForfeitCooldown |
