/**
  The game state record built by helper.py `get_game_state`: an inventory
  mapping item names to quantities and five fixed flavour strings.
 */
module GameStates {
  import opened Wrappers

  type Inventory = map<string, int>

  datatype GameState = GameState(
    inventory: Inventory,
    start: string,
    world: string,
    kingdom: string,
    town: string,
    character: string)

  const StartText: string := "You awaken in a mossy glade, birds chirping faintly above."
  const WorldText: string := "A sprawling realm of magic and ancient ruins."
  const KingdomText: string := "Elaria"
  const TownText: string := "Oakshade"
  const CharacterText: string := "A curious traveler seeking lost relics."

  /**
    `get_game_state(inventory=None)`: Python's `inventory or {}` keeps the
    argument only when it is a non-empty dict; None and {} both give {}
    (an empty argument is already the empty map here).
   */
  function GetGameState(inventory: Option<Inventory>): (s: GameState)
    ensures inventory == None ==> s.inventory == map[]
    ensures inventory == Some(map[]) ==> s.inventory == map[]
    ensures inventory.Some? && |inventory.value| > 0 ==> s.inventory == inventory.value
    ensures s.start == StartText && s.world == WorldText && s.kingdom == KingdomText
    ensures s.town == TownText && s.character == CharacterText
  {
    var kept := match inventory
      case Some(inv) => inv
      case None => map[];
    GameState(kept, StartText, WorldText, KingdomText, TownText, CharacterText)
  }

  /** The flavour strings do not depend on the argument: two states differ at most in their inventory. */
  lemma FlavourIndependentOfInventory(a: Option<Inventory>, b: Option<Inventory>)
    ensures GetGameState(a).(inventory := map[]) == GetGameState(b).(inventory := map[])
  {
  }

  /** The inventory main.py hands to `get_game_state` for its one session. */
  const InitialInventory: Inventory :=
    map["cloth pants" := 1, "cloth shirt" := 1, "goggles" := 1, "leather bound journal" := 1, "gold" := 5]
}
