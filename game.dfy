/**
  One turn of the game (main.py): `run_action` builds the narrator request
  (or answers "start game" directly), `main_loop` filters the story text and
  reconciles the inventory. The game state dict is a `Session` object whose
  inventory the turn updates in place. The two remote model calls are not
  made here: their answers arrive as parameters, `None` standing for a call
  or JSON parse that raised.
 */
module Game {
  import opened Wrappers
  import opened GameStates
  import opened Reconcile
  import opened Safety

  datatype Role = System | User | Assistant

  datatype ChatMessage = ChatMessage(role: Role, content: string)

  /** What `run_action` does with a message: answer it itself, or ask the narrator model with a request. */
  datatype Action = Answer(text: string) | AskNarrator(request: seq<ChatMessage>)

  const StartCommand: string := "start game"

  const InvalidOutput: string := "Invalid Output"

  /** The narrator's system prompt; the source's line continuations join its lines. */
  const NarratorPrompt: string :=
    "You are an AI Game master. Your job is to write what happens next in a player's adventure game."
    + "Instructions: You must on only write 1-3 sentences in response. "
    + "Always write in second person present tense. Ex. (You look north and see...) "
    + "Don't let the player use items they don't have in their inventory.\n"

  /** The world description sent as the first user message; `inventoryJson` is `json.dumps` of the inventory. */
  function WorldInfo(state: GameState, inventoryJson: string): string {
    "\nWorld: " + state.world + "\nKingdom: " + state.kingdom + "\nTown: " + state.town
    + "\nYour Character:  " + state.character + "\nInventory: " + inventoryJson
  }

  /**
    main.py `run_action`. A history entry is the pair the session loop
    records, replayed as an assistant message followed by a user message.
   */
  method RunAction(message: string, history: seq<(string, string)>, state: GameState, inventoryJson: string)
    returns (a: Action)
    ensures message == StartCommand <==> a == Answer(state.start)
    ensures message != StartCommand ==> a.AskNarrator?
    ensures a.AskNarrator? ==>
      && |a.request| == 2 * |history| + 3
      && a.request[0] == ChatMessage(System, NarratorPrompt)
      && a.request[1] == ChatMessage(User, WorldInfo(state, inventoryJson))
      && (forall i :: 0 <= i < |history| ==>
            a.request[2 + 2 * i] == ChatMessage(Assistant, history[i].0)
            && a.request[3 + 2 * i] == ChatMessage(User, history[i].1))
      && a.request[|a.request| - 1] == ChatMessage(User, message)
  {
    if message == StartCommand {
      return Answer(state.start);
    }
    var messages := [ChatMessage(System, NarratorPrompt), ChatMessage(User, WorldInfo(state, inventoryJson))];
    for i := 0 to |history|
      invariant |messages| == 2 + 2 * i
      invariant messages[0] == ChatMessage(System, NarratorPrompt)
      invariant messages[1] == ChatMessage(User, WorldInfo(state, inventoryJson))
      invariant forall j :: 0 <= j < i ==>
        messages[2 + 2 * j] == ChatMessage(Assistant, history[j].0)
        && messages[3 + 2 * j] == ChatMessage(User, history[j].1)
    {
      messages := messages + [ChatMessage(Assistant, history[i].0)];
      messages := messages + [ChatMessage(User, history[i].1)];
    }
    messages := messages + [ChatMessage(User, message)];
    return AskNarrator(messages);
  }

  /** The game state dict of main.py: fixed flavour text and an inventory updated in place. */
  class Session {
    var inventory: Inventory
    const start: string
    const world: string
    const kingdom: string
    const town: string
    const character: string

    constructor (s: GameState)
      ensures State() == s
    {
      inventory := s.inventory;
      start, world, kingdom, town, character := s.start, s.world, s.kingdom, s.town, s.character;
    }

    function State(): GameState
      reads this
    {
      GameState(inventory, start, world, kingdom, town, character)
    }

    /** The story text of a turn: the start text for "start game", otherwise the narrator's answer. */
    function Story(message: string, narration: Option<string>): Option<string> {
      if message == StartCommand then Some(start) else narration
    }

    /** The body of the loop in `update_inventory`: one update applied to the inventory in place, and its log line. */
    method ApplyUpdate(update: ItemUpdate) returns (line: string)
      modifies this
      ensures inventory == Step(old(inventory), update).inventory
      ensures line == Step(old(inventory), update).log
    {
      var name, amount := update.name, update.changeAmount;
      line := "";
      if amount > 0 {
        if name !in inventory {
          inventory := inventory[name := amount];
        } else {
          inventory := inventory[name := inventory[name] + amount];
        }
        line := GainLine(name, amount);
      } else if name in inventory && amount < 0 {
        inventory := inventory[name := inventory[name] + amount];
        line := LossLine(name, amount);
      }
      assert inventory == Change(old(inventory), update).inventory && line == Change(old(inventory), update).log;
      if name in inventory && inventory[name] < 0 {
        inventory := inventory - {name};
      }
    }

    /**
      main.py `update_inventory`, applied to this session's inventory and run
      on the detector's raw list. A malformed entry makes the source raise
      in the middle of the loop: the result is then `None`, and what the
      entries before it did to the inventory stays done.
     */
    method UpdateInventory(entries: seq<Option<ItemUpdate>>) returns (log: Option<string>)
      modifies this
      ensures inventory == Apply(old(inventory), ParsedPrefix(entries)).inventory
      ensures log == if |ParsedPrefix(entries)| == |entries|
                     then Some(Apply(old(inventory), ParsedPrefix(entries)).log)
                     else None
    {
      ghost var parsed := ParsedPrefix(entries);
      var text := "";
      for i := 0 to |entries|
        invariant i <= |parsed|
        invariant inventory == Apply(old(inventory), parsed[..i]).inventory
        invariant text == Apply(old(inventory), parsed[..i]).log
      {
        if entries[i] == None {
          assert parsed[..i] == parsed;
          return None;
        }
        assert i < |parsed|;
        var update := entries[i].value;
        assert update == parsed[i];
        var line := ApplyUpdate(update);
        text := text + line;
        ApplyNext(old(inventory), parsed, i);
      }
      assert parsed[..|entries|] == parsed;
      return Some(text);
    }

    /**
      main.py `main_loop`. `narration` is the narrator's answer and
      `extracted` the detector's `itemUpdates` list; `None` for either is an
      exception of the remote call or of `json.loads`, which the source lets
      escape, and then the result is `None` too. Unsafe story text is
      replaced before any inventory work.
     */
    method MainLoop(message: string, history: seq<(string, string)>, inventoryJson: string,
                    narration: Option<string>, extracted: Option<seq<Option<ItemUpdate>>>)
      returns (r: Option<string>)
      modifies this
      ensures Story(message, narration) == None ==> r == None && inventory == old(inventory)
      ensures Story(message, narration).Some? && !IsSafe(Story(message, narration).value) ==>
        r == Some(InvalidOutput) && inventory == old(inventory)
      ensures Story(message, narration).Some? && IsSafe(Story(message, narration).value) && extracted == None ==>
        r == None && inventory == old(inventory)
      ensures Story(message, narration).Some? && IsSafe(Story(message, narration).value) && extracted.Some? ==>
        var applied := Apply(old(inventory), ParsedPrefix(extracted.value));
        && inventory == applied.inventory
        && r == if |ParsedPrefix(extracted.value)| == |extracted.value|
                then Some(Story(message, narration).value + applied.log)
                else None
      ensures NonNegative(old(inventory)) ==> NonNegative(inventory)
    {
      var action := RunAction(message, history, State(), inventoryJson);
      var output: string;
      match action {
        case Answer(text) =>
          output := text;
        case AskNarrator(_) =>
          if narration == None {
            return None;
          }
          output := narration.value;
      }
      if !IsSafe(output) {
        return Some(InvalidOutput);
      }
      if extracted == None {
        return None;
      }
      if NonNegative(inventory) {
        ApplyPreservesNonNegative(inventory, ParsedPrefix(extracted.value));
      }
      var log := UpdateInventory(extracted.value);
      if log == None {
        return None;
      }
      return Some(output + log.value);
    }
  }

  /** The session main.py creates starts with the listed items, none of them at a negative quantity. */
  lemma InitialStateHoldsStartingItems()
    ensures GetGameState(Some(InitialInventory)).inventory == InitialInventory
    ensures NonNegative(GetGameState(Some(InitialInventory)).inventory)
    ensures "gold" in InitialInventory && InitialInventory["gold"] == 5
  {
    assert "gold" in InitialInventory;
  }
}
