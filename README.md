# Text-adventure inventory reconciliation, in Dafny

This project models the deterministic core of a text-adventure game loop.
A remote language model narrates the story. A second model call reads the
story and proposes inventory updates `{name, change_amount}`. The game then
applies those updates to the player's inventory and appends a change log to
the story text.

The model covers:

- `update_inventory` (main.py). `Reconcile.Step` and `Reconcile.Apply` give
  the effect of one update and of an ordered list of updates as functions on
  values. `Game.Session.UpdateInventory` is the source's in-place loop over
  the session's inventory map, proved equal to `Apply`.
- `run_action` (main.py). `Game.RunAction` answers `"start game"` with the
  start text and makes no model request. For any other message it builds the
  narrator request in a loop over the history.
- `main_loop` (main.py). `Game.Session.MainLoop` takes the narrator's answer
  and the parsed update list as parameters. It replaces unsafe story text with
  `"Invalid Output"` before any inventory work.
- `is_safe` (helper.py). `Safety.IsSafe` is a case-insensitive raw-substring
  check against `suicide, murder, kill, rape, torture`.
- `get_game_state` (helper.py). `GameStates.GetGameState` builds the initial
  game state.
- Python's `str(int)` in the log lines. `Decimal.IntToString` renders integers
  in decimal, and `Decimal.ParseInt` reads them back.

Points of behaviour worth knowing, all taken from the code:

- An item whose quantity drops to exactly 0 stays in the inventory at 0.
  main.py:74 deletes an item only when its quantity is below zero.
  `Reconcile.SpendingAllGoldKeepsZero` and `Reconcile.RopeGainedThenLost`
  show this.
- `main_loop` does not special-case `"start game"` (main.py:131-139). The
  start text still goes through `is_safe`, the inventory detector and
  `update_inventory`.
- A detector reply that is not valid JSON makes `json.loads` raise
  (main.py:55). Nothing catches the exception, so it leaves `main_loop`
  (main.py:136) with the inventory untouched. In the model, `None` stands for
  that exception.
- A malformed entry in the update list (a missing key, or an amount that
  cannot be compared with 0) raises inside the loop of `update_inventory`
  (main.py:61-64). The entries before it have already changed the
  inventory, and those changes stay. `Game.Session.UpdateInventory` and
  `Reconcile.MalformedEntryKeepsEarlierUpdates` show this.
- The replacement text is `"Invalid Output"`, with no final period.
- A history entry is replayed as an assistant message (its first component)
  followed by a user message (its second component). This matches the
  `(response, user_input)` pairs that the console loop records.

Some definitions have no row of their own, because lemmas and contracts in
the table state their properties. `Reconcile.Change` and `Reconcile.Prune`
are the two halves of the loop body (main.py:64-72 and 74-75) and are
described by `Reconcile.Step`. `Reconcile.GainLine` and `Reconcile.LossLine`
are the f-strings at main.py:69 and 72 and are described by the two
`RecordsAmount` lemmas. `Safety.Contains` is Python's `in` on strings and is
described by `Safety.ContainsIff`. `Game.NarratorPrompt` and `Game.WorldInfo`
are the prompt texts at main.py:83-97 and enter `Game.RunAction`'s contract.

## Model

| member | source | states |
|---|---|---|
| Reconcile.Step | main.py:61-75 | One update: a gain adds to the held quantity, creating the item at exactly that amount, and logs `+<amount>`. A loss of a held item subtracts and logs the signed amount. A loss of an absent item changes nothing and logs nothing. A zero change logs nothing and only prunes an item already below zero. The named item is removed exactly when its new quantity is below 0; an item at exactly 0 stays. Every other item is untouched. |
| Reconcile.Apply | main.py:58-77 | An item absent before the call can be present after it only if some update in the list gains it with a positive amount. Its other properties are stated by `ApplyAppend`, `ApplyFrame`, `ApplyPreservesNonNegative` and `InertUpdatesChangeNothing`. |
| Reconcile.ParsedPrefix | main.py:60-64 | The updates the loop gets through are exactly the entries in front of the first malformed one. The entry right after them, if there is one, is malformed. |
| Reconcile.MalformedEntryKeepsEarlierUpdates | main.py:60-75 | For `[rope +2, <malformed>]`, the loop gets through `rope +2` only, and that leaves `rope` at 2 in an empty inventory. |
| Reconcile.ApplyAppend | main.py:60-77 | Updates are applied in list order: applying `a + b` applies `a` and then `b`, and the log is `a`'s lines followed by `b`'s lines. |
| Reconcile.ApplyPreservesNonNegative | main.py:74-75 | If no quantity is negative before the call, none is negative after it. |
| Reconcile.ApplyFrame | main.py:60-75 | An item named in no update keeps its presence and its quantity. |
| Reconcile.InertUpdatesChangeNothing | main.py:59-77 | A list made only of losses of absent items and zero changes of items not below zero gives the empty log and leaves the inventory unchanged. This includes the empty list on any inventory. |
| Reconcile.GainLineRecordsAmount | main.py:69 | A gain line is `"\nInventory: <name> "`, then `+`, then the decimal amount, which parses back to the amount. |
| Reconcile.LossLineRecordsAmount | main.py:72 | A loss line is `"\nInventory: <name> "` followed by the amount, whose `-` comes from the number, and the text parses back to the amount. |
| Reconcile.SpendingAllGoldKeepsZero | main.py:70-75 | `{"gold": 5}` with update `gold -5` leaves `gold` at 0 and logs `"\nInventory: gold -5"`. |
| Reconcile.OverspendingGoldDeletesIt | main.py:70-75 | `{"gold": 5}` with update `gold -7` deletes `gold` and logs the loss line for -7. |
| Reconcile.RopeGainedThenLost | main.py:60-77 | From an empty inventory, `rope +2` then `rope -2` leaves `rope` at 0 and logs the gain line and then the loss line. |
| Reconcile.ExampleLinesAsText | main.py:69-72 | The gain and loss lines for rope read `"\nInventory: rope +2"` and `"\nInventory: rope -2"`. |
| Game.Session.ApplyUpdate | main.py:61-75 | One pass of the loop body changes the inventory in place exactly as `Step` does, and returns `Step`'s log line. |
| Game.Session.UpdateInventory | main.py:58-77 | The in-place loop leaves the inventory equal to `Apply` of the old inventory and the entries in front of the first malformed one. It returns `Apply`'s log when every entry is well formed, and `None` (the raised exception) otherwise. |
| Game.RunAction | main.py:79-108 | The message `"start game"` gets the start text and no model request, and only that message does. Any other message gets a request of 2·|history| + 3 messages: the system prompt, the world information, an assistant/user pair per history entry in order, and the player's message last. |
| Game.Session.MainLoop | main.py:131-139 | Unsafe story text gives `"Invalid Output"` with the inventory unchanged. For safe text, the inventory becomes `Apply` of the entries in front of the first malformed one. The result is the text followed by the update log when every entry is well formed, and `None` otherwise. A raised narrator call, detector call or JSON parse gives `None` with the inventory unchanged. A non-negative inventory stays non-negative. |
| Game.Session.constructor | main.py:123-129 | The session holds exactly the given game state. |
| Game.InitialStateHoldsStartingItems | main.py:123-129 | The session's initial inventory is the listed starting items, with 5 gold and no negative quantity. |
| Safety.Lower | helper.py:58 | Lower-casing keeps the length and maps each ASCII capital to its small letter. |
| Safety.ContainsIff | helper.py:59 | The left-to-right scan for `word in text` succeeds exactly when the word occurs at some index of the text. |
| Safety.AnyContainedIff | helper.py:59 | `any(...)` over the word list holds exactly when some listed word is contained in the text. |
| Safety.IsSafe | helper.py:55-59 | Text is safe exactly when none of the five banned keywords is contained in its lower-cased form. `IsSafeIff` restates this with explicit positions. |
| Safety.IsSafeIff | helper.py:55-59 | Text is unsafe exactly when some banned keyword occurs as a substring of its lower-cased form. |
| Safety.UnsafeIfContains | helper.py:57-59 | Any text containing a word that lower-cases to a banned keyword is unsafe. |
| Safety.UnsafeIfLowersToKeyword | helper.py:57-59 | A text that lower-cases to a banned keyword is unsafe. |
| Safety.MurderInAnyCaseIsUnsafe | helper.py:58-59 | `"MURDER"` and `"Murder"` are both unsafe. |
| Safety.MurderSpellings | helper.py:58 | `"MURDER"` and `"Murder"` both lower-case to the banned word `murder`. |
| Safety.SkillIsUnsafe | helper.py:57-59 | Any text containing `"skill"` is unsafe, because it contains `"kill"`. |
| Safety.IsSafeIgnoresCase | helper.py:58 | Two texts that differ only in letter case get the same verdict. |
| Safety.SafeWithoutKeywords | helper.py:59 | A text in whose lower-cased form no banned keyword occurs is safe. |
| Safety.EmptyIsSafe | helper.py:59 | The empty text is safe. |
| GameStates.GetGameState | helper.py:29-37 | `None` and `{}` both give an empty inventory. A non-empty inventory is kept as given. The start, world, kingdom, town and character strings are the fixed constants. |
| GameStates.FlavourIndependentOfInventory | helper.py:32-36 | Two states built from any two arguments differ at most in their inventory. |
| Decimal.NatToString | main.py:69 | A natural number renders as a non-empty string of decimal digits, with no leading zero unless it is `"0"`. |
| Decimal.IntToString | main.py:72 | A number renders with a leading `-` exactly when it is negative, followed by the digits of its magnitude. |
| Decimal.NatToStringRoundTrip | main.py:69-72 | Reading back the digits of a natural number gives the number. |
| Decimal.IntToStringRoundTrip | main.py:72 | Parsing the rendering of any integer gives the integer. |
| Decimal.PlusSignedRoundTrip | main.py:69 | A `+` followed by the rendering of a positive number parses back to the number. |
| Decimal.IntToStringInjective | main.py:69-72 | Distinct integers render as distinct strings, so a log line determines its amount. |

## Left out

- The chat-completion calls in `detect_inventory_changes` and `run_action` (main.py:41-56, 109-113) are remote and non-deterministic. Their results are parameters of `MainLoop`: the narrator's text, and the already-parsed `itemUpdates` list. `None` stands for a call or parse that raised.
- `json.loads` of the detector's reply (main.py:55) and the `itemUpdates` lookup (main.py:56) become the outer `None`. A raw entry is either a well-formed update with a string name and an integer amount, or `None` for an entry that raises. A float amount, which Python would accept, is not modelled.
- `json.dumps` of the inventory in the world information (main.py:97) depends on the dict's insertion order, which a Dafny map does not have. `RunAction` takes the rendered text as its `inventoryJson` parameter.
- Game.RunAction: the request is returned rather than sent, and the narrator's reply is `MainLoop`'s `narration` parameter.
- `generate_avatar` and `game_with_avatar` (main.py:116-121, 141-144) call an external image API through a client that is never defined. The Gradio interface (main.py:146-158) is UI plumbing.
- The module-level client and `game_state` singletons (main.py:39, 123-129) are replaced by an explicit `Session` object.
- `start_game` (helper.py:39-53) is a console loop over `input` and `print`. `load_env`, `get_together_api_key`, `save_world` and `load_world` (helper.py:8-27) are environment and file I/O. test_connection.py only builds a network client.
- Safety.Lower: `str.lower()` is modelled on ASCII letters only. Unicode case folding is not modelled.
- `get_game_state` returns the caller's own dict object when it is non-empty, so later updates are visible through the caller's reference. GetGameState works on map values, so it does not capture that aliasing.
- Whether the fixed start text passes `is_safe` is not proved. `MainLoop`'s contract covers both outcomes.
