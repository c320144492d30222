# hoofd scene engine, modelled in Dafny

hoofd is a text-adventure engine. A story is a set of *scenes*. Each scene has:

- a header, a text, an image and a speaker;
- guarded *override* lists (`if_texts`, `if_images`, `if_speakers`): the last entry whose condition holds replaces the base value;
- guarded *addition* lists (`if_text_additions`), extended by the story-wide `GLOBAL_ADDITIONS`: every entry that holds appends a line;
- guarded *exits*;
- guarded *on-enter actions*.

The player carries an inventory (a list of item names), the application a list of modifiers and a dictionary of variables.

When the player presses an exit, the engine:

1. resolves the target scene;
2. computes the story's `MY_VARS` one formula at a time;
3. resolves the text, picture and speaker;
4. runs the on-enter actions in order, each against the state the earlier ones left;
5. redraws the inventory label and the visible exits;
6. appends the scene to the history.

The `game` verbs `goto`, `restart`, `destroy`, `load` and `save` end the handler at once.

The model has these modules:

- `Counting`: the insertion-ordered dictionary that `inventory_dict` and `modifiers_dict` build (`Tally`), with the loop that fills it.
- `Text`: `str(n)` and `str.join`.
- `Expressions`: the condition forms the scene tables use (`"x" in mods`, `invdict.get(k, 0) op n`, `modsdict.get(...)`, `and`/`or`, previous/current scene id tests) and the expressions of `set` and `MY_VARS`, plus their evaluator.
- `Classes`: the `Scene` record with its defaults, the actions, and the `Player` class.
- `Resolver`: last-match-wins overrides, additions and the exit filter. Each is a specification function plus the loop method proved against it.
- `Engine`: each handler as a pure transition on a `Game` value. A Python exception becomes `Crashed(error)` with the state as mutated up to that point.
- `Session`: the `QuestApp` class. It has the mutable fields of the application, and each of its methods is proved to perform the `Engine` transition.
- `Behaviour`: the properties the engine promises.
- `Fixtures`: the scenes `first`, `give`, `pray` and `game_over` of the English story, with worked examples.

The random draw of each handler (`random.randint(0, 100)`) is a parameter:

- `rnum` is the draw of the button handler.
- `rnum2` is the draw of the screen that a `goto`, `restart` or `load` inside the on-enter pass composes; every `compose_game_screen` draws its own number (main.py:344).

## Model

| member | source | states |
|---|---|---|
| Counting.CountOccurrences | classes.py:53-64 | The loop builds exactly `TallyOf(s)`: first-occurrence key order, one count per key. |
| Counting.TallyContents | classes.py:53-64 | The dict's keys are exactly the distinct items, each with its count of occurrences, and no key is repeated. It is empty exactly when the list is. |
| Counting.TallyTotal | classes.py:56-62 | The counts sum to the length of the list. |
| Counting.DistinctInFirstOccurrenceOrder | classes.py:56-62 | Key `i` comes before key `j` exactly in the order of their first occurrences in the list. |
| Counting.AppendBumpsOneCount | classes.py:58-62 | Appending an item raises its count by one and leaves every other count unchanged. |
| Counting.DistinctElements | classes.py:56-62 | The distinct items have no duplicates and are exactly the members of the list. |
| Session.QuestApp.ModifiersDict | main.py:268-283 | `modifiers_dict` returns the tally of the modifiers, so the Counting lemmas apply to it: its keys are the distinct modifiers, each with its count, and an empty list gives an empty map. |
| Classes.NewScene | classes.py:22-34 | A scene built from the four required fields has image `''` and speaker `''`, empty on-enter and `if_*` lists, formatting on and sanitizing off. |
| Session.QuestApp.constructor | main.py:256-259 | The application starts at the main menu with the class-level `Player()` and an empty history, no modifiers, no variables and the save file on disk. |
| Classes.Player.constructor | classes.py:44-46 | A new player has no current scene, no previous scene, an empty inventory and an empty history. |
| Classes.Player.InventoryDict | classes.py:48-64 | `inventory_dict` returns the tally of the inventory. |
| Classes.Player.InventoryWithCount | classes.py:66-73 | The method builds the text from the dictionary `inventory_dict` returns. The result is the `"k xv"` lines of the distinct items, in first-occurrence order with `v` the item's count, joined by `"\n"`. |
| Classes.CountLinesArePanelLines | classes.py:71-73 | The lines built from the dictionary are, item by item, the distinct items in first-occurrence order, each with its number of occurrences. |
| Classes.InventoryText | classes.py:66-73 | The text is the `"k xv"` lines of the distinct items, in first-occurrence order, joined by `"\n"`. It is empty exactly when the inventory is. With newline-free item names, it has one newline fewer than there are distinct items, so none at the end. |
| Classes.CountLineNewlines | classes.py:73 | A `"k xv"` line of an item without a newline has no newline. |
| Text.ParseNatToString | classes.py:73 | The decimal rendering of a count reads back as that count. |
| Text.JoinSeparators | classes.py:73 | Joining newline-free lines with `"\n"` puts exactly one newline between neighbours. |
| Expressions.DictionaryLookups | main.py:380-398 | The conditions `invdict.get(k, 0) op n` and `modsdict.get(k, 0) op n` compare the counts held in the dictionaries `inventory_dict` and `modifiers_dict` build. |
| Expressions.MembershipIsPositiveCount | main.py:380-398 | `"x" in mods` holds exactly when `modsdict.get("x", 0) > 0`; `not in` is its negation. |
| Expressions.PyAdd | main.py:1028-1029 | `+` fails exactly on operands Python cannot add (numbers with numbers, strings with strings). |
| Expressions.PySub | main.py:1030-1031 | `-` succeeds exactly on two numbers. |
| Expressions.AddThenSubtract | main.py:1028-1031 | Subtracting a delta after adding it gives the number back. |
| Resolver.ResolveOverride | main.py:380-398 | The override loop ends with `Override(base, list)`: the value of the last entry whose condition holds, or the base. |
| Resolver.OverrideNoMatch | main.py:380-398 | When no condition holds, the base value stays. |
| Resolver.OverrideLastMatch | main.py:380-398 | When entry `j` holds and no later entry does, the result is entry `j`'s value, whatever came before it. |
| Resolver.OverrideConcat | main.py:438-478 | Scanning `if_images` and then `GLOBAL_IMAGES` is one last-match scan over their concatenation. |
| Resolver.AppendAdditions | main.py:400-436 | The addition loop appends `"\n" + t` for every entry that holds, in declaration order. |
| Resolver.MatchingMembers | main.py:402-436 | A line is added exactly when some entry with that value holds. |
| Resolver.MatchingConcat | main.py:402-436 | Scene additions come before the global ones: matches of `a + b` are matches of `a`, then of `b`. |
| Resolver.LinesConcat | main.py:402-436 | Adding two batches of lines is adding their concatenation. |
| Resolver.GlobalImageWins | main.py:438-478 | A matching `GLOBAL_IMAGES` entry overrides any per-scene image, provided the scene has a base image. |
| Resolver.ImageIsOneScan | main.py:438-478 | The resolved image is one last-match scan over `if_images + GLOBAL_IMAGES`. |
| Resolver.FilterExits | main.py:535-567 | The exit loop produces exactly `Visible(scene)`. |
| Resolver.VisibleFromSound | main.py:535-567 | Every button stands for an exit whose condition held, tagged with that exit's original index. |
| Resolver.VisibleFromOrdered | main.py:535-567 | Buttons keep the exits' relative order; the indices strictly increase. |
| Resolver.VisibleFromComplete | main.py:535-567 | Every exit whose condition holds gets a button. |
| Resolver.VisibleExact | main.py:535-567 | A button exists for index `i` exactly when exit `i` holds, and it carries that exit's caption. |
| Session.QuestApp.RunMyVars | main.py:356-372 | The `MY_VARS` loop performs `WithMyVars`: the formulas are stored one after the other, and the first that raises stops the loop. |
| Behaviour.MyVarsSequential | main.py:358-372 | The loop is sequential: each formula sees the values of the ones before it. |
| Behaviour.MyVarsDefines | main.py:358-372 | Unlisted variables keep their values. Every listed name is defined when nothing raises, and a failure is reported under a listed name. |
| Session.QuestApp.ResolvePresentation | main.py:834-975 | The handler's text, picture and speaker are the resolver's `SceneText`, `Picture` and `Speaker`. |
| Behaviour.LocalizedInventoryOutcome | main.py:1135-1142 | The inventory label is EMPTY for an empty inventory, and it fails exactly when an item has no ITEMS name. Otherwise it is one `"name xN"` line per distinct item, in first-occurrence order, joined by `"\n"`: the item's ITEMS name and its count. When ITEMS names each item after itself, it is the `inventory_with_count` text. |
| Session.QuestApp.ComposeGameScreen | main.py:343-594 | `compose_game_screen` performs `Compose`. |
| Behaviour.ComposeOutcome | main.py:343-594 | An unknown id raises before anything changes. Otherwise the scene becomes current and only MY_VARS changes the variables; no on-enter action runs. The screen shows the resolved text, speaker, picture, label and visible exits. |
| Session.QuestApp.StartGame | main.py:691-695 | The 'start' button removes the menu and composes `first`. |
| Session.QuestApp.SaveSnapshot | main.py:697-712 | The 'save' button writes the snapshot of current id, inventory, previous id or `''`, modifiers, variables and history. |
| Session.QuestApp.RestoreSnapshot | main.py:714-736 | Loading performs `Restore`: it replaces those six fields and raises on an unknown scene name. |
| Behaviour.RestoreOutcome | main.py:714-736 | A load succeeds exactly when the current name, and the previous one unless it is `''`, name scenes. It then restores all six fields, with `''` giving no previous scene. |
| Behaviour.RestoreCapture | main.py:697-736 | Restoring the snapshot of a state whose scenes are stored under their ids gives the state back. |
| Session.QuestApp.LoadSnapshot | main.py:1078-1110 | The 'load' action restores the snapshot, clears the screen and composes the saved scene. |
| Behaviour.SaveThenLoad | main.py:1078-1129 | Saving and then loading gives the same player, the same modifiers and the same screen as composing the saved scene afresh. |
| Session.QuestApp.LoadButtonPressed | main.py:744-781 | The game screen's 'load' button restores, redraws the inventory label and recomposes. |
| Session.QuestApp.RestartGame | main.py:1057-1072 | The 'restart' action performs `Restart`. |
| Behaviour.RestartOutcome | main.py:1057-1072 | Restart gives a fresh player at `first` with empty inventory and history, and empty modifiers and variables. The screen is composed from the old modifiers and variables, which are emptied afterwards. |
| Session.QuestApp.ApplyAction | main.py:995-1132 | One on-enter action performs `Apply`, dispatched on (target, verb, operand). |
| Behaviour.InventoryAdd | main.py:996-997 | 'add' appends one item, raising its count by one and leaving the other counts unchanged. |
| Behaviour.InventoryAddMany | main.py:998-999 | 'add-many' keeps the old items and appends exactly `max(n, 0)` copies of the item. |
| Behaviour.InventoryRemove | main.py:1000-1001 | 'remove' deletes exactly the first occurrence and fails exactly when the item is absent. |
| Behaviour.InventoryRemoveAll | main.py:1002-1003 | 'remove-all' leaves no copy of the item and every other count as it was. |
| Behaviour.InventoryRemoveAllKeepsOrder | main.py:1002-1003 | 'remove-all' keeps the other items in order: it distributes over any split of the list. |
| Behaviour.InventoryClear | main.py:1004-1005 | 'clear' empties the list and is idempotent. |
| Behaviour.ModifierAddManyAppendsTuple | main.py:1010-1011 | Modifier 'add-many' appends the operand tuple `n` times and leaves the count of the plain flag unchanged. |
| Behaviour.ModifierAddRemove | main.py:1008-1013 | Modifier 'add' appends the flag. 'remove' deletes one occurrence and fails when it is absent; adding then removing restores the multiset. |
| Behaviour.VariableVerbsTouchOneKey | main.py:1019-1045 | A single-key variable verb changes no other key. |
| Behaviour.VariableAssignments | main.py:1020-1045 | 'add'/'update' store the literal and 'set' the expression's value. 'remove' deletes the key and fails exactly when it is absent; 'clear' empties the map. |
| Behaviour.IncDec | main.py:1028-1031 | 'inc'/'dec' fail on a missing variable. 'inc' fails exactly on operands Python cannot add, 'dec' on anything but two numbers. On numbers they add or subtract the delta; 'inc' on two strings concatenates them. |
| Behaviour.IncThenDec | main.py:1028-1031 | 'dec' undoes 'inc' by the same delta. |
| Behaviour.ActionOutcome | main.py:995-1132 | 'exit' exits and 'notify' changes nothing. The verbs goto/restart/destroy/load/save return (or raise). An action that ends normally changes only the inventory, the modifiers and the variables. |
| Session.QuestApp.RunOnEnter | main.py:977-1133 | The on-enter loop performs `RunActions`. |
| Behaviour.RunActionsConcat | main.py:977-992 | Actions run in declaration order, each evaluated on the state the earlier ones left, and a non-normal end stops the rest. |
| Behaviour.ShortCircuit | main.py:1051-1129 | A holding goto/restart/destroy/load/save entry is the last to run. |
| Behaviour.PassKeepsScene | main.py:977-1133 | A pass that ends normally leaves the scene, history, screen and save file unchanged. |
| Behaviour.PassKeepsHistory | main.py:977-1133 | Without 'restart' or 'load', a pass never changes the history. |
| Behaviour.GotoSkipsEntryActions | main.py:1051-1055 | 'goto' makes the target current without running its on-enter actions and leaves the modifiers unchanged. |
| Session.QuestApp.PressExit | main.py:797-1186 | Pressing exit button `i` performs `Press`. |
| Behaviour.ShownButtonIsItsExit | main.py:551 | The exit behind a shown button is at its original index, and that exit's condition held. |
| Behaviour.PressOutcome | main.py:797-812 | A press indexes the unfiltered exit list. The scene left becomes previous before the target is looked up; 'EXIT' terminates, and an unknown target raises. |
| Behaviour.PressEnters | main.py:797-1186 | A normal end leaves the target current and the left scene previous, with exactly the target appended to the history. Text and speaker are resolved before the pass and exits after it. An early end without restart or load leaves the history unchanged. |
| Behaviour.RestoreAsWrittenBreaksRoundTrip | main.py:714-736 | As written, loading the snapshot of a state into a state with a different history succeeds but keeps that other history, where `Restore` brings the saved one back. |
| Fixtures.FirstExitsBeforeGift | scenes/scenes_en.py:8-17 | Before the gift, a player with fewer than ten coins sees the buttons Pray, Fight and Pat, with original indices 2, 3 and 4. |
| Fixtures.FirstExitsAfterGift | scenes/scenes_en.py:8-17 | After the gift the buttons are 1, 2, 5 and 6. |
| Fixtures.FirstSpeakerAfterGift | scenes/scenes_en.py:21-24 | The empty-string speaker override applies after the gift. |
| Fixtures.FirstTextAfterGift | scenes/scenes_en.py:18-20 | After the gift the text is the override plus `"\n"`. |
| Fixtures.RichPlayerSeesAddition | scenes/scenes_en.py:134-137 | With ten coins, `first` shows the global addition as one more line. |
| Fixtures.LastOverrideWins | scenes/scenes_en.py:61-64 | With no money both `give` overrides hold, and the later one ("Not enough money") wins. |
| Fixtures.GiveTenCoins | scenes/scenes_en.py:50-65 | Giving ten coins sets `money-given` and removes every coin. The screen shows the base text of `give`, and the history grows by `give`. |
| Fixtures.CoinsAreNamed | main.py:500-507 | A coin-only inventory always gets a label. |
| Fixtures.PrayTooMuch | scenes/scenes_en.py:76-94 | The fourth overpray notifies and goes to game over: the handler returns with `over` current. |
| Fixtures.GameOverExitCrashes | scenes/scenes_en.py:43-47 | As written, every game-over exit raises `UnknownScene("SYS.RESTART")`. |
| Fixtures.GameOverFixedRestarts | main.py:41-51 | With `!SYS.RESTART` targets, each exit restarts the game cleanly. |
| Fixtures.LoadKeepsHistoryAsWritten | main.py:736 | Saving on `first`, entering `give` and loading leaves the player's history `[give]` as written, where `Restore` gives `[]`. |

## Left out

- The Textual UI is left out: widgets, CSS, focus, `destroy`, credits, the language screen and `notify` toasts. A notify is a no-op, and the screen is recorded as a `View` value.
- `utils.py` (PIL resizing, numpy block art) is not part of this model. The parsed picture is left as the image path.
- `meval`/`eval` are replaced by a small condition and expression datatype. `MY` is not visible to conditions.
  - A '!'-prefixed target other than `!SYS.RESTART` is not modelled.
  - The scene lookup `scenes.scenes_<lang>.<name>` becomes a map lookup in the language module's tables. The load action's `scenes.<previous>` lookup (main.py:1092) is modelled the same way; `scenes/__init__.py` is not part of this model.
- Expressions.Eval: a condition that reads `player.previous.id_` or `player.current.id_` when there is no such scene is false here; Python raises `AttributeError`.
- `rich.markup.escape` and `str.format` are recorded as the flags `escaped` and `formatted` on the rendered text. Their string effect is not computed.
- Button captions and the exit loop's formatting are likewise recorded as a flag.
- `random.randint` is a parameter. `exit()` is the status `Exited`. `bson`, the file `save.json` and `config.toml` are left out; the save file is a `SaveData` value in the game state.
- The save/load 'silent' operand only switches a toast, so it is not modelled.
- Unknown verbs and targets cannot be written in the action datatype, so the source's silent ignoring of them is not modelled.
- Widgets half-mounted when a handler raises are not modelled. A crash keeps the state as mutated up to that point.
- The code addresses a button by the exit's original index (main.py:551, 798).
- Inventory 'add' is followed by `if` rather than `elif` (main.py:998). This has no effect, because the verbs are distinct.
- Python integers are unbounded, as Dafny's are. No width is modelled.
- `Expressions.Value` has no floats. An operand such as `('variables', 'inc', ('x', 0.5))`, or a formula using true division, cannot be written.
- The 'add-many' verbs apply `int(item[1])` (main.py:999, 1011), which parses a string and truncates a float. The model's count is already an `int`.
- `on_button_pressed` runs as a Textual worker (`@work`, main.py:672), so two presses can interleave at their `await`s. The model's handlers are atomic.
- Session.QuestApp.constructor: `compose()` sets `player.current` to `first` when the menu is built (main.py:667). The model leaves it `None`; 'start' and the loads overwrite it before anything reads it.
- `scenes_en.py` defines no `MY_VARS`, `ITEMS` or `EMPTY`. `Fixtures.Story0` supplies an empty `MY_VARS`, an `ITEMS` entry for Money and an `EMPTY` label.
- The id of `game_over` is `over`, which is not the name it is stored under. A save taken on that scene therefore cannot be loaded, which is why `Behaviour.Reloadable` asks a scene to be stored under its own id.
- Session.QuestApp.SaveSnapshot: the save action (main.py:1119) reads `self.history`, which only a load ever assigns. The model uses the player's history for both save paths.

## Findings

| source | as written | input that shows it | evidently intended | confidence | as-written member | corrected member |
|---|---|---|---|---|---|---|
| scenes/scenes_en.py:44-46 | The game-over exits target `'SYS.RESTART'` without the `'!'` prefix. main.py:804-812 then evaluates `scenes.scenes_en.SYS.RESTART`, and `scenes_en` has no `SYS`, so the press raises `AttributeError`. | Press any exit of the game-over screen. | `'!SYS.RESTART'`, which evaluates to `SYSTEM_SCENES.RESTART` and restarts the game. | high, not executed | Fixtures.GameOverExitCrashes | Fixtures.GameOverFixedRestarts |
| main.py:736 | The loads assign the saved history to `self.history` (main.py:736, 766, 1100). Saving from the button (704) and the history append (1186) use `self.player.history`, so a load leaves the player's history as it was. | Save on `first` with an empty history, enter `give`, load: the player's history is still `[give]`. | A load restores the player's history. | medium, not executed | Behaviour.RestoreAsWrittenBreaksRoundTrip | Behaviour.RestoreCapture |
