/**
 * The session controller of main.py (`QuestApp`) as pure transitions on a
 * value `Game`: building the game screen for a scene, choosing an exit,
 * the on-enter action pass, restart, and the save/load snapshot. The class
 * in module Session performs the same transitions in place; each of its
 * methods is proved equal to the function here.
 *
 * A Python exception ends the handler with the state as far as it was
 * mutated: such a step returns status `Crashed` with that state.
 */
module Engine {
  import opened Wrappers
  import opened Counting
  import opened Text
  import opened Lists
  import opened Expressions
  import opened Classes
  import opened Resolver

  /** The scene a new game, and a restart, begins with. */
  const FirstScene: string := "first"

  /** The reserved exit target that ends the program. */
  const ExitTarget: string := "EXIT"

  /** The target expression of the one system scene, `SYS.RESTART`. */
  const RestartTarget: string := "!SYS.RESTART"

  /** `SYSTEM_SCENES.RESTART`: no exits; entering it restarts the game. */
  const RestartScene: Scene :=
    Scene("RESTART", "RESTART", "RESTART", [], onEnter := [Entry(OnGame(RestartGame), Always)])

  /** The tables of one language module `scenes_<lang>` and the configuration flag the core reads. */
  datatype Story = Story(
    scenes: map<string, Scene>,      // the module's Scene variables, by variable name
    globalAdditions: seq<Guarded>,   // GLOBAL_ADDITIONS
    globalImages: seq<Guarded>,      // GLOBAL_IMAGES
    myVars: seq<(string, Expr)>,     // MY_VARS, in dictionary order
    items: map<string, string>,      // ITEMS: item -> displayed name
    emptyLabel: string,              // EMPTY
    utiliseInventory: bool)          // UTILISE_INVENTORY

  /** The widgets of the game screen that the core fills in. */
  datatype View = View(
    picture: Option<string>,   // ImageBar: the image file shown, None for no image
    text: Rendered,            // MainText.text
    speaker: string,           // MainText.speaker
    inventory: string,         // MainText.inventory
    buttons: seq<Button>)      // the exit buttons

  /** What is mounted: the main menu, nothing (after `destroy_game_screen`), or the game screen. */
  datatype Screen = Menu | Cleared | Showing(view: View)

  /** The contents of save.json. `previous` is "" when there is no previous scene. */
  datatype SaveData = SaveData(
    current: string,
    inventory: seq<string>,
    previous: string,
    modifiers: seq<Mod>,
    variables: map<string, Value>,
    history: seq<Scene>)

  /** The state of the application: player, modifiers, variables, screen and save file. */
  datatype Game = Game(
    player: PlayerState,
    modifiers: seq<Mod>,
    variables: map<string, Value>,
    screen: Screen,
    saved: Option<SaveData>)

  /** The exceptions the core can raise. */
  datatype Error =
    | UnknownScene(name: string)     // a scene name the language module does not define
    | BadFormula(name: string)       // a MY_VARS formula or 'set' expression raised
    | UnnamedItem                    // ITEMS has no entry for an inventory item
    | NotInList                      // 'remove' of an absent element
    | MissingVariable(name: string)  // 'remove', 'inc' or 'dec' of an absent variable
    | BadOperands(name: string)      // 'inc' or 'dec' on values Python cannot add or subtract
    | NoSaveFile                     // 'load' before anything was saved
    | NoCurrentScene                 // 'save' with no current scene
    | NoSuchExit(index: nat)         // a button index past the scene's exits

  datatype Result<T> = Ok(value: T) | Err(error: Error)

  /**
   * How a step ends: normally (the pass goes on), by `return` out of the
   * handler, by `exit()`, or by an exception.
   */
  datatype Status = Continue | Return | Exited | Crashed(error: Error)

  datatype Step = Step(game: Game, status: Status)

  function IdOf(s: Option<Scene>): Option<string> {
    if s.Some? then Some(s.value.id) else None
  }

  /** The names a condition or formula sees, for the random draw `rnum`. */
  function SnapshotOf(g: Game, rnum: int): Snapshot {
    Snapshot(g.player.inventory, g.modifiers, g.variables, IdOf(g.player.current), IdOf(g.player.previous), rnum)
  }

  /**
   * The scene a target expression names: `!SYS.RESTART` is the system
   * scene, any other name is looked up in the language module.
   */
  function Resolve(story: Story, target: string): Option<Scene> {
    if target == RestartTarget then Some(RestartScene)
    else if |target| > 0 && target[0] != '!' && target in story.scenes then Some(story.scenes[target])
    else None
  }

  /** The result of the `MY_VARS` loop: the variables, and the name whose formula raised, if any. */
  datatype Assignment = Assignment(vars: map<string, Value>, failed: Option<string>)

  /**
   * The `MY_VARS` loop: each formula is evaluated in turn and stored
   * into the variables, so later formulas see earlier results.
   */
  function AssignMyVars(s: Snapshot, formulas: seq<(string, Expr)>): Assignment
    decreases |formulas|
  {
    if |formulas| == 0 then Assignment(s.vars, None)
    else
      match EvalExpr(formulas[0].1, s)
      case None => Assignment(s.vars, Some(formulas[0].0))
      case Some(v) => AssignMyVars(s.(vars := s.vars[formulas[0].0 := v]), formulas[1..])
  }

  /**
   * The inventory label with ITEMS names: `"name xN"` per distinct item, or
   * EMPTY for an empty inventory; None when an item has no ITEMS entry.
   */
  function LocalizedInventory(inventory: seq<string>, items: map<string, string>, empty: string): Option<string> {
    var t := TallyOf(inventory);
    if t.keys == [] then Some(empty)
    else if forall i :: 0 <= i < |t.keys| ==> t.keys[i] in items then
      Some(Join("\n", seq(|t.keys|, i requires 0 <= i < |t.keys| && t.keys[i] in items =>
        CountLine(items[t.keys[i]], t.Get(t.keys[i], 0)))))
    else None
  }

  /** The inventory label of a freshly composed screen: `inventory_with_count` wins under UTILISE_INVENTORY. */
  function ComposedPanel(inventory: seq<string>, story: Story): Option<string> {
    match LocalizedInventory(inventory, story.items, story.emptyLabel)
    case None => None
    case Some(named) => Some(if story.utiliseInventory then InventoryText(inventory) else named)
  }

  /** The scene's final text, escaped and formatted as its flags say. */
  function SceneText(scene: Scene, story: Story, s: Snapshot): Rendered {
    Rendered(ComposedText(scene, story.globalAdditions, s), scene.sanitize, scene.enableFormatting)
  }

  /** The MY_VARS step of both handlers, after `player.current` is set. */
  function WithMyVars(g: Game, story: Story, rnum: int): (Game, Option<string>) {
    var a := AssignMyVars(SnapshotOf(g, rnum), story.myVars);
    (g.(variables := a.vars), a.failed)
  }

  /**
   * `compose_game_screen(id)`: resolve the scene and make it current, run
   * MY_VARS, then mount picture, text, speaker, inventory label and the
   * visible exits. It does not run the scene's on-enter actions.
   */
  function Compose(g: Game, story: Story, id: string, rnum: int): Step {
    match Resolve(story, id)
    case None => Step(g, Crashed(UnknownScene(id)))
    case Some(scene) =>
      var (g1, failed) := WithMyVars(g.(player := g.player.(current := Some(scene))), story, rnum);
      if failed.Some? then Step(g1, Crashed(BadFormula(failed.value)))
      else
        var s := SnapshotOf(g1, rnum);
        match ComposedPanel(g1.player.inventory, story)
        case None => Step(g1, Crashed(UnnamedItem))
        case Some(panel) =>
          var view := View(Picture(scene, story.globalImages, s), SceneText(scene, story, s), Speaker(scene, s), panel, Visible(scene, s));
          Step(g1.(screen := Showing(view)), Continue)
  }

  /** A game action that rebuilt the screen returns from the handler, unless it crashed. */
  function Finish(st: Step): Step {
    if st.status.Continue? then Step(st.game, Return) else st
  }

  /** The inventory verbs on the list of items; None where `list.remove` raises. */
  function ApplyToInventory(inventory: seq<string>, op: ListOp): Option<seq<string>> {
    match op
    case Append(x) => Some(inventory + [x])
    case AppendMany(x, n) => Some(inventory + Repeat(x, n))
    case RemoveOne(x) => if x in inventory then Some(RemoveFirst(inventory, x)) else None
    case RemoveEvery(x) => Some(RemoveAll(inventory, x))
    case ClearList => Some([])
  }

  /**
   * The modifier verbs. 'add-many' appends the whole operand tuple
   * `(name, count)` count times, not the name.
   */
  function ApplyToModifiers(mods: seq<Mod>, op: ListOp): Option<seq<Mod>> {
    match op
    case Append(x) => Some(mods + [Flag(x)])
    case AppendMany(x, n) => Some(mods + Repeat(FlagCountPair(x, n), n))
    case RemoveOne(x) => if Flag(x) in mods then Some(RemoveFirst(mods, Flag(x))) else None
    case RemoveEvery(x) => Some(RemoveAll(mods, Flag(x)))
    case ClearList => Some([])
  }

  /** The variable verbs; `s` is what a 'set' expression sees. */
  function ApplyToVariables(vars: map<string, Value>, op: VarOp, s: Snapshot): Result<map<string, Value>> {
    match op
    case AddVar(x, v) => Ok(vars[x := v])
    case UpdateVar(x, v) => Ok(vars[x := v])
    case RemoveVar(x) => if x in vars then Ok(vars - {x}) else Err(MissingVariable(x))
    case ClearVars => Ok(map[])
    case IncVar(x, d) =>
      if x !in vars then Err(MissingVariable(x))
      else (match PyAdd(vars[x], d)
            case None => Err(BadOperands(x))
            case Some(v) => Ok(vars[x := v]))
    case DecVar(x, d) =>
      if x !in vars then Err(MissingVariable(x))
      else (match PySub(vars[x], d)
            case None => Err(BadOperands(x))
            case Some(v) => Ok(vars[x := v]))
    case SetVar(x, f) =>
      (match EvalExpr(f, s)
       case None => Err(BadFormula(x))
       case Some(v) => Ok(vars[x := v]))
  }

  /** The save snapshot of the game's state. */
  function Capture(g: Game): SaveData
    requires g.player.current.Some?
  {
    SaveData(g.player.current.value.id, g.player.inventory,
      if g.player.previous.Some? then g.player.previous.value.id else "",
      g.modifiers, g.variables, g.player.history)
  }

  /** Writing save.json; reading `player.current.id_` raises when there is no current scene. */
  function Save(g: Game): Step {
    if g.player.current.None? then Step(g, Crashed(NoCurrentScene))
    else Step(g.(saved := Some(Capture(g))), Return)
  }

  /**
   * Reading save.json back: current scene and inventory, then the previous
   * scene ("" for none), modifiers, variables and history.
   */
  function Restore(g: Game, story: Story, d: SaveData): Step {
    if d.current !in story.scenes then Step(g, Crashed(UnknownScene(d.current)))
    else
      var g1 := g.(player := g.player.(current := Some(story.scenes[d.current]), inventory := d.inventory));
      if d.previous != "" && d.previous !in story.scenes then Step(g1, Crashed(UnknownScene(d.previous)))
      else
        var previous := if d.previous == "" then None else Some(story.scenes[d.previous]);
        Step(g1.(player := g1.player.(previous := previous, history := d.history),
                 modifiers := d.modifiers, variables := d.variables), Continue)
  }

  /**
   * Restore as main.py writes it: the saved history is assigned to an
   * attribute of the application, not to the player, so the player's
   * history is left as it was.
   */
  function RestoreAsWritten(g: Game, story: Story, d: SaveData): (r: Step)
    ensures r.game.player.history == g.player.history
    ensures r.game.(player := r.game.player.(history := Restore(g, story, d).game.player.history)) == Restore(g, story, d).game
    ensures r.status == Restore(g, story, d).status
  {
    var r := Restore(g, story, d);
    Step(r.game.(player := r.game.player.(history := g.player.history)), r.status)
  }

  /** The 'load' action: restore the snapshot, clear the game screen and compose the saved scene. */
  function Load(g: Game, story: Story, rnum: int): Step {
    if g.saved.None? then Step(g, Crashed(NoSaveFile))
    else
      var r := Restore(g, story, g.saved.value);
      if !r.status.Continue? then r
      else Finish(Compose(r.game.(screen := Cleared), story, g.saved.value.current, rnum))
  }

  /**
   * The 'restart' action: a fresh Player whose current scene is `first`,
   * a new game screen, and then empty modifiers and variables. The screen
   * is composed before the modifiers and variables are emptied, so it is
   * built from the old ones.
   */
  function Restart(g: Game, story: Story, rnum: int): Step {
    var newPlayer := PlayerState(None, [], None, []);
    if FirstScene !in story.scenes then Step(g.(player := newPlayer), Crashed(UnknownScene(FirstScene)))
    else
      var g1 := g.(player := newPlayer.(current := Some(story.scenes[FirstScene])), screen := Cleared);
      var c := Compose(g1, story, FirstScene, rnum);
      if !c.status.Continue? then c
      else Step(c.game.(modifiers := [], variables := map[]), Return)
  }

  /** The verbs of target 'game'; `rnum` is the draw of the screen they compose. */
  function ApplyGame(g: Game, op: GameOp, story: Story, rnum: int): Step {
    match op
    case ExitGame => Step(g, Exited)
    case Goto(target) => Finish(Compose(g.(screen := Cleared), story, target, rnum))
    case RestartGame => Restart(g, story, rnum)
    case DestroyScreen => Step(g.(screen := Cleared), Return)
    case LoadGame => Load(g, story, rnum)
    case SaveGame => Save(g)
    case Notify(_) => Step(g, Continue)
  }

  /**
   * One on-enter action. `rnum` is the handler's draw, seen by 'set';
   * `rnum2` is the draw of a screen that 'goto', 'restart' or 'load' composes.
   */
  function Apply(g: Game, a: Action, story: Story, rnum: int, rnum2: int): Step {
    match a
    case OnInventory(op) =>
      (match ApplyToInventory(g.player.inventory, op)
       case None => Step(g, Crashed(NotInList))
       case Some(inventory) => Step(g.(player := g.player.(inventory := inventory)), Continue))
    case OnModifiers(op) =>
      (match ApplyToModifiers(g.modifiers, op)
       case None => Step(g, Crashed(NotInList))
       case Some(mods) => Step(g.(modifiers := mods), Continue))
    case OnVariables(op) =>
      (match ApplyToVariables(g.variables, op, SnapshotOf(g, rnum))
       case Err(e) => Step(g, Crashed(e))
       case Ok(vars) => Step(g.(variables := vars), Continue))
    case OnGame(op) => ApplyGame(g, op, story, rnum2)
  }

  /**
   * The on-enter pass: each entry's condition is evaluated on the state
   * left by the entries before it; the first action that does not end
   * normally ends the pass.
   */
  function RunActions(g: Game, entries: seq<Entry>, story: Story, rnum: int, rnum2: int): Step
    decreases |entries|
  {
    if |entries| == 0 then Step(g, Continue)
    else if Eval(entries[0].cond, SnapshotOf(g, rnum)) then
      var st := Apply(g, entries[0].action, story, rnum, rnum2);
      if st.status.Continue? then RunActions(st.game, entries[1..], story, rnum, rnum2) else st
    else RunActions(g, entries[1..], story, rnum, rnum2)
  }

  /**
   * Entering `scene` from an exit button: make it current, run MY_VARS,
   * redraw picture, text and speaker, run the on-enter pass and, if the
   * pass ended normally, redraw the inventory label and the exits and
   * append the scene to the history.
   */
  function Enter(g: Game, story: Story, scene: Scene, rnum: int, rnum2: int): Step
    requires g.screen.Showing?
  {
    var (g1, failed) := WithMyVars(g.(player := g.player.(current := Some(scene))), story, rnum);
    if failed.Some? then Step(g1, Crashed(BadFormula(failed.value)))
    else
      var s := SnapshotOf(g1, rnum);
      var view := g1.screen.view.(picture := Picture(scene, story.globalImages, s),
                                  text := SceneText(scene, story, s), speaker := Speaker(scene, s));
      var run := RunActions(g1.(screen := Showing(view)), scene.onEnter, story, rnum, rnum2);
      if !run.status.Continue? then run
      else
        var h := run.game;
        match LocalizedInventory(h.player.inventory, story.items, story.emptyLabel)
        case None => Step(h, Crashed(UnnamedItem))
        case Some(named) =>
          var view' := view.(inventory := named, buttons := Visible(scene, SnapshotOf(h, rnum)));
          Step(h.(screen := Showing(view'), player := h.player.(history := h.player.history + [scene])), Continue)
  }

  /**
   * Pressing exit button `i` of the current scene. The index is the
   * exit's position in the scene's full exit list. The current scene
   * becomes the previous one before the target is looked at.
   */
  function Press(g: Game, story: Story, i: nat, rnum: int, rnum2: int): Step
    requires g.player.current.Some? && g.screen.Showing?
  {
    var here := g.player.current.value;
    if i >= |here.exits| then Step(g, Crashed(NoSuchExit(i)))
    else
      var target := here.exits[i].target;
      var g1 := g.(player := g.player.(previous := Some(here)));
      if target == ExitTarget then Step(g1, Exited)
      else
        match Resolve(story, target)
        case None => Step(g1, Crashed(UnknownScene(target)))
        case Some(scene) => Enter(g1, story, scene, rnum, rnum2)
  }

  /** The 'start' button of the main menu: remove the menu and compose `first`. */
  function Start(g: Game, story: Story, rnum: int): Step {
    Compose(g.(screen := Cleared), story, FirstScene, rnum)
  }

  /**
   * The 'load' button of the game screen: restore the snapshot, redraw
   * the inventory label (which raises on an item ITEMS does not name),
   * then clear the screen and compose the saved scene.
   */
  function LoadButton(g: Game, story: Story, rnum: int): Step {
    if g.saved.None? then Step(g, Crashed(NoSaveFile))
    else
      var r := Restore(g, story, g.saved.value);
      if !r.status.Continue? then r
      else if LocalizedInventory(r.game.player.inventory, story.items, story.emptyLabel).None? then
        Step(r.game, Crashed(UnnamedItem))
      else Finish(Compose(r.game.(screen := Cleared), story, g.saved.value.current, rnum))
  }
}
