/**
 * `QuestApp` of main.py as an object: the player, the modifier list, the
 * variables dictionary, what is mounted, and the save file. Its methods
 * change these fields step by step as the handlers do; each is proved to
 * leave exactly the state the matching transition of module Engine
 * computes, so the properties proved there hold of them.
 */
module Session {
  import opened Wrappers
  import opened Counting
  import opened Lists
  import opened Expressions
  import opened Classes
  import opened Resolver
  import opened Engine

  class QuestApp {
    const story: Story
    var player: Player
    var modifiers: seq<Mod>
    var variables: map<string, Value>
    var screen: Screen
    var saved: Option<SaveData>

    /** The application's state as a value. */
    function State(): Game
      reads this, player
    {
      Game(player.State(), modifiers, variables, screen, saved)
    }

    /**
     * The application at its main menu: the class-level `Player()` with an
     * empty history (main.py:257-259), no modifiers, no variables, and
     * whatever save file is on disk.
     */
    constructor (story: Story, saveFile: Option<SaveData>)
      ensures this.story == story
      ensures State() == Game(PlayerState(None, [], None, []), [], map[], Menu, saveFile)
      ensures fresh(player)
    {
      this.story := story;
      player := new Player();
      modifiers, variables, screen, saved := [], map[], Menu, saveFile;
    }

    /** `modifiers_dict`: modifier -> number of occurrences, keys in first-occurrence order. */
    method ModifiersDict() returns (d: Tally<Mod>)
      ensures d == TallyOf(modifiers)
    {
      d := CountOccurrences(modifiers);
    }

    /** The `MY_VARS` loop: store each formula's value in turn; the first formula that raises stops it. */
    method RunMyVars(rnum: int) returns (failed: Option<string>)
      modifies this
      ensures (State(), failed) == WithMyVars(old(State()), story, rnum)
      ensures player == old(player)
    {
      var formulas := story.myVars;
      var i := 0;
      while i < |formulas|
        invariant 0 <= i <= |formulas|
        invariant player == old(player)
        invariant State() == old(State()).(variables := variables)
        invariant AssignMyVars(SnapshotOf(State(), rnum), formulas[i..])
          == AssignMyVars(SnapshotOf(old(State()), rnum), formulas)
      {
        assert formulas[i..][0] == formulas[i] && formulas[i..][1..] == formulas[i + 1..];
        var (name, formula) := formulas[i];
        match EvalExpr(formula, SnapshotOf(State(), rnum))
        case None =>
          return Some(name);
        case Some(v) =>
          variables := variables[name := v];
        i := i + 1;
      }
      failed := None;
    }

    /** The three override loops and the two addition loops for the scene's text, picture and speaker. */
    method ResolvePresentation(scene: Scene, s: Snapshot) returns (picture: Option<string>, text: Rendered, speaker: string)
      ensures picture == Picture(scene, story.globalImages, s)
      ensures text == SceneText(scene, story, s)
      ensures speaker == Speaker(scene, s)
    {
      var t := ResolveOverride(scene.text, scene.ifTexts, s);
      t := AppendAdditions(t + "\n", scene.ifTextAdditions, s);
      t := AppendAdditions(t, story.globalAdditions, s);
      var img := ResolveOverride(scene.image, scene.ifImages, s);
      img := ResolveOverride(img, story.globalImages, s);
      picture := if scene.image != "" then Some(img) else None;
      text := Rendered(t, scene.sanitize, scene.enableFormatting);
      speaker := ResolveOverride(scene.speaker, scene.ifSpeakers, s);
    }

    /** `compose_game_screen(id)`; it does not run the scene's on-enter actions. */
    method ComposeGameScreen(id: string, rnum: int) returns (status: Status)
      modifies this, player
      ensures Step(State(), status) == Compose(old(State()), story, id, rnum)
      ensures player == old(player)
    {
      var target := Resolve(story, id);
      if target.None? {
        return Crashed(UnknownScene(id));
      }
      var scene := target.value;
      player.current := Some(scene);
      var failed := RunMyVars(rnum);
      if failed.Some? {
        return Crashed(BadFormula(failed.value));
      }
      var s := SnapshotOf(State(), rnum);
      var picture, text, speaker := ResolvePresentation(scene, s);
      var named := LocalizedInventory(player.inventory, story.items, story.emptyLabel);
      if named.None? {
        return Crashed(UnnamedItem);
      }
      var panel := named.value;
      if story.utiliseInventory {
        panel := player.InventoryWithCount();
      }
      var buttons := FilterExits(scene, s);
      screen := Showing(View(picture, text, speaker, panel, buttons));
      status := Continue;
    }

    /** The 'start' button: remove the menu and compose `first`. */
    method StartGame(rnum: int) returns (status: Status)
      modifies this, player
      ensures Step(State(), status) == Start(old(State()), story, rnum)
      ensures player == old(player)
    {
      screen := Cleared;
      status := ComposeGameScreen(FirstScene, rnum);
    }

    /** Writing the snapshot to save.json (the 'save' button and the 'save' action). */
    method SaveSnapshot() returns (status: Status)
      modifies this
      ensures Step(State(), status) == Save(old(State()))
      ensures player == old(player)
    {
      if player.current.None? {
        return Crashed(NoCurrentScene);
      }
      saved := Some(SaveData(player.current.value.id, player.inventory,
        if player.previous.Some? then player.previous.value.id else "",
        modifiers, variables, player.history));
      status := Return;
    }

    /**
     * Reading save.json back into the player, the modifiers and the variables.
     * main.py assigns the restored history to an attribute of the application
     * (`self.history`, main.py:736 and 1119) while saving and entering a scene
     * use the player's; this model keeps the single history of the player.
     */
    method RestoreSnapshot(d: SaveData) returns (status: Status)
      modifies this, player
      ensures Step(State(), status) == Restore(old(State()), story, d)
      ensures player == old(player)
    {
      if d.current !in story.scenes {
        return Crashed(UnknownScene(d.current));
      }
      player.current := Some(story.scenes[d.current]);
      player.inventory := d.inventory;
      if d.previous != "" && d.previous !in story.scenes {
        return Crashed(UnknownScene(d.previous));
      }
      player.previous := if d.previous == "" then None else Some(story.scenes[d.previous]);
      modifiers := d.modifiers;
      variables := d.variables;
      player.history := d.history;
      status := Continue;
    }

    /** The 'load' action, and the main menu's load button: restore, clear the screen, compose the saved scene. */
    method LoadSnapshot(rnum: int) returns (status: Status)
      modifies this, player
      ensures Step(State(), status) == Load(old(State()), story, rnum)
      ensures player == old(player)
    {
      if saved.None? {
        return Crashed(NoSaveFile);
      }
      var d := saved.value;
      status := RestoreSnapshot(d);
      if !status.Continue? {
        return;
      }
      screen := Cleared;
      status := ComposeGameScreen(d.current, rnum);
      if status.Continue? {
        status := Return;
      }
    }

    /** The 'load' button of the game screen, which redraws the inventory label before it recomposes. */
    method LoadButtonPressed(rnum: int) returns (status: Status)
      modifies this, player
      ensures Step(State(), status) == LoadButton(old(State()), story, rnum)
    {
      if saved.None? {
        return Crashed(NoSaveFile);
      }
      var d := saved.value;
      status := RestoreSnapshot(d);
      if !status.Continue? {
        return;
      }
      if LocalizedInventory(player.inventory, story.items, story.emptyLabel).None? {
        return Crashed(UnnamedItem);
      }
      screen := Cleared;
      status := ComposeGameScreen(d.current, rnum);
      if status.Continue? {
        status := Return;
      }
    }

    /**
     * The 'restart' action: a new Player at `first`, a new screen, and only
     * then empty modifiers and variables.
     */
    method RestartGame(rnum: int) returns (status: Status)
      modifies this
      ensures Step(State(), status) == Restart(old(State()), story, rnum)
      ensures fresh(player)
    {
      var p := new Player();
      player := p;
      if FirstScene !in story.scenes {
        return Crashed(UnknownScene(FirstScene));
      }
      p.current := Some(story.scenes[FirstScene]);
      screen := Cleared;
      status := ComposeGameScreen(FirstScene, rnum);
      if !status.Continue? {
        return;
      }
      modifiers := [];
      variables := map[];
      status := Return;
    }

    /** One on-enter action, dispatched on its target and verb. */
    method ApplyAction(a: Action, rnum: int, rnum2: int) returns (status: Status)
      modifies this, player
      ensures Step(State(), status) == Apply(old(State()), a, story, rnum, rnum2)
      ensures player == old(player) || fresh(player)
    {
      match a
      case OnInventory(op) =>
        var r := ApplyToInventory(player.inventory, op);
        if r.None? {
          return Crashed(NotInList);
        }
        player.inventory := r.value;
        status := Continue;
      case OnModifiers(op) =>
        var r := ApplyToModifiers(modifiers, op);
        if r.None? {
          return Crashed(NotInList);
        }
        modifiers := r.value;
        status := Continue;
      case OnVariables(op) =>
        var r := ApplyToVariables(variables, op, SnapshotOf(State(), rnum));
        if r.Err? {
          return Crashed(r.error);
        }
        variables := r.value;
        status := Continue;
      case OnGame(op) =>
        match op
        case ExitGame =>
          status := Exited;
        case Goto(target) =>
          screen := Cleared;
          status := ComposeGameScreen(target, rnum2);
          if status.Continue? {
            status := Return;
          }
        case RestartGame =>
          status := RestartGame(rnum2);
        case DestroyScreen =>
          screen := Cleared;
          status := Return;
        case LoadGame =>
          status := LoadSnapshot(rnum2);
        case SaveGame =>
          status := SaveSnapshot();
        case Notify(_) =>
          status := Continue;
    }

    /**
     * The on-enter loop: each condition is evaluated on the current state;
     * an action that does not end normally ends the loop.
     */
    method RunOnEnter(entries: seq<Entry>, rnum: int, rnum2: int) returns (status: Status)
      modifies this, player
      ensures Step(State(), status) == RunActions(old(State()), entries, story, rnum, rnum2)
      ensures player == old(player) || fresh(player)
    {
      var i := 0;
      while i < |entries|
        invariant 0 <= i <= |entries|
        invariant player == old(player) || fresh(player)
        invariant RunActions(State(), entries[i..], story, rnum, rnum2)
          == RunActions(old(State()), entries, story, rnum, rnum2)
      {
        assert entries[i..][0] == entries[i] && entries[i..][1..] == entries[i + 1..];
        if Eval(entries[i].cond, SnapshotOf(State(), rnum)) {
          status := ApplyAction(entries[i].action, rnum, rnum2);
          if !status.Continue? {
            return;
          }
        }
        i := i + 1;
      }
      status := Continue;
    }

    /**
     * `on_button_pressed` for exit button `i`: the exit is `exits[i]` of the
     * full list; the scene left becomes previous; then text, picture and
     * speaker, the on-enter loop, the inventory label and the exits, and the
     * history append.
     */
    method PressExit(i: nat, rnum: int, rnum2: int) returns (status: Status)
      requires player.current.Some? && screen.Showing?
      modifies this, player
      ensures Step(State(), status) == Press(old(State()), story, i, rnum, rnum2)
    {
      var here := player.current.value;
      if i >= |here.exits| {
        return Crashed(NoSuchExit(i));
      }
      var target := here.exits[i].target;
      player.previous := Some(here);
      if target == ExitTarget {
        return Exited;
      }
      var resolved := Resolve(story, target);
      if resolved.None? {
        return Crashed(UnknownScene(target));
      }
      var scene := resolved.value;
      player.current := Some(scene);
      var failed := RunMyVars(rnum);
      if failed.Some? {
        return Crashed(BadFormula(failed.value));
      }
      var picture, text, speaker := ResolvePresentation(scene, SnapshotOf(State(), rnum));
      var view := screen.view.(picture := picture, text := text, speaker := speaker);
      screen := Showing(view);
      status := RunOnEnter(scene.onEnter, rnum, rnum2);
      if !status.Continue? {
        return;
      }
      var named := LocalizedInventory(player.inventory, story.items, story.emptyLabel);
      if named.None? {
        return Crashed(UnnamedItem);
      }
      var buttons := FilterExits(scene, SnapshotOf(State(), rnum));
      screen := Showing(view.(inventory := named.value, buttons := buttons));
      player.history := player.history + [scene];
    }
  }
}
