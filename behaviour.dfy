/**
 * What the session controller promises: the effect of each on-enter verb,
 * the order and short-circuiting of the on-enter pass, the history
 * append, exit choice, restart, the MY_VARS loop and the save/load round
 * trip.
 */
module Behaviour {
  import opened Wrappers
  import opened Counting
  import opened Text
  import opened Lists
  import opened Expressions
  import opened Classes
  import opened Resolver
  import opened Engine

  // ---------------------------------------------------------------------
  // Inventory and modifier verbs
  // ---------------------------------------------------------------------

  /** Inventory 'add' raises the item's count by one and leaves every other count and item in place. */
  lemma InventoryAdd(inventory: seq<string>, x: string)
    ensures var r := ApplyToInventory(inventory, Append(x));
      r.Some? && r.value[..|inventory|] == inventory && |r.value| == |inventory| + 1
      && TallyOf(r.value).Get(x, 0) == TallyOf(inventory).Get(x, 0) + 1
      && forall y :: y != x ==> TallyOf(r.value).Get(y, 0) == TallyOf(inventory).Get(y, 0)
  {
    AppendBumpsOneCount(inventory, x);
    assert (inventory + [x])[..|inventory|] == inventory;
  }

  /**
   * Inventory 'add-many' keeps the items there were and adds exactly
   * `max(n, 0)` copies of the item after them.
   */
  lemma InventoryAddMany(inventory: seq<string>, x: string, n: int)
    ensures var r := ApplyToInventory(inventory, AppendMany(x, n));
      r.Some? && r.value[..|inventory|] == inventory
      && multiset(r.value) == multiset(inventory) + multiset{}[x := if n < 0 then 0 else n]
      && forall i :: |inventory| <= i < |r.value| ==> r.value[i] == x
  {
    RepeatCounts(x, n);
    var r := inventory + Repeat(x, n);
    assert r[..|inventory|] == inventory;
    assert forall i :: |inventory| <= i < |r| ==> r[i] == Repeat(x, n)[i - |inventory|];
  }

  /**
   * Inventory 'remove' takes away exactly the first occurrence of the
   * item, and fails (`list.remove` raises) when the item is absent.
   */
  lemma InventoryRemove(inventory: seq<string>, x: string)
    ensures ApplyToInventory(inventory, RemoveOne(x)).None? <==> x !in inventory
    ensures x in inventory ==>
      var k := FirstIndex(inventory, x);
      ApplyToInventory(inventory, RemoveOne(x)) == Some(inventory[..k] + inventory[k + 1..])
      && multiset(ApplyToInventory(inventory, RemoveOne(x)).value) == multiset(inventory) - multiset{x}
  {
    if x in inventory {
      RemoveFirstCounts(inventory, x);
    }
  }

  /** Inventory 'remove-all' leaves no copy of the item and every other count as it was. */
  lemma InventoryRemoveAll(inventory: seq<string>, x: string)
    ensures var r := ApplyToInventory(inventory, RemoveEvery(x));
      r.Some? && x !in r.value
      && (forall y :: y != x ==> TallyOf(r.value).Get(y, 0) == TallyOf(inventory).Get(y, 0))
      && (x !in inventory ==> r.value == inventory)
  {
    var r := RemoveAll(inventory, x);
    RemoveAllCounts(inventory, x);
    TallyContents(inventory);
    TallyContents(r);
    if x !in inventory {
      RemoveAllAbsent(inventory, x);
    }
  }

  /** 'remove-all' keeps the other items in their order: it distributes over a split of the list. */
  lemma InventoryRemoveAllKeepsOrder(a: seq<string>, b: seq<string>, x: string)
    ensures ApplyToInventory(a + b, RemoveEvery(x)).value
      == ApplyToInventory(a, RemoveEvery(x)).value + ApplyToInventory(b, RemoveEvery(x)).value
  {
    RemoveAllConcat(a, b, x);
  }

  /** Inventory 'clear' empties the list, and clearing twice is clearing once. */
  lemma InventoryClear(inventory: seq<string>)
    ensures ApplyToInventory(inventory, ClearList) == Some([])
    ensures ApplyToInventory(ApplyToInventory(inventory, ClearList).value, ClearList)
      == ApplyToInventory(inventory, ClearList)
    ensures TallyOf(ApplyToInventory(inventory, ClearList).value).keys == []
  {
  }

  /**
   * Modifier 'add-many' appends the operand tuple, `n` times: the count of
   * the plain flag does not change, so `"x" in mods` is unaffected.
   */
  lemma ModifierAddManyAppendsTuple(mods: seq<Mod>, x: string, n: int)
    ensures var r := ApplyToModifiers(mods, AppendMany(x, n));
      r.Some? && r.value[..|mods|] == mods
      && Count(r.value, Flag(x)) == Count(mods, Flag(x))
      && Count(r.value, FlagCountPair(x, n)) == Count(mods, FlagCountPair(x, n)) + (if n < 0 then 0 else n)
      && (Flag(x) in r.value <==> Flag(x) in mods)
  {
    var r := mods + Repeat(FlagCountPair(x, n), n);
    RepeatCounts(FlagCountPair(x, n), n);
    assert r[..|mods|] == mods;
    assert multiset(r) == multiset(mods) + multiset(Repeat(FlagCountPair(x, n), n));
  }

  /** Modifier 'add' and 'remove' work on the plain flag, one occurrence at a time. */
  lemma ModifierAddRemove(mods: seq<Mod>, x: string)
    ensures ApplyToModifiers(mods, Append(x)) == Some(mods + [Flag(x)])
    ensures Count(ApplyToModifiers(mods, Append(x)).value, Flag(x)) == Count(mods, Flag(x)) + 1
    ensures ApplyToModifiers(mods, RemoveOne(x)).None? <==> Flag(x) !in mods
    ensures Flag(x) in mods ==>
      multiset(ApplyToModifiers(mods, RemoveOne(x)).value) == multiset(mods) - multiset{Flag(x)}
    ensures multiset(ApplyToModifiers(ApplyToModifiers(mods, Append(x)).value, RemoveOne(x)).value) == multiset(mods)
  {
    assert multiset(mods + [Flag(x)]) == multiset(mods) + multiset{Flag(x)};
    if Flag(x) in mods {
      RemoveFirstCounts(mods, Flag(x));
    }
    RemoveFirstCounts(mods + [Flag(x)], Flag(x));
  }

  // ---------------------------------------------------------------------
  // Variable verbs
  // ---------------------------------------------------------------------

  /** The variable a verb acts on, if it acts on one. */
  function Target(op: VarOp): Option<string> {
    match op
    case AddVar(x, _) => Some(x)
    case UpdateVar(x, _) => Some(x)
    case RemoveVar(x) => Some(x)
    case ClearVars => None
    case IncVar(x, _) => Some(x)
    case DecVar(x, _) => Some(x)
    case SetVar(x, _) => Some(x)
  }

  /** A single-key variable verb changes no other variable. */
  lemma VariableVerbsTouchOneKey(vars: map<string, Value>, op: VarOp, s: Snapshot, k: string)
    requires Target(op).Some? && k != Target(op).value
    requires ApplyToVariables(vars, op, s).Ok?
    ensures var r := ApplyToVariables(vars, op, s).value;
      (k in r <==> k in vars) && (k in vars ==> r[k] == vars[k])
  {
  }

  /**
   * 'add'/'update' store the literal and 'set' the value of its
   * expression; 'remove' deletes the key and fails when it is absent;
   * 'clear' empties the dictionary.
   */
  lemma VariableAssignments(vars: map<string, Value>, x: string, v: Value, f: Expr, s: Snapshot)
    ensures ApplyToVariables(vars, AddVar(x, v), s) == Ok(vars[x := v])
    ensures ApplyToVariables(vars, UpdateVar(x, v), s) == Ok(vars[x := v])
    ensures ApplyToVariables(vars, SetVar(x, f), s).Ok? <==> EvalExpr(f, s).Some?
    ensures EvalExpr(f, s).Some? ==> ApplyToVariables(vars, SetVar(x, f), s).value[x] == EvalExpr(f, s).value
    ensures ApplyToVariables(vars, RemoveVar(x), s).Ok? <==> x in vars
    ensures x in vars ==> x !in ApplyToVariables(vars, RemoveVar(x), s).value
    ensures ApplyToVariables(vars, ClearVars, s) == Ok(map[])
  {
  }

  /**
   * 'inc' and 'dec' raise on a missing variable and on operands Python
   * cannot combine; on numbers they add and subtract the delta, and 'inc'
   * on two strings concatenates them.
   */
  lemma IncDec(vars: map<string, Value>, x: string, d: Value, s: Snapshot)
    ensures x !in vars ==> ApplyToVariables(vars, IncVar(x, d), s) == Err(MissingVariable(x))
    ensures x !in vars ==> ApplyToVariables(vars, DecVar(x, d), s) == Err(MissingVariable(x))
    ensures x in vars && AsNumber(vars[x]).Some? && AsNumber(d).Some? ==>
      ApplyToVariables(vars, IncVar(x, d), s) == Ok(vars[x := IntV(AsNumber(vars[x]).value + AsNumber(d).value)])
      && ApplyToVariables(vars, DecVar(x, d), s) == Ok(vars[x := IntV(AsNumber(vars[x]).value - AsNumber(d).value)])
    ensures x in vars && vars[x].StrV? && d.StrV? ==>
      ApplyToVariables(vars, IncVar(x, d), s) == Ok(vars[x := StrV(vars[x].s + d.s)])
    ensures x in vars && !((AsNumber(vars[x]).Some? && AsNumber(d).Some?) || (vars[x].StrV? && d.StrV?)) ==>
      ApplyToVariables(vars, IncVar(x, d), s) == Err(BadOperands(x))
    ensures x in vars && (AsNumber(vars[x]).None? || AsNumber(d).None?) ==>
      ApplyToVariables(vars, DecVar(x, d), s) == Err(BadOperands(x))
  {
  }

  /** 'dec' undoes 'inc' by the same delta on an integer variable. */
  lemma IncThenDec(vars: map<string, Value>, x: string, n: int, d: int, s: Snapshot)
    requires x in vars && vars[x] == IntV(n)
    ensures ApplyToVariables(vars, IncVar(x, IntV(d)), s).Ok?
    ensures ApplyToVariables(ApplyToVariables(vars, IncVar(x, IntV(d)), s).value, DecVar(x, IntV(d)), s) == Ok(vars)
  {
    var up := vars[x := IntV(n + d)];
    assert up[x := IntV(n)] == vars;
  }

  // ---------------------------------------------------------------------
  // The on-enter pass
  // ---------------------------------------------------------------------

  /** `h` agrees with `g` on everything but inventory, modifiers and variables. */
  predicate SameScene(g: Game, h: Game) {
    h.player.current == g.player.current && h.player.previous == g.player.previous
    && h.player.history == g.player.history && h.screen == g.screen && h.saved == g.saved
  }

  /** The verbs that end the pass with `return`. */
  predicate EndsPass(op: GameOp) {
    op.Goto? || op.RestartGame? || op.DestroyScreen? || op.LoadGame? || op.SaveGame?
  }

  /**
   * Only the game verbs end an action abnormally on purpose: 'exit'
   * exits, 'goto'/'restart'/'destroy'/'load'/'save' return or raise, and
   * 'notify' changes nothing. An action that ends normally touches only
   * the inventory, the modifiers and the variables.
   */
  lemma ActionOutcome(g: Game, a: Action, story: Story, rnum: int, rnum2: int)
    ensures var st := Apply(g, a, story, rnum, rnum2);
      (st.status.Continue? ==> SameScene(g, st.game))
      && (a.OnGame? && EndsPass(a.gameOp) ==> st.status.Return? || st.status.Crashed?)
      && (a == OnGame(ExitGame) ==> st == Step(g, Exited))
      && (a.OnGame? && a.gameOp.Notify? ==> st == Step(g, Continue))
      && (!a.OnGame? ==> st.status.Continue? || st.status.Crashed?)
  {
  }

  /**
   * The pass runs its entries in order: running `a + b` is running `a`
   * and then, only if `a` ended normally, running `b` on the state `a`
   * left. Each condition is evaluated on the state left by the entries
   * before it.
   */
  lemma {:induction false} RunActionsConcat(g: Game, a: seq<Entry>, b: seq<Entry>, story: Story, rnum: int, rnum2: int)
    ensures var r := RunActions(g, a, story, rnum, rnum2);
      RunActions(g, a + b, story, rnum, rnum2)
        == if r.status.Continue? then RunActions(r.game, b, story, rnum, rnum2) else r
    decreases |a|
  {
    if |a| == 0 {
      assert a + b == b;
    } else {
      assert (a + b)[0] == a[0];
      assert (a + b)[1..] == a[1..] + b;
      var st := Apply(g, a[0].action, story, rnum, rnum2);
      if Eval(a[0].cond, SnapshotOf(g, rnum)) {
        if st.status.Continue? {
          RunActionsConcat(st.game, a[1..], b, story, rnum, rnum2);
        }
      } else {
        RunActionsConcat(g, a[1..], b, story, rnum, rnum2);
      }
    }
  }

  /**
   * An entry whose condition holds and whose verb ends the pass is the
   * last one that runs: the entries after it are never looked at.
   */
  lemma ShortCircuit(g: Game, e: Entry, rest: seq<Entry>, story: Story, rnum: int, rnum2: int)
    requires e.action.OnGame? && EndsPass(e.action.gameOp)
    requires Eval(e.cond, SnapshotOf(g, rnum))
    ensures RunActions(g, [e] + rest, story, rnum, rnum2) == Apply(g, e.action, story, rnum, rnum2)
    ensures !RunActions(g, [e] + rest, story, rnum, rnum2).status.Continue?
  {
    assert ([e] + rest)[0] == e;
    ActionOutcome(g, e.action, story, rnum, rnum2);
  }

  /** A pass that ends normally leaves the scene, the history, the screen and the save file as they were. */
  lemma {:induction false} PassKeepsScene(g: Game, entries: seq<Entry>, story: Story, rnum: int, rnum2: int)
    ensures var r := RunActions(g, entries, story, rnum, rnum2);
      r.status.Continue? ==> SameScene(g, r.game)
    decreases |entries|
  {
    if |entries| > 0 {
      var st := Apply(g, entries[0].action, story, rnum, rnum2);
      ActionOutcome(g, entries[0].action, story, rnum, rnum2);
      if Eval(entries[0].cond, SnapshotOf(g, rnum)) {
        PassKeepsScene(st.game, entries[1..], story, rnum, rnum2);
      } else {
        PassKeepsScene(g, entries[1..], story, rnum, rnum2);
      }
    }
  }

  /** The verbs that replace the history: 'restart' empties it and 'load' restores the saved one. */
  predicate ResetsHistory(a: Action) {
    a == OnGame(RestartGame) || a == OnGame(LoadGame)
  }

  /** Without 'restart' or 'load', a pass never changes the history, however it ends. */
  lemma {:induction false} PassKeepsHistory(g: Game, entries: seq<Entry>, story: Story, rnum: int, rnum2: int)
    requires forall k :: 0 <= k < |entries| ==> !ResetsHistory(entries[k].action)
    ensures RunActions(g, entries, story, rnum, rnum2).game.player.history == g.player.history
    decreases |entries|
  {
    if |entries| > 0 {
      var st := Apply(g, entries[0].action, story, rnum, rnum2);
      assert !ResetsHistory(entries[0].action);
      assert st.game.player.history == g.player.history;
      if Eval(entries[0].cond, SnapshotOf(g, rnum)) {
        if st.status.Continue? {
          PassKeepsHistory(st.game, entries[1..], story, rnum, rnum2);
        }
      } else {
        PassKeepsHistory(g, entries[1..], story, rnum, rnum2);
      }
    }
  }

  // ---------------------------------------------------------------------
  // Building the game screen
  // ---------------------------------------------------------------------

  /**
   * `compose_game_screen`: an unknown scene name raises before anything
   * changes; otherwise the scene becomes current, only MY_VARS touches the
   * variables, nothing else of the player or the modifiers changes (its
   * on-enter actions do not run), and on success the screen shows the
   * scene's text, speaker, picture and visible exits as resolved against
   * the resulting state.
   */
  lemma ComposeOutcome(g: Game, story: Story, id: string, rnum: int)
    ensures Resolve(story, id).None? ==> Compose(g, story, id, rnum) == Step(g, Crashed(UnknownScene(id)))
    ensures Resolve(story, id).Some? ==>
      var scene := Resolve(story, id).value;
      var c := Compose(g, story, id, rnum);
      var a := AssignMyVars(SnapshotOf(g.(player := g.player.(current := Some(scene))), rnum), story.myVars);
      c.game.player == g.player.(current := Some(scene)) && c.game.modifiers == g.modifiers
      && c.game.saved == g.saved && c.game.variables == a.vars
      && (c.status.Continue? <==> a.failed.None? && ComposedPanel(g.player.inventory, story).Some?)
      && (c.status.Continue? ==>
            var s := SnapshotOf(c.game, rnum);
            c.game.screen == Showing(View(Picture(scene, story.globalImages, s), SceneText(scene, story, s),
              Speaker(scene, s), ComposedPanel(g.player.inventory, story).value, Visible(scene, s))))
      && (!c.status.Continue? ==> c.game.screen == g.screen && c.status.Crashed?)
  {
  }

  /** A 'goto' builds the target's screen without running the target's on-enter actions. */
  lemma GotoSkipsEntryActions(g: Game, target: string, story: Story, rnum: int, rnum2: int)
    requires Resolve(story, target).Some?
    ensures var st := Apply(g, OnGame(Goto(target)), story, rnum, rnum2);
      st.game.player == g.player.(current := Resolve(story, target))
      && st.game.modifiers == g.modifiers
      && (st.status.Return? || st.status.Crashed?)
  {
    ComposeOutcome(g.(screen := Cleared), story, target, rnum2);
  }

  // ---------------------------------------------------------------------
  // MY_VARS
  // ---------------------------------------------------------------------

  /**
   * The MY_VARS loop is sequential: running `a + b` is running `a` and,
   * if every formula of `a` evaluated, running `b` with the variables `a`
   * assigned.
   */
  lemma {:induction false} MyVarsSequential(s: Snapshot, a: seq<(string, Expr)>, b: seq<(string, Expr)>)
    ensures var r := AssignMyVars(s, a);
      AssignMyVars(s, a + b) == if r.failed.Some? then r else AssignMyVars(s.(vars := r.vars), b)
    decreases |a|
  {
    if |a| == 0 {
      assert a + b == b;
    } else {
      assert (a + b)[0] == a[0];
      assert (a + b)[1..] == a[1..] + b;
      match EvalExpr(a[0].1, s)
      case None =>
      case Some(v) => MyVarsSequential(s.(vars := s.vars[a[0].0 := v]), a[1..], b);
    }
  }

  /**
   * MY_VARS writes into the variables: a name it does not list keeps its
   * value, every listed name is defined when no formula raises, and a
   * failure is reported under a listed name.
   */
  lemma {:induction false} MyVarsDefines(s: Snapshot, formulas: seq<(string, Expr)>)
    ensures var r := AssignMyVars(s, formulas);
      (forall k :: (forall j :: 0 <= j < |formulas| ==> formulas[j].0 != k) ==>
         (k in r.vars <==> k in s.vars) && (k in s.vars ==> r.vars[k] == s.vars[k]))
      && (r.failed.None? ==> forall j :: 0 <= j < |formulas| ==> formulas[j].0 in r.vars)
      && (r.failed.Some? ==> exists j :: 0 <= j < |formulas| && formulas[j].0 == r.failed.value)
    decreases |formulas|
  {
    if |formulas| > 0 {
      match EvalExpr(formulas[0].1, s)
      case None =>
      case Some(v) =>
        var s' := s.(vars := s.vars[formulas[0].0 := v]);
        MyVarsDefines(s', formulas[1..]);
        var r := AssignMyVars(s', formulas[1..]);
        if r.failed.None? {
          forall j | 0 <= j < |formulas| ensures formulas[j].0 in r.vars {
            if j > 0 {
              assert formulas[j] == formulas[1..][j - 1];
            } else if exists i :: 0 <= i < |formulas[1..]| && formulas[1..][i].0 == formulas[0].0 {
              var i :| 0 <= i < |formulas[1..]| && formulas[1..][i].0 == formulas[0].0;
              assert formulas[1..][i].0 in r.vars;
            }
          }
        }
        if r.failed.Some? {
          var j :| 0 <= j < |formulas[1..]| && formulas[1..][j].0 == r.failed.value;
          assert formulas[j + 1].0 == r.failed.value;
        }
    }
  }

  // ---------------------------------------------------------------------
  // The inventory label
  // ---------------------------------------------------------------------

  /**
   * The label's lines with ITEMS names, stated item by item: for each
   * distinct item, in the order of its first occurrence, its ITEMS name,
   * " x" and its number of occurrences.
   */
  function NamedLines(inventory: seq<string>, items: map<string, string>): seq<string>
    requires forall j :: 0 <= j < |inventory| ==> inventory[j] in items
  {
    var keys := Distinct(inventory);
    DistinctElements(inventory);
    seq(|keys|, i requires 0 <= i < |keys| => items[keys[i]] + " x" + NatToString(Count(inventory, keys[i])))
  }

  /**
   * The ITEMS-named label: EMPTY for an empty inventory, a failure exactly
   * when some item has no ITEMS entry, and otherwise the named lines joined
   * by newlines; when ITEMS names every item after itself, that is the
   * `inventory_with_count` text.
   */
  lemma LocalizedInventoryOutcome(inventory: seq<string>, items: map<string, string>, empty: string)
    ensures inventory == [] ==> LocalizedInventory(inventory, items, empty) == Some(empty)
    ensures LocalizedInventory(inventory, items, empty).None?
      <==> exists j :: 0 <= j < |inventory| && inventory[j] !in items
    ensures inventory != [] && (forall j :: 0 <= j < |inventory| ==> inventory[j] in items)
      ==> LocalizedInventory(inventory, items, empty) == Some(Join("\n", NamedLines(inventory, items)))
    ensures inventory != [] && (forall j :: 0 <= j < |inventory| ==> inventory[j] in items && items[inventory[j]] == inventory[j])
      ==> LocalizedInventory(inventory, items, empty) == Some(InventoryText(inventory))
  {
    var t := TallyOf(inventory);
    TallyContents(inventory);
    DistinctElements(inventory);
    if t.keys != [] {
      if exists j :: 0 <= j < |inventory| && inventory[j] !in items {
        var j :| 0 <= j < |inventory| && inventory[j] !in items;
        assert inventory[j] in t.keys;
      }
      if forall j :: 0 <= j < |inventory| ==> inventory[j] in items {
        assert forall i :: 0 <= i < |t.keys| ==> t.keys[i] in inventory;
        var named := seq(|t.keys|, i requires 0 <= i < |t.keys| && t.keys[i] in items =>
          CountLine(items[t.keys[i]], t.Get(t.keys[i], 0)));
        assert named == NamedLines(inventory, items);
        if forall j :: 0 <= j < |inventory| ==> items[inventory[j]] == inventory[j] {
          CountLinesArePanelLines(inventory);
          assert named == CountLines(t);
        }
      }
    }
  }

  // ---------------------------------------------------------------------
  // Choosing an exit
  // ---------------------------------------------------------------------

  /**
   * A shown button stands for the exit at its index in the scene's full
   * exit list: that exit exists, its condition held, and the button shows
   * its caption.
   */
  lemma ShownButtonIsItsExit(here: Scene, s: Snapshot, k: nat)
    requires k < |Visible(here, s)|
    ensures var b := Visible(here, s)[k];
      b.index < |here.exits| && Eval(here.exits[b.index].cond, s)
      && b.caption == Caption(here.exits[b.index], here.enableFormatting)
  {
    VisibleExact(here, s);
  }

  /**
   * Pressing button `i` indexes the unfiltered exit list; the current
   * scene becomes the previous one before the target is looked at;
   * target EXIT ends the program.
   */
  lemma PressOutcome(g: Game, story: Story, i: nat, rnum: int, rnum2: int)
    requires g.player.current.Some? && g.screen.Showing?
    ensures var here := g.player.current.value;
      var st := Press(g, story, i, rnum, rnum2);
      var left := g.(player := g.player.(previous := Some(here)));
      (i >= |here.exits| ==> st == Step(g, Crashed(NoSuchExit(i))))
      && (i < |here.exits| && here.exits[i].target == ExitTarget ==> st == Step(left, Exited))
      && ((i < |here.exits| && here.exits[i].target != ExitTarget && Resolve(story, here.exits[i].target).None?)
            ==> st == Step(left, Crashed(UnknownScene(here.exits[i].target))))
  {
  }

  /**
   * Entering the target of an exit. When the handler runs to its end, the
   * target is current, the scene left is previous, exactly the target is
   * appended to the history, the text and speaker are those resolved
   * before the on-enter pass and the exits those visible after it. When
   * it ends early, without a 'restart' or 'load', the history is as it was.
   */
  lemma PressEnters(g: Game, story: Story, i: nat, rnum: int, rnum2: int)
    requires g.player.current.Some? && g.screen.Showing?
    requires i < |g.player.current.value.exits|
    requires g.player.current.value.exits[i].target != ExitTarget
    requires Resolve(story, g.player.current.value.exits[i].target).Some?
    ensures var here := g.player.current.value;
      var scene := Resolve(story, here.exits[i].target).value;
      var st := Press(g, story, i, rnum, rnum2);
      var entered := WithMyVars(g.(player := g.player.(previous := Some(here), current := Some(scene))), story, rnum).0;
      (st.status.Continue? ==>
         st.game.player.current == Some(scene) && st.game.player.previous == Some(here)
         && st.game.player.history == g.player.history + [scene] && st.game.saved == g.saved
         && st.game.screen.Showing?
         && st.game.screen.view.text == SceneText(scene, story, SnapshotOf(entered, rnum))
         && st.game.screen.view.speaker == Speaker(scene, SnapshotOf(entered, rnum))
         && st.game.screen.view.buttons == Visible(scene, SnapshotOf(st.game, rnum))
         && Some(st.game.screen.view.inventory)
              == LocalizedInventory(st.game.player.inventory, story.items, story.emptyLabel))
      && ((forall k :: 0 <= k < |scene.onEnter| ==> !ResetsHistory(scene.onEnter[k].action))
            ==> st.game.player.history == g.player.history || st.status.Continue?)
  {
    var here := g.player.current.value;
    var scene := Resolve(story, here.exits[i].target).value;
    var g1 := g.(player := g.player.(previous := Some(here)));
    var (g2, failed) := WithMyVars(g1.(player := g1.player.(current := Some(scene))), story, rnum);
    if failed.None? {
      var s := SnapshotOf(g2, rnum);
      var view := g2.screen.view.(picture := Picture(scene, story.globalImages, s),
                                  text := SceneText(scene, story, s), speaker := Speaker(scene, s));
      PassKeepsScene(g2.(screen := Showing(view)), scene.onEnter, story, rnum, rnum2);
      if forall k :: 0 <= k < |scene.onEnter| ==> !ResetsHistory(scene.onEnter[k].action) {
        PassKeepsHistory(g2.(screen := Showing(view)), scene.onEnter, story, rnum, rnum2);
      }
    }
  }

  // ---------------------------------------------------------------------
  // Restart
  // ---------------------------------------------------------------------

  /**
   * 'restart': a fresh player whose only field set is `current = first`,
   * empty modifiers and variables, and the handler returns. The screen is
   * the one `compose_game_screen` builds for that player from the OLD
   * modifiers and variables, which are emptied only afterwards.
   */
  lemma RestartOutcome(g: Game, story: Story, rnum: int)
    ensures var st := Restart(g, story, rnum);
      (st.status.Return? || st.status.Crashed?)
      && (FirstScene !in story.scenes ==>
            st == Step(g.(player := PlayerState(None, [], None, [])), Crashed(UnknownScene(FirstScene))))
      && (st.status.Return? ==>
            var first := story.scenes[FirstScene];
            var start := g.(player := PlayerState(Some(first), [], None, []), screen := Cleared);
            st.game.player == PlayerState(Some(first), [], None, [])
            && st.game.modifiers == [] && st.game.variables == map[] && st.game.saved == g.saved
            && st.game.screen == Compose(start, story, FirstScene, rnum).game.screen)
  {
    if FirstScene in story.scenes {
      var first := story.scenes[FirstScene];
      var start := g.(player := PlayerState(Some(first), [], None, []), screen := Cleared);
      ComposeOutcome(start, story, FirstScene, rnum);
    }
  }

  // ---------------------------------------------------------------------
  // The save file
  // ---------------------------------------------------------------------

  /** A scene that loading can find again: it is stored under its own id, an ordinary name. */
  predicate Reloadable(story: Story, scene: Scene) {
    scene.id in story.scenes && story.scenes[scene.id] == scene && |scene.id| > 0 && scene.id[0] != '!'
  }

  /**
   * Loading a snapshot replaces current scene, inventory, previous scene
   * ("" meaning none), modifiers, variables and history, and fails exactly
   * when the current or the previous name is not a scene.
   */
  lemma RestoreOutcome(g: Game, story: Story, d: SaveData)
    ensures var st := Restore(g, story, d);
      (st.status.Continue? <==> d.current in story.scenes && (d.previous == "" || d.previous in story.scenes))
      && (st.status.Continue? || st.status.Crashed?)
      && (st.status.Continue? ==>
            st.game.player.current == Some(story.scenes[d.current])
            && st.game.player.inventory == d.inventory
            && (st.game.player.previous.None? <==> d.previous == "")
            && (d.previous != "" ==> st.game.player.previous == Some(story.scenes[d.previous]))
            && st.game.player.history == d.history
            && st.game.modifiers == d.modifiers && st.game.variables == d.variables
            && st.game.screen == g.screen && st.game.saved == g.saved)
  {
  }

  /** Restoring the snapshot of a state gives that state back. */
  lemma RestoreCapture(g: Game, story: Story)
    requires g.player.current.Some? && Reloadable(story, g.player.current.value)
    requires g.player.previous.Some? ==> Reloadable(story, g.player.previous.value)
    ensures Restore(g, story, Capture(g)) == Step(g, Continue)
  {
  }

  /**
   * The load as written does not complete the round trip: restoring the
   * snapshot of `g` into any state whose player history differs from
   * `g`'s leaves that other history in place, where `Restore` brings back
   * `g`'s.
   */
  lemma RestoreAsWrittenBreaksRoundTrip(g: Game, h: Game, story: Story)
    requires g.player.current.Some? && Reloadable(story, g.player.current.value)
    requires g.player.previous.Some? ==> Reloadable(story, g.player.previous.value)
    requires h.player.history != g.player.history
    ensures RestoreAsWritten(h, story, Capture(g)).status == Continue
    ensures RestoreAsWritten(h, story, Capture(g)).game.player.history != g.player.history
    ensures Restore(h, story, Capture(g)).game.player.history == g.player.history
  {
  }

  /**
   * Saving and then loading shows the same screen as composing the
   * current scene afresh from the state at the save: same player, same
   * modifiers, same resolved presentation and exits.
   */
  lemma SaveThenLoad(g: Game, story: Story, rnum: int)
    requires g.player.current.Some? && Reloadable(story, g.player.current.value)
    requires g.player.previous.Some? ==> Reloadable(story, g.player.previous.value)
    ensures Save(g) == Step(g.(saved := Some(Capture(g))), Return)
    ensures var here := g.player.current.value;
      var loaded := Load(Save(g).game, story, rnum);
      var again := Compose(g.(screen := Cleared), story, here.id, rnum);
      loaded.game == again.game.(saved := Some(Capture(g)))
      && loaded.status == Finish(again).status
      && loaded.game.player == g.player
      && loaded.game.modifiers == g.modifiers
  {
    var here := g.player.current.value;
    var saved := g.(saved := Some(Capture(g)));
    RestoreCapture(saved, story);
    assert Resolve(story, here.id) == Some(here);
    ComposeOutcome(saved.(screen := Cleared), story, here.id, rnum);
    ComposeOutcome(g.(screen := Cleared), story, here.id, rnum);
  }
}
