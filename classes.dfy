/**
 * The records of classes.py: a Scene of the story graph (with the action
 * and condition lists that main.py interprets) and the Player.
 */
module Classes {
  import opened Wrappers
  import opened Counting
  import opened Text
  import opened Expressions

  /** An entry of `exits`: `(caption, (target, condition))`. */
  datatype Exit = Exit(caption: string, target: string, cond: Cond)

  /** An entry of the `if_*` lists: `(value, condition)`. */
  datatype Guarded = Guarded(value: string, cond: Cond)

  /** The verbs on the inventory and modifier lists, with their operands. */
  datatype ListOp =
    | Append(item: string)                   // 'add'
    | AppendMany(item: string, count: int)   // 'add-many', operand (item, count)
    | RemoveOne(item: string)                // 'remove'
    | RemoveEvery(item: string)              // 'remove-all'
    | ClearList                              // 'clear'

  /** The verbs on the variables dictionary, with their operands. */
  datatype VarOp =
    | AddVar(name: string, value: Value)     // 'add', operand (name, literal)
    | UpdateVar(name: string, value: Value)  // 'update'
    | RemoveVar(name: string)                // 'remove'
    | ClearVars                              // 'clear'
    | IncVar(name: string, delta: Value)     // 'inc', operand (name, delta)
    | DecVar(name: string, delta: Value)     // 'dec'
    | SetVar(name: string, formula: Expr)    // 'set', operand (name, expression)

  /** The verbs of target 'game'. */
  datatype GameOp =
    | ExitGame                 // 'exit'
    | Goto(target: string)     // 'goto', operand: scene id
    | RestartGame              // 'restart'
    | DestroyScreen            // 'destroy'
    | LoadGame                 // 'load'
    | SaveGame                 // 'save'
    | Notify(message: string)  // 'notify'

  /** An action triple `(target, verb, operand)`. */
  datatype Action =
    | OnInventory(listOp: ListOp)
    | OnModifiers(modOp: ListOp)
    | OnVariables(varOp: VarOp)
    | OnGame(gameOp: GameOp)

  /** An entry of `on_enter`: `(action, condition)`. */
  datatype Entry = Entry(action: Action, cond: Cond)

  /** A scene of the story graph (the `Scene` dataclass, with its defaults). */
  datatype Scene = Scene(
    id: string,
    header: string,
    text: string,
    exits: seq<Exit>,
    image: string := "",
    onEnter: seq<Entry> := [],
    ifTexts: seq<Guarded> := [],
    ifTextAdditions: seq<Guarded> := [],
    ifImages: seq<Guarded> := [],
    speaker: string := "",
    ifSpeakers: seq<Guarded> := [],
    enableFormatting: bool := true,
    sanitize: bool := false)

  /** `Scene(id_, header, text, exits)`: a scene built from its required fields only. */
  function NewScene(id: string, header: string, text: string, exits: seq<Exit>): (s: Scene)
    ensures s.id == id && s.header == header && s.text == text && s.exits == exits
    ensures s.image == "" && s.speaker == ""
    ensures s.onEnter == [] && s.ifTexts == [] && s.ifTextAdditions == [] && s.ifImages == [] && s.ifSpeakers == []
    ensures s.enableFormatting && !s.sanitize
  {
    Scene(id, header, text, exits)
  }

  /** One line of the inventory panel: `f'{k} x{v}'`. */
  function CountLine(k: string, v: nat): string {
    k + " x" + NatToString(v)
  }

  /** The lines of the inventory panel, in the dictionary's key order. */
  function CountLines(t: Tally<string>): seq<string> {
    seq(|t.keys|, i requires 0 <= i < |t.keys| => CountLine(t.keys[i], t.Get(t.keys[i], 0)))
  }

  /** A rendered count line holds a newline only if the item name does. */
  lemma CountLineNewlines(k: string, v: nat)
    requires '\n' !in k
    ensures '\n' !in CountLine(k, v)
  {
    var d := NatToString(v);
    assert forall i :: 0 <= i < |d| ==> d[i] != '\n';
  }

  /**
   * The panel's lines, stated item by item: for each distinct item, in the
   * order of its first occurrence, its name, " x" and its number of
   * occurrences.
   */
  function PanelLines(inventory: seq<string>): seq<string> {
    var keys := Distinct(inventory);
    seq(|keys|, i requires 0 <= i < |keys| => CountLine(keys[i], Count(inventory, keys[i])))
  }

  /** The lines built from the dictionary `inventory_dict` are the panel's lines. */
  lemma CountLinesArePanelLines(inventory: seq<string>)
    ensures CountLines(TallyOf(inventory)) == PanelLines(inventory)
  {
    var t := TallyOf(inventory);
    DistinctElements(inventory);
    assert |CountLines(t)| == |PanelLines(inventory)|;
    forall i | 0 <= i < |t.keys|
      ensures CountLines(t)[i] == PanelLines(inventory)[i]
    {
      assert t.keys[i] in inventory;
    }
  }

  /**
   * The inventory panel of `inventory_with_count`: one `"k xv"` line per
   * distinct item, in first-occurrence order, joined by newlines with none
   * at the end; the empty inventory gives "".
   */
  function InventoryText(inventory: seq<string>): (r: string)
    ensures r == Join("\n", PanelLines(inventory))
    ensures r == "" <==> inventory == []
    ensures (inventory != [] && forall i :: 0 <= i < |inventory| ==> '\n' !in inventory[i])
      ==> Occurrences(r, '\n') == |Distinct(inventory)| - 1
  {
    var t := TallyOf(inventory);
    var lines := CountLines(t);
    TallyContents(inventory);
    CountLinesArePanelLines(inventory);
    JoinEmpty("\n", lines);
    if inventory != [] && (forall i :: 0 <= i < |inventory| ==> '\n' !in inventory[i]) then
      assert forall i :: 0 <= i < |lines| ==> '\n' !in lines[i] by {
        forall i | 0 <= i < |lines| ensures '\n' !in lines[i] {
          assert t.keys[i] in t.keys;
          CountLineNewlines(t.keys[i], t.Get(t.keys[i], 0));
        }
      }
      JoinSeparators('\n', lines);
      Join("\n", lines)
    else
      Join("\n", lines)
  }

  /** The fields of a Player, as a value. */
  datatype PlayerState = PlayerState(
    current: Option<Scene>,
    inventory: seq<string>,
    previous: Option<Scene>,
    history: seq<Scene>)

  /**
   * The player. `history` is not declared in classes.py: main.py attaches it
   * to every Player it creates (main.py:257, 1059).
   */
  class Player {
    var current: Option<Scene>
    var inventory: seq<string>
    var previous: Option<Scene>
    var history: seq<Scene>

    /** `Player()`: no current and no previous scene, nothing carried, nothing visited. */
    constructor ()
      ensures current == None && inventory == [] && previous == None && history == []
    {
      current, inventory, previous, history := None, [], None, [];
    }

    /** The player's fields as a value. */
    function State(): PlayerState
      reads this
    {
      PlayerState(current, inventory, previous, history)
    }

    /** `inventory_dict`: item -> number of occurrences, keys in first-occurrence order. */
    method InventoryDict() returns (d: Tally<string>)
      ensures d == TallyOf(inventory)
    {
      d := CountOccurrences(inventory);
    }

    /** `inventory_with_count`: the lines of `inventory_dict`'s result, joined by newlines. */
    method InventoryWithCount() returns (r: string)
      ensures r == Join("\n", PanelLines(inventory))
      ensures r == InventoryText(inventory)
    {
      var d := InventoryDict();
      r := Join("\n", CountLines(d));
      CountLinesArePanelLines(inventory);
    }
  }
}
