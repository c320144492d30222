/**
 * The condition and value language of the scene tables. In the engine these
 * are Python source strings given to `meval`; here they are a small syntax
 * tree covering the forms the scene tables use, evaluated against a
 * read-only snapshot of the session.
 */
module Expressions {
  import opened Wrappers
  import opened Counting

  /** A value stored in the `variables` dictionary. */
  datatype Value = IntV(i: int) | StrV(s: string) | BoolV(b: bool)

  /**
   * An element of the `modifiers` list. Scene actions always add plain
   * names, except modifier `add-many`, which appends its whole operand
   * tuple (name, count) instead of the name (main.py:1011).
   */
  datatype Mod = Flag(name: string) | FlagCountPair(name: string, count: int)

  /** A comparison operator of the condition strings. */
  datatype Cmp = Lt | Le | Eq | Ne | Ge | Gt

  /** A condition string of the scene tables. */
  datatype Cond =
    | Always                                      // True
    | InMods(flag: string)                        // "x" in mods
    | NotInMods(flag: string)                     // "x" not in mods
    | InvCount(item: string, op: Cmp, n: int)     // invdict.get("x", 0) op n
    | ModsCount(flag: string, op: Cmp, n: int)    // modsdict.get("x", 0) op n
    | RandomIs(op: Cmp, n: int)                   // rnum op n
    | PreviousIs(id: string)                      // player.previous.id_ == "s"
    | CurrentIsNot(id: string)                    // player.current.id_ != "s"
    | And(left: Cond, right: Cond)
    | Or(left: Cond, right: Cond)

  /** A value expression: the right-hand side of variable `set` and of `MY_VARS` formulas. */
  datatype Expr =
    | Lit(v: Value)
    | ItemCount(item: string)          // invdict.get("x", 0)
    | FlagCount(flag: string)          // modsdict.get("x", 0)
    | VarRef(name: string)             // vars["x"]
    | RandomNumber                     // rnum
    | Plus(left: Expr, right: Expr)
    | Minus(left: Expr, right: Expr)
    | Test(c: Cond)

  /**
   * What a condition can see: the inventory, the modifiers, the variables,
   * the ids of the current and previous scenes, and the pass's random draw.
   * `invdict` and `modsdict` are derived from the two lists.
   */
  datatype Snapshot = Snapshot(
    inventory: seq<string>,
    mods: seq<Mod>,
    vars: map<string, Value>,
    current: Option<string>,
    previous: Option<string>,
    rnum: int)

  function Compare(a: int, op: Cmp, b: int): bool {
    match op
    case Lt => a < b
    case Le => a <= b
    case Eq => a == b
    case Ne => a != b
    case Ge => a >= b
    case Gt => a > b
  }

  /**
   * The truth value of a condition. A comparison with the id of a scene
   * that is absent is false (the Python original raises there instead).
   */
  predicate Eval(c: Cond, s: Snapshot) {
    match c
    case Always => true
    case InMods(f) => Flag(f) in s.mods
    case NotInMods(f) => Flag(f) !in s.mods
    case InvCount(k, op, n) => Compare(Count(s.inventory, k), op, n)
    case ModsCount(f, op, n) => Compare(Count(s.mods, Flag(f)), op, n)
    case RandomIs(op, n) => Compare(s.rnum, op, n)
    case PreviousIs(id) => s.previous.Some? && s.previous.value == id
    case CurrentIsNot(id) => s.current.Some? && s.current.value != id
    case And(l, r) => Eval(l, s) && Eval(r, s)
    case Or(l, r) => Eval(l, s) || Eval(r, s)
  }

  /** A Python number: integers, and booleans as 0 and 1. */
  function AsNumber(v: Value): Option<int> {
    match v
    case IntV(i) => Some(i)
    case BoolV(b) => Some(if b then 1 else 0)
    case StrV(_) => None
  }

  /** Python's `a + b` on these values; None where Python raises TypeError. */
  function PyAdd(a: Value, b: Value): (r: Option<Value>)
    ensures r.None? <==> !((AsNumber(a).Some? && AsNumber(b).Some?) || (a.StrV? && b.StrV?))
  {
    if a.StrV? && b.StrV? then Some(StrV(a.s + b.s))
    else if AsNumber(a).Some? && AsNumber(b).Some? then Some(IntV(AsNumber(a).value + AsNumber(b).value))
    else None
  }

  /** Python's `a - b` on these values; None where Python raises TypeError. */
  function PySub(a: Value, b: Value): (r: Option<Value>)
    ensures r.Some? <==> AsNumber(a).Some? && AsNumber(b).Some?
  {
    if AsNumber(a).Some? && AsNumber(b).Some? then Some(IntV(AsNumber(a).value - AsNumber(b).value))
    else None
  }

  /** The value of an expression; None where Python raises (missing variable, bad operand types). */
  function EvalExpr(e: Expr, s: Snapshot): Option<Value> {
    match e
    case Lit(v) => Some(v)
    case ItemCount(k) => Some(IntV(Count(s.inventory, k)))
    case FlagCount(f) => Some(IntV(Count(s.mods, Flag(f))))
    case VarRef(x) => if x in s.vars then Some(s.vars[x]) else None
    case RandomNumber => Some(IntV(s.rnum))
    case Plus(l, r) =>
      (match (EvalExpr(l, s), EvalExpr(r, s))
       case (Some(a), Some(b)) => PyAdd(a, b)
       case _ => None)
    case Minus(l, r) =>
      (match (EvalExpr(l, s), EvalExpr(r, s))
       case (Some(a), Some(b)) => PySub(a, b)
       case _ => None)
    case Test(c) => Some(BoolV(Eval(c, s)))
  }

  /**
   * The dictionary forms `invdict.get(k, 0)` and `modsdict.get(k, 0)` read
   * the dictionaries `inventory_dict` and `modifiers_dict` build.
   */
  lemma DictionaryLookups(s: Snapshot, k: string, op: Cmp, n: int)
    ensures Eval(InvCount(k, op, n), s) == Compare(TallyOf(s.inventory).Get(k, 0), op, n)
    ensures Eval(ModsCount(k, op, n), s) == Compare(TallyOf(s.mods).Get(Flag(k), 0), op, n)
  {
    TallyContents(s.inventory);
    TallyContents(s.mods);
  }

  /** `"x" in mods` holds exactly when `modsdict.get("x", 0) > 0`. */
  lemma MembershipIsPositiveCount(s: Snapshot, f: string)
    ensures Eval(InMods(f), s) <==> Eval(ModsCount(f, Gt, 0), s)
    ensures Eval(NotInMods(f), s) <==> !Eval(InMods(f), s)
  {
  }

  /** Incrementing then decrementing a number by the same delta gives it back. */
  lemma AddThenSubtract(v: Value, d: Value)
    requires AsNumber(v).Some? && AsNumber(d).Some?
    ensures PyAdd(v, d).Some? && PySub(PyAdd(v, d).value, d) == Some(IntV(AsNumber(v).value))
  {
  }
}
