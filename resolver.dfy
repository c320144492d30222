/**
 * The presentation half of a scene pass (compose_game_screen and
 * on_button_pressed in main.py): which text, picture, speaker and exit
 * buttons a scene shows for a given snapshot. Replacement lists keep the
 * LAST value whose condition holds; addition lists append EVERY match;
 * exits are filtered and keep their index in the unfiltered list.
 */
module Resolver {
  import opened Wrappers
  import opened Expressions
  import opened Classes

  /**
   * A string as the screen shows it: `raw`, escaped for markup when
   * `escaped` (the scene's `sanitize`), then formatted against the session
   * when `formatted` (the scene's `enable_formatting`). The escaping and
   * the templating themselves are library calls and are not computed.
   */
  datatype Rendered = Rendered(raw: string, escaped: bool, formatted: bool)

  /** An exit button: `Button(label, id=f'button{i}')`, `i` the exit's index in `exits`. */
  datatype Button = Button(index: nat, caption: Rendered)

  // ---------------------------------------------------------------- replacement lists

  /** `v = base; for t, cond in overrides: if cond: v = t`. */
  function Override(base: string, overrides: seq<Guarded>, s: Snapshot): string
    decreases |overrides|
  {
    if |overrides| == 0 then base
    else
      var last := overrides[|overrides| - 1];
      if Eval(last.cond, s) then last.value else Override(base, overrides[..|overrides| - 1], s)
  }

  /** With no entry matching, the base value stays. */
  lemma {:induction false} OverrideNoMatch(base: string, overrides: seq<Guarded>, s: Snapshot)
    requires forall j :: 0 <= j < |overrides| ==> !Eval(overrides[j].cond, s)
    ensures Override(base, overrides, s) == base
    decreases |overrides|
  {
    var n := |overrides|;
    if n > 0 {
      var init := overrides[..n - 1];
      assert !Eval(overrides[n - 1].cond, s);
      forall j | 0 <= j < n - 1 ensures !Eval(init[j].cond, s) {
        assert init[j] == overrides[j];
      }
      OverrideNoMatch(base, init, s);
    }
  }

  /** Last match wins: the value of the last entry whose condition holds. */
  lemma {:induction false} OverrideLastMatch(base: string, overrides: seq<Guarded>, s: Snapshot, j: nat)
    requires j < |overrides| && Eval(overrides[j].cond, s)
    requires forall k :: j < k < |overrides| ==> !Eval(overrides[k].cond, s)
    ensures Override(base, overrides, s) == overrides[j].value
    decreases |overrides|
  {
    var n := |overrides|;
    if j < n - 1 {
      var init := overrides[..n - 1];
      assert !Eval(overrides[n - 1].cond, s);
      assert init[j] == overrides[j];
      forall k | j < k < n - 1 ensures !Eval(init[k].cond, s) {
        assert init[k] == overrides[k];
      }
      OverrideLastMatch(base, init, s, j);
    }
  }

  /** Scanning one list and then another is scanning their concatenation. */
  lemma {:induction false} OverrideConcat(base: string, a: seq<Guarded>, b: seq<Guarded>, s: Snapshot)
    ensures Override(Override(base, a, s), b, s) == Override(base, a + b, s)
    decreases |b|
  {
    if |b| == 0 {
      assert a + b == a;
    } else {
      var init := b[..|b| - 1];
      OverrideConcat(base, a, init, s);
      assert (a + b)[..|a + b| - 1] == a + init;
    }
  }

  /** The replacement loop of `if_texts`, `if_images`, `GLOBAL_IMAGES` and `if_speakers`. */
  method ResolveOverride(base: string, overrides: seq<Guarded>, s: Snapshot) returns (v: string)
    ensures v == Override(base, overrides, s)
  {
    v := base;
    for i := 0 to |overrides|
      invariant v == Override(base, overrides[..i], s)
    {
      assert overrides[..i + 1][..i] == overrides[..i];
      if Eval(overrides[i].cond, s) {
        v := overrides[i].value;
      }
    }
    assert overrides[..|overrides|] == overrides;
  }

  // ---------------------------------------------------------------- addition lists

  /** The values of the entries whose condition holds, in declaration order. */
  function Matching(entries: seq<Guarded>, s: Snapshot): seq<string>
    decreases |entries|
  {
    if |entries| == 0 then []
    else
      var last := entries[|entries| - 1];
      Matching(entries[..|entries| - 1], s) + (if Eval(last.cond, s) then [last.value] else [])
  }

  /** Each value on a line of its own: `"\n" + t` for every `t`. */
  function Lines(values: seq<string>): string
    decreases |values|
  {
    if |values| == 0 then "" else Lines(values[..|values| - 1]) + "\n" + values[|values| - 1]
  }

  /** A value is added exactly when some entry carrying it matches. */
  lemma {:induction false} MatchingMembers(entries: seq<Guarded>, s: Snapshot)
    ensures forall v :: v in Matching(entries, s) <==>
              exists j :: 0 <= j < |entries| && entries[j].value == v && Eval(entries[j].cond, s)
    decreases |entries|
  {
    if |entries| > 0 {
      var init := entries[..|entries| - 1];
      MatchingMembers(init, s);
      assert forall j :: 0 <= j < |init| ==> init[j] == entries[j];
      forall v | v in Matching(entries, s)
        ensures exists j :: 0 <= j < |entries| && entries[j].value == v && Eval(entries[j].cond, s)
      {
        if v in Matching(init, s) {
          var j :| 0 <= j < |init| && init[j].value == v && Eval(init[j].cond, s);
          assert entries[j] == init[j];
        } else {
          assert entries[|entries| - 1].value == v;
        }
      }
    }
  }

  /** Additions accumulate in declaration order: a list then another is their concatenation. */
  lemma {:induction false} MatchingConcat(a: seq<Guarded>, b: seq<Guarded>, s: Snapshot)
    ensures Matching(a + b, s) == Matching(a, s) + Matching(b, s)
    decreases |b|
  {
    if |b| == 0 {
      assert a + b == a;
    } else {
      MatchingConcat(a, b[..|b| - 1], s);
      assert (a + b)[..|a + b| - 1] == a + b[..|b| - 1];
    }
  }

  /** Lines of a concatenation are the concatenated lines. */
  lemma {:induction false} LinesConcat(a: seq<string>, b: seq<string>)
    ensures Lines(a + b) == Lines(a) + Lines(b)
    decreases |b|
  {
    if |b| == 0 {
      assert a + b == a;
    } else {
      var init, last := b[..|b| - 1], b[|b| - 1];
      LinesConcat(a, init);
      assert (a + b)[..|a + b| - 1] == a + init;
      assert (a + b)[|a + b| - 1] == last;
      assert Lines(a + b) == Lines(a + init) + "\n" + last;
      assert Lines(b) == Lines(init) + "\n" + last;
    }
  }

  /** The addition loop of `if_text_additions` and `GLOBAL_ADDITIONS`: `text += '\n' + t`. */
  method AppendAdditions(text: string, additions: seq<Guarded>, s: Snapshot) returns (r: string)
    ensures r == text + Lines(Matching(additions, s))
  {
    r := text;
    for i := 0 to |additions|
      invariant r == text + Lines(Matching(additions[..i], s))
    {
      assert additions[..i + 1][..i] == additions[..i];
      var before := Matching(additions[..i], s);
      var v := additions[i].value;
      if Eval(additions[i].cond, s) {
        assert Matching(additions[..i + 1], s) == before + [v];
        LinesConcat(before, [v]);
        assert Lines([v]) == "\n" + v by {
          assert [v][..0] == [];
        }
        assert text + Lines(before + [v]) == r + "\n" + v;
        r := r + "\n" + v;
      } else {
        assert Matching(additions[..i + 1], s) == before + [];
        assert before + [] == before;
      }
    }
    assert additions[..|additions|] == additions;
  }

  // ---------------------------------------------------------------- a scene's presentation

  /**
   * The composed text: the last matching `if_texts` value (or the base
   * text), a newline, then one line per matching `if_text_additions` entry
   * and per matching global addition.
   */
  function ComposedText(scene: Scene, globalAdditions: seq<Guarded>, s: Snapshot): string {
    Override(scene.text, scene.ifTexts, s) + "\n"
      + Lines(Matching(scene.ifTextAdditions, s)) + Lines(Matching(globalAdditions, s))
  }

  /** The composed image: the last match over `if_images` and then `GLOBAL_IMAGES`. */
  function ComposedImage(scene: Scene, globalImages: seq<Guarded>, s: Snapshot): string {
    Override(Override(scene.image, scene.ifImages, s), globalImages, s)
  }

  /** A picture is drawn only for a scene whose base `image` is non-empty. */
  function Picture(scene: Scene, globalImages: seq<Guarded>, s: Snapshot): Option<string> {
    if scene.image != "" then Some(ComposedImage(scene, globalImages, s)) else None
  }

  /** The speaker: the last matching `if_speakers` value (possibly ""), else the base speaker. */
  function Speaker(scene: Scene, s: Snapshot): string {
    Override(scene.speaker, scene.ifSpeakers, s)
  }

  /** The label of an exit's button. */
  function Caption(e: Exit, formatting: bool): Rendered {
    Rendered(e.caption, false, formatting)
  }

  /** The buttons for `exits[from..]`: each exit whose condition holds, tagged with its index. */
  function VisibleFrom(exits: seq<Exit>, from: nat, s: Snapshot, formatting: bool): seq<Button>
    decreases |exits| - from
  {
    if from >= |exits| then []
    else
      (if Eval(exits[from].cond, s) then [Button(from, Caption(exits[from], formatting))] else [])
        + VisibleFrom(exits, from + 1, s, formatting)
  }

  /** The exit buttons of a scene. */
  function Visible(scene: Scene, s: Snapshot): seq<Button> {
    VisibleFrom(scene.exits, 0, s, scene.enableFormatting)
  }

  /** Every button of `exits[from..]` is an exit from there on whose condition holds, with its caption. */
  lemma {:induction false} VisibleFromSound(exits: seq<Exit>, from: nat, s: Snapshot, formatting: bool)
    ensures forall b :: b in VisibleFrom(exits, from, s, formatting) ==>
              from <= b.index < |exits| && Eval(exits[b.index].cond, s)
              && b.caption == Caption(exits[b.index], formatting)
    decreases |exits| - from
  {
    if from < |exits| {
      VisibleFromSound(exits, from + 1, s, formatting);
    }
  }

  /** Button indices strictly increase. */
  predicate Ordered(bs: seq<Button>) {
    forall k, l :: 0 <= k < l < |bs| ==> bs[k].index < bs[l].index
  }

  /** The buttons of `exits[from..]` keep the exits' order. */
  lemma {:induction false} VisibleFromOrdered(exits: seq<Exit>, from: nat, s: Snapshot, formatting: bool)
    ensures Ordered(VisibleFrom(exits, from, s, formatting))
    decreases |exits| - from
  {
    if from < |exits| {
      VisibleFromOrdered(exits, from + 1, s, formatting);
      VisibleFromSound(exits, from + 1, s, formatting);
      var rest := VisibleFrom(exits, from + 1, s, formatting);
      var bs := VisibleFrom(exits, from, s, formatting);
      if Eval(exits[from].cond, s) {
        assert bs == [Button(from, Caption(exits[from], formatting))] + rest;
        forall k, l | 0 <= k < l < |bs| ensures bs[k].index < bs[l].index {
          assert rest[l - 1] in rest;
          if k > 0 {
            assert bs[k] == rest[k - 1] && bs[l] == rest[l - 1];
            assert rest[k - 1].index < rest[l - 1].index;
          }
        }
      } else {
        assert bs == rest;
      }
    }
  }

  /** Every exit of `exits[from..]` whose condition holds has a button. */
  lemma {:induction false} VisibleFromComplete(exits: seq<Exit>, from: nat, s: Snapshot, formatting: bool, i: nat)
    requires from <= i < |exits| && Eval(exits[i].cond, s)
    ensures exists b :: b in VisibleFrom(exits, from, s, formatting) && b.index == i
    decreases |exits| - from
  {
    var bs := VisibleFrom(exits, from, s, formatting);
    if i == from {
      assert bs[0].index == i;
    } else {
      VisibleFromComplete(exits, from + 1, s, formatting, i);
      var b :| b in VisibleFrom(exits, from + 1, s, formatting) && b.index == i;
      assert b in bs;
    }
  }

  /**
   * The buttons are exactly the exits whose condition holds, in their
   * original order, each carrying its original index and its caption.
   */
  lemma VisibleExact(scene: Scene, s: Snapshot)
    ensures var bs := Visible(scene, s);
      && (forall k :: 0 <= k < |bs| ==>
            bs[k].index < |scene.exits| && Eval(scene.exits[bs[k].index].cond, s)
            && bs[k].caption == Caption(scene.exits[bs[k].index], scene.enableFormatting))
      && Ordered(bs)
      && (forall i :: 0 <= i < |scene.exits| && Eval(scene.exits[i].cond, s) ==>
            exists k :: 0 <= k < |bs| && bs[k].index == i)
  {
    var bs := Visible(scene, s);
    VisibleFromSound(scene.exits, 0, s, scene.enableFormatting);
    VisibleFromOrdered(scene.exits, 0, s, scene.enableFormatting);
    forall k | 0 <= k < |bs|
      ensures bs[k].index < |scene.exits| && Eval(scene.exits[bs[k].index].cond, s)
      ensures bs[k].caption == Caption(scene.exits[bs[k].index], scene.enableFormatting)
    {
      assert bs[k] in bs;
    }
    forall i | 0 <= i < |scene.exits| && Eval(scene.exits[i].cond, s)
      ensures exists k :: 0 <= k < |bs| && bs[k].index == i
    {
      VisibleFromComplete(scene.exits, 0, s, scene.enableFormatting, i);
      var b :| b in bs && b.index == i;
      var k :| 0 <= k < |bs| && bs[k] == b;
    }
  }

  /** The button list comprehension over `enumerate(exits)`. */
  method FilterExits(scene: Scene, s: Snapshot) returns (buttons: seq<Button>)
    ensures buttons == Visible(scene, s)
  {
    buttons := [];
    var i := 0;
    while i < |scene.exits|
      invariant 0 <= i <= |scene.exits|
      invariant buttons + VisibleFrom(scene.exits, i, s, scene.enableFormatting) == Visible(scene, s)
    {
      ghost var rest := VisibleFrom(scene.exits, i + 1, s, scene.enableFormatting);
      if Eval(scene.exits[i].cond, s) {
        var b := Button(i, Caption(scene.exits[i], scene.enableFormatting));
        assert VisibleFrom(scene.exits, i, s, scene.enableFormatting) == [b] + rest;
        assert buttons + ([b] + rest) == (buttons + [b]) + rest;
        buttons := buttons + [b];
      } else {
        assert VisibleFrom(scene.exits, i, s, scene.enableFormatting) == [] + rest;
        assert [] + rest == rest;
      }
      i := i + 1;
    }
  }

  /**
   * A matching global image replaces the scene's own conditional image:
   * the picture is the last matching global value whenever one matches.
   */
  lemma GlobalImageWins(scene: Scene, globalImages: seq<Guarded>, s: Snapshot, j: nat)
    requires scene.image != ""
    requires j < |globalImages| && Eval(globalImages[j].cond, s)
    requires forall k :: j < k < |globalImages| ==> !Eval(globalImages[k].cond, s)
    ensures Picture(scene, globalImages, s) == Some(globalImages[j].value)
  {
    OverrideLastMatch(Override(scene.image, scene.ifImages, s), globalImages, s, j);
  }

  /** The two image lists act as one list, the global entries last. */
  lemma ImageIsOneScan(scene: Scene, globalImages: seq<Guarded>, s: Snapshot)
    ensures ComposedImage(scene, globalImages, s) == Override(scene.image, scene.ifImages + globalImages, s)
  {
    OverrideConcat(scene.image, scene.ifImages, globalImages, s);
  }
}
