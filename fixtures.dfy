/**
 * A few scenes of the English story (scenes/scenes_en.py) as fixtures, and
 * what the engine does with them.
 */
module Fixtures {
  import opened Wrappers
  import opened Counting
  import opened Lists
  import opened Expressions
  import opened Classes
  import opened Resolver
  import opened Engine
  import opened Behaviour

  const MoneyGiven: Cond := InMods("money-given")

  /** The pig. */
  const First: Scene :=
    Scene("first", "Pig", "Pig says \"Oink, give me your money!\"", [
      Exit("Give the pig money", "give", InvCount("Money", Ge, 10)),
      Exit("Give the pig money", "gave", MoneyGiven),
      Exit("Pray", "pray", Always),
      Exit("Fight the pig", "game_over", NotInMods("money-given")),
      Exit("No way, piggy. (pat the pig)", "pat", NotInMods("money-given")),
      Exit("Hello, piggy. (pat the pig)", "pat", MoneyGiven),
      Exit("Approach the strange man on the right", "hoofd", And(MoneyGiven, NotInMods("hoofd-met"))),
      Exit("Approach Hoofd", "hoofd_0", InMods("hoofd-met"))
    ], image := "boar.jpeg",
      ifTexts := [Guarded("You gave the pig your money. It seems happy.", MoneyGiven)],
      speaker := "Pig",
      ifSpeakers := [Guarded("", MoneyGiven)])

  /** Giving the money away. */
  const Give: Scene :=
    Scene("give", "Give the pig money", "You give the pig your money. It says \"Thank you!\"", [
      Exit("Back", "first", Always)
    ], onEnter := [
        Entry(OnModifiers(Append("money-given")), And(InvCount("Money", Ge, 10), NotInMods("money-given"))),
        Entry(OnInventory(RemoveEvery("Money")), InvCount("Money", Ge, 10))
      ],
      ifTexts := [
        Guarded("You have no money to give. Pig is unhappy.", InvCount("Money", Eq, 0)),
        Guarded("Not enough money to give. Pig is unhappy.", InvCount("Money", Lt, 10))
      ])

  /** Praying for coins. */
  const Pray: Scene :=
    Scene("pray", "Pray", "You pray. Unexpectedly, a gold coin falls from the sky.", [
      Exit("Pray more", "pray", Always),
      Exit("Back", "first", Always)
    ], onEnter := [
        Entry(OnInventory(Append("Money")), InvCount("Money", Lt, 10)),
        Entry(OnModifiers(Append("overpray")), Or(InvCount("Money", Ge, 10), MoneyGiven)),
        Entry(OnGame(Notify("Goodbye.")), ModsCount("overpray", Gt, 3)),
        Entry(OnGame(Goto("game_over")), ModsCount("overpray", Gt, 3))
      ],
      ifTexts := [
        Guarded("You have enough money. Do not pray more.", Or(InvCount("Money", Ge, 10), MoneyGiven)),
        Guarded("Please, stop. You have enough money.", ModsCount("overpray", Gt, 1))
      ])

  /** The end, with its exits as scenes_en.py writes them. */
  const GameOver: Scene :=
    Scene("over", "Game Over", "You died.", [
      Exit("Pig is unavoidable", "SYS.RESTART", PreviousIs("first")),
      Exit("Sorry, gods", "SYS.RESTART", PreviousIs("pray")),
      Exit("Hoofd sees lies", "SYS.RESTART", PreviousIs("hoofd_0"))
    ])

  /** The end as evidently intended: the exits name the system scene with the `!` prefix. */
  const GameOverFixed: Scene :=
    Scene("over", "Game Over", "You died.", [
      Exit("Pig is unavoidable", RestartTarget, PreviousIs("first")),
      Exit("Sorry, gods", RestartTarget, PreviousIs("pray")),
      Exit("Hoofd sees lies", RestartTarget, PreviousIs("hoofd_0"))
    ])

  /**
   * The English story restricted to these scenes, with the corrected end
   * scene and an ITEMS table naming the coin.
   */
  const Story0: Story := Story(
    map["first" := First, "give" := Give, "pray" := Pray, "game_over" := GameOverFixed],
    [Guarded("Money suffucient to give to the pig.", And(InvCount("Money", Ge, 10), CurrentIsNot("give")))],
    [],
    [],
    map["Money" := "Money"],
    "Empty",
    false)

  const TenCoins: seq<string> := Repeat("Money", 10)

  /**
   * Before the gift, with fewer than ten coins and Hoofd not met, the pig
   * offers Pray, Fight and the pat, and their buttons keep their places
   * 2, 3 and 4 in the exit list.
   */
  lemma FirstExitsBeforeGift(s: Snapshot)
    requires Count(s.inventory, "Money") < 10
    requires Flag("money-given") !in s.mods && Flag("hoofd-met") !in s.mods
    ensures Visible(First, s) == [
      Button(2, Caption(First.exits[2], true)),
      Button(3, Caption(First.exits[3], true)),
      Button(4, Caption(First.exits[4], true))]
  {
    var e := First.exits;
    assert !Eval(e[7].cond, s) && !Eval(e[6].cond, s) && !Eval(e[5].cond, s);
    assert Eval(e[4].cond, s) && Eval(e[3].cond, s) && Eval(e[2].cond, s);
    assert !Eval(e[1].cond, s) && !Eval(e[0].cond, s);
    var b2, b3, b4 := Button(2, Caption(e[2], true)), Button(3, Caption(e[3], true)), Button(4, Caption(e[4], true));
    assert VisibleFrom(e, 5, s, true) == [] by {
      assert VisibleFrom(e, 8, s, true) == [];
      assert VisibleFrom(e, 7, s, true) == [];
      assert VisibleFrom(e, 6, s, true) == [];
    }
    assert VisibleFrom(e, 4, s, true) == [b4];
    assert VisibleFrom(e, 3, s, true) == [b3, b4];
    assert VisibleFrom(e, 2, s, true) == [b2, b3, b4];
    assert VisibleFrom(e, 1, s, true) == [b2, b3, b4];
  }

  /**
   * After the gift, with fewer than ten coins and Hoofd not met, the pig
   * offers the second gift exit, Pray, the friendly pat and the strange man.
   */
  lemma FirstExitsAfterGift(s: Snapshot)
    requires Count(s.inventory, "Money") < 10
    requires Flag("money-given") in s.mods && Flag("hoofd-met") !in s.mods
    ensures Visible(First, s) == [
      Button(1, Caption(First.exits[1], true)),
      Button(2, Caption(First.exits[2], true)),
      Button(5, Caption(First.exits[5], true)),
      Button(6, Caption(First.exits[6], true))]
  {
    var e := First.exits;
    assert e[6].cond == And(MoneyGiven, NotInMods("hoofd-met"));
    assert Eval(MoneyGiven, s) && Eval(NotInMods("hoofd-met"), s);
    assert !Eval(e[7].cond, s) && Eval(e[6].cond, s) && Eval(e[5].cond, s);
    assert !Eval(e[4].cond, s) && !Eval(e[3].cond, s) && Eval(e[2].cond, s);
    assert Eval(e[1].cond, s) && !Eval(e[0].cond, s);
    var b1, b2, b5, b6 := Button(1, Caption(e[1], true)), Button(2, Caption(e[2], true)),
                          Button(5, Caption(e[5], true)), Button(6, Caption(e[6], true));
    assert VisibleFrom(e, 5, s, true) == [b5, b6] by {
      assert VisibleFrom(e, 8, s, true) == [];
      assert VisibleFrom(e, 7, s, true) == [];
      assert VisibleFrom(e, 6, s, true) == [b6];
    }
    assert VisibleFrom(e, 3, s, true) == [b5, b6] by {
      assert VisibleFrom(e, 4, s, true) == [b5, b6];
    }
    assert VisibleFrom(e, 2, s, true) == [b2, b5, b6];
    assert VisibleFrom(e, 1, s, true) == [b1, b2, b5, b6];
  }

  /** After the gift the pig's speaker is overridden by the empty string. */
  lemma FirstSpeakerAfterGift(s: Snapshot)
    requires Flag("money-given") in s.mods
    ensures Speaker(First, s) == ""
  {
    assert First.ifSpeakers == [Guarded("", MoneyGiven)];
    OverrideLastMatch(First.speaker, First.ifSpeakers, s, 0);
  }

  /** After the gift, and without ten coins, the pig's text is the thankful override alone. */
  lemma FirstTextAfterGift(s: Snapshot)
    requires Flag("money-given") in s.mods && Count(s.inventory, "Money") < 10
    ensures ComposedText(First, Story0.globalAdditions, s) == First.ifTexts[0].value + "\n"
  {
    OverrideLastMatch(First.text, First.ifTexts, s, 0);
    var g := Story0.globalAdditions;
    assert !Eval(g[0].cond, s);
    assert Matching(g, s) == [] by {
      assert Matching(g, s) == Matching(g[..0], s) + [];
    }
    assert Matching(First.ifTextAdditions, s) == [];
    assert Lines([]) == "";
  }

  /** With ten coins and no gift yet, the global addition tells the player so. */
  lemma RichPlayerSeesAddition(s: Snapshot)
    requires Count(s.inventory, "Money") == 10 && s.current == Some("first")
    requires Flag("money-given") !in s.mods
    ensures ComposedText(First, Story0.globalAdditions, s)
      == First.text + "\n" + "\n" + Story0.globalAdditions[0].value
  {
    assert First.ifTexts[0].cond == MoneyGiven && !Eval(MoneyGiven, s);
    OverrideNoMatch(First.text, First.ifTexts, s);
    RichAddition(s);
    var v := Story0.globalAdditions[0].value;
    assert Lines([v]) == "\n" + v by {
      assert [v][..0] == [];
    }
    assert Matching(First.ifTextAdditions, s) == [];
    assert Lines([]) == "";
  }

  /** The one global addition matches with ten coins anywhere but at `give`. */
  lemma RichAddition(s: Snapshot)
    requires Count(s.inventory, "Money") == 10 && s.current == Some("first")
    ensures Matching(Story0.globalAdditions, s) == [Story0.globalAdditions[0].value]
  {
    var g := Story0.globalAdditions;
    assert "first" != "give";
    assert g[0].cond == And(InvCount("Money", Ge, 10), CurrentIsNot("give"));
    assert Eval(InvCount("Money", Ge, 10), s) && Eval(CurrentIsNot("give"), s);
    assert Matching(g, s) == Matching(g[..0], s) + [g[0].value];
  }

  /** With no coin at all both overrides of `give` match, and the later one wins. */
  lemma LastOverrideWins(s: Snapshot)
    requires Count(s.inventory, "Money") == 0 && s.current == Some("give")
    ensures ComposedText(Give, Story0.globalAdditions, s) == Give.ifTexts[1].value + "\n"
  {
    assert Give.ifTexts[1].cond == InvCount("Money", Lt, 10) && Eval(Give.ifTexts[1].cond, s);
    OverrideLastMatch(Give.text, Give.ifTexts, s, 1);
    var g := Story0.globalAdditions;
    assert !Eval(g[0].cond, s);
    assert Matching(g, s) == [] by {
      assert Matching(g, s) == Matching(g[..0], s) + [];
    }
    assert Matching(Give.ifTextAdditions, s) == [];
    assert Lines([]) == "";
  }

  /**
   * Giving ten coins to the pig: the text is resolved before the on-enter
   * pass (so it is the thankful base text, not the empty-purse override),
   * the pass records the gift and takes every coin, the inventory label
   * and exits are redrawn after it, and `give` is appended to the history.
   */
  lemma GiveTenCoins(g: Game, rnum: int, rnum2: int)
    requires g.player.current == Some(First) && g.screen.Showing?
    requires g.player.inventory == TenCoins && g.modifiers == []
    ensures Press(g, Story0, 0, rnum, rnum2) == Step(
      Game(PlayerState(Some(Give), [], Some(First), g.player.history + [Give]), [Flag("money-given")], g.variables,
        Showing(g.screen.view.(picture := None, text := Rendered(Give.text + "\n", false, true), speaker := "",
          inventory := "Empty", buttons := [Button(0, Caption(Give.exits[0], true))])),
        g.saved),
      Continue)
  {
    RepeatCounts("Money", 10);
    assert First.exits[0].target == "give";
    assert Resolve(Story0, "give") == Some(Give);
    var g1 := g.(player := g.player.(previous := Some(First)));
    GiveEnter(g1, rnum, rnum2);
  }

  /** Entering `give` with ten coins, the step GiveTenCoins takes after the press. */
  lemma GiveEnter(g: Game, rnum: int, rnum2: int)
    requires g.screen.Showing?
    requires Count(g.player.inventory, "Money") == 10 && forall i :: 0 <= i < |g.player.inventory| ==> g.player.inventory[i] == "Money"
    requires g.modifiers == []
    ensures Enter(g, Story0, Give, rnum, rnum2) == Step(
      g.(player := g.player.(current := Some(Give), inventory := [], history := g.player.history + [Give]),
         modifiers := [Flag("money-given")],
         screen := Showing(g.screen.view.(picture := None, text := Rendered(Give.text + "\n", false, true), speaker := "",
           inventory := "Empty", buttons := [Button(0, Caption(Give.exits[0], true))]))),
      Continue)
  {
    var g1 := g.(player := g.player.(current := Some(Give)));
    assert WithMyVars(g1, Story0, rnum) == (g1, None);
    var s := SnapshotOf(g1, rnum);
    GiveTextBeforePass(s);
    var view := g1.screen.view.(picture := None, text := Rendered(Give.text + "\n", false, true), speaker := "");
    var g2 := g1.(screen := Showing(view));
    GivePass(g2, rnum, rnum2);
    var g4 := g2.(modifiers := [Flag("money-given")], player := g2.player.(inventory := []));
    assert LocalizedInventory([], Story0.items, Story0.emptyLabel) == Some("Empty");
    assert Visible(Give, SnapshotOf(g4, rnum)) == [Button(0, Caption(Give.exits[0], true))] by {
      assert VisibleFrom(Give.exits, 1, SnapshotOf(g4, rnum), true) == [];
    }
  }

  /** With ten coins `give` shows its base text: no override and no global addition matches. */
  lemma GiveTextBeforePass(s: Snapshot)
    requires Count(s.inventory, "Money") == 10 && s.current == Some("give")
    ensures SceneText(Give, Story0, s) == Rendered(Give.text + "\n", false, true)
    ensures Speaker(Give, s) == "" && Picture(Give, Story0.globalImages, s) == None
  {
    assert Override(Give.text, Give.ifTexts, s) == Give.text;
    assert Matching(Story0.globalAdditions, s) == [] by {
      assert !Eval(Story0.globalAdditions[0].cond, s);
    }
    assert Matching(Give.ifTextAdditions, s) == [];
    assert Lines([]) == "";
    assert ComposedText(Give, Story0.globalAdditions, s) == Give.text + "\n";
  }

  /** The on-enter pass of `give` with ten coins: the gift is recorded and every coin is taken. */
  lemma GivePass(g: Game, rnum: int, rnum2: int)
    requires Count(g.player.inventory, "Money") == 10 && forall i :: 0 <= i < |g.player.inventory| ==> g.player.inventory[i] == "Money"
    requires g.modifiers == []
    ensures RunActions(g, Give.onEnter, Story0, rnum, rnum2)
      == Step(g.(modifiers := [Flag("money-given")], player := g.player.(inventory := [])), Continue)
  {
    var e := Give.onEnter;
    var s0 := SnapshotOf(g, rnum);
    assert e[0].cond == And(InvCount("Money", Ge, 10), NotInMods("money-given"));
    assert Eval(InvCount("Money", Ge, 10), s0) && Eval(NotInMods("money-given"), s0);
    var g3 := g.(modifiers := [Flag("money-given")]);
    assert Apply(g, e[0].action, Story0, rnum, rnum2) == Step(g3, Continue);
    GivePassTail(g3, rnum, rnum2);
  }

  /** The second entry of the pass: every coin is taken. */
  lemma GivePassTail(g: Game, rnum: int, rnum2: int)
    requires Count(g.player.inventory, "Money") == 10 && forall i :: 0 <= i < |g.player.inventory| ==> g.player.inventory[i] == "Money"
    ensures RunActions(g, Give.onEnter[1..], Story0, rnum, rnum2)
      == Step(g.(player := g.player.(inventory := [])), Continue)
  {
    var e := Give.onEnter[1..];
    assert e[0].cond == InvCount("Money", Ge, 10);
    assert Eval(e[0].cond, SnapshotOf(g, rnum));
    RemoveAllSame(g.player.inventory, "Money");
    var g4 := g.(player := g.player.(inventory := []));
    assert Apply(g, e[0].action, Story0, rnum, rnum2) == Step(g4, Continue);
    assert RunActions(g4, e[1..], Story0, rnum, rnum2) == Step(g4, Continue);
  }

  /** With only coins in the inventory the label names every item. */
  lemma CoinsAreNamed(inventory: seq<string>)
    requires forall i :: 0 <= i < |inventory| ==> inventory[i] == "Money"
    ensures ComposedPanel(inventory, Story0).Some?
  {
    TallyContents(inventory);
    var t := TallyOf(inventory);
    forall i | 0 <= i < |t.keys|
      ensures t.keys[i] in Story0.items
    {
      assert t.keys[i] in inventory;
    }
  }

  /**
   * Praying for the fourth time with ten coins: `overpray` is added, the
   * farewell is notified and the pass goes to `game_over`, so the handler
   * returns there without recording `pray` in the history.
   */
  lemma PrayTooMuch(g: Game, rnum: int, rnum2: int)
    requires g.player.current == Some(First) && g.screen.Showing?
    requires Count(g.player.inventory, "Money") == 10 && forall i :: 0 <= i < |g.player.inventory| ==> g.player.inventory[i] == "Money"
    requires Count(g.modifiers, Flag("overpray")) == 3
    ensures var st := Press(g, Story0, 2, rnum, rnum2);
      st.status == Return
      && st.game.player == g.player.(previous := Some(First), current := Some(GameOverFixed))
      && st.game.modifiers == g.modifiers + [Flag("overpray")]
  {
    assert First.exits[2].target == "pray";
    assert Resolve(Story0, "pray") == Some(Pray);
    var g1 := g.(player := g.player.(previous := Some(First), current := Some(Pray)));
    assert WithMyVars(g1, Story0, rnum) == (g1, None);
    var s := SnapshotOf(g1, rnum);
    var view := g1.screen.view.(picture := Picture(Pray, Story0.globalImages, s),
                                text := SceneText(Pray, Story0, s), speaker := Speaker(Pray, s));
    PrayPass(g1.(screen := Showing(view)), rnum, rnum2);
  }

  /** The on-enter pass of PrayTooMuch. */
  lemma PrayPass(g: Game, rnum: int, rnum2: int)
    requires Count(g.player.inventory, "Money") == 10 && forall i :: 0 <= i < |g.player.inventory| ==> g.player.inventory[i] == "Money"
    requires Count(g.modifiers, Flag("overpray")) == 3
    ensures var st := RunActions(g, Pray.onEnter, Story0, rnum, rnum2);
      st.status == Return
      && st.game.player == g.player.(current := Some(GameOverFixed))
      && st.game.modifiers == g.modifiers + [Flag("overpray")]
  {
    var g1 := g.(modifiers := g.modifiers + [Flag("overpray")]);
    PrayPassHead(g, rnum, rnum2);
    assert multiset(g1.modifiers) == multiset(g.modifiers) + multiset{Flag("overpray")};
    PrayPassTail(g1, rnum, rnum2);
  }

  /** The first two entries of the pass: no coin falls, and `overpray` is added. */
  lemma PrayPassHead(g: Game, rnum: int, rnum2: int)
    requires Count(g.player.inventory, "Money") == 10
    ensures RunActions(g, Pray.onEnter, Story0, rnum, rnum2)
      == RunActions(g.(modifiers := g.modifiers + [Flag("overpray")]), Pray.onEnter[2..], Story0, rnum, rnum2)
  {
    var e := Pray.onEnter;
    var s0 := SnapshotOf(g, rnum);
    assert e[0].cond == InvCount("Money", Lt, 10);
    assert !Eval(e[0].cond, s0);
    assert e[1].cond == Or(InvCount("Money", Ge, 10), MoneyGiven);
    assert Eval(InvCount("Money", Ge, 10), s0);
    var g1 := g.(modifiers := g.modifiers + [Flag("overpray")]);
    assert Apply(g, e[1].action, Story0, rnum, rnum2) == Step(g1, Continue);
    assert RunActions(g, e[1..], Story0, rnum, rnum2) == RunActions(g1, e[1..][1..], Story0, rnum, rnum2);
    assert e[1..][1..] == e[2..];
  }

  /** The last two entries of the pass, on the fourth `overpray`: the farewell, then `game_over`. */
  lemma PrayPassTail(g: Game, rnum: int, rnum2: int)
    requires forall i :: 0 <= i < |g.player.inventory| ==> g.player.inventory[i] == "Money"
    requires Count(g.modifiers, Flag("overpray")) == 4
    ensures var st := RunActions(g, Pray.onEnter[2..], Story0, rnum, rnum2);
      st.status == Return
      && st.game.player == g.player.(current := Some(GameOverFixed))
      && st.game.modifiers == g.modifiers
  {
    var e := Pray.onEnter[2..];
    var s1 := SnapshotOf(g, rnum);
    assert e[0].cond == ModsCount("overpray", Gt, 3) && e[1].cond == e[0].cond;
    assert Eval(e[0].cond, s1);
    assert Apply(g, e[0].action, Story0, rnum, rnum2) == Step(g, Continue);
    CoinsAreNamed(g.player.inventory);
    assert Resolve(Story0, "game_over") == Some(GameOverFixed);
    ComposeOutcome(g.(screen := Cleared), Story0, "game_over", rnum2);
    var st := Apply(g, e[1].action, Story0, rnum, rnum2);
    assert st.status == Return;
    assert RunActions(g, e[1..], Story0, rnum, rnum2) == st;
  }

  /**
   * As scenes_en.py writes the end scene, its exits name `SYS.RESTART`
   * without the `!` prefix, which is looked up as a scene of the story and
   * not found: pressing any of them crashes.
   */
  lemma GameOverExitCrashes(g: Game, i: nat, rnum: int, rnum2: int)
    requires g.player.current == Some(GameOver) && g.screen.Showing? && i < 3
    ensures Press(g, Story0, i, rnum, rnum2)
      == Step(g.(player := g.player.(previous := Some(GameOver))), Crashed(UnknownScene("SYS.RESTART")))
  {
    assert GameOver.exits[i].target == "SYS.RESTART";
    assert "SYS.RESTART" !in Story0.scenes;
  }

  /**
   * With the `!` prefix the same exit reaches the system RESTART scene,
   * whose on-enter action restarts the game at `first` with a new player.
   */
  lemma GameOverFixedRestarts(g: Game, i: nat, rnum: int, rnum2: int)
    requires g.player.current == Some(GameOverFixed) && g.screen.Showing? && i < 3
    ensures var st := Press(g, Story0, i, rnum, rnum2);
      st.status == Return
      && st.game.player == PlayerState(Some(First), [], None, [])
      && st.game.modifiers == [] && st.game.variables == map[]
  {
    assert GameOverFixed.exits[i].target == RestartTarget;
    EnterRestartScene(g.(player := g.player.(previous := Some(GameOverFixed))), rnum, rnum2);
  }

  /** Entering the system RESTART scene runs its one action, the restart. */
  lemma EnterRestartScene(g: Game, rnum: int, rnum2: int)
    requires g.screen.Showing?
    ensures var st := Enter(g, Story0, RestartScene, rnum, rnum2);
      st.status == Return
      && st.game.player == PlayerState(Some(First), [], None, [])
      && st.game.modifiers == [] && st.game.variables == map[]
  {
    var g1 := g.(player := g.player.(current := Some(RestartScene)));
    assert WithMyVars(g1, Story0, rnum) == (g1, None);
    var s := SnapshotOf(g1, rnum);
    var view := g1.screen.view.(picture := Picture(RestartScene, Story0.globalImages, s),
                                text := SceneText(RestartScene, Story0, s), speaker := Speaker(RestartScene, s));
    var g2 := g1.(screen := Showing(view));
    assert RunActions(g2, RestartScene.onEnter, Story0, rnum, rnum2) == Restart(g2, Story0, rnum2) by {
      assert RestartScene.onEnter == [Entry(OnGame(RestartGame), Always)];
    }
    RestartIsClean(g2, rnum2);
  }

  /** A restart of this story always succeeds and starts over at `first`. */
  lemma RestartIsClean(g: Game, rnum: int)
    ensures var st := Restart(g, Story0, rnum);
      st.status == Return
      && st.game.player == PlayerState(Some(First), [], None, [])
      && st.game.modifiers == [] && st.game.variables == map[]
  {
    RestartOutcome(g, Story0, rnum);
    CoinsAreNamed([]);
    var start := g.(player := PlayerState(Some(First), [], None, []), screen := Cleared);
    assert Resolve(Story0, FirstScene) == Some(First);
    ComposeOutcome(start, Story0, FirstScene, rnum);
    assert AssignMyVars(SnapshotOf(start, rnum), Story0.myVars).failed.None?;
  }

  /**
   * Saved on `first` with an empty history, then `give` was entered: loading
   * as main.py writes it keeps the history `[give]`, while the saved one was
   * empty.
   */
  lemma LoadKeepsHistoryAsWritten()
    ensures var g := Game(PlayerState(Some(Give), [], Some(First), [Give]), [], map[], Cleared,
                          Some(SaveData("first", [], "", [], map[], [])));
      RestoreAsWritten(g, Story0, g.saved.value).status == Continue
      && RestoreAsWritten(g, Story0, g.saved.value).game.player.history == [Give]
      && Restore(g, Story0, g.saved.value).game.player.history == []
  {
  }
}
