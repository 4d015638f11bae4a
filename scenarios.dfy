/** Worked examples: whole descriptions built and run. */
module Scenarios {
  import opened Outcomes
  import opened StateNames
  import opened Tapes
  import opened TransitionSyntax
  import opened Machines

  lemma StandardNames()
    ensures IsStateName("q0") && IsStateName("qA") && IsStateName("qR")
  {
  }

  /** Three state lines and no transitions: the first lookup misses and the word is rejected. */
  lemma NoTransitionsRejects()
    ensures Describe(["q0", "qA", "qR"]) == Success(Description("q0", "qA", "qR", map[]))
    ensures Outcome(Describe(["q0", "qA", "qR"]).value, "1", 1) == Halted(false)
  {
    StandardNames();
    var M := ["q0", "qA", "qR"];
    assert M[3..] == [];
    NoTransitionFromInitial(Describe(M).value, "1", 1);
  }

  /** A name starting with a digit on the first line stops construction with InvalidState. */
  lemma DigitFirstStateFails()
    ensures Describe(["1q", "qA", "qR"]) == Failure(InvalidState)
  {
    assert !IsLetter("1q"[0]);
  }

  /** A move other than R or L is not a transition line. */
  lemma BadMoveFails()
    ensures ParseLine("t(q0,1)=(q0,1,Z)") == Failure(InvalidTransition)
  {
    var s := "t(q0,1)=(q0,1,Z)";
    forall i | 0 <= i < |s| ensures s[i] != 'R' && s[i] != 'L' {
      NoMoveLetter(i);
    }
    if FindRule(s).Some? {
      FindRuleNeedsMove(s);
    }
  }

  /** The search is not anchored: text before and after a transition is skipped. */
  lemma SurroundedLineParses()
    ensures ParseLine("xt(q0,1)=(q1,1,R)yy") == Success(Rule("q0", '1', "q1", "1", 'R'))
  {
    var s := "xt(q0,1)=(q1,1,R)yy";
    SurroundedMatch();
    SurroundedNoMatchAtStart();
    FindRuleLeftmost(s, 1);
    assert IsStateName("q0") && IsStateName("q1");
  }

  lemma SurroundedMatch()
    ensures MatchRule("xt(q0,1)=(q1,1,R)yy"[1..]) == Some((Rule("q0", '1', "q1", "1", 'R'), "yy"))
  {
    var r := Rule("q0", '1', "q1", "1", 'R');
    assert "xt(q0,1)=(q1,1,R)yy"[1..] == Format(r) + "yy";
    MatchRuleComplete(r, "yy");
  }

  lemma SurroundedNoMatchAtStart()
    ensures MatchRule("xt(q0,1)=(q1,1,R)yy"[0..]).None?
  {
    assert "xt(q0,1)=(q1,1,R)yy"[0..][0] == 'x';
  }

  lemma NoMoveLetter(i: nat)
    requires i < |"t(q0,1)=(q0,1,Z)"|
    ensures "t(q0,1)=(q0,1,Z)"[i] != 'R' && "t(q0,1)=(q0,1,Z)"[i] != 'L'
  {
  }

  /** The unary-increment machine: move right over the 1s, write a 1 on the first blank, accept. */
  function IncrementLines(): seq<string> {
    ["q0", "qA", "qR", "t(q0,1)=(q0,1,R)", "t(q0,⊔)=(qA,1,R)"]
  }

  function IncrementTable(): Table {
    map[("q0", '1') := Action("q0", "1", 'R'), ("q0", Blank) := Action("qA", "1", 'R')]
  }

  lemma IncrementLinesParse()
    ensures ParseLine(IncrementLines()[3]) == Success(Rule("q0", '1', "q0", "1", 'R'))
    ensures ParseLine(IncrementLines()[4]) == Success(Rule("q0", Blank, "qA", "1", 'R'))
  {
    var r1 := Rule("q0", '1', "q0", "1", 'R');
    var r2 := Rule("q0", Blank, "qA", "1", 'R');
    StandardNames();
    assert Format(r1) == IncrementLines()[3];
    assert Format(r2) == IncrementLines()[4];
    ParseLineFormat(r1);
    ParseLineFormat(r2);
  }

  lemma IncrementTableBuilt()
    ensures AddLines(map[], IncrementLines()[3..]) == Success(IncrementTable())
  {
    var r1 := Rule("q0", '1', "q0", "1", 'R');
    var r2 := Rule("q0", Blank, "qA", "1", 'R');
    var lines := IncrementLines()[3..];
    IncrementLinesParse();
    assert lines[0] == IncrementLines()[3] && lines[1..] == [IncrementLines()[4]];
    var t1 := map[][Key(r1) := ActionOf(r1)];
    assert AddLines(map[], lines) == AddLines(t1, lines[1..]);
    assert AddLines(t1, lines[1..]) == AddLines(t1[Key(r2) := ActionOf(r2)], []);
    assert t1[Key(r2) := ActionOf(r2)] == IncrementTable();
  }

  lemma IncrementDescribed()
    ensures Describe(IncrementLines()) == Success(Description("q0", "qA", "qR", IncrementTable()))
  {
    StandardNames();
    IncrementTableBuilt();
  }

  /** On "11" the increment machine accepts after three steps, leaving 111 and a blank on the tape. */
  lemma IncrementAccepts()
    ensures var d := Description("q0", "qA", "qR", IncrementTable());
      Execute(d, Config("q0", Initial("11")), 3) == (Halted(true), Config("qA", TapeState("111" + [Blank], 3)))
  {
    var d := Description("q0", "qA", "qR", IncrementTable());
    var c0 := Config("q0", Initial("11"));
    var c1 := Config("q0", TapeState("11", 1));
    var c2 := Config("q0", TapeState("11" + [Blank], 2));
    var c3 := Config("qA", TapeState("111" + [Blank], 3));
    assert Blanks(0) == [];
    assert Blanks(1) == [Blank];
    assert Step(d.table, c0) == Next(c1);
    assert Step(d.table, c1) == Next(c2);
    assert ("11" + [Blank])[2 := '1'] == "111";
    assert Step(d.table, c2) == Next(c3);
  }

  /** t(q0,a)=(q1,a,R) and t(q1,a)=(qA,a,R): from q0 the word "a" is rejected, from q1 it is accepted. */
  function RerunDescription(): Description {
    Description("q0", "qA", "qR", map[("q0", 'a') := Action("q1", "a", 'R'), ("q1", 'a') := Action("qA", "a", 'R')])
  }

  /**
   * The first run on "a" ends by a missed lookup in q1, not in a terminal
   * state; a run on "a" that starts in q1 accepts.
   */
  lemma RerunFromLeftoverState()
    ensures Execute(RerunDescription(), Config("q0", Initial("a")), 2) == (Halted(false), Config("q1", TapeState("a" + [Blank], 1)))
    ensures Execute(RerunDescription(), Config("q1", Initial("a")), 2).0 == Halted(true)
  {
    var d := RerunDescription();
    assert Blanks(1) == [Blank];
    assert Step(d.table, Config("q0", Initial("a"))) == Next(Config("q1", TapeState("a" + [Blank], 1)));
    assert Step(d.table, Config("q1", Initial("a"))) == Next(Config("qA", TapeState("a" + [Blank], 1)));
  }

  /** The same machine run twice on the same word gives two different verdicts, because the state register is not reset. */
  method RerunDisagrees() returns (first: Verdict, second: Verdict)
    ensures first == Halted(false) && second == Halted(true)
  {
    RerunFromLeftoverState();
    var m := new TuringMachine(RerunDescription());
    first := m.Run("a", 2);
    second := m.Run("a", 2);
  }

  /** Starting every run from the initial state gives the same verdict each time. */
  method RerunsAgree(m: TuringMachine, w: string, fuel: nat) returns (first: Verdict, second: Verdict)
    modifies m
    ensures first == second == Outcome(m.Spec(), w, fuel)
  {
    first := m.RunFromInitial(w, fuel);
    second := m.RunFromInitial(w, fuel);
  }

  method FreshRerunAgrees() returns (first: Verdict, second: Verdict)
    ensures first == Halted(false) && second == Halted(false)
  {
    RerunFromLeftoverState();
    var m := new TuringMachine(RerunDescription());
    first, second := RerunsAgree(m, "a", 2);
  }
}
