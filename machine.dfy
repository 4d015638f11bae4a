/**
 * A deterministic single-tape Turing machine: its description (three
 * distinguished states and a transition table), how a description is built
 * from text lines, and how the machine runs on a word.
 */
module Machines {
  import opened Outcomes
  import opened StateNames
  import opened Tapes
  import opened TransitionSyntax

  /** What a transition does: the state to enter, the value to write, the head move. */
  datatype Action = Action(next: string, write: string, move: char)

  /** Transitions keyed by (current state, symbol under the head). */
  type Table = map<(string, char), Action>

  datatype Description = Description(initial: string, accept: string, reject: string, table: Table)

  // ---------------------------------------------------------------------------
  // Building a description from its lines
  // ---------------------------------------------------------------------------

  /** How checking line `j` as a state name fails with `e`. */
  predicate StateLineFails(M: seq<string>, j: nat, e: Error) {
    if j >= |M| || M[j] == [] then e == OutOfRange
    else e == InvalidState && ValidState(M[j]) == Success(false)
  }

  /** Line `j` checked as a state name: a missing line or an empty name is an indexing error. */
  function CheckStateLine(M: seq<string>, j: nat): (r: Status)
    ensures r == Pass <==> j < |M| && ValidState(M[j]) == Success(true)
    ensures r.Fail? ==> StateLineFails(M, j, r.error)
  {
    if j >= |M| then Fail(OutOfRange)
    else
      match ValidState(M[j])
      case Failure(e) => Fail(e)
      case Success(ok) => if ok then Pass else Fail(InvalidState)
  }

  /**
   * Lines 0, 1 and 2 checked as state names, left to right, stopping at the
   * first that fails.
   */
  function CheckStateLines(M: seq<string>): (r: Status)
    ensures r == Pass <==> |M| >= 3 && IsStateName(M[0]) && IsStateName(M[1]) && IsStateName(M[2])
  {
    var first := CheckStateLine(M, 0);
    if first.Fail? then first
    else
      var second := CheckStateLine(M, 1);
      if second.Fail? then second else CheckStateLine(M, 2)
  }

  /** The lines before line `j` are present and name valid states. */
  predicate StateLinesPassBefore(M: seq<string>, j: nat) {
    forall i: nat :: i < j ==> CheckStateLine(M, i) == Pass
  }

  /** A failed check reports the error of the first of the three lines that fails. */
  lemma StateLinesFirstFailure(M: seq<string>)
    requires CheckStateLines(M).Fail?
    ensures exists j :: 0 <= j < 3 && StateLineFails(M, j, CheckStateLines(M).error) && StateLinesPassBefore(M, j)
  {
    var e := CheckStateLines(M).error;
    if CheckStateLine(M, 0).Fail? {
      assert StateLineFails(M, 0, e) && StateLinesPassBefore(M, 0);
    } else if CheckStateLine(M, 1).Fail? {
      assert StateLineFails(M, 1, e) && StateLinesPassBefore(M, 1);
    } else {
      forall i: nat | i < 2 ensures CheckStateLine(M, i) == Pass {
        assert i == 0 || i == 1;
      }
      assert StateLineFails(M, 2, e) && StateLinesPassBefore(M, 2);
    }
  }

  function Key(r: Rule): (string, char) {
    (r.state, r.read)
  }

  function ActionOf(r: Rule): Action {
    Action(r.next, r.write, r.move)
  }

  /**
   * One transition line: the first match of the grammar in the line, whose
   * two state names must then both satisfy the naming rule.
   */
  function ParseLine(line: string): (r: Result<Rule>)
    ensures r.Failure? ==> r.error in {InvalidTransition, InvalidState}
    ensures r.Failure? ==> (r.error == InvalidTransition <==> FindRule(line).None?)
    ensures r.Success? <==>
      FindRule(line).Some? && IsStateName(FindRule(line).value.state) && IsStateName(FindRule(line).value.next)
    ensures r.Success? ==> FindRule(line) == Some(r.value)
    ensures r.Success? ==>
      WellFormed(r.value) && ValidState(r.value.state) == Success(true) && ValidState(r.value.next) == Success(true)
  {
    match FindRule(line)
    case None => Failure(InvalidTransition)
    case Some(rule) =>
      FindRuleSound(line);
      if ValidState(rule.state) == Success(true) && ValidState(rule.next) == Success(true)
      then Success(rule)
      else Failure(InvalidState)
  }

  /** The text of a rule with valid state names parses back to that rule. */
  lemma ParseLineFormat(r: Rule)
    requires WellFormed(r) && IsStateName(r.state) && IsStateName(r.next)
    ensures ParseLine(Format(r)) == Success(r)
  {
    FindRuleFormat(r);
  }

  /** The lines added to table `t` in order, a later line overriding an earlier one with the same key. */
  function AddLines(t: Table, lines: seq<string>): (r: Result<Table>)
    ensures r.Success? ==> t.Keys <= r.value.Keys
    decreases |lines|
  {
    if lines == [] then Success(t)
    else
      match ParseLine(lines[0])
      case Failure(e) => Failure(e)
      case Success(r) => AddLines(t[Key(r) := ActionOf(r)], lines[1..])
  }

  /** The machine a list of description lines defines, or the first error in it. */
  function Describe(M: seq<string>): (r: Result<Description>)
    ensures r.Success? ==> IsStateName(r.value.initial) && IsStateName(r.value.accept) && IsStateName(r.value.reject)
  {
    match CheckStateLines(M)
    case Fail(e) => Failure(e)
    case Pass =>
      match AddLines(map[], M[3..])
      case Failure(e) => Failure(e)
      case Success(t) => Success(Description(M[0], M[1], M[2], t))
  }

  /** Line `i` parses to a rule with key `k`. */
  predicate LineDefines(lines: seq<string>, i: int, k: (string, char))
    requires 0 <= i < |lines|
  {
    ParseLine(lines[i]).Success? && Key(ParseLine(lines[i]).value) == k
  }

  /** Adding lines succeeds exactly when every line parses. */
  lemma {:induction false} AddLinesSucceeds(t: Table, lines: seq<string>)
    ensures AddLines(t, lines).Success? <==> forall i :: 0 <= i < |lines| ==> ParseLine(lines[i]).Success?
    decreases |lines|
  {
    if lines != [] {
      AddLinesSucceeds(t, lines[1..]);
      if ParseLine(lines[0]).Success? {
        AddLinesSucceeds(t[Key(ParseLine(lines[0]).value) := ActionOf(ParseLine(lines[0]).value)], lines[1..]);
      }
      forall i | 1 <= i < |lines| ensures lines[i] == lines[1..][i - 1] { }
    }
  }

  /** A failure is the error of the first line that does not parse. */
  lemma {:induction false} AddLinesFirstError(t: Table, lines: seq<string>)
    requires AddLines(t, lines).Failure?
    ensures exists i :: (0 <= i < |lines| && ParseLine(lines[i]) == Failure(AddLines(t, lines).error) &&
      forall j :: 0 <= j < i ==> ParseLine(lines[j]).Success?)
    decreases |lines|
  {
    if ParseLine(lines[0]).Success? {
      var r := ParseLine(lines[0]).value;
      AddLinesFirstError(t[Key(r) := ActionOf(r)], lines[1..]);
      var i :| 0 <= i < |lines[1..]| && ParseLine(lines[1..][i]) == Failure(AddLines(t, lines).error) &&
        forall j :: 0 <= j < i ==> ParseLine(lines[1..][j]).Success?;
      assert ParseLine(lines[i + 1]) == Failure(AddLines(t, lines).error);
      forall j | 0 <= j < i + 1 ensures ParseLine(lines[j]).Success? {
        if j > 0 {
          assert lines[j] == lines[1..][j - 1];
        }
      }
    }
  }

  /** A key no line defines keeps whatever the starting table had for it. */
  lemma {:induction false} AddLinesUntouched(t: Table, lines: seq<string>, k: (string, char))
    requires AddLines(t, lines).Success?
    requires forall i :: 0 <= i < |lines| ==> !LineDefines(lines, i, k)
    ensures k in AddLines(t, lines).value <==> k in t
    ensures k in t ==> AddLines(t, lines).value[k] == t[k]
    decreases |lines|
  {
    if lines != [] {
      var r := ParseLine(lines[0]).value;
      assert !LineDefines(lines, 0, k);
      forall i | 0 <= i < |lines[1..]| ensures !LineDefines(lines[1..], i, k) {
        assert lines[1..][i] == lines[i + 1];
        assert !LineDefines(lines, i + 1, k);
      }
      AddLinesUntouched(t[Key(r) := ActionOf(r)], lines[1..], k);
    }
  }

  /** The entry for a key is the action of the last line that defines the key. */
  lemma {:induction false} AddLinesLastWins(t: Table, lines: seq<string>, i: nat)
    requires AddLines(t, lines).Success?
    requires i < |lines| && ParseLine(lines[i]).Success?
    requires forall j :: i < j < |lines| ==> !LineDefines(lines, j, Key(ParseLine(lines[i]).value))
    ensures Key(ParseLine(lines[i]).value) in AddLines(t, lines).value
    ensures AddLines(t, lines).value[Key(ParseLine(lines[i]).value)] == ActionOf(ParseLine(lines[i]).value)
    decreases |lines|
  {
    var r := ParseLine(lines[0]).value;
    var k := Key(ParseLine(lines[i]).value);
    if i == 0 {
      forall j | 0 <= j < |lines[1..]| ensures !LineDefines(lines[1..], j, k) {
        assert lines[1..][j] == lines[j + 1];
        assert !LineDefines(lines, j + 1, k);
      }
      AddLinesUntouched(t[k := ActionOf(r)], lines[1..], k);
    } else {
      assert lines[1..][i - 1] == lines[i];
      forall j | i - 1 < j < |lines[1..]| ensures !LineDefines(lines[1..], j, k) {
        assert lines[1..][j] == lines[j + 1];
        assert !LineDefines(lines, j + 1, k);
      }
      AddLinesLastWins(t[Key(r) := ActionOf(r)], lines[1..], i - 1);
    }
  }

  /** What every entry of a table built from lines looks like. */
  predicate WellFormedTable(t: Table) {
    forall k :: k in t ==>
      && IsStateName(k.0)
      && IsStateName(t[k].next)
      && (t[k].write == NoOp || |t[k].write| == 1)
      && (t[k].move == 'R' || t[k].move == 'L')
  }

  lemma {:induction false} AddLinesWellFormed(t: Table, lines: seq<string>)
    requires WellFormedTable(t) && AddLines(t, lines).Success?
    ensures WellFormedTable(AddLines(t, lines).value)
    decreases |lines|
  {
    if lines != [] {
      var r := ParseLine(lines[0]).value;
      AddLinesWellFormed(t[Key(r) := ActionOf(r)], lines[1..]);
    }
  }

  /**
   * A description is built exactly when the three state lines are valid names
   * and every later line parses; it then names its states by lines 0 to 2 and
   * every entry of its table has valid state names, a writable value and a move.
   */
  lemma DescribeSucceeds(M: seq<string>)
    ensures Describe(M).Success? <==>
      CheckStateLines(M) == Pass && forall i :: 3 <= i < |M| ==> ParseLine(M[i]).Success?
    ensures Describe(M).Success? ==>
      var d := Describe(M).value;
      && d.initial == M[0] && d.accept == M[1] && d.reject == M[2]
      && IsStateName(d.initial) && IsStateName(d.accept) && IsStateName(d.reject)
      && WellFormedTable(d.table)
  {
    if CheckStateLines(M) == Pass {
      AddLinesSucceeds(map[], M[3..]);
      forall i | 3 <= i < |M| ensures M[i] == M[3..][i - 3] { }
      if AddLines(map[], M[3..]).Success? {
        AddLinesWellFormed(map[], M[3..]);
      }
    }
  }

  /** A failed build reports the state-line error, or else the error of the first bad transition line. */
  lemma DescribeFirstError(M: seq<string>)
    requires Describe(M).Failure?
    ensures CheckStateLines(M).Fail? ==> Describe(M).error == CheckStateLines(M).error
    ensures CheckStateLines(M) == Pass ==> exists i :: (3 <= i < |M| &&
      ParseLine(M[i]) == Failure(Describe(M).error) && forall j :: 3 <= j < i ==> ParseLine(M[j]).Success?)
  {
    if CheckStateLines(M) == Pass {
      AddLinesFirstError(map[], M[3..]);
      var i :| 0 <= i < |M[3..]| && ParseLine(M[3..][i]) == Failure(Describe(M).error) &&
        forall j :: 0 <= j < i ==> ParseLine(M[3..][j]).Success?;
      assert M[3..][i] == M[i + 3];
      forall j | 3 <= j < i + 3 ensures ParseLine(M[j]).Success? {
        assert M[3..][j - 3] == M[j];
      }
    }
  }

  /** In a built table, the entry for a key comes from the last transition line that defines it. */
  lemma DescribeTableLastWins(M: seq<string>, i: nat, k: (string, char))
    requires Describe(M).Success?
    requires 3 <= i < |M| && LineDefines(M, i, k)
    requires forall j :: i < j < |M| ==> !LineDefines(M, j, k)
    ensures k in Describe(M).value.table
    ensures Describe(M).value.table[k] == ActionOf(ParseLine(M[i]).value)
  {
    var lines := M[3..];
    assert lines[i - 3] == M[i];
    forall j | i - 3 < j < |lines| ensures !LineDefines(lines, j, k) {
      assert lines[j] == M[j + 3];
      assert !LineDefines(M, j + 3, k);
    }
    AddLinesLastWins(map[], lines, i - 3);
  }

  /** In a built table, a key is present exactly when some transition line defines it. */
  lemma DescribeTableKeys(M: seq<string>, k: (string, char))
    requires Describe(M).Success?
    ensures k in Describe(M).value.table <==> exists i :: 3 <= i < |M| && LineDefines(M, i, k)
  {
    var lines := M[3..];
    if exists i :: 3 <= i < |M| && LineDefines(M, i, k) {
      var i :| 3 <= i < |M| && LineDefines(M, i, k);
      DescribeTableLastWins(M, LastDefining(M, k, i), k);
    } else {
      forall j | 0 <= j < |lines| ensures !LineDefines(lines, j, k) {
        assert lines[j] == M[j + 3];
        assert !LineDefines(M, j + 3, k);
      }
      AddLinesUntouched(map[], lines, k);
    }
  }

  /** The index of the last line at or after `i` that defines `k`. */
  ghost function LastDefining(M: seq<string>, k: (string, char), i: nat): (last: nat)
    requires i < |M| && LineDefines(M, i, k)
    ensures i <= last < |M| && LineDefines(M, last, k)
    ensures forall j :: last < j < |M| ==> !LineDefines(M, j, k)
    decreases |M| - i
  {
    if exists j :: i < j < |M| && LineDefines(M, j, k) then
      var j :| i < j < |M| && LineDefines(M, j, k);
      LastDefining(M, k, j)
    else i
  }

  // ---------------------------------------------------------------------------
  // Running a description on a tape
  // ---------------------------------------------------------------------------

  /** The state register together with the tape. */
  datatype Config = Config(state: string, tape: TapeState)

  /** How a run ends: halted with a verdict, stopped by an error, or still going when the step budget ran out. */
  datatype Verdict = Halted(accepted: bool) | Crashed(error: Error) | OutOfFuel

  /**
   * One step: no transition for (state, symbol), or the configuration after
   * the transition, or an error together with the configuration reached when
   * it was raised (the state is already updated by then).
   */
  datatype StepResult = Next(after: Config) | NoRule | Crash(at: Config, error: Error)

  predicate Terminal(d: Description, c: Config) {
    c.state == d.accept || c.state == d.reject
  }

  /** One transition: enter the next state, write at the old head position, then move the head. */
  function Step(t: Table, c: Config): (r: StepResult)
    requires c.tape.Valid()
    ensures r.NoRule? <==> (c.state, c.tape.Read()) !in t
    ensures !r.NoRule? ==> (r.Next? ==> r.after.state == t[(c.state, c.tape.Read())].next)
    ensures r.Crash? ==> r.at.state == t[(c.state, c.tape.Read())].next
    ensures r.Next? ==>
      var a := t[(c.state, c.tape.Read())];
      var u := r.after.tape;
      && u.Valid()
      && |u.cells| >= |c.tape.cells|
      && (a.write == NoOp || |a.write| == 1)
      && u.cells[c.tape.head] == (if a.write == NoOp then c.tape.Read() else a.write[0])
      && (forall i :: 0 <= i < |c.tape.cells| && i != c.tape.head ==> u.cells[i] == c.tape.cells[i])
      && (forall i :: |c.tape.cells| <= i < |u.cells| ==> u.cells[i] == Blank)
      && (a.move == 'R' ==> u.head == c.tape.head + 1)
      && (a.move == 'L' ==> u.head == if c.tape.head > 0 then c.tape.head - 1 else 0)
    ensures r.Crash? ==>
      var a := t[(c.state, c.tape.Read())];
      if a.write == NoOp || |a.write| == 1 then r.error == InvalidMove && a.move != 'R' && a.move != 'L'
      else r.error == InvalidSymbol
  {
    var key := (c.state, c.tape.Read());
    if key !in t then NoRule
    else
      var a := t[key];
      match Written(c.tape, a.write)
      case Failure(e) => Crash(Config(a.next, c.tape), e)
      case Success(written) =>
        if a.move == 'R' then Next(Config(a.next, MovedRight(written)))
        else if a.move == 'L' then Next(Config(a.next, MovedLeft(written)))
        else Crash(Config(a.next, written), InvalidMove)
  }

  /**
   * Steps from `c` until the state is accept or reject, a lookup misses, an
   * error is raised, or `fuel` steps have been taken; the verdict and the
   * configuration it ends in.
   */
  function Execute(d: Description, c: Config, fuel: nat): (r: (Verdict, Config))
    requires c.tape.Valid()
    ensures r.0 == Halted(true) ==> r.1.state == d.accept
    ensures r.0 == OutOfFuel ==> !Terminal(d, r.1)
    decreases fuel
  {
    if Terminal(d, c) then (Halted(c.state == d.accept), c)
    else if fuel == 0 then (OutOfFuel, c)
    else
      match Step(d.table, c)
      case NoRule => (Halted(false), c)
      case Crash(at, e) => (Crashed(e), at)
      case Next(after) => Execute(d, after, fuel - 1)
  }

  /** The verdict of a run from the initial state on a fresh tape for `w`. */
  function Outcome(d: Description, w: string, fuel: nat): (v: Verdict)
    ensures d.initial == d.accept ==> v == Halted(true)
    ensures d.initial == d.reject && d.reject != d.accept ==> v == Halted(false)
  {
    Execute(d, Config(d.initial, Initial(w)), fuel).0
  }

  /**
   * A run halts only in the accept or reject state, with the verdict "state is
   * accept", or in another state whose lookup missed, with a rejection.
   */
  lemma {:induction false} ExecuteHalted(d: Description, c: Config, fuel: nat)
    requires c.tape.Valid()
    ensures var (v, last) := Execute(d, c, fuel);
      v.Halted? ==> (last.tape.Valid() &&
        if Terminal(d, last) then v.accepted == (last.state == d.accept)
        else !v.accepted && (last.state, last.tape.Read()) !in d.table)
    decreases fuel
  {
    if !Terminal(d, c) && fuel > 0 && Step(d.table, c).Next? {
      ExecuteHalted(d, Step(d.table, c).after, fuel - 1);
    }
  }

  /** The tape never shrinks during a run and its head stays on a cell. */
  lemma {:induction false} ExecuteTapeGrows(d: Description, c: Config, fuel: nat)
    requires c.tape.Valid()
    ensures Execute(d, c, fuel).1.tape.Valid()
    ensures |Execute(d, c, fuel).1.tape.cells| >= |c.tape.cells|
    decreases fuel
  {
    if !Terminal(d, c) && fuel > 0 && Step(d.table, c).Next? {
      ExecuteTapeGrows(d, Step(d.table, c).after, fuel - 1);
    }
  }

  /** A run that ended within its budget ends the same way under any larger budget. */
  lemma {:induction false} ExecuteMoreFuel(d: Description, c: Config, fuel: nat, more: nat)
    requires c.tape.Valid()
    requires fuel <= more && !Execute(d, c, fuel).0.OutOfFuel?
    ensures Execute(d, c, more) == Execute(d, c, fuel)
    decreases fuel
  {
    if !Terminal(d, c) && fuel > 0 && Step(d.table, c).Next? {
      ExecuteMoreFuel(d, Step(d.table, c).after, fuel - 1, more - 1);
    }
  }

  /**
   * On a table whose entries all write one symbol or nothing and move R or L
   * (every table built from lines is one), a run never stops on an error.
   */
  lemma {:induction false} ExecuteNeverCrashes(d: Description, c: Config, fuel: nat)
    requires c.tape.Valid() && WellFormedTable(d.table)
    ensures !Execute(d, c, fuel).0.Crashed?
    decreases fuel
  {
    if !Terminal(d, c) && fuel > 0 {
      var key := (c.state, c.tape.Read());
      if key in d.table {
        assert !Step(d.table, c).Crash?;
        ExecuteNeverCrashes(d, Step(d.table, c).after, fuel - 1);
      }
    }
  }

  /** A run that starts in the accept or reject state takes no step. */
  lemma ExecuteFromTerminal(d: Description, c: Config, fuel: nat)
    requires c.tape.Valid() && Terminal(d, c)
    ensures Execute(d, c, fuel) == (Halted(c.state == d.accept), c)
  {
  }

  /** With no transition out of a non-terminal initial state, the first lookup misses and the run rejects. */
  lemma NoTransitionFromInitial(d: Description, w: string, fuel: nat)
    requires fuel > 0 && d.initial != d.accept && d.initial != d.reject
    requires forall k :: k in d.table ==> k.0 != d.initial
    ensures Outcome(d, w, fuel) == Halted(false)
  {
    var c := Config(d.initial, Initial(w));
    assert (c.state, c.tape.Read()) !in d.table;
  }

  /** A machine object: the description it was built from and its state register. */
  class TuringMachine {
    const initial: string
    const accept: string
    const reject: string
    const transitions: Table
    var current: string

    function Spec(): Description {
      Description(initial, accept, reject, transitions)
    }

    constructor (d: Description)
      ensures Spec() == d && current == d.initial
    {
      current := d.initial;
      initial := d.initial;
      accept := d.accept;
      reject := d.reject;
      transitions := d.table;
    }

    /**
     * Runs the machine on `w` from whatever state the register holds, for at
     * most `fuel` steps; the register is left at the state the run ended in.
     */
    method Run(w: string, fuel: nat) returns (v: Verdict)
      modifies this
      ensures v == Execute(Spec(), Config(old(current), Initial(w)), fuel).0
      ensures current == Execute(Spec(), Config(old(current), Initial(w)), fuel).1.state
    {
      var tape := new Tape(w);
      ghost var start := Config(current, tape.Value());
      var left := fuel;
      while current != accept && current != reject
        invariant tape.Valid()
        invariant Execute(Spec(), Config(current, tape.Value()), left) == Execute(Spec(), start, fuel)
        decreases left
      {
        if left == 0 {
          return OutOfFuel;
        }
        var symbol := tape.Current();
        if (current, symbol) !in transitions {
          return Halted(false);
        }
        var a := transitions[(current, symbol)];
        current := a.next;
        var status := tape.Write(a.write);
        if status.Fail? {
          return Crashed(status.error);
        }
        if a.move == 'R' {
          tape.MoveRight();
        } else if a.move == 'L' {
          tape.MoveLeft();
        } else {
          return Crashed(InvalidMove);
        }
        left := left - 1;
      }
      return Halted(current == accept);
    }

    /** Runs the machine on `w` starting from its initial state, whatever an earlier run left behind. */
    method RunFromInitial(w: string, fuel: nat) returns (v: Verdict)
      modifies this
      ensures v == Outcome(Spec(), w, fuel)
      ensures current == Execute(Spec(), Config(initial, Initial(w)), fuel).1.state
    {
      current := initial;
      v := Run(w, fuel);
    }
  }

  /**
   * Builds a machine from description lines: the first three lines name the
   * initial, accept and reject states, every later line is a transition.
   */
  method Construct(M: seq<string>) returns (r: Result<TuringMachine>)
    ensures Describe(M).Failure? ==> r == Failure(Describe(M).error)
    ensures Describe(M).Success? ==>
      r.Success? && fresh(r.value) && r.value.Spec() == Describe(M).value && r.value.current == M[0]
  {
    var checked := CheckStateLines(M);
    if checked.Fail? {
      return Failure(checked.error);
    }
    var table: Table := map[];
    for i := 3 to |M|
      invariant AddLines(table, M[i..]) == AddLines(map[], M[3..])
    {
      assert M[i..][1..] == M[i + 1..];
      var line := ParseLine(M[i]);
      if line.Failure? {
        return Failure(line.error);
      }
      table := table[Key(line.value) := ActionOf(line.value)];
    }
    assert M[|M|..] == [];
    var m := new TuringMachine(Description(M[0], M[1], M[2], table));
    return Success(m);
  }
}
