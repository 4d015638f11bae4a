/**
 * The transition grammar t(Q,C)=(R,D,M): Q and R are runs of ASCII letters and
 * digits, C is any one character but a newline, D is one such character or the
 * no-op token NULL, M is R or L. A line is searched for the leftmost place where
 * the grammar matches, and the first match is the transition.
 */
module TransitionSyntax {
  import opened Outcomes
  import opened StateNames
  import opened Tapes

  /** The five parts of a transition line: t(state,read)=(next,write,move). */
  datatype Rule = Rule(state: string, read: char, next: string, write: string, move: char)

  predicate StartsWith(s: string, p: string) {
    |p| <= |s| && s[..|p|] == p
  }

  predicate IsStateToken(q: string) {
    q != [] && forall i :: 0 <= i < |q| ==> IsAlnum(q[i])
  }

  /** The rules the grammar can produce. */
  predicate WellFormed(r: Rule) {
    && IsStateToken(r.state)
    && r.read != '\n'
    && IsStateToken(r.next)
    && (r.write == NoOp || (|r.write| == 1 && r.write[0] != '\n'))
    && (r.move == 'R' || r.move == 'L')
  }

  /** The text of a rule as it is written in a machine description. */
  function Format(r: Rule): string {
    "t(" + r.state + "," + [r.read] + ")=(" + r.next + "," + r.write + "," + [r.move] + ")"
  }

  // Each matcher below consumes a prefix of its input and returns what is left.

  /** The fixed text `p`. */
  function Literal(s: string, p: string): (r: Option<string>)
    ensures r.Some? <==> StartsWith(s, p)
    ensures r.Some? ==> s == p + r.value
  {
    if StartsWith(s, p) then Some(s[|p|..]) else None
  }

  /** The length of the longest prefix of `s` made of ASCII letters and digits. */
  function AlnumRun(s: string): (n: nat)
    ensures n <= |s|
    ensures forall i :: 0 <= i < n ==> IsAlnum(s[i])
    ensures n < |s| ==> !IsAlnum(s[n])
  {
    if s == [] || !IsAlnum(s[0]) then 0 else 1 + AlnumRun(s[1..])
  }

  /** A state group `[a-zA-Z0-9]+`, taken as long as possible. */
  function StateToken(s: string): (r: Option<(string, string)>)
    ensures r.Some? ==> s == r.value.0 + r.value.1 && IsStateToken(r.value.0)
    ensures r.Some? ==> r.value.1 == [] || !IsAlnum(r.value.1[0])
  {
    var n := AlnumRun(s);
    if n == 0 then None else Some((s[..n], s[n..]))
  }

  /** The group `.`: any one character except a newline. */
  function AnyChar(s: string): (r: Option<(char, string)>)
    ensures r.Some? <==> s != [] && s[0] != '\n'
    ensures r.Some? ==> s == [r.value.0] + r.value.1
  {
    if s == [] || s[0] == '\n' then None else Some((s[0], s[1..]))
  }

  /**
   * The write group `(.|NULL)` with the comma after it. A single character is
   * tried first; NULL is tried only when the single character is not followed
   * by a comma, which is exactly when the first choice cannot succeed.
   */
  function WriteToken(s: string): (r: Option<(string, string)>)
    ensures r.Some? ==> s == r.value.0 + ("," + r.value.1)
    ensures r.Some? ==> r.value.0 == NoOp || (|r.value.0| == 1 && r.value.0[0] != '\n')
  {
    match AnyChar(s)
    case Some((x, rest)) =>
      if Literal(rest, ",").Some? then Some(([x], rest[1..]))
      else if Literal(s, NoOp + ",").Some? then Some((NoOp, s[5..]))
      else None
    case None => None
  }

  /** The move group `(R|L)`. */
  function MoveToken(s: string): (r: Option<(char, string)>)
    ensures r.Some? <==> s != [] && (s[0] == 'R' || s[0] == 'L')
    ensures r.Some? ==> s == [r.value.0] + r.value.1
  {
    if s != [] && (s[0] == 'R' || s[0] == 'L') then Some((s[0], s[1..])) else None
  }

  /** The left half `t(Q,C)=(` of the grammar: the state read, the symbol read, and what follows. */
  function MatchHead(s: string): (r: Option<(string, char, string)>)
    ensures r.Some? ==> IsStateToken(r.value.0) && r.value.1 != '\n'
    ensures r.Some? ==> s == "t(" + (r.value.0 + ("," + ([r.value.1] + (")=(" + r.value.2))))
  {
    match Literal(s, "t(")
    case None => None
    case Some(s1) =>
      match StateToken(s1)
      case None => None
      case Some((q, s2)) =>
        match Literal(s2, ",")
        case None => None
        case Some(s3) =>
          match AnyChar(s3)
          case None => None
          case Some((c, s4)) =>
            match Literal(s4, ")=(")
            case None => None
            case Some(s5) => Some((q, c, s5))
  }

  /** The right half `R,D,M)` of the grammar: the next state, the write value, the move, and what follows. */
  function MatchBody(s: string): (r: Option<(string, string, char, string)>)
    ensures r.Some? ==> IsStateToken(r.value.0) && (r.value.2 == 'R' || r.value.2 == 'L')
    ensures r.Some? ==> r.value.1 == NoOp || (|r.value.1| == 1 && r.value.1[0] != '\n')
    ensures r.Some? ==> s == r.value.0 + ("," + (r.value.1 + ("," + ([r.value.2] + (")" + r.value.3)))))
  {
    match StateToken(s)
    case None => None
    case Some((next, s6)) =>
      match Literal(s6, ",")
      case None => None
      case Some(s7) =>
        match WriteToken(s7)
        case None => None
        case Some((w, s8)) =>
          match MoveToken(s8)
          case None => None
          case Some((m, s9)) =>
            match Literal(s9, ")")
            case None => None
            case Some(s10) =>
              assert s8 == [m] + (")" + s10);
              assert s7 == w + ("," + s8);
              Some((next, w, m, s10))
  }

  /** The whole grammar matched against a prefix of `s`, with what follows the match. */
  function MatchRule(s: string): (r: Option<(Rule, string)>)
    ensures r.Some? ==> WellFormed(r.value.0)
  {
    match MatchHead(s)
    case None => None
    case Some((q, c, s5)) =>
      match MatchBody(s5)
      case None => None
      case Some((next, w, m, s10)) => Some((Rule(q, c, next, w, m), s10))
  }

  /** The first match found by scanning `s` from the left, as a regular-expression search does. */
  function FindRule(s: string): (r: Option<Rule>)
    ensures r.Some? ==> WellFormed(r.value)
    decreases |s|
  {
    match MatchRule(s)
    case Some((rule, _)) => Some(rule)
    case None => if s == [] then None else FindRule(s[1..])
  }

  lemma {:induction false} AlnumRunOf(x: string, y: string)
    requires forall i :: 0 <= i < |x| ==> IsAlnum(x[i])
    requires y != [] && !IsAlnum(y[0])
    ensures AlnumRun(x + y) == |x|
    decreases |x|
  {
    if x == [] {
      assert x + y == y;
    } else {
      assert (x + y)[1..] == x[1..] + y;
      AlnumRunOf(x[1..], y);
    }
  }

  lemma LiteralOf(p: string, rest: string)
    ensures Literal(p + rest, p) == Some(rest)
  {
  }

  lemma StateTokenOf(q: string, rest: string)
    requires IsStateToken(q) && rest != [] && !IsAlnum(rest[0])
    ensures StateToken(q + rest) == Some((q, rest))
  {
    AlnumRunOf(q, rest);
    assert (q + rest)[..|q|] == q;
    assert (q + rest)[|q|..] == rest;
  }

  lemma WriteTokenOf(w: string, rest: string)
    requires w == NoOp || (|w| == 1 && w[0] != '\n')
    ensures WriteToken(w + "," + rest) == Some((w, rest))
  {
    var s := w + "," + rest;
    if w == NoOp {
      assert s[1] == 'U';
      assert s[..5] == NoOp + ",";
      assert s[5..] == rest;
    } else {
      assert [w[0]] == w;
      assert s == [w[0]] + ("," + rest);
      assert AnyChar(s) == Some((w[0], "," + rest));
      LiteralOf(",", rest);
    }
  }

  /** The text of a rule followed by more text, grouped the way the matchers take it apart. */
  lemma FormatThen(r: Rule, tail: string)
    ensures Format(r) + tail ==
      "t(" + (r.state + ("," + ([r.read] + (")=(" + (r.next + ("," + (r.write + ("," + ([r.move] + (")" + tail))))))))))
  {
  }

  /** A prefix match is a well-formed rule whose text is followed by the rest. */
  lemma MatchRuleSound(s: string)
    requires MatchRule(s).Some?
    ensures WellFormed(MatchRule(s).value.0)
    ensures s == Format(MatchRule(s).value.0) + MatchRule(s).value.1
  {
    var (r, tail) := MatchRule(s).value;
    FormatThen(r, tail);
  }

  /** A well-formed rule written at the start of a line is what the prefix match finds. */
  lemma MatchRuleComplete(r: Rule, tail: string)
    requires WellFormed(r)
    ensures MatchRule(Format(r) + tail) == Some((r, tail))
  {
    var s9 := ")" + tail;
    var s8 := [r.move] + s9;
    var s7 := r.write + ("," + s8);
    var s6 := "," + s7;
    var s5 := r.next + s6;
    var s4 := ")=(" + s5;
    var s3 := [r.read] + s4;
    var s2 := "," + s3;
    var s1 := r.state + s2;
    FormatThen(r, tail);
    assert r.write + "," + s8 == s7;
    LiteralOf("t(", s1);
    StateTokenOf(r.state, s2);
    LiteralOf(",", s3);
    assert AnyChar(s3) == Some((r.read, s4));
    LiteralOf(")=(", s5);
    assert MatchHead(Format(r) + tail) == Some((r.state, r.read, s5));
    StateTokenOf(r.next, s6);
    LiteralOf(",", s7);
    WriteTokenOf(r.write, s8);
    assert MoveToken(s8) == Some((r.move, s9));
    LiteralOf(")", tail);
    assert MatchBody(s5) == Some((r.next, r.write, r.move, tail));
  }

  /** The search yields the match at the leftmost position where the grammar matches. */
  lemma {:induction false} FindRuleLeftmost(s: string, i: nat)
    requires i <= |s| && MatchRule(s[i..]).Some?
    requires forall j :: 0 <= j < i ==> MatchRule(s[j..]).None?
    ensures FindRule(s) == Some(MatchRule(s[i..]).value.0)
    decreases i
  {
    if i > 0 {
      assert s[0..] == s;
      forall j | 0 <= j < i - 1 ensures MatchRule(s[1..][j..]).None? {
        assert s[1..][j..] == s[j + 1..];
      }
      assert s[1..][i - 1..] == s[i..];
      FindRuleLeftmost(s[1..], i - 1);
    }
  }

  /** The search fails exactly when the grammar matches at no position. */
  lemma {:induction false} FindRuleNone(s: string)
    ensures FindRule(s).None? <==> forall i :: 0 <= i <= |s| ==> MatchRule(s[i..]).None?
    decreases |s|
  {
    assert s[0..] == s;
    if s != [] {
      FindRuleNone(s[1..]);
      forall i | 1 <= i <= |s| ensures s[i..] == s[1..][i - 1..] { }
    }
  }

  /** What the search returns is a well-formed rule whose text occurs in the line. */
  lemma {:induction false} FindRuleSound(s: string)
    requires FindRule(s).Some?
    ensures WellFormed(FindRule(s).value)
    ensures exists i :: 0 <= i <= |s| && StartsWith(s[i..], Format(FindRule(s).value))
    decreases |s|
  {
    if MatchRule(s).Some? {
      MatchRuleSound(s);
      assert s[0..] == s;
      assert StartsWith(s, Format(FindRule(s).value));
    } else {
      FindRuleSound(s[1..]);
      var i :| 0 <= i <= |s[1..]| && StartsWith(s[1..][i..], Format(FindRule(s).value));
      assert s[1..][i..] == s[i + 1..];
    }
  }

  /** Parsing the text of a well-formed rule gives the rule back. */
  lemma FindRuleFormat(r: Rule)
    requires WellFormed(r)
    ensures FindRule(Format(r)) == Some(r)
  {
    assert Format(r) + [] == Format(r);
    MatchRuleComplete(r, []);
  }

  /** A line holding a transition holds an R or an L: the move of the transition. */
  lemma FindRuleNeedsMove(s: string)
    requires FindRule(s).Some?
    ensures exists i :: 0 <= i < |s| && (s[i] == 'R' || s[i] == 'L')
  {
    var r := FindRule(s).value;
    FindRuleSound(s);
    var i :| 0 <= i <= |s| && StartsWith(s[i..], Format(r));
    var f := Format(r);
    assert f[|f| - 2] == r.move;
    assert s[i + |f| - 2] == s[i..][..|f|][|f| - 2];
  }
}
