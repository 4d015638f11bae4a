/** The naming rule for machine states. */
module StateNames {
  import opened Outcomes

  /** The `n` consecutive characters starting at `lo`. */
  function CharRange(lo: char, n: nat): (s: string)
    requires lo as int + n < 0xD800
    ensures |s| == n
    decreases n
  {
    if n == 0 then [] else [lo] + CharRange((lo as int + 1) as char, n - 1)
  }

  lemma {:induction false} CharRangeMembership(lo: char, n: nat, c: char)
    requires lo as int + n < 0xD800
    ensures c in CharRange(lo, n) <==> lo as int <= c as int < lo as int + n
    decreases n
  {
    if n > 0 {
      CharRangeMembership((lo as int + 1) as char, n - 1, c);
    }
  }

  /** The ASCII letters, lower case first: "abc...zABC...Z". */
  const AsciiLetters: string := CharRange('a', 26) + CharRange('A', 26)

  /** The decimal digits "0123456789". */
  const Digits: string := CharRange('0', 10)

  /** The characters a state name may contain. */
  const StateChars: set<char> := set c | c in AsciiLetters + Digits

  predicate IsLetter(c: char) {
    'a' <= c <= 'z' || 'A' <= c <= 'Z'
  }

  predicate IsAlnum(c: char) {
    IsLetter(c) || '0' <= c <= '9'
  }

  lemma LetterMembership(c: char)
    ensures c in AsciiLetters <==> IsLetter(c)
  {
    CharRangeMembership('a', 26, c);
    CharRangeMembership('A', 26, c);
  }

  lemma StateCharMembership(c: char)
    ensures c in StateChars <==> IsAlnum(c)
  {
    LetterMembership(c);
    CharRangeMembership('0', 10, c);
  }

  /** The naming rule: a letter first, then only letters and digits. */
  predicate IsStateName(q: string) {
    q != [] && IsLetter(q[0]) && forall i :: 0 <= i < |q| ==> IsAlnum(q[i])
  }

  /** The set comparison of the name's characters against StateChars is the per-index rule. */
  lemma StateCharsOnly(q: string)
    ensures (set c | c in q) - StateChars == {} <==> forall i :: 0 <= i < |q| ==> IsAlnum(q[i])
  {
    var outside := (set c | c in q) - StateChars;
    if outside == {} {
      forall i | 0 <= i < |q| ensures IsAlnum(q[i]) {
        assert q[i] !in outside;
        StateCharMembership(q[i]);
      }
    }
    if forall i :: 0 <= i < |q| ==> IsAlnum(q[i]) {
      forall c | c in outside ensures false {
        StateCharMembership(c);
      }
    }
  }

  /**
   * Whether `q` may name a state: its first character is an ASCII letter and
   * none of its characters lies outside the ASCII letters and digits. The first
   * character is read before anything else is looked at, so an empty name is an
   * indexing error rather than a plain "no".
   */
  function ValidState(q: string): (r: Result<bool>)
    ensures r.Failure? <==> q == []
    ensures r.Failure? ==> r.error == OutOfRange
    ensures r == Success(true) <==> IsStateName(q)
  {
    if q == [] then Failure(OutOfRange)
    else
      LetterMembership(q[0]);
      StateCharsOnly(q);
      Success(q[0] in AsciiLetters && (set c | c in q) - StateChars == {})
  }
}
