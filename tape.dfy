/**
 * The machine's tape: cells that extend without bound to the right and stop
 * at index 0 on the left, with a read/write head.
 */
module Tapes {
  import opened Outcomes

  /** The symbol of every cell that was never written. */
  const Blank: char := '⊔'

  /** The write value that leaves the cell under the head as it is. */
  const NoOp: string := "NULL"

  /** The contents and head position of a tape, as a value. */
  datatype TapeState = TapeState(cells: seq<char>, head: nat) {
    /** The head always points at an existing cell. */
    predicate Valid() {
      head < |cells|
    }

    function Read(): char
      requires Valid()
    {
      cells[head]
    }
  }

  function Blanks(n: nat): (s: seq<char>)
    ensures |s| == n
    ensures forall i :: 0 <= i < n ==> s[i] == Blank
  {
    seq(n, _ => Blank)
  }

  /** A fresh tape for input `w`: its characters in order, or one blank cell when `w` is empty. */
  function Initial(w: string): (t: TapeState)
    ensures t.Valid() && t.head == 0
    ensures w != [] ==> t.cells == w
    ensures |t.cells| == if w == [] then 1 else |w|
    ensures forall i :: 0 <= i < |t.cells| ==> t.cells[i] == if w == [] then Blank else w[i]
  {
    TapeState(if w == [] then [Blank] else w, 0)
  }

  /** The head moves one cell left, or stays put at the left end; the cells are untouched. */
  function MovedLeft(t: TapeState): (r: TapeState)
    ensures r.cells == t.cells
    ensures t.head > 0 ==> r.head + 1 == t.head
    ensures t.head == 0 ==> r.head == 0
    ensures t.Valid() ==> r.Valid()
  {
    TapeState(t.cells, if t.head > 0 then t.head - 1 else 0)
  }

  /**
   * The head moves one cell right; blanks are appended just until the new
   * head position exists, and every existing cell keeps its symbol.
   */
  function MovedRight(t: TapeState): (r: TapeState)
    ensures r.head == t.head + 1 && r.Valid()
    ensures |r.cells| == if t.head + 2 <= |t.cells| then |t.cells| else t.head + 2
    ensures r.cells[..|t.cells|] == t.cells
    ensures forall i :: |t.cells| <= i < |r.cells| ==> r.cells[i] == Blank
  {
    var missing := if t.head + 2 <= |t.cells| then 0 else t.head + 2 - |t.cells|;
    TapeState(t.cells + Blanks(missing), t.head + 1)
  }

  /**
   * Writing `s` at the head: the no-op token changes nothing, a single
   * character replaces the cell under the head, anything else is an error.
   */
  function Written(t: TapeState, s: string): (r: Result<TapeState>)
    requires t.Valid()
    ensures r.Success? <==> s == NoOp || |s| == 1
    ensures r.Failure? ==> r.error == InvalidSymbol
    ensures s == NoOp ==> r == Success(t)
    ensures r.Success? ==> r.value.Valid() && r.value.head == t.head && |r.value.cells| == |t.cells|
    ensures r.Success? ==> r.value.Read() == if s == NoOp then t.Read() else s[0]
    ensures r.Success? ==>
      forall i :: 0 <= i < |t.cells| && i != t.head ==> r.value.cells[i] == t.cells[i]
  {
    if s == NoOp then Success(t)
    else if |s| != 1 then Failure(InvalidSymbol)
    else Success(TapeState(t.cells[t.head := s[0]], t.head))
  }

  /** The tape object one run works on, updated in place. */
  class Tape {
    var cells: seq<char>
    var head: nat

    ghost predicate Valid()
      reads this
    {
      head < |cells|
    }

    function Value(): TapeState
      reads this
    {
      TapeState(cells, head)
    }

    constructor (w: string)
      ensures Valid() && Value() == Initial(w)
    {
      cells := w;
      head := 0;
      new;
      if cells == [] {
        cells := cells + [Blank];
      }
    }

    method MoveLeft()
      requires Valid()
      modifies this
      ensures Valid() && Value() == MovedLeft(old(Value()))
    {
      if head > 0 {
        head := head - 1;
      }
    }

    method MoveRight()
      modifies this
      ensures Valid() && Value() == MovedRight(old(Value()))
    {
      head := head + 1;
      while |cells| <= head
        invariant head == old(head) + 1
        invariant |old(cells)| <= |cells| <= if head + 1 <= |old(cells)| then |old(cells)| else head + 1
        invariant cells == old(cells) + Blanks(|cells| - |old(cells)|)
        decreases head + 1 - |cells|
      {
        cells := cells + [Blank];
      }
    }

    method Write(s: string) returns (st: Status)
      requires Valid()
      modifies this
      ensures Valid()
      ensures Written(old(Value()), s).Success? ==>
        st == Pass && Value() == Written(old(Value()), s).value
      ensures Written(old(Value()), s).Failure? ==>
        st == Fail(Written(old(Value()), s).error) && Value() == old(Value())
    {
      if s == NoOp {
        return Pass;
      }
      if |s| != 1 {
        return Fail(InvalidSymbol);
      }
      cells := cells[head := s[0]];
      return Pass;
    }

    method Current() returns (c: char)
      requires Valid()
      ensures c == cells[head]
    {
      c := cells[head];
    }
  }
}
