# Turing machine simulator, modelled in Dafny

`simulator.py` simulates a deterministic, single-tape Turing machine. The tape is bounded on
the left and grows to the right. A machine is given as text lines: the initial, accept and
reject state names come first, then one transition per line in the form `t(Q,C)=(R,D,M)`.
The simulator builds a transition table from those lines and runs the machine on a word. The
run ends when the state becomes accept or reject, or when no transition exists for the
current state and the symbol under the head. A missing transition counts as a rejection.

The model has six modules:

- `Outcomes` (outcomes.dfy): the exceptions the simulator raises, as an `Error` value. It also
  has `Result`, `Status` and `Option`.
- `StateNames` (states.dfy): `valid_state`. It is a set comparison against the ASCII
  letters and digits, as in the source. Its contract gives the same rule per character.
- `Tapes` (tape.dfy): the `Tape` class. The cell list is a `seq<char>` field and the head is a
  `nat` field; the methods update both in place. Pure functions (`Initial`, `MovedLeft`,
  `MovedRight`, `Written`) give each method's new state and the lemmas reason about them.
- `TransitionSyntax` (syntax.dfy): a hand-written recognizer for the transition regular
  expression. It uses leftmost search, like `re.findall(...)[0]`. It is proved sound and
  complete against the text of a rule (`Format`).
- `Machines` (machine.dfy): building a description from lines (`Describe`, and the
  imperative `Construct` with its `for` loop). Also the `TuringMachine` class with its state
  register and its `while`-loop `Run`, and the execution semantics (`Step`, `Execute`) the run
  is proved against.
- `Scenarios` (scenarios.dfy): whole descriptions built and run, and the re-run finding below.

Errors are values. A missing line or an empty state name is `OutOfRange`, which stands for
Python's `IndexError`. The other errors are `InvalidState`, `InvalidTransition`,
`InvalidSymbol` and `InvalidMove`. A run ends in one of three verdicts: `Halted(accepted)`,
`Crashed(error)` for an exception raised mid-run, or `OutOfFuel` (see below).

In three places the code behaves differently from what a reader of a Turing machine simulator would expect. The model follows the code each time:

- One would expect every run to start in the initial state. `run` (simulator.py:87-109) does not reset the state register; see the finding below.
- One would expect the naming rule to answer "no" for an empty name. `valid_state` (simulator.py:28) reads `q[0]` before anything else, so an empty name raises an indexing error. `ValidState` returns `Failure(OutOfRange)` for it.
- One would expect a malformed transition line to raise the "Invalid transition" error of simulator.py:80. The code gets an indexing error from `re.findall(...)[0]` first. The model reports `InvalidTransition`, as noted under "Left out".

## Model

| member | source | states |
|---|---|---|
| `StateNames.ValidState` | simulator.py:24-28 | An empty name is an indexing error, never a verdict. A non-empty name is valid exactly when its first character is an ASCII letter and every character is an ASCII letter or digit. |
| `Tapes.Initial` | simulator.py:34-39 | A new tape has its head at 0 on an existing cell. It holds the word's characters in order, or exactly one blank when the word is empty. |
| `Tapes.MovedLeft` | simulator.py:41-43 | The head goes down by one when it is above 0 and stays at 0 otherwise. The cells do not change and the head stays on a cell. |
| `Tapes.MovedRight` | simulator.py:45-48 | The head goes up by exactly one and always lands on a cell. Every earlier cell keeps its symbol. Only blanks are appended, only as many as needed, so the tape never shrinks. |
| `Tapes.Written` | simulator.py:50-57 | `NULL` leaves the tape unchanged. A one-character value replaces only the cell under the head. Any other value is `InvalidSymbol`. The head and the length never change. |
| `Tapes.Tape.constructor` | simulator.py:34-39 | The object's cells and head are those of `Initial(w)`, and the head invariant holds. |
| `Tapes.Tape.MoveLeft` | simulator.py:41-43 | The new state is `MovedLeft` of the old one. |
| `Tapes.Tape.MoveRight` | simulator.py:45-48 | The blank-appending loop leaves exactly `MovedRight` of the old state. It is proved by loop invariants, and the head invariant holds afterwards. |
| `Tapes.Tape.Write` | simulator.py:50-57 | The new state is `Written` of the old one. On an invalid value the method returns that error and the tape is unchanged. |
| `Tapes.Tape.Current` | simulator.py:59-60 | Reading needs no check and returns the symbol under the head. |
| `TransitionSyntax.Literal` | simulator.py:21 | A fixed piece of the pattern matches exactly when the text starts with it. The rest is what follows it. |
| `TransitionSyntax.AlnumRun` | simulator.py:21 | The state group `[a-zA-Z0-9]+` takes the longest run of ASCII letters and digits. |
| `TransitionSyntax.StateToken` | simulator.py:21 | A state group is a non-empty letter-or-digit token not followed by another letter or digit. |
| `TransitionSyntax.AnyChar` | simulator.py:21 | The `.` group is any single character except a newline. |
| `TransitionSyntax.WriteToken` | simulator.py:21 | The `(.\|NULL)` group with its comma yields either one non-newline character or `NULL`. |
| `TransitionSyntax.MoveToken` | simulator.py:21 | The `(R\|L)` group accepts only `R` or `L`. |
| `TransitionSyntax.MatchHead` | simulator.py:21 | The left half `t(Q,C)=(` yields a letter-or-digit state token and a non-newline symbol, and the text is that half's text followed by the rest. |
| `TransitionSyntax.MatchBody` | simulator.py:21 | The right half `R,D,M)` yields a state token, a write value that is `NULL` or one non-newline character, and a move of `R` or `L`. The text is that half's text followed by the rest. |
| `TransitionSyntax.MatchRule` | simulator.py:21 | One match of the whole pattern at the start of a text yields a well-formed rule. `MatchRuleSound` and `MatchRuleComplete` characterize it fully. |
| `TransitionSyntax.FindRule` | simulator.py:78 | The `re.findall(...)[0]` search yields only well-formed rules. `FindRuleLeftmost`, `FindRuleNone`, `FindRuleSound` and `FindRuleFormat` characterize it fully. |
| `TransitionSyntax.MatchRuleSound` | simulator.py:21 | A match at the start of a text is a well-formed rule, and the text is that rule's text followed by the rest. |
| `TransitionSyntax.MatchRuleComplete` | simulator.py:21 | A well-formed rule's text, followed by anything, is matched as that rule. |
| `TransitionSyntax.FindRuleFormat` | simulator.py:21 | Searching the text of a well-formed rule, as line 78 does, gives the rule back. |
| `TransitionSyntax.FindRuleLeftmost` | simulator.py:78 | The search returns the match at the leftmost position where the pattern matches. |
| `TransitionSyntax.FindRuleNone` | simulator.py:78 | The search fails exactly when the pattern matches at no position. |
| `TransitionSyntax.FindRuleSound` | simulator.py:78 | A found rule is well formed, and its text occurs in the line. |
| `TransitionSyntax.FindRuleNeedsMove` | simulator.py:21 | A line in which a transition is found contains an `R` or an `L`. |
| `Machines.CheckStateLine` | simulator.py:67 | Checking one of the first three lines passes exactly when the line exists and names a valid state. A missing line or empty name is `OutOfRange`, any other failure is `InvalidState`. |
| `Machines.CheckStateLines` | simulator.py:67-68 | The state-line check passes exactly when there are at least three lines and lines 0 to 2 are valid state names. |
| `Machines.StateLinesFirstFailure` | simulator.py:67-68 | A failed check reports the error of the first of the three lines that fails. Every line before it passed (short-circuit `and`). |
| `Machines.ParseLine` | simulator.py:78-83 | A transition line is `InvalidTransition` exactly when the search finds nothing. It parses exactly when the search finds a rule whose two state names follow the naming rule, and then it gives that found rule. Otherwise it is `InvalidState`. |
| `Machines.ParseLineFormat` | simulator.py:78-85 | The text of a well-formed rule whose two state names follow the naming rule parses back to that same rule. |
| `Machines.AddLines` | simulator.py:77-85 | The `for` loop's table-filling never drops a key already in the table. `AddLinesSucceeds`, `AddLinesFirstError`, `AddLinesUntouched`, `AddLinesLastWins` and `AddLinesWellFormed` characterize it fully. |
| `Machines.AddLinesSucceeds` | simulator.py:77-85 | Filling the table succeeds exactly when every transition line parses. |
| `Machines.AddLinesFirstError` | simulator.py:77-83 | A failure carries the error of the first line that does not parse. |
| `Machines.AddLinesUntouched` | simulator.py:85 | A key that no line defines keeps its earlier entry, or stays absent. |
| `Machines.AddLinesLastWins` | simulator.py:85 | A key's entry is the action of the last line that defines it. |
| `Machines.AddLinesWellFormed` | simulator.py:78-85 | Every entry added has valid state names, a write value that is `NULL` or one character, and a move of `R` or `L`. |
| `Machines.Describe` | simulator.py:63-85 | A built description names three states that follow the naming rule. `DescribeSucceeds`, `DescribeFirstError`, `DescribeTableKeys` and `DescribeTableLastWins` characterize it fully. |
| `Machines.DescribeSucceeds` | simulator.py:63-85 | A description is built exactly when the state lines pass and every transition line parses. It then uses lines 0 to 2 as initial, accept and reject, and its table is well formed. |
| `Machines.DescribeFirstError` | simulator.py:67-83 | A failed build reports the state-line error if there is one. Otherwise it reports the error of the first transition line that fails. |
| `Machines.DescribeTableKeys` | simulator.py:77-85 | A key is in the built table exactly when some transition line defines it. |
| `Machines.DescribeTableLastWins` | simulator.py:85 | The built table maps a key to the action of the last line that defines it. |
| `Machines.Construct` | simulator.py:63-85 | The `for` loop over the transition lines fails with exactly the error of `Describe`. On success it yields a fresh machine whose description is `Describe(M)` and whose register holds line 0. |
| `Machines.TuringMachine.constructor` | simulator.py:70-75 | The register starts at the initial state. The three state names and the table are those of the description. |
| `Machines.Step` | simulator.py:95-106 | The lookup misses exactly when the table has no (state, symbol) key. Otherwise the state becomes the entry's next state and the write lands at the pre-move head. Other cells are unchanged, new cells are blank, and the head moves right by one or left with a clamp at 0. A crash reports `InvalidSymbol` or `InvalidMove`, with the state already updated. |
| `Machines.TuringMachine.Run` | simulator.py:87-109 | The `while` loop starts from the register's current value, not the initial state. Its verdict and final register are those of `Execute` from that state on a fresh tape. |
| `Machines.Execute` | simulator.py:93-109 | The run loop accepts only in the accept state, and stops for lack of budget only in a non-terminal state. `ExecuteHalted`, `ExecuteTapeGrows`, `ExecuteMoreFuel`, `ExecuteNeverCrashes` and `ExecuteFromTerminal` give its other properties. `Step` gives one iteration. |
| `Machines.Outcome` | simulator.py:91-109 | A run from the initial state on a fresh tape accepts at once when the initial state is the accept state. It rejects at once when the initial state is the reject state and that differs from the accept state. |
| `Machines.ExecuteHalted` | simulator.py:93-109 | A halted run ends either in accept or reject, with the verdict "state is accept", or in another state whose lookup missed, with a rejection. |
| `Machines.ExecuteTapeGrows` | simulator.py:91-107 | Through a whole run the head stays on a cell and the tape never gets shorter. |
| `Machines.ExecuteMoreFuel` | simulator.py:93-109 | A run that halts within a step budget ends the same way under any larger budget. |
| `Machines.ExecuteNeverCrashes` | simulator.py:100-106 | On a well-formed table, which every built table is, a run never raises `InvalidSymbol` or `InvalidMove`. |
| `Machines.ExecuteFromTerminal` | simulator.py:93-109 | A run that starts in the accept or reject state takes no step and returns "state is accept". |
| `Machines.NoTransitionFromInitial` | simulator.py:93-97 | With no transition out of a non-terminal initial state, the first lookup misses and the run rejects. |
| `Machines.TuringMachine.RunFromInitial` | simulator.py:87-93 | The corrected run resets the register to the initial state first, as line 70 sets it at construction. Its verdict then depends only on the description, the word and the budget. |
| `Scenarios.NoTransitionsRejects` | simulator.py:63-97 | The lines `q0`, `qA`, `qR` build a machine with an empty table, which rejects `1`. |
| `Scenarios.DigitFirstStateFails` | simulator.py:67-68 | An initial state named `1q` stops construction with `InvalidState`. |
| `Scenarios.SurroundedLineParses` | simulator.py:78 | The search is not anchored: `xt(q0,1)=(q1,1,R)yy` parses as the transition it contains. |
| `Scenarios.BadMoveFails` | simulator.py:21 | `t(q0,1)=(q0,1,Z)` is not a transition line. |
| `Scenarios.IncrementDescribed` | simulator.py:63-85 | The unary-increment lines build the two-entry table. |
| `Scenarios.IncrementAccepts` | simulator.py:91-109 | The increment machine accepts `11` in three steps and leaves `111` plus a blank on the tape. |
| `Scenarios.RerunFromLeftoverState` | simulator.py:91-97 | Under the example table, `a` from `q0` is rejected by a missed lookup in `q1`, and `a` from `q1` is accepted. |
| `Scenarios.RerunDisagrees` | simulator.py:87-109 | Calling `Run` twice on `a` with that machine returns first a rejection, then an acceptance. |
| `Scenarios.RerunsAgree` | simulator.py:87-109 | Two runs that each start from the initial state return the same verdict. |
| `Scenarios.FreshRerunAgrees` | simulator.py:87-109 | With the corrected run, the example machine rejects `a` both times. |

## Findings

| source | as written | input that shows it | evidently intended | confidence | as-written member | corrected member |
|---|---|---|---|---|---|---|
| simulator.py:91-93 | `run` never resets `current_state`, which only line 70 sets, so a second run continues from the state where the first one ended | transitions `t(q0,a)=(q1,a,R)` and `t(q1,a)=(qA,a,R)`, initial `q0`, accept `qA`, reject `qR`; calling `run("a")` twice gives False, then True | every run on a word starts in the initial state, so repeated runs on one word agree | medium, not executed | `Scenarios.RerunDisagrees` | `Machines.TuringMachine.RunFromInitial` |

The command-line script calls `run` only once, so its printed result is not affected. The
difference shows only when a `TuringMachine` object is reused.

## Left out

- Script-level input and output (simulator.py:113-136) is not modelled. This covers reading the file named by the first argument, splitting it into lines, stripping `//` comments and blank lines, taking the word from the second argument, and printing. The core receives the stripped lines and the word as parameters.
- Machines.TuringMachine.Run: is weaker than the source's unbounded loop. It takes a step budget `fuel` and returns `OutOfFuel` when the budget is spent, where the source would keep looping, possibly forever. `ExecuteMoreFuel` shows that the budget never changes the verdict of a run that halts within it.
- Exception classes and messages are not modelled; the distinct failures are values of `Error`. The source raises `IndexError` when `re.findall(...)` finds no match (the `[0]`). That case is reported as `InvalidTransition`, the error the source evidently meant: its `len(vals) != 5` check at line 79 can never fire.
- The blank `⊔` is one `char` constant. A Dafny `string` holds Unicode scalar values only. A Python `str` holds any code point, lone surrogates included.
- A word containing a lone surrogate (U+D800 to U+DFFF) cannot be passed to the model. On POSIX such a word arises when the command-line argument at simulator.py:132 has undecodable bytes, which become U+DC80 to U+DCFF. `list(w)` would put those code points on the tape.
- The tape of a run that raised an error is not modelled, because the source discards it. Only the verdict and the state register are returned.
- The tape methods require the head invariant (`Valid()`), which every tape has from construction on.
