# brainfuck-node, modelled in Dafny

This project models the Brainfuck interpreter of `lib/index.js` (the npm
package `brainfuck-node`) and proves what it does. The model has four parts.

- **`Memory`.** A growable tape of integer cells with a cursor (`pointer`)
  and a modulus (`base`). `Tapes.Tape` is its value view: one snapshot, with
  one function per operation. `Tapes.Memory` is the object the interpreter
  updates in place. Each of its methods is proved to move `Snapshot()`
  exactly as the `Tape` function of the same name does.
- **`Result` and `BrainfuckError`.** The datatypes `Results.Result`
  (lib/index.js:81-88, without `time`), `Results.BrainfuckError` (lines
  90-96) and `Results.ErrorKind`, the three messages it is thrown with. What
  `execute` returns or throws is the `Outcome` datatype: `Ok(result)`,
  `Fail(error)`, or `EmptyProgram` for the plain `Error('No valid input
  given')`.
- **`Brainfuck.execute`.** `Interpreter.Brainfuck.Execute` is the
  imperative loop over two `Memory` objects: data memory (base 256) and
  `position` (base 65536). `position` acts as a stack of program indices,
  one frame per entered loop. Its cursor is the loop depth and the cell
  under it is the current index. The method is proved to return exactly
  `Engine.Execution`, a function on values:
  - `Run` is the main loop;
  - `Step` is one pass of its body;
  - `Dispatch` is the `switch`;
  - `Scan` is the inner loop that skips a loop whose cell is 0.
- **Properties.** `EngineProperties` proves what a pass does for each
  instruction and what holds over several passes. `Scenarios` works out
  whole runs of small programs.

Where the code and its design intent differ, the model follows the code.
- **The filter keeps more than the eight instructions.** It is
  `/[^+-\[\].,<>]/gim`. Inside the class, `+-\[` is a range from `'+'` to
  `'['`, and the `i` flag adds `'a'..'z'`. So digits and letters survive
  the filter and then throw `Invalid operator`.
- **A skipped loop ends at the first `]` after its `[`, not at the matching
  one.** A pop returns to the frame below, which still holds the index of
  the nested `[` that pushed it. So the scan goes over the indices after
  that `[` again, one depth lower, and meets the same `]` there. For example,
  `[[]]` fails with `Unmatched loop at index 3` after one step.
- **An entered `[` needs no `]`.** Running off the end inside a loop is a
  normal return.
- **`incrementPointer(0)` does not seed the new cell, but `execute` never
  reaches that case.** A loop entry pushes the current index, and that index
  is never 0 when a loop is entered. Index 0 is current only on the first
  pass, over a fresh zero cell, so a `[` there is skipped. After that, every
  frame up to the depth holds a non-zero index (`ReachedFramesEntered`).

## Model

| member | source | states |
|---|---|---|
| Wrapping.JsRem | lib/index.js:26 | JavaScript's `%`: the remainder lies strictly between `-b` and `b`, is negative only for a negative dividend, and agrees with the mathematical remainder modulo `b` |
| Wrapping.Wrap | lib/index.js:25-29 | the `current` setter's wrap (remainder, then `+ base` if negative) lands in `[0, base)` and equals `value` modulo `base` |
| Tapes.Tape.Current | lib/index.js:21-23 | the `current` getter returns a cell value in `[0, base)` |
| Tapes.Tape.SetCurrent | lib/index.js:25-29 | after writing any integer, the current cell is `value mod base`, and the cursor, the length and every other cell are unchanged |
| Tapes.Tape.CurrentChar | lib/index.js:31-33 | `currentChar` is the character whose code is the current cell |
| Tapes.Tape.IncrementPointer | lib/index.js:39-44 | the cursor moves right by exactly one; a 0 is appended only when it leaves the list; existing cells are kept; the new cell is `index mod base` for a non-zero index and keeps its old value (0 if new) for index 0 |
| Tapes.Tape.DecrementPointer | lib/index.js:50-57 | above 0 the cursor moves left by one and the list is unchanged; at 0 one zero cell is put in front, the cursor stays at 0 and the old cells shift up by one; a non-zero index is then written, wrapped |
| Tapes.Tape.Increment | lib/index.js:62-64 | the current cell becomes `(current + 1) mod base`; nothing else changes |
| Tapes.Tape.Decrement | lib/index.js:69-71 | the current cell becomes `(current - 1) mod base`; nothing else changes |
| Tapes.Fresh | lib/index.js:15-19 | a new memory is exactly the list `[0]` with the cursor at 0 |
| Tapes.IncrementWrapsToZero | lib/index.js:62-64 | incrementing `base - 1` wraps to 0 |
| Tapes.DecrementWrapsToTop | lib/index.js:69-71 | decrementing 0 wraps to `base - 1` |
| Tapes.IncrementDecrementInverse | lib/index.js:62-71 | `increment` and `decrement` undo each other in both orders, wrap-around included |
| Tapes.RightThenLeft | lib/index.js:39-57 | moving right then left without seeding restores the cursor and every pre-existing cell |
| Tapes.Memory.constructor | lib/index.js:15-19 | `new Memory(base)` holds one zero cell at cursor 0, with base 256 when `base` is 0 (falsy) |
| Tapes.Memory.Current | lib/index.js:21-23 | the getter reads the snapshot's current cell, in `[0, base)` |
| Tapes.Memory.CurrentChar | lib/index.js:31-33 | the getter is the snapshot's `CurrentChar` |
| Tapes.Memory.SetCurrent | lib/index.js:25-29 | the setter changes the object exactly as `Tape.SetCurrent` and keeps `Valid()` |
| Tapes.Memory.IncrementPointer | lib/index.js:39-44 | the in-place `push` and seed change the object exactly as `Tape.IncrementPointer` |
| Tapes.Memory.DecrementPointer | lib/index.js:50-57 | the in-place `splice` and seed change the object exactly as `Tape.DecrementPointer` |
| Tapes.Memory.Increment | lib/index.js:62-64 | changes the object exactly as `Tape.Increment` |
| Tapes.Memory.Decrement | lib/index.js:69-71 | changes the object exactly as `Tape.Decrement` |
| Results.NatToString | lib/index.js:171 | the decimal text interpolated into messages: digits only, denoting `n`; `"0"` for 0 and no leading zero otherwise |
| Results.NatToStringInjective | lib/index.js:171 | different numbers give different decimal texts |
| Results.ErrorKind.Message | lib/index.js:171-188 | the three message templates: `Unmatched loop at index ` before `NatToString` of the index, `Invalid operator '` before the operator and a closing quote, `Too many steps (` and ` reached)` around `NatToString` of the count, so the number is its exact decimal text |
| Results.MessageDeterminesKind | lib/index.js:171-188 | two errors with the same message text are the same kind with the same value |
| Results.Outcome.Message | lib/index.js:90-96 | the message of what was thrown is `No valid input given` exactly for the plain empty-program error |
| Results.MessageDeterminesOutcome | lib/index.js:121 | two throws with the same message are both the plain error, or both `BrainfuckError`s of the same kind with the same value |
| Normalize.Strip | lib/index.js:120 | the filtered program is no longer than the source and holds only characters the regular expression keeps |
| Normalize.Kept | lib/index.js:120 | the regular expression's class: every digit and ASCII letter of either case is kept, and nothing above `'z'` is |
| Normalize.CommandsAreKept | lib/index.js:120 | every one of the eight instructions survives the filter |
| Normalize.SomeKeptAreNotCommands | lib/index.js:120 | letters and digits survive the filter without being instructions; space, newline, `_` and `{` do not survive |
| Normalize.StripConcat | lib/index.js:120 | filtering distributes over concatenation |
| Normalize.StripFixesKept | lib/index.js:120 | a string of kept characters is left unchanged |
| Normalize.StripIdempotent | lib/index.js:120 | filtering twice is filtering once |
| Normalize.StripMembership | lib/index.js:120 | a character is in the filtered program if and only if it is in the source and is kept |
| Normalize.StripKeepsPrograms | lib/index.js:120 | a program made only of instructions is executed as written |
| Engine.InputCodes | lib/index.js:128 | one code per input character, each the character's code mod 256 |
| Engine.InputCodesKeepsBytes | lib/index.js:128 | a character below 256 is queued as its own code, and the queue of two inputs joined is the two queues joined |
| Engine.Initial | lib/index.js:123-128 | execution starts with a fresh data memory and a fresh `position` memory (index 0, depth 0), no output, no steps, and the input queue holding `InputCodes(input)` |
| Engine.ResultOf | lib/index.js:81-88 | the `Result` carries the output, the data memory and the step count of the state it is built from |
| Engine.ScanWorkDecreases | lib/index.js:156-168 | each pass of the scan loop moves the index on by one without wrapping and lowers the termination measure, whichever branch it takes |
| Engine.Scan | lib/index.js:155-169 | the scan ends at the starting depth on a `]` (`cont` false) or with the index past the program; frames below the starting depth are untouched |
| Engine.Dispatch | lib/index.js:131-186 | the `switch` keeps both memories valid and does not count a step; it appends at most one character to the output; a throw leaves data memory and output as they were and is never the budget error |
| Engine.Step | lib/index.js:130-189 | a normal pass increments `steps` by one, never to the budget; the budget error has `steps == maxSteps`; any other throw happens before the increment; output only grows |
| Engine.Run | lib/index.js:130-190 | the main loop never takes back output; every result has valid data memory and `steps` within the budget; a throw is the budget error exactly when its `steps` equals the budget, and it reports that number |
| Engine.Execution | lib/index.js:118-191 | `execute` gives the plain empty-program error exactly when nothing survives the filter; otherwise it returns or throws a result within the step budget |
| Interpreter.SkipLoop | lib/index.js:155-169 | the imperative scan on the `position` object ends in the state `Scan` computes; `cont` is true on return exactly when the scan ran off the end |
| Interpreter.Perform | lib/index.js:131-186 | the imperative `switch` over the two memory objects, the input queue and the output does exactly what `Dispatch` says, including which error it throws |
| Interpreter.Brainfuck.constructor | lib/index.js:107-109 | a falsy (0) `maxSteps` becomes 1000000; any other value is kept |
| Interpreter.Brainfuck.Execute | lib/index.js:118-191 | the imperative `execute` returns exactly `Execution(code, input, maxSteps)` |
| EngineProperties.FirstOpenOrEnd | lib/index.js:156-171 | the index reported when a skip runs off the end: the first `[` after the starting index, or the program length, with no `[` in between |
| EngineProperties.ScanFindsFirstClose | lib/index.js:155-169 | when a `]` follows, the scan ends matched at the starting depth, on the first following `]`, whatever the nesting |
| EngineProperties.ScanRunsOff | lib/index.js:155-171 | when no `]` follows, the scan runs off the end, and the starting frame holds `FirstOpenOrEnd` of where it began |
| EngineProperties.StepDataCommand | lib/index.js:133-150 | `><+-,.` act on data memory, input and output only, then advance one index in the same frame; `,` stores the next input code, or 0 when the input is used up, and consumes it; `.` appends the current cell's character |
| EngineProperties.StepEntersLoop | lib/index.js:152-153 | `[` on a non-zero cell raises the depth by one, keeps the lower frames and continues at `i + 1` (at `i = 0` it would go on from the stale frame value, a case `execute` never reaches) |
| EngineProperties.StepSkipsToFirstClose | lib/index.js:154-173 | `[` on a zero cell continues one past the first following `]`, at the same depth, with data memory, input and output untouched and one step counted |
| EngineProperties.StepSkipRunsOff | lib/index.js:170-172 | with no `]` after it, `[` on a zero cell throws `Unmatched loop` at `FirstOpenOrEnd`, before `steps` is incremented |
| EngineProperties.StepLeavesLoop | lib/index.js:179-180 | `]` above depth 0 pops a frame, and after the advance the index is the one that frame holds |
| EngineProperties.StepUnmatchedClose | lib/index.js:176-177 | `]` at depth 0 throws `Unmatched loop` at its own index, with the state and step count unchanged |
| EngineProperties.StepRejectsNonCommand | lib/index.js:183-184 | any other surviving character throws `Invalid operator` with the state and step count unchanged |
| EngineProperties.NegativeBudgetNeverStops | lib/index.js:188 | a negative budget (-1) never raises the budget error |
| EngineProperties.StepKeepsLowerFrames | lib/index.js:130-189 | a normal pass lowers the depth by at most one and never changes the frames below its starting depth |
| EngineProperties.StepEntersFrames | lib/index.js:151-187 | a normal pass from a state whose lower frames are non-zero, and whose index is 0 only over a zero cell, leaves every frame up to the new depth non-zero |
| EngineProperties.ReachedFramesEntered | lib/index.js:123-189 | from the start of `execute`, every state after the first pass has a non-zero index in every frame up to its depth |
| EngineProperties.EnteredLoopIsSeeded | lib/index.js:152-153 | every loop `execute` enters is entered from a non-zero index, so the pushed frame is seeded and the body starts just after the `[` |
| EngineProperties.StepsCountPasses | lib/index.js:187-188 | `steps` counts completed passes: over `n` normal passes it grows by exactly `n` |
| EngineProperties.RunAlongTrace | lib/index.js:130-190 | running from the first or the last state of a stretch of normal passes gives the same outcome |
| EngineProperties.FramesKept | lib/index.js:130-189 | over passes that stay deeper than `d`, depth `d` is never undercut and frames up to `d` are kept |
| EngineProperties.BodyKeepsFrames | lib/index.js:130-189 | while a loop body runs deeper than `d`, the frames up to `d` are kept |
| EngineProperties.LoopReturnsToOpen | lib/index.js:152-153 | once an entered loop's body first returns to the loop's depth, the current index is the `[` again, so its condition is checked again; the lower frames are restored |
| Scenarios.CloseWithoutOpen | lib/index.js:176-177 | `]` fails with `Unmatched loop at index 0` and 0 steps |
| Scenarios.OpenRunsOffTheEnd | lib/index.js:170-171 | `[` fails with `Unmatched loop at index 1` and 0 steps |
| Scenarios.NestedSkipStopsAtFirstClose | lib/index.js:155-177 | `[[]]` fails with `Unmatched loop at index 3` after 1 step |
| Scenarios.EnteredLoopNeedNotClose | lib/index.js:152-153 | `+[` returns normally after 2 steps |
| Scenarios.LeftEdgeGrows | lib/index.js:50-55 | `+<` ends with cells `[0, 1]` and the cursor on the new front cell |
| Scenarios.Echo | lib/index.js:146-149 | `,.` on input `A` outputs `A` |
| Scenarios.ReadPastInput | lib/index.js:146 | reading with no input left stores 0 |
| Scenarios.DecrementWraps | lib/index.js:69-71 | `-.` outputs the character with code 255 |
| Scenarios.BudgetReached | lib/index.js:188 | `+++` with a budget of 3 fails with the budget error reporting 3 steps, with the cell at 3 |
| Scenarios.LoopRunsOnce | lib/index.js:151-182 | `+[-]` enters the loop once, comes back to the `[`, skips, and returns after 5 steps with the cell at 0 |
| Scenarios.LettersAreRejected | lib/index.js:120-121 | in `+ a` the space is removed and the letter throws `Invalid operator 'a'` after 1 step |
| Scenarios.OnlyWhitespace | lib/index.js:121 | a program with nothing left after filtering is the plain error |
| Scenarios.UnmatchedMessage | lib/index.js:177 | the message text `Unmatched loop at index 12` |
| Scenarios.InvalidMessage | lib/index.js:184 | the message text `Invalid operator 'x'` |
| Scenarios.BudgetMessage | lib/index.js:188 | the message text `Too many steps (1000000 reached)` |

## Left out

- The `time` field of `Result` and the `Date.now()` calls: wall-clock time is not modelled, and `Result` has no `time` field.
- Line 43 of `incrementPointer` (`if (this.current < 0) this.current += this.base`) is not modelled. The setter already keeps every cell non-negative, so that line never changes anything.
- Interpreter.Brainfuck.Execute: requires `maxSteps > 0`, so a negative budget (-1, which disables the limit) is not an executable run; without a bound on the number of passes the loop has no termination measure. `NegativeBudgetNeverStops` still states that the budget check never fires for such a budget.
- Interpreter.Brainfuck.Execute: requires fewer than 65536 characters after filtering. Longer programs make indices wrap in the mod-65536 `position` cells, and the scan may then not terminate.
- Interpreter.Brainfuck.constructor: takes `maxSteps` as an integer. Other falsy option values (`undefined`, `null`, `NaN`) are represented by 0.
- Tapes.Tape.CurrentChar: requires `base <= 0xD800`, so the character code is a valid Dafny `char`. The data memory (base 256) always meets this. `currentChar` is never used on the position memory.
- UTF-16 details: `split('')` and `charCodeAt` are modelled as one code per Dafny character, so characters outside the Basic Multilingual Plane are not split into surrogate pairs.
- The JavaScript regular expression engine is replaced by the per-character predicate `Kept`. The `Error` subclassing and the `name` field are replaced by the `Outcome` datatype. `module.exports` is not modelled.
- The exception channel: a throw is the `Fail` or `EmptyProgram` outcome. The `message` of what was thrown is `Outcome.Message()`.
- The `switch` and the scan are written as the helper methods `Perform` and `SkipLoop`, called from `Execute`. The objects they change are the same ones `execute` changes.
- test/index.js is a console harness without assertions. Its three programs are not worked through as scenarios; smaller programs exercise the same behaviours.
