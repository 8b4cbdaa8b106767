# FluidNC: a verified model of its control core

A Dafny model of the parts of the FluidNC firmware that turn text into motion and bytes into text, with
proofs of what they keep. Each module follows one source file or one component of it.

- `Flowcontrol`, `FlowJob`: the O-word interpreter as a class over the context stack, and a job as lines
  with a read position that is already past the current line. `Structured` gives structured programs
  (IF/ELSEIF/ELSE, WHILE, DO/WHILE, REPEAT, BREAK) a big-step meaning; `FlowCorrectness` and `FlowTheorems`
  prove that the interpreter, run over the flat text, does just that. `JobEnds` says what a job leaves on the
  stack where it stops, `SkippedLines` what is read of a line that is skipped, and under which test on the text
  that makes no difference, `Unrolling` compares REPEAT with its body written n times, and `ContinueRuns` says
  what CONTINUE does in the run of a job.
- `Expression`, `ExpressionGrammar`, `Operators`, `Operands`: the shift/reduce evaluator over two small arrays
  equals a left-associative precedence grammar, error order included, for nested expressions of any depth; the
  laws of the operators and how tightly each binds; what is read as an operand.
- `EscapeFilter`, `UartRx`, `UartTx`: the UART driver as a concurrent protocol. An activation of the
  interrupt handler is one step; a task is cut at every ring call and critical section; the invariants hold
  over every interleaving. The handler and the task's functions are also given as class methods.
- `PatternQueue`: the circular array of pattern positions refines a plain sequence.
- `LineChannel`: line assembly with realtime bytes, the queue and the three line ends.
- `Modbus`: the CRC as a linear shift register, and which changed frames it sees.
- `Gpio`: pin events with a rate limit on a 32-bit tick counter.
- `CollapseLine`, `GCodeWords`, `GCodeCoords`: the G-code block parser: in-place clean-up of a line, the
  word loop, and the bookkeeping of work coordinates. `WordCodes` says what each word leaves in an accepted
  block, `BlockChecks` which blocks are accepted, and `CoordMoves` where accepted lines take the machine.
- `Bytes`, `Options`: shared types.

Where the source changes state the model is a class whose methods are proved against a specification
function; what the source promises is then proved about that function over all inputs or all runs.

Some things the proofs brought out about the code:

- The cached coordinate system is not always the stored one: assignments to #5220 and to the stored systems,
  and M2 or M30 in check mode, leave it behind. `AssignsExact` and `CheckModeEndExact` say exactly when.
- Reading #5220 gives one more than what writing it selects, so #5220=#5220 moves on to the next system
  (`SelfAssignMovesOn`).
- A line rejected after an assignment leaves the assignment pending; the next accepted line performs it
  (`RejectedThenNext`).
- G10 asks for P and L (FluidNC/src/GCode.cpp:1193) but accepts L without P; P without L is refused
  (`G10NeedsOnlyL`).
- M2, an alarm or a "%" inside an IF or a loop ends the job with its entries still on the stack, and after a "%"
  in skipped text the next job is skipped, too (`StackAtEndExact`, `NextJobIsSkipped`).
- Blank lines in a loop can make a later "%" pass for one at the start of the file (`PercentAfterBlankLoop`).
- Skipped lines are not just passed over: the first word is read, expressions evaluated, and a line whose first
  word cannot be read stops the job (`SkippedLineExact`).
- A poll with a buffer on a paused channel answers Ok, as if it had written a line (`OkAnswersExact`).
- Word order matters for blocks that mix G0-G3 with G10, G28, G30, G92, G43.1 or G49 (`MixedOrderMatters`).
- G59.1, G59.2 and G59.3 are always refused: the check for a fraction left over (FluidNC/src/GCode.cpp:614) comes
  after they have been decoded from just that fraction (`FractionIsRefused`).
- A WHILE directly inside a DO opens nothing, and its ENDWHILE stops the job (`WhileInsideDoFails`).
- CONTINUE in the last pass of a REPEAT drops the loop but does not leave its body: a job whose REPEAT has an
  unconditional CONTINUE runs the rest of the body once and stops at its ENDREPEAT (`ContinueInRepeatFails`).
- Enabling receive interrupts during a flush can leave rx_buffered_len wrong (`AccountedExact`).
- A pin whose level changes after 2^31 quiet ticks is not reported for the next 2^31 (`NotDueAfterHalfWrap`).
- A lone "%" is dropped, but not if there is a comment on the line too (`CollapseAgain`).

## Model

| member | source | states |
|---|---|---|
| Flowcontrol.Interpreter.Flowcontrol | FluidNC/src/Flowcontrol.cpp:113-385 | one call does to stack, read position and skip flag exactly what the specification `Control` says, alarms and error codes included; an error empties the stack |
| Flowcontrol.Interpreter.Conditional | FluidNC/src/Flowcontrol.cpp:128-169 | IF, ELSEIF, ELSE, ENDIF as specified, `handled` deciding which branch is live |
| Flowcontrol.Interpreter.Loop | FluidNC/src/Flowcontrol.cpp:171-272 | DO, WHILE, ENDWHILE, REPEAT, ENDREPEAT as specified, with repositioning of the job |
| Flowcontrol.Interpreter.Jump | FluidNC/src/Flowcontrol.cpp:274-340 | BREAK and CONTINUE as specified, popping down to the labelled entry |
| Flowcontrol.Interpreter.RepeatAgain | FluidNC/src/Flowcontrol.cpp:255-272 | one ENDREPEAT: a pass less, back to the body or out of the loop |
| Flowcontrol.Interpreter.WhileAgain | FluidNC/src/Flowcontrol.cpp:191-235 | testing a WHILE again at its end |
| Flowcontrol.Interpreter.UnwindTo | FluidNC/src/Flowcontrol.cpp:274-300 | pops to the first entry with the label, as `PopTo` says |
| Flowcontrol.Interpreter.StackPush | FluidNC/src/Flowcontrol.cpp:84-88 | a new entry on top, nothing else changed |
| Flowcontrol.Interpreter.StackPull | FluidNC/src/Flowcontrol.cpp:89-95 | the top entry goes, false on an empty stack |
| Flowcontrol.Interpreter.UnwindStack | FluidNC/src/Flowcontrol.cpp:96-104 | drops exactly the entries of the top entry's job |
| Flowcontrol.Interpreter.Init | FluidNC/src/Flowcontrol.cpp:105-109 | leaves an empty stack |
| Flowcontrol.PopToFinds | FluidNC/src/Flowcontrol.cpp:274-300 | a BREAK label that is on the stack is found, at its topmost occurrence |
| Flowcontrol.ControlKeepsOnlyTopSkips | FluidNC/src/Flowcontrol.cpp:113-385 | every call, on any text, keeps the invariant that no entry below the top skips |
| Flowcontrol.SkippedLineIsInert | FluidNC/src/Flowcontrol.cpp:124-340 | while the top entry skips, a line that does not belong to it changes neither stack nor position nor flag, raises nothing, and does not depend on the evaluator: no expression is evaluated |
| FlowJob.RunsStayConsistent | FluidNC/src/GCode.cpp:328-343 | over every run of every text, well formed or not, the skip flag of the parser is the skip bit of the top entry and no other entry skips |
| FlowJob.SkipsText | FluidNC/src/GCode.cpp:316-343 | inert text is passed over line by line, only the read position and the count of blank lines changing, if and only if no lone "%" in it ends the file and the first word of each plain line can be read; otherwise the job ends at the first such line, with its error or without one |
| Structured.BreaksToLoops | FluidNC/src/Flowcontrol.cpp:274-292 | a well-formed block breaks only to loops around it |
| Structured.FlatInert | FluidNC/src/Flowcontrol.cpp:124-340 | the text of a block whose labels differ from the skipping entry is inert for it |
| FlowCorrectness.SimBlock | FluidNC/src/Flowcontrol.cpp:113-385 | the flat text of a structured block, run line by line, is simulated by its big-step meaning, for every fuel: memory, trace, stack below, outcome, and where it stops at an error, an M2, an alarm or a "%" the line and what is left of the stack; the reading of skipped lines is included |
| FlowCorrectness.SimIf | FluidNC/src/Flowcontrol.cpp:128-169 | the same for IF with any chain of ELSEIF and ELSE |
| FlowCorrectness.SimTail | FluidNC/src/Flowcontrol.cpp:135-160 | the same for the ELSEIF/ELSE tail, live or skipped |
| FlowCorrectness.SimWhile | FluidNC/src/Flowcontrol.cpp:183-235 | the same for WHILE |
| FlowCorrectness.SimDo | FluidNC/src/Flowcontrol.cpp:171-214 | the same for DO/WHILE |
| FlowCorrectness.SimRepeat | FluidNC/src/Flowcontrol.cpp:239-272 | the same for REPEAT |
| FlowCorrectness.BreakSkipsRest | FluidNC/src/Flowcontrol.cpp:274-292 | after a BREAK the rest of the interrupted block is skipped up to the end of its loop, unless the job ends at a line in it |
| FlowTheorems.JobFollowsProgram | FluidNC/src/InputFile.cpp:54-99 | the job of any well-formed program ends where the program means it to: at the end of its text with an empty stack, or at the line where an error, M2 or M30, an alarm or a "%" stops it, live or skipped, with the memory, trace, error and stack the program means; it keeps running as long as the program does |
| FlowTheorems.HaltedJobIsProgram | FluidNC/src/Flowcontrol.cpp:113-385 | conversely every job that has halted is explained by the program's meaning |
| FlowTheorems.JobHaltsIffProgramEnds | FluidNC/src/Flowcontrol.cpp:113-385 | the job halts if and only if the program ends |
| JobEnds.StackAtEndExact | FluidNC/src/Protocol.cpp:158-193 | when the job of a well-formed program has ended, the stack is empty and the skip flag down if and only if it has come to the end of its text, or flow control has reported an error, or the line it stopped at stands in none of its constructs |
| JobEnds.EndUnderIfLeavesEntry | FluidNC/src/GCode.cpp:1970-1976 | a line that ends the job, such as M2, under an IF that is taken: the line after the ENDIF never runs and the IF stays on the stack |
| JobEnds.AlarmEndsJob | FluidNC/src/Protocol.cpp:158-163 | ALARM ends the job: the line after it never runs |
| JobEnds.PercentUnderIfLeavesSkipping | FluidNC/src/GCode.cpp:208-221 | a "%" under an IF that is not taken ends the job with the IF on the stack and still skipping |
| JobEnds.NextJobIsSkipped | FluidNC/src/GCode.cpp:316-343 | after a job left so, no line of the next one is executed unless it uses the label left on the stack: parameters, trace and stack stay as they were over its whole text |
| JobEnds.PercentAfterBlankLoop | FluidNC/src/InputFile.cpp:68-78 | blank lines read again in a loop are counted again: after two of them, run n times, a "%" on line 5 is taken for the mark of a start of file if and only if n is 2 |
| FlowTheorems.CountedJobHalts | FluidNC/src/Flowcontrol.cpp:239-292 | every job of IF, REPEAT and BREAK reaches its end or an error in finitely many lines |
| Unrolling.RepeatIsUnrolled | FluidNC/src/Flowcontrol.cpp:239-272 | REPEAT with an integer count n > 0 means its body n times in a row, whatever its lines are, a lone "%" excepted: the same memory and events, or neither ends, or the same error, or the same BREAK past it |
| Unrolling.RepeatZeroTimes | FluidNC/src/Flowcontrol.cpp:239-246 | with a count of zero it does nothing, if and only if its body can be passed over |
| SkippedLines.BreakOutUnrolls | FluidNC/src/Flowcontrol.cpp:239-292 | a BREAK out of a REPEAT and more is the same BREAK out of the body n times, if the plain lines of the body can be read |
| Unrolling.EvalAppend | FluidNC/src/Flowcontrol.cpp:113-385 | one program after another: the second runs if the first ends, and is passed over if it breaks out |
| Unrolling.BlockMoved | FluidNC/src/InputFile.cpp:68-78 | text without a lone "%" means the same wherever it stands in the file |
| FlowTheorems.WhileInsideDoOpensNothing | FluidNC/src/Flowcontrol.cpp:191-200 | a WHILE whose innermost enclosing construct is a live DO is evaluated and opens nothing |
| FlowTheorems.WhileInsideDoFails | FluidNC/src/Flowcontrol.cpp:191-235 | the job DO, WHILE, ENDWHILE, WHILE ends at its third line with a syntax error whatever the conditions are: why such programs are excluded |
| SkippedLines.NumberedExact | FluidNC/src/GCode.cpp:333-343 | a skipped line is passed over wherever it stands and whatever the parameters hold, if and only if it is no lone "%" and has nothing to read or its first word is a letter with a literal number |
| SkippedLines.MeaningOrUnreadable | FluidNC/src/GCode.cpp:333-343 | for every program the reading of skipped lines changes the meaning only by stopping it with the error of one of its plain lines |
| SkippedLines.NumberedJobFollowsMeaning | FluidNC/src/GCode.cpp:333-343 | the job of a well-formed program whose plain lines all pass that test on the text does what the program means when skipped text is not looked at, and no text of it can stop the job while it is passed over |
| SkippedLines.SkippedLineExact | FluidNC/src/ProcessSettings.cpp:1225-1253 | an IF not taken lets the job end as if it were not there, if and only if the line under it is blank, or no lone "%" and its first word can be read; otherwise the job stops there, with the reading error or at a "%" without one |
| SkippedLines.SkippedDivisionStops | FluidNC/src/GCode.cpp:333-343 | X[1/0] under an IF that is not taken stops the job with a bad number: the evaluator refuses to divide by zero |
| SkippedLines.SkippedPercentEnds | FluidNC/src/GCode.cpp:208-221 | a "%" there ends the job without an error, with the IF on the stack and skipping |
| Flowcontrol.ContinueCloses | FluidNC/src/Flowcontrol.cpp:294-339 | with the label on the stack, CONTINUE of a REPEAT or WHILE does what the ENDREPEAT or ENDWHILE of that loop does once the entries above it are gone |
| Flowcontrol.ContinueElse | FluidNC/src/Flowcontrol.cpp:294-339 | CONTINUE of a DO goes back to its saved position in any case; of what is no loop it is a syntax error |
| Flowcontrol.ErrorReports | FluidNC/src/Flowcontrol.cpp:347-351 | ERROR with the number of an error reports that error, and with 0 none |
| ContinueRuns.ContinueRepeat | FluidNC/src/Flowcontrol.cpp:294-339 | over the run of a job, with any entries of the body above the loop: a CONTINUE that is not in the last pass of a REPEAT starts the next pass at the first line of the body; in the last pass it drops the loop and the job goes on with the next line |
| ContinueRuns.ContinueWhile | FluidNC/src/Flowcontrol.cpp:294-339 | CONTINUE of a WHILE evaluates the condition: back to the first line of the body, or out of the loop to the next line, or the error |
| ContinueRuns.ContinueDo | FluidNC/src/Flowcontrol.cpp:294-339 | CONTINUE of a DO goes back to the first line of the body |
| ContinueRuns.ContinuePasses | FluidNC/src/Flowcontrol.cpp:294-339 | the passes of a REPEAT with a CONTINUE in its body: each runs the part in front of it, the rest of the body being passed over, and after the last pass the loop is off the stack |
| ContinueRuns.ContinueInRepeatFails | FluidNC/src/Flowcontrol.cpp:248-339 | so a job REPEAT, before, CONTINUE, after, ENDREPEAT runs the first part n times, the second part once, and always ends with a syntax error at its ENDREPEAT |
| Expression.Evaluate | FluidNC/src/Expression.cpp:693-742 | the loop over two arrays of seven entries returns what the specification means, with every index in bounds and both loops terminating |
| Expression.Reduce | FluidNC/src/Expression.cpp:711-737 | storing an operand and reducing is one `Feed` of the operator stack, errors included |
| Expression.FeedKeepsRising | FluidNC/src/Expression.cpp:711-737 | stacked operators always have strictly increasing precedence |
| Expression.StackBound | FluidNC/src/Expression.cpp:41 | for input of any length the stack holds at most five entries, and a right bracket always collapses it to entry 0 |
| Expression.ReadsSpelling | FluidNC/src/Expression.cpp:397-507 | an operator is read if and only if its spelling stands in the line; `**` is never taken for `*` |
| Expression.ModuloIsPositive | FluidNC/src/Expression.cpp:114-118 | MOD is not negative and below the divisor in magnitude |
| ExpressionGrammar.FeedTree | FluidNC/src/Expression.cpp:711-737 | feeding the tokens of a grammatical tree reduces them to the value of the tree, or to its first failing node in post-order |
| ExpressionGrammar.TreeOfYield | FluidNC/src/Expression.cpp:314-350 | the precedence grammar is unambiguous: a tree is recovered from its tokens |
| ExpressionGrammar.TokensAreOneTree | FluidNC/src/Expression.cpp:314-350 | every closed token sequence is the yield of a left-associative precedence tree, and of no other |
| ExpressionGrammar.MeaningIsTree | FluidNC/src/Expression.cpp:693-742 | the result is the value of that tree, or the error of its first failing node in post-order |
| ExpressionGrammar.ReadErrorComesLast | FluidNC/src/Expression.cpp:693-742 | when the line breaks off, the reading error is reported unless an operator applied before has failed, and that failure is the one every completion would have |
| Operands.RoundingsEnclose | FluidNC/src/Expression.cpp:233-312 | FIX, FUP and ROUND enclose their argument within one unit, one unit and a half |
| Operands.DeepEnough | FluidNC/src/Parameters.cpp:569-611 | nesting is bounded by the line: readers of any two sufficient depths read the same |
| Operands.ReadNumberIsRecursive | FluidNC/src/Parameters.cpp:569-611 | read_number with get_param_ref, read_unary and read_atan, calling itself through expression, is well defined and moves on within the line, so all results on the evaluator hold for nested expressions of any depth |
| Operands.NestedErrorIsBadNumber | FluidNC/src/Parameters.cpp:584-591 | an error inside a nested expression, at whatever operand of the one around it, is reported there as a bad number, unless an operator applied before it has failed: then as that error |
| Operators.SumLaws | FluidNC/src/Expression.cpp:152-208 | + is commutative and associative with unit 0, - undoes it, and a - b is not negative exactly when a >= b |
| Operators.ProductLaws | FluidNC/src/Expression.cpp:103-122 | * is commutative with unit 1 and distributes over +; / undoes it, and fails exactly for the divisor 0 |
| Operators.PowerLaws | FluidNC/src/Expression.cpp:120-131 | a power is refused exactly for a negative base and an exponent that is not whole |
| Operators.RelationLaws | FluidNC/src/Expression.cpp:152-210 | the six relations are 1 or 0 by the order they name, EQ and NE up to a difference of 0.00001 |
| Operators.LogicLaws | FluidNC/src/Expression.cpp:152-210 | the truth tables of AND, OR and XOR, every number but 0 being true |
| Operators.HigherBindsTighter | FluidNC/src/Expression.cpp:314-350 | the value of [a x b y c] for any two operators: of ** over * / MOD over + - over the relations over AND OR XOR the tighter one first, and of one level the left one |
| Operators.FiveMinusThree | FluidNC/src/Expression.cpp:693-742 | the line "[5-3]" means 2 |
| Operands.AbsoluteValue | FluidNC/src/Expression.cpp:237-240 | ABS gives the value without its sign |
| Operands.DomainsExact | FluidNC/src/Expression.cpp:233-312 | arguments are refused exactly beyond one to either side by ACOS and ASIN, below 0 by SQRT and at or below 0 by LN |
| Operands.NamesAreRead | FluidNC/src/Expression.cpp:518-613 | each of the fourteen functions is read by its own name |
| Operands.SignsNegate | FluidNC/src/Parameters.cpp:596-608 | a minus sign negates the operand behind it, a plus sign leaves it, however many there are |
| Operands.CanonicalName | FluidNC/src/Parameters.cpp:463-478 | in a parameter name white space is dropped, "a" to "z" count as "A" to "Z", and everything else as it is |
| Operands.References | FluidNC/src/Parameters.cpp:443-497 | "#<name>", "#5", "#[...]" and "##5" read the parameter of that name, number, computed number and number read from a parameter |
| Operands.FunctionsApply | FluidNC/src/Expression.cpp:652-691 | a function name and an operand in brackets give what the function makes of it, or a failure; ATAN takes a second operand behind a "/" |
| Operands.ExistsLooks | FluidNC/src/Expression.cpp:652-691 | EXISTS[name] and EXISTS[#<name>] are 1 if the name is that of a parameter, else 0 |
| EscapeFilter.Port.DataCallback | FluidNC/esp32/fnc_uart.cpp:15-36 | the in-place filter keeps the bytes, sends the events and carries the byte that the transducer says; the write index never passes the read index; the rest of the buffer is untouched |
| EscapeFilter.Port.RegisterInputPin | FluidNC/esp32/fnc_uart.cpp:38-42 | registering a pin enables events |
| EscapeFilter.ChunksDoNotMatter | FluidNC/esp32/fnc_uart.cpp:15-36 | any division of the input into calls gives the same bytes, the same events in order and the same carried-over byte |
| EscapeFilter.FilterDecodes | FluidNC/esp32/fnc_uart.cpp:15-36 | what a sender encodes as data bytes and pin events is decoded again |
| EscapeFilter.DisabledKeepsAll | FluidNC/esp32/fnc_uart.cpp:15-36 | without registered pins every byte is kept |
| EscapeFilter.EscapeBytes | FluidNC/esp32/fnc_uart.cpp:15-36 | the bytes of the protocol: C5 and C4 before a pin number are its active and inactive event, a byte in between is data, and a C4 at the end is carried over |
| UartRx.UartObj.RxInterrupt | FluidNC/esp32/fnc_idf_uart.c:768-866 | the receive branch of the handler is one `InterruptRx` step of the protocol |
| UartRx.InterruptEmpties | FluidNC/esp32/fnc_idf_uart.c:768-782 | with the full flag down an activation leaves the FIFO empty, all its bytes read; but if set up so and no timeout, its last byte stays |
| UartRx.InterruptSendsOrHolds | FluidNC/esp32/fnc_idf_uart.c:800-866 | what it reads goes through the filter to the ring if it fits there, else it is held back with the flag up and both interrupts off |
| UartRx.AllArrivals | FluidNC/esp32/fnc_idf_uart.c:768-866 | over every run of the installed driver the bytes read and those in the FIFO are the bytes that arrived and were not flushed, in order |
| UartRx.TimeoutReadsAll | FluidNC/esp32/fnc_idf_uart.c:768-782 | so after a timeout with the flag down the bytes read are all bytes that arrived and were not flushed |
| UartRx.ArrivalsAreDelivered | FluidNC/esp32/fnc_idf_uart.c:768-1186 | from end to end, without a flush: what arrived is, by way of the filter, what readers have got, what one holds, the ring, the stash and the FIFO, in order |
| UartRx.UartObj.OfferStash | FluidNC/esp32/fnc_idf_uart.c:800-866 | the filtered bytes go to the ring, or are held back with flag and mask set |
| UartRx.UartObj.RegisterInputPin | FluidNC/esp32/fnc_uart.cpp:38-42 | registering a pin is one `Register` step: events are filtered from here on and a carried byte is dropped |
| UartRx.UartObj.EnableIntrMask | FluidNC/esp32/fnc_idf_uart.c:370-393 | user mask and enable register both gain the bits |
| UartRx.UartObj.ReenableIntrMask | FluidNC/esp32/fnc_idf_uart.c:395-406 | only bits the user wants are switched on again |
| UartRx.UartObj.DisableIntrMask | FluidNC/esp32/fnc_idf_uart.c:408-416 | user mask and enable register both lose the bits |
| UartRx.UartObj.CheckBufFull | FluidNC/esp32/fnc_idf_uart.c:1129-1145 | the stash goes to the ring if it fits, the counter follows, and nothing pending changes |
| UartRx.UartObj.ReadBytes | FluidNC/esp32/fnc_idf_uart.c:1147-1186 | returns as many of the pending bytes as asked for, in order, and leaves the rest in order |
| UartRx.UartObj.FlushInput | FluidNC/esp32/fnc_idf_uart.c:1209-1261 | leaves ring, FIFO, flag and counter empty and the user's interrupts on |
| UartRx.AllConserved | FluidNC/esp32/fnc_idf_uart.c:768-870 | over every interleaving of handler, reader, flush and user steps, pins being registered at any time: bytes gone, in a task's hand, in the ring and held back are the filtered FIFO bytes in order |
| UartRx.AllAccounted | FluidNC/esp32/fnc_idf_uart.c:1129-1261 | rx_buffered_len is the content of the ring up to the one adjustment the task still owes |
| UartRx.AllMasked | FluidNC/esp32/fnc_idf_uart.c:370-416 | over every run: interrupts the user disabled stay off; those the user enabled are off only while the flag is up, a flush runs or a re-enable is pending |
| UartRx.DeliveredInOrder | FluidNC/esp32/fnc_idf_uart.c:1147-1186 | the installed driver without a flush: delivered bytes, then bytes in hand, ring and held-back stash equal the filtered FIFO bytes, none lost or doubled |
| UartRx.DriverInvariants | FluidNC/esp32/fnc_idf_uart.c:768-1261 | all invariants together over every orderly run of the installed driver |
| UartRx.ReaderRestarts | FluidNC/esp32/fnc_idf_uart.c:1129-1145 | the receiver cannot stall: a reader that finds the ring empty with the flag up brings the stash in and the interrupts back in five steps of its own |
| UartRx.AccountedExact | FluidNC/esp32/fnc_idf_uart.c:1209-1261 | over every run of the installed driver, orderly or not: rx_buffered_len is right all the way if and only if every flush still finds the ring empty when it zeroes the counter, and right at the end if and only if the last such step does; orderly runs do |
| UartRx.EnableDuringFlushMiscounts | FluidNC/esp32/fnc_idf_uart.c:1209-1261 | a whole run from the installed driver: receive interrupts enabled during a flush leave a byte in the ring and the counter at 0, and reading that byte brings the counter to -1 |
| UartTx.Transmitter.TxInterrupt | FluidNC/esp32/fnc_idf_uart.c:677-767 | the transmit branch of the handler, its loop included, is one `InterruptTx` step |
| UartTx.Transmitter.FillFifo | FluidNC/esp32/fnc_idf_uart.c:695-758 | the loop takes items and pushes bytes as `Fill` says |
| UartTx.Transmitter.WriteBuffered | FluidNC/esp32/fnc_idf_uart.c:1065-1083 | a write reaches the ring as one header and its chunks |
| UartTx.Transmitter.WriteUnbuffered | FluidNC/esp32/fnc_idf_uart.c:1084-1107 | every byte of a write goes to the FIFO once and in order and the semaphore is available again |
| UartTx.WriteFrames | FluidNC/esp32/fnc_idf_uart.c:1065-1083 | the items of one write behind framed items are framed and add its bytes in order |
| UartTx.FillKeeps | FluidNC/esp32/fnc_idf_uart.c:695-758 | the handler's loop keeps framing and byte order, and asks for the next interrupt unless nothing is left |
| UartTx.AllInv | FluidNC/esp32/fnc_idf_uart.c:677-767 | framing, order, token and liveness invariants over every interleaving of handler, task and wire |
| UartTx.TransmitFraming | FluidNC/esp32/fnc_idf_uart.c:695-767 | no chunk is ever taken for a header nor the reverse, tx_ptr is set exactly when bytes of its item are left, and the FIFO output is a prefix of the writes put end to end |
| UartTx.UnbufferedToken | FluidNC/esp32/fnc_idf_uart.c:1084-1107 | exactly one token among semaphore, task and waiting flag; when no task writes, everything written is out and the semaphore can be taken |
| UartTx.TransmitterCannotStall | FluidNC/esp32/fnc_idf_uart.c:677-767 | when handler and wire can do nothing, and the task neither, or only a send that may have to wait for room in the ring, then no task waits and everything written is on the wire |
| PatternQueue.PatternRing.Enqueue | FluidNC/esp32/fnc_idf_uart_idfbuild.c:491-509 | appends, or refuses when one slot is left |
| PatternQueue.PatternRing.Dequeue | FluidNC/esp32/fnc_idf_uart_idfbuild.c:511-527 | drops the first position, or fails on an empty queue |
| PatternQueue.PatternRing.Update | FluidNC/esp32/fnc_idf_uart_idfbuild.c:529-544 | shifts every position and keeps those after the last negative one, across the wrap |
| PatternQueue.PatternRing.PopPos | FluidNC/esp32/fnc_idf_uart_idfbuild.c:546-557 | returns and drops the first position, -1 on an empty queue |
| PatternQueue.PatternRing.GetPos | FluidNC/esp32/fnc_idf_uart_idfbuild.c:559-569 | returns the first position without changing anything |
| PatternQueue.PatternRing.Reset | FluidNC/esp32/fnc_idf_uart_idfbuild.c:571-589 | an empty queue of the given length |
| PatternQueue.UpdateDropsNegatives | FluidNC/esp32/fnc_idf_uart_idfbuild.c:529-544 | an update drops exactly the consumed positions if and only if no later position is in front of a consumed one |
| PatternQueue.QueueTracksStream | FluidNC/esp32/fnc_idf_uart_idfbuild.c:491-557 | over any mix of found patterns, pops and consumed bytes the queue is the plain list of stream positions, seen from the first unconsumed byte |
| LineChannel.Channel.PollLine | FluidNC/src/Channel.cpp:218-253 | a poll with a buffer takes from the queue first, then from read(), and answers and writes what `PollBuf` says |
| LineChannel.Channel.PollLineNull | FluidNC/src/Channel.cpp:218-253 | a poll without a buffer handles realtime bytes and queues all others in order |
| LineChannel.Channel.LineComplete | FluidNC/src/Channel.cpp:39-87 | one byte: line end, backspace, or a character kept if it fits, as `Complete` says |
| LineChannel.Channel.CopyLine | FluidNC/src/Channel.cpp:62-63 | the line is delivered as a C string: up to its first NUL |
| LineChannel.Channel.Push | FluidNC/src/Channel.cpp:210-216 | realtime bytes are handled, others queued |
| LineChannel.Channel.FlushRx | FluidNC/src/Channel.cpp:31-37 | line, CR flag and queue are cleared |
| LineChannel.PollDelivers | FluidNC/src/Channel.cpp:218-253 | an unpaused poll delivers a line as soon as it is complete, and reports no data only when there is no complete line |
| LineChannel.LinesInOrder | FluidNC/src/Channel.cpp:218-253 | any interleaving of arrivals, polls with and without buffer, pauses and resumes delivers the lines of the non-realtime bytes in arrival order and handles the realtime bytes in arrival order |
| LineChannel.OkAnswersExact | FluidNC/src/Channel.cpp:218-221 | the Ok answers of a run, which callers take for lines, are the lines delivered, if and only if no poll with a buffer comes while the channel is paused |
| LineChannel.PausedPollAnswersOk | FluidNC/src/Channel.cpp:218-221 | a pause and a poll answer Ok without a line, whatever is waiting |
| LineChannel.TerminatorsAgree | FluidNC/src/Channel.cpp:39-87 | LF, CR and CR-LF give the same lines, if and only if an LF text does not start with an empty line right after a CR |
| LineChannel.TypedIsDelivered | FluidNC/src/Channel.cpp:39-87 | a line typed that fits is delivered as it was typed, at LF or CR |
| LineChannel.BackspaceErases | FluidNC/src/Channel.cpp:71-77 | a backspace takes back the byte before it, and nothing at the start of a line |
| LineChannel.LongLineIsCut | FluidNC/src/Channel.cpp:78-85 | of a line too long the first 254 bytes are kept |
| Modbus.CalculateModbusCRC | FluidNC/capture/HuanyangSimulator.cpp:207-222 | the nested loops compute the CRC of the specification |
| Modbus.ValidateModbusMessage | FluidNC/capture/HuanyangSimulator.cpp:224-236 | true exactly for messages of four bytes or more that end in their check |
| Modbus.CreateModbusResponse | FluidNC/capture/HuanyangSimulator.cpp:238-250 | the frame carries address, function and data, and always validates |
| Modbus.CreateModbusError | FluidNC/capture/HuanyangSimulator.cpp:252-255 | an error frame has the top bit of the function set and validates |
| Modbus.RunIsRunBits | FluidNC/capture/HuanyangSimulator.cpp:207-222 | the byte loop is the shift register fed bit by bit in the order of transmission |
| Modbus.ZeroAfter | FluidNC/capture/HuanyangSimulator.cpp:211-218 | up to sixteen bits bring the register to zero if and only if it holds just these bits |
| Modbus.ValidIsZero | FluidNC/capture/HuanyangSimulator.cpp:224-236 | a message is valid if and only if the register is zero after all of it, check included |
| Modbus.RunXor | FluidNC/capture/HuanyangSimulator.cpp:207-222 | the register is linear over changes |
| Modbus.AcceptedChanges | FluidNC/capture/HuanyangSimulator.cpp:224-236 | exactly which changes pass: those whose bit pattern, run from zero, returns to zero |
| Modbus.BurstRejected | FluidNC/capture/HuanyangSimulator.cpp:224-236 | any change within sixteen consecutive bits, anywhere in the frame, is rejected |
| Modbus.TwoBytesRejected | FluidNC/capture/HuanyangSimulator.cpp:224-236 | changing one byte, or two adjacent ones, payload or check, is rejected |
| Modbus.OddChangeRejected | FluidNC/capture/HuanyangSimulator.cpp:224-236 | a change of an odd number of bits, wherever they are, is rejected |
| Modbus.KnownFrame | FluidNC/capture/HuanyangSimulator.cpp:207-236 | the check of 01 03 00 00 00 0A is CDC5, and the frame with C5 CD behind it is valid |
| Gpio.Gpios.PollGpios | FluidNC/esp32/gpio.cpp:144-158 | the bit-clearing loop does what `Poll` says |
| Gpio.Gpios.SendEvent | FluidNC/esp32/gpio.cpp:126-142 | sends and settles if due, by the wrapping comparison, else changes nothing |
| Gpio.Gpios.SetEvent | FluidNC/esp32/gpio.cpp:110-120 | the pin is of interest and the next poll finds it changed; other pins keep their bits |
| Gpio.Gpios.ClearEvent | FluidNC/esp32/gpio.cpp:121-124 | the pin is of no interest any more, nothing else changes |
| Gpio.Gpios.Highest | FluidNC/esp32/gpio.cpp:151-153 | 63 - clz is the highest pin of the mask |
| Gpio.DueExact | FluidNC/esp32/gpio.cpp:127-131 | the 32-bit comparison says "due" exactly when the ticks since the end of the quiet time are 1 to 2^31 - 1 modulo 2^32 |
| Gpio.DueIsLater | FluidNC/esp32/gpio.cpp:127-131 | two events are more than the limit apart however the counter wraps |
| Gpio.DueInTime | FluidNC/esp32/gpio.cpp:127-131 | the limit is over for the 2^31 - 1 ticks after it |
| Gpio.NotDueAfterHalfWrap | FluidNC/esp32/gpio.cpp:127-131 | after that nothing is sent for 2^31 ticks: why reports need gaps below 2^31 |
| Gpio.VisitedOnce | FluidNC/esp32/gpio.cpp:151-157 | each changed pin of interest is visited exactly once, from the highest down |
| Gpio.PollOne | FluidNC/esp32/gpio.cpp:144-158 | a poll settles a pin if and only if it is of interest, changed and due; all other pins keep state and history |
| Gpio.DecisionsAlternate | FluidNC/esp32/gpio.cpp:126-158 | over any run of polls the decisions for one pin alternate and are more than the limit apart |
| Gpio.HeldLevelReported | FluidNC/esp32/gpio.cpp:126-158 | a level that differs from the one last sent is reported by the next poll, if and only if the wrapped time since the quiet time is in range; before the first decision the quiet time is that of a former registration, if any |
| Gpio.EventsAlternate | FluidNC/esp32/gpio.cpp:126-158 | the events sent for a pin over any run of polls: none without an argument to send, else all its decisions, alternating and more than 5 ticks apart, the last one being the state the pin is known in |
| Gpio.PollSends | FluidNC/esp32/gpio.cpp:126-158 | a poll sends the event of a pin of interest that has an argument and is due, exactly when its raw level, turned over if it is inverted, differs from the state it is known in |
| GCodeCoords.GcodeParser.Execute | FluidNC/src/GCode.cpp:1135-2017 | one parsed block changes the coordinates, and is refused, exactly as `ExecuteLine` says |
| GCodeCoords.GcodeParser.CheckBlock | FluidNC/src/GCode.cpp:1180-1328 | the coordinate checks: the error, or the values to execute with |
| GCodeCoords.GcodeParser.ConvertUnits | FluidNC/src/GCode.cpp:1135-1143 | axis words in millimetres, rotary axes left alone |
| GCodeCoords.GcodeParser.PlanG10 | FluidNC/src/GCode.cpp:1218-1235 | G10 L2 and L20 data |
| GCodeCoords.GcodeParser.PlanG92 | FluidNC/src/GCode.cpp:1237-1254 | G92 offsets |
| GCodeCoords.GcodeParser.PlanTarget | FluidNC/src/GCode.cpp:1260-1280 | targets of absolute, incremental and G53 moves |
| GCodeCoords.GcodeParser.PlanHome | FluidNC/src/GCode.cpp:1283-1302 | G28 and G30 positions |
| GCodeCoords.GcodeParser.ExecuteLengthOffset | FluidNC/src/GCode.cpp:1819-1833 | G43.1 and G49 |
| GCodeCoords.GcodeParser.ExecuteSelect | FluidNC/src/GCode.cpp:1835-1839 | the selection and its cached copy change together |
| GCodeCoords.GcodeParser.ExecuteNonModal | FluidNC/src/GCode.cpp:1845-1886 | G10, G28, G30, G28.1, G30.1, G92, G92.1 |
| GCodeCoords.GcodeParser.ProbeCycle | FluidNC/src/MotionControl.cpp:280-374 | what a probe cycle leaves: the position alone if it never started, the target if it missed, the machine position on contact, where P makes the contact the origin of one axis of the selected system |
| GCodeCoords.GcodeParser.ExecuteProgramEnd | FluidNC/src/GCode.cpp:1970-2013 | M2 and M30 select G54, reading it back outside check mode only |
| GCodeCoords.GcodeParser.PerformAssignments | FluidNC/src/Parameters.cpp:636-645 | pending assignments are performed in order |
| GCodeCoords.GcodeParser.SetParam | FluidNC/src/Parameters.cpp:506-537 | one numbered assignment |
| GCodeCoords.GcodeParser.constructor | FluidNC/src/GCode.cpp:66-77 | gc_init: everything zero, G54 selected and cached |
| GCodeCoords.LineKeepsCache | FluidNC/src/GCode.cpp:1165-1883 | after every line, accepted or rejected at any point, the cached system is the stored one for the selection, as long as assignments touch neither and no M2/M30 runs in check mode |
| GCodeCoords.CacheOverRuns | FluidNC/src/GCode.cpp:66-77 | the same over whole jobs |
| GCodeCoords.AssignExact | FluidNC/src/Parameters.cpp:506-526 | an assignment keeps the cache right if and only if it selects equal values, or writes a value already there, or touches neither |
| GCodeCoords.AssignsExact | FluidNC/src/Parameters.cpp:636-645 | the same for any list of assignments: the cache is right after them if and only if the system last selected is left with the values of the one selected before |
| GCodeCoords.AssignmentLeavesCache | FluidNC/src/Parameters.cpp:508-515 | #5221=10 right after gc_init is accepted and leaves the cache behind |
| GCodeCoords.SelfAssignMovesOn | FluidNC/src/Parameters.cpp:158-161 | the line #5220=#5220, run k times, is accepted each time, selects the k-th next system and leaves the cache on the first: right if and only if the two systems hold equal values |
| GCodeCoords.CheckModeEndExact | FluidNC/src/GCode.cpp:2004-2007 | after any accepted M2/M30 line in check mode G54 is selected and the cache is right if and only if G54 holds the values of the system the line ran in |
| GCodeCoords.CheckModeEndBefore | FluidNC/src/GCode.cpp:2004-2007 | for a line that stores no work coordinate system the condition is on the state before it: G54 and the system of the line hold the same values |
| GCodeCoords.CheckModeEndLeavesCache | FluidNC/src/GCode.cpp:2004-2007 | M2 in check mode with G55 X10 selected: G54 is selected and G55 is still the system in use |
| GCodeCoords.RejectedThenNext | FluidNC/src/Parameters.cpp:636-645 | a line rejected by any check and the line after it, whatever that is, do together what the second does with the assignments of both |
| GCodeCoords.RejectedAssignmentIsPerformed | FluidNC/src/Parameters.cpp:636-645 | G92 #5221=10 is refused for want of an axis word, and a G90 after it stores the 10 |
| GCodeCoords.G10NeedsOnlyL | FluidNC/src/GCode.cpp:1187-1217 | G10 is accepted if and only if, besides axis words, there is an L word of 2 or 20 and P, or no P at all, names one of nine systems; without L it is always refused, without P it writes the system selected |
| GCodeCoords.G92SetsWorkPosition | FluidNC/src/GCode.cpp:1237-1254 | after G92 the work position is the programmed value on named axes and unchanged on the others; the machine does not move |
| GCodeCoords.G10SetsWorkPosition | FluidNC/src/GCode.cpp:1218-1235 | the same after G10 L20 for the selected system; L2 sets the system; other systems keep their values |
| GCodeCoords.G10ElsewhereIsQuiet | FluidNC/src/GCode.cpp:1846-1853 | G10 for another system moves no work position |
| GCodeCoords.TargetInverse | FluidNC/src/GCode.cpp:1260-1280 | the target of an absolute move is the machine position with the programmed work position |
| GCodeCoords.G92ThenMoveBack | FluidNC/src/GCode.cpp:1205-1280 | after G92 to v an absolute move to v targets the current machine position |
| GCodeCoords.G10ThenMoveBack | FluidNC/src/GCode.cpp:1205-1280 | the same after G10 L20 |
| GCodeCoords.SelectAndBack | FluidNC/src/GCode.cpp:1835-1839 | selecting another system and coming back restores everything |
| CoordMoves.AbsoluteMoveArrives | FluidNC/src/GCode.cpp:1260-1280 | after an accepted absolute move the work position is the programmed value on named axes, and the machine is where it was on the others |
| CoordMoves.IncrementalMoveAdds | FluidNC/src/GCode.cpp:1260-1280 | an accepted incremental move moves the machine by the programmed value |
| CoordMoves.IncrementsAddUp | FluidNC/src/GCode.cpp:1888-1949 | any number of incremental moves in a row add up |
| CoordMoves.MachineMoveArrives | FluidNC/src/GCode.cpp:1260-1280 | G53 moves to the programmed machine position, whatever mode, systems and offsets are |
| CoordMoves.JogArrives | FluidNC/src/GCode.cpp:1570-1594 | a jog ends at its target and changes nothing else; cancelled in flight it changes nothing |
| CoordMoves.UnitsOfValues | FluidNC/src/GCode.cpp:1135-1143 | G20 values are times 25.4, except on the rotary axes A, B and C |
| CoordMoves.MovesFromStart | FluidNC/src/GCode.cpp:1888-1949 | right after gc_init G0 X10 ends at 10 and G91 X10 after it at 20; G20 G0 X1 ends at 25.4 |
| CoordMoves.ProbeEnds | FluidNC/src/MotionControl.cpp:280-374 | where an accepted probing move ends: it stays, is at its target, or where it touched; the P axis then reads its value there |
| CoordMoves.LengthOffsetShifts | FluidNC/src/GCode.cpp:1819-1833 | G43.1 sets the length offset of named axes and G49 clears all; the machine stays and the work position changes by the difference |
| CoordMoves.ResetClears | FluidNC/src/GCode.cpp:1879-1883 | G92.1 clears the offsets of G92 and nothing else |
| CoordMoves.G10WritesSystem | FluidNC/src/GCode.cpp:1218-1235 | G10 L2 with P from 1 to 9 writes the values to that system and no other |
| CoordMoves.ProgramEndSelects | FluidNC/src/GCode.cpp:1970-2013 | outside check mode M2 and M30 leave G54 selected and in use |
| CoordMoves.StatusExact | FluidNC/src/GCode.cpp:1187-1328 | a line is accepted, or refused with the first of six errors of coordinates, exactly under the stated conditions on its words |
| CoordMoves.HomeReturns | FluidNC/src/GCode.cpp:1283-1302 | G28.1 (G30.1), any lines that do not store that position anew, and G28 (G30): the machine is back where it was, on all axes or on those named |
| GCodeWords.BlockParser.ParseWords | FluidNC/src/GCode.cpp:316-928 | the word loop ends with the error, the block, or the O word that `Parse` says; axis_words follows the value words |
| GCodeWords.BlockParser.CommandWord | FluidNC/src/GCode.cpp:360-752 | one G or M word with its modal group check |
| GCodeWords.BlockParser.NonModalCases | FluidNC/src/GCode.cpp:363-409 | G4, G10, G28, G30, G53, G92 and their .1 forms |
| GCodeWords.BlockParser.MotionCases | FluidNC/src/GCode.cpp:411-480 | G0 to G3 and G80 |
| GCodeWords.BlockParser.ProbeCase | FluidNC/src/GCode.cpp:432-476 | G38.2 to G38.9 |
| GCodeWords.BlockParser.ModalCases | FluidNC/src/GCode.cpp:481-613 | planes, distance, feed rate, units, tool length, coordinate system, path control |
| GCodeWords.BlockParser.MCases | FluidNC/src/GCode.cpp:625-752 | M words |
| GCodeWords.BlockParser.NonCommandWord | FluidNC/src/GCode.cpp:753-928 | value words: axis limits, repeats and negative values |
| GCodeWords.OrderDoesNotMatter | FluidNC/src/GCode.cpp:316-928 | every permutation of an unmixed block without O words is accepted or rejected alike, and accepted with the same block, masks and axis command |
| GCodeWords.MixedOrderMatters | FluidNC/src/GCode.cpp:411-432 | an accepted block that mixes G0-G3 with a word claiming the axis words is refused when its motion word comes first: the excluded blocks are excluded for a reason |
| GCodeWords.StepsCommute | FluidNC/src/GCode.cpp:345-928 | two words that do not mix have the same effect in either order |
| GCodeWords.AcceptedOncePerGroup | FluidNC/src/GCode.cpp:617-624 | an accepted block has at most one command of each modal group and one word of each letter, and the masks hold exactly these |
| GCodeWords.DecodeLocal | FluidNC/src/GCode.cpp:360-752 | a command word sets fields of its own modal group only |
| GCodeWords.FractionIsRefused | FluidNC/src/GCode.cpp:586-616 | a block with a word G54 to G59 that has a fraction is refused, wherever the word stands: G59.1 to G59.3 select nothing |
| GCodeWords.SelectsItsSystem | FluidNC/src/GCode.cpp:563-602 | in an accepted block such a word has no fraction and selects the system of its number, one of the first six |
| GCodeWords.SelectExact | FluidNC/src/GCode.cpp:563-616 | alone it is accepted, and selects, if and only if it has no fraction |
| GCodeWords.FirstFractionIsRefused | FluidNC/src/GCode.cpp:586-616 | G59.1 is such a word |
| WordCodes.ModalCodes | FluidNC/src/GCode.cpp:481-602 | in every accepted block each modal G word leaves its field with its code: planes, distance, feed rate, units and tool length ten times the number, G54 to G59 their index |
| WordCodes.MotionCodes | FluidNC/src/GCode.cpp:411-480 | the motion words the same; G38.6 to G38.9 are G38.2 to G38.5 in machine coordinates |
| WordCodes.NonModalCodes | FluidNC/src/GCode.cpp:363-409 | the non-modal words the same, G28.1, G30.1 and G92.1 one more than the plain ones |
| WordCodes.MCodes | FluidNC/src/GCode.cpp:625-752 | the M words: program flow, spindle, tool, coolant if fitted, I/O and override |
| WordCodes.ValueStored | FluidNC/src/GCode.cpp:753-928 | in every accepted block each value word leaves its value, a whole number for E, L, N, O and T |
| WordCodes.AxisWordsMove | FluidNC/src/GCode.cpp:411-431 | with G0 to G3 in an accepted block the axis words are for the motion |
| WordCodes.AxisWordsClaimed | FluidNC/src/GCode.cpp:363-576 | without them they are for the word that claims them: G10, G28, G30 and G92, G43.1 and G49, or G38 |
| BlockChecks.AcceptedExact | FluidNC/src/GCode.cpp:316-928 | a line of words is accepted if and only if each word is one of those listed, no two are of one modal group or of one value letter, none claims the axis words behind one that takes them, and nothing follows an O word |
| BlockChecks.ConflictErrors | FluidNC/src/GCode.cpp:614-928 | the error of a word that is refused because of words before it: repeated value, conflict over the axis words, or modal group violation |
| BlockChecks.CommandErrors | FluidNC/src/GCode.cpp:360-752 | the error of a command that is never accepted: not supported, or not an integer |
| BlockChecks.ValueErrors | FluidNC/src/GCode.cpp:753-928 | the error of a value that is never accepted; a repeated letter is reported before a negative value |
| CollapseLine.CollapseGCode | FluidNC/src/GCode.cpp:160-223 | in place: what is left is `Collapse` of the line, every comment is handed on undamaged although the line is being overwritten, and the job is told of a lone "%" |
| CollapseLine.CollapseAgain | FluidNC/src/GCode.cpp:160-223 | what is left is what stands outside of comments, except for a lone "%" without a comment; it has no white space, comments or lower case; collapsing again changes it if and only if it is a "%" and the text has a "(" or ";" |
| CollapseLine.PercentByComments | FluidNC/src/GCode.cpp:215-221 | "(x)%" and "%;" leave "%", "%" and ";%" leave nothing |
| CollapseLine.SpaceIsIgnored | FluidNC/src/GCode.cpp:169-171 | white space anywhere makes no difference |
| CollapseLine.UpperCase | FluidNC/src/GCode.cpp:195-198 | text without white space and comments is kept letter by letter, "a" to "z" becoming "A" to "Z"; a lone "%" excepted |
| CollapseLine.CommentIsHandedOn | FluidNC/src/GCode.cpp:173-207 | a comment is handed on exactly as it was written, before those behind it, with or without its closing parenthesis |
| CollapseLine.CutCommentIsDropped | FluidNC/src/GCode.cpp:187-191 | a comment cut off by a ";" is not handed on |

## Left out

- Unrolling.RepeatIsUnrolled: a BREAK of the REPEAT itself ends it, while the text written n times breaks out of itself; a lone "%" depends on where it stands.
- CONTINUE in the big-step meaning of structured programs: when it ends the last pass the code goes on inside the body with the loop gone, which no structured program means. It is in `Flowcontrol.Interpreter` and `ContinueRuns`.
- BREAK or CONTINUE with a label that is not on the stack: the source then reads the top of an empty stack, which is undefined; the model reports a status of its own.
- Fractional, negative or too large REPEAT counts: the conversion to an unsigned integer is as on the target, nothing is proved about such counts.
- Jobs that call jobs: the class keeps a position for each job, the theorems are about one job and the one after it. The line number of a job is its read position.
- The command keyword of an O word is given as an operation; an unknown keyword is `NoOp`. O words behind other words on a line, which a skipped line does not get to, and O lines longer than the line buffer are not modelled.
- IEEE floating point, NaN and overflow: numbers are reals, and the transcendental functions are arbitrary functions.
- What a failed line brings about beyond the error that stops its job, and lines refused in alarm and jog states. An alarm stops a job before its next line; that the polling task may have read that line already is not modelled.
- Which lines end a job: `exec` answers so for M2, M30 and whatever raises an alarm; the job is a file, as in InputFile, and not a macro, where a blank line ends it, too.
- read_float, the parameter tables, system parameters and what EXISTS looks up: arbitrary functions; a literal reader is assumed to move on. The reference "#<>" without a name, which the source takes for a number it has not set, reads the name "".
- Operands.ReadNumberIsRecursive: read_number outside an expression, where functions and signs are not accepted, is not modelled.
- The UART's RS485 mode, breaks, collision detection, fnc_uart_tx_chars, pattern detection in the handler, and two cores inside one activation of the handler.
- The ring buffers are FreeRTOS objects: the receive ring is a byte buffer that takes a chunk if it fits, the transmit ring a queue of items on which a send may wait while less than twice its room is free, as free room can be cut in two by the end of the buffer.
- Interrupt masks have the two receive bits and the transmit bit only.
- UartRx.UartObj.ReadBytes: runs without other steps in between; the interleavings are those of `StepRead`.
- UartRx.UartObj.FlushInput: runs without other steps in between; the interleavings are those of `StepFlush`.
- UartTx.Transmitter.WriteUnbuffered: blocking is modelled by letting the FIFO run empty and the handler run once.
- UartTx.TransmitFraming: the user switching the transmit interrupt off is not modelled.
- PatternQueue.PatternRing.Update: positions are unbounded integers, and a queue whose memory was freed is not modelled.
- LineChannel: what realtime bytes do, UTF-8 sequences of them, reports during a poll, and channels that override realtimeOkay or lineComplete. The time at which bytes are pushed from outside relative to unread input is not part of the runs.
- Modbus: the drive behind the protocol and requests of the simulator.
- Gpio: masks are sets of pins, so shifting and counting bits is not modelled; signed overflow of the tick difference is taken to wrap.
- Gpio.Gpios.SetEvent: registering again does not reset the quiet time of a pin; runs are between registrations.
- GCodeCoords.GcodeParser.Execute: feed, spindle, coolant, arcs, probing motion and I/O are represented by whether they reject the line before or during execution; axes that are not configured have no entry in a vector.
- GCodeCoords.GcodeParser.CheckBlock: the checks of other word groups are one flag, as for `Execute`.
- GCodeCoords.GcodeParser.SetParam: as for `AssignExact`, a #5220 value past the nine systems is not modelled; other parameters than those of coordinates are `Other`.
- GCodeCoords.AssignExact: #5220 set past the nine work systems is not modelled; the source then indexes other stored positions or past the table.
- GCodeCoords.GcodeParser.PlanG10: a P word of 256 or more is reduced modulo 256, as on the target.
- GCodeWords.BlockParser.ParseWords: characters are not read, words are given as letter and number; assignments and the skip flag are in the flow-control model. The T word also sets the selected tool of the machine at once, on rejected lines too. Jogging lines start behind their prefix.
- CollapseLine.CollapseGCode: what a comment does (messages and formatted values) is not modelled.
- Motion, planner, spindles, EDM, status reports, files, networks, settings storage and the web page.
