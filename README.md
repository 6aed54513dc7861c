# OpenRoberta lab connector for ev3dev, modelled in Dafny

This project models the core of the ev3dev client of Open Roberta Lab. That client is a Python package that connects a LEGO EV3 brick to the Open Roberta server: it registers with a token, polls for commands, downloads the programs the server generates and runs them. It also models the runtime helpers that those generated programs call. The project covers three source files.

- **roberta/lab.py**, the connector, in four parts:
  - the session token;
  - the `Service` that starts and supersedes connectors;
  - the `Connector` thread's poll loop: request selection, the `repeat`/`abort`/`download`/`update` commands, the error policy, and the exit signals;
  - the url fallback of `_request`, the classification of a program run in `_exec_code`, and the button watcher `AbortHandler.run`.
- **roberta/BlocklyMethods.py**: the number predicates, `clamp`, `randInt`, text and list construction, `findFirst`, the list locations of `_calculateIndex`, `listsGetSubList`, and the in-place list operations of `_executeOperation`/`listsIndex`.
- **roberta/ev3.py**: `clamp` and the motor percentages, the key names of `isKeyPressed`, the colour table, the tacho mode check, and the class-global list `Hal.cmds` that `waitCmd` and `resetState` maintain.

The modules follow the program's structure:

| module | file | contents |
|---|---|---|
| `PyBuiltins` | python.dfy | The Python semantics the code relies on: floor `%` and `//`, negative indexing, slicing, `str.find`, `str.replace`. Also the `Policy` switch AsWritten/Corrected, used where the code has a defect. |
| `LabText` | lab_text.dfy | The pure string helpers of lab.py. |
| `Execution` | lab_exec.dfy | `_exec_code`, the abort tick, and class `AbortHandler`. |
| `Transport` | lab_request.dfy | `_request`: a specification function over the sequence of server answers, and the `while True` method proved equal to it. |
| `Session` | lab_session.dfy | One iteration of `Connector.run` as a pure function (`Step`), a whole run as `RunSpec`, and the rules the source promises about both. |
| `Lab` | lab_connector.dfy | The classes `Params` (the shared dictionary), `Service` and `Connector`. Their methods update the fields in place and are proved against `Session`. |
| `Ev3` | ev3.dfy | Pure helpers, and class `Hal` for the `cmds` bookkeeping. |
| `Blockly` | blockly.dfy | BlocklyMethods, with the mutable list as class `PyList`. |

I/O and the environment become inputs:
- each poll's reply, or the error raised in its place;
- the random bytes;
- the button samples;
- the host name and battery reading;
- how a downloaded program ends.

## Model

| member | source | states |
|---|---|---|
| PyBuiltins.FloorMod | roberta/BlocklyMethods.py:44-45 | Python's `%`: the remainder lies in `[0, d)` for a positive divisor and in `(d, 0]` for a negative one |
| PyBuiltins.FloorDiv | roberta/BlocklyMethods.py:44-45 | Python's `//`: quotient times divisor plus the floor remainder gives the dividend back |
| PyBuiltins.NormIndex | roberta/BlocklyMethods.py:176 | a list position exists exactly for `-n <= i < n`; a negative position counts from the end |
| PyBuiltins.At | roberta/ev3.py:561 | `s[i]` succeeds exactly for `-len <= i < len`, returns the element counted from either end, and raises IndexError otherwise |
| PyBuiltins.SliceBound | roberta/BlocklyMethods.py:91 | a slice bound is clipped into `0..len`, a negative one counts from the end, and a missing one takes the default |
| PyBuiltins.Slice | roberta/BlocklyMethods.py:91 | `s[a:b]` never raises, is never longer than `s`, and is the plain sub-sequence for in-range bounds |
| PyBuiltins.FindFrom | roberta/lab.py:282 | `find` from a position: the first occurrence at or after it, or -1 exactly when none exists |
| PyBuiltins.Find | roberta/lab.py:282 | `str.find`: -1 exactly when the pattern does not occur, otherwise the first occurrence |
| PyBuiltins.Replace | roberta/lab.py:305-307 | definition of `str.replace`, left to right and non-overlapping; stated by ReplaceAbsent, ReplaceSelf, ReplaceKeepsPrefix and ReplaceAtStart |
| PyBuiltins.ReplaceAbsent | roberta/lab.py:305-307 | `replace` of a pattern that does not occur leaves the text unchanged |
| PyBuiltins.ReplaceSelf | roberta/lab.py:305-307 | replacing a pattern by itself is the identity |
| PyBuiltins.ReplaceKeepsPrefix | roberta/lab.py:305-307 | a prefix in which no occurrence begins is copied, and replacing continues after it |
| PyBuiltins.ReplaceAtStart | roberta/lab.py:305-307 | an occurrence at the start is replaced, and replacing continues after it |
| LabText.GenerateToken | roberta/lab.py:47-53 | the token has 8 characters from the alphabet without `0`, `1`, `I`, `O`; character i is `chars[b[i] % 32]` |
| LabText.AlphabetRuns | roberta/lab.py:50 | the alphabet has 32 characters, in the runs `2..9`, `A..H`, `J..N`, `P..Z` |
| LabText.AlphabetIndex | roberta/lab.py:50 | every token character sits at a position below 32 of the alphabet |
| LabText.TokenAlphabetIsTokenChars | roberta/lab.py:48-50 | a character is in the alphabet exactly when it matches `[0-9A-Z]` and is not `0`, `1`, `I` or `O` |
| LabText.EveryTokenIsGenerated | roberta/test_lab.py:59-61 | every well-formed 8-character token comes out of some 8 random bytes |
| LabText.StripScheme | roberta/lab.py:282 | the address is unchanged without `://`; otherwise the result is what follows the first `://` |
| LabText.PrefixBeforeFirstOccurrence | roberta/lab.py:282 | no `://` occurs in the text before the first one |
| LabText.StripSchemeOfUrl | roberta/lab.py:282 | `scheme://host` gives `host`, whatever `host` contains |
| LabText.DownloadName | roberta/lab.py:431 | `'unknown'` without a header, IndexError exactly when a header has no `=`, otherwise a name without `=` |
| LabText.DownloadNameOfHeader | roberta/lab.py:431 | `pre=name` and `pre=name=more` both give `name` |
| LabText.DownloadNameBeforeMore | roberta/lab.py:431 | the name ends at the second `=` |
| LabText.DownloadNameAfterFirst | roberta/lab.py:431 | the name starts after the first `=` and runs to the next one or to the end |
| LabText.PathJoin | roberta/lab.py:431 | `os.path.join`: an absolute name wins, otherwise the name ends the path |
| LabText.HotFixWithoutPatterns | roberta/lab.py:302-310 | a program without the three Python 2 patterns is stored unchanged |
| LabText.HotFixUpgradesShebang | roberta/lab.py:305-307 | a leading `#!/usr/bin/python` line becomes `#!/usr/bin/python3`, and the rest is fixed as usual |
| LabText.HotFix | roberta/lab.py:302-310 | definition of the three rewrites `_store_code` applies in order; stated by HotFixWithoutPatterns and HotFixUpgradesShebang |
| Execution.ExecCode | roberta/lab.py:312-342 | definition of the result of `_exec_code` for each way a run ends; stated by ExecCodeClassifies, ExitValueIsAmbiguous, ExecCodeExamples and AbortedRunsReport |
| Execution.ExecCodeClassifies | roberta/lab.py:312-342 | a finished run reports `scope['result']`; SystemExit reports 143; other errors report 1; only KeyboardInterrupt (hard abort or the program's own) is re-raised |
| Execution.ExitValueIsAmbiguous | roberta/lab.py:329-338 | a program that sets `result` to 143 or 1 is reported like a soft kill or a failure |
| Execution.ExecCodeExamples | roberta/test_lab.py:184-202 | `pass` gives 0, non-Python gives 1, `result = 42` gives 42, an endless loop that is interrupted re-raises |
| Execution.AbortTick | roberta/lab.py:219-237 | one tick: a hard abort exactly when back is held past a count of 10; a soft abort exactly for enter+down without back; otherwise the count is incremented or reset |
| Execution.Monitor | roberta/lab.py:216-238 | definition of the signal the `AbortHandler.run` loop ends with, tick by tick; stated by HardAbortNeedsLongPress, LongPressAborts, SoftAbortNeedsEnterDown and AbortHandler.Run |
| Execution.HardAbortNeedsLongPress | roberta/lab.py:220-231 | a hard abort at tick k needs back held for the 12 ticks up to k |
| Execution.LongPressAborts | roberta/lab.py:220-231 | back held for 12 ticks from the start aborts hard at the twelfth |
| Execution.SoftAbortNeedsEnterDown | roberta/lab.py:232-235 | a soft abort happens only at a tick where enter and down are pressed and back is not |
| Execution.AbortHandler.Exit | roberta/lab.py:243-250 | `__exit__` stops the handler and swallows exactly when there was no exception |
| Execution.AbortHandler.Run | roberta/lab.py:216-238 | the loop's signal is the tick function run over the samples; the handler is still running exactly when it was and none aborted |
| Execution.AbortedRunsReport | roberta/lab.py:225-235 | a soft abort always reports 143; a hard abort never reports |
| Transport.Handle | roberta/lab.py:356-373 | definition of the reaction to one try's answer: return, rewrite the url, or raise; stated by the rows below |
| Transport.Attempt | roberta/lab.py:347-373 | definition of the `while True` loop over the answers; stated by AttemptBounded and the rows below |
| Transport.RequestSpec | roberta/lab.py:344-374 | definition of a whole `_request` call from `https`; stated by Request, RequestBounded, FirstResponseReturned, OtherCodesPropagate, RestRetriedOnce, HttpTriedOnce, SecondUrlErrorBreaksUrl and SecondUrlErrorRaised |
| Transport.Request | roberta/lab.py:344-374 | the `while True` loop ends with the outcome and the urls tried that the specification `RequestSpec` gives |
| Transport.DowngradeUrl | roberta/lab.py:364-365 | `"http" + url[5:]` turns `https://a/p` into `http://a/p` and keeps whether `/rest/` occurs |
| Transport.RestUrlHasMarker | roberta/lab.py:357-360 | the url rewritten after a 404 contains `/rest/` |
| Transport.UrlHasScheme | roberta/lab.py:346 | https and http urls have a scheme urllib accepts |
| Transport.NoSchemeAfterDoubleDowngrade | roberta/lab.py:372-373 | downgrading an http url gives `http//…`, which has no scheme |
| Transport.AttemptBounded | roberta/lab.py:347-373 | from a well-formed state the tries are bounded, because each rewrite happens at most once; the corrected loop never builds a url without a scheme; enough answers never run out |
| Transport.RequestBounded | roberta/lab.py:344-374 | at most 3 tries per call; corrected, never a malformed url; 3 answers always suffice |
| Transport.FirstResponseReturned | roberta/lab.py:355 | a response on the first try is returned with one url tried |
| Transport.OtherCodesPropagate | roberta/lab.py:366-368 | HTTP codes other than 404 and 405 are re-raised after one try |
| Transport.RestRetriedOnce | roberta/test_lab.py:143-153 | 404 then another code: the second and last try goes to `…/rest/pushcmd`, and its error is re-raised |
| Transport.HttpTriedOnce | roberta/lab.py:361-365 | a 405 downgrades to http once, and a second 405 is re-raised |
| Transport.SecondUrlErrorBreaksUrl | roberta/lab.py:369-373 | as written, two URLErrors end on the malformed url `http//address/cmd` |
| Transport.SecondUrlErrorRaised | roberta/lab.py:369-373 | corrected, the second URLError is re-raised after the https and http tries |
| Session.FinishEffects | roberta/lab.py:518-523 | `disconnected` exactly when a service is attached; the farewell tone exactly with a service and after registration |
| Session.Init | roberta/lab.py:280-294 | a new connector is unregistered and has a fresh token; with a service its parameters are the service's keys plus `token`, with the service's values kept; without one they hold only the token |
| Session.Step | roberta/lab.py:389-517 | definition of one iteration of the poll loop; stated by RequestSelection, RepeatRule, RepeatIdempotent, AbortRule, FailureRule, HardAbortEndsProcess, OwnInterruptIsSwallowed, StepSilentWithoutService and StepKeepsRegistration |
| Session.DownloadStep | roberta/lab.py:423-447 | definition of the `download` reply; stated by DownloadKeepsRequest, DownloadBrackets and DownloadWithoutRun |
| Session.RunSpec | roberta/lab.py:388-523 | definition of a whole run, iteration after iteration; stated by RunSpecContinues, RunSpecStops, RunSilentWithoutService, RunKeepsRegistration, StoppedRunEndsWithFinish, RepeatsRegisterOnce, ForbiddenEndsRun, RegisterThenPush and UnreachableServerLoops |
| Session.RequestSelection | roberta/lab.py:389-396 | each iteration sends `push` with timeout 15 when registered and `register` with 330 otherwise, plus host name and battery |
| Session.DownloadKeepsRequest | roberta/lab.py:423-447 | a download keeps the timeout and changes no parameter but `nepoexitvalue` |
| Session.RepeatRule | roberta/lab.py:408-413 | `repeat` registers and sets `nepoexitvalue` to 0; it signals `registered` and the tone only on the first registration; without a service an unregistered connector stays as it was |
| Session.RepeatIdempotent | roberta/lab.py:408-413 | a second `repeat` is silent and changes only `cmd`, to `push` |
| Session.AbortRule | roberta/lab.py:414-422 | `abort` loops with a new token exactly when unregistered with a service, and otherwise breaks |
| Session.FailureRule | roberta/lab.py:469-517 | an HTTPError continues exactly for 500..510; a URLError breaks exactly for a truthy non-socket cause; socket and other errors continue; nothing else changes |
| Session.DownloadBrackets | roberta/lab.py:428-447 | a run program is stored hot-fixed under its name, is bracketed by `executing` … `registered`, and its exit value becomes `nepoexitvalue` |
| Session.DownloadWithoutRun | roberta/lab.py:429-441 | a header without `=` stores nothing; without a service the program is stored and not run; either way the loop goes on silently |
| Session.HardAbortEndsProcess | roberta/lab.py:225-229 | after a hard abort the process ends with `executing` and no `registered` |
| Session.OwnInterruptIsSwallowed | roberta/lab.py:516-517 | a program's own KeyboardInterrupt is swallowed: the loop goes on, with no `registered` and the exit value unchanged |
| Session.StepSilentWithoutService | roberta/lab.py:410 | without a service an iteration signals nothing |
| Session.StepKeepsRegistration | roberta/lab.py:412 | an iteration never clears `registered` |
| Session.RunSilentWithoutService | roberta/lab.py:388-523 | without a service a whole run signals nothing |
| Session.RunKeepsRegistration | roberta/lab.py:388-523 | once registered, a connector stays registered for the rest of the run |
| Session.StoppedRunEndsWithFinish | roberta/lab.py:518-523 | a run that breaks ends with the exit effects |
| Session.RepeatsRegisterOnce | roberta/lab.py:408-413 | any number of `repeat` replies signal `registered` and the tone exactly once, and only if not yet registered |
| Session.ForbiddenEndsRun | roberta/test_lab.py:135-141 | a first 403 ends the run unregistered, after a `register` request, with only `disconnected` |
| Session.RegisterThenPush | roberta/test_lab.py:169-182 | `repeat` then 403: the second request says `push`, and the run signals registered, tone, disconnected, farewell tone |
| Session.UnreachableServerLoops | roberta/lab.py:482-517 | a server that only answers URLErrors: as written the loop keeps going on the ValueError; corrected it stops |
| Session.RunSpecContinues | roberta/lab.py:388 | a run whose first iteration continues is that iteration followed by the run of the rest |
| Session.RunSpecStops | roberta/lab.py:388-523 | a run whose first iteration leaves the loop ends there, with the exit effects after a break |
| Lab.Params.constructor | roberta/lab.py:91-95 | the dictionary holds the given entries |
| Lab.Service.constructor | roberta/lab.py:77-95 | no connector and the given parameters; the log is `disconnected` when the service is put on the bus, then the display is cleared |
| Lab.Service.Connect | roberta/lab.py:117-134 | the old connector loses its service and is stopped, with its registration, stored programs, address and home kept; a fresh running connector is installed; `connected` is signalled; its token is returned |
| Lab.Service.Disconnect | roberta/lab.py:137-146 | the connector is stopped and forgotten, its registration, stored programs, address, home and service kept, and `disconnected` is signalled; without one an AttributeError is raised and nothing is signalled |
| Lab.Connector.constructor | roberta/lab.py:280-294 | the address has its scheme stripped, the parameters are shared with the service, and the state is `Session.Init` |
| Lab.Connector.Poll | roberta/lab.py:389-517 | one iteration updates the flags, the parameters, the stored programs and the service log as `Session.Step` says |
| Lab.Connector.Finish | roberta/lab.py:518-523 | the exit effects go to the service's log when one is attached |
| Lab.Connector.Run | roberta/lab.py:376-523 | `run` from a running connector ends in the state, log, stored programs and end that `Session.RunSpec` gives; a stopped one only says goodbye |
| Lab.Connector.PollLoop | roberta/lab.py:388-517 | the `while self.running` loop, proved against `Session.RunSpec` |
| Ev3.Clamp | roberta/ev3.py:18-19 | `mi` for a value below `mi`, else `ma` for one above `ma`, else the value itself; the result stays in `[mi, ma]` on a proper range |
| Ev3.ClampIsNearest | roberta/ev3.py:18-19 | on a proper range the clamp is `min(max(v, mi), ma)` and the nearest point of the range |
| Ev3.ClampIdempotent | roberta/ev3.py:18-19 | clamping twice is clamping once |
| Ev3.MotorPercent | roberta/ev3.py:327 | every motor percentage is cut to `[-100, 100]`, keeping values inside |
| Ev3.MotorPercentOdd | roberta/ev3.py:403-407 | the clamp commutes with the negation for `backward` |
| Ev3.ResolveKey | roberta/ev3.py:275-280 | `escape` and `back` become `backspace`, other names stay |
| Ev3.IsKeyPressed | roberta/ev3.py:270-281 | definition of `isKeyPressed` over the set of pressed buttons; stated by IsKeyPressedCases and PressedKeyIsAny |
| Ev3.IsKeyPressedCases | roberta/ev3.py:270-281 | `any`/`*` ask for some pressed button; aliases ask for backspace; other keys ask for themselves |
| Ev3.PressedKeyIsAny | roberta/ev3.py:270-281 | a key reported pressed makes `any` report pressed |
| Ev3.ColourName | roberta/ev3.py:556-561 | readings 0..7 name their colour, -8..-1 count from the end, others raise IndexError |
| Ev3.ColourTable | roberta/ev3.py:557 | the eight colour codes one by one, and 8 raises |
| Ev3.MotorTachoMode | roberta/ev3.py:608-618 | `degree`, `rotation`, `distance` select their conversion; every other mode raises ValueError |
| Ev3.AfterWait | roberta/ev3.py:187-193 | definition of `Hal.cmds` after `waitCmd`; stated by RemoveAppended, WaitRestores, InterruptedWaitIsTerminated and Hal.WaitCmd |
| Ev3.RemoveFirst | roberta/ev3.py:193 | `list.remove` takes one copy of the entry out, keeping the other entries |
| Ev3.RemoveAppended | roberta/ev3.py:189-193 | removing the entry just appended gives the list back when no equal entry comes earlier |
| Ev3.WaitRestores | roberta/ev3.py:187-193 | a completed wait leaves `Hal.cmds` with the same entries, and unchanged when the process was not listed |
| Ev3.Running | roberta/ev3.py:172-176 | the processes `resetState` terminates are exactly the non-None entries |
| Ev3.InterruptedWaitIsTerminated | roberta/ev3.py:187-193 | an interrupted wait leaves its process for `resetState` to terminate |
| Ev3.Hal.constructor | roberta/ev3.py:25 | the class-global list starts empty |
| Ev3.Hal.WaitCmd | roberta/ev3.py:187-193 | `waitCmd` appends, polls, and removes when not interrupted; `None` fails after the append |
| Ev3.Hal.ResetState | roberta/ev3.py:167-177 | every non-None entry is terminated in order, and the list is emptied |
| Blockly.IsEven | roberta/BlocklyMethods.py:12-13 | definition of `number % 2 == 0`; stated by EvenOdd |
| Blockly.IsOdd | roberta/BlocklyMethods.py:16-17 | definition of `number % 2 == 1`; stated by EvenOdd |
| Blockly.EvenOdd | roberta/BlocklyMethods.py:12-17 | every integer is exactly one of even and odd; even numbers are twice their floor half; adding one swaps the two |
| Blockly.IsDivisibleBy | roberta/BlocklyMethods.py:40-41 | a zero divisor raises ZeroDivisionError, and only it does |
| Blockly.RemainderOf | roberta/BlocklyMethods.py:44-45 | the remainder has the divisor's sign and completes the floor quotient; a zero divisor raises |
| Blockly.DivisibleIffNoRemainder | roberta/BlocklyMethods.py:40-45 | divisible exactly when the remainder is 0, and then the number is a multiple |
| Blockly.MultipleIsDivisible | roberta/BlocklyMethods.py:40-41 | every multiple of a non-zero divisor is divisible by it |
| Blockly.Clamp | roberta/BlocklyMethods.py:48-49 | lies in `[lo, hi]` on a proper range, never exceeds `hi`, and keeps values inside |
| Blockly.ClampAgreesWithEv3 | roberta/BlocklyMethods.py:48-49 | agrees with ev3.py's clamp exactly on proper ranges or values not below `lo`; on an empty range it gives `hi` |
| Blockly.Word32 | roberta/BlocklyMethods.py:55 | four bytes joined big-endian give a value below 2^32 |
| Blockly.RandInt | roberta/BlocklyMethods.py:53-59 | the result lies between the two bounds, whatever their order |
| Blockly.Ord | roberta/BlocklyMethods.py:55 | `ord` succeeds exactly on a one-character string, giving its code, and raises TypeError otherwise |
| Blockly.RandIntAsWritten | roberta/BlocklyMethods.py:53-55 | definition of `randInt` as written under Python 3, where the first `ord` is evaluated first; stated by RandIntAsWrittenRaises |
| Blockly.RandIntAsWrittenRaises | roberta/BlocklyMethods.py:53-55 | as written, `randInt` raises TypeError for all bounds and bytes, while the draw over `Word32` lies between the bounds |
| Blockly.RandIntSymmetric | roberta/BlocklyMethods.py:56-59 | swapping the bounds gives the same value |
| Blockly.RandIntCovers | roberta/BlocklyMethods.py:56-59 | every value of a range narrower than 2^32 is drawn by some random value |
| Blockly.TextJoin | roberta/BlocklyMethods.py:68-69 | no arguments give `""`; otherwise the join starts with the first argument |
| Blockly.TextJoinAppend | roberta/BlocklyMethods.py:68-69 | joining two argument lists is the concatenation of the two joins |
| Blockly.TextJoinSingle | roberta/BlocklyMethods.py:68-69 | one argument is joined to itself, so with TextJoinAppend the join is the concatenation of all arguments |
| Blockly.TextJoinExamples | roberta/test_BlocklyMethods.py:15-22 | `""`, `"x"` and `"xyz"` as exercised |
| Blockly.CreateListWith | roberta/BlocklyMethods.py:80-81 | `list(args)` is a new list object, shared with nothing before, holding the arguments in order |
| Blockly.CreateListWithItem | roberta/BlocklyMethods.py:84-85 | `[item] * times` has `max(times, 0)` elements, each equal to `item` |
| Blockly.CreateListWithItemAdds | roberta/BlocklyMethods.py:84-85 | repetition counts add up |
| Blockly.CreateListExamples | roberta/test_BlocklyMethods.py:27-31 | `['x', 'x']` as exercised |
| Blockly.FindFirst | roberta/BlocklyMethods.py:94-98 | -1 exactly when the item is absent, otherwise the index of its first occurrence |
| Blockly.FindFirstAfter | roberta/BlocklyMethods.py:94-98 | the item is found right after a prefix that lacks it |
| Blockly.CalculateIndex | roberta/BlocklyMethods.py:160-172 | `FROM_START` gives the index as is, `FROM_END` gives `len - 1 - index` and raises TypeError without an index, `FIRST` gives 0, `LAST` gives `len - 1`, `RANDOM` a position of a non-empty list, an unknown location None |
| Blockly.LocationsAgree | roberta/BlocklyMethods.py:160-170 | `FROM_END k` is `FROM_START len-1-k`, `FIRST` is `FROM_START 0`, `LAST` is `FROM_END 0`, and `RANDOM` lies inside a non-empty list |
| Blockly.SubListInclusive | roberta/BlocklyMethods.py:88-91 | positions from the start or the end give the inclusive slice |
| Blockly.SubListNeedsEnd | roberta/BlocklyMethods.py:90 | a missing end index raises TypeError |
| Blockly.SubListExamples | roberta/test_BlocklyMethods.py:33-47 | `['b','c']` twice, `['a']` and `['d']` from `['a','b','c','d']`, as exercised |
| Blockly.Operate | roberta/BlocklyMethods.py:175-188 | a missing index raises TypeError and one outside the list IndexError, changing nothing; SET replaces and returns the old value; INSERT inserts and returns the element; GET reads; GET_REMOVE deletes and returns the old value; an unknown operation changes nothing and returns the element at the index |
| Blockly.RemoveKeepsTheRest | roberta/BlocklyMethods.py:184-185 | the returned element and the remaining list make up the original multiset |
| Blockly.OperationsUndo | roberta/BlocklyMethods.py:177-185 | GET_REMOVE at the inserted position undoes INSERT; SET back with SET's result undoes SET |
| Blockly.RemoveIsIgnored | roberta/BlocklyMethods.py:182-187 | only REMOVE tells the two readings apart: as written it leaves the list, corrected it is GET_REMOVE |
| Blockly.CorrectedRemoveDeletes | roberta/BlocklyMethods.py:184-185 | corrected, REMOVE deletes the element at the position, returns it, and keeps every other element |
| Blockly.RemoveExample | roberta/BlocklyMethods.py:182-187 | REMOVE at 0 on `[1, 2]` leaves `[1, 2]` as written, and gives `[2]` corrected |
| Blockly.PyList.constructor | roberta/BlocklyMethods.py:175 | the list holds the given items |
| Blockly.PyList.ExecuteOperation | roberta/BlocklyMethods.py:175-188 | the in-place operation leaves the contents and returns what `Operate` gives |
| Blockly.ListsIndex | roberta/BlocklyMethods.py:108-117 | the location's error is raised with the list unchanged; otherwise the operation with the element `'element'` is applied in place |
| Blockly.ListsIndexFirstLast | roberta/BlocklyMethods.py:108-117 | GET at FIRST/LAST reads the ends; SET at FIRST stores the string `'element'` |

## Left out

- Networking, JSON and the server protocol: `urlopen`, request headers and the JSON encoding of `params` are left out. Each try's answer, and each poll's reply or error, is an input. So is the classification of socket exception subclasses, reduced to `UrlCause`.
- `Transport.Request`: the `NoAnswer` outcome is an artefact of the finite answer sequence. With three answers it cannot happen (`RequestBounded`).
- `Session.Step`: a reply that does not parse, or has no `cmd`, is modelled as `OtherFailure`: it is swallowed by the bare `except` and the loop continues.
- Threads and timing:
  - The connector thread, `AbortHandler` and the D-Bus service run concurrently; the model sequences them.
  - `Lab.Connector.Run` models an undisturbed run: `connect`/`disconnect` from another thread during the loop are not interleaved.
  - `time.sleep` calls are left out.
- Process-level actions: `_thread.interrupt_main` plus `os._exit(1)` after a hard abort is the flow `ProcessExit`, and `os.execl` after an update is `Restart`. The update itself (zip download, `rmtree`, extraction) is reduced to success or the error it raises.
- `Session.DownloadStep`:
  - the loop that waits for the keys to be released after a run (lab.py:444-445) is left out, because it only sleeps;
  - `GfxMode`, the tty ioctls and the VT switch are left out;
  - the file write and `os.chmod` in `_store_code` are reduced to the `stored` log of programs;
  - `compile`/`exec` becomes the input `RunOutcome`, and the asynchronous SystemExit via ctypes becomes the soft-abort outcome.
- The parameters `brickname` and `battery` are inputs; `getBatteryVoltage`, `getHwAddr` and `updateConfiguration` read the hardware.
- The D-Bus signal `status` and the Hal calls are entries of the service's `log`.
- Python's `is` on string literals (`location is 'FROM_START'`, `operation is 'SET'`) is modelled as equality, which is what interned literals give.
- `Blockly.RandInt`: takes the 32-bit value as an argument instead of reading `os.urandom`.
  - `Word32` builds that value as the code means it; the `ord` calls as written are the subject of a finding below.
  - For the same reason, the RANDOM location of `Blockly.CalculateIndex` takes the value `val` and does not raise.
- `Blockly.IsEven`, `Blockly.IsOdd`, `Blockly.IsDivisibleBy`, `Blockly.RemainderOf`, `Blockly.Clamp` and `Blockly.RandInt` take integers only. Float arguments are not modelled: in Python `isEven(2.5)` and `isOdd(2.5)` are both False, which the integer model cannot express.
- `Lab.Service.constructor`: putting the object on the system D-Bus is not modelled; only the `disconnected` signal it is followed by is (`onBus`).
- Left out of BlocklyMethods:
  - `isPrime` (written with `xrange` and a float square root);
  - `isWhole`, `isPositive`, `isNegative`, `length`, `isEmpty`;
  - `randDouble` (floating point) and `GOLDEN_RATIO`;
  - the `*OnList` stubs;
  - `findLast`, which returns None even when it finds the item.
- `Blockly.ListsGetSubList` has no contract of its own; its behaviour is stated by SubListInclusive, SubListNeedsEnd and SubListExamples.
- `Ev3.MotorPercent`: models the clamp of the motor commands on integers. The speed scaling and floating-point motion math of ev3.py are left out.
- Only the mode check of `getMotorTachoValue` is modelled; the conversions are left out. That leaves no hardware access in the modelled part of ev3.py.
- `Ev3.Hal.WaitCmd`: `cmd.poll()` becomes a number of polls, and the interruption of the busy wait becomes an index. Process identity is a number.
- `Lab.Service.Connect`: the token comes from the given bytes. The daemon flag and `start()` of the thread are left out.

## Findings

| source | as written | input that shows it | evidently intended | confidence | as-written member | corrected member |
|---|---|---|---|---|---|---|
| roberta/lab.py:369-373 | every URLError rewrites the url to `"http" + url[5:]`, even when it is already http | two URLErrors in a row: the second try's url `http://a/c` becomes `http//a/c`, which urllib rejects with ValueError, and the poll loop's bare `except` keeps looping | fall back to http once, then let the URLError reach the poll loop's error policy | not executed | Transport.SecondUrlErrorBreaksUrl | Transport.SecondUrlErrorRaised |
| roberta/BlocklyMethods.py:182-187 | `elif operation in ['GET', 'GET_REMOVE']` after the `'GET'` branch; `'REMOVE'` (listed at line 113) falls to the unknown-operation branch | `listsIndex([1, 2], 'REMOVE', 'FROM_START', 0)` leaves `[1, 2]` | `'REMOVE'` deletes the element like `'GET_REMOVE'` | not executed | Blockly.RemoveExample | Blockly.CorrectedRemoveDeletes |
| roberta/BlocklyMethods.py:53-55 | `ord(b[0]) << 24 \| ...` on `b = os.urandom(4)`; under Python 3 `b[0]` is an int | any bytes, e.g. `b'\x00\x00\x00\x00'`: `ord(0)` raises TypeError, so `randInt` and the RANDOM list location never return a value | `b[0] << 24 \| b[1] << 16 \| b[2] << 8 \| b[3]` | not executed | Blockly.RandIntAsWrittenRaises | Blockly.RandInt |
