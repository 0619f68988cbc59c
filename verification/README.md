# A verified model of luaposix

luaposix binds the POSIX API to Lua. Most of it wraps single system calls. This project models the
parts that hold real algorithms or state, and proves what they keep over every run.

| file | what it models |
|---|---|
| `Pipelines.dfy` | `popen`, `popen_pipeline` and `pclose`: processes, their descriptor tables, pipes, fork, dup2 and close, with the children scheduled freely |
| `SignalMachine.dfy` | the deferred signal queue as small steps: delivery between any two C statements, governed by the signal mask alone |
| `SignalModule.dfy` | the static variables of the signal module and the C functions on them, with handlers that raise, and what `signal()` returns |
| `LuaStack.dfy` | moving values on the Lua stack by positive and negative index |
| `SignalDrains.dfy` | a drain of the machine, statement by statement, is the drain function of the module |
| `StringBuffer.dfy` | the string buffer of the Lua 5.1 compatibility layer, with wrapping `size_t` |
| `StackLevels.dfy` | the search for the stack depth, and which frames a traceback shows |
| `FieldSearch.dfy` | the search for a function's name in tables that may be cyclic |
| `Registration.dfy` | `luaL_setfuncs` and its relative stack indices |
| `ModeStrings.dfy`, `SymbolicModes.dfy` | printing and parsing permission modes, the symbolic mode scanner, and `umask` |
| `Interpolation.dfy` | the build tool's layered environments, their cache, and substitution to a fixpoint |
| `PollMarshal.dfy` | copying a Lua table of descriptors to `poll()` and its answers back |
| `Timevals.dfy` | `timeradd`, `timersub`, `timercmp` |
| `Options.dfy` | a value that may be missing |

`dafny verify dfyconfig.toml` checks everything.

## Main results

- **Pipelines.** For every task list and every interleaving of the children with the caller,
  `popen_pipeline` produces exactly the descriptor tables it should, each end of each pipe is open in
  exactly one place, and the network computes the composition of the tasks in list order, in both
  modes. The caller gains one descriptor; `pclose` gives the old table back and waits for each child
  once. The wiring of mode 'w' is right whatever the caller has open. That of mode 'r' is right if and
  only if the caller's stdout is open, or its stdin is closed too and there is a single stage; in every
  other case some stage starts without a stdout (`WiredIff`). After any list of later calls
  of popen, closes and exits of children the pipeline still stands (`AlwaysStands`), so that in every later
  state a stage is released, by the end of its input or a broken pipe, exactly when a neighbour is gone,
  where the last stage has as neighbours all who hold a copy of the descriptor that the caller got
  (`ReleasedIff`, `LaterReleasedIff`). Every call of the caller is such a change or a list of them, `pclose`
  and another `popen_pipeline` included. If nothing is forked in between, closing that descriptor releases the
  last stage (`ClosingReleases`). When nobody holds it any more all stages can exit, the last
  forked first, so that the waits of `pclose` end (`StagesMayExit`). But a child that the caller forks
  before it closes that descriptor inherits a copy, and as long as one lives none of the stages is released
  while all live and the pipeline's other side is open (`StuckIff`). So when the first of two pipelines is
  closed before the second, no stage of either is released: the first `pclose` waits for stages that wait
  for the second pipeline, which waits for the caller (`OpenTwoCloseFirst`).
- **Signals.** The machine refines a queue whose arrivals and drains are atomic; atomicity follows from
  the full `sa_mask` and from the mask that `sig_handle` sets. Handlers may raise errors. Nothing is lost
  but what arrives when 25 signals are queued and one signal for every error that escapes from the hook; a
  drain takes the queue last to first; and unless an error has escaped nothing queued is stranded. An error
  escapes exactly when a handler raises a value that cannot be indexed while signals are left
  (`RaisingEscapesIff`), and after that no signal arrives and none is dispatched in any run, until the host
  program sets its mask itself (`DeafStays`). When every first argument of `signal()` is its own key in the
  handler table, the table has, in every reachable state of every run, whatever handlers raise, the function
  last installed for each signal that can arrive or is queued (`TableHasLast`); when handlers return as well,
  that function is what each signal goes to, and none is missed (`CallsLast`). The condition on the argument
  is exact: from any state in which the signal can arrive, it reaches the function just installed if and only
  if the argument is its own key, or the function was in the table before (`ReachesHandlerIff`);
  `signal("15", f)` is missed (`NumericStringMisses`). With handlers that raise errors, the machine's steps
  call, miss and lose in a drain what one recursive function says (`LoopIsDrain`, `HookIsDrain`). A drain,
  after any such run, calls the function last installed for every queued signal if and only if every
  signal finds its own function in what the last error has left on the stack (`DrainFindsIff`,
  `DrainAfterErrorsIff`): unless errors are tables of handlers, if and only if no handler but the last one
  called raises (`DrainCompleteIff`). Whatever is raised, handlers are called for the first signals of a
  drain without gaps, and an error leaves the hook with every signal blocked if and only if the last one
  called raises a value that cannot be indexed, which a number, turned into a string by its message, can,
  with signals left (`DrainEscapesIff`). `ReportsPreviousIff` and `RestoresIff`
  say exactly when `signal()` returns the previous handler, and when passing its result back restores it.
- **Compatibility layer.** Any sequence of additions to a string buffer yields the concatenation of the
  pieces, and wrapping sizes never let an overflow through. The depth search takes at most
  2·⌈log2 d⌉ + 1 probes. The field search finds a name if and only if there is a path of permitted length.
- **Modes.** A symbolic mode is a fixed drop-and-set mask, which does to every bit what the letters say
  (`BitByBit`, `OneBit`); what it assigns to a class is what is printed of it, and the rest is as before
  (`AssignedPrints`); the character scanner inverts every well-written string; parsing inverts printing if
  and only if the set-id bits come with the execute bits (`MunchInvertsPrint`).
- **Interpolation.** The loop on characters ends whenever some pass changes nothing, after the first such
  pass, and for text whose variables can be ranked and in which no substitution makes a reference out of
  pieces that is within one pass more than the height of the text, at the full recursive expansion
  (`InterpolateWith`). A reference becomes the value in the first layer that has the variable, and nothing when
  none has (`RefBecomes`). When nothing fuses, the loop ends if and only if the text does not lead into a circle
  of variables other than those that vanish or keep themselves, which have a value of the form "a reference
  to itself between texts that vanish" (`LoopStopsIff`); and it reaches a text without references if and only
  if it does not lead into a circle at all (`ReachesPlainExactly`). Passes over characters
  read the references and nothing else if and only if no expansion lets its tokens run together
  (`FollowIff`), which for ranked text is a finite test (`FollowsInTime`) and which a test of each place
  in the text and in the values guarantees (`ApartFollows`). Variables that the text does not lead to
  may be anything.

## Where the code differs from its comments or documentation

The model follows the code: `signal()` reports the new function when it replaces a Lua function
(ext/posix/signal.c:238-254); `sig_handler_wrap` closures passed back install SIG_DFL, because the
first upvalue is read (ext/posix/signal.c:219); an error value stays on the stack during a drain
(ext/posix/signal.c:147-148), where its message has turned a number into a string; `checkint` accepts
numeric strings and truncates to an int, but the handler table is written and read under the argument
itself (ext/include/_helpers.c:155-165, ext/posix/signal.c:238-254) and looked up under the int
(ext/posix/signal.c:142-143); an error value that is neither a string nor a number passes a null pointer
to `%s` (ext/posix/signal.c:148); `timeradd` carries only above a million (lib/posix/init.lua:265), so that
its result need not be normal, and `timercmp` then calls it less than the same time written normally; `pclose` returns the
status of the stage forked last, which is the first task in mode 'w' (lib/posix/init.lua:174); an
invalid mode leaves a pipe open (lib/posix/init.lua:190-201); letters in the wrong column of a mode
string are skipped (lib/posix/compat.lua:62-72); a variable named `n` is the number of layers of an
environment, because that is a field of its table (build-aux/luke:597-599). `timeradd` and `timersub`
read both fields under one kind of names, `timercmp` each field for itself.

## Model

| member | source | states |
|---|---|---|
| `Pipelines.LowestFree` | lib/posix/init.lua:190 | pipe() takes the lowest free descriptors: the result is free and everything below it is open |
| `Pipelines.SettleForked` | lib/posix/init.lua:179-208 | the exact table of a popen child once it has moved its pipe end, closed the parent's and run the pipeline closure |
| `Pipelines.SettleKeepsEnds` | lib/posix/init.lua:205-209 | no descriptor call of a child gives it an end that it did not inherit |
| `Pipelines.FirstStage` | lib/posix/init.lua:189-220 | the first stage forked starts with exactly its pipe end besides the caller's descriptors, or without stdout exactly when the wiring fails |
| `Pipelines.NextStage` | lib/posix/init.lua:221-227 | every later stage starts with the previous pipe and its own on stdin and stdout and nothing else new, in both modes |
| `Pipelines.PipeIsWired` | lib/posix/init.lua:215-233 | both ends of each pipe are open in exactly one place over all processes: the two neighbouring stages, or the last stage and the caller |
| `Pipelines.WiredIff` | lib/posix/init.lua:215-233 | all pipes are wired if and only if mode is 'w', or stdout was open in the caller, or stdin was closed and there is one stage |
| `Pipelines.HeldIff` | lib/posix/init.lua:170-231 | in every later state, with stages gone and other children forked: one end of pipe k is open exactly while its stage lives, the other exactly while the next stage lives or, for the last pipe, while anybody outside holds a copy of the caller's descriptor |
| `Pipelines.ReleasedIff` | lib/posix/init.lua:170-231 | in every later state: a stage reaches the end of its input or a broken pipe exactly when a neighbour is gone, on the caller's side everybody who holds a copy, on the other side what the caller had there |
| `Pipelines.StagesMayExit` | lib/posix/init.lua:169-176 | when nobody holds the caller's end any more, every stage is released once those forked after it have exited, so that the waits end |
| `Pipelines.StuckIff` | lib/posix/init.lua:169-176 | while all stages live, and what the caller had on the other side, none is released if and only if somebody still holds the caller's end: before the close, or after it when a child forked in between lives on |
| `Pipelines.InputStaysOpen` | lib/posix/init.lua:170 | in mode 'w' no stage reaches the end of its input as long as all live and somebody holds the caller's end |
| `Pipelines.PopenKeepsAmong` | lib/posix/init.lua:202-210 | every later popen leaves the pipeline as it is, but for one more child that may hold a copy of the caller's end |
| `Pipelines.AlwaysStands` | lib/posix/init.lua:169-233 | any list of later calls of popen, in either mode or an invalid one, closes and exits leaves every stage that lives its two pipes, and to all others at most copies of the caller's end |
| `Pipelines.LaterReleasedIff` | lib/posix/init.lua:169-233 | from the state in which popen_pipeline returns, after any such list: a stage that lives is released exactly when a neighbour is gone |
| `Pipelines.LedToStands` | lib/posix/init.lua:215-233 | a later popen_pipeline is such a list too |
| `Pipelines.OnlyLess` | lib/posix/init.lua:169-176 | any list without popen takes away exactly the descriptors that are closed and the children that exit |
| `Pipelines.ClosingReleases` | lib/posix/init.lua:169-176 | when nothing is forked any more, somebody holds the caller's end exactly as long as the caller has not closed every copy, and then the last stage, if it lives, is released |
| `Pipelines.CloseLeavesHeirs` | lib/posix/init.lua:170 | the close of pclose leaves exactly the children that hold copies |
| `Pipelines.SecondPipeline` | lib/posix/init.lua:207 | which stages of a second pipeline inherit the end of the first: all, unless its descriptor is one that the stage replaces |
| `Pipelines.ReadPipeCarries` | lib/posix/init.lua:215-233 | mode 'r': pipe k carries the composition of the first k + 1 tasks |
| `Pipelines.WritePipeCarries` | lib/posix/init.lua:216-231 | mode 'w', built from the last task backwards: the pipe read by the stage of task m carries the composition of the tasks before it |
| `Pipelines.PipelineComposes` | lib/posix/init.lua:215-233 | what the caller reads in 'r', and what reaches the inherited stdout in 'w', is the composition of the tasks in list order |
| `Pipelines.FlowExists` | lib/posix/init.lua:215-233 | every input has a flow of bytes through the wiring, so the composition theorem is not vacuous |
| `Pipelines.GrownAgain` | lib/posix/init.lua:221-231 | one turn of the loop, from any correct state, gives a correct state with one more stage and one caller descriptor |
| `Pipelines.GrownIsBuilt` | lib/posix/init.lua:215-233 | the end of the loop is a finished pipeline, wired exactly under the stated condition |
| `Pipelines.Kernel.Yield` | lib/posix/init.lua:202-209 | any children advance by any number of calls, and what each ends up with does not depend on it |
| `Pipelines.Kernel.Pipe` | lib/posix/init.lua:190 | two lowest free descriptors become the ends of a new pipe |
| `Pipelines.Kernel.Fork` | lib/posix/init.lua:202 | the child is a copy of the caller with its calls still to make |
| `Pipelines.Kernel.CloseFd` | lib/posix/init.lua:210 | the caller's descriptor is gone and nothing else changes: the change `Closes` |
| `Pipelines.Kernel.Wait` | lib/posix/init.lua:172-174 | a child is reaped once, with its own status, the change `Exits`; a pid that is no child is an error |
| `Pipelines.Kernel.Popen` | lib/posix/init.lua:189-212 | success adds one child and one caller descriptor; an invalid mode leaves both ends of the pipe open; both are the change `Popens` |
| `Pipelines.Kernel.LoopBody` | lib/posix/init.lua:222-230 | the body of the pipeline loop replaces the caller's descriptor by that of the new pipe, and adds one child with its exact settled table |
| `Pipelines.Kernel.AddStage` | lib/posix/init.lua:222-230 | it keeps the invariant of the pipeline under construction |
| `Pipelines.Kernel.AddStages` | lib/posix/init.lua:221-231 | the whole loop, forwards or backwards, forks every remaining task |
| `Pipelines.Kernel.PopenPipeline` | lib/posix/init.lua:215-233 | for every task list and mode: exactly one caller descriptor and one child per task are added, and the wiring is right if and only if the caller's descriptors allow it, and then all stages live and only the caller holds the last end; some list of changes leads there |
| `Pipelines.Kernel.Pclose` | lib/posix/init.lua:169-176 | closes the descriptor and waits for every pid once and in order; the answer is that of the last wait, which fails if that child was waited for before; the changes are one `Closes` and one `Exits` for each pid |
| `Pipelines.Kernel.OpenThenClose` | lib/posix/init.lua:169-233 | opening and closing conserves descriptors and children, and the status is that of the stage forked last |
| `Pipelines.Kernel.OpenTwoCloseFirst` | lib/posix/init.lua:169-233 | with stdin and stdout open: when the first of two pipelines is closed, no stage of either is released, for any tasks and modes, so that the wait ends only when tasks do by themselves |
| `SignalMachine.StepInv` | ext/posix/signal.c:123-266 | every C statement, delivery and outside event, signal() with any argument included, keeps the invariant, and none reads or writes outside the array |
| `SignalMachine.StepRefines` | ext/posix/signal.c:123-176 | every step is nothing, or exactly one whole arrival, drain or escape, of the atomic queue |
| `SignalMachine.RunRefines` | ext/posix/signal.c:123-176 | every run, under every interleaving and with every error, is a run of the atomic queue and never undefined |
| `SignalMachine.Conserved` | ext/posix/signal.c:157-176 | in the atomic queue received is dispatched plus queued plus dropped plus lost at an escape, and at most 25 are queued |
| `SignalMachine.DrainProgress` | ext/posix/signal.c:137-150 | within a drain the dispatched signals are the end of the batch, last first |
| `SignalMachine.Conservation` | ext/posix/signal.c:123-176 | in every reachable state each signal that entered sig_postpone was dispatched, is waiting, was dropped, was lost when an error escaped, or is being stored |
| `SignalMachine.Guarantees` | ext/posix/signal.c:123-266 | in every reachable state: no deferral at entry, no pending signal, no delivery inside sig_postpone or a drain, a hook only when something is queued; and unless an error has escaped, a hook whenever something is queued, and the host program's mask after a drain |
| `SignalMachine.LoopDrains` | ext/posix/signal.c:137-154 | the loop of sig_handle, left to its handlers, ends with an empty queue and the batch dispatched backwards |
| `SignalMachine.HookDrains` | ext/posix/signal.c:123-154 | once the hook fires, the whole queue is dispatched in reverse order of arrival |
| `SignalMachine.RaisingEscapesIff` | ext/posix/signal.c:138-149 | a handler that raises an error with signals left makes the next one lost if and only if the error is a value that cannot be indexed |
| `SignalMachine.EscapeIsDeaf` | ext/posix/signal.c:138-153 | then the signals before it stay queued, the hook is gone and everything is blocked |
| `SignalMachine.DeafStays` | ext/posix/signal.c:123-176 | after that, in every run without a change of mask by the host program, no signal arrives and none is dispatched |
| `SignalMachine.NoneEscapes` | ext/posix/signal.c:138-153 | in every run whose errors can be indexed none escapes and nothing is lost |
| `SignalMachine.TableHasLast` | ext/posix/signal.c:123-266 | in every reachable state of a run whose arguments of signal() are their own keys, whatever errors handlers raise, except between the sigaction and the table write of signal() itself: every signal with our action, and every one that has arrived and is not yet dispatched, has in the table the Lua function last installed for it |
| `SignalMachine.RunUndisturbed` | ext/posix/signal.c:137-150 | when handlers return as well, no drain misses a handler and the handler table stays on top of the stack in all of them |
| `SignalMachine.CallsLast` | ext/posix/signal.c:139-146 | then a signal about to be dispatched is looked up with the Lua function last installed for it, and no signal has ever missed a handler |
| `SignalMachine.HookCalls` | ext/posix/signal.c:123-154 | whatever handlers have raised before: a hook that fires, with handlers that return from then on, dispatches the whole queue and misses no handler |
| `SignalMachine.ReachesHandlerIff` | ext/posix/signal.c:200-243 | from every state in which the signal can arrive: it is looked up with the function just installed in the table if and only if the first argument of signal() is its own key, or that function was registered under the int before |
| `SignalMachine.NumericStringMisses` | ext/include/_helpers.c:155-165 | signal("15", f) is accepted, and the signal finds no handler |
| `SignalModule.NothingAfterError` | ext/posix/signal.c:138-149 | with an error value on the stack that holds no function under the numbers still queued, nothing more is called, and the drain fails exactly when that value cannot be indexed |
| `SignalModule.DrainFindsIff` | ext/posix/signal.c:133-150 | whatever is raised: a drain reaches every handler if and only if every signal finds its own function in what the last error before it, if any, has left on the stack |
| `SignalModule.DrainCompleteIff` | ext/posix/signal.c:133-150 | a drain reaches every handler if and only if none but the last one called raises, whatever is raised, tables without functions under the numbers still queued included |
| `SignalModule.DrainEscapesIff` | ext/posix/signal.c:133-153 | for any table and any errors: handlers are called for the first signals of the drain without gaps; an error leaves the hook, with the next signal lost and the rest still queued, if and only if the last one called raises a value that cannot be indexed with signals left, and otherwise all the others are missed |
| `SignalModule.FirstErrorEscapesIff` | ext/posix/signal.c:138-153 | when all signals have a function and no error has one under their numbers: that is the first handler to raise |
| `SignalDrains.LoopIsDrain` | ext/posix/signal.c:137-154 | from every turn of the loop, for every way in which handlers end: the steps of sig_handle call, miss and lose exactly what the drain function says, and end the same way |
| `SignalDrains.HookIsDrain` | ext/posix/signal.c:123-154 | the same from the hook on, with the whole queue and the handler table as it then is |
| `SignalDrains.DrainAfterErrorsIff` | ext/posix/signal.c:123-266 | after any run with arguments that are their own keys, errors included: a hook that fires calls the function last installed for every queued signal if and only if every signal finds its own function in what the last error before it has left on the stack |
| `SignalModule.ErrorLosesSignal` | ext/posix/signal.c:147-148 | a concrete batch of two that loses a signal, by a message or a number |
| `SignalModule.ReportsPreviousIff` | ext/posix/signal.c:237-264 | for any first argument: the result is the previous handler if and only if that was no Lua function, or the function now registered, or, when none is, what the table holds under the argument |
| `SignalModule.PlainReportsIff` | ext/posix/signal.c:237-264 | for an argument that is its own key: if and only if no Lua function is replaced by another |
| `SignalModule.RestoresIff` | ext/posix/signal.c:207-266 | passing the result back restores the handler if and only if that was not a C function and, if a Lua function, its table entry was not overwritten or the table held something under the argument |
| `SignalModule.Module.SigPostpone` | ext/posix/signal.c:157-176 | while deferred the signal is only pending; otherwise it is appended, unless 25 are queued; and without masking the chain of raises ends with the queue full of copies of the one raised again |
| `SignalModule.Module.SigHandle` | ext/posix/signal.c:123-154 | calls exactly the handlers of the drain function; on escape everything stays blocked and the counter keeps what is left |
| `SignalModule.Module.Signal` | ext/posix/signal.c:200-266 | nothing, "SIG_DFL", "SIG_IGN", a function and a wrapper install what they stand for, with everything blocked and the table written under the argument itself; all other arguments are errors, and what sigaction refuses changes nothing; the reported value |
| `StringBuffer.GrowIsSafe` | ext/include/compat-5.2.c:617-624 | in wrapping arithmetic the buffer grows to hold the true sum or refuses, and it refuses exactly when that sum wraps or doubling wraps below what is in use |
| `StringBuffer.Buffer.PrepBuffSize` | ext/include/compat-5.2.c:617-633 | on success there is room for s more bytes and the contents are kept; there is one slot on top exactly when the storage is boxed |
| `StringBuffer.Buffer.AddSize` | ext/include/compat-5.2.h:124-126 | the length grows by n, without wrapping |
| `StringBuffer.Buffer.AddLString` | ext/include/compat-5.2.c:636-639 | the contents grow by the string, whether or not the storage moves |
| `StringBuffer.Buffer.AddChar` | ext/include/compat-5.2.h:119-122 | the contents grow by the character |
| `StringBuffer.Buffer.AddValue` | ext/include/compat-5.2.c:642-651 | the value on top is consumed from above the buffer's slot, and its text appended |
| `StringBuffer.Buffer.PushResult` | ext/include/compat-5.2.c:654-658 | the slot is replaced by the contents as one string |
| `StringBuffer.Buffer.PushResultSize` | ext/include/compat-5.2.h:132-134 | the same after adding n bytes |
| `StringBuffer.Build` | ext/include/compat-5.2.c:604-658 | any sequence of additions pushes exactly one string, the concatenation, and fails only when a wrap is within reach |
| `StackLevels.CeilLog2Is` | ext/include/compat-5.2.c:159-171 | the bound is the logarithm it is called |
| `StackLevels.CountLevels` | ext/include/compat-5.2.c:159-171 | the result is the highest level, after at most 2·⌈log2 d⌉ + 1 probes |
| `StackLevels.Traceback` | ext/include/compat-5.2.c:231-255 | up to 23 levels, or from level 12 on, every level is shown once and in order; otherwise those up to 10, exactly one ellipsis, and the last eleven |
| `StackLevels.ShownInOrder` | ext/include/compat-5.2.c:239-253 | frames are shown in increasing order, without repeats, and within the stack |
| `StackLevels.ShownExactly` | ext/include/compat-5.2.c:228-244 | a deep traceback leaves out exactly the frames from 11 to d - 12 |
| `FieldSearch.SearchSound` | ext/include/compat-5.2.c:173-194 | what is found is a path of permitted length that leads to the object |
| `FieldSearch.SearchComplete` | ext/include/compat-5.2.c:173-194 | if there is such a path, something is found |
| `FieldSearch.SearchIff` | ext/include/compat-5.2.c:173-194 | the search succeeds if and only if some path of 1 to `level` string keys leads to the object, on any table graph |
| `FieldSearch.LuaState.Next` | ext/include/compat-5.2.c:177 | the key on top is replaced by the next pair, or removed at the end |
| `FieldSearch.LuaState.JoinNames` | ext/include/compat-5.2.c:184-187 | the table between two names goes and the names are joined with a dot |
| `FieldSearch.LuaState.FindField` | ext/include/compat-5.2.c:173-194 | terminates; on success one name is above the table, that of the path found; on failure the stack is as before |
| `FieldSearch.LuaState.PushGlobalFuncName` | ext/include/compat-5.2.c:196-209 | pushes one name exactly when a path of one or two names from the globals leads to the function |
| `Registration.FilledIs` | ext/include/compat-5.2.c:120-131 | every name has the closure of its last function, other keys are unchanged |
| `Registration.LuaState.PushCClosure` | ext/include/compat-5.2.c:127 | the upvalues are popped into the closure in order |
| `Registration.LuaState.SetTable` | ext/include/compat-5.2.c:128 | key and value are popped and stored in the table at the index |
| `Registration.LuaState.SetFuncs` | ext/include/compat-5.2.c:120-131 | the relative indices always find the upvalues and the table; the stack is shorter by exactly nup |
| `ModeStrings.PushMode` | lib/posix/_base.lua:75-99 | the nine letters, with set-id bits over the execute columns |
| `ModeStrings.PrintedLetters` | lib/posix/_base.lua:75-99 | the letters by the numbers of the bits: column k is bit 8 - k, with bits 11 and 10 over columns 2 and 5 |
| `ModeStrings.Rwxrwxrwx` | lib/posix/compat.lua:59-75 | the bits of the columns that fit, or a bad mode for an 's' elsewhere |
| `ModeStrings.ParsedBits` | lib/posix/compat.lua:59-75 | the parsed mode by the numbers of its bits, and a bad mode exactly for an 's' in another column than 2 and 5 |
| `ModeStrings.InColumns` | lib/posix/compat.lua:61-74 | a bit is in the parsed mode exactly when its own column asks for it |
| `ModeStrings.PrintedParses` | lib/posix/compat.lua:59-75 | parsing what was printed gives the rwx and set-id bits back |
| `ModeStrings.ParsedPrints` | lib/posix/_base.lua:75-99 | printing what was parsed gives the string back with misplaced letters as dashes |
| `ModeStrings.OctalMode` | lib/posix/compat.lua:78-84 | the loop computes the value of the digits |
| `ModeStrings.OctalConcat` | lib/posix/compat.lua:78-84 | value(s + t) is value(s)·8^len(t) + value(t) |
| `ModeStrings.DigitBits` | lib/posix/compat.lua:78-84 | each octal digit, from the right, gives its three bits, and there are no others |
| `ModeStrings.OctalPrints` | lib/posix/compat.lua:78-84 | three octal digits print as the letters of their bits |
| `SymbolicModes.ApplyAllIsMask` | lib/posix/compat.lua:95-128 | any list of clauses is one drop mask and one set mask, whatever the mode |
| `SymbolicModes.BitByBit` | lib/posix/compat.lua:95-128 | whether a bit, by its number, is set after any list of clauses, by their letters |
| `SymbolicModes.LastTouchDecides` | lib/posix/compat.lua:118-127 | each bit is decided by the last clause that touches it, or unchanged |
| `SymbolicModes.UnnamedUnchanged` | lib/posix/compat.lua:97-105 | bits of classes that no letter names do not change |
| `SymbolicModes.Idempotent` | lib/posix/compat.lua:95-128 | applying a mode string twice is applying it once |
| `SymbolicModes.DisjointCommute` | lib/posix/compat.lua:95-128 | neighbouring clauses whose letters name different classes can change places |
| `SymbolicModes.MatchWritten` | lib/posix/compat.lua:95 | the clause pattern matches a written clause exactly, with any spaces and commas |
| `SymbolicModes.ScanInvertsText` | lib/posix/compat.lua:95 | scanning the characters of a well-written string gives its clauses |
| `SymbolicModes.CapitalIsBad` | lib/posix/compat.lua:90-94 | a printed 'S' is in none of the three formats |
| `SymbolicModes.FormatsDisjoint` | lib/posix/compat.lua:90-94 | no string has two of the three formats |
| `SymbolicModes.ModeMunch` | lib/posix/compat.lua:87-133 | the three formats, in order, and a bad mode otherwise |
| `SymbolicModes.MunchInvertsPrint` | lib/posix/compat.lua:87-133 | parsing inverts printing if and only if setuid and setgid come with the execute bit; otherwise the string is a bad mode |
| `SymbolicModes.SymbolicIff` | lib/posix/compat.lua:94 | the test for the symbolic format accepts a well-written string exactly by its first clause |
| `SymbolicModes.MunchWritten` | lib/posix/compat.lua:87-133 | a well-written string does to every bit what the letters of its clauses say when its first clause is good, and is otherwise a bad mode unless it has nine letters of the first format |
| `SymbolicModes.OneBit` | lib/posix/compat.lua:94-128 | in numbers: "u+r" to "o+x" set one bit each, "u-r" to "o-x" clear it, "u=r" to "o=x" leave no other of the class, 'a' means all three, and 's' is bit 11 or 10 |
| `SymbolicModes.AssignedPrints` | lib/posix/compat.lua:94-128 | after "u=...", "g=..." or "o=..." on any mode the printed letters of the class are those written, and the other six as before |
| `SymbolicModes.OctalMunched` | lib/posix/compat.lua:92-93 | three octal digits are accepted on any mode and print as the letters of their bits |
| `SymbolicModes.Process.SysUmask` | lib/posix/compat.lua:273-274 | the old mask is returned and the permission bits of the new one are kept |
| `SymbolicModes.Process.Umask` | lib/posix/compat.lua:271-285 | reading restores the mask; setting complements the parsed mode; a bad mode changes nothing |
| `SymbolicModes.Process.SetAndRead` | lib/posix/compat.lua:271-285 | any number of readings repeat the answer of the setting, and passing it back is accepted and gives it again |
| `Interpolation.FirstMatchConcat` | build-aux/luke:255-259 | looking through two lists of layers is looking through one and then the other |
| `Interpolation.NestedLookup` | build-aux/luke:266-269 | lookup in the flattened layers of any arguments of makeenv, nested environments included, is asking the arguments one after the other |
| `Interpolation.Env.Get` | build-aux/luke:255-259 | the cached value, or the first layer's; a coherent cache stays coherent and never changes an answer |
| `Interpolation.MakeEnv` | build-aux/luke:266-269 | nil arguments are left out, environments are flattened, the cache is empty, and the new environment answers as its arguments would, in order |
| `Interpolation.TokensInvertSpelled` | build-aux/luke:259-261 | spelled tokens are read back if and only if every name is a word and neither a name nor a lone dollar sign has a word character behind it |
| `Interpolation.SpelledInvertsTokens` | build-aux/luke:259-261 | reading text as tokens loses nothing |
| `Interpolation.PassIsExpand` | build-aux/luke:261 | one gsub on characters is one expansion of the references |
| `Interpolation.FollowIff` | build-aux/luke:259-263 | after any number of passes the characters read as the expanded tokens if and only if in no expansion tokens run together |
| `Interpolation.FollowsInTime` | build-aux/luke:259-263 | for ranked text that is decided by the expansions up to its height |
| `Interpolation.ApartFollows` | build-aux/luke:259-263 | a test of each place in the text and in the values it leads to is enough: behind a dollar sign or a reference a name stops for good, or the value itself ends in a plain character |
| `Interpolation.RanksIff` | build-aux/luke:259-263 | some number of expansions leaves no reference, or none but to variables of a closed set, if and only if the variables the text leads to can be ranked up to that set |
| `Interpolation.CircleIff` | build-aux/luke:259-263 | no number of expansions does if and only if the text mentions a variable of another set each of which refers into that set |
| `Interpolation.ReachesPlainExactly` | build-aux/luke:259-263 | the same for the passes of the loop over characters, when they follow the tokens |
| `Interpolation.SettledIff` | build-aux/luke:259-263 | expansions stop changing the text if and only if they leave in it only variables that vanish or keep themselves |
| `Interpolation.LoopStopsIff` | build-aux/luke:259-263 | when nothing fuses: the loop ends if and only if the text can be ranked up to such variables, and if and only if it does not lead into a circle of others |
| `Interpolation.ExpandLowers` | build-aux/luke:259-263 | a pass lowers the height of ranked text until no reference is left |
| `Interpolation.FullOfExpand` | build-aux/luke:259-263 | a pass does not change the full expansion |
| `Interpolation.GsubPass` | build-aux/luke:261 | gsub with lookups in the environment, missing variables empty |
| `Interpolation.RefBecomes` | build-aux/luke:255-261 | a reference between any two texts becomes nothing when no layer has the variable, its value in the first layer that has it, and `$n` the number of layers |
| `Interpolation.NoneHasPasses` | build-aux/luke:259-263 | text of which no layer has any variable: the first pass leaves out the references and the second changes nothing |
| `Interpolation.ValueAndNothing` | build-aux/luke:259-261 | for example: a variable with a value and one without |
| `Interpolation.DecimalReads` | build-aux/luke:597-599 | the number of layers, in digits, reads back |
| `Interpolation.InterpolateWith` | build-aux/luke:259-263 | ends whenever some pass changes nothing, after the first such pass; for ranked text in which nothing fuses at the full recursive expansion, within one pass more than its height; for text of which no layer has any variable, at the text without its references, within two passes |
| `Interpolation.SelfStops` | build-aux/luke:259-263 | for example: a variable that is a reference to itself is in a circle, and the loop stops at it |
| `Interpolation.TwoInACircle` | build-aux/luke:259-263 | for example: two variables that refer to each other make every pass change the text |
| `Interpolation.TwoFuse` | build-aux/luke:259-263 | for example: a value that ends in a reference and one that is a word run together into another reference |
| `PollMarshal.DecodeIs` | ext/posix/poll.c:69-83 | the six names get the six bits and no other field changes |
| `PollMarshal.EncodeDecode` | ext/posix/poll.c:48-83 | reading what was written gives the six bits |
| `PollMarshal.DecodeEncode` | ext/posix/poll.c:48-83 | writing what was read leaves every name as true as it was |
| `PollMarshal.EncodeSays` | ext/posix/poll.c:25-67 | the bits read are those of the names IN, PRI, OUT, ERR, HUP and NVAL, in this order from bit 0 |
| `PollMarshal.DecodeSays` | ext/posix/poll.c:25-83 | and so are the names written |
| `PollMarshal.EventTable.ToEvents` | ext/posix/poll.c:48-67 | the bits of the names that are true |
| `PollMarshal.EventTable.FromEvents` | ext/posix/poll.c:69-83 | the six fields are written |
| `PollMarshal.CheckTable` | ext/posix/poll.c:85-127 | accepts exactly the well-formed tables and counts their pairs |
| `PollMarshal.FromTable` | ext/posix/poll.c:129-163 | entry i of the array belongs to pair i; nothing beyond is written |
| `PollMarshal.StoreResult` | ext/posix/poll.c:185-195 | the table of results is kept or created, and gets the bits |
| `PollMarshal.ToTable` | ext/posix/poll.c:165-203 | every descriptor gets its own entry's bits; `events` are unchanged |
| `PollMarshal.PollChecked` | ext/posix/poll.c:227-240 | the array fits, the kernel is asked for every pair in order, and results are stored only when there are some |
| `PollMarshal.Ppoll` | ext/posix/poll.c:219-241 | a malformed table is an argument error; after a positive result each descriptor's six names are exactly the bits reported for it |
| `Timevals.ReadingsAgreeIff` | lib/posix/init.lua:249-300 | the two ways of reading a timeval agree if and only if it does not mix names; new names go before legacy ones, and missing fields are 0 |
| `Timevals.TimerAdd` | lib/posix/init.lua:249-271 | terminates, preserves the total, and carries exactly above a million |
| `Timevals.TimerSub` | lib/posix/init.lua:285-306 | terminates, preserves the total, and borrows exactly below zero |
| `Timevals.AddThenSub` | lib/posix/init.lua:249-306 | on normal values the sum is normal if and only if the microseconds do not add up to a million, and subtraction undoes addition |
| `Timevals.SubThenAdd` | lib/posix/init.lua:249-306 | the difference of normal values is normal; adding back preserves the total, and the value except in one case |
| `Timevals.CmpIsOrder` | lib/posix/init.lua:274-282 | timercmp has the sign of the difference of normal values |
| `Timevals.CompareSum` | lib/posix/init.lua:249-282 | timercmp orders the sum of two normal values rightly against every normal value, except, if and only if the microseconds add up to a million, against the sum written normally |

## Left out

- Pipelines.Kernel.PopenPipeline: pipe, fork and wait are taken to succeed, the read end of a pipe to be the lower descriptor, and a custom `pipe_fn` is not modelled; an empty task list, which makes execx fail in the child, is excluded.
- Pipelines.Kernel.Wait: returns; whether the child it waits for is released at all is `ReleasedIff`, for tasks that end when their input does or their output breaks and not before.
- SignalModule.DrainCompleteIff: an error that is a table with functions under the numbers of signals still queued, which is taken for the handler table; that case is part of `DrainFindsIff`.
- SignalModule.FirstErrorEscapesIff: the same; the general statement is `DrainEscapesIff`.
- SignalModule.DrainFindsIff: a table raised as an error stands for what indexing it gives, when that raises no error of its own.
- SignalModule.Module.SigHandle: handlers do not call signal() during the drain; SignalMachine covers handlers that do.
- SignalModule.Module.SigPostpone: the unmasked chain is that of a handler with an empty mask that does not block itself.
- SignalMachine.RunRefines: a dispatched signal is one that a drain has looked up, and for which it has called what it found, if anything. One Lua state and one thread; other code does not touch the debug hook.
- Interpolation.InterpolateWith: only the `$name` pattern, not `@name@`. Text whose tokens run together on the way is not given a meaning beyond the passes themselves.
- StringBuffer.Build: running out of memory in lua_newuserdata.
- StackLevels.CountLevels: C ints do not overflow.
- Registration.LuaState.SetFuncs: tables have no metamethods, and the stack has room.
- ModeStrings.OctalMode: octal strings beyond the width of a Lua integer do not wrap.
- SymbolicModes.ModeMunch: the call without a mode string, which only returns an error message.
- Modes are sets of bits; the complement of a mode is only used under an intersection.
- The control flow after fork in `execx` and `spawn`, beyond starting a task.
- `euidaccess`, `openpty`, `glob` and the copying of submodules in lib/posix/init.lua.
- Single-call wrappers, constant tables and error message texts.
- The compiler probing, file and process parts of build-aux/luke.
