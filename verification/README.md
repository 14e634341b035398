# Verified models of the exercise programs

The repository is a collection of textbook exercises. This project models the ones that carry
unbounded correctness properties and proves those properties:

- **Four interpreters of one small Scheme.** The direct evaluator (`Interp`), the evaluator that
  analyses before it executes (`Analyzer`), the backtracking `amb` evaluator (`Amb`) and the evaluator
  with strict, lazy and lazy-memo parameters (`LazyInterp`). They share values, primitives and
  environments over a store of frames (`Scheme`), whose meaning to a program is stated by laws
  (`SchemeLaws`, `EnvironmentLaws`, `EvaluationLaws`). Analysed code is proved to do what direct
  evaluation does. The `amb` evaluator, written with success and failure continuations over one
  mutated store, is proved to deliver the list of successes of a semantics without continuations
  (`AmbReference`), definitions included where nothing mentions the name (`AmbDefine`), and the direct
  evaluator's one answer when there is no `amb` (`AmbFree`); the order in which answers come is stated
  by their positions (`AmbOrder`). What strict, lazy and lazy-memo parameters do to the evaluation of
  an operand is proved for every run, assignments included (`LazyMemo`, `LazyReach`, `LazyCalls`,
  `LazyCounting`). Call by need over overwritten thunks is proved equal to call by name without a
  store (`ByName`, `LazyCorrect`, `LazyPrograms`); making strict parameters lazy is proved to lose no
  answer (`Laziness`), and a program all of whose parameters are strict to be evaluated directly
  (`StrictPrograms`). `LazyMachine` and `LazyDriver` run the same evaluator in place: frames and
  thunks are objects that environments, procedures and thunks share and that `set!`, `define` and
  forcing overwrite. Promises and stream tails of the analysing evaluator are proved to remember the
  value of their expression (`Promises`, `PromiseRuns`, `PromiseValue`), and how often they run it,
  and which value stays, is characterised (`PromiseAnswers`, `SelfForcing`).
- **A counting semaphore made of two mutexes, and a one-slot blocking queue made of two
  semaphores** (`Semaphore`, `SemaphoreRuns`, `BlockingQueue`, `QueueCalls`), as state machines with
  one program counter per thread, for any number of threads and every interleaving (`Interleaving`).
- **A best-fit heap allocator over `sbrk`**: on values (`HeapModel`, `HeapRuns`), and in place over
  headers, links, the list head and the program break (`Allocator`).
- **Infinite pair streams**: ordered by weight and compared with themselves (`PairStreams`,
  `CompareStreams`, `CubeSums`), and interleaved (`InterleavedPairs`).
- **Fermat primality tests** (`NumberTheory`, `Fermat`, `Korselt`).
- **`tail` by reading backwards in blocks** (`Tail`) and **a sparse copy** (`SparseCopy`), over
  files of bytes (`Files`).

Every lemma is marked `{:induction false}`, so its body is its whole proof.

## How the models read the source

- Syntax is well-formed: bodies are not empty, an `else` clause is the last one, a one-armed `if`
  has the variable `false` as its alternative, and `(define (f p) b)` is `(define f (lambda (p) b))`.
- The name list and the value list of a frame are kept as one list of bindings; a frame is named
  by its position in a store. Operators and operands are evaluated left to right. Numbers are exact.
- `fuel` bounds the nesting of calls (and of forced thunks). A run that exceeds it ends in
  `Timeout` or `OutOfFuel`, which no statement takes for an answer; with more fuel an answer never
  changes (`Interp.MoreFuel`, `ByName.MoreFuel`, `AmbFuel.DriverCut`).
- The closures that `analyze` returns are constructors of a datatype of code. The continuations of
  the `amb` evaluator are functions, as in the source.
- `set-variable-value!` at line 184 of the merged evaluator uses `val` without taking it; the model
  follows the version at `SICP/chapter3/evaluator.scm:255`. `lookup-variable` at line 450 of the
  `amb` evaluator is not defined; the model reads `lookup-variable-value` (line 260).
- A mutex is a token that any thread may release; a dequeue answers the shared `x` after it has
  signalled.
- The allocator's links are modelled as the code leaves them: `c_free` gives the old head no back link.
  Sums and differences of `size_t` values wrap modulo 2^64; a difference is stored in an `int` in two's
  complement, as is the size of a released chunk, and `sbrk` takes its argument as signed.
- A stream is the promise it is built from; forcing it is `Car` and `Cdr`.

## Where the source does less than one might expect

- `let*` keeps only the first expression of its body (`AmbDesugar.LetStarDropsRestOfBody`).
- A `define` is not undone by backtracking (`AmbCorrect.DefineLeaks`, `AmbDefine.DefinitionSeen`);
  everything else is.
- A promise whose expression forces the promise itself is settled more than once, and the outer
  value stays (`SelfForcing.SelfForcingReplacesValue`), where section 4.2.5 of R5RS keeps the inner
  one. `PromiseAnswers.FirstValueKeptIff` says exactly when the value first delivered is the one kept,
  and `PromiseAnswers.DelayedRunsOnce` and `PromiseAnswers.CallFreeRunsOnce` which expressions cannot
  do otherwise.
- A lazy-memo operand that, through an assignment, comes to force its own parameter is evaluated inside
  its own evaluation, and the outer value replaces the inner one. So "evaluated once" means that all
  evaluations lie inside one (`LazyCalls.MemoParameter`, `LazyMemo.EvalEvaluates`); forced before
  anything is assigned, an operand is evaluated exactly once.
- Two signals before a woken thread has moved unlock an unlocked mutex
  (`SemaphoreRuns.SignalCrashesIff`); that takes three threads
  (`SemaphoreRuns.CrashesIffThreeThreads`). It cannot happen inside the blocking queue.
- Any two consumers can be given the same element, and values are returned in order if and only if
  there is one consumer (`BlockingQueue.ReturnsInOrderIffOneConsumer`).
- Chunks ahead of the one taken from the free list are lost for good (`HeapRuns.MallocLoses`,
  `HeapRuns.LostForever`, `HeapRuns.LosingRun`).
- A request of 4 GiB can be given a chunk of 40 bytes (`HeapRuns.HugeRequestGetsSmallChunk`), and
  freeing a chunk of 2 GiB can raise the break (`HeapRuns.HugeFreeRaisesBreak`);
  `HeapModel.FitTestRightIff`, `HeapModel.MallocSizedIff` and `HeapModel.ReleaseLeavesNoGapIff` say
  exactly when. A request whose size with the header is no signed long gets a chunk that is too
  small, lowers the break, or takes the failure of `sbrk` for an address
  (`HeapRuns.WrappedRequestOverlaps`, `HeapRuns.WrappedRequestLowersBreak`,
  `HeapRuns.FirstRequestFaultsIff`; `HeapModel.GrownInv` says exactly when the heap stays in order).
- `tail` prints one line more than it is asked for if the last line has no newline
  (`Tail.LastLinesIff`).
- A weight that does not decrease along the diagonal is not enough for the pair stream to contain
  every pair; an unbounded diagonal is what it takes (`PairStreams.CompleteIffDiagonalUnbounded`).
- The exhaustive Fermat test accepts exactly the numbers of Korselt's criterion, 1105 among them.
- With a buffer of one byte `tail` prints nothing; with a negative count it looks at one block.
- The sparse copy does not truncate its destination and drops NUL bytes at the end of the source.

## Model

| member | source | states |
|---|---|---|
| Analyzer.ExecAgrees | SICP/chapter3/evaluator.scm:281-388 | for every expression, environment and store, executing the analysed expression gives the value or error of direct evaluation and the same store, procedures related by analysing their bodies |
| Analyzer.LoopRunsInOrder | SICP/chapter3/evaluator.scm:334-344 | the left-nested chain that analysis builds from a sequence runs its elements one after the other and stops at the first error |
| Analyzer.SequenceAgrees | SICP/chapter3/evaluator.scm:334-344 | an analysed sequence does what `eval-sequence` does with the sequence |
| Analyzer.ArgumentsAgree | SICP/chapter3/evaluator.scm:346-352 | executing the analysed operands gives the analysed operand values, or the same error, and the same store |
| Analyzer.ApplyAgrees | SICP/chapter3/evaluator.scm:354-360 | applying an analysed procedure to analysed arguments agrees with applying the procedure |
| Scheme.MapSetVariable | SICP/chapter3/evaluator.scm:255-268 | assignment commutes with every renaming of the procedures and thunks of a store |
| Scheme.MapDefineVariable | SICP/chapter3/evaluator.scm:270-279 | so does definition |
| Interp.CondTakesFirstTrue | SICP/chapter4/merged-sytanctic-analysis-and-execution-evaluator.scm:116-128 | `cond` rewritten to `if` and `begin` means: the first clause whose test is true, else the value of `false` |
| Interp.MoreFuel | SICP/chapter4/merged-sytanctic-analysis-and-execution-evaluator.scm:210-250 | an answer of the direct evaluator, its store included, does not depend on the fuel that sufficed for it |
| Scheme.MapPrimitive | SICP/chapter3/evaluator.scm:403-433 | no primitive procedure looks inside a procedure or a thunk among its arguments: what it answers, and whether it reports an error, does not depend on them (what each one answers is said by `SchemeLaws`) |
| SchemeLaws.ConsLaws | SICP/chapter3/evaluator.scm:403-433 | `car` and `cdr` of what `cons` makes of a and d are a and d, and `null?` of it is #f |
| SchemeLaws.ListLaw | SICP/chapter4/partially-lazy-evaluator.scm:318-331 | the car of the k-th cdr of what `list` answers is its k-th argument, and the cdr after the last is the one for which `null?` is true |
| SchemeLaws.NullLaw | SICP/chapter3/evaluator.scm:403-433 | `null?` is true exactly of what `list` answers without arguments |
| SchemeLaws.AddLaws | SICP/chapter3/evaluator.scm:403-433 | `+` of nothing is 0, of one number that number, and of two argument lists one after the other the sum of the two sums |
| SchemeLaws.MulUnits | SICP/chapter3/evaluator.scm:403-433 | `*` of nothing is 1, and of one number that number |
| SchemeLaws.MulLaws | SICP/chapter3/evaluator.scm:403-433 | `*` of two argument lists one after the other is the product of the two products |
| SchemeLaws.SubLaw | SICP/chapter3/evaluator.scm:403-433 | the difference added up with the subtrahends is the first argument; of one argument it is the negation |
| SchemeLaws.DivLaw | SICP/chapter3/evaluator.scm:403-433 | the quotient times the divisors is the first argument, if no divisor is zero; the quotient of one argument times that argument is 1 |
| SchemeLaws.EqualLaw | SICP/chapter4/partially-lazy-evaluator.scm:318-331 | `=` answers #t exactly if any two of its arguments are the same number |
| SchemeLaws.AnswersIff | SICP/chapter4/partially-lazy-evaluator.scm:340-342 | which arguments each primitive procedure accepts, if and only if: their number, pairs for `car` and `cdr`, numbers for the arithmetic, no zero among the divisors; everything else is an error |
| SchemeLaws.GlobalNames | SICP/chapter4/partially-lazy-evaluator.scm:305-338 | in the global environment each of the ten names stands for its primitive procedure, `true` and `false` for #t and #f, and every other name is unbound |
| SchemeLaws.QuotedIsWritten | SICP/chapter4/merged-sytanctic-analysis-and-execution-evaluator.scm:217 | the value of a quotation is written as the quoted text, and it is the only value that is |
| EnvironmentLaws.LookupMeaning | SICP/chapter3/evaluator.scm:239-253 | a name stands for the value of its first binding in the innermost frame that binds it, unless that is the mark of an unassigned one |
| EnvironmentLaws.UnboundIff | SICP/chapter3/evaluator.scm:239-268 | a reference and an assignment report an unbound name if and only if no frame of the environment binds it |
| EnvironmentLaws.SetMeaning | SICP/chapter3/evaluator.scm:255-268 | an assignment gives that first binding the value, and changes no other binding and no other frame |
| EnvironmentLaws.DefineMeaning | SICP/chapter3/evaluator.scm:270-279 | a definition overwrites the first binding in the innermost frame, or puts a new one in front if that frame has none; nothing else changes |
| EnvironmentLaws.ExtendMeaning | SICP/chapter3/evaluator.scm:232-237 | a call adds one frame that binds each parameter to the argument in its place; there are too many or too few arguments exactly if the lengths say so |
| EnvironmentLaws.ExtendBinds | SICP/chapter3/evaluator.scm:232-253 | in the environment of a body the first parameter of each name stands for its argument, and every name that is no parameter for what it stands for outside |
| EvaluationLaws.IfMeaning | SICP/chapter4/merged-sytanctic-analysis-and-execution-evaluator.scm:210-250 | a conditional takes the alternative exactly when the test is #f, and the consequent when it is any other value |
| EvaluationLaws.QuotedParts | SICP/chapter4/merged-sytanctic-analysis-and-execution-evaluator.scm:210-250 | `(car '(a . d))` is `'a` and `(cdr '(a . d))` is `'d` |
| EvaluationLaws.AssignThenRead | SICP/chapter4/merged-sytanctic-analysis-and-execution-evaluator.scm:210-250 | after an assignment has answered, the variable evaluates to what its right-hand side evaluated to |
| EvaluationLaws.DefineThenRead | SICP/chapter4/merged-sytanctic-analysis-and-execution-evaluator.scm:210-250 | so it does after a definition |
| EvaluationLaws.CallMeaning | SICP/chapter4/merged-sytanctic-analysis-and-execution-evaluator.scm:210-250 | a call of a lambda expression runs its body where the parameters stand for the values of the operands and every other name for what it stands for where the lambda expression is |
| Promises.DelayMakesPromise | SICP/chapter3/evaluator.scm:186-207 | `delay` evaluates nothing and answers a procedure over a new frame in which `already-run?` and `result` are false |
| Promises.StreamTailIsPromise | SICP/chapter3/evaluator.scm:175-184 | `cons-stream` answers a pair of the head's value and such a promise for the tail |
| Promises.ForceSteps | SICP/chapter3/evaluator.scm:209-213 | forcing reads the stored value of a settled promise; otherwise it runs the expression, stores the value, then the mark |
| FrameNames.ExecNames | SICP/chapter3/evaluator.scm:270-279 | no run takes a name away from a frame, and only the innermost frame and frames made during the run get new names |
| PromiseRuns.ExecKept | SICP/chapter3/evaluator.scm:191-207 | any run of any code that cannot assign the two names of a promise's frame leaves a settled promise's frame as it is, calls of the promise included |
| PromiseRuns.FirstForce | SICP/chapter3/evaluator.scm:191-213 | a force of an unsettled promise that answers leaves in the frame the value that its own run of the expression ended with, and marks the promise with the value of `true` |
| PromiseValue.PromiseHoldsTheValue | SICP/chapter3/evaluator.scm:191-213 | that value is the one the expression has in the environment of the `delay`, outside the frame of the promise, if the expression does not mention `result` or `already-run?`: the same data, or procedures that differ in seeing that frame |
| PromiseValue.ExecAlike | SICP/chapter3/evaluator.scm:281-388 | code that does not mention the names of some hidden frames runs alike with and without these frames in its environment |
| PromiseAnswers.ExecTracks | SICP/chapter3/evaluator.scm:191-213 | in any permitted run, the frame of a promise holds what the last completed run of its expression left in it, or what it held before; a settled promise completes no further run |
| PromiseAnswers.FirstValueKeptIff | SICP/chapter3/evaluator.scm:191-213 | for every expression, store and unsettled promise: the value kept is the last one delivered, and it is the first one delivered if and only if no force nested in the run of the expression answered, or the first that did delivered the same value |
| PromiseAnswers.UnreachedRunsOnce | SICP/chapter3/evaluator.scm:191-213 | a promise held under one name that neither its expression nor any procedure mentions runs its expression exactly once |
| PromiseAnswers.DelayedRunsOnce | SICP/chapter3/evaluator.scm:178-213 | the same right after `(define x (delay e))`, where neither e nor any procedure mentions x |
| PromiseAnswers.CallFreeRunsOnce | SICP/chapter3/evaluator.scm:191-213 | a force of a promise whose expression makes no call, such as the name of the stream itself, runs it exactly once and keeps the value it delivers |
| PromiseAnswers.CallFreeRunsAtMostOnce | SICP/chapter3/evaluator.scm:178-213 | after `(define x (delay e))` and in any run of any code, an expression that makes no call is run at most once, unless its first run left the promise unsettled because `true` was #f |
| SelfForcing.SelfForcingReplacesValue | SICP/chapter3/evaluator.scm:191-213 | a program whose expression forces its own promise: the inner force delivers 2 and settles the promise, and from the end of the outer force on it answers 1 |
| PromiseRuns.LaterForce | SICP/chapter3/evaluator.scm:191-213 | forcing a settled promise answers the stored value and changes nothing but for the empty frame of the call |
| PromiseRuns.ForcedOnce | SICP/chapter3/evaluator.scm:191-213 | after a force that answered, and any further run that cannot assign the two names, a force answers the same value without running the expression |
| PromiseRuns.SettledUnlessTrueIsFalse | SICP/chapter3/evaluator.scm:191-197 | a force settles the promise if and only if the variable `true` is not #f; otherwise the next force runs the expression again |
| PromiseRuns.PromiseRunsOnce | SICP/chapter3/evaluator.scm:178-213 | whole runs: `(define x (delay e))`, any code, a force that answers, any code: from the end of that force on the promise answers its value and runs nothing |
| AmbCorrect.ExecDelivers | SICP/chapter4/amb-evaluator.scm:304-456 | with good continuations, executing any plain expression delivers the continuation's answers for each success of the reference semantics in turn, then those of failing; stores are related by a renaming of frames |
| AmbCorrect.AnyDelivers | SICP/chapter4/amb-evaluator.scm:374-392 | an amb delivers the successes of its choices left to right, each started from the store the amb was entered with |
| AmbCorrect.AssignDelivers | SICP/chapter4/amb-evaluator.scm:444-456 | an assignment continues in the assigned store and fails into the store before it |
| AmbCorrect.UndoGood | SICP/chapter4/amb-evaluator.scm:452-455 | undoing an assignment brings back a store in which the outer failure continuation behaves as promised |
| AmbCorrect.SetBack | SICP/chapter4/amb-evaluator.scm:450-454 | writing back the value read before an assignment restores the whole store |
| AmbCorrect.IfDelivers | SICP/chapter4/amb-evaluator.scm:341-350 | a conditional delivers, for each success of its test, the successes of the chosen branch |
| AmbCorrect.AppDelivers | SICP/chapter4/amb-evaluator.scm:394-408 | an application delivers the successes over all choices of operator and operands, left to right |
| AmbCorrect.ArgsDeliver | SICP/chapter4/amb-evaluator.scm:410-420 | `get-args` delivers every list of operand values, in depth-first order |
| AmbCorrect.ApplyDelivers | SICP/chapter4/amb-evaluator.scm:423-430 | applying a procedure delivers the successes of its body in a new frame at the end of both stores |
| AmbCorrect.SequenceDelivers | SICP/chapter4/amb-evaluator.scm:358-372 | a sequence delivers, for each success of its first expression, those of the rest |
| AmbCorrect.DriverPrintsSuccesses | SICP/chapter4/amb-evaluator.scm:520-544 | for an expression without `define`, under repeated try-again the driver prints exactly the successes of the reference semantics, in order, then that there are no more; or stops at the same error |
| AmbOrder.ChoicesInOrder | SICP/chapter4/amb-evaluator.scm:374-392 | the k-th answer of the j-th choice of an amb stands at place k behind all answers of the choices to its left |
| AmbOrder.FollowsInOrder | SICP/chapter4/amb-evaluator.scm:341-420 | what follows from the j-th answer of a part, be it a test, an operator, an operand or an expression of a sequence, stands behind all that follows from the answers before it |
| AmbOrder.DriverPrintsChoices | SICP/chapter4/amb-evaluator.scm:520-544 | for `(amb 'd1 ... 'dn)` the driver prints d1 to dn in this order, and then that there are no more |
| AmbOrder.DriverPrintsRows | SICP/chapter4/amb-evaluator.scm:394-420 | for `(cons (amb 'a1 ... 'am) (amb 'b1 ... 'bn))` it prints the m * n pairs row by row: the right choice moves first |
| AmbCorrect.DefinePrintsFirst | SICP/chapter4/amb-evaluator.scm:458-469 | a definition of the value of any such expression agrees as far as its first answer |
| AmbCorrect.DefineUndoneIff | SICP/chapter4/amb-evaluator.scm:458-469 | failing after a definition finds the store from before it if and only if the innermost frame bound the name to the value already |
| AmbDefine.DriverPrintsDefinitions | SICP/chapter4/amb-evaluator.scm:458-469 | under repeated try-again the driver prints exactly the successes of a definition, if neither its expression nor any procedure in the store mentions the name |
| AmbDefine.DefinitionSeen | SICP/chapter4/amb-evaluator.scm:458-469 | for `(define x (amb 1 x))` it does not: the second choice reads the x that the first one defined |
| AmbDefine.ExecAlike | SICP/chapter4/amb-evaluator.scm:302-469 | code that does not mention a name runs alike, backtracking included, in stores that differ in that name only |
| AmbFree.SolveAgrees | SICP/chapter4/amb-evaluator.scm:302-469 | an expression without `amb` has one success, with the value and the store of the direct evaluator, or its error; only an assignment that stops because it first reads its variable is told apart |
| AmbFree.DriverPrintsTheAnswer | SICP/chapter4/amb-evaluator.scm:520-544 | for an expression without `amb` and `define` the driver prints the direct evaluator's answer, then that there are no more; or its error |
| AmbCorrect.FailureFindsEntryStore | SICP/chapter4/amb-evaluator.scm:374-456 | whenever an expression fails, through any nesting of set!, amb and calls, every frame that existed on entry holds its entry value |
| AmbCorrect.DefineLeaks | SICP/chapter4/amb-evaluator.scm:458-469 | a program in which a later branch sees a definition made by a branch that failed |
| AmbDesugar.LetMeaning | SICP/chapter4/amb-evaluator.scm:55-59 | `let` rewritten to a combination binds all names at once, to values computed outside |
| AmbDesugar.LetStarMeaning | SICP/chapter4/amb-evaluator.scm:64-74 | `let*` rewritten to nested lets binds left to right, each init seeing the bindings before it, and runs the first expression of the body |
| AmbDesugar.LetStarDropsRestOfBody | SICP/chapter4/amb-evaluator.scm:66-68 | a `let*` with two body expressions is answered with the first one's value |
| AmbDesugar.CondMeaning | SICP/chapter4/amb-evaluator.scm:322 | `cond` rewritten to `if` takes the first clause whose test is true, for every success of the tests |
| AmbFuel.SolveCut | SICP/chapter4/amb-evaluator.scm:302-325 | with less fuel the list of successes is the same list or a beginning of it |
| AmbFuel.DriverCut | SICP/chapter4/amb-evaluator.scm:520-544 | what the driver prints before the fuel runs out is what it prints first with more |
| LazyPrograms.LazyMemoUnobservable | SICP/chapter4/partially-lazy-evaluator.scm:4-25 | two programs that differ in which lazy parameters are memoised: if one ends so does the other, with the same error, equal data, or procedures equal up to these marks |
| LazyPrograms.RunIsByName | SICP/chapter4/partially-lazy-evaluator.scm:346-352 | a run that ends answers what call by name answers |
| LazyPrograms.ByNameEndsRun | SICP/chapter4/partially-lazy-evaluator.scm:346-352 | a program that ends by name ends in the evaluator, with the same fuel |
| LazyCorrect.EvalByName | SICP/chapter4/partially-lazy-evaluator.scm:255-277 | every run of `eval` over the store answers what call by name answers, and keeps the store standing for the same environments |
| LazyCorrect.ForceByName | SICP/chapter4/partially-lazy-evaluator.scm:6-16 | forcing, memoised or not, answers what evaluating the thunk's expression by name answers, and overwriting the cell keeps the relation |
| LazyCorrect.ArgsByName | SICP/chapter4/partially-lazy-evaluator.scm:244-251 | operands become values or thunks by the mode of their parameter; running out of parameters is an error in both |
| LazyCorrect.ApplyByName | SICP/chapter4/partially-lazy-evaluator.scm:285-303 | application of primitive and compound procedures agrees with call by name |
| LazyCorrect.EvalEnds | SICP/chapter4/partially-lazy-evaluator.scm:255-277 | an expression that ends by name ends in the evaluator |
| LazyCorrect.ForceEnds | SICP/chapter4/partially-lazy-evaluator.scm:6-16 | so does forcing: an evaluated thunk costs nothing, the others no more than by name |
| LazyInterp.EvalKeeps | SICP/chapter4/partially-lazy-evaluator.scm:255-303 | no run, assignments and definitions included, changes an evaluated thunk or removes a thunk |
| LazyInterp.ForcedOnce | SICP/chapter4/partially-lazy-evaluator.scm:9-15 | a memoised thunk that was forced answers the same value after any further run, and evaluates nothing |
| LazyMemo.EvalEvaluates | SICP/chapter4/partially-lazy-evaluator.scm:6-16 | in any run, assignments and definitions included, all evaluations of the expression of a memoised thunk lie inside one, whose value is the one the thunk keeps; a thunk that is not memoised keeps its expression, and an evaluated one is not evaluated again |
| LazyReach.EvalStays | SICP/chapter4/partially-lazy-evaluator.scm:255-303 | a thunk that nothing in reach of a run refers to is not evaluated by it, and what it answers does not refer to that thunk either |
| LazyCalls.MemoParameter | SICP/chapter4/partially-lazy-evaluator.scm:244-251 | a call whose i-th parameter is lazy-memo: in the body the name of that parameter is bound to a thunk of the i-th operand and its environment, not yet evaluated; all evaluations of the operand in the whole run of the body, assignments and definitions included, lie inside one, and the thunk ends up with the value of that one; forced first thing in the body, the operand is evaluated exactly once |
| LazyCalls.MemoKept | SICP/chapter4/partially-lazy-evaluator.scm:9-15 | from then on, after any run, every force answers that value, and neither the run nor the force evaluates the operand |
| LazyCalls.LazyParameter | SICP/chapter4/partially-lazy-evaluator.scm:244-251 | a call whose i-th parameter is lazy: the name of that parameter is bound to a thunk of the operand, which is the same unevaluated thunk when the run of the body has ended |
| LazyCalls.LazyForcesAgain | SICP/chapter4/partially-lazy-evaluator.scm:7-8 | after any run such a thunk, forced, evaluates the operand again, in the store of that moment, and answers what it then answers |
| LazyCalls.StrictParameter | SICP/chapter4/partially-lazy-evaluator.scm:244-251 | a call whose i-th parameter is strict: in the body its name is bound to the forced value of the operand |
| LazyCalls.StripNth | SICP/chapter4/partially-lazy-evaluator.scm:279-283 | the i-th name bound by a call is the name of the i-th parameter |
| LazyCalls.RunStaysAway | SICP/chapter4/partially-lazy-evaluator.scm:255-303 | what the statements about calls ask of the store and the environment, that they refer to nothing that does not exist, holds when a program starts (`LazyCalls.StartAway`) and is kept by every run |
| LazyCounting.CountingTellsModes | SICP/chapter4/partially-lazy-evaluator.scm:9-15 | `((lambda (count) ((lambda ((x mode)) (+ x x)) (begin (set! count (+ count 1)) count))) 0)` answers 3 if the mode is lazy and 2 if it is lazy-memo or strict |
| LazySyntax.EraseStrip | SICP/chapter4/partially-lazy-evaluator.scm:279-283 | the names of parameters do not depend on their modes |
| ByName.MoreFuel | SICP/chapter4/partially-lazy-evaluator.scm:255-277 | an answer of call by name does not depend on the fuel that sufficed for it |
| ByName.CondMeaning | SICP/chapter4/partially-lazy-evaluator.scm:138-150 | `cond` rewritten to `if` takes the first clause whose test, forced, is true |
| Laziness.LazierKeepsAnswers | SICP/chapter4/partially-lazy-evaluator.scm:238-251 | in programs without `set!` and `define` inside procedures: whatever a program answers it still answers when any of its strict parameters are made lazy or lazy-memo: the same data, or a procedure where there was one |
| Laziness.LazierAnswersMore | SICP/chapter4/partially-lazy-evaluator.scm:238-251 | a program that ends in an error with a strict parameter and answers 1 with a lazy one |
| Laziness.EvalLazier | SICP/chapter4/partially-lazy-evaluator.scm:255-277 | evaluation by name with fewer strict parameters answers a value, or a thunk whose forcing ends in one, that stands for the value with more |
| Laziness.ArgLazier | SICP/chapter4/partially-lazy-evaluator.scm:244-251 | a thunk made where an operand was evaluated before can be forced, and gives what stands for its value |
| StrictPrograms.StrictIsDirect | SICP/chapter4/partially-lazy-evaluator.scm:255-303 | with strict parameters only, the evaluator gives the value, error and store of the direct evaluator, unless it stops at a call that cannot be made, and then that one does not answer either |
| StrictPrograms.ArgsAgree | SICP/chapter4/partially-lazy-evaluator.scm:244-251 | the operands are evaluated as `list-of-values` does; with too many of them the call is given up at the first without a parameter |
| LazyMachine.ScanBindings | SICP/chapter4/partially-lazy-evaluator.scm:206-216 | the index at which the two lists of a frame are scanned is where the frame, read as bindings, binds the name |
| LazyMachine.WriteBindings | SICP/chapter4/partially-lazy-evaluator.scm:206-213 | writing the value list at that index overwrites the first binding of the name |
| LazyMachine.FrameCell.Scan | SICP/chapter4/partially-lazy-evaluator.scm:206-216 | walking along the names finds the first that is x, or the end |
| LazyMachine.Machine.LookupVariableValue | SICP/chapter4/partially-lazy-evaluator.scm:184-204 | walking the frames outwards answers what the store answers for the environment of their addresses |
| LazyMachine.Machine.SetVariableValue | SICP/chapter4/partially-lazy-evaluator.scm:206-219 | exactly the frame cell that the name is found in is written, at that place; every other cell, and every environment, is as it was; an unbound name is reported and nothing changes |
| LazyMachine.Machine.DefineVariableValue | SICP/chapter4/partially-lazy-evaluator.scm:221-230 | exactly the innermost frame cell changes: the value at the first place of the name is overwritten, or name and value are put in front of the two lists |
| LazyMachine.Machine.ExtendEnvironment | SICP/chapter4/partially-lazy-evaluator.scm:176-182 | a call gets a frame cell that is not any earlier one, or an arity error and no cell |
| LazyMachine.Machine.SetupEnvironment | SICP/chapter4/partially-lazy-evaluator.scm:305-312 | the global environment is the primitive procedures with `true` and `false` defined on top |
| LazyMachine.Machine.Eval | SICP/chapter4/partially-lazy-evaluator.scm:255-277 | evaluation over shared cells, each overwritten in place, answers what the store-passing `Eval` answers and leaves cells that stand for the store it computes; no cell is removed, and no evaluated thunk changes |
| LazyMachine.Machine.ActualValue | SICP/chapter4/partially-lazy-evaluator.scm:4 | the same for evaluating and forcing |
| LazyMachine.Machine.EvaluateThunk | SICP/chapter4/partially-lazy-evaluator.scm:9-15 | the cell of a memoised thunk, wherever it is shared, holds the value when its evaluation answers, and is as the evaluation left it when not |
| LazyMachine.Machine.ForceIt | SICP/chapter4/partially-lazy-evaluator.scm:6-16 | a value is itself, an evaluated thunk gives its value and evaluates nothing, the others are evaluated |
| LazyMachine.Machine.Apply | SICP/chapter4/partially-lazy-evaluator.scm:285-303 | application over cells agrees with application over the store |
| LazyMachine.Machine.ProcedureArg | SICP/chapter4/partially-lazy-evaluator.scm:244-251 | a lazy operand becomes a reference to a thunk cell that is not any earlier one and holds the operand with its environment, memoised exactly if the mode is lazy-memo (what that does is said by `LazyCalls`); a strict one its forced value |
| LazyMachine.Machine.ListOfProcedureArgs | SICP/chapter4/partially-lazy-evaluator.scm:244-251 | the operands of a compound procedure, left to right, by the modes of its parameters |
| LazyDriver.Run | SICP/chapter4/partially-lazy-evaluator.scm:346-352 | a program without `set!` and `define` inside procedures, run in place, ends when it ends by name, and when it ends answers what it answers by name, where nothing is shared or overwritten |
| SemaphoreRuns.WaitsNeverExceedSignals | SICP/testing.scm:31-82 | for every initial count, number of threads and interleaving, the waits that returned are at most the initial count and the signals |
| SemaphoreRuns.NoPermitIsLost | SICP/testing.scm:31-82 | a run without a crash that has come to rest with a wait blocked has let as many waits return as there were permits and signals |
| SemaphoreRuns.CallsBegun | SICP/testing.scm:31-82 | in every run each wait that was begun has returned or is still at work, and each signal that was begun has raised the counter or is about to |
| SemaphoreRuns.AllReturned | SICP/testing.scm:31-82 | when every call of a run has returned, the semaphore is as newly made with the initial count plus the signals less the waits, and that is not negative |
| SemaphoreRuns.StepInv | SICP/testing.scm:35-65 | every step keeps: the deficit of the counter is the waits that went negative, less the wake-ups owed, issued and failed; the counter balances waits and signals; the operation mutex has one holder |
| SemaphoreRuns.SignalCrashesIff | SICP/testing.scm:50-65 | in every reachable state a signal unlocks an unlocked queue mutex if and only if an earlier wake-up has not been taken |
| SemaphoreRuns.CrashesIffThreeThreads | SICP/testing.scm:31-82 | for every initial count, some run unlocks an unlocked queue mutex if and only if there are three threads or more |
| Semaphore.StaysFresh | SICP/testing.scm:38-62 | no step changes the counter between another thread's update and its test |
| BlockingQueue.StepInv | SICP/testing.scm:102-124 | every step of every thread keeps exactly one permit across both semaphores and all threads, on the pulling side exactly when the list holds an element |
| BlockingQueue.PushBalance | SICP/testing.scm:108-122 | a step of a thread inside the pushing semaphore neither makes nor loses a permit, and never unlocks an unlocked mutex while it holds the only one |
| BlockingQueue.PullBalance | SICP/testing.scm:108-122 | the same for the pulling semaphore |
| BlockingQueue.QueueIsSafe | SICP/testing.scm:102-124 | in every run: the bodies of enqueue and dequeue exclude each other, the list has at most one element, no car of an empty list, no unlock of an unlocked mutex, and the values taken are the values appended, in order, all but at most the last (`QueueCalls.EnqueuesAddTheirOwn` says which values those are) |
| QueueCalls.EnqueuesAddTheirOwn | SICP/testing.scm:108-113 | read off the actions of any run: each thread puts into the list exactly the elements its enqueues were given, in that order, all but at most the one still on its way |
| QueueCalls.ReturnedWasGiven | SICP/testing.scm:115-124 | whatever a dequeue returns, in any run, was given to some enqueue |
| QueueCalls.DequeuesTakeOneEach | SICP/testing.scm:115-124 | each dequeue of a thread takes one element and answers once, all but at most the one still at work |
| BlockingQueue.QueueNeverDeadlocks | SICP/testing.scm:102-124 | in every run, with an enqueue and a dequeue both pending, some thread can take a step |
| BlockingQueue.SingleConsumerReturnsInOrder | SICP/testing.scm:115-124 | with one consumer and any number of producers the values returned are a prefix of the values appended |
| BlockingQueue.ReturnsInOrderIffOneConsumer | SICP/testing.scm:115-124 | for any number of threads and any set of consumers: in every run the values returned are a prefix of the values appended if and only if there is at most one consumer |
| BlockingQueue.TwoConsumersOvertake | SICP/testing.scm:115-124 | for any two consumers, a run in which the second element is returned first |
| BlockingQueue.TwoConsumersReturnTheSame | SICP/testing.scm:115-124 | for any two threads and any two elements, a run in which both return the second element and nobody the first |
| HeapModel.FirstLeastMeaning | tlpi/c7/7.2.c:56-65 | the search keeps the first of the least gaps that are not negative, and none exactly if all are |
| HeapModel.BestFit | tlpi/c7/7.2.c:56-65 | for sizes that are ints it finds the first of the smallest chunks that are big enough, and none exactly if none is |
| HeapModel.HoleSizeExact | tlpi/c7/7.2.c:60 | the int that the difference of sizes is stored in holds the true difference if and only if that is an int |
| HeapModel.FitTestRightIff | tlpi/c7/7.2.c:60 | for all sizes, the test of a chunk is right if and only if the difference of sizes modulo 2^32 falls into the half of the int range that has its sign |
| HeapModel.SizesWrap | tlpi/c7/7.2.c:30-122 | the increment of the break and the size of a new chunk are size + 24 and size + 16 modulo 2^64, the former as a signed long; the gap compared in the search and the distance the break is lowered are the differences and sums of sizes modulo 2^32, as ints |
| HeapModel.MallocPlaces | tlpi/c7/7.2.c:30-87 | an int-sized request gets the first of the smallest listed chunks that hold it, which leaves the list together with all ahead of it; if none does, a chunk of size + 16 at the break, which rises by size + 24; nothing else changes |
| HeapModel.GrownInv | tlpi/c7/7.2.c:40-80 | a new chunk keeps the heap in order if and only if `size + 24` is a signed long; otherwise `blob_size` wraps or is a negative increment, and the chunk has no room for its links or ends beyond the break |
| HeapModel.MallocInv | tlpi/c7/7.2.c:30-87 | a request of any `size_t` keeps the chunks apart and inside the heap, with room for their links, and the list free of chunks in use, if and only if it does not come to such a new chunk |
| HeapModel.MallocGrants | tlpi/c7/7.2.c:30-87 | a request of any `size_t` that is answered gets a chunk that was not in use, and moves no other; one that is not answered does not fit a signed long with its header |
| HeapModel.MallocSizedIff | tlpi/c7/7.2.c:30-87 | in a regular heap, a request of any `size_t` is answered with a chunk as large as the request, in a heap still in order, if and only if `size + 24` is a signed long and no listed chunk that is too small passes the int test |
| HeapModel.FreeInv | tlpi/c7/7.2.c:89-122 | freeing keeps the invariants, takes exactly the freed chunk out of use, and never releases a chunk in use |
| HeapModel.FreeLists | tlpi/c7/7.2.c:89-122 | after a free the list is an end part of the freed chunk and the list before; none of it ends at the break; it is all of them, with the heap otherwise as it was, if and only if none of them ended at the break |
| HeapModel.TrimInv | tlpi/c7/7.2.c:105-122 | trimming releases listed chunks only, keeps every other chunk, and stops when no listed chunk ends at the break |
| HeapModel.TrimRegular | tlpi/c7/7.2.c:105-122 | with int sizes it releases exactly the chunks above the new break, which is not above the old one |
| HeapModel.ReleaseLeavesNoGapIff | tlpi/c7/7.2.c:113-119 | releasing the top chunk leaves no byte outside the chunks if and only if its size with the length field is at most 2^31 |
| HeapModel.EveryByteInOneChunk | tlpi/c7/7.2.c:40-53 | in a heap without gaps every byte between its start and the break lies in exactly one chunk |
| HeapModel.ChunksDisjoint | tlpi/c7/7.2.c:40-53 | chunks do not overlap |
| HeapRuns.EveryRunIsSafe | tlpi/c7/7.2.c:30-122 | in every run of frees and of requests that with their header are a signed long: the chunks in use lie inside the heap and do not overlap, the free list repeats nothing and lists no chunk in use, and freeing writes only inside the freed chunk; any other run keeps the heap in order if and only if no request wraps into a new chunk |
| HeapRuns.SmallRunsAreExact | tlpi/c7/7.2.c:30-122 | in every run of requests that fit an int with their header: each chunk in use is as large as its request, and every byte of the heap lies in exactly one chunk |
| HeapRuns.NextRequestSizedIff | tlpi/c7/7.2.c:30-87 | after any such run, the next request, of any `size_t`, is answered with a chunk that is large enough, in a heap still in order, if and only if `size + 24` is a signed long and no listed chunk is a misfit for it |
| HeapRuns.WrappedRequestOverlaps | tlpi/c7/7.2.c:40-53 | a request of 2^64 - 16 bytes, then one of 8: the two links that freeing the first writes are the length field and the first payload word of the second, which is in use |
| HeapRuns.WrappedRequestLowersBreak | tlpi/c7/7.2.c:40-80 | a run in which a request of 2^64 - 32 bytes lowers the break into a chunk in use |
| HeapRuns.FirstRequestFaultsIff | tlpi/c7/7.2.c:46-50 | a first request gets (void*)-1 from `sbrk`, which the test for NULL lets through, if and only if its size with the header, without wrapping, is a negative long |
| HeapRuns.HugeRequestGetsSmallChunk | tlpi/c7/7.2.c:56-76 | a run in which a request of 2^32 bytes is given a chunk of 40 |
| HeapRuns.HugeFreeRaisesBreak | tlpi/c7/7.2.c:113-119 | a run in which freeing a chunk of 2^31 bytes raises the break |
| HeapRuns.MallocLoses | tlpi/c7/7.2.c:18-28 | the chunks a request loses are exactly the listed ones ahead of the one it gets |
| HeapRuns.LostForever | tlpi/c7/7.2.c:99-101 | a lost chunk stays lost in every run |
| HeapRuns.LosingRun | tlpi/c7/7.2.c:18-28 | a run from an empty heap that loses a chunk |
| Allocator.Allocator.constructor | tlpi/c7/7.2.c:13 | the allocator starts with an empty list and nothing allocated |
| Allocator.Allocator.PopFromFreeList | tlpi/c7/7.2.c:18-28 | exactly the links of the neighbours, or the head, are redirected past the entry |
| Allocator.Allocator.Unlink | tlpi/c7/7.2.c:18-28 | on a list without back links, popping an entry leaves what follows it |
| Allocator.Allocator.FindBest | tlpi/c7/7.2.c:57-65 | the loop over the links, with its int and long gaps, finds the best fit of the list as the ints see it, for every size |
| Allocator.Allocator.NewChunk | tlpi/c7/7.2.c:40-53 | the break moves by `blob_size` taken as signed, and the header of the new chunk is written at the old break with `blob_size - 8`, both as they wrap; or `sbrk` refuses and nothing changes |
| Allocator.Allocator.CMalloc | tlpi/c7/7.2.c:30-87 | a request of any `size_t` answers what the model of `c_malloc` answers and leaves its heap, which is in order if and only if the request does not wrap into a new chunk |
| Allocator.Allocator.Push | tlpi/c7/7.2.c:95-101 | the chunk becomes the head of the list and the old head gets no back link |
| Allocator.Allocator.FindTop | tlpi/c7/7.2.c:108-112 | the loop finds the first listed chunk that ends at the break |
| Allocator.Allocator.ReleaseTop | tlpi/c7/7.2.c:113-119 | it is taken off the list and the break moves by the int that its size is stored in |
| Allocator.Allocator.TrimTop | tlpi/c7/7.2.c:105-122 | the do-while loop trims until no listed chunk ends at the break |
| Allocator.Allocator.CFree | tlpi/c7/7.2.c:89-122 | freeing leaves the heap that the model of `c_free` gives; NULL changes nothing |
| Allocator.Allocator.WritePayload | tlpi/c7/7.2.c:7-11 | a caller that overwrites its payload, links included, disturbs nothing |
| PairStreams.StreamIsSorted | SICP/chapter3/3.72.scm:27-48 | the pair stream is sorted by weight |
| PairStreams.TiesByFirst | SICP/chapter3/3.72.scm:27-34 | of two pairs of equal weight the one with the smaller first component comes first, so the order of the stream is that of weight and first component |
| PairStreams.NoPairTwice | SICP/chapter3/3.72.scm:27-48 | it contains pairs (i, j) with i at most j only, and none twice |
| PairStreams.CompleteIffDiagonalUnbounded | SICP/chapter3/3.72.scm:27-48 | it contains every such pair if and only if the weights of (k, k) are unbounded |
| PairStreams.DifferenceIsIncomplete | SICP/chapter3/3.72.scm:27-48 | for the weight j - i, ordered but bounded on the diagonal, it does not |
| PairStreams.CdrRemoves | SICP/chapter3/3.72.scm:27-42 | each step takes exactly the first pair away from what is still to come |
| CompareStreams.OneAhead | SICP/chapter3/3.72.scm:58-69 | the second stream is level with the first or exactly one ahead, and after any number of rounds exactly the weights equal to their successor have been emitted, in order |
| CompareStreams.RepeatsCount | SICP/chapter3/3.72.scm:58-69 | among the first m + 1 pairs a weight seen r times has been emitted r - 1 times |
| CompareStreams.EmittedOncePerExtraPair | SICP/chapter3/3.72.scm:58-69 | from some round on a weight of r pairs has been emitted exactly r - 1 times |
| CompareStreams.RepeatsSorted | SICP/chapter3/3.72.scm:58-69 | what is emitted is sorted |
| CubeSums.CubeStream | SICP/chapter3/3.72.scm:50-54 | every pair 1 <= i <= j has one place in the stream, and of the pairs before it each has a smaller sum of cubes than i^3 + j^3, or the same and a smaller first component |
| CubeSums.RamanujanNumbers | SICP/chapter3/3.72.scm:76-77 | from some round on each number v has been emitted once less than there are pairs 1 <= i <= j with i^3 + j^3 = v, and not at all if there are none |
| CubeSums.Emits1729 | SICP/chapter3/3.72.scm:76-77 | 1729 is emitted, exactly once, and of its two pairs (1, 12) comes before (9, 10) |
| InterleavedPairs.InterleaveNth | SICP/chapter3/3.67.scm:21-25 | interleaving takes from its two streams in turn |
| InterleavedPairs.PairsNth | SICP/chapter3/3.67.scm:27-38 | from k on: behind (k, k) every second place holds the pairs from k + 1 on, and the places between hold the row (k, k + 1), (k, k + 2), ... and the column (k + 1, k), (k + 2, k), ... in turn |
| InterleavedPairs.FirstTen | SICP/chapter3/3.67.scm:34-40 | the ten pairs that the source prints: (1, 1), (1, 2), (2, 2), (2, 1), (2, 3), (1, 3), (3, 3), (3, 1), (3, 2), (1, 4) |
| InterleavedPairs.PairAtPosition | SICP/chapter3/3.67.scm:27-38 | every pair from k on is at its computed position |
| InterleavedPairs.PositionOfNth | SICP/chapter3/3.67.scm:27-38 | every place holds the pair whose position it is |
| InterleavedPairs.EveryPairExactlyOnce | SICP/chapter3/3.67.scm:34-38 | the stream is a bijection between places and ordered pairs of positive integers |
| Fermat.ExpoIsPower | SICP/chapter1/1.24.scm:5-8 | repeated squaring computes the power's remainder |
| Fermat.FastExpoIsPower | SICP/chapter1/1.27.scm:2-9 | so does the form of 1.27, exactly except for the zeroth power modulo 1 |
| Fermat.FermatTestMeaning | SICP/chapter1/1.24.scm:10-11 | the test of a base decides whether it is congruent to its n-th power |
| Fermat.IterateMeaning | SICP/chapter1/1.24.scm:13-18 | the answer is yes if and only if every base drawn passes |
| Fermat.FastPrimeMeaning | SICP/chapter1/1.24.scm:2-18 | `fast-prime?` answers yes if and only if each of its ten bases a = 1 + random(n - 1) is congruent to a^n modulo n |
| Fermat.PrimesPass | SICP/chapter1/1.24.scm:2-18 | for every prime, whatever the ten draws are, `fast-prime?` answers yes |
| Fermat.IterMeaning | SICP/chapter1/1.27.scm:11-16 | the exhaustive answer is yes if and only if every smaller base is congruent to its n-th power |
| Fermat.PrimesPassExhaustively | SICP/chapter1/1.27.scm:1-16 | primes pass the exhaustive test |
| NumberTheory.FermatLittle | SICP/chapter1/1.24.scm:10-11 | for a prime p every a is congruent to its p-th power |
| Korselt.ExhaustiveTestIsKorselt | SICP/chapter1/1.27.scm:1-16 | the exhaustive test accepts n if and only if n is square-free and p - 1 divides n - 1 for each of its prime divisors p |
| Korselt.Carmichael1105 | SICP/chapter1/1.27.scm:18 | 1105 is not prime, and the test accepts it |
| Files.Source.Read | tlpi/c13/13.5.c:60 | a read delivers the bytes asked for, or what is left, and moves the offset |
| Files.Source.ReadSome | tlpi/c4/cp.c:35 | a read that may stop early, at least one byte on |
| Tail.Tail | tlpi/c13/13.5.c:19-120 | the program prints `Printed`: everything from the start it computes, for every count, buffer size and content |
| Tail.ScanBack | tlpi/c13/13.5.c:50-102 | the scan ends and leaves the file at that start |
| Tail.ScanBlock | tlpi/c13/13.5.c:62-70 | the inner loop stops at the newline to cut at, or counts the newlines of the block |
| Tail.PrintRest | tlpi/c13/13.5.c:115-120 | the loop copies the file from its offset to the end |
| Tail.CutAppend | tlpi/c13/13.5.c:62-96 | where a file is cut follows from the newlines of its last block and from the part before it |
| Tail.CutPointMeaning | tlpi/c13/13.5.c:62-81 | the cut follows a newline and leaves exactly n newlines, or nothing is cut and there are at most n |
| Tail.PrintedIsTail | tlpi/c13/13.5.c:50-120 | what is printed is what follows the (n+1)-th newline from the end if and only if the buffer holds two bytes or the file is empty |
| Tail.PrintsNothing | tlpi/c13/13.5.c:50-120 | a count of 0, and a buffer of one byte with any count from 0 on, print nothing |
| Tail.NegativeCount | tlpi/c13/13.5.c:50-120 | for a negative count what is printed stands behind the last newline of the last bufSize - 1 bytes, or is all of these if there is none among them |
| Tail.LastLines | tlpi/c13/13.5.c:50-120 | of a file of complete lines the last n are printed, or all |
| Tail.LinesOfFile | tlpi/c13/13.5.c:62-70 | every file is complete lines and a rest without a newline, which is empty exactly if the file is empty or ends in a newline |
| Tail.LastLinesIff | tlpi/c13/13.5.c:50-120 | the last n complete lines and the rest are printed; counting the rest as a line, that is the last n lines if and only if the file ends in a newline, or is empty, or has fewer than n newlines |
| SparseCopy.Copy | tlpi/c4/cp.c:33-55 | for any batch size and split of the reads the destination holds the source laid over what it held |
| SparseCopy.CopyBatch | tlpi/c4/cp.c:36-54 | one batch of runs and holes does the same for the bytes read |
| SparseCopy.SkipRun | tlpi/c4/cp.c:41-51 | the inner loops stop at the end of a run |
| SparseCopy.OverlayRun | tlpi/c4/cp.c:40-46 | a run of bytes that are not NUL is written over the destination at its place in the source |
| SparseCopy.OverlayHole | tlpi/c4/cp.c:48-56 | a run of NUL bytes leaves the destination as it is, and does not make it longer |
| SparseCopy.CopyIntoEmpty | tlpi/c4/cp.c:33-58 | into an empty destination the copy is the source without the NUL bytes at its end |
| SparseCopy.CopyIsExact | tlpi/c4/cp.c:33-58 | the copy equals the source if and only if the destination was not longer, covers the NUL bytes at the end, and is NUL where the source is |

## Left out

- Allocator.Allocator.CMalloc: `sbrk` is assumed to be used by nobody else, to refuse exactly what would move the break below the start of the heap, and to succeed otherwise; what the code does after it took a refusal for an address, or in a heap out of order, is not modelled.
- Scheme.MapPrimitive: covers the ten primitives that the evaluators share in the model; the source's table also has comparisons, `remainder`, `not` and procedures that print or read the clock.
- AmbCorrect.DriverPrintsSuccesses: does not cover `define`, which backtracking does not undo (`AmbDefine.DriverPrintsDefinitions`, `AmbCorrect.DefinePrintsFirst` and `AmbCorrect.DefineUndoneIff` say how far it agrees), nor `let*` with several body expressions, of which only the first is run.
- AmbFree.SolveAgrees: leaves open what the direct evaluator does after an assignment to a variable that holds the mark of an unassigned one, at which the other evaluator stops.
- StrictPrograms.StrictIsDirect: where a call has too many operands or an operator that is no procedure, the two evaluators report different errors, and the direct one evaluates the operands first; there it says only that neither answers.
- Laziness.LazierKeepsAnswers: says nothing of programs that end in an error, which laziness can avoid (`Laziness.LazierAnswersMore`) or reach by another way.
- LazyPrograms.LazyMemoUnobservable: does not cover `set!` and `define` inside procedures, with which the moment of evaluation can be seen.
- PromiseRuns.PromiseRunsOnce: asks that the delayed expression does not assign `result` or `already-run?`, which it would see as variables of the promise; forces nested in the first one are the subject of `PromiseAnswers`.
- PromiseValue.PromiseHoldsTheValue: compares with a run in the store of the force, the empty frame of its call included, so that new frames have the same addresses.
- BlockingQueue.SingleConsumerReturnsInOrder: speaks of one consumer, because several share `x` (`BlockingQueue.ReturnsInOrderIffOneConsumer`); the order of the values taken is proved for any number of them.
- Evaluators other than `LazyMachine` pass their store from step to step instead of updating it; sharing of mutable pairs made by `cons` does not arise, as the language has no `set-car!`.
- The lists of names and values of a frame cell are sequences in its fields, not chains of pairs.
- Quoted lists that look like the evaluators' own tagged procedures and thunks.
- The primitives `eq?`, `>`, `<`, `<=`, `>=`, `remainder`, `not`, `display`, `load`, `trace` and `real-time-clock`; the reader, the printer and the prompts.
- `delay`, `force` and streams in the `amb` evaluator, where they are not in continuation style; `stream-car` and `stream-cdr` of the analysing evaluator, which are `car` and a force of `cdr`.
- Malformed syntax: empty bodies, an `else` clause that is not last, wrong numbers of parts of a special form.
- Fairness and scheduling of threads, and the rest of `SICP/testing.scm`.
- Streams of other kinds than integers paired in 3.72 and 3.67; other weights are covered by weighting positions.
- Errors and short writes of the system calls, command-line parsing, and reads of `tail` that return less than is left.
- Composite numbers in the randomised test: only the exhaustive test is characterised for them.
- The other exercises, interpreters superseded by the four above, and the remaining system-programming examples.
