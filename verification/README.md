# Verified models of the runtime's Node-compatibility cores

workerd ships a JavaScript layer that makes Node's modules available, and samples that show
Durable Objects at work. This project models the algorithmic cores of that layer and of one
sample in Dafny, and proves what they are for:

- **Differences** (`EditScript`, `DiffFrontier`, `DiffSearch`, `Diff`). `diff` is the O(NP)
  algorithm of Wu, Manber, Myers and Miller. For all inputs the result turns the first
  sequence into the second, costs exactly |A| + |B| - 2·LCS(A, B), and is no dearer than any
  other edit script; of these it is one that keeps the common ends and never puts an addition
  directly before a removal (or, if `expected` is longer, a removal before an addition); every write stays inside the preallocated buffer, the phase loop stops,
  and the walk back ends at id 0.
- **Strict deep equality** (`Pairing`, `DeepValue`, `DeepKeys`, `Comparisons`). On acyclic
  values the comparison decides a reference relation that is reflexive, symmetric and
  transitive; because it is, the greedy delete-on-match loops find a bijection of equal
  members (or entries) exactly when there is one. The memo of the cycle check is never hit.
- **The `map` operator of streams** (`MapOperator`). A two-process protocol with hand-made
  wake-ups: in every interleaving, results come out in call order with `kEmpty` dropped, at
  most `concurrency` results are queued, and pump and consumer never wait for each other.
- **Readable streams** (`StreamLog`, `HighWaterMark`, `Readable`). Over every run of pushes, reads and
  scheduled callbacks the stream behaves like an ideal pipe: nothing is lost, doubled or
  reordered, 'end' comes once and last, `_read` is never called again before it is answered,
  the prefetch loop terminates, and the source is idle below the high-water mark only where a
  prefetch was answered with nothing but empty chunks.
- **POSIX paths** (`PathSpec`, `PathRelative`, `Path`). The character-level state machine of
  `normalizeString` computes split, fold and join; `normalize` is idempotent and a congruence
  for joining; `resolve(from, relative(from, to))` is `resolve(to)` for all strings.
- **The chat sample** (`RateLimiting`, `Broadcast`). With k clients, every stretch of time T
  of every run lets at most T/5 + 4 + k messages through; the re-entrant `broadcast` ends
  whatever sockets fail, announces each dead session once, and treats all survivors alike.

- **Events** (`Emitter`, `EventIterator`). The absent/single/array form of the listener table
  stands for a map from types to listener sequences under every series of calls; types do not
  interfere, and removals undo additions. In every run of the iterator that `on()` makes, the
  actions alone determine every answer: the i-th call of next() is answered with the i-th event,
  an error is seen at most once, by the call it is for, and by none under an exact condition; and
  calls and events never both wait.
- **Printing and numbers** (`Escape`, `Bits`, `Codec`, `RandomInt`). `strEscape` prints a literal whose
  value is the string, by all its paths and with all its quotes. Fixed-width integers are read
  back as they were written, under JavaScript's 32-bit operators. `randomInt` is unbiased.

Classes stand for the code that updates state in place; each of their methods is tied to a
function or a predicate about which the laws are proved. `dafny verify dfyconfig.toml` checks
the whole project.

## Findings

- `keyCheck` is not symmetric for objects with non-enumerable symbol properties. It counts the
  enumerable symbols of the second object only if the two objects have different numbers of own
  symbols (internal_comparisons.ts:307-311), so a hidden symbol of the first can stand for an
  enumerable one of the second. `DeepKeys.KeyTestExact` says exactly when the test is right, and
  `Comparisons.OrderMatters` is a pair that is deep-equal in one order only. Deep equality is
  proved on all pairs of values in which no two objects mislead the test.
- A prefetch that `_read` answers with nothing but empty chunks leaves the source idle below the
  high-water mark until the next read or push: `maybeReadMore_` still holds `readingMore` when
  `push` asks for another round (streams_readable.js:551-594). `Readable.EmptyAnswerStalls` is
  such a stream, and `Readable.Stream.MaybeReadMore_` says that it happens exactly then.
- The iterator of `on()` loses an error that is falsy (an 'error' event with `undefined`, say)
  unless a call waits for it: `EventIterator.FalsyThenDone`, and `EventIterator.SeenExactly` for
  the exact condition.
- The iterator's return() does not take its listener off the abort signal: what it takes off is
  not the function that was put on (events.ts:797-799, 854-861). An abort after return() is
  therefore still handled, and the next call is rejected although the iterator was done:
  `EventIterator.AbortAfterReturn`. Promises that return() has settled stay in
  `unconsumedPromises`, and if there is one the abort is lost on it: `EventIterator.AbortLost`.
  A later call sees the abort if and only if that queue is empty: `EventIterator.LateAbort`.
- After the iterator's throw(), a call that comes behind the error waits instead of being done,
  because throw() stops listening without finishing: `EventIterator.ThrowThenWaiting`. After an
  error event it is done: `EventIterator.ErrorThenDone`. `EventIterator.Expected` is the exact
  answer of every call: one that gets neither an event nor an error is done if and only if the
  iterator is finished.
- The 64-bit integer readers reduce the offset modulo 2^32 before they check it
  (internal_buffer.ts:1038), so an offset far behind the end, or before the start, can be
  accepted: `Codec.ReadsBeyondTheEnd`, and `Codec.WrappedOffset` for the exact condition. The
  writers check the offset as it is.
- `randomInt` with min equal to max draws for ever: `RandomInt.Sampler.GetRandomInt`.

## Model

| member | source | states |
|---|---|---|
| `Diff.Diff` | src/node/internal/internal_diffs.ts:50-245 | for all inputs: the result's removed and common entries are `actual`, its added and common ones `expected`; its cost is \|A\| + \|B\| - 2·LCS; no script that does the same is cheaper; the longest common prefix, and the longest common suffix of the rest, stay common; no addition is directly followed by a removal, or, if `expected` is longer, no removal by an addition |
| `Diff.CreateCommon` | src/node/internal/internal_diffs.ts:28-43 | what it returns is the longest run that both sequences start with, read from the start or from the end |
| `Diff.LongestEnds` | src/node/internal/internal_diffs.ts:28-43 | that run is the longest common prefix, or, reversed, the longest common suffix |
| `Diff.Trim` | src/node/internal/internal_diffs.ts:51-62 | prefix, middle and suffix put together are the two inputs; the prefix is the longest common one, and the suffix the longest that what is left has in common |
| `Diff.Middle` | src/node/internal/internal_diffs.ts:63-83 | the trimmed middles, swapped or not, get a cheapest script in the right direction, with no step down directly before a slide |
| `Diff.FramedCheapest` | src/node/internal/internal_diffs.ts:235-244 | putting the common ends back keeps a script cheapest |
| `Diff.FramedOrder` | src/node/internal/internal_diffs.ts:235-244 | putting the common ends back keeps the order of additions and removals |
| `Diff.CheapestIsMinimal` | src/node/internal/internal_diffs.ts:50-245 | a script that costs \|A\| + \|B\| - 2·LCS is minimal among all scripts |
| `EditScript.ScriptCostsAtLeast` | src/node/internal/internal_diffs.ts:50-245 | every script from a to b costs at least \|a\| + \|b\| - 2·LCS |
| `EditScript.LcsTrim` | src/node/internal/internal_diffs.ts:51-62 | a common prefix and suffix add exactly their lengths to the longest common subsequence |
| `EditScript.LcsSymmetric` | src/node/internal/internal_diffs.ts:63-64 | swapping the inputs leaves the longest common subsequence as long as it was |
| `DiffSearch.Differ.constructor` | src/node/internal/internal_diffs.ts:84-102 | unvisited furthest points, an empty route forest, a buffer of twice M·N + M + N + 2 numbers |
| `DiffSearch.Differ.Record` | src/node/internal/internal_diffs.ts:163-173 | one more id whose back pointer is a legal step, and which does not make a slide follow a step down; both writes fit, because no two ids stand for one grid point |
| `DiffSearch.Differ.CreateFP` | src/node/internal/internal_diffs.ts:149-175 | the new point comes from the neighbour that is further, never from an undefined one, and from the one above at a tie; no id stands for it yet |
| `DiffSearch.Differ.Snake` | src/node/internal/internal_diffs.ts:177-198 | the diagonal is followed to a point where nothing more matches; new ids lie on that diagonal only, each higher than the one before; outside the grid nothing happens |
| `DiffSearch.Differ.BackTrace` | src/node/internal/internal_diffs.ts:104-147 | the walk ends at id 0, and the entries made on the way are a script between the two sequences, in the right direction when swapped, whose cost counts the unmatched entries, and in which no entry of a step down is directly followed by one of a slide |
| `DiffSearch.Differ.Advance` | src/node/internal/internal_diffs.ts:203-233 | one assignment to `fp`: only that diagonal changes |
| `DiffSearch.Differ.Phase` | src/node/internal/internal_diffs.ts:202-233 | the frontier of phase p - 1 becomes that of phase p |
| `DiffSearch.Differ.Search` | src/node/internal/internal_diffs.ts:200-234 | the loop stops at a route to the far corner that matches as many entries as any common subsequence has |
| `DiffFrontier.GridBound` | src/node/internal/internal_diffs.ts:99-101 | ids for distinct grid points number at most (M + 1)·(N + 1) |
| `DiffFrontier.LeftReady` | src/node/internal/internal_diffs.ts:203-213 | below the corner's diagonal the next point lies inside the grid, higher than any recorded on its diagonal, and the undefined neighbour is not taken |
| `DiffFrontier.RightReady` | src/node/internal/internal_diffs.ts:214-224 | the same above the corner's diagonal |
| `DiffFrontier.MiddleReady` | src/node/internal/internal_diffs.ts:225-233 | the same on the corner's diagonal |
| `DiffFrontier.SlideIsTidy` | src/node/internal/internal_diffs.ts:158-165 | where the slide is taken, its point was not reached by a step down: nothing recorded on the diagonal lies above the other neighbour |
| `DiffFrontier.Advanced` | src/node/internal/internal_diffs.ts:203-233 | advancing one diagonal keeps everything that is true in the middle of a phase |
| `DiffFrontier.PhaseDominates` | src/node/internal/internal_diffs.ts:199-234 | after phase p no point that a path of compressed cost at most p reaches lies beyond the frontier |
| `DiffFrontier.PathMatches` | src/node/internal/internal_diffs.ts:104-147 | a route matches no more than a common subsequence of what it has passed |
| `DiffFrontier.CornerNotPaid` | src/node/internal/internal_diffs.ts:201-202 | while the loop runs, p is below N - LCS, so it ends with p at most N |
| `DiffFrontier.CornerReached` | src/node/internal/internal_diffs.ts:201-240 | when it stops, the corner's route costs no more than the phases run |
| `Comparisons.IsDeepStrictEqual` | src/node/internal/internal_comparisons.ts:585-587 | for all values: decides the reference relation `Equal` if no hidden symbols mislead the key test inside them; where that test alone decides, it is the answer |
| `Comparisons.InnerDeepEqual` | src/node/internal/internal_comparisons.ts:129-254 | the same for all values, with every memo above the compared values in size, and gives the memos back as it got them or smaller |
| `Comparisons.Shallow` | src/node/internal/internal_comparisons.ts:129-326 | for all values: what it answers without looking inside is right if nothing misleads the key test, and otherwise the contents decide and the keys agree; two plain objects it tells apart by the key test |
| `Comparisons.OrderMatters` | src/node/internal/internal_comparisons.ts:291-318 | two unequal objects that are deep-equal in one order and not in the other |
| `Comparisons.KeyCheck` | src/node/internal/internal_comparisons.ts:328-358 | on acyclic values the memo hit cannot happen; if nothing misleads the key test, it decides whether the contents agree |
| `Comparisons.SameOwnKeys` | src/node/internal/internal_comparisons.ts:272-318 | for all values: passes exactly by the key test, and for arrays exactly when the keys are the same; then it lists all keys |
| `Comparisons.ObjEquiv` | src/node/internal/internal_comparisons.ts:533-583 | the contents of the two kinds of container and all properties agree |
| `Comparisons.ArrayEquiv` | src/node/internal/internal_comparisons.ts:547-571 | the elements agree one by one |
| `Comparisons.PropsEquiv` | src/node/internal/internal_comparisons.ts:574-582 | the properties have equal values under equal keys |
| `Comparisons.SetHasEqualElement` | src/node/internal/internal_comparisons.ts:360-371 | finds and deletes an equal element if there is one |
| `Comparisons.SetEquiv` | src/node/internal/internal_comparisons.ts:413-463 | true exactly when a bijection of deep-equal members exists |
| `Comparisons.CopyObjects` | src/node/internal/internal_comparisons.ts:417-444 | passes when every primitive member has its partner, and then holds exactly the objects |
| `Comparisons.HuntObjects` | src/node/internal/internal_comparisons.ts:446-460 | true exactly when the objects of both sides can be paired |
| `Comparisons.MapHasEqualEntry` | src/node/internal/internal_comparisons.ts:465-483 | finds and deletes an entry with equal key and equal value if there is one |
| `Comparisons.MapEquiv` | src/node/internal/internal_comparisons.ts:485-531 | true exactly when a bijection of entries with equal keys and values exists |
| `Comparisons.CopyObjectKeys` | src/node/internal/internal_comparisons.ts:489-513 | passes when every entry with a primitive key has its partner, and then holds exactly the others |
| `Comparisons.PrimitiveKeyFound` | src/node/internal/internal_comparisons.ts:495-512 | looking a primitive key up decides whether its entry has a partner |
| `Comparisons.HuntEntries` | src/node/internal/internal_comparisons.ts:515-528 | true exactly when the entries with object keys of both sides can be paired |
| `Comparisons.SetsEqualByParts` | src/node/internal/internal_comparisons.ts:413-463 | pairing primitives and objects separately, and from the other side, is pairing all members |
| `Comparisons.SetsEqualWithoutObjects` | src/node/internal/internal_comparisons.ts:413-463 | without objects, finding every primitive is enough, given equal sizes |
| `Comparisons.MapsEqualByParts` | src/node/internal/internal_comparisons.ts:485-531 | the same for the entries of maps |
| `Comparisons.MapsEqualWithoutObjects` | src/node/internal/internal_comparisons.ts:485-531 | the same for maps without object keys |
| `DeepValue.EqualReflexive` | src/node/internal/internal_comparisons.ts:129-135 | a value equals itself, which is what the `===` shortcut needs |
| `DeepValue.EqualSymmetric` | src/node/internal/internal_comparisons.ts:129-254 | equality does not depend on the order of its arguments |
| `DeepValue.EqualTransitive` | src/node/internal/internal_comparisons.ts:129-254 | values equal to the same value are equal |
| `DeepValue.EqualPrimitives` | src/node/internal/internal_comparisons.ts:129-145 | primitives are equal as by Object.is, and to no object |
| `DeepValue.EqualObjects` | src/node/internal/internal_comparisons.ts:574-582 | plain objects are equal exactly if prototypes and keys are the same and the values under every key are equal |
| `DeepValue.EqualArrays` | src/node/internal/internal_comparisons.ts:547-582 | arrays exactly if, besides, they have equal items at every index |
| `DeepValue.EqualSets` | src/node/internal/internal_comparisons.ts:413-463 | Sets exactly if, besides, a bijection gives every member an equal one |
| `DeepValue.EqualMaps` | src/node/internal/internal_comparisons.ts:465-531 | Maps exactly if, besides, a bijection gives every entry one with an equal key and an equal value |
| `DeepValue.SetsEqualIsPairing` | src/node/internal/internal_comparisons.ts:413-463 | the recursive reference for sets is the existence of a bijection |
| `DeepValue.MapsEqualIsPairing` | src/node/internal/internal_comparisons.ts:485-531 | the recursive reference for maps is the existence of a bijection |
| `Pairing.Greedy` | src/node/internal/internal_comparisons.ts:413-463 | if related elements are interchangeable, pairing an element with any partner loses no bijection |
| `Pairing.CanPairCompose` | src/node/internal/internal_comparisons.ts:413-531 | bijections compose along a relation that chains |
| `Pairing.CanPairInverse` | src/node/internal/internal_comparisons.ts:413-531 | a bijection can be read from the other side |
| `Pairing.Split` | src/node/internal/internal_comparisons.ts:413-531 | two parts that are not related to each other can be paired separately |
| `DeepKeys.KeyTestExact` | src/node/internal/internal_comparisons.ts:291-318 | the symbol counting means "the same enumerable keys" if and only if the first object's hidden symbols do not make up for enumerable ones of the second |
| `DeepKeys.KeyTestOpen` | src/node/internal/internal_comparisons.ts:291-318 | without hidden symbols on the first object it always does |
| `Comparisons.KeyTestHolds` | src/node/internal/internal_comparisons.ts:272-318 | where no objects inside mislead it, the key test means "the same enumerable keys" |
| `DeepKeys.HiddenSymbolAsymmetry` | src/node/internal/internal_comparisons.ts:291-318 | an input on which the test depends on the order of its arguments |
| `DeepKeys.CheckNames` | src/node/internal/internal_comparisons.ts:273-289 | as many names, and every one enumerable on the other side |
| `DeepKeys.CheckSymbols` | src/node/internal/internal_comparisons.ts:291-318 | the two branches compute the symbol test, hidden symbols included |
| `MapOperator.YieldsInOrder` | src/node/internal/streams_readable.js:1386-1469 | at any time of any run, what was yielded is a prefix of the results in call order, `kEmpty` dropped |
| `MapOperator.YieldsAll` | src/node/internal/streams_readable.js:1438-1456 | a generator that saw the end has yielded everything, and no call was rejected |
| `MapOperator.NeverBothWaiting` | src/node/internal/streams_readable.js:1356-1469 | pump and consumer are never parked together, and whoever is parked can still be woken |
| `MapOperator.QueueBound` | src/node/internal/streams_readable.js:1407-1416 | never more than `concurrency` results are queued, and an end marker only comes last |
| `MapOperator.StepInv` | src/node/internal/streams_readable.js:1356-1469 | every step of pump, consumer, promises and abort keeps the protocol's invariant |
| `MapOperator.Closure.Run` | src/node/internal/streams_readable.js:1356-1469 | the closure's code, under any series of chunks, promises, wake-ups, aborts, demands and stops, from any reachable state: what has been yielded are the first results in call order, all of them at the end; never more than `concurrency` queued, and the pump waits only if that many are; no deadlock; from the beginning, it ends by itself, by a throw or by a stop only where that is due; after an abort nothing is yielded |
| `MapOperator.SafeInv` | src/node/internal/streams_readable.js:1356-1469 | the protocol's invariant implies order, bound and wake-ups |
| `MapOperator.Endings` | src/node/internal/streams_readable.js:1384-1468 | for every series of actions from the beginning: it throws only if the stream failed, a call failed, or it was aborted; it ends at the end only if the end of the stream was taken and no stream error; it is stopped only by its consumer |
| `MapOperator.AbortedYieldsNothing` | src/node/internal/streams_readable.js:1442-1446 | after an abort nothing is yielded in any series of actions |
| `MapOperator.ValuesOfAll` | src/node/internal/streams_readable.js:1440-1450 | if all calls return values, at once or by promises, the results are exactly these, in order |
| `MapOperator.ValuesSkip` | src/node/internal/streams_readable.js:1404-1450 | a call that gives kEmpty, at once or by a promise, leaves no trace in the results |
| `Readable.Stream.Run` | src/node/internal/streams_readable.js:236-594 | for every sequence of pushes, reads, callbacks, listener changes and destruction: each step does what its action does to a stream with these flags, from the real state before it; delivered bytes followed by buffered ones are the accepted ones in order, `length` is the buffered total, 'end' comes once and last, every `_read` is answered before the next; and the source is idle below the high-water mark only after a prefetch with an empty answer |
| `Readable.Stream.Step` | src/node/internal/streams_readable.js:236-594 | what each action does, given the flags: a push is stored, passed on or refused, and refused only after the end or a failure; a read takes in what `_read` pushes and gives out what it returns, as much as the source computes; a flow and a prefetch are series of such reads; and only a prefetch with an empty answer can stall the stream |
| `Readable.TracesPush` | src/node/internal/streams_readable.js:236-316 | in every run, a push or unshift that is not empty grows what is accepted by exactly its bytes, at its end, if the stream is open and has not failed; otherwise by nothing |
| `Readable.PushDelivered` | src/node/internal/streams_readable.js:296-316 | such a push reaches the consumer at once exactly if the stream flows, holds nothing, is listened to and is not within `_read` |
| `Readable.AnswerAccepted` | src/node/internal/streams_readable.js:444-456 | whatever chunks `_read` pushes before it returns are accepted, in order, and none fails |
| `Readable.OneReadIs` | src/node/internal/streams_readable.js:375-489 | a read gives out what it returns and nothing else: n bytes if n are held, and what `howMuchToRead` says when nothing is pushed meanwhile |
| `Readable.ReadAmounts` | src/node/internal/streams_readable.js:361-489 | of what is held when `_read` has answered, or has not been called: a read without a size hands out everything, or, if the stream flows, exactly the first chunk; a size that is held, so many bytes; a larger one, everything if the source has ended and nothing otherwise |
| `Readable.ReadRaises` | src/node/internal/streams_readable.js:338-389 | a size above the high-water mark raises it, and is refused beyond 1 GiB, changing nothing |
| `Readable.Stream.Complete` | src/node/internal/streams_readable.js:491-514 | push(null) on a flowing stream hands out everything accepted, and then 'end' is emitted |
| `Readable.Stream.ReadableAddChunk` | src/node/internal/streams_readable.js:236-294 | what a push or an unshift adds to the log, when it is refused or dropped, and whether more is wanted |
| `Readable.Stream.AddChunk` | src/node/internal/streams_readable.js:296-316 | a chunk is emitted directly or stored, at the end it belongs to, and a prefetch is scheduled |
| `Readable.Stream.OnEofChunk` | src/node/internal/streams_readable.js:491-514 | the source has ended; outside `_read`, a flowing stream is drained at once |
| `Readable.Stream.Read` | src/node/internal/streams_readable.js:375-489 | takes in exactly what `_read` pushes, if it is called, and it is called whenever the source demands it; then hands out exactly what it returns, as many bytes as `howMuchToRead` says; throws only beyond 1 GiB; schedules 'end' when it finds an ended stream empty |
| `Readable.Stream.ReadEnded` | src/node/internal/streams_readable.js:391-407 | read() once the source has ended: everything asked for that is held, and then 'end' is scheduled |
| `Readable.Stream.Ask` | src/node/internal/streams_readable.js:444-456 | `_read` is called only when no answer is pending; its pushes are taken one after the other, nothing is given out, and the source is left asked, scheduled or ended |
| `Readable.Stream.Refill` | src/node/internal/streams_readable.js:431-460 | `_read` is called whenever too little is held; after the decision to read, whatever is then taken leaves a reason not to ask: asked, scheduled, stopped, or enough held |
| `Readable.Stream.HandOut` | src/node/internal/streams_readable.js:461-488 | the first bytes that are held, in order, and no others |
| `Readable.TakeOut` | src/node/internal/streams_readable.js:1161-1177 | the n bytes taken, followed by those left, are those held |
| `Readable.Consume` | src/node/internal/streams_util.js:467-547 | the same across chunk boundaries, without leaving an empty chunk |
| `Readable.Concat` | src/node/internal/streams_util.js:454-465 | all chunks, one after the other |
| `Readable.Stream.FlowOut` | src/node/internal/streams_readable.js:898-901 | flowing on an ended stream hands out all that is held and schedules 'end' |
| `Readable.Stream.Flow` | src/node/internal/streams_readable.js:898-901 | a series of reads without a size, up to the first that returns nothing; what is given out are exactly the chunks returned, one after the other, for any number of rounds |
| `Readable.Stream.MaybeReadMore` | src/node/internal/streams_readable.js:551-556 | at most one prefetch is scheduled or running |
| `Readable.Stream.MaybeReadMore_` | src/node/internal/streams_readable.js:558-594 | terminates after at most highWaterMark - length rounds (one, if the mark is 0) and delivers nothing; it leaves the source idle below the mark if and only if the answer of its last round is nothing but empty chunks, at least one of them pushed, and the stream has not failed |
| `Readable.EmptyAnswerStalls` | src/node/internal/streams_readable.js:551-594 | a stream on which that happens: nobody is asked, nothing is scheduled, and nothing is held |
| `Readable.PrefetchIdle` | src/node/internal/streams_readable.js:582-594 | for any prefetch: it asks at all exactly if nobody is asked, the source has not ended, and less than the mark is held or a flowing stream is empty; it leaves the source idle if and only if its last answer is empty; one round if the first answer is |
| `Readable.SilenceOn` | src/node/internal/streams_readable.js:263-289 | a push or an unshift in `_read` brings nothing exactly if its chunk is empty |
| `Readable.Stream.EndReadableNT` | src/node/internal/streams_readable.js:1187-1209 | 'end' is emitted if and only if nothing is held, none was emitted, and the stream neither failed nor closed |
| `Readable.FaithfulLawful` | src/node/internal/streams_readable.js:236-594 | a state whose log replays has delivered and buffered exactly what was accepted, ends properly and asks once at a time |
| `HighWaterMark.NewHighWaterMarkLeast` | src/node/internal/streams_readable.js:342-359 | the raised mark is the least power of two that is at least n, for every n up to 1 GiB |
| `HighWaterMark.NewHighWaterMarkIs` | src/node/internal/streams_readable.js:347-356 | the shifts and ors copy the highest bit of n - 1 into all lower ones |
| `StreamLog.Conservation` | src/node/internal/streams_readable.js:236-316 | in a log that replays, what was delivered, followed by what is pending, is what was accepted |
| `StreamLog.PushesInOrder` | src/node/internal/streams_readable.js:236-316 | without unshift, what was accepted are the pushes in order |
| `StreamLog.EndIsFinal` | src/node/internal/streams_readable.js:1187-1209 | at 'end' everything accepted has been delivered, and nothing follows |
| `StreamLog.OneReadAtATime` | src/node/internal/streams_readable.js:432-460 | between two calls of `_read` there is an answer |
| `Path.NormalizeString` | src/node/internal/internal_path.ts:40-102 | the character loop computes split, fold with '.' and '..', and join, with and without above-root |
| `Path.Ascend` | src/node/internal/internal_path.ts:57-85 | '..' removes the last piece of the result, is kept above the root, or is dropped |
| `Path.Normalize` | src/node/internal/internal_path.ts:232-253 | the rendered stack of the path's pieces |
| `Path.JoinPaths` | src/node/internal/internal_path.ts:268-285 | normalizing the non-empty arguments put together with '/' |
| `Path.Resolve` | src/node/internal/internal_path.ts:197-226 | where `cd` to each argument in turn leads, from the working directory |
| `Path.Relative` | src/node/internal/internal_path.ts:292-360 | one '..' for each piece of `from` beyond the common ones, then the rest of `to`, in the equal, prefix, root and partial-piece cases |
| `PathSpec.NormalizeIdempotent` | src/node/internal/internal_path.ts:232-253 | normalizing twice is normalizing once |
| `PathSpec.NormalizeConcat` | src/node/internal/internal_path.ts:232-253 | normalize(p + '/' + q) is normalize(normalize(p) + '/' + q) for p that is not empty |
| `PathSpec.NormalizedStack` | src/node/internal/internal_path.ts:232-253 | a normalized path means what the path means |
| `PathSpec.FoldCanonical` | src/node/internal/internal_path.ts:40-102 | no '.', no empty piece, and '..' only in front, if at all |
| `PathSpec.UpTakesBack` | src/node/internal/internal_path.ts:57-76 | '..' takes back the segment before it, in absolute and in relative paths |
| `PathSpec.StackDown` | src/node/internal/internal_path.ts:40-102 | p/x means p and then x; p/ and p/. mean p |
| `PathSpec.StackUp` | src/node/internal/internal_path.ts:57-85 | p/x/.. means p; where nothing is left to take back, '..' is kept in relative paths and ignored in absolute ones |
| `PathSpec.StackFirst` | src/node/internal/internal_path.ts:40-102 | a first segment stands for itself, except '..' at the root |
| `PathSpec.NormalizeCancels` | src/node/internal/internal_path.ts:232-253 | normalize(p/x/../q) is normalize(p/q) |
| `PathSpec.NormalizeTrails` | src/node/internal/internal_path.ts:238-252 | a separator at the end is kept and none is added, except that the root is one |
| `PathSpec.NormalizeNothing` | src/node/internal/internal_path.ts:235-250 | paths that lead nowhere give '.', './' or '/' |
| `PathSpec.JoinAssociates` | src/node/internal/internal_path.ts:268-285 | join(join(p, q), r) is join(p, q, r) |
| `PathSpec.JoinFew` | src/node/internal/internal_path.ts:268-285 | join() is '.', join(p) is normalize(p), join(p, q) is normalize(p + '/' + q), and empty arguments do not count |
| `PathRelative.RouteLeadsThere` | src/node/internal/internal_path.ts:292-360 | following a relative route from its start leads to its goal |
| `PathRelative.RouteShortest` | src/node/internal/internal_path.ts:292-360 | no other segments lead there in fewer steps |
| `PathRelative.CdFrom` | src/node/internal/internal_path.ts:197-228 | one more argument: an absolute one counts alone, a relative one is normalized behind where the others lead |
| `PathRelative.RelativeResolves` | src/node/internal/internal_path.ts:197-360 | resolve(from, relative(from, to)) is resolve(to), for all strings |
| `RateLimiting.StepInv` | samples/durable-objects-chat/chat.js:451-547 | every step keeps it: each interval beyond the grace period is accounted for by a different client |
| `RateLimiting.NeverFarAhead` | samples/durable-objects-chat/chat.js:461-480 | the allowed time is at most 20 seconds and 5 per client that is not posting ahead of the clock |
| `RateLimiting.AheadBound` | samples/durable-objects-chat/chat.js:461-480 | in every run with k clients it is at most 20 + 5k seconds ahead |
| `RateLimiting.WindowBound` | samples/durable-objects-chat/chat.js:484-547 | in every stretch of every run, at most T/5 + 4 + k messages are let through |
| `RateLimiting.Service.Run` | samples/durable-objects-chat/chat.js:451-547 | the limiter's and the clients' code, under any series of messages, posts, answers, timers and reads: from any reachable state, at most T/5 + 4 + k messages get through in a time T, and the allowed time stays within 20 + 5k seconds of the clock |
| `RateLimiting.StretchBound` | samples/durable-objects-chat/chat.js:461-480 | what two states of one run say about the messages let through between them |
| `RateLimiting.NextMoves` | samples/durable-objects-chat/chat.js:461-480 | in every stretch the allowed time moves by exactly 5 seconds a post, from where it was or from the clock at the latest |
| `RateLimiting.ClosedUntil` | samples/durable-objects-chat/chat.js:461-538 | a client that has its answer is closed until the allowed time is 20 seconds away, and no longer |
| `RateLimiting.BurstIsFree` | samples/durable-objects-chat/chat.js:472-480 | after up to four posts to an idle limiter, in any series of events, nobody has to wait |
| `RateLimiting.Burst` | samples/durable-objects-chat/chat.js:461-480 | posts at one time to an idle limiter: the answers are 0 four times, and then 5 seconds more each time |
| `Broadcast.ChatRoom.Broadcast` | samples/durable-objects-chat/chat.js:405-438 | ends for every pattern of failing sockets; survivors keep their place and get the same messages; every session lost with a name is announced once, and nothing else is sent |
| `Broadcast.ChatRoom.SendAll` | samples/durable-objects-chat/chat.js:411-430 | the filter pass keeps and serves those whose socket works, and queues for those without a name |
| `Broadcast.AfterTwice` | samples/durable-objects-chat/chat.js:405-438 | sending some messages and then others is sending all of them |
| `Broadcast.EachGot` | samples/durable-objects-chat/chat.js:411-430 | each session that is left has got exactly the messages of the log, sent if it has a name and kept back if not, and nothing else |
| `Broadcast.PlacesAre` | samples/durable-objects-chat/chat.js:411-430 | the sessions that are left keep their order; gone are exactly those with a name whose socket takes fewer messages |
| `Broadcast.EachAnnounced` | samples/durable-objects-chat/chat.js:432-436 | as many farewells as sessions are gone, and one with the name of each |
| `Emitter.EventEmitter.AddListener` | src/node/internal/events.ts:390-459 | the listener is appended or prepended to the type's sequence; the table stays compact and `_eventsCount` is the number of its keys |
| `Emitter.EventEmitter.RemoveListener` | src/node/internal/events.ts:510-565 | exactly the last listener that is the function or wraps it goes; a type without listeners is no key |
| `Emitter.EventEmitter.RemoveAllListeners` | src/node/internal/events.ts:569-614 | no listener of the type, or of any type, is left, on the short path and on the one that removes them one by one |
| `Emitter.EventEmitter.RemoveEach` | src/node/internal/events.ts:602-611 | removing each from the last, while the array shrinks, removes all |
| `Emitter.EventEmitter.RawListeners` | src/node/internal/events.ts:616-633 | the type's sequence, wrappers included |
| `Emitter.EventEmitter.Listeners` | src/node/internal/events.ts:616-637 | the type's sequence with wrappers replaced by what they wrap |
| `Emitter.EventEmitter.ListenerCount` | src/node/internal/events.ts:643-657 | the length of that sequence |
| `Emitter.EventEmitter.EventNames` | src/node/internal/events.ts:668-670 | exactly the types that have listeners |
| `Emitter.SpliceOne` | src/node/internal/internal_utils.ts:107-110 | the element goes and the rest closes up, in order |
| `Emitter.LastPosition` | src/node/internal/events.ts:536-543 | the last match, or -1 if there is none |
| `Emitter.RemoveUndoesAdd` | src/node/internal/events.ts:461-565 | removing a listener takes back adding it, directly or through `once` |
| `Emitter.AddedWhere` | src/node/internal/events.ts:390-459 | a listener is added at the end, or prepended at the start, of its type and of no other |
| `Emitter.RemovedWhich` | src/node/internal/events.ts:510-565 | exactly the last listener that is the function, or wraps it, goes; no other type changes |
| `Emitter.OnceShown` | src/node/internal/events.ts:488-637 | what once adds is shown by listeners() as the function that was passed |
| `Emitter.EventEmitter.Run` | src/node/internal/events.ts:390-614 | every series of on, prepend, once, removeListener and removeAllListeners does to the table what it does to a map of sequences; each type's listeners are what the calls for that type alone make of them |
| `Emitter.EachTypeAlone` | src/node/internal/events.ts:390-614 | calls for one type do not touch the listeners of another |
| `Emitter.RemovalsUndoAdds` | src/node/internal/events.ts:461-565 | any series of appended listeners, wrapped by `once` or not, is taken back by removing the functions that were passed, in the opposite order |
| `EventIterator.Iterator.Run` | src/node/internal/events.ts:816-932 | in every run of calls, events, errors, aborts, return() and throw(), the actions alone determine the answers; `emitted` grows by exactly the events emitted while listening, call i is answered by event i, and errors are seen by the calls they are for, an abort of a finished iterator included |
| `EventIterator.AllHeard` | src/node/internal/events.ts:910-932 | no event emitted before something stops the listening is lost, and no other is there |
| `EventIterator.SeenExactly` | src/node/internal/events.ts:919-932 | the call an error is for sees it if and only if it waits already, or nothing is queued and the error is truthy; on a finished iterator with promises in its queue nobody does; and no other call is concerned |
| `EventIterator.FalsyThenDone` | src/node/internal/events.ts:829-842 | a falsy error event with nothing waiting is seen by no call: the next one is done |
| `EventIterator.Iterator.Next` | src/node/internal/events.ts:822-848 | a new call gets the unread event, the kept error, done, or waits, whichever is its turn |
| `EventIterator.Iterator.EventHandler` | src/node/internal/events.ts:910-917 | an event answers the first call that waits, or is kept for a later one |
| `EventIterator.Iterator.ErrorHandler` | src/node/internal/events.ts:919-932 | the first call that waits sees the error, else, if nothing is queued, a later one if it is truthy; all other calls are done; also when the iterator is finished already |
| `EventIterator.Iterator.Return` | src/node/internal/events.ts:850-870 | every call that waits is done, no other answer changes, the queue stays as it is, and the signal is still listened to |
| `EventIterator.LateAbort` | src/node/internal/events.ts:850-932 | an abort of a finished iterator is seen, by the next call beyond the events, if and only if no settled promise is left in the queue; nothing else changes |
| `EventIterator.AbortAfterReturn` | src/node/internal/events.ts:850-932 | return(), then an abort: the next call is rejected, and the one after it is done |
| `EventIterator.AbortLost` | src/node/internal/events.ts:850-932 | the same with a call waiting at return(): the abort is lost |
| `EventIterator.Iterator.Throw` | src/node/internal/events.ts:872-883 | the error is kept for the next call that gets no event; nothing is finished |
| `EventIterator.Iterator.Waiting` | src/node/internal/events.ts:816-932 | until it is finished, unread events and pending calls are never both there |
| `EventIterator.ErrorThenDone` | src/node/internal/events.ts:829-842 | after an error event with nothing waiting, the next call sees the error and the one after it is done |
| `EventIterator.ThrowThenWaiting` | src/node/internal/events.ts:872-883 | after throw() the next call sees the error, and the one after it waits although nobody is left to answer it |
| `EventIterator.PendingFirst` | src/node/internal/events.ts:910-932 | the head of the queue is the first call that waits, and the rest are the calls that wait once it is answered |
| `Escape.StrEscape` | src/node/internal/internal_inspect.ts:545-608 | for every string, the output is that string's literal: quoted, and with the string as its value; all three paths give the same text |
| `Escape.LiteralValue` | src/node/internal/internal_inspect.ts:545-608 | decoding the shown text under its quotes gives the string back, lone surrogates included |
| `Escape.EscapeLoop` | src/node/internal/internal_inspect.ts:577-606 | the loop, which steps over pairs, gives what the regular expression's replacement gives |
| `Escape.Replacement` | src/node/internal/internal_inspect.ts:580-601 | one round agrees with the look-ahead and look-behind of the regular expressions |
| `Escape.DecodeMeta` | src/node/internal/internal_inspect.ts:265-280 | every entry of the table is an escape for its own code |
| `Escape.DecodeSurrogate` | src/node/internal/internal_inspect.ts:538-541 | \u and the hexadecimal digits of a surrogate stand for it |
| `Escape.QuoteChosen` | src/node/internal/internal_inspect.ts:558-574 | double quotes exactly if there are single ones and no double ones; backticks exactly if there are both, and neither a backtick nor ${; else single ones |
| `Escape.Forms` | src/node/internal/internal_inspect.ts:265-280 | which units are escaped, and in which form: a short escape, \x and two upper-case digits, or \u and four lower-case ones; every other unit is shown as it is |
| `Codec.RoundTrip` | src/node/internal/internal_buffer.ts:955-1201 | for widths 1 to 6 and 8, both byte orders and both signs, every value in range is read back as it was written |
| `Codec.WriteInt` | src/node/internal/internal_buffer.ts:2012-2281 | an error if the value or the offset does not fit, and then no byte changes; otherwise the value's bytes, no others, and the offset behind them |
| `Codec.ReadInt` | src/node/internal/internal_buffer.ts:955-1201 | an error unless all bytes are there at the offset, which the 64-bit readers take modulo 2^32; otherwise what the width's expression gives |
| `Codec.WrappedOffset` | src/node/internal/internal_buffer.ts:1035-1068 | an offset whose bytes are not there is accepted if and only if the width is 64 bits, the offset is no 32-bit number, and it wraps to a place where they are |
| `Codec.ReadsBeyondTheEnd` | src/node/internal/internal_buffer.ts:1035-1051 | offsets 2^32 and -2^32 in a buffer of eight bytes read its first byte on |
| `Codec.WriteThenRead` | src/node/internal/internal_buffer.ts:955-2281 | a value that fits, written where it fits, is read back at the same offset |
| `Codec.ReadsInPlace` | src/node/internal/internal_buffer.ts:955-1201 | all widths but 64 bits, and 64 bits at 32-bit offsets, are read at the offset itself |
| `Codec.FitsBounds` | src/node/internal/internal_buffer.ts:2012-2281 | the least and the greatest value of every width, unsigned and signed |
| `Codec.WriteLEIs` | src/node/internal/internal_buffer.ts:2046-2281 | the shifts and the division by 2^32 store the digits to the base 256, negative numbers and numbers beyond 32 bits included |
| `Codec.WriteBEIs` | src/node/internal/internal_buffer.ts:2031-2181 | the big-endian writers store the same bytes the other way round |
| `Codec.WriteHalves` | src/node/internal/internal_buffer.ts:1288-1312 | signed shifts store the digits of both halves of a 64-bit integer |
| `Codec.ReadUIntLEIs` | src/node/internal/internal_buffer.ts:1004-1051 | the little-endian sums are the number |
| `Codec.ReadUIntBEIs` | src/node/internal/internal_buffer.ts:1676-1740 | the big-endian sums are the little-endian ones from the other end |
| `Codec.ReadIntLEIs` | src/node/internal/internal_buffer.ts:1107-1184 | the sign extensions give two's complement |
| `Codec.ReadIntBEIs` | src/node/internal/internal_buffer.ts:1909-1950 | so do the big-endian ones |
| `Codec.Extended8` | src/node/internal/internal_buffer.ts:1107-1115 | the multiplier 0x1fffffe extends the sign of a byte |
| `Codec.Extended16` | src/node/internal/internal_buffer.ts:1117-1139 | the multiplier 0x1fffe extends the sign of two bytes |
| `Codec.Extended24` | src/node/internal/internal_buffer.ts:1866-1876 | the multiplier 0x1fe extends the sign of three bytes |
| `RandomInt.NoBias` | src/node/internal/crypto_random.ts:163-187 | every result of the range has exactly randLimit / range accepted draws |
| `RandomInt.DrawsAreNumbers` | src/node/internal/crypto_random.ts:183-184 | six bytes are a number from 0 to RAND_MAX, and each such number is the draw of exactly one choice of six bytes |
| `RandomInt.Sampler.GetRandomInt` | src/node/internal/crypto_random.ts:157-191 | the result lies in [min, max) and comes from the first draw below the limit; the draws are the successive six-byte numbers of the bytes left over and those of the fills, all of them if the call does not come to an end; with min equal to max no draw is ever accepted; every read of six bytes is inside the cache |
| `RandomInt.Sampler.Draw` | src/node/internal/crypto_random.ts:183-184 | the next six bytes of the cache, big-endian, and the offset moves by six |
| `RandomInt.LimitIsMultiple` | src/node/internal/crypto_random.ts:169-172 | the limit is a positive multiple of the range, less than one range below RAND_MAX |

## Left out

- Cyclic values: `Comparisons` works on finite trees; memo entries of ancestors can be overwritten and deleted on cyclic ones.
- Loose mode, typed arrays, dates, regular expressions, errors, boxed primitives, Symbol.toStringTag and sparse arrays in the deep comparison: they rest on host predicates.
- Comparisons.IsDeepStrictEqual: of values in which two objects with hidden symbols mislead the key test it says only that the comparison ends without a memo hit, and the answer where that test alone decides.
- NaN entries in `diff`: entries are compared by an equivalence, and `===` is one except on NaN.
- `diffstr`, `createErrDiff` and the building of messages: presentation.
- Readable.Stream.Flow: covers any finite number of rounds; the loop goes on for ever if `_read` always pushes at once.
- When 'readable' is emitted: `emittedReadable` is not modelled, and the callback that emits it may run at any time; the order of callbacks is not modelled either.
- Object mode, decoders and encodings, pipes, asynchronous construction, `_undestroy`, and a read() from within `_read` or an 'error' listener.
- Handlers of 'data' and 'readable' are steps of a run: every emission ends a step, except that the flags set after 'readable' are set before it here.
- What leaving the pump's `for await` loop early awaits first, the return() of the stream's iterator: here the pump's finally block runs in the same step.
- Lone surrogates in paths: the strings of `Path` are sequences of Unicode scalar values.
- The rounding of floating-point seconds in the rate limiter: times are real numbers.
- The retry POST of `callLimiter`, lost answers and timers that fire early: they change the bound.
- The `quit` flag of chat sessions, JSON, WebSockets, storage and the backlog.
- Argument validation (`validateString` and the like), `path.win32`, and the branches of `resolve` for a working directory that is not absolute, which is '/' here.
- Emitting: `emit`, the 'newListener' and 'removeListener' events with their handlers, the leak warning, and emits in flight when the iterator of `on()` finishes.
- EventTargets as emitters, and errors other than a missing Error that throw() refuses.
- The rest of `inspect`: presentation.
- Non-integer and non-numeric arguments of the integer readers and writers, and floats and doubles.
- RandomInt.Sampler.GetRandomInt: the random bytes are parameters, and a call that would need more of them than are given is not followed further.
- Raw line breaks in template literals: `Escape.Decode` refuses them, and `strEscape` never prints one.
- The C++ runtime, the other samples and the remaining Node modules.
