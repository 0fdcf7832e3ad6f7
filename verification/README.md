# Verification of the bcachefs-tools core

A Dafny model of the parts of bcachefs-tools whose correctness is hardest to see by reading: the erasure code in
`raid/`, the userspace stand-ins for kernel services in `linux/` (workqueue, timers, resizable hash table, mempool,
semaphore, radix tree, per-CPU memory, sort, XXH64), the id allocator in `c_src/ida.c`, and the regex compiler in
`fs/codegen.rs`. `dafny verify dfyconfig.toml` verifies all of it.

## How the model is built

- **Erasure code.** Bytes are elements of GF(2^8) with polynomial 285, with multiplication defined by shift and xor;
  the constant tables are modelled by the formulas they hold, and the property the code takes on trust from them, that
  every square submatrix of the generator is nonsingular, is proved (`Generator`); `GeneratorTable` says which matrix it
  is, by a law that does not name the construction and by the values that raid.c prints. Block buffers are arrays, the vector
  `v` is an array of them, and the loops over words, bytes and disks are loops over those arrays. `Stripe` is the
  specification: a parity is the generator row times the data column.
- **Concurrent services.** `Workqueue`, `TimerSync`, `Rhashtable`, `Genradix`, `Mempool`, `PercpuSlots` and `Semaphore`
  are state machines. A step is a section under the lock, or a single read or write where the code works without one
  (hash-table lookups and the three writes of a rehash, the cmpxchg of the radix tree, the unlocked read of `curr_nr`).
  A run is any interleaving of steps; memory is sequentially consistent. Results of allocation, of the scheduler and of
  the clock are parameters of the steps. `BUG_ON`s and array overruns are outcomes of steps, so that their absence is a
  theorem. What the calls return, that they finish when the others stand still, and what is conserved over a run is in
  `WorkqueueCalls`, `RhashtableRuns`, `GenradixRuns` and `MempoolRuns`.
- **Sequential structures.** The timer heap, the id allocator, the sort, the radix-tree iterators, the streaming hash
  state and the per-CPU arena are classes or methods that update arrays and fields in place, each proved against an
  abstract view: a map of armed timers, a set of free ids, a sorted permutation, the set of present pages, the bytes
  hashed so far, the live blocks.
- **Regexes.** `Regex` gives a parser for the fragment of the regex crate's syntax in use and what a regex matches;
  `Codegen` proves what the text built by `not_prefixed` parses to and matches.

## What the proofs found

Places where a promised or natural property fails, each with an input at which it does and its exact condition:

- A worker that finishes an item wakes only the workers of its own queue. An item queued on a second queue while it
  runs on the first can be left there with that queue's worker asleep (`Workqueue.LostWakeup`); this is the only way
  (`Workqueue.StepWakeful`), and one queue per item rules it out (`Workqueue.NoLostWakeup`).
- `cancel_work_sync` trips a `BUG_ON` exactly if it meets a timer, a timer callback or a caller asleep in its own cancel
  of the item (`Workqueue.StepInv`, `Workqueue.DelayedBug`, `Workqueue.TwiceBug`); otherwise no run does
  (`Workqueue.NoBug`).
- `lsbit` in `sort_r` is an `unsigned int`: for element sizes that are multiples of 2^32 `parent()` is right only for odd
  elements (`SortBits.ParentIff`). With at most two elements that does not matter (`Sort.SortR`); for every larger number
  some array sends the sort to offsets at which no element starts (`Sort.SortsAstray`).
- Two concurrent `mempool_resize` calls can write past the elements array (`Mempool.TwoResizers`), exactly because a
  shrink sets a minimum for which the array in use by then may be too small (`Mempool.StepBound`).
- `down_trylock` reports failure with more than 2^31 left to acquire (`Semaphore.TrylockIs`,
  `Semaphore.TrylockRefuses`).
- `free_percpu` says that it reports a double free and a pointer from elsewhere. Its `BUG_ON`s catch only what lies
  outside the size table (`Percpu.FreeTwice`, which does no harm, and `Percpu.FreeShifted`, which does). The room test of
  the arena adds in `size_t` and is right exactly if the sum does not wrap (`Percpu.RoomTest`): `Percpu.AllocWraps`, and
  `Percpu.AllocNothing` for the rounding above 2^64 - 8.
- `not_prefixed` is documented to match whatever starts with none of the prefixes. It does not match a string that
  stops inside a prefix, or that has a newline after it has left them (`Codegen.PromiseHolds`, `Codegen.StopsInside`,
  `Codegen.NewlineHides`), it ignores an empty prefix (`Codegen.EmptyIgnored`), and for a list with no other it returns
  no regex (`Codegen.NothingToExclude`).
- The timer heap has a root that is after no other timer only while all expiries lie in one half-range window
  (`TimerHeap.RootIff`); otherwise the timer thread can sleep over a due timer (`TimerHeap.OutOfWindow`).
- `ida_alloc_locked` trips a `BUG_ON` exactly if the least free id in range exceeds `INT_MAX` (`IdaAlloc.AboveIntMax`);
  its second capacity test never decides (`IdaAlloc.CapacityGap`).

Where code and documentation disagree, the model follows the code.

## Model

| member | source | states |
|---|---|---|
| Gf.MulAssoc | raid/gf.h:27-30 | Field multiplication, by shift and xor modulo 285, is associative |
| Gf.MulComm | raid/gf.h:27-30 | and commutative |
| Gf.MulAddRight | raid/gf.h:27-30 | and distributes over xor |
| Gf.MulInv | raid/gf.h:36-41 | Every nonzero byte times its inverse, a^254, is one |
| Gf.Pow2Order | raid/gf.h:46-51 | No power of 2 with an exponent from 1 to 254 is one |
| Gf.Pow2Distinct | raid/gf.h:46-51 | so the first 255 powers of 2 are distinct |
| Generator.CauchyMds | raid/raid.c:52-85 | Every square submatrix of the six-row Cauchy generator, for up to 251 disks, has no nonzero kernel vector: proved by partial fractions, not by enumeration |
| Generator.VandermondeMds | raid/raid.c:27-40 | The same for the three rows 1, 2^d, 2^-d |
| Generator.Mds | raid/raid.c:83-85 | The property of the tables that recovery relies on, in either mode |
| GeneratorTable.CauchyLaw | raid/raid.c:52-85 | Which Cauchy matrix it is, without naming its construction: the coefficient of disk d in parity p (from 2 to 5) times 2^-d + 2^(p-1) is 1 + 2^(p-1), for every disk below 251 |
| GeneratorTable.PowerLaw | raid/raid.c:27-85 | In both modes parity 0 weighs every disk with 1, and parity 1 weighs disk 0 with 1 and each next disk with twice the weight before; in the Vandermonde mode the weights of parity 2 are the inverses of those |
| GeneratorTable.Printed | raid/raid.c:74-81 | The values the table's comment prints, worked out from the field: 0xf5, 0xbb, 0x97, 0x2b for disk 1 in parities 2 to 5, and 2, 0x80, 0x1d for disks 1, 7, 8 in parity 1 |
| GeneratorTable.ParityOf | raid/module.c:122-144 | What the specification of a parity is: a byte in one block alone is weighed with its disk's coefficient |
| GeneratorTable.ParityAdds | raid/module.c:122-144 | and the parity of a sum of columns is the sum of their parities |
| Invert.RaidInvert | raid/raid.c:246-283 | In-place Gauss-Jordan without pivoting: if no leading block has a nonzero kernel vector, no pivot is zero (the BUG_ON cannot fire), M ends as the identity and V as a two-sided inverse of the original M |
| Words.LaneX2 | raid/gf.h:100-108 | x2_64 doubles each of the eight bytes of a word in the field, independently of its neighbours |
| Words.LaneD2 | raid/gf.h:126-134 | d2_64 halves each byte independently |
| Words.LaneXor | raid/int.c:49-72 | xor of words is field addition byte by byte |
| Words.LanePack | raid/int.c:49-72 | a loaded word has the loaded bytes as its lanes |
| Stripe.HornerIsParity | raid/int.c:118-154 | Horner's rule over the disks, from the last down, gives the parity with coefficients 2^d |
| Stripe.HalfHornerIsParity | raid/intz.c:72-118 | and with halving instead of doubling the parity with coefficients 2^-d |
| Gen.Gen1 | raid/int.c:49-72 | The word loop writes parity 0 of every byte, and no data block |
| Gen.Gen2 | raid/int.c:118-154 | The word loop for two writes parities 0 and 1 |
| Gen.GenZ | raid/intz.c:72-118 | The word loop for three writes the 1, 2, 2^-1 parities |
| Gen.GenN | raid/int.c:164-372 | The byte loops of three to six parities write the generator's parities, also when several outputs share one buffer: the last parity wins |
| Gen.RaidGen | raid/raid.c:223-233 | Every forwarded loop writes exactly the parities of the generator and leaves the data blocks as they were |
| GenRef.RaidGenRef | raid/module.c:122-144 | The reference loop straight from the generator meets the same contract, so the fast loops and it write the same bytes |
| Stripe.DeltaParity | raid/raid.c:285-372 | Blanking blocks takes exactly their generator-weighted sum out of a parity |
| Delta.Redirect | raid/raid.c:303-359 | Which buffer each entry of v points to once the outputs are redirected; unused parities share a buffer that a used one overwrites later |
| Delta.Restore | raid/raid.c:365-371 | v is put back entry by entry to what it was |
| Delta.RaidDeltaGen | raid/raid.c:291-372 | Partial parities end in the buffers of the missing blocks; v, every other data block and every parity block are as they were |
| Solve.PairRecovers | raid/raid.c:432-467 | The closed form with 1/(2^(y-x)+1) and 1/(2^x+2^y) gives both missing bytes of a P+Q recovery |
| Solve.InvertSub | raid/int.c:518-529 | The coefficient matrix set up from A is one that raid_invert can invert |
| Solve.Recovered | raid/int.c:539-554 | Multiplying the deltas by the inverse gives the missing bytes |
| Rec.Rec1of1 | raid/raid.c:385-407 | One missing block from parity 0, regenerated with the parity standing in for it |
| Rec.Rec1 | raid/int.c:386-426 | One missing block from any parity |
| Rec.Rec2of2 | raid/raid.c:432-467 | Two missing blocks from parities 0 and 1 |
| Rec.RecX | raid/int.c:439-555 | Two to six missing blocks from as many parities |
| Rec.RecForward | raid/raid.c:492-493 | Whichever function the number of blocks selects, exactly the missing blocks are rewritten, to what they were |
| RaidRec.PickParities | raid/raid.c:530-544 | The parities used are the first good ones, in order |
| RaidRec.RaidRec | raid/raid.c:495-554 | For any valid stripe, any set of at most np lost blocks, data or parity, holding anything: afterwards every block of the stripe is what it was, and v is unchanged |
| RaidRec.RaidData | raid/raid.c:556-585 | The named data blocks are restored from the parities the caller names |
| Check.RaidValidate | raid/check.c:46-114 | True exactly when, at every byte, some values of the suspected blocks satisfy all the parities given |
| Check.CheckMeaning | raid/check.c:93-114 | Byte-wise solvability is the same as one valid stripe that agrees outside the suspected blocks |
| Check.RaidCheck | raid/check.c:116-161 | Returns success if and only if some valid stripe agrees with the blocks outside ir |
| Combo.CombinationFirst | raid/combo.h:106-115 | The first combination is 0, 1, .., r-1 |
| Combo.FirstLeast | raid/combo.h:106-115 | which no r-subset precedes |
| Combo.CombinationNext | raid/combo.h:121-153 | The next combination is the least one after the current in lexicographic order, and the end is reported exactly at the last: nothing is skipped or repeated |
| Scan.Distance | raid/raid.c:44-85 | Two valid stripes that agree outside np blocks are equal |
| Scan.UniqueDecoding | raid/check.c:163-184 | With 2e <= np damaged blocks no other set of at most e blocks explains the damage |
| Scan.ScanSize | raid/check.c:172-180 | All sets of one size, in order, up to the first that explains the stripe |
| Scan.RaidScan | raid/check.c:163-184 | Returns a smallest set that explains the stripe, or -1 if no set of fewer than np blocks does; if at most np/2 blocks of a valid stripe are damaged it returns those blocks |
| Workqueue.StepInv | linux/workqueue.c:150-416 | Every locked section keeps: an item is pending iff it is in exactly one of a queue, an armed timer, a firing callback or a canceller's hands; no item runs twice; room for queued work. A BUG_ON fires if and only if cancel_work_sync finds the bit with a timer, a callback or another canceller |
| Workqueue.RunInv | linux/workqueue.c:150-416 | so in every reachable state |
| Workqueue.RunBug | linux/workqueue.c:303-331 | A run that trips a BUG_ON does so at such a cancel_work_sync |
| Workqueue.PlainMisuse | linux/workqueue.c:303-331 | For an item never delayed that is: only while another caller is asleep in its own cancel of the item |
| Workqueue.NoBug | linux/workqueue.c:303-331 | With cancel_work_sync kept to items never delayed, and no other cancel of the item in progress, no run trips a BUG_ON |
| Workqueue.DelayedBug | linux/workqueue.c:303-331 | A run that does: the item's timer is armed |
| Workqueue.TwiceBug | linux/workqueue.c:303-331 | and another: two cancels of a running item |
| Workqueue.CancelReturns | linux/workqueue.c:359-371 | cancel_work_sync and cancel_delayed_work_sync, having waited, return with the item neither pending, queued, armed, in a callback nor running |
| Workqueue.CancelAtOnce | linux/workqueue.c:403-416 | and so they do when they need not wait, in the section of the grab |
| Workqueue.FlushReturns | linux/workqueue.c:333-345 | When flush_work's loop ends the item is nowhere at all |
| Workqueue.HeldStep | linux/workqueue.c:347-357 | While a canceller holds the bit nobody else gets the item or starts it |
| Workqueue.CancelRun | linux/workqueue.c:359-416 | over any run up to the canceller's return, also if the item's function queues it again |
| Workqueue.IterateExclusive | linux/workqueue.c:124-203 | A worker picks only an item nobody runs |
| Workqueue.FinishWakeful | linux/workqueue.c:189-198 | Finishing an item leaves no queued runnable item behind a sleeping worker if and only if the item was not also queued elsewhere, where a worker went to sleep over it |
| Workqueue.StepWakeful | linux/workqueue.c:124-244 | and that is the only section that can |
| Workqueue.NoLostWakeup | linux/workqueue.c:124-244 | In every run that queues each item on one queue only, no idle worker sleeps while its queue holds an item nobody runs |
| Workqueue.LostWakeup | linux/workqueue.c:189-198 | A run with one item on two queues that ends with such a sleeper |
| Workqueue.LostHomeless | linux/workqueue.c:189-198 | and no assignment of one queue per item fits that run |
| Workqueue.FreeWorker | linux/workqueue.c:205-244 | While fewer than max_active items of a queue run, queued work has an idle worker, however long the running items block |
| Workqueue.NrIdleWorkers | linux/workqueue.c:56-65 | Counts the workers of the queue that run nothing |
| Workqueue.WorkStarved | linux/workqueue.c:73-83 | True iff more items are queued than workers are idle, though it stops counting early |
| Workqueue.WorkRunning | linux/workqueue.c:103-116 | True iff some worker of any queue runs the item |
| Workqueue.FindRunnableWork | linux/workqueue.c:124-133 | The oldest queued item nobody runs |
| WorkqueueCalls.AllocIs | linux/workqueue.c:450-494 | A new queue is empty, with the limit asked for, or 256 if none was |
| WorkqueueCalls.QueueIs | linux/workqueue.c:205-301 | An item that is pending stays where it is; any other goes to the end of its queue, or with a delay to the timer; no other item moves, the queue's idle workers are woken, and one is added exactly if the items outnumber them and the limit allows it |
| WorkqueueCalls.ModIs | linux/workqueue.c:373-387 | mod_delayed_work moves an item that is idle, queued or armed to the end of the queue, or with a delay to the timer; while a callback or a canceller has it the call waits and nothing moves |
| WorkqueueCalls.CancelIs | linux/workqueue.c:389-416 | A cancel takes such an item out of its place; the sync form keeps the bit exactly while the item runs |
| WorkqueueCalls.AgainIs | linux/workqueue.c:303-331 | A call that waits for a callback waits exactly while the one it saw runs; then it is as if it were made anew |
| WorkqueueCalls.LoopIs | linux/workqueue.c:150-203 | A worker that runs nothing takes the oldest item of its queue that nobody runs, and sleeps exactly if there is none |
| WorkqueueCalls.FinishIs | linux/workqueue.c:180-198 | One whose item returns wakes the queue's idle workers if anything is queued, and does the same |
| WorkqueueCalls.TimerIs | linux/workqueue.c:258-266 | The timer thread takes an expired item from the heap and puts it at the end of the queue it was delayed for |
| TimerHeap.AfterIs | include/linux/jiffies.h:10-19 | Among times in one half-range window time_after is the order of distances from the window's start |
| TimerHeap.EarliestIff | include/linux/jiffies.h:10-13 | For any nonempty set of times, some time is after none of them if and only if one half-range window holds them all |
| TimerHeap.RootFirst | linux/timer.c:113 | The root of the heap is due no later than any entry |
| TimerHeap.RootIff | linux/timer.c:209-215 | The root is after no armed timer if and only if the expiries lie in one window; if not, there is a time at which the thread sleeps over a due timer |
| TimerHeap.OutOfWindow | linux/timer.c:209-237 | Three calls of mod_timer after which the thread does so |
| TimerHeap.SoundIff | linux/timer.c:50-75 | In every window that holds the expiries the heap order is the one time_after sees |
| TimerHeap.Rebase | linux/timer.c:50-75 | so an ordered heap is ordered from any later base that still holds it |
| TimerHeap.Serve | linux/timer.c:158-295 | Any sequence of calls, with a different window at each, keeps the heap sound as long as some window holds the expiries at each call |
| TimerHeap.Timers.constructor | linux/timer.c:297-302 | An empty heap of 64 entries |
| TimerHeap.Timers.SiftUp | linux/timer.c:66-75 | Keeps the entries and repairs the order upwards |
| TimerHeap.Timers.SiftDown | linux/timer.c:50-64 | Keeps the entries and repairs the order downwards |
| TimerHeap.Timers.TimerIdx | linux/timer.c:147-156 | Finds the timer's entry exactly if it is armed |
| TimerHeap.Timers.Remove | linux/timer.c:90-101 | Removes one entry, keeping the others and the heap order |
| TimerHeap.Timers.DelTimer | linux/timer.c:158-171 | The map of armed timers loses exactly this timer; true iff it was armed |
| TimerHeap.Timers.ModTimer | linux/timer.c:247-295 | The map of armed timers gains or changes exactly this timer; true iff it was armed; heap order kept, also when the array is reallocated |
| TimerHeap.Timers.Grow | linux/timer.c:272-280 | Doubling the array keeps its entries |
| TimerHeap.Timers.TakeDue | linux/timer.c:209-237 | The timer thread takes only a due timer, one that no armed timer precedes, and sleeps only if none is due; the pending flag it insists on is set |
| TimerSync.StepInv | linux/timer.c:173-243 | The low bit of timer_seq says whether a callback runs, through wrap-around; the BUG_ON never fires |
| TimerSync.RunInv | linux/timer.c:173-243 | in every run |
| TimerSync.SyncReturns | linux/timer.c:173-203 | When flush_timers or timer_delete_sync returns, every callback begun before the call is over; if nobody armed the timer since, it is neither armed nor in its callback |
| TimerSync.SyncAtOnce | linux/timer.c:185-203 | The call sleeps iff a callback runs |
| TimerSync.Asleep | linux/timer.c:197-199 | A sleeper stays asleep exactly while the callback it saw runs, or one a multiple of 2^63 callbacks later |
| TimerSync.StateIs | linux/timer.c:158-243 | After every run the heap holds exactly the timers whose last step armed them, and the callback that runs is the last that began |
| TimerSync.StepsAre | linux/timer.c:158-243 | A timer can fire if and only if it is armed and no callback runs; a call sleeps if and only if one runs |
| TimerSync.SyncRun | linux/timer.c:173-203 | The sync promise over the run itself: when the call returns, as many callbacks have finished as had begun before it, and its timer, not armed again in between, is neither armed nor running |
| Rhashtable.StepInv | linux/rhashtable.c:220-345 | Every pointer write of a rehash, every attach, and both halves of a slow-path insert, before and after it has seen that there is no later table, in any interleaving with lock-free lookups, keep the table well formed and every lookup's remaining matches ahead of it |
| Rhashtable.NoDuplicates | linux/rhashtable.c:583-623 | In every run no key is in the table twice and nelems counts the objects |
| Rhashtable.NoneLost | linux/rhashtable.c:220-345 | Every object stays where it was or moves to a later table |
| Rhashtable.VisitMeans | linux/rhashtable.c:483-581 | An insert pass adds its object only if the key is nowhere in any table, and reports -EEXIST only if it is somewhere |
| Rhashtable.AddInv | linux/rhashtable.c:534-581 | An insert may link its object although a later table was attached meanwhile: nobody with its key has passed the bucket it holds |
| Rhashtable.PublishInv | linux/rhashtable.c:220-268 | The moment an entry is in the new chain and still reachable from the old one loses and doubles nothing, because it is the last of the old chain |
| Rhashtable.AttachInv | linux/rhashtable.c:291-306 | Attaching a new last table |
| Rhashtable.NextTrack | include/linux/rhashtable.h:573-611 | Following a next pointer, even one that now leads into another table's chain, leaves every match still ahead |
| Rhashtable.EndTrack | include/linux/rhashtable.h:573-611 | At its own bucket's nulls marker every match is in a later table |
| Rhashtable.LookupComplete | include/linux/rhashtable.h:573-611 | A lookup that finds nothing began when nothing with its key was in the table |
| Rhashtable.LookupSound | include/linux/rhashtable.h:573-611 | A lookup that stands at an object stands at one in the table |
| Rhashtable.LookupOne | linux/rhashtable.c:483-532 | The locked walk sees exactly the bucket's chain, and the elasticity left says how long it is |
| RhashtableRuns.RunInv | linux/rhashtable.c:220-623 | Every run keeps the invariant and every object |
| RhashtableRuns.ReadReturns | include/linux/rhashtable.h:573-611 | A lookup's next read can always be made; it goes on, or returns an object of its key that is in the table and is the match there was at its start if there was one, or returns NULL and there was none |
| RhashtableRuns.LookupReturns | include/linux/rhashtable.h:573-611 | and so over any run of inserts, attaches and rehash writes between its start and its return |
| RhashtableRuns.LookupAlone | include/linux/rhashtable.h:573-611 | Between moves of the rehasher a lookup left alone returns, and returns NULL exactly if no object has the key |
| RhashtableRuns.VisitReturns | linux/rhashtable.c:483-581 | When a visit waits, goes on to the next table, starts again, takes the bucket for its object, returns the object that has the key, or returns -E2BIG |
| RhashtableRuns.AddReturns | linux/rhashtable.c:534-581 | The object becomes the first of its bucket, nobody else had its key, and nothing else changes |
| RhashtableRuns.InsertReturns | linux/rhashtable.c:583-655 | Over any run: an insert that succeeds put its object in and no object had its key when it began; one that returns an object did not, and that object has the key; -E2BIG means full and absent |
| RhashtableRuns.AttachIs | linux/rhashtable.c:291-306 | A new table can be attached at any time; it becomes the last, empty, and nothing else changes |
| RhashtableRuns.RehashCloser | linux/rhashtable.c:220-345 | While a later table waits and no insert holds a bucket the rehasher's next write can be made and brings it closer to its end |
| RhashtableRuns.RehashEnds | linux/rhashtable.c:308-345 | so left alone it ends with ht->tbl the last table and every object in it |
| IdaTree.ZeroWord | c_src/ida.c:70-93 | A zero word has no free id below it, at any height |
| IdaTree.GrownWf | c_src/ida.c:122-166 | A tree grown by one level keeps: an interior bit is set iff the child word is not zero |
| IdaTree.GrownFree | c_src/ida.c:122-166 | and changes no id's status |
| IdaAlloc.NodesUpToLevel | c_src/ida.c:27-36 | The number of nodes above a level |
| IdaAlloc.BitRange | c_src/ida.c:173-188 | The bits of a node whose spans meet [min, max], or none |
| IdaAlloc.CopyTree | c_src/ida.c:139-160 | Copying level by level into a larger array makes the old tree the leftmost subtree of the new |
| IdaAlloc.Ida.constructor | c_src/ida.c:108-113 | An empty allocator, every id free |
| IdaAlloc.Ida.Take | c_src/ida.c:215-225 | Allocates exactly this id, clearing the bits of subtrees that become full |
| IdaAlloc.Ida.AllocDescend | c_src/ida.c:190-239 | Takes the least free id in [min, max] below a node, -ENOSPC exactly if there is none, with the retry over later bits |
| IdaAlloc.Ida.Grow | c_src/ida.c:122-166 | One more level with no id's status changed, or an error and no change |
| IdaAlloc.Ida.AllocLocked | c_src/ida.c:241-273 | The least free id in [min, max]. Unless memory fails: -ENOSPC if and only if all are taken, a BUG_ON if and only if the least free one exceeds INT_MAX. The tree grows only as far as ids in range need, -ENOMEM comes exactly when one more level is needed and every allocation granted was used, and six suffice; the grow loop terminates |
| IdaAlloc.AboveIntMax | c_src/ida.c:214 | An empty allocator asked for ids from 2^31 up trips the BUG_ON |
| IdaAlloc.CapacityGap | c_src/ida.c:264-267 | No tree has between 2^30 and 2^36 ids, so the loop stops at its first capacity test and the second never decides |
| IdaAlloc.Ida.AllocBatch | c_src/ida.c:286-305 | The ids returned are the smallest free ones in order, and why it stopped short is true |
| IdaAlloc.Ida.Free | c_src/ida.c:307-334 | Frees exactly this id; a BUG_ON fires if and only if the id is not allocated |
| IdaAlloc.Ida.FindFirst | c_src/ida.c:336-353 | The least allocated id, or -1 iff there is none |
| SortBits.LsBitIs | linux/sort.c:218 | size & -size in an unsigned int is the lowest set bit, or 0 if that lies above the low 32 |
| SortBits.LowBitHigh | linux/sort.c:218 | which is when size is a multiple of 2^32 |
| SortBits.ParentIs | linux/sort.c:184-190 | The branch-free parent of element j is element (j-1)/2, for every size that is not such a multiple |
| SortBits.ParentIff | linux/sort.c:184-190 | For any size it is that element's offset if and only if the size is not such a multiple or j is odd |
| SortBits.ParentBroken | linux/sort.c:184-190 | For such a multiple it is half the offset of the element before j |
| Sort.RootGreatest | linux/sort.c:236-249 | The root of a heap is not below any element |
| Sort.FindLeaf | linux/sort.c:265-268 | The way down along best children to a leaf, one comparison a level |
| Sort.Backtrack | linux/sort.c:270-273 | Back up to the place where the sifted element belongs, unless parent() leads to an offset at which no element starts |
| Sort.ShiftIn | linux/sort.c:274-277 | Rotates the path: a permutation; the same reservation |
| Sort.RotatedHeap | linux/sort.c:265-277 | and the rotated path is a heap again |
| Sort.Sift | linux/sort.c:265-277 | One turn of the outer loop's body restores the heap and permutes; it goes astray if and only if parent() does at some element of the path |
| Sort.SortR | linux/sort.c:211-279 | For every comparison that is a total preorder the result is a sorted permutation unless the sort goes astray, which it never does for sizes other than multiples of 2^32, nor with at most two elements; elements of size 0 are left alone |
| Sort.SortsAstray | linux/sort.c:211-279 | For every multiple of 2^32 and every number of elements from three on some array sends it astray |
| Genradix.StepInv | linux/generic-radix-tree.c:22-84 | Every step of any number of concurrent allocators keeps the tree, links each node once and moves no linked node |
| Genradix.RunInv | linux/generic-radix-tree.c:22-84 | in every run |
| Genradix.SlotForEver | linux/generic-radix-tree.c:22-84 | A slot once returned stays the slot of its offset through all later growth |
| Genradix.SameSlot | linux/generic-radix-tree.c:22-84 | Two calls return the same slot if and only if they ask for the same page |
| Genradix.Lookup | include/linux/generic-radix-tree.h:192-209 | Finds the page's node iff it is linked |
| GenradixRuns.RunNoLeak | linux/generic-radix-tree.c:22-84 | In every run each node in memory is linked in the tree or is the spare of one call: a lost cmpxchg leaks nothing |
| GenradixRuns.OverStays | linux/generic-radix-tree.c:22-84 | What a call returned is final |
| GenradixRuns.EdgesAre | linux/generic-radix-tree.c:22-48 | A call begins with the root of the moment, and fails only where it needs a node and has none |
| GenradixRuns.CallGoes | linux/generic-radix-tree.c:22-84 | A call that has memory can always make its next access, and gets closer to its end by it |
| GenradixRuns.AllocEnds | linux/generic-radix-tree.c:22-84 | so from any reachable state a call for any page can be brought to return that page's node |
| GenradixIter.RunAddressable | linux/generic-radix-tree.c:22-84 | After any run of calls for pages that have an offset the tree is at most ten deep and all its pages have one, which the iterators rely on |
| GenradixIter.IterPeek | linux/generic-radix-tree.c:86-136 | The first present page at or after the cursor, skipping none, or none and then there is none; offset and position advance together |
| GenradixIter.IterPeekPrev | linux/generic-radix-tree.c:139-194 | The mirror image |
| GenradixIter.SkipAbsent | linux/generic-radix-tree.c:114-130 | What walking over missing children passes over is absent; the end of the offset range ends the iteration |
| GenradixIter.SkipAbsentPrev | linux/generic-radix-tree.c:173-188 | The same backwards |
| Xxhash.Xxh64 | linux/xxhash.c:172-236 | The one-shot loops compute the XXH64 algorithm |
| Xxhash.RunStripes | linux/xxhash.c:185-194 | All whole stripes and no more |
| Xxhash.Finish | linux/xxhash.c:209-235 | The tail by words, a half word and bytes, then the avalanche |
| Xxhash.StripesMore | linux/xxhash.c:270-335 | Hashing more input after a kept tail is hashing the concatenation |
| Xxhash.State.constructor | linux/xxhash.c:256-268 | The state of the empty string |
| Xxhash.State.Update | linux/xxhash.c:270-335 | The state after data becomes the state after data and input: lanes of the whole stripes, and in the buffer exactly the unconsumed tail, shorter than 32 bytes |
| Xxhash.State.Digest | linux/xxhash.c:337-389 | The hash of everything taken in |
| Xxhash.HashChunks | linux/xxhash.c:256-389 | For every seed and every way of cutting the input, streaming equals one-shot |
| XxhashValues.HashEmpty | linux/xxhash.c:172-236 | Which hash it is: XXH64 of the empty string with seed 0 is 0xef46db3751d8e999 |
| XxhashValues.HashA | linux/xxhash.c:172-236 | of "a" 0xd24ec4f1a98c6e5b |
| XxhashValues.HashAbc | linux/xxhash.c:172-236 | of "abc" 0x44bc2cf5ad770999 |
| XxhashValues.HashCounting | linux/xxhash.c:172-236 | and of the bytes 0 to 44, through a stripe, the merge, and a tail of a word, a half word and a byte, 0x10fdd84d6409abdf |
| XxhashMix.RoundInjective | linux/xxhash.c:156-162 | A round is injective in the accumulator and in the input |
| XxhashMix.MergeRoundInjective | linux/xxhash.c:164-170 | so is a merge round in the accumulator and in the lane |
| XxhashMix.AvalancheInjective | linux/xxhash.c:229-235 | and the avalanche |
| XxhashMix.TailInjective | linux/xxhash.c:209-227 | and the tail, in the state it starts from, for every tail |
| XxhashMix.SeedInjective | linux/xxhash.c:172-236 | so different seeds never give one short input the same hash |
| XxhashMix.WordsDiffer | linux/xxhash.c:172-236 | nor do two short inputs that differ only in their first word |
| Mempool.StepOwned | linux/mempool.c:298-488 | No element is ever in two hands |
| Mempool.StepSafe | linux/mempool.c:298-357 | With one resizer, curr_nr <= min_nr <= array length, and no write passes the array |
| Mempool.RunSafe | linux/mempool.c:122-138 | so add_element's BUG_ON never fires, in any run |
| Mempool.StepBound | linux/mempool.c:298-357 | For any number of resizers: within the bounds no step overruns the array, and the next state is within them if and only if the step is not the end of a shrink to more than the array in use by then holds |
| Mempool.RunOverrun | linux/mempool.c:298-357 | so a run that overruns the array has such a step in it |
| Mempool.TwoResizers | linux/mempool.c:298-357 | A run in which a shrink, freeing an element, is overtaken by a shrink and a growth, and a later fill writes past the array |
| Mempool.StepReserve | linux/mempool.c:437-488 | Without resize, pool and outstanding elements make up at least min_nr after every step, the unlocked read of curr_nr included |
| Mempool.RunReserve | linux/mempool.c:374-488 | so a caller that waits on an empty pool has min_nr elements still to come back |
| MempoolRuns.TakeIs | linux/mempool.c:394-401 | Taking from the pool waits exactly while it is empty; otherwise one of its elements goes to the caller and nothing else changes |
| MempoolRuns.GiveIs | linux/mempool.c:478-487 | The locked half of a free gives the element to the pool exactly while the pool is below its minimum, and else to the system |
| MempoolRuns.ReadIs | linux/mempool.c:477-487 | The unlocked half sends it to the lock or to the system by the same test |
| MempoolRuns.SwapIs | linux/mempool.c:325-336 | A growth overtaken by one at least as large drops its array; any other puts it in place |
| MempoolRuns.OthersAre | linux/mempool.c:298-488 | When the allocator, a caller of mempool_free and a resize that finds no memory may act, and what then changes |
| MempoolRuns.TakeThenFree | linux/mempool.c:374-488 | Taking an element and freeing it leaves the pool as it was, in the same order |
| MempoolRuns.FreeThenTake | linux/mempool.c:374-488 | and so does freeing one below the minimum and taking it |
| MempoolRuns.AllocServed | linux/mempool.c:374-488 | The promise, in every run without resizing: an allocation takes from the pool, or min_nr elements are out and the next free of any of them serves it |
| MempoolRuns.RunTotal | linux/mempool.c:298-488 | In every run, with any number of resizers, no element is lost or made up: those taken from the allocator less those given back are in the pool, with callers, on their way out, or with resizers |
| MempoolRuns.ResizeAlone | linux/mempool.c:298-357 | A resize that runs alone keeps the lowest elements and frees the others, or keeps all and adds as many as are missing |
| Percpu.TakePartition | linux/percpu.c:361-371 | Taking the front of a free run keeps live blocks and free runs a partition of [0, dynamic_used) |
| Percpu.BumpPartition | linux/percpu.c:373-385 | Bump allocation keeps it |
| Percpu.FreePartition | linux/percpu.c:434-475 | Freeing keeps it |
| Percpu.RoomTest | linux/percpu.c:373-374 | The test for fresh space is right if and only if the size_t sum does not wrap |
| Percpu.Arena.constructor | linux/percpu.c:66-118 | An empty arena |
| Percpu.Arena.SizesResize | linux/percpu.c:121-136 | The size table covers the requested grains or is unchanged |
| Percpu.Arena.DynamicAlloc | linux/percpu.c:357-386 | The front of the first free run that fits, else fresh space: a block disjoint from every live one; fails only if no free run fits and there is no fresh space or no memory. A request whose sum wraps gets the end of the arena and lowers dynamic_used; one for nothing changes nothing |
| Percpu.Arena.ZeroChunks | linux/percpu.c:419-422 | The memset is zero on the block in every chunk and changes no other byte, or passes the end of a chunk |
| Percpu.Arena.Alloc | linux/percpu.c:388-427 | The new block is zero in every chunk and no other byte of any chunk changes, if used and the rounded size do not wrap. If they do, the request is granted at the end of the arena and the partition is lost; above 2^64 - 8 it rounds to nothing and gets an offset that is not its own |
| Percpu.AllocWraps | linux/percpu.c:388-427 | 2^64 - 8 bytes are granted with 8 in use, and the arena counts as empty |
| Percpu.AllocNothing | linux/percpu.c:401 | 2^64 - 1 bytes are granted as none |
| Percpu.Arena.AddChunk | linux/percpu.c:304-319 | A thread that joins after allocations finds every live block zero |
| Percpu.Arena.Free | linux/percpu.c:434-475 | The block returns whole to the free list; a BUG_ON fires exactly outside the size table; otherwise live blocks and free runs stay disjoint if and only if the pointer starts a live block or no live block starts in its grain |
| Percpu.FreeTwice | linux/percpu.c:434-475 | A second free goes unnoticed and leaves an empty run, which names no byte |
| Percpu.FreeShifted | linux/percpu.c:434-475 | A free inside a block's first grain goes unnoticed and puts live bytes on the free list |
| PercpuSlots.StepInv | linux/percpu.c:232-333 | Every slot belongs to one live thread or is free once; published slots have initialised chunks; free_slots is not overrun |
| PercpuSlots.RunInv | linux/percpu.c:232-333 | in every run of thread starts and exits |
| PercpuSlots.AfterRun | linux/percpu.c:257-333 | Two live threads never share a slot, a lock-free reader below nr_cpus finds an initialised chunk, and a thread is turned away if and only if 256 others are alive |
| PercpuSlots.StartRuns | linux/percpu.c:257-333 | A thread that starts while fewer than 256 are alive gets a slot that nobody has: the one given back last, or the next one, published with an initialised chunk; the others keep theirs |
| PercpuSlots.ExitThenStart | linux/percpu.c:232-255 | The next thread to start after an exit takes the slot given back, and the rest is as it was |
| Semaphore.StepInv | linux/semaphore.c:49-191 | Count, wait list and waiters agree after every locked section |
| Semaphore.RunInv | linux/semaphore.c:49-191 | in every run |
| Semaphore.Conserved | linux/semaphore.c:49-134 | Over the run itself: count = initial + the calls of up - the calls that returned with the semaphore - the waiters let go that are on their way back, modulo 2^32, and exactly as long as initial + ups fits |
| Semaphore.NoBarging | linux/semaphore.c:49-113 | While anybody waits nobody acquires at once |
| Semaphore.Fifo | linux/semaphore.c:149-191 | Whoever joined before a waiter that was let go was let go earlier or timed out |
| Semaphore.WaiterEnds | linux/semaphore.c:149-172 | A waiter that timed out was never let go and is off the list, down never times out, and one let go is runnable and returns 0 whatever is left of its time |
| Semaphore.ReturnFinal | linux/semaphore.c:149-191 | Nothing happens to a waiter after it returned |
| Semaphore.TrylockIs | linux/semaphore.c:75-86 | Acquires iff 0 < count <= 2^31: a larger count reads as negative |
| Semaphore.TrylockRefuses | linux/semaphore.c:75-86 | as 2^31 + 1 does |
| Semaphore.DownIs | linux/semaphore.c:49-113 | down takes one from a positive count; otherwise it joins the list behind everybody, or without time gives up and leaves the list as it was |
| Semaphore.UpIs | linux/semaphore.c:123-134 | up lets go the waiter that has waited longest and leaves the count, or with nobody waiting adds one to it |
| Semaphore.ResumeIs | linux/semaphore.c:149-172 | A waiter that comes back returns 0 if it was let go, leaves the list if its time is over, and else sleeps again where it was |
| Semaphore.ComesBack | linux/semaphore.c:149-172 | It comes back once it is runnable, with any part of a limited time left, or all of an unlimited one |
| Codegen.RegexEscape | fs/codegen.rs:113-122 | Every metacharacter is escaped, every other character kept |
| Codegen.EscapeParses | fs/codegen.rs:113-122 | An escaped character reads back as that character, for every character |
| Codegen.ClassParses | fs/codegen.rs:159-162 | The class text reads back as its characters: sorted and deduplicated, no two make a set operation, and the hyphen is last |
| Codegen.NotPrefixed | fs/codegen.rs:154-172 | The loop over the first characters builds the text that the following lemmas are about, and terminates |
| Codegen.Texts | fs/codegen.rs:154-172 | The texts for "." and for "ab" |
| Codegen.TextParses | fs/codegen.rs:154-172 | The text is a well-formed group, wherever it is put |
| Codegen.NotPrefixedMatches | fs/codegen.rs:154-172 | For every list with a prefix that is not empty, and every string: the regex matches exactly if no such prefix starts the string, it starts no such prefix, and no newline follows the character with which it leaves them |
| Codegen.NothingToExclude | fs/codegen.rs:154-172 | For every other list the text is not a regex |
| Codegen.PromiseHolds | fs/codegen.rs:149-153 | The documented meaning, "doesn't start with one of the prefixes", holds for a string that starts with none exactly if the string does not stop inside a prefix and no newline follows the character with which it leaves them; with an empty prefix in the list, exactly if the string is not matched |
| Codegen.EmptyIgnored | fs/codegen.rs:154-172 | which b is, by the text for the prefixes of which one is empty and one is a |
| Codegen.StopsInside | fs/codegen.rs:149-172 | uapi does, of uapi/, and is not matched |
| Codegen.NewlineHides | fs/codegen.rs:149-172 | and x with a newline after it is not matched either |
| Codegen.BlocklistMatches | fs/codegen.rs:145-147 | The blocklist regex matches exactly the paths under the directory, however it is spelled, whose rest leaves every prefix and has no newline after that |

## Left out

- The constant tables of raid/tables.c are modelled by formulas; only the entries that raid/raid.c prints are compared with the formulas (GeneratorTable.Printed).
- raid_gen1_int32, raid_gen2_int32, raid_genz_int32 and x2_32, d2_32: the same loops and masks on half-width words.
- raid/x86z.c and the choice of implementation by CPU features: assembly; only the C forms are modelled.
- raid_selftest, raid/test.c, raid/tag.c, raid/memory.c, raid/helper.c, permutations in raid/combo.h: finite tests and small helpers.
- Check.RaidCheck: the blocks are read as values, since it writes none.
- Workqueue: drain_workqueue and destroy_workqueue, and that flush_work and the cancels eventually return; update in place of the shared lists is modelled on values.
- Workqueue.StepInv: any armed timer may fire at any time, and timer_seq does not wrap; TimerHeap and TimerSync cover the order and the wrap.
- TimerHeap.Timers.ModTimer: reallocation of the heap succeeds; the order of the heap is stated for expiries in one half-range window.
- TimerSync.SyncReturns: a callback that waits for itself, and that the sleeper is scheduled, are not modelled.
- Rhashtable: the inlined fast-path insert, removal, nested tables, rhlist mode, walkers, RCU freeing, the deferred worker's choice of size, failed table allocations, and a NULL key; chains and locks are values of the state.
- IdaAlloc: words are sets of bits; 32-bit machines are not modelled; ida_destroy and ida_verify.
- Sort.SortR: arrays of 2^63 bytes or more; the swap routines; what the code does once it is astray; an element is one array cell addressed by its byte offset.
- Genradix: preallocation and freeing of the tree; cmpxchg loops are modelled on values.
- GenradixIter.IterPeek: the tree does not change during the call.
- Xxhash.State.Update: the error return for a NULL input; the 32-bit hash and the copy functions.
- Mempool: mempool_init_node is represented by the state it leaves; poisoning, KASAN and mempool_exit; the elements array is a sequence with a size.
- Percpu.Arena.Free: pushing on the free list succeeds.
- Percpu.Arena.Alloc: for requests that wrap, what the writes past the size table or a chunk destroy.
- PercpuSlots: registration callbacks are one initialisation step; module exit.
- Semaphore: fairness of the scheduler; the lock and the list are values of the state.
- Codegen: run_bindgen and its file handling.
- Option parsing, superblock and device I/O, FUSE, crypto shims, kthreads, wait queues, shrinkers, siphash, crc64 and the Rust commands in src/: I/O, glue or easier than what is kept.
