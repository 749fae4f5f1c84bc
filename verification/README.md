# crnlib pixel formats and task pool, modelled in Dafny

This project models two sequential cores of crnlib.

**Pixel-format metadata** (`crnlib/crn_pixel_format.cpp`). This covers:

- the table of 23 real pixel formats and lookup by index;
- the display names of `pixel_format` and `crn_format` values;
- the component flags of each format;
- the two conversions between the enumerations.

Both enumerations are nullary datatypes. Each has one extra constructor (`Unlisted`, `CrnUnlisted`) that stands for any value the switches do not name. A component-flag word is a set of `CompFlag`.

**Task-pool bookkeeping** (`crnlib/crn_threading_pthreads.cpp`). The pool is an immutable record with these fields: thread count, `submitted`, `completed`, exit flag, bounded task stack, and capacity. `init`, `deinit`, both `queue_task` overloads, `process_task` and the draining loop of `join` are pure transitions over that record.

Worker threads appear only in a trace system (`System`). A worker's `process_task` is split into two steps: taking a task off the stack, and finishing it later. `join` drains the stack and then waits while the workers finish what they hold. Over any trace, the invariant `completed + queued + running == submitted` holds. `completed <= submitted` follows from it.

`deinit` on a pool with zero workers skips `join` and clears the stack. The tasks still queued are then never run, although they were counted as submitted. The model keeps this behaviour and states it as `DeinitWithoutWorkersDropsQueue`.

The same source file has three small arithmetic helpers, also modelled here:

- the processor-count clamp of `crn_threading_init`;
- the chunked `crn_sleep`;
- the millisecond-to-`timespec` split of `semaphore::wait`. The Windows `crn_sleep` uses the same split, at `crnlib/crn_threading_pthreads.cpp:69-71`.

Some external inputs become parameters:

- the processor count the OS reports;
- how many `pthread_create` calls succeed (`spawnLimit`);
- the capacity of the task stack.

Two constants come from `crn_threading_pthreads.h`, which is not part of this model:

- `cMaxThreads` is taken as 16;
- `cTaskFlagObject` is taken as the value 1.

Files: `option.dfy` (module `Options`), `pixel_format.dfy` (module `PixelFormat`), `threading.dfy` (module `Threading`), `task_pool.dfy` (module `TaskPool`).

## Model

| member | source | states |
|---|---|---|
| PixelFormat.NumFormats | crnlib/crn_pixel_format.cpp:32-62 | the format count is 23, the length of the table |
| PixelFormat.IndexOf | crnlib/crn_pixel_format.cpp:32-57 | every table format has a position at which the table holds it |
| PixelFormat.PixelFormatByIndex | crnlib/crn_pixel_format.cpp:64-68 | an index below the count yields a table format, never INVALID, whose position is that index |
| PixelFormat.TableIsComplete | crnlib/crn_pixel_format.cpp:32-57 | the table holds exactly the named formats other than INVALID |
| PixelFormat.TableEntriesDistinct | crnlib/crn_pixel_format.cpp:32-57 | no format appears twice in the table |
| PixelFormat.IndexRoundTrip | crnlib/crn_pixel_format.cpp:64-68 | looking up a format's position gives the format back |
| PixelFormat.PixelFormatString | crnlib/crn_pixel_format.cpp:70-127 | the name is "?" exactly for an unnamed value, and "INVALID" exactly for INVALID |
| PixelFormat.ParsePixelFormatString | crnlib/crn_pixel_format.cpp:70-127 | a name that parses is the name of the format it parses to |
| PixelFormat.PixelFormatStringRoundTrip | crnlib/crn_pixel_format.cpp:70-127 | every named format reads back from its name |
| PixelFormat.PixelFormatStringInjective | crnlib/crn_pixel_format.cpp:70-127 | distinct named formats have distinct names |
| PixelFormat.CrnFormatString | crnlib/crn_pixel_format.cpp:129-168 | the name is "?" exactly for an unlisted crn_format |
| PixelFormat.ParseCrnFormatString | crnlib/crn_pixel_format.cpp:129-168 | a name that parses is the name of the crn_format it parses to |
| PixelFormat.CrnFormatStringRoundTrip | crnlib/crn_pixel_format.cpp:129-168 | each of the 15 crn_formats reads back from its name |
| PixelFormat.CrnFormatStringInjective | crnlib/crn_pixel_format.cpp:129-168 | the 15 crn_format names are pairwise distinct |
| PixelFormat.ComponentFlags | crnlib/crn_pixel_format.cpp:170-271 | NormalMap exactly for 3DC, DXN, DXT5_xGBR, DXT5_AGBR, DXT5_xGxR; LumaChroma exactly for DXT5_CCxY; among table formats Grayscale exactly for L8 and A8L8; red valid except for DXT5A and A8 |
| PixelFormat.AlphaOnlyFormats | crnlib/crn_pixel_format.cpp:204-253 | the flags are alpha-only exactly for DXT5A and A8 |
| PixelFormat.UnlistedFlags | crnlib/crn_pixel_format.cpp:174-268 | a format without a case yields R, G, B, A valid plus Grayscale |
| PixelFormat.ColourFlagsTogether | crnlib/crn_pixel_format.cpp:170-271 | red, green and blue validity are always set together |
| PixelFormat.BestCrnFormat | crnlib/crn_pixel_format.cpp:273-339 | the result is a listed crn_format and never DXT3; unlisted formats give DXT1; R8G8B8, L8 and DXT1A give DXT1; DXT2, DXT4, A8R8G8B8, A8 and A8L8 give DXT5 |
| PixelFormat.CrnToPixelFormat | crnlib/crn_pixel_format.cpp:341-382 | INVALID exactly for an unlisted crn_format; a table format otherwise |
| PixelFormat.DecodeKeepsName | crnlib/crn_pixel_format.cpp:341-382 | each listed crn_format decodes to the pixel format of the same name, except DXN_XY to DXN and DXN_YX to 3DC |
| PixelFormat.CrnToPixelFormatInjective | crnlib/crn_pixel_format.cpp:341-382 | distinct listed crn_formats decode to distinct pixel formats |
| PixelFormat.CrnFormatNearRoundTrip | crnlib/crn_pixel_format.cpp:273-382 | decoding then choosing the best crn_format returns the input, except DXT3, which returns DXT5 |
| PixelFormat.PixelFormatRoundTrip | crnlib/crn_pixel_format.cpp:273-382 | a pixel format survives the round trip through its best crn_format iff some crn_format other than DXT3 decodes to it |
| PixelFormat.AlphaMatchesBestFormat | crnlib/crn_pixel_format.cpp:170-339 | a table format other than DXT1A carries AValid exactly when its best crn_format has an alpha block (DXT5, DXT5_AGBR, DXT5A, ETC2A, ETC2AS); DXT1A carries AValid and maps to DXT1 |
| PixelFormat.BestCrnFormatStable | crnlib/crn_pixel_format.cpp:273-382 | the best crn_format of a format's decoded best crn_format is that same crn_format |
| Threading.ToInt32 | crnlib/crn_threading_pthreads.cpp:51 | narrowing a long to int stays in int range and agrees with the input modulo 2^32 |
| Threading.ToInt32Identity | crnlib/crn_threading_pthreads.cpp:51 | narrowing leaves a value that fits in an int unchanged |
| Threading.ProcessorCountPosix | crnlib/crn_threading_pthreads.cpp:51 | the processor count is at least 1; it is the reported count taken modulo 2^32 when that residue is a positive int, and 1 otherwise, so the error value -1 gives 1 |
| Threading.ProcessorCountWindows | crnlib/crn_threading_pthreads.cpp:49 | the processor count is at least 1 and equals the reported count unless that is 0 |
| Threading.ProcessorCountPosixNarrows | crnlib/crn_threading_pthreads.cpp:51 | a reported count of 2^32 + 4 reads as 4, and 2^32 reads as 1 |
| Threading.SleepChunks | crnlib/crn_threading_pthreads.cpp:74-79 | the sleep ends; every chunk is between 1 and 1000 ms; all chunks but the last are 1000 ms; the chunks sum to the request and number ceil(ms / 1000) |
| Threading.MillisToTimespec | crnlib/crn_threading_pthreads.cpp:217-219 | the timespec is valid (nanoseconds below 10^9), a whole number of milliseconds, and reads back as the input |
| Threading.MillisToTimespecUnique | crnlib/crn_threading_pthreads.cpp:217-219 | any valid whole-millisecond timespec that reads back as ms is the computed one |
| Threading.SemaphoreWaitRequest | crnlib/crn_threading_pthreads.cpp:208-221 | an unbounded wait exactly for cUINT32_MAX; otherwise a valid interval that reads back as the timeout and is the whole-millisecond split of it |
| TaskPool.QueueTask | crnlib/crn_threading_pthreads.cpp:413-418 | submitted always grows by 1; a push into a full stack fails, leaves the stack unchanged and counts one completion; otherwise the task is pushed on top; both accounting invariants are kept |
| TaskPool.QueueCallback | crnlib/crn_threading_pthreads.cpp:403-423 | the call succeeds exactly when the stack has room; a success pushes a record with flags 0 that calls that callback with that data word and pointer and changes nothing but the submission count and the stack; a failure changes nothing but the submission and completion counts, each by one |
| TaskPool.QueueObject | crnlib/crn_threading_pthreads.cpp:426-446 | the call succeeds exactly when the stack has room; a success pushes a record with the object flag that runs that object with that data word and pointer and changes nothing but the submission count and the stack; a failure changes nothing but the submission and completion counts, each by one |
| TaskPool.PopTask | crnlib/crn_threading_pthreads.cpp:470 | pop fails exactly on an empty stack; otherwise it removes the top task and changes nothing else |
| TaskPool.ProcessTask | crnlib/crn_threading_pthreads.cpp:448-464 | the flag-based dispatch makes the call the task's variant intends with its data unchanged; completed grows by exactly 1; it signals iff completed reaches submitted |
| TaskPool.ProcessTaskKeepsAccounting | crnlib/crn_threading_pthreads.cpp:448-464 | processing a task that was queued and popped keeps completed + queued <= submitted |
| TaskPool.PopAndProcessKeepsQuiescent | crnlib/crn_threading_pthreads.cpp:470-473 | popping and processing on one thread keeps completed + queued == submitted |
| TaskPool.JoinDrain | crnlib/crn_threading_pthreads.cpp:466-473 | the drain empties the stack; it runs each queued task exactly once, top first; completed grows by the number of tasks run |
| TaskPool.JoinSettles | crnlib/crn_threading_pthreads.cpp:466-485 | with nothing in flight the drain leaves completed == submitted, so the wait loop exits at once |
| TaskPool.Deinit | crnlib/crn_threading_pthreads.cpp:378-401 | no threads, empty stack and both counters 0 afterwards; with workers, the queued tasks run exactly as join's drain runs them and the exit flag ends clear; with no workers nothing runs and the exit flag is left as it was |
| TaskPool.DeinitIdempotent | crnlib/crn_threading_pthreads.cpp:378-401 | deinit twice is deinit once, and the second runs nothing |
| TaskPool.DeinitWithoutWorkersDropsQueue | crnlib/crn_threading_pthreads.cpp:378-401 | with zero workers, deinit clears queued tasks without running them |
| TaskPool.Init | crnlib/crn_threading_pthreads.cpp:347-376 | succeeds iff every requested thread (clamped to cMaxThreads) starts; then the post-deinit pool with min(n, cMaxThreads) threads; on failure the post-deinit state (the exit flag aside, which a second deinit of started workers clears); it runs what the first deinit runs |
| TaskPool.ReinitLikeFresh | crnlib/crn_threading_pthreads.cpp:347-401 | with the exit flag clear, init after deinit gives the same pool as init on a fresh pool, with zero counters and an empty stack |
| TaskPool.FinishAll | crnlib/crn_threading_pthreads.cpp:476-484 | workers finishing the running tasks add exactly that many completions |
| TaskPool.StepKeepsConsistent | crnlib/crn_threading_pthreads.cpp:403-485 | every queue, worker take or finish, join, deinit and init keeps queued + running + completed == submitted and the exit flag clear |
| TaskPool.RunKeepsConsistent | crnlib/crn_threading_pthreads.cpp:403-485 | along any trace from a consistent state, the accounting holds and completed <= submitted |
| TaskPool.FreshPoolAccounted | crnlib/crn_threading_pthreads.cpp:317-326 | every trace from a freshly constructed pool keeps completed <= submitted |
| TaskPool.JoinBalances | crnlib/crn_threading_pthreads.cpp:466-485 | after join, completed == submitted and nothing is queued or running; join keeps the submission count, thread count, exit flag and capacity, and completes exactly the queued and running tasks |
| TaskPool.DeinitStepResets | crnlib/crn_threading_pthreads.cpp:378-401 | the deinit operation lets the workers finish and returns the pool to its freshly constructed state with the same capacity |
| TaskPool.InitStepStarts | crnlib/crn_threading_pthreads.cpp:347-376 | the init operation resets the pool and leaves it with min(n, cMaxThreads) workers when every spawn succeeds, and none otherwise |
| TaskPool.SubmitStepQueues | crnlib/crn_threading_pthreads.cpp:403-423 | a submission pushes the task when the stack has room and counts it as submitted and complete otherwise; the running tasks are untouched |
| TaskPool.Step | crnlib/crn_threading_pthreads.cpp:403-510 | no operation changes the capacity; a submission adds one to the submission count and leaves the running tasks alone; a worker's take or finish leaves the submission count alone; join, deinit and init leave nothing running |
| TaskPool.WorkerTakeMovesTop | crnlib/crn_threading_pthreads.cpp:504-506 | a worker pops the top of the stack into its running set and changes no counter |
| TaskPool.WorkerFinishCompletesOne | crnlib/crn_threading_pthreads.cpp:448-463 | a worker finishing a running task adds exactly one completion, changes nothing else in the pool, and removes exactly that task from the running set |
| TaskPool.JoinWithoutWorkers | crnlib/crn_threading_pthreads.cpp:466-485 | with zero workers, the drain alone leaves completed == submitted and an empty stack, so the wait loop never waits |
| TaskPool.LastCompletionSignals | crnlib/crn_threading_pthreads.cpp:459-463 | finishing the last outstanding task signals the all-complete semaphore |

## Left out

- Real concurrency is not modelled: pthread creation and joining, the worker loop `thread_func`, atomics and memory ordering, and interleavings finer than one `Op`. Workers exist only as the take and finish steps of `System`.
- Semaphores are not modelled. crnlib's semaphore wrappers `release` and `try_release` (`crnlib/crn_threading_pthreads.cpp:154-206`) are left out, as is `wait` beyond the request it computes (`Threading.SemaphoreWaitRequest`), and so are the OS calls beneath them (`sem_open`, `sem_post`, `sem_wait`, `sem_timedwait`), including the fatal path of `release`. So are the wake-ups `queue_task` and `deinit` post. `ProcessTask` reports only whether it would signal.
- Threading.SemaphoreWaitRequest: the model stops at the interval `semaphore::wait` computes. `sem_timedwait` reads its argument as an absolute deadline, so this relative interval has already passed when it is used; that OS behaviour is outside the model.
- Spinlocks and the pthread mutex, including its debug lock count, are left out. They are mutual-exclusion primitives that the pool's own paths do not use.
- `crn_get_current_thread_id` (`crnlib/crn_threading_pthreads.cpp:55-64`), crnlib's wrapper around `pthread_self`, is not modelled: it only forwards the OS thread identity. `sysconf`, `GetSystemInfo`, `usleep` and `pthread_delay_np` are OS calls. Their results become parameters, and the sleep returns its chunk lengths instead of sleeping.
- `crnlib/crn_colorized_console.h` declares console output only and has no logic to model.
- The task stack's own code is not part of this model. It is treated as a last-in first-out sequence with a fixed capacity `cap`. Any other reason its push or pop could fail is not modelled.
- TaskPool.QueueTask: `submitted` and `completed` are unbounded here, but they are 32-bit atomic counters in the source. Wrap-around after 2^31 submissions without a `deinit` is not modelled.
- Debug-only `CRNLIB_ASSERT` checks do nothing in release builds and are not modelled. These are a null callback or object, a thread count above `cMaxThreads`, and an unnamed format in a switch. `PixelFormatByIndex` keeps the index bound as a precondition, because an index out of range reads past the table.
- TaskPool.ReinitLikeFresh: stated only for a pool whose exit flag is clear. Only `deinit` raises the flag, and it lowers it again before returning, so every pool the modelled operations reach has it clear (`Consistent` includes this).
- TaskPool.JoinDrain: only the draining half of `join` is a pool transition. Its wait loop depends on other threads, so it appears only in `System`, where the workers finish their running tasks before `join` returns.
