# bitbox-torture: the fill run

`bitbox-torture` is a stress tool for the libmdbx storage engine. Its `fill`
subcommand (`fill_database`) does five things in order:

1. It checks whether something already exists at the target path. Without
   `-y` it keeps it and stops. With `-y` it tries to delete the path with
   `remove_file` and ignores any error.
2. It opens the environment. Commits are durable, or unsynced under `--yolo`.
3. It creates the `"main"` table in a transaction of its own.
4. It inserts `n` random items in transactions of at most `batch_sz` puts.
   Each item is a 32-byte key and then a `value_sz`-byte value, drawn from a
   PCG64 generator with a fixed seed. A progress report follows every batch
   but the last.
5. In `--yolo` mode it flushes the environment once at the end.

The model describes a run by the events it causes:
- filesystem calls, such as removing the database file;
- storage-engine calls: open, begin, create table, put, table statistics,
  commit and sync;
- the lines it prints, namely the "already exists" warning and the progress
  report.

The environment is a set of event positions: the call made as the i-th event
of a run fails exactly when i is in the set. A failing call ends the run in
one of two ways:
- a call the source propagates with `?` makes the function return an error
  (open, create table, commit, sync);
- a call it unwraps panics (begin, put, table statistics).

A failed removal is ignored, as in the source.

The modules are:
- `Config`: the parsed command line, `as_fill_opts`, and the environment
  settings that `open` derives from the command line.
- `Entropy`: the random source. A generator is any function from a seed to
  an endless byte stream. `Pcg64` is a class holding its position in that
  stream, and `FillBytes` overwrites an array with the next bytes.
- `Trace`: events and outcomes. `Run` cuts a script at its first failing
  fatal call.
- `Host`: the `World` class, an event log plus the fixed set of failing
  positions.
- `Batching`: `Schedule`, the batch sizes of the fill loop, and its
  arithmetic.
- `FillSpec`: `Plan`, the script a run follows when nothing fails, and the
  properties of that script.
- `Fill`: `fill_database` as imperative methods.
  - `FillDatabase` allocates the world and the generator and runs the phases
    in order.
  - `FillLoop` and `FillBatch` keep the source's nested loop over the
    mutable `remaining` counter.
  - `PutItem` fills fresh key and value arrays from the generator.
  - Each method is proved against `Plan`: the events and outcome of every run
    are those of `Run(Plan(...), faults)`.

## Model

| member | source | states |
|---|---|---|
| Config.AsFillOpts | src/main.rs:34-39 | The options are present exactly for the `fill` subcommand, and then they are that subcommand's options. |
| Config.OpenConfig | src/main.rs:64-90 | The sync mode is `UtterlyNoSync` exactly when `--yolo` is given, `Durable` otherwise. The fixed settings are 256 tables, a write map, a size range up to 4 TiB, 1 GiB growth, no shrinking and 4096-byte pages. |
| Entropy.Pcg64.constructor | src/main.rs:119 | A new generator produces the stream the generator function gives for the seed, read from its start. |
| Entropy.Drawn | src/main.rs:133-134 | A buffer of `len` bytes advances the stream by `len` rounded up to whole 64-bit words: a multiple of 8, at least `len` and less than `len + 8`. |
| Entropy.Pcg64.FillBytes | src/main.rs:133-134 | The whole buffer receives the next `buf.Length` bytes of the stream, in order. The position then moves past the whole words those bytes came from, dropping the unused bytes of the last one. |
| Trace.FailureOf | src/main.rs:112-160 | A failing call never ends in success. It panics exactly for the unwrapped calls (begin, put, table statistics) and returns an error exactly for the `?` calls (open, create table, commit, sync). |
| Trace.RunOutcome | src/main.rs:104-163 | A run either follows its script to the end with no fatal call failing, or stops right after the first failing fatal call with that call's failure. It ends in success exactly when the script does and no fatal call fails. |
| Trace.CutIgnoresEarlierFaults | src/main.rs:109 | Faults at positions the run has already passed do not change the rest of the run. |
| Host.World.Report | src/main.rs:146-156 | The printed line, like the warning at src/main.rs:106, is appended to the log. Printing never fails (see "Left out"). |
| Host.World.Call | src/main.rs:113-160 | The call is logged, and it fails exactly when its position in the log is one of the world's failing positions. |
| Batching.Schedule | src/main.rs:122-143 | The batch sizes of the fill loop, in order. There is always at least one batch, because with nothing to insert the loop still commits one empty transaction. |
| Batching.ScheduleSum | src/main.rs:127-137 | The batch sizes add up to `n`: every item is put exactly once. |
| Batching.ScheduleBounds | src/main.rs:127-150 | No batch exceeds `batch_sz`, and every batch but the last has exactly `batch_sz` puts, so the "Commit batch_sz items" report is accurate. |
| Batching.ScheduleLast | src/main.rs:127-143 | The last batch holds `n - batch_sz * (k - 1)` items. That is between 1 and `batch_sz` when `n > 0`. With `n == 0` the only batch is empty. |
| Batching.ScheduleLength | src/main.rs:122-143 | With `n > 0` there are `ceil(n / batch_sz)` batches, i.e. `k` batches with `batch_sz * (k - 1) < n <= batch_sz * k`. |
| Batching.LoopPassesMatchSchedule | src/main.rs:136-143 | Counting `remaining` down pass by pass, it is still positive after every pass before the last scheduled batch and zero after it, so the loop makes one pass per batch. |
| Batching.ZeroBatchNeverEnds | src/main.rs:123-137 | With `batch_sz == 0` and items to insert, no number of passes lowers `remaining`: the loop never ends. |
| FillSpec.OffsetProduct | src/main.rs:131-134 | Item j starts `ItemSize(value_sz) * j` bytes into the stream: 32 key bytes plus `value_sz` rounded up to whole words, per item. |
| FillSpec.PutsItems | src/main.rs:131-135 | The k-th put of a run of puts is item `first + k`. |
| FillSpec.StepAgrees | src/main.rs:127-143 | One pass of the modelled fill loop leaves exactly what the countdown of `Batching.RemainingAfter` leaves, so `LoopPassesMatchSchedule` and `ZeroBatchNeverEnds` are about the loop the methods run. |
| FillSpec.LoopStep | src/main.rs:123-157 | One loop pass: a batch of `min(remaining, batch_sz)` puts, then, if items remain, a progress report and the passes for the rest. |
| FillSpec.Plan | src/main.rs:103-164 | The script of a run in which no call fails: removal or warning, open, the table's transaction, the loop passes, and the final flush. Without faults no `?` call fails, so the outcome is never an error; it is a panic exactly when the run gets past the existence check with a subcommand other than `fill`. Its other properties are the `FillSpec.Plan*` lemmas, and `Fill.FillDatabase` is proved against it. |
| FillSpec.PlanPuts | src/main.rs:122-137 | A run that reaches the loop makes exactly `n` puts. The j-th writes a 32-byte key and then a `value_sz`-byte value taken from item j of the stream. A run that does not reach the loop makes no put. |
| FillSpec.PlanTransactions | src/main.rs:115-143 | As many commits as begins: one for the table, then one per batch. That is `1 + ceil(n / batch_sz)` commits for `n > 0`, and for `n == 0` two, the second an empty transaction. |
| FillSpec.PlanSync | src/main.rs:159-161 | The environment is flushed exactly once when `--yolo` is given and the loop is reached, never otherwise. The flush is the last event, right after the last commit. Without `--yolo` the last event is a commit. |
| FillSpec.PlanProgress | src/main.rs:142-156 | There is one progress report per batch except the last. The j-th names `batch_sz`, which is also that batch's size, and `batch_sz * (j + 1)` items inserted so far, i.e. `n - remaining`. |
| FillSpec.PlanLayout | src/main.rs:104-161 | The script proceeds in this order: an optional removal, open, then begin, create "main" and commit in one transaction, then the loop passes starting with a begin, then the optional final flush. |
| FillSpec.KeptDatabase | src/main.rs:104-108 | Without `-y`, an existing database is left untouched whatever the faults: the run only prints its warning and succeeds, with no removal, open, begin or put. |
| FillSpec.RemovalIgnored | src/main.rs:104-113 | With `-y`, the removal is the first event and the open follows it directly. Whether the removal fails makes no difference to the run. |
| FillSpec.PlanReproducible | src/main.rs:119-135 | A run's script depends on the random stream only through the bytes its `n` items take, `ItemSize(value_sz) * n`. |
| Fill.Invoke | src/main.rs:113-160 | A fallible call advances the trace along the script. If it fails, the run's outcome is the script cut at that call. |
| Fill.PutItem | src/main.rs:131-135 | The key and then the value are drawn from the generator, and the put of item j is recorded. The generator advances past that item. A failed put panics. |
| Fill.FillBatch | src/main.rs:124-140 | One pass: begin, up to `batch_sz` puts while items remain, table statistics, commit. `remaining` drops by one per put and ends at `remaining - min(remaining, batch_sz)`. A failing call ends the run with that call's outcome. |
| Fill.FillPass | src/main.rs:124-156 | A batch, then, if items remain, the progress report with the items inserted so far. The trace keeps following the rest of the loop's script. |
| Fill.FillLoop | src/main.rs:122-157 | The loop terminates, with decreasing measure `remaining`, when `batch_sz > 0` or `n == 0`. Without a failure it has produced exactly the loop's scripted events. With one, the run's outcome is the script cut at the failing call. |
| Fill.OpenDatabase | src/main.rs:113-117 | It opens the environment, then begins, creates "main" and commits, following the script. A failing open, create table or commit returns an error, and a failing begin panics. |
| Fill.FillDatabase | src/main.rs:103-164 | For every fault set, the outcome and the events of the run are `Run(Plan(cli, pathExists, gen(FILL_SEED)), faults)`. |

## Left out

- Command-line parsing and defaults (src/main.rs:11-57): a `Cli` value is an already parsed command line.
- libmdbx itself. Open, begin, put, table statistics, commit and sync are events, and their failures come from the fault set. Transaction semantics, the stored data and the geometry's effect are not modelled.
- The generator's internals. PCG64 is an arbitrary function from a seed to the little-endian byte stream of its 64-bit outputs. The rule that a buffer takes whole words (`Entropy.Drawn`) follows the `rand_core` convention for `fill_bytes`, whose code is not part of this model.
- Timings (`Instant`, elapsed times, commit latency) and the text of the printed lines. This includes the `Opening database` line and the pretty-printed table statistics after each batch. The progress report keeps only the two counts it prints.
- Whether the path exists is an input (`pathExists`). Removing it is an event whose failure the source ignores, and its effect on the filesystem is not modelled. In particular, the environment is opened with libmdbx's default layout, in which a database is a directory. `remove_file` cannot delete a directory, so with `-y` an earlier fill's data may stay in place and the new fill writes on top of it. The model lets that removal fail through the fault set and proves the failure changes nothing in the run. It does not model what stays on disk.
- Printing. `eprintln!` and `println!` panic when the write to the terminal fails. The model treats the warning and the progress report as events that cannot fail: `Host.World.Report` ignores the fault set.
- `stat_database` and the `stat` subcommand's dispatch in `main` (src/main.rs:56-62, 92-101): a read-only wrapper around the engine plus a print.
- `usize` bounds on `n`, `batch_sz` and `value_sz`. They are unbounded naturals: the source only decrements `remaining` while it is positive and computes `n - remaining`, so nothing wraps in the modelled path.
- Fill.FillDatabase: requires `Permitted`, i.e. `batch_sz > 0` or `n == 0` whenever the run reaches the loop. With `batch_sz == 0` and `n > 0`, the source loops forever, printing progress and committing empty transactions, until an engine call fails. A failing begin or table-statistics call then panics, and a failing commit returns an error. Runs with `batch_sz == 0` and `n > 0` are outside the model whatever the faults. Batching.ZeroBatchNeverEnds states that the countdown never ends instead of modelling those runs.

## Findings

| source | as written | input that shows it | evidently intended | confidence | as-written member | corrected member |
|---|---|---|---|---|---|---|
| src/main.rs:123-143 | The inner `for` runs `batch_sz` times, so with `batch_sz == 0` no pass lowers `remaining` and the loop never reaches its break. It commits empty transactions and prints "Commit 0 items" until an engine call fails. | `fill -n 5 --batch-sz 0` | A zero batch size is rejected before the loop, so every fill run ends | not executed | Batching.ZeroBatchNeverEnds | Fill.FillDatabase |

In the as-written model, `FillSpec.StepAgrees` ties `Batching.ZeroBatchNeverEnds` to the loop the methods run. In the corrected model, `Fill.FillDatabase` requires `Permitted`: a run that reaches the loop with items to insert has a positive batch size. Under it `Fill.FillLoop` (which requires `Batching.Ends`) terminates, with `remaining` as its measure, and the run's outcome is the one `FillSpec.Run` gives.
