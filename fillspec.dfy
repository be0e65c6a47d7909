/** What `fill_database` (src/main.rs:103-164) is meant to do, written as the
    script a run follows when no call fails: the pre-flight check of an
    existing database, the commit that creates the "main" table, one
    transaction per scheduled batch, and the final flush in no-sync mode. */
module FillSpec {
  import opened Config
  import opened Entropy
  import opened Trace
  import opened Batching

  /** Keys are 32 bytes; every put draws a key and then a value. */
  const KEY_SIZE: nat := 32

  /** How far one item advances the stream: a key, four whole words, and a
      value, which takes `valueSz` rounded up to whole words. */
  function ItemSize(valueSz: nat): (size: nat)
  {
    KEY_SIZE + Drawn(valueSz)
  }

  /** Where item j starts in the stream: every item before it took a key
      and a value. */
  function Offset(valueSz: nat, j: nat): (at: nat)
  {
    if j == 0 then 0 else Offset(valueSz, j - 1) + ItemSize(valueSz)
  }

  /** Item j starts `ItemSize(valueSz) * j` bytes into the stream, that is
      `(32 + valueSz) * j` when `valueSz` is a multiple of 8. */
  lemma {:induction false} OffsetProduct(valueSz: nat, j: nat)
    ensures Offset(valueSz, j) == ItemSize(valueSz) * j
  {
    if j > 0 {
      OffsetProduct(valueSz, j - 1);
      MulSucc(ItemSize(valueSz), j - 1);
    }
  }

  /** Later items start further into the stream, each after the whole of the
      one before it. */
  lemma {:induction false} OffsetGrows(valueSz: nat, i: nat, j: nat)
    requires i <= j
    ensures Offset(valueSz, i) <= Offset(valueSz, j)
    decreases j - i
  {
    if i < j {
      OffsetGrows(valueSz, i, j - 1);
    }
  }

  /** The j-th put of a run: its key is the next 32 bytes of the random
      stream and its value the `valueSz` bytes after that. */
  function ItemAt(bytes: Stream, valueSz: nat, j: nat): (e: Event)
  {
    var at := Offset(valueSz, j);
    Put(Window(bytes, at, KEY_SIZE), Window(bytes, at + KEY_SIZE, valueSz))
  }

  /** The puts numbered `first` to `first + count - 1`, in order. */
  function Puts(bytes: Stream, valueSz: nat, first: nat, count: nat): (r: seq<Event>)
    decreases count
    ensures |r| == count
  {
    if count == 0 then []
    else [ItemAt(bytes, valueSz, first)] + Puts(bytes, valueSz, first + 1, count - 1)
  }

  /** The k-th of the puts numbered from `first` is put number `first + k`. */
  lemma {:induction false} PutsItems(bytes: Stream, valueSz: nat, first: nat, count: nat)
    ensures forall k :: 0 <= k < count ==> Puts(bytes, valueSz, first, count)[k] == ItemAt(bytes, valueSz, first + k)
    decreases count
  {
    if count > 0 {
      PutsItems(bytes, valueSz, first + 1, count - 1);
      var r := Puts(bytes, valueSz, first, count);
      forall k | 1 <= k < count
        ensures r[k] == ItemAt(bytes, valueSz, first + k)
      {
        assert r[k] == Puts(bytes, valueSz, first + 1, count - 1)[k - 1];
      }
    }
  }

  /** One pass of the fill loop with `size` puts, `done` puts having been made
      before it: begin, the puts, the statistics read, the commit. */
  function BatchEvents(o: FillOpts, bytes: Stream, done: nat, size: nat): (events: seq<Event>)
  {
    [Begin] + Puts(bytes, o.valueSz, done, size) + [DbStat, Commit]
  }

  /** The passes of the fill loop for the batch sizes `sizes`, with a progress
      report between consecutive passes and none after the last. */
  function Render(o: FillOpts, bytes: Stream, done: nat, sizes: seq<nat>): (events: seq<Event>)
    decreases |sizes|
  {
    if |sizes| == 0 then []
    else BatchEvents(o, bytes, done, sizes[0])
         + (if |sizes| == 1 then []
            else [Progress(o.batchSz, done + sizes[0])] + Render(o, bytes, done + sizes[0], sizes[1..]))
  }

  /** All passes of the fill loop. */
  function LoopEvents(o: FillOpts, bytes: Stream): (events: seq<Event>)
    requires Ends(o.n, o.batchSz)
  {
    Render(o, bytes, 0, Schedule(o.n, o.batchSz))
  }

  /** Opening the environment, then a transaction of its own that creates the
      "main" table. */
  function SetupEvents(cli: Cli): (events: seq<Event>)
  {
    [Open(cli.path, OpenConfig(cli)), Begin, CreateTable("main"), Commit]
  }

  /** Only in no-sync mode is the environment flushed at the end. */
  function FinalEvents(cli: Cli): (events: seq<Event>)
  {
    if cli.yolo then [Sync(true)] else []
  }

  /** An existing database is removed first when `-y` is given. */
  function Removal(cli: Cli, pathExists: bool): (events: seq<Event>)
  {
    if pathExists then [RemoveFile(cli.path)] else []
  }

  /** The run gets as far as the fill loop: it is a fill, and there is no
      database in the way or `-y` allows removing it. */
  predicate ReachesLoop(cli: Cli, pathExists: bool)
  {
    cli.subcmd.Fill? && (!pathExists || cli.y)
  }

  /** The one thing a run must have to end: a fill loop that starts with items
      to insert needs a positive batch size. */
  predicate Permitted(cli: Cli, pathExists: bool)
  {
    ReachesLoop(cli, pathExists) ==> Ends(cli.subcmd.opts.n, cli.subcmd.opts.batchSz)
  }

  /** The script of a run in an environment where no call fails. `pathExists`
      says whether the database path exists; `bytes` is the random stream. */
  function Plan(cli: Cli, pathExists: bool, bytes: Stream): (s: Script)
    requires Permitted(cli, pathExists)
    ensures s.final != Err
    ensures s.final == Panic <==> (!pathExists || cli.y) && !cli.subcmd.Fill?
  {
    if pathExists && !cli.y then Script([AlreadyExists(cli.path)], Ok)
    else
      match AsFillOpts(cli.subcmd)
      case None => Script(Removal(cli, pathExists), Panic)
      case Some(o) =>
        Script(Removal(cli, pathExists) + SetupEvents(cli) + LoopEvents(o, bytes) + FinalEvents(cli), Ok)
  }

  /** The kinds of event the properties of a run count. */
  datatype Kind = PutKind | BeginKind | CommitKind | SyncKind | ProgressKind

  predicate Matches(e: Event, k: Kind)
  {
    match k
    case PutKind => e.Put?
    case BeginKind => e.Begin?
    case CommitKind => e.Commit?
    case SyncKind => e.Sync?
    case ProgressKind => e.Progress?
  }

  /** The events of `t` of kind `k`, in order. */
  function Select(t: seq<Event>, k: Kind): (r: seq<Event>)
  {
    if |t| == 0 then [] else (if Matches(t[0], k) then [t[0]] else []) + Select(t[1..], k)
  }

  lemma {:induction false} SelectAppend(a: seq<Event>, b: seq<Event>, k: Kind)
    ensures Select(a + b, k) == Select(a, k) + Select(b, k)
  {
    if a == [] {
      assert a + b == b;
    } else {
      var head := if Matches(a[0], k) then [a[0]] else [];
      assert (a + b)[0] == a[0];
      assert (a + b)[1..] == a[1..] + b;
      SelectAppend(a[1..], b, k);
      assert Select(a + b, k) == head + (Select(a[1..], k) + Select(b, k));
    }
  }

  lemma {:induction false} SelectNone(t: seq<Event>, k: Kind)
    requires forall i :: 0 <= i < |t| ==> !Matches(t[i], k)
    ensures Select(t, k) == []
  {
    if t != [] {
      SelectNone(t[1..], k);
    }
  }

  lemma {:induction false} SelectAll(t: seq<Event>, k: Kind)
    requires forall i :: 0 <= i < |t| ==> Matches(t[i], k)
    ensures Select(t, k) == t
  {
    if t != [] {
      SelectAll(t[1..], k);
      assert t == [t[0]] + t[1..];
    }
  }

  lemma PutsJoin(bytes: Stream, valueSz: nat, first: nat, a: nat, b: nat)
    ensures Puts(bytes, valueSz, first, a) + Puts(bytes, valueSz, first + a, b)
         == Puts(bytes, valueSz, first, a + b)
  {
    var l := Puts(bytes, valueSz, first, a) + Puts(bytes, valueSz, first + a, b);
    var r := Puts(bytes, valueSz, first, a + b);
    PutsItems(bytes, valueSz, first, a);
    PutsItems(bytes, valueSz, first + a, b);
    PutsItems(bytes, valueSz, first, a + b);
    forall k | 0 <= k < a + b
      ensures l[k] == r[k]
    {
      if k >= a {
        assert l[k] == Puts(bytes, valueSz, first + a, b)[k - a];
      }
    }
  }

  /** A selection from one pass of the loop is the selection from its three
      parts. */
  lemma BatchSplit(o: FillOpts, bytes: Stream, done: nat, size: nat, k: Kind)
    ensures Select(BatchEvents(o, bytes, done, size), k)
         == Select([Begin], k) + Select(Puts(bytes, o.valueSz, done, size), k)
            + Select([DbStat, Commit], k)
  {
    var p := Puts(bytes, o.valueSz, done, size);
    SelectAppend([Begin] + p, [DbStat, Commit], k);
    SelectAppend([Begin], p, k);
  }

  lemma SelectPair(a: Event, b: Event, k: Kind)
    ensures Select([a, b], k) == (if Matches(a, k) then [a] else []) + (if Matches(b, k) then [b] else [])
  {
    assert [a, b][1..] == [b];
    assert [b][1..] == [];
    assert Select([b], k) == (if Matches(b, k) then [b] else []) + Select([], k);
  }

  lemma SelectCons(e: Event, t: seq<Event>, k: Kind)
    ensures Select([e] + t, k) == (if Matches(e, k) then [e] else []) + Select(t, k)
  {
    assert ([e] + t)[1..] == t;
  }

  /** The puts of the loop passes are those of the first pass, then those
      of the remaining passes. */
  lemma PutsStep(o: FillOpts, bytes: Stream, done: nat, sizes: seq<nat>)
    requires |sizes| > 0
    ensures |sizes| == 1 ==>
      Select(Render(o, bytes, done, sizes), PutKind) == Puts(bytes, o.valueSz, done, sizes[0])
    ensures |sizes| > 1 ==>
      Select(Render(o, bytes, done, sizes), PutKind)
        == Puts(bytes, o.valueSz, done, sizes[0]) + Select(Render(o, bytes, done + sizes[0], sizes[1..]), PutKind)
  {
    RenderStep(o, bytes, done, sizes, PutKind);
    BatchSelect(o, bytes, done, sizes[0], PutKind);
  }

  /** The puts of the loop passes are consecutive items of the stream, as
      many as the batch sizes add up to. */
  lemma {:induction false} RenderPuts(o: FillOpts, bytes: Stream, done: nat, sizes: seq<nat>)
    ensures Select(Render(o, bytes, done, sizes), PutKind) == Puts(bytes, o.valueSz, done, Sum(sizes))
    decreases |sizes|
  {
    if |sizes| > 0 {
      var s0, tail := sizes[0], sizes[1..];
      PutsStep(o, bytes, done, sizes);
      assert Sum(sizes) == s0 + Sum(tail);
      if |sizes| == 1 {
        assert Sum(tail) == 0;
      } else {
        RenderPuts(o, bytes, done + s0, tail);
        PutsJoin(bytes, o.valueSz, done, s0, Sum(tail));
      }
    }
  }

  /** One pass of the loop seen through each kind of selection. */
  lemma BatchSelect(o: FillOpts, bytes: Stream, done: nat, size: nat, k: Kind)
    ensures Select(BatchEvents(o, bytes, done, size), k)
         == match k
            case PutKind => Puts(bytes, o.valueSz, done, size)
            case BeginKind => [Begin]
            case CommitKind => [Commit]
            case _ => []
  {
    BatchSplit(o, bytes, done, size, k);
    SelectPair(DbStat, Commit, k);
    SelectCons(Begin, [], k);
    PutsItems(bytes, o.valueSz, done, size);
    if k == PutKind {
      SelectAll(Puts(bytes, o.valueSz, done, size), k);
    } else {
      SelectNone(Puts(bytes, o.valueSz, done, size), k);
    }
  }

  /** A selection from the loop passes is that of the first pass, then that
      of the progress report and the remaining passes. */
  lemma RenderStep(o: FillOpts, bytes: Stream, done: nat, sizes: seq<nat>, k: Kind)
    requires |sizes| > 0
    ensures |sizes| == 1 ==>
      Select(Render(o, bytes, done, sizes), k) == Select(BatchEvents(o, bytes, done, sizes[0]), k)
    ensures |sizes| > 1 && k != ProgressKind ==>
      Select(Render(o, bytes, done, sizes), k)
        == Select(BatchEvents(o, bytes, done, sizes[0]), k) + Select(Render(o, bytes, done + sizes[0], sizes[1..]), k)
    ensures |sizes| > 1 && k == ProgressKind ==>
      Select(Render(o, bytes, done, sizes), k)
        == Select(BatchEvents(o, bytes, done, sizes[0]), k)
           + ([Progress(o.batchSz, done + sizes[0])] + Select(Render(o, bytes, done + sizes[0], sizes[1..]), k))
  {
    var b := BatchEvents(o, bytes, done, sizes[0]);
    if |sizes| == 1 {
      SelectAppend(b, [], k);
    } else {
      var report := Progress(o.batchSz, done + sizes[0]);
      var rest := Render(o, bytes, done + sizes[0], sizes[1..]);
      SelectAppend(b, [report] + rest, k);
      SelectCons(report, rest, k);
      if k != ProgressKind {
        assert [] + Select(rest, k) == Select(rest, k);
      }
    }
  }

  /** Each pass of the loop has one begin, one commit and no flush. */
  lemma {:induction false} RenderMarkers(o: FillOpts, bytes: Stream, done: nat, sizes: seq<nat>, k: Kind)
    requires k == BeginKind || k == CommitKind || k == SyncKind
    ensures |Select(Render(o, bytes, done, sizes), k)| == (if k == SyncKind then 0 else |sizes|)
    decreases |sizes|
  {
    if |sizes| > 0 {
      RenderStep(o, bytes, done, sizes, k);
      BatchSelect(o, bytes, done, sizes[0], k);
      if |sizes| > 1 {
        RenderMarkers(o, bytes, done + sizes[0], sizes[1..], k);
      }
    }
  }

  /** `reports` are progress lines printed after full batches of `b` items,
      starting `done` items in: the j-th says `done + b * (j + 1)` items have
      been inserted. */
  ghost predicate ReportsFrom(reports: seq<Event>, b: nat, done: nat)
  {
    forall j: nat :: j < |reports| ==> reports[j] == Progress(b, done + b * (j + 1))
  }

  lemma ReportsShift(all: seq<Event>, rest: seq<Event>, b: nat, done: nat)
    requires all == [Progress(b, done + b)] + rest
    requires ReportsFrom(rest, b, done + b)
    ensures ReportsFrom(all, b, done)
  {
    forall j: nat | j < |all|
      ensures all[j] == Progress(b, done + b * (j + 1))
    {
      MulSucc(b, j);
      if j > 0 {
        assert all[j] == rest[j - 1];
      }
    }
  }

  /** The progress lines of the loop passes: one after the first pass when it
      is not the last, then those of the later passes. */
  lemma ProgressStep(o: FillOpts, bytes: Stream, done: nat, sizes: seq<nat>)
    requires |sizes| > 0
    ensures |sizes| == 1 ==> Select(Render(o, bytes, done, sizes), ProgressKind) == []
    ensures |sizes| > 1 ==>
      Select(Render(o, bytes, done, sizes), ProgressKind)
        == [Progress(o.batchSz, done + sizes[0])] + Select(Render(o, bytes, done + sizes[0], sizes[1..]), ProgressKind)
  {
    RenderStep(o, bytes, done, sizes, ProgressKind);
    BatchSelect(o, bytes, done, sizes[0], ProgressKind);
  }

  /** After every pass but the last the loop reports the batch size and the
      number of items inserted so far, which with full batches is
      `batchSz * passes`. */
  lemma {:induction false} RenderProgress(o: FillOpts, bytes: Stream, done: nat, sizes: seq<nat>)
    requires |sizes| > 0
    requires forall i :: 0 <= i < |sizes| - 1 ==> sizes[i] == o.batchSz
    ensures |Select(Render(o, bytes, done, sizes), ProgressKind)| == |sizes| - 1
    ensures ReportsFrom(Select(Render(o, bytes, done, sizes), ProgressKind), o.batchSz, done)
    decreases |sizes|
  {
    ProgressStep(o, bytes, done, sizes);
    if |sizes| > 1 {
      var b := o.batchSz;
      var tail := sizes[1..];
      assert sizes[0] == b;
      forall i | 0 <= i < |tail| - 1
        ensures tail[i] == b
      {
        assert tail[i] == sizes[i + 1];
      }
      RenderProgress(o, bytes, done + b, tail);
      ReportsShift(Select(Render(o, bytes, done, sizes), ProgressKind),
                   Select(Render(o, bytes, done + b, tail), ProgressKind), b, done);
    }
  }

  /** Every pass ends with its commit, so the loop's last event is a commit. */
  lemma {:induction false} RenderEndsWithCommit(o: FillOpts, bytes: Stream, done: nat, sizes: seq<nat>)
    requires sizes != []
    ensures |Render(o, bytes, done, sizes)| > 0
    ensures Render(o, bytes, done, sizes)[0] == Begin
    ensures Render(o, bytes, done, sizes)[|Render(o, bytes, done, sizes)| - 1] == Commit
    decreases |sizes|
  {
    if |sizes| > 1 {
      RenderEndsWithCommit(o, bytes, done + sizes[0], sizes[1..]);
    }
  }

  lemma PlanSelect(cli: Cli, pathExists: bool, bytes: Stream, k: Kind)
    requires Permitted(cli, pathExists) && ReachesLoop(cli, pathExists)
    ensures Select(Plan(cli, pathExists, bytes).events, k)
         == Select(Removal(cli, pathExists), k) + Select(SetupEvents(cli), k)
            + Select(LoopEvents(cli.subcmd.opts, bytes), k) + Select(FinalEvents(cli), k)
    ensures Select(Removal(cli, pathExists), k) == []
    ensures Select(SetupEvents(cli), k)
         == match k
            case BeginKind => [Begin]
            case CommitKind => [Commit]
            case _ => []
    ensures Select(FinalEvents(cli), k) == if cli.yolo && k == SyncKind then [Sync(true)] else []
  {
    var r, st := Removal(cli, pathExists), SetupEvents(cli);
    var l, f := LoopEvents(cli.subcmd.opts, bytes), FinalEvents(cli);
    assert Plan(cli, pathExists, bytes).events == r + st + l + f;
    SelectAppend(r + st + l, f, k);
    SelectAppend(r + st, l, k);
    SelectAppend(r, st, k);
    SelectCons(RemoveFile(cli.path), [], k);
    SelectCons(Sync(true), [], k);
    SelectCons(Commit, [], k);
    SelectCons(CreateTable("main"), [Commit], k);
    SelectCons(Begin, [CreateTable("main"), Commit], k);
    SelectCons(Open(cli.path, OpenConfig(cli)), [Begin, CreateTable("main"), Commit], k);
  }

  /** A run that reaches the loop makes exactly `n` puts, and the j-th of
      them writes a 32-byte key and a `valueSz`-byte value drawn, key first,
      from item j of the random stream. A run that does not reach the loop
      makes no put. */
  lemma PlanPuts(cli: Cli, pathExists: bool, bytes: Stream)
    requires Permitted(cli, pathExists)
    ensures ReachesLoop(cli, pathExists) ==>
      Select(Plan(cli, pathExists, bytes).events, PutKind)
        == Puts(bytes, cli.subcmd.opts.valueSz, 0, cli.subcmd.opts.n)
    ensures ReachesLoop(cli, pathExists) ==>
      |Select(Plan(cli, pathExists, bytes).events, PutKind)| == cli.subcmd.opts.n
    ensures ReachesLoop(cli, pathExists) ==>
      forall j :: 0 <= j < cli.subcmd.opts.n ==>
        var e := Select(Plan(cli, pathExists, bytes).events, PutKind)[j];
        var at := Offset(cli.subcmd.opts.valueSz, j);
        && e.Put? && e.key == Window(bytes, at, KEY_SIZE) && |e.key| == 32
        && e.value == Window(bytes, at + KEY_SIZE, cli.subcmd.opts.valueSz)
        && |e.value| == cli.subcmd.opts.valueSz
    ensures !ReachesLoop(cli, pathExists) ==> Select(Plan(cli, pathExists, bytes).events, PutKind) == []
  {
    if ReachesLoop(cli, pathExists) {
      var o := cli.subcmd.opts;
      var puts := Select(Plan(cli, pathExists, bytes).events, PutKind);
      assert puts == Puts(bytes, o.valueSz, 0, o.n) by {
        PlanSelect(cli, pathExists, bytes, PutKind);
        RenderPuts(o, bytes, 0, Schedule(o.n, o.batchSz));
        ScheduleSum(o.n, o.batchSz);
      }
      PutsItems(bytes, o.valueSz, 0, o.n);
    } else if pathExists && !cli.y {
      SelectCons(AlreadyExists(cli.path), [], PutKind);
    } else {
      SelectCons(RemoveFile(cli.path), [], PutKind);
    }
  }

  /** Every transaction the run begins it commits: one to create the table,
      then one per batch. With items to insert that is ceil(n / batchSz)
      batch commits; with none it is a single commit of an empty transaction. */
  lemma PlanTransactions(cli: Cli, pathExists: bool, bytes: Stream)
    requires Permitted(cli, pathExists) && ReachesLoop(cli, pathExists)
    ensures |Select(Plan(cli, pathExists, bytes).events, BeginKind)|
         == 1 + |Schedule(cli.subcmd.opts.n, cli.subcmd.opts.batchSz)|
    ensures |Select(Plan(cli, pathExists, bytes).events, CommitKind)|
         == 1 + |Schedule(cli.subcmd.opts.n, cli.subcmd.opts.batchSz)|
    ensures cli.subcmd.opts.n == 0 ==> |Select(Plan(cli, pathExists, bytes).events, CommitKind)| == 2
    ensures cli.subcmd.opts.n > 0 ==>
      |Select(Plan(cli, pathExists, bytes).events, CommitKind)|
        == 1 + (cli.subcmd.opts.n + cli.subcmd.opts.batchSz - 1) / cli.subcmd.opts.batchSz
  {
    var o := cli.subcmd.opts;
    PlanSelect(cli, pathExists, bytes, BeginKind);
    PlanSelect(cli, pathExists, bytes, CommitKind);
    RenderMarkers(o, bytes, 0, Schedule(o.n, o.batchSz), BeginKind);
    RenderMarkers(o, bytes, 0, Schedule(o.n, o.batchSz), CommitKind);
    if o.n == 0 {
      ScheduleLast(o.n, o.batchSz);
    } else {
      ScheduleLength(o.n, o.batchSz);
    }
  }

  /** The environment is flushed exactly once when `--yolo` is given and the
      loop is reached, never otherwise, and the flush is the run's last event,
      right after the last commit. */
  lemma PlanSync(cli: Cli, pathExists: bool, bytes: Stream)
    requires Permitted(cli, pathExists)
    ensures Select(Plan(cli, pathExists, bytes).events, SyncKind)
         == if ReachesLoop(cli, pathExists) && cli.yolo then [Sync(true)] else []
    ensures ReachesLoop(cli, pathExists) ==>
      var t := Plan(cli, pathExists, bytes).events;
      if cli.yolo then |t| >= 2 && t[|t| - 1] == Sync(true) && t[|t| - 2] == Commit
      else |t| >= 1 && t[|t| - 1] == Commit
  {
    if ReachesLoop(cli, pathExists) {
      var o := cli.subcmd.opts;
      var t := Plan(cli, pathExists, bytes).events;
      var loop := LoopEvents(o, bytes);
      var head := Removal(cli, pathExists) + SetupEvents(cli) + loop;
      assert t == head + FinalEvents(cli);
      assert Select(t, SyncKind) == if cli.yolo then [Sync(true)] else [] by {
        PlanSelect(cli, pathExists, bytes, SyncKind);
        RenderMarkers(o, bytes, 0, Schedule(o.n, o.batchSz), SyncKind);
      }
      assert |loop| > 0 && loop[|loop| - 1] == Commit by {
        RenderEndsWithCommit(o, bytes, 0, Schedule(o.n, o.batchSz));
      }
      assert head[|head| - 1] == loop[|loop| - 1];
    } else if pathExists && !cli.y {
      SelectCons(AlreadyExists(cli.path), [], SyncKind);
    } else {
      SelectCons(RemoveFile(cli.path), [], SyncKind);
    }
  }

  /** A progress report follows every batch but the last; it names the batch
      size, which is then also that batch's size, and the items inserted so
      far, `batchSz` times the batches committed. */
  lemma PlanProgress(cli: Cli, pathExists: bool, bytes: Stream)
    requires Permitted(cli, pathExists) && ReachesLoop(cli, pathExists)
    ensures |Select(Plan(cli, pathExists, bytes).events, ProgressKind)|
         == |Schedule(cli.subcmd.opts.n, cli.subcmd.opts.batchSz)| - 1
    ensures forall j :: 0 <= j < |Schedule(cli.subcmd.opts.n, cli.subcmd.opts.batchSz)| - 1 ==>
      Select(Plan(cli, pathExists, bytes).events, ProgressKind)[j]
        == Progress(cli.subcmd.opts.batchSz, cli.subcmd.opts.batchSz * (j + 1))
      && Schedule(cli.subcmd.opts.n, cli.subcmd.opts.batchSz)[j] == cli.subcmd.opts.batchSz
  {
    var o := cli.subcmd.opts;
    PlanSelect(cli, pathExists, bytes, ProgressKind);
    ScheduleBounds(o.n, o.batchSz);
    RenderProgress(o, bytes, 0, Schedule(o.n, o.batchSz));
  }

  /** Where in the script of a run that reaches the fill loop each phase is.
      Before the first batch the run removes an existing database, opens the
      environment and commits the creation of the "main" table in a
      transaction of its own; the loop passes follow, starting with a begin,
      and the script ends with the flush in no-sync mode. */
  lemma PlanLayout(cli: Cli, pathExists: bool, bytes: Stream)
    requires Permitted(cli, pathExists) && ReachesLoop(cli, pathExists)
    ensures var t := Plan(cli, pathExists, bytes).events;
      var r := |Removal(cli, pathExists)|;
      var l := |LoopEvents(cli.subcmd.opts, bytes)|;
      && Removal(cli, pathExists) <= t
      && r + 5 <= |t|
      && t[r] == Open(cli.path, OpenConfig(cli)) && t[r + 1] == Begin
      && t[r + 2] == CreateTable("main") && t[r + 3] == Commit && t[r + 4] == Begin
      && Occurs(t, r + 4, LoopEvents(cli.subcmd.opts, bytes))
      && |t| == r + 4 + l + |FinalEvents(cli)|
      && (cli.yolo ==> t[|t| - 1] == Sync(true))
  {
    var o := cli.subcmd.opts;
    var t := Plan(cli, pathExists, bytes).events;
    var rm, st := Removal(cli, pathExists), SetupEvents(cli);
    var lp, f := LoopEvents(o, bytes), FinalEvents(cli);
    assert t == rm + st + lp + f;
    assert t[..|rm|] == rm;
    forall k | 0 <= k < |lp|
      ensures t[|rm| + 4 + k] == lp[k]
    {
      assert t[|rm| + 4 + k] == (rm + st + lp)[|rm| + 4 + k];
    }
    assert |lp| > 0 && lp[0] == Begin by {
      RenderEndsWithCommit(o, bytes, 0, Schedule(o.n, o.batchSz));
    }
    assert t[|rm| + 4 + 0] == lp[0];
  }

  /** Without `-y` an existing database is left alone: whatever the
      environment would do, the run only prints its warning and succeeds,
      removing nothing, opening nothing and writing nothing. */
  lemma KeptDatabase(cli: Cli, bytes: Stream, faults: set<nat>)
    requires !cli.y
    ensures Run(Plan(cli, true, bytes), faults) == Script([AlreadyExists(cli.path)], Ok)
  {
    RunCompletes(Plan(cli, true, bytes), faults);
  }

  /** With `-y` an existing database is removed before the environment is
      opened, and whether the removal fails makes no difference to the run. */
  lemma RemovalIgnored(cli: Cli, bytes: Stream, faults: set<nat>)
    requires cli.y && Permitted(cli, true)
    ensures Plan(cli, true, bytes).events[0] == RemoveFile(cli.path)
    ensures cli.subcmd.Fill? ==> Plan(cli, true, bytes).events[1] == Open(cli.path, OpenConfig(cli))
    ensures Run(Plan(cli, true, bytes), faults + {0}) == Run(Plan(cli, true, bytes), faults - {0})
  {
    var s := Plan(cli, true, bytes);
    if cli.subcmd.Fill? {
      PlanLayout(cli, true, bytes);
    }
    CutIgnoresEarlierFaults(s, faults + {0}, faults - {0}, 1);
  }

  /** The number of stream bytes a run consumes. */
  function Consumed(cli: Cli): (count: nat)
  {
    if cli.subcmd.Fill? then Offset(cli.subcmd.opts.valueSz, cli.subcmd.opts.n) else 0
  }

  lemma ItemSameBytes(b1: Stream, b2: Stream, valueSz: nat, j: nat, limit: nat)
    requires Offset(valueSz, j + 1) <= limit
    requires forall i: nat :: i < limit ==> b1(i) == b2(i)
    ensures ItemAt(b1, valueSz, j) == ItemAt(b2, valueSz, j)
  {
    var at := Offset(valueSz, j);
    assert Offset(valueSz, j + 1) == at + ItemSize(valueSz);
    assert Window(b1, at, KEY_SIZE) == Window(b2, at, KEY_SIZE);
    assert Window(b1, at + KEY_SIZE, valueSz) == Window(b2, at + KEY_SIZE, valueSz);
  }

  lemma PutsSameBytes(b1: Stream, b2: Stream, valueSz: nat, first: nat, count: nat)
    requires forall i: nat :: i < Offset(valueSz, first + count) ==> b1(i) == b2(i)
    ensures Puts(b1, valueSz, first, count) == Puts(b2, valueSz, first, count)
  {
    PutsItems(b1, valueSz, first, count);
    PutsItems(b2, valueSz, first, count);
    forall k | 0 <= k < count
      ensures Puts(b1, valueSz, first, count)[k] == Puts(b2, valueSz, first, count)[k]
    {
      OffsetGrows(valueSz, first + k + 1, first + count);
      ItemSameBytes(b1, b2, valueSz, first + k, Offset(valueSz, first + count));
    }
  }

  lemma {:induction false} RenderSameBytes(o: FillOpts, b1: Stream, b2: Stream, done: nat, sizes: seq<nat>)
    requires forall i: nat :: i < Offset(o.valueSz, done + Sum(sizes)) ==> b1(i) == b2(i)
    ensures Render(o, b1, done, sizes) == Render(o, b2, done, sizes)
    decreases |sizes|
  {
    if sizes != [] {
      var s0 := sizes[0];
      assert BatchEvents(o, b1, done, s0) == BatchEvents(o, b2, done, s0) by {
        OffsetGrows(o.valueSz, done + s0, done + Sum(sizes));
        PutsSameBytes(b1, b2, o.valueSz, done, s0);
      }
      if |sizes| > 1 {
        assert Render(o, b1, done + s0, sizes[1..]) == Render(o, b2, done + s0, sizes[1..]) by {
          assert done + s0 + Sum(sizes[1..]) == done + Sum(sizes);
          RenderSameBytes(o, b1, b2, done + s0, sizes[1..]);
        }
      }
    }
  }

  /** Reproducibility: a run's script depends on the random stream only
      through the bytes it consumes, the first `ItemSize(valueSz) * n`. */
  lemma PlanReproducible(cli: Cli, pathExists: bool, b1: Stream, b2: Stream)
    requires Permitted(cli, pathExists)
    requires forall i: nat :: i < Consumed(cli) ==> b1(i) == b2(i)
    ensures Plan(cli, pathExists, b1) == Plan(cli, pathExists, b2)
  {
    if ReachesLoop(cli, pathExists) {
      var o := cli.subcmd.opts;
      ScheduleSum(o.n, o.batchSz);
      RenderSameBytes(o, b1, b2, 0, Schedule(o.n, o.batchSz));
    }
  }

  /** How many items the pass that starts with `remaining` items puts:
      `batchSz`, or all of them when no more than that remain. */
  function BatchOf(o: FillOpts, remaining: nat): (size: nat)
  {
    if remaining <= o.batchSz then remaining else o.batchSz
  }

  /** How many items remain after that pass. */
  function LeftAfter(o: FillOpts, remaining: nat): (left: nat)
  {
    remaining - BatchOf(o, remaining)
  }

  /** A pass of the fill loop leaves what `RemainingAfter` counts down to:
      the countdown of the loop's passes is the one the fill methods follow. */
  lemma StepAgrees(o: FillOpts, remaining: nat, k: nat)
    ensures RemainingAfter(remaining, o.batchSz, k + 1) == RemainingAfter(LeftAfter(o, remaining), o.batchSz, k)
  {
  }

  /** The passes of the fill loop from the one that starts with `remaining`
      items left on. */
  function Rest(o: FillOpts, bytes: Stream, remaining: nat): (events: seq<Event>)
    requires remaining <= o.n && Ends(remaining, o.batchSz)
  {
    Render(o, bytes, o.n - remaining, Schedule(remaining, o.batchSz))
  }

  lemma RenderCons(o: FillOpts, bytes: Stream, done: nat, size: nat, later: seq<nat>)
    ensures Render(o, bytes, done, [size] + later)
         == BatchEvents(o, bytes, done, size)
            + (if |later| == 0 then [] else [Progress(o.batchSz, done + size)] + Render(o, bytes, done + size, later))
  {
    assert ([size] + later)[0] == size;
    assert ([size] + later)[1..] == later;
  }

  /** One pass of the fill loop started with `remaining` items: a batch of
      `BatchOf(o, remaining)` puts, then, if items are left, a progress
      report and the passes for the rest. */
  lemma LoopStep(o: FillOpts, bytes: Stream, remaining: nat)
    requires remaining <= o.n && Ends(remaining, o.batchSz)
    ensures Rest(o, bytes, remaining)
         == BatchEvents(o, bytes, o.n - remaining, BatchOf(o, remaining))
            + (if LeftAfter(o, remaining) == 0 then []
               else [Progress(o.batchSz, o.n - LeftAfter(o, remaining))] + Rest(o, bytes, LeftAfter(o, remaining)))
  {
    var size, left := BatchOf(o, remaining), LeftAfter(o, remaining);
    if left == 0 {
      assert Schedule(remaining, o.batchSz) == [size] + [];
      RenderCons(o, bytes, o.n - remaining, size, []);
    } else {
      assert Schedule(remaining, o.batchSz) == [size] + Schedule(left, o.batchSz);
      RenderCons(o, bytes, o.n - remaining, size, Schedule(left, o.batchSz));
      assert o.n - remaining + size == o.n - left;
    }
  }
}
