/** `fill_database` (src/main.rs:103-164) as a method: the pre-flight check
    of an existing database, opening the environment, the commit that creates
    the "main" table, the batch loop, and the final flush in no-sync mode. */
module Fill {
  import opened Config
  import opened Entropy
  import opened Trace
  import opened Batching
  import opened FillSpec
  import opened Host

  /** Where in a script the events of one pass of the fill loop are. */
  lemma BatchOccurs(t: seq<Event>, at: nat, o: FillOpts, bytes: Stream, done: nat, size: nat)
    requires Occurs(t, at, BatchEvents(o, bytes, done, size))
    ensures at + size + 3 <= |t|
    ensures t[at] == Begin
    ensures forall i :: at + 1 <= i < at + 1 + size ==> t[i] == ItemAt(bytes, o.valueSz, done + (i - at - 1))
    ensures t[at + 1 + size] == DbStat && t[at + 2 + size] == Commit
  {
    var b := BatchEvents(o, bytes, done, size);
    assert b[0] == Begin;
    PutsItems(bytes, o.valueSz, done, size);
    forall i | at + 1 <= i < at + 1 + size
      ensures t[i] == ItemAt(bytes, o.valueSz, done + (i - at - 1))
    {
      assert b[i - at] == Puts(bytes, o.valueSz, done, size)[i - at - 1];
    }
    assert b[1 + size] == DbStat && b[2 + size] == Commit;
  }

  /** Where in a script the next pass of the fill loop, the progress line
      after it and the passes after that are. */
  lemma PassOccurs(t: seq<Event>, at: nat, o: FillOpts, bytes: Stream, remaining: nat)
    requires remaining <= o.n && Ends(remaining, o.batchSz)
    requires Occurs(t, at, Rest(o, bytes, remaining))
    ensures Occurs(t, at, BatchEvents(o, bytes, o.n - remaining, BatchOf(o, remaining)))
    ensures LeftAfter(o, remaining) == 0 ==>
      |Rest(o, bytes, remaining)| == BatchOf(o, remaining) + 3
    ensures LeftAfter(o, remaining) != 0 ==>
      && |Rest(o, bytes, remaining)|
           == BatchOf(o, remaining) + 4 + |Rest(o, bytes, LeftAfter(o, remaining))|
      && t[at + BatchOf(o, remaining) + 3] == Progress(o.batchSz, o.n - LeftAfter(o, remaining))
      && Occurs(t, at + BatchOf(o, remaining) + 4, Rest(o, bytes, LeftAfter(o, remaining)))
  {
    var left, size := LeftAfter(o, remaining), BatchOf(o, remaining);
    var batch := BatchEvents(o, bytes, o.n - remaining, size);
    var after := if left == 0 then [] else [Progress(o.batchSz, o.n - left)] + Rest(o, bytes, left);
    assert |batch| == size + 3;
    LoopStep(o, bytes, remaining);
    OccursSplit(t, at, batch, after);
    if left != 0 {
      var report := Progress(o.batchSz, o.n - left);
      OccursSplit(t, at + size + 3, [report], Rest(o, bytes, left));
      assert t[at + size + 3 + 0] == [report][0];
    }
  }

  /** Makes a call whose failure ends the run, while the run follows the
      script `plan` and the call is its next event. */
  method Invoke(world: World, e: Event, ghost plan: Script) returns (ok: bool)
    requires Fatal(e)
    requires world.trace <= plan.events && |world.trace| < |plan.events|
    requires plan.events[|world.trace|] == e
    requires NoFatalIn(plan.events, world.faults, 0, |world.trace|)
    modifies world
    ensures world.trace == old(world.trace) + [e] && world.trace <= plan.events
    ensures ok ==> NoFatalIn(plan.events, world.faults, 0, |world.trace|)
    ensures !ok ==> Run(plan, world.faults) == Script(world.trace, FailureOf(e))
  {
    ghost var i := |world.trace|;
    PrefixStep(world.trace, plan.events, e);
    ok := world.Call(e);
    if !ok {
      RunFailsAt(plan, world.faults, i);
    }
  }

  /** One item (src/main.rs:131-135): draws a key and then a value from the
      generator, then puts them; `j` is the number of items put before it. */
  method PutItem(world: World, rand: Pcg64, valueSz: nat, ghost j: nat, ghost plan: Script) returns (ok: bool)
    requires rand.pos == Offset(valueSz, j)
    requires world.trace <= plan.events && |world.trace| < |plan.events|
    requires plan.events[|world.trace|] == ItemAt(rand.bytes, valueSz, j)
    requires NoFatalIn(plan.events, world.faults, 0, |world.trace|)
    modifies world, rand
    ensures rand.pos == Offset(valueSz, j + 1)
    ensures world.trace == old(world.trace) + [ItemAt(rand.bytes, valueSz, j)] && world.trace <= plan.events
    ensures ok ==> NoFatalIn(plan.events, world.faults, 0, |world.trace|)
    ensures !ok ==> Run(plan, world.faults) == Script(world.trace, Panic)
  {
    var key := new byte[KEY_SIZE];
    var value := new byte[valueSz];
    rand.FillBytes(key);
    rand.FillBytes(value);
    assert Put(key[..], value[..]) == ItemAt(rand.bytes, valueSz, j);
    ok := Invoke(world, Put(key[..], value[..]), plan);
  }

  /** One pass of the fill loop (src/main.rs:124-140), started with
      `remaining` items to insert: begin a transaction, put items while fewer
      than `batchSz` have been put in it and any remain, read the table's
      statistics, commit. Returns how many items remain, or how the run ends
      if a call fails. */
  method FillBatch(world: World, rand: Pcg64, o: FillOpts, remaining: nat, ghost plan: Script)
    returns (left: nat, failure: Option<Outcome>)
    requires remaining <= o.n
    requires rand.pos == Offset(o.valueSz, o.n - remaining)
    requires world.trace <= plan.events
    requires Occurs(plan.events, |world.trace|, BatchEvents(o, rand.bytes, o.n - remaining, BatchOf(o, remaining)))
    requires NoFatalIn(plan.events, world.faults, 0, |world.trace|)
    modifies world, rand
    ensures failure.None? ==>
      && left == LeftAfter(o, remaining)
      && world.trace <= plan.events
      && |world.trace| == old(|world.trace|) + BatchOf(o, remaining) + 3
      && rand.pos == Offset(o.valueSz, o.n - left)
      && NoFatalIn(plan.events, world.faults, 0, |world.trace|)
    ensures failure.Some? ==> Run(plan, world.faults) == Script(world.trace, failure.value)
  {
    ghost var bytes := rand.bytes;
    ghost var c := BatchOf(o, remaining);
    ghost var at := |world.trace|;
    BatchOccurs(plan.events, at, o, bytes, o.n - remaining, c);
    var ok := Invoke(world, Begin, plan);
    if !ok {
      return remaining, Some(Panic);
    }
    left := remaining;
    for i := 0 to o.batchSz
      invariant left + i == remaining && i <= c
      invariant rand.bytes == bytes && rand.pos == Offset(o.valueSz, o.n - left)
      invariant world.trace <= plan.events && |world.trace| == at + 1 + i
      invariant NoFatalIn(plan.events, world.faults, 0, |world.trace|)
    {
      if left == 0 {
        break;
      }
      ok := PutItem(world, rand, o.valueSz, o.n - left, plan);
      if !ok {
        return left, Some(Panic);
      }
      left := left - 1;
    }
    ok := Invoke(world, DbStat, plan);
    if !ok {
      return left, Some(Panic);
    }
    ok := Invoke(world, Commit, plan);
    if !ok {
      return left, Some(Err);
    }
    failure := None;
  }

  /** One pass of the fill loop's body (src/main.rs:124-156): a batch, then,
      if items remain, the progress line. `end` is where in the script the
      loop's events end. */
  method FillPass(world: World, rand: Pcg64, o: FillOpts, remaining: nat, ghost plan: Script, ghost end: nat)
    returns (left: nat, failure: Option<Outcome>)
    requires remaining <= o.n && Ends(remaining, o.batchSz)
    requires rand.pos == Offset(o.valueSz, o.n - remaining)
    requires world.trace <= plan.events
    requires Occurs(plan.events, |world.trace|, Rest(o, rand.bytes, remaining))
    requires |world.trace| + |Rest(o, rand.bytes, remaining)| == end
    requires NoFatalIn(plan.events, world.faults, 0, |world.trace|)
    modifies world, rand
    ensures failure.None? ==>
      && left == LeftAfter(o, remaining)
      && rand.pos == Offset(o.valueSz, o.n - left)
      && world.trace <= plan.events
      && NoFatalIn(plan.events, world.faults, 0, |world.trace|)
      && (left == 0 ==> |world.trace| == end)
      && (left != 0 ==>
            && Occurs(plan.events, |world.trace|, Rest(o, rand.bytes, left))
            && |world.trace| + |Rest(o, rand.bytes, left)| == end)
    ensures failure.Some? ==> Run(plan, world.faults) == Script(world.trace, failure.value)
  {
    PassOccurs(plan.events, |world.trace|, o, rand.bytes, remaining);
    left, failure := FillBatch(world, rand, o, remaining, plan);
    if failure.None? && left != 0 {
      var report := Progress(o.batchSz, o.n - left);
      PrefixStep(world.trace, plan.events, report);
      world.Report(report);
    }
  }

  /** The fill loop (src/main.rs:122-157): passes until no item remains.
      Returns how the run ends if a call fails. */
  method FillLoop(world: World, rand: Pcg64, o: FillOpts, ghost plan: Script)
    returns (failure: Option<Outcome>)
    requires Ends(o.n, o.batchSz)
    requires rand.pos == 0
    requires world.trace <= plan.events
    requires Occurs(plan.events, |world.trace|, LoopEvents(o, rand.bytes))
    requires NoFatalIn(plan.events, world.faults, 0, |world.trace|)
    modifies world, rand
    ensures failure.None? ==>
      && world.trace <= plan.events
      && |world.trace| == old(|world.trace|) + |LoopEvents(o, rand.bytes)|
      && NoFatalIn(plan.events, world.faults, 0, |world.trace|)
    ensures failure.Some? ==> Run(plan, world.faults) == Script(world.trace, failure.value)
  {
    ghost var end := |world.trace| + |LoopEvents(o, rand.bytes)|;
    var remaining: nat := o.n;
    assert Rest(o, rand.bytes, remaining) == LoopEvents(o, rand.bytes);
    while true
      invariant remaining <= o.n
      invariant rand.pos == Offset(o.valueSz, o.n - remaining)
      invariant world.trace <= plan.events
      invariant Occurs(plan.events, |world.trace|, Rest(o, rand.bytes, remaining))
      invariant |world.trace| + |Rest(o, rand.bytes, remaining)| == end
      invariant NoFatalIn(plan.events, world.faults, 0, |world.trace|)
      decreases remaining
    {
      remaining, failure := FillPass(world, rand, o, remaining, plan, end);
      if failure.Some? {
        return;
      }
      if remaining == 0 {
        break;
      }
    }
    failure := None;
  }

  /** Opens the environment at the database path and creates the "main"
      table in a transaction of its own (src/main.rs:113-117). */
  method OpenDatabase(world: World, cli: Cli, ghost plan: Script) returns (failure: Option<Outcome>)
    requires world.trace <= plan.events
    requires |world.trace| + 4 <= |plan.events|
    requires plan.events[|world.trace|] == Open(cli.path, OpenConfig(cli))
    requires plan.events[|world.trace| + 1] == Begin
    requires plan.events[|world.trace| + 2] == CreateTable("main")
    requires plan.events[|world.trace| + 3] == Commit
    requires NoFatalIn(plan.events, world.faults, 0, |world.trace|)
    modifies world
    ensures failure.None? ==>
      && world.trace <= plan.events
      && |world.trace| == old(|world.trace|) + 4
      && NoFatalIn(plan.events, world.faults, 0, |world.trace|)
    ensures failure.Some? ==> Run(plan, world.faults) == Script(world.trace, failure.value)
  {
    var ok := Invoke(world, Open(cli.path, OpenConfig(cli)), plan);
    if !ok { return Some(Err); }
    ok := Invoke(world, Begin, plan);
    if !ok { return Some(Panic); }
    ok := Invoke(world, CreateTable("main"), plan);
    if !ok { return Some(Err); }
    ok := Invoke(world, Commit, plan);
    if !ok { return Some(Err); }
    return None;
  }

  /** Runs a fill against a world in which the calls at the positions in
      `faults` fail. `pathExists` says whether the database path exists and
      `gen` is the generator: the run draws from its stream for the fixed
      seed. The outcome and the events are those of the run's script, cut at
      the first failing call that ends the run. */
  method FillDatabase(cli: Cli, pathExists: bool, gen: Seed -> Stream, faults: set<nat>)
    returns (out: Outcome, trace: seq<Event>)
    requires Permitted(cli, pathExists)
    ensures Script(trace, out) == Run(Plan(cli, pathExists, gen(FILL_SEED)), faults)
  {
    var world := new World(faults);
    ghost var plan := Plan(cli, pathExists, gen(FILL_SEED));
    if pathExists {
      if !cli.y {
        world.Report(AlreadyExists(cli.path));
        RunCompletes(plan, faults);
        return Ok, world.trace;
      }
      var _ := world.Call(RemoveFile(cli.path));
    }
    var fillOpts := AsFillOpts(cli.subcmd);
    if fillOpts.None? {
      RunCompletes(plan, faults);
      return Panic, world.trace;
    }
    var o := fillOpts.value;
    assert o == cli.subcmd.opts;
    PlanLayout(cli, pathExists, gen(FILL_SEED));
    assert world.trace == Removal(cli, pathExists);

    var failure := OpenDatabase(world, cli, plan);
    if failure.Some? {
      return failure.value, world.trace;
    }

    var rand := new Pcg64(gen, FILL_SEED);
    failure := FillLoop(world, rand, o, plan);
    if failure.Some? {
      return failure.value, world.trace;
    }

    if cli.yolo {
      var ok := Invoke(world, Sync(true), plan);
      if !ok { return Err, world.trace; }
    }
    assert |world.trace| == |plan.events|;
    assert world.trace == plan.events;
    RunCompletes(plan, faults);
    return Ok, world.trace;
  }
}
