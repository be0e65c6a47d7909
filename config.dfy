/** The command line of the torture tool as the fill path sees it, and the
    environment settings that `open` derives from it (src/main.rs:11-54, 64-90).
    Parsing and defaults belong to the argument parser and are not modelled:
    a `Cli` value is the already-parsed command line. */
module Config {

  datatype Option<T> = None | Some(value: T)

  /** Options of the `fill` subcommand: items to insert, items per batch and
      bytes per value. `usize` in the source; no arithmetic on them can wrap. */
  datatype FillOpts = FillOpts(n: nat, batchSz: nat, valueSz: nat)

  datatype SubCommand = Fill(opts: FillOpts) | Stat

  /** `-y` forces removal of an existing database; `--yolo` turns off
      per-commit durability. */
  datatype Cli = Cli(subcmd: SubCommand, path: string, y: bool, yolo: bool)

  /** The options of the `fill` subcommand, if that is the subcommand. */
  function AsFillOpts(cmd: SubCommand): (r: Option<FillOpts>)
    ensures r.Some? <==> cmd.Fill?
    ensures cmd.Fill? ==> r.value == cmd.opts
  {
    match cmd
    case Fill(opts) => Some(opts)
    case Stat => None
  }

  const GIGABYTE: nat := 1024 * 1024 * 1024
  const TERABYTE: nat := GIGABYTE * 1024

  /** Durability of a commit: flushed before the commit returns, or deferred. */
  datatype SyncMode = Durable | UtterlyNoSync

  /** What `open` asks of the storage environment. */
  datatype EnvConfig = EnvConfig(
    maxDbs: nat,
    writeMap: bool,
    syncMode: SyncMode,
    minSize: nat,
    maxSize: nat,
    growthStep: nat,
    shrinkThreshold: nat,
    pageSize: nat)

  /** The environment settings `open` uses for a command line. Only the
      durability mode depends on the command line, and it is the no-sync mode
      exactly when `--yolo` was given. */
  function OpenConfig(cli: Cli): (c: EnvConfig)
    ensures c.syncMode == UtterlyNoSync <==> cli.yolo
    ensures c.syncMode == Durable <==> !cli.yolo
    ensures c.maxDbs == 256 && c.writeMap && c.pageSize == 4096
    ensures c.minSize == 0 && c.maxSize == 4 * TERABYTE
    ensures c.growthStep == GIGABYTE && c.shrinkThreshold == 0
  {
    EnvConfig(
      maxDbs := 256,
      writeMap := true,
      syncMode := if cli.yolo then UtterlyNoSync else Durable,
      minSize := 0,
      maxSize := 4 * TERABYTE,
      growthStep := 1 * GIGABYTE,
      shrinkThreshold := 0,
      pageSize := 4096)
  }
}
