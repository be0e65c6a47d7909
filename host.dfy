/** The world a fill run acts on: the filesystem, the storage environment and
    standard output, seen only through the events the run causes. Which calls
    fail is fixed in advance by a set of event positions. */
module Host {
  import opened Trace

  class World {
    var trace: seq<Event>
    const faults: set<nat>

    constructor (faults: set<nat>)
      ensures trace == [] && this.faults == faults
    {
      trace := [];
      this.faults := faults;
    }

    /** Makes a call that can fail: it is recorded, and it fails exactly when
        its position in the trace is one of the faults. */
    method Call(e: Event) returns (ok: bool)
      modifies this
      ensures trace == old(trace) + [e]
      ensures ok <==> |old(trace)| !in faults
    {
      ok := |trace| !in faults;
      trace := trace + [e];
    }

    /** Prints a line; printing does not fail. */
    method Report(e: Event)
      modifies this
      ensures trace == old(trace) + [e]
    {
      trace := trace + [e];
    }
  }
}
