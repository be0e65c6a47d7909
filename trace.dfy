/** What a fill run does to the world outside the process, as a sequence of
    events: filesystem calls, storage-engine calls and the progress lines it
    prints. A script is such a sequence together with how the run ends. */
module Trace {
  import opened Config
  import opened Entropy

  datatype Event =
    | AlreadyExists(path: string)      // the warning printed when the database is kept
    | RemoveFile(path: string)
    | Open(path: string, config: EnvConfig)
    | Begin                            // begin a read-write transaction
    | CreateTable(name: string)
    | Put(key: seq<byte>, value: seq<byte>)
    | DbStat                           // occupancy statistics of the table
    | Commit
    | Progress(committed: nat, inserted: nat)
    | Sync(force: bool)

  /** `Ok`: the function returned success; `Err`: it returned an error;
      `Panic`: an `unwrap` aborted the process. */
  datatype Outcome = Ok | Err | Panic

  datatype Script = Script(events: seq<Event>, final: Outcome)

  /** The calls whose failure ends the run. A failed `remove_file` is ignored
      and printing is not treated as failing. */
  predicate Fatal(e: Event)
  {
    e.Open? || e.Begin? || e.CreateTable? || e.Put? || e.DbStat? || e.Commit? || e.Sync?
  }

  /** How a failing call ends the run: calls the source unwraps panic, calls it
      propagates with `?` make the function return an error. */
  function FailureOf(e: Event): (o: Outcome)
    requires Fatal(e)
    ensures o != Ok
    ensures o == Panic <==> e.Begin? || e.Put? || e.DbStat?
    ensures o == Err <==> e.Open? || e.CreateTable? || e.Commit? || e.Sync?
  {
    if e.Begin? || e.Put? || e.DbStat? then Panic else Err
  }

  /** No call at a position in `[lo, hi)` is both fatal and failing. The
      environment is described by `faults`: the call made as the i-th event of
      the run fails exactly when i is in `faults`. */
  ghost predicate NoFatalIn(events: seq<Event>, faults: set<nat>, lo: nat, hi: nat)
    requires hi <= |events|
  {
    forall j :: lo <= j < hi && j in faults ==> !Fatal(events[j])
  }

  /** The script `s` runs from position `i` on, stopping at the first failing
      fatal call. */
  function Cut(s: Script, faults: set<nat>, i: nat): (r: Script)
    requires i <= |s.events|
    decreases |s.events| - i
    ensures r.events <= s.events
    ensures r == s || (i < |r.events| && Fatal(s.events[|r.events| - 1])
                       && r.final == FailureOf(s.events[|r.events| - 1]))
  {
    if i == |s.events| then s
    else if i in faults && Fatal(s.events[i]) then Script(s.events[..i + 1], FailureOf(s.events[i]))
    else Cut(s, faults, i + 1)
  }

  /** What actually happens when a run that would follow `s` meets the faults. */
  function Run(s: Script, faults: set<nat>): (r: Script)
  {
    Cut(s, faults, 0)
  }

  /** Calls before `i` that cannot fail change nothing about where the run stops. */
  lemma {:induction false} CutSkip(s: Script, faults: set<nat>, i: nat)
    requires i <= |s.events|
    requires NoFatalIn(s.events, faults, 0, i)
    ensures Run(s, faults) == Cut(s, faults, i)
  {
    if i > 0 {
      CutSkip(s, faults, i - 1);
    }
  }

  /** The first failing fatal call ends the run: the events stop right after
      it and the outcome is that call's failure. */
  lemma RunFailsAt(s: Script, faults: set<nat>, i: nat)
    requires i < |s.events|
    requires NoFatalIn(s.events, faults, 0, i)
    requires i in faults && Fatal(s.events[i])
    ensures Run(s, faults) == Script(s.events[..i + 1], FailureOf(s.events[i]))
  {
    CutSkip(s, faults, i);
  }

  /** A run in which no fatal call fails follows its script to the end. */
  lemma RunCompletes(s: Script, faults: set<nat>)
    requires NoFatalIn(s.events, faults, 0, |s.events|)
    ensures Run(s, faults) == s
  {
    CutSkip(s, faults, |s.events|);
  }

  lemma NoFatalWiden(events: seq<Event>, faults: set<nat>, i: nat, hi: nat)
    requires i < hi <= |events|
    requires !(i in faults && Fatal(events[i]))
    requires NoFatalIn(events, faults, i + 1, hi)
    ensures NoFatalIn(events, faults, i, hi)
  {
  }

  lemma {:induction false} CutCases(s: Script, faults: set<nat>, i: nat)
    requires i <= |s.events|
    ensures (NoFatalIn(s.events, faults, i, |s.events|) && Cut(s, faults, i) == s)
         || (exists j :: i <= j < |s.events| && j in faults && Fatal(s.events[j])
                         && NoFatalIn(s.events, faults, i, j)
                         && Cut(s, faults, i) == Script(s.events[..j + 1], FailureOf(s.events[j])))
    decreases |s.events| - i
  {
    if i == |s.events| {
      assert NoFatalIn(s.events, faults, i, |s.events|);
    } else if i in faults && Fatal(s.events[i]) {
      assert NoFatalIn(s.events, faults, i, i);
      assert Cut(s, faults, i) == Script(s.events[..i + 1], FailureOf(s.events[i]));
    } else {
      CutCases(s, faults, i + 1);
      assert Cut(s, faults, i) == Cut(s, faults, i + 1);
      if NoFatalIn(s.events, faults, i + 1, |s.events|) && Cut(s, faults, i + 1) == s {
        NoFatalWiden(s.events, faults, i, |s.events|);
      } else {
        var j :| i + 1 <= j < |s.events| && j in faults && Fatal(s.events[j])
                 && NoFatalIn(s.events, faults, i + 1, j)
                 && Cut(s, faults, i + 1) == Script(s.events[..j + 1], FailureOf(s.events[j]));
        NoFatalWiden(s.events, faults, i, j);
      }
    }
  }

  /** Every run either follows its script completely, when no fatal call
      fails, or stops after the first failing fatal call with that call's
      failure. In particular a run ends in `Ok` exactly when its script does
      and none of its fatal calls fails. */
  lemma RunOutcome(s: Script, faults: set<nat>)
    ensures (NoFatalIn(s.events, faults, 0, |s.events|) && Run(s, faults) == s)
         || (exists i :: 0 <= i < |s.events| && i in faults && Fatal(s.events[i])
                         && NoFatalIn(s.events, faults, 0, i)
                         && Run(s, faults) == Script(s.events[..i + 1], FailureOf(s.events[i])))
    ensures Run(s, faults).final == Ok <==> s.final == Ok && NoFatalIn(s.events, faults, 0, |s.events|)
  {
    CutCases(s, faults, 0);
  }

  /** Faults at positions before `i` do not matter to the run from `i` on. */
  lemma {:induction false} CutIgnoresEarlierFaults(s: Script, f: set<nat>, g: set<nat>, i: nat)
    requires i <= |s.events|
    requires forall j :: i <= j < |s.events| ==> (j in f <==> j in g)
    ensures Cut(s, f, i) == Cut(s, g, i)
    decreases |s.events| - i
  {
    if i < |s.events| {
      CutIgnoresEarlierFaults(s, f, g, i + 1);
    }
  }

  /** The events `s` appear in `t` starting at position `at`. */
  ghost predicate Occurs(t: seq<Event>, at: nat, s: seq<Event>)
  {
    at + |s| <= |t| && forall k :: 0 <= k < |s| ==> t[at + k] == s[k]
  }

  lemma OccursSplit(t: seq<Event>, at: nat, a: seq<Event>, b: seq<Event>)
    requires Occurs(t, at, a + b)
    ensures Occurs(t, at, a) && Occurs(t, at + |a|, b)
  {
    forall k | 0 <= k < |a|
      ensures t[at + k] == a[k]
    {
      assert (a + b)[k] == a[k];
    }
    forall k | 0 <= k < |b|
      ensures t[at + |a| + k] == b[k]
    {
      assert (a + b)[|a| + k] == b[k];
    }
  }

  /** A trace that follows `t` and makes the next event of `t` still follows it. */
  lemma PrefixStep(trace: seq<Event>, t: seq<Event>, e: Event)
    requires trace <= t && |trace| < |t| && t[|trace|] == e
    ensures trace + [e] <= t
  {
    assert trace + [e] == t[..|trace| + 1];
  }
}
