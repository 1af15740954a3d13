/** `supervise_message_source` of src/main.rs: rebuilding the input source with bounded backoff. */
module Supervisor {
  const SOURCE_MIN_BACKOFF: nat := 200
  const SOURCE_MAX_BACKOFF: nat := 5000
  const SOURCE_STABLE_RUN: nat := 30000

  /** What the supervisor sees, in milliseconds: a run that ended or was shut down, a wait and its rebuild. */
  datatype Event =
    | RunEnded(elapsed: nat)
    | RunShutDown
    | Slept(buildOk: bool)
    | SleepInterrupted

  /** A history the supervisor can see: waits only after a run ended, and nothing after Ctrl-C. */
  predicate Fits(trace: seq<Event>, running: bool)
    decreases |trace|
  {
    trace == [] ||
    match trace[0]
    case RunEnded(_) => running && Fits(trace[1..], false)
    case RunShutDown => running && trace[1..] == []
    case Slept(ok) => !running && Fits(trace[1..], ok)
    case SleepInterrupted => !running && trace[1..] == []
  }

  predicate EndsInCtrlC(trace: seq<Event>) {
    trace != [] && (trace[|trace| - 1].RunShutDown? || trace[|trace| - 1].SleepInterrupted?)
  }

  // ---- the closed form ----

  function Pow2(k: nat): nat {
    if k == 0 then 1 else 2 * Pow2(k - 1)
  }

  function Min(a: nat, b: nat): nat { if a <= b then a else b }

  /** The k-th wait since the last reset. */
  function Delay(k: nat): nat {
    Min(SOURCE_MIN_BACKOFF * Pow2(k), SOURCE_MAX_BACKOFF)
  }

  /** Waits completed since the last stable run, after a history. */
  function SinceReset(trace: seq<Event>): nat {
    if trace == [] then 0
    else
      var before := SinceReset(trace[..|trace| - 1]);
      match trace[|trace| - 1]
      case RunEnded(elapsed) => if elapsed >= SOURCE_STABLE_RUN then 0 else before
      case Slept(_) => before + 1
      case _ => before
  }

  /** The waits a history must contain, told by the closed form alone. */
  function Waits(trace: seq<Event>): seq<nat> {
    if trace == [] then []
    else
      var init := trace[..|trace| - 1];
      var e := trace[|trace| - 1];
      Waits(init) + if e.Slept? || e.SleepInterrupted? then [Delay(SinceReset(init))] else []
  }

  lemma DoublingStep(k: nat)
    ensures Min(Delay(k) * 2, SOURCE_MAX_BACKOFF) == Delay(k + 1)
    ensures SOURCE_MIN_BACKOFF <= Delay(k) <= SOURCE_MAX_BACKOFF
    ensures Delay(k) <= Delay(k + 1)
  {
    PowPositive(k);
    assert SOURCE_MIN_BACKOFF * Pow2(k + 1) == 2 * (SOURCE_MIN_BACKOFF * Pow2(k));
  }

  lemma PowPositive(k: nat)
    ensures Pow2(k) >= 1
  {
  }

  lemma Snoc(trace: seq<Event>, i: nat)
    requires i < |trace|
    ensures trace[..i + 1][..i] == trace[..i] && trace[..i + 1][i] == trace[i]
  {
  }

  /** How the whole ends: the first build failed, Ctrl-C, or the history goes no further. */
  datatype End = BuildError | Stopped | StillRunning

  /** How the inner loop ends. */
  datatype Rebuild = Rebuilt | Interrupted | Unfinished

  /** The supervisor with its local variable, the waits it made and the calls of `server.stop()`. */
  class Supervisor {
    var backoff: nat
    var waits: seq<nat>
    var stops: nat

    constructor ()
      ensures backoff == SOURCE_MIN_BACKOFF && waits == [] && stops == 0
    {
      backoff, waits, stops := SOURCE_MIN_BACKOFF, [], 0;
    }

    /** Where the loops stand after the first `i` events. */
    ghost predicate At(trace: seq<Event>, i: nat)
      reads this
    {
      && i <= |trace| && waits == Waits(trace[..i]) && backoff == Delay(SinceReset(trace[..i])) && stops == 0
    }

    /** Ctrl-C was the last thing seen, and the server was stopped once. */
    ghost predicate StoppedAfter(trace: seq<Event>)
      reads this
    {
      waits == Waits(trace) && stops == 1 && EndsInCtrlC(trace)
    }

    /** The inner loop: wait, double, rebuild, until a source is built or Ctrl-C. */
    method Reestablish(trace: seq<Event>, start: nat) returns (i: nat, r: Rebuild)
      requires At(trace, start) && Fits(trace[start..], false)
      modifies this
      ensures r.Rebuilt? ==> start < i <= |trace| && At(trace, i) && Fits(trace[i..], true)
                             && (i == |trace| ==> !EndsInCtrlC(trace))
      ensures r.Unfinished? ==> At(trace, |trace|) && (start < |trace| ==> !EndsInCtrlC(trace))
      ensures r.Interrupted? ==> StoppedAfter(trace)
    {
      i := start;
      while i < |trace|
        invariant start <= i && At(trace, i) && Fits(trace[i..], false)
        invariant start < i == |trace| ==> !EndsInCtrlC(trace)
      {
        Snoc(trace, i);
        waits := waits + [backoff];
        if trace[i].SleepInterrupted? {
          stops := stops + 1;
          assert trace[..i + 1] == trace;
          return i, Interrupted;
        }
        DoublingStep(SinceReset(trace[..i]));
        backoff := Min(backoff * 2, SOURCE_MAX_BACKOFF);
        i := i + 1;
        if trace[i - 1].buildOk { return i, Rebuilt; }
      }
      r := Unfinished;
    }

    /** The supervisor: the first build fails fast, later ones are retried; only Ctrl-C stops the server. */
    method Supervise(firstBuildOk: bool, trace: seq<Event>) returns (end: End)
      requires backoff == SOURCE_MIN_BACKOFF && waits == [] && stops == 0
      requires Fits(trace, true)
      modifies this
      ensures !firstBuildOk ==> end == BuildError && stops == 0 && waits == []
      ensures firstBuildOk ==>
                && waits == Waits(trace)
                && end == (if EndsInCtrlC(trace) then Stopped else StillRunning)
                && stops == (if EndsInCtrlC(trace) then 1 else 0)
    {
      if !firstBuildOk { return BuildError; }
      var i := 0;
      while i < |trace|
        invariant At(trace, i) && Fits(trace[i..], true)
        invariant i == |trace| ==> !EndsInCtrlC(trace)
      {
        Snoc(trace, i);
        if trace[i].RunShutDown? {
          stops := stops + 1;
          assert trace[..i + 1] == trace;
          return Stopped;
        }
        if trace[i].elapsed >= SOURCE_STABLE_RUN {
          backoff := SOURCE_MIN_BACKOFF;
        }
        var next, r := Reestablish(trace, i + 1);
        if r.Interrupted? { return Stopped; }
        if r.Unfinished? {
          assert trace[..|trace|] == trace;
          return StillRunning;
        }
        i := next;
      }
      assert trace[..i] == trace;
      end := StillRunning;
    }
  }

  // ---- what the closed form says about every history ----

  function Sum(waits: seq<nat>): nat {
    if waits == [] then 0 else Sum(waits[..|waits| - 1]) + waits[|waits| - 1]
  }

  lemma SumSnoc(waits: seq<nat>, w: nat)
    ensures Sum(waits + [w]) == Sum(waits) + w
  {
    assert (waits + [w])[..|waits|] == waits;
  }

  predicate NoStableRun(trace: seq<Event>) {
    forall i | 0 <= i < |trace| :: trace[i].RunEnded? ==> trace[i].elapsed < 30_000
  }

  lemma {:induction false} WaitsBounded(trace: seq<Event>)
    ensures forall i | 0 <= i < |Waits(trace)| :: 200 <= Waits(trace)[i] <= 5000
  {
    if trace != [] {
      WaitsBounded(trace[..|trace| - 1]);
      DoublingStep(SinceReset(trace[..|trace| - 1]));
    }
  }

  /** Without a stable run the waits are 200, 400, 800, 1600, 3200, 5000, 5000, ... whatever the runs and builds do. */
  lemma {:induction false} WaitsWithoutReset(trace: seq<Event>)
    requires Fits(trace, true) || Fits(trace, false)
    requires NoStableRun(trace)
    ensures forall k | 0 <= k < |Waits(trace)| :: Waits(trace)[k] == Delay(k) == Min(200 * Pow2(k), 5000)
    ensures |Waits(trace)| == SinceReset(trace) + if trace != [] && trace[|trace| - 1].SleepInterrupted? then 1 else 0
    decreases |trace|
  {
    if trace != [] {
      var init := trace[..|trace| - 1];
      FitsInit(trace, true);
      FitsInit(trace, false);
      WaitsWithoutReset(init);
    }
  }

  /** A history may be cut short, and nothing follows Ctrl-C. */
  lemma {:induction false} FitsInit(trace: seq<Event>, running: bool)
    requires trace != []
    ensures Fits(trace, running) ==> Fits(trace[..|trace| - 1], running)
    ensures Fits(trace, running) ==> !EndsInCtrlC(trace[..|trace| - 1])
    decreases |trace|
  {
    if Fits(trace, running) && |trace| > 1 {
      var rest := trace[1..];
      FitsInit(rest, trace[0].Slept? && trace[0].buildOk);
      assert trace[..|trace| - 1][1..] == rest[..|rest| - 1];
    }
  }

  lemma DelayTable()
    ensures Delay(0) == 200 && Delay(1) == 400 && Delay(2) == 800 && Delay(3) == 1600 && Delay(4) == 3200
  {
    assert Pow2(4) == 2 * Pow2(3) && Pow2(3) == 2 * Pow2(2) && Pow2(2) == 2 * Pow2(1) && Pow2(1) == 2 * Pow2(0);
  }

  lemma {:induction false} DelayCapped(k: nat)
    requires k >= 5
    ensures Delay(k) == 5000
  {
    if k == 5 {
      DelayTable();
      assert Pow2(5) == 2 * Pow2(4);
    } else {
      DelayCapped(k - 1);
      assert Pow2(k) == 2 * Pow2(k - 1);
    }
  }

  /** The first n waits take 6200 + 5000 (n - 5) ms in all. */
  lemma {:induction false} TotalOfDelays(waits: seq<nat>)
    requires |waits| >= 5 && forall k | 0 <= k < |waits| :: waits[k] == Delay(k)
    ensures Sum(waits) == 6200 + 5000 * (|waits| - 5)
  {
    if |waits| == 5 {
      DelayTable();
      assert waits == [] + [200] + [400] + [800] + [1600] + [3200];
      SumSnoc([], 200);
      SumSnoc([] + [200], 400);
      SumSnoc([] + [200] + [400], 800);
      SumSnoc([] + [200] + [400] + [800], 1600);
      SumSnoc([] + [200] + [400] + [800] + [1600], 3200);
    } else {
      TotalOfDelays(waits[..|waits| - 1]);
      DelayCapped(|waits| - 1);
    }
  }

  /** Over every history without a stable run: non-decreasing waits and their exact total. */
  lemma BackoffClosedForm(trace: seq<Event>)
    requires Fits(trace, true) && NoStableRun(trace)
    ensures forall i, j | 0 <= i <= j < |Waits(trace)| :: Waits(trace)[i] <= Waits(trace)[j]
    ensures |Waits(trace)| >= 5 ==> Sum(Waits(trace)) == 6200 + 5000 * (|Waits(trace)| - 5)
  {
    WaitsWithoutReset(trace);
    forall i, j | 0 <= i <= j < |Waits(trace)| ensures Waits(trace)[i] <= Waits(trace)[j] {
      DelayMonotone(i, j);
    }
    if |Waits(trace)| >= 5 {
      TotalOfDelays(Waits(trace));
    }
  }

  lemma {:induction false} DelayMonotone(i: nat, j: nat)
    requires i <= j
    ensures Delay(i) <= Delay(j)
    decreases j
  {
    if i < j {
      DelayMonotone(i, j - 1);
      DoublingStep(j - 1);
    }
  }

  /** A shorter run does not, so the wait goes on doubling up to its bound. */
  lemma ShortRunKeepsDoubling(trace: seq<Event>, elapsed: nat, ok: bool, event: Event)
    requires elapsed < 30_000 && (event.Slept? || event.SleepInterrupted?)
    ensures var before := Waits(trace + [Slept(ok)]);
            && before != []
            && Waits(trace + [Slept(ok), RunEnded(elapsed), event])
               == before + [Min(2 * before[|before| - 1], 5000)]
  {
    var one, two, all := trace + [Slept(ok)], trace + [Slept(ok), RunEnded(elapsed)], trace + [Slept(ok), RunEnded(elapsed), event];
    assert one[..|trace|] == trace && two[..|one|] == one && all[..|two|] == two;
    var k := SinceReset(trace);
    DoublingStep(k);
    assert Waits(two) == Waits(one) && Waits(one)[|Waits(one)| - 1] == Delay(k);
    assert SinceReset(two) == k + 1 && Waits(all) == Waits(two) + [Delay(k + 1)];
  }

  /** A stable run starts the waits over. */
  lemma StableRunResets(trace: seq<Event>, elapsed: nat, event: Event)
    requires elapsed >= 30_000 && (event.Slept? || event.SleepInterrupted?)
    ensures Waits(trace + [RunEnded(elapsed), event]) == Waits(trace) + [200]
  {
    var once := trace + [RunEnded(elapsed)];
    assert (trace + [RunEnded(elapsed), event])[..|trace| + 1] == once && once[..|trace|] == trace;
    DelayTable();
  }
}
