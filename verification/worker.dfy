/**
 The monitor's state as the background worker sees it, the constructor,
 and the iterations of `speed_test_worker`: probe, and on a reading push it
 into the three deques and append it to the history file. The thread, the
 `running` flag and `time.sleep` are not modelled; a run is the sequence of
 iterations it goes through.
 */
module Worker {
  import opened Common
  import opened Window
  import opened History
  import opened Probe

  /** The parts of a `NetworkSpeedMonitor` the worker reads and writes. */
  datatype Monitor = Monitor(capacity: nat, windows: Windows, file: Stored)
  {
    predicate Valid() {
      windows.Within(capacity)
    }
  }

  /** `__init__(max_data_points)`: three deques of capacity
      `max_data_points`, seeded by `load_history` from the file. */
  function Init(maxDataPoints: nat, file: Stored): (m: Monitor)
    ensures m.Valid() && m.capacity == maxDataPoints && m.file == file
    ensures !file.Entries? ==> m.windows == Empty
  {
    Monitor(maxDataPoints, LoadHistory(maxDataPoints, file), file)
  }

  /** What the world does during one iteration: the two probe attempts, the
      value of `datetime.now()` and how the file rewrite goes. */
  datatype Round = Round(first: Attempt, retry: Attempt, now: Instant, disk: Disk)

  /** The state after an iteration, and whether the worker thread is still
      alive: an exception out of `save_data` ends `speed_test_worker`. */
  datatype Step = Step(monitor: Monitor, alive: bool)

  /** The sample an iteration records, if its probe produced a reading. */
  function Accept(round: Round): (s: Option<Sample>)
    ensures s.Some? <==> round.first.Measured? || round.retry.Measured?
    ensures s.Some? ==> s.value.timestamp == round.now
    ensures round.first.Measured? ==>
      s == Some(Sample(round.now, round.first.download, round.first.upload))
    ensures round.first.Failed? && round.retry.Measured? ==>
      s == Some(Sample(round.now, round.retry.download, round.retry.upload))
  {
    match TestSpeed(round.first, round.retry).reading
    case Some(rates) => Some(Sample(round.now, rates.0, rates.1))
    case None => None
  }

  /** One iteration of the `while self.running` loop. */
  function Cycle(m: Monitor, round: Round): (r: Step)
    requires m.Valid()
    ensures r.monitor.Valid() && r.monitor.capacity == m.capacity
    ensures Accept(round).None? ==> r == Step(m, true)
    ensures r.alive <==> Accept(round).None? || (!m.file.NotAList? && round.disk.Healthy?)
    ensures Accept(round).Some? ==>
      var s := Accept(round).value;
      && r.monitor.windows.timestamps == Last(m.windows.timestamps + [s.timestamp], m.capacity)
      && r.monitor.windows.downloads == Last(m.windows.downloads + [s.download], m.capacity)
      && r.monitor.windows.uploads == Last(m.windows.uploads + [s.upload], m.capacity)
      && (m.windows.SameLength() ==> r.monitor.windows.SameLength())
      && r.monitor.file == SaveData(m.file, s, round.disk).file
  {
    match Accept(round)
    case None => Step(m, true)
    case Some(s) =>
      var pushed := m.windows.PushSample(s, m.capacity);
      var saved := SaveData(m.file, s, round.disk);
      Step(Monitor(m.capacity, pushed, saved.file), saved.raised.None?)
  }

  /** The samples the rounds produce, in order. */
  function Accepted(rounds: seq<Round>): (ss: seq<Sample>)
    ensures |ss| <= |rounds|
    decreases |rounds|
  {
    if rounds == [] then []
    else
      match Accept(rounds[0])
      case Some(s) => [s] + Accepted(rounds[1..])
      case None => Accepted(rounds[1..])
  }

  /** The worker goes through `rounds` in order and stops at the first
      iteration whose `save_data` raises. */
  function Run(m: Monitor, rounds: seq<Round>): (r: Step)
    requires m.Valid()
    ensures r.monitor.Valid() && r.monitor.capacity == m.capacity
    ensures Accepted(rounds) == [] ==> r == Step(m, true)
    ensures m.windows.SameLength() ==> r.monitor.windows.SameLength()
    decreases |rounds|
  {
    if rounds == [] then Step(m, true)
    else
      var s := Cycle(m, rounds[0]);
      if s.alive then Run(s.monitor, rounds[1..]) else s
  }

  predicate HealthyDisk(rounds: seq<Round>) {
    forall i :: 0 <= i < |rounds| ==> rounds[i].disk.Healthy?
  }

  /** With a writable disk and a file that is a list (or absent or
      unreadable), the worker never dies; the deques receive exactly the
      accepted samples, in order, and the file holds the last 1000 records
      of the old list followed by them. Failed probes leave no gap entry. */
  lemma {:induction false} RunWithHealthyDisk(m: Monitor, rounds: seq<Round>)
    requires m.Valid() && !m.file.NotAList? && HealthyDisk(rounds)
    ensures var r := Run(m, rounds);
      && r.alive
      && r.monitor.windows == PushSamples(m.windows, Accepted(rounds), m.capacity)
      && (Accepted(rounds) == [] ==> r.monitor.file == m.file)
      && (Accepted(rounds) != [] ==>
            r.monitor.file == Entries(Last(PriorRecords(m.file) + Completes(Accepted(rounds)), HistoryCap)))
    decreases |rounds|
  {
    if rounds != [] {
      var rest := rounds[1..];
      var step := Cycle(m, rounds[0]);
      assert HealthyDisk(rest) by {
        forall i | 0 <= i < |rest| ensures rest[i].disk.Healthy? {
          assert rest[i] == rounds[i + 1];
        }
      }
      assert rounds[0].disk.Healthy?;
      assert step.alive;
      assert Run(m, rounds) == Run(step.monitor, rest);
      RunWithHealthyDisk(step.monitor, rest);
      match Accept(rounds[0])
      case None =>
        assert step.monitor == m;
        assert Accepted(rounds) == Accepted(rest);
      case Some(s) =>
        assert Accepted(rounds) == [s] + Accepted(rest);
        assert step.monitor.windows == m.windows.PushSample(s, m.capacity);
        PushSamplesCons(m.windows, s, Accepted(rest), m.capacity);
        FileAfterAccept(m.file, s, Accepted(rest));
    }
  }

  /** The file after saving `s` and then the samples `acc`. */
  lemma FileAfterAccept(file: Stored, s: Sample, acc: seq<Sample>)
    requires !file.NotAList?
    ensures var f := Entries(Last(PriorRecords(file) + [Complete(s)], HistoryCap));
      && (acc == [] ==> f == Entries(Last(PriorRecords(file) + Completes([s] + acc), HistoryCap)))
      && (acc != [] ==> Entries(Last(PriorRecords(f) + Completes(acc), HistoryCap))
                          == Entries(Last(PriorRecords(file) + Completes([s] + acc), HistoryCap)))
  {
    var prior := PriorRecords(file);
    ProjectAppend([s], acc, AsRecord);
    assert Completes([s]) == [Complete(s)];
    assert Completes([s] + acc) == [Complete(s)] + Completes(acc);
    LastThenAppend(prior + [Complete(s)], Completes(acc), HistoryCap);
    assert prior + [Complete(s)] + Completes(acc) == prior + Completes([s] + acc);
    if acc == [] {
      assert [s] + acc == [s];
    }
  }

  /** Starting from deques that hold the samples `xs` side by side, a run with
      a writable disk leaves them holding the newest `capacity` samples of
      `xs` followed by the accepted ones, still side by side. */
  lemma {:induction false} RunKeepsWindowsParallel(m: Monitor, xs: seq<Sample>, rounds: seq<Round>)
    requires m.Valid() && !m.file.NotAList? && HealthyDisk(rounds)
    requires m.windows == Split(xs)
    ensures Run(m, rounds).monitor.windows == Split(Last(xs + Accepted(rounds), m.capacity))
    ensures Run(m, rounds).monitor.windows.SameLength()
  {
    RunWithHealthyDisk(m, rounds);
    PushSamplesSplit(xs, Accepted(rounds), m.capacity);
  }

  /** Once an iteration has raised, later rounds change nothing: the worker
      thread is gone. */
  lemma {:induction false} RunHaltsOnRaise(m: Monitor, rounds: seq<Round>, more: seq<Round>)
    requires m.Valid() && !Run(m, rounds).alive
    ensures Run(m, rounds + more) == Run(m, rounds)
    decreases |rounds|
  {
    assert rounds != [];
    assert (rounds + more)[0] == rounds[0];
    assert (rounds + more)[1..] == rounds[1..] + more;
    var s := Cycle(m, rounds[0]);
    if s.alive {
      RunHaltsOnRaise(s.monitor, rounds[1..], more);
    }
  }

  /** The file a run with a writable disk leaves behind, started from a
      file written from the samples `ss`: the newest 1000 of `ss` followed
      by the accepted samples, or the untouched file if nothing was accepted. */
  lemma {:induction false} FileAfterHealthyRun(m: Monitor, ss: seq<Sample>, rounds: seq<Round>)
    requires m.Valid() && m.file == Entries(Completes(ss)) && HealthyDisk(rounds)
    ensures Run(m, rounds).monitor.file
      == Entries(Completes(if Accepted(rounds) == [] then ss else Last(ss + Accepted(rounds), HistoryCap)))
  {
    var acc := Accepted(rounds);
    RunWithHealthyDisk(m, rounds);
    if acc != [] {
      var u := ss + acc;
      var h := Last(u, HistoryCap);
      ProjectAppend(ss, acc, AsRecord);
      assert PriorRecords(m.file) + Completes(acc) == Completes(u);
      ProjectSuffix(u, |u| - |h|, AsRecord);
      assert Last(Completes(u), HistoryCap) == Completes(h);
    }
  }

  /** A restart reloads what the live deques held, provided the window is no
      larger than the history cap: the file then holds at least as many
      recent samples as the window can. With a larger window (the entry
      point uses 8640) a restart restores only the newest 1000 samples. */
  lemma {:induction false} RestartRestoresWindow(cap: nat, ss: seq<Sample>, rounds: seq<Round>)
    requires HealthyDisk(rounds)
    ensures var r := Run(Init(cap, Entries(Completes(ss))), rounds);
      var live := Split(Last(ss + Accepted(rounds), cap));
      var reloaded := LoadHistory(cap, r.monitor.file);
      && r.monitor.windows == live
      && (cap <= HistoryCap ==> reloaded == live)
      && (Accepted(rounds) != [] ==> reloaded == Split(Last(ss + Accepted(rounds), Min(cap, HistoryCap))))
  {
    var m := Init(cap, Entries(Completes(ss)));
    var acc := Accepted(rounds);
    SeedFromCompleteHistory(cap, ss);
    RunKeepsWindowsParallel(m, Last(ss, cap), rounds);
    LastThenAppend(ss, acc, cap);
    FileAfterHealthyRun(m, ss, rounds);
    if acc == [] {
      assert ss + acc == ss;
    } else {
      var u := ss + acc;
      SeedFromCompleteHistory(cap, Last(u, HistoryCap));
      LastOfLast(u, HistoryCap, cap);
      assert Min(HistoryCap, cap) == Min(cap, HistoryCap);
    }
  }
}
