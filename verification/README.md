# Network speed monitor: sample retention, modelled in Dafny

`network_speed_monitor.py` runs a background thread. The thread measures
download and upload throughput at a fixed interval and keeps the samples in
two places:

- three bounded in-memory deques (`timestamps`, `download_speeds`,
  `upload_speeds`, each `deque(maxlen=max_data_points)`), which feed the
  live graph;
- a JSON history file, `speed_history.json`, rewritten on every sample and
  capped at its newest 1000 entries.

On start-up the deques are seeded from the tail of that file.

This project models that retention core as pure functions over immutable
data and proves what it does. The modules are:

- `Common` (`common.dfy`): the sample record, plus two reference meanings.
  `Last(s, k)` is the newest `k` elements of `s`. `PyTail(s, k)` is Python's
  `s[-k:]`, including its `-0` case.
- `Window` (`window.dfy`): `deque.append` with a `maxlen`, and the three
  parallel deques.
- `History` (`history.dfy`): the persisted file, `load_history` and
  `save_data`. A JSON entry is classified by how far `load_history` gets with
  it before it raises. A file is absent, unreadable, a non-list JSON value,
  or a list.
- `Probe` (`probe.dfy`): the two-attempt shape of `test_speed`. The outcome
  of a network attempt is an input.
- `Worker` (`worker.dfy`): the constructor and the iterations of
  `speed_test_worker`. A run is the sequence of rounds the loop goes
  through. Each round supplies the probe outcomes, the clock reading and how
  the file rewrite goes.
- `TickLabels` (`ticks.dfy`): which sample indices `update_graph` labels on
  the x-axis.

Four behaviours of the code are easy to miss, and the model states them:

- An exception from `save_data` ends the worker thread, and the deques have
  already received the sample by then. The exception comes from
  `data.append` on a file holding a non-list JSON value, or from the
  rewrite. No `try` surrounds either of them in `save_data`, and none
  surrounds the call in `speed_test_worker` (`Worker.Cycle`,
  `Worker.RunHaltsOnRaise`).
- The rewrite opens the file for writing, which truncates it, before
  `json.dump` runs. A dump that raises part-way leaves a file that the next
  `load_history` cannot read, so the whole history is lost
  (`History.SaveData`, case `DumpFails`).
- The entry point builds the monitor with `max_data_points=8640`, while the
  file keeps 1000 entries. `Worker.RestartRestoresWindow` covers a run in
  which every rewrite succeeds and which starts from a file of well-formed
  entries. For such a run it proves that a restart restores the live window
  when the window is no larger than 1000. Once a sample has been saved with
  a larger window, a restart restores only the newest 1000 samples. A run in
  which a rewrite fails can leave a file that restores nothing.
- `load_history` can leave the three deques with different lengths: an entry
  missing `'upload'` has already put its timestamp and download in. The
  model's `SameLength` predicate compares lengths only. It does not mean that
  position `i` of each deque comes from the same record:
  `History.SameLengthIsNotPairing` shows equal lengths with the oldest
  positions taken from different records. Only the `Split`-based lemmas
  (`Window.PushSamplesSplit`, `Worker.RunKeepsWindowsParallel`,
  `History.SeedFromCompleteHistory`) state a real pairing of positions with
  samples.

## Model

| member | source | states |
|---|---|---|
| `Common.PyTail` | network_speed_monitor.py:31 | `data[-k:]` is the newest `k` elements for `k > 0`, and the whole list for `k == 0` |
| `Window.Push` | network_speed_monitor.py:16-18 | appending to a `deque(maxlen=cap)` keeps at most `cap` elements: the newest `cap` of the old contents followed by the new element |
| `Window.Windows.PushSample` | network_speed_monitor.py:91-93 | each of the three deques receives its field of the sample as a `maxlen` append, stays within capacity, and deques of equal length keep equal lengths |
| `Window.PushAllKeepsNewest` | network_speed_monitor.py:16-18 | after any sequence of appends, the deque holds the newest `cap` of everything it ever received, in insertion order |
| `Window.FreshWindowHoldsNewest` | network_speed_monitor.py:16-18 | a fresh deque fed `xs` holds exactly the last `min(len(xs), cap)` of them |
| `Window.PushSamplesSplit` | network_speed_monitor.py:91-93 | appending samples field by field to three deques that hold `xs` side by side leaves them holding the newest `cap` samples of `xs` followed by the new ones, still side by side |
| `History.Interrupted` | network_speed_monitor.py:32-35 | an entry that raises part-way never reaches the upload deque, and the deques stay within capacity |
| `History.LoadEntries` | network_speed_monitor.py:31-36 | the loop pushes exactly the leading complete entries in order; if a malformed entry follows them, that entry is applied part-way and nothing after it is read |
| `History.LoadHistory` | network_speed_monitor.py:25-36 | an absent or unreadable file, or one that is not a JSON list, leaves the deques empty; the deques never exceed their capacity |
| `History.LoadCompletePrefix` | network_speed_monitor.py:31-34 | well-formed entries are appended one after another before anything after them is read |
| `History.SeedFromCompleteTail` | network_speed_monitor.py:27-34 | when the newest `cap` entries of the list are all well-formed, seeding yields the newest `cap` of them, oldest first, in three deques that pair each position with one sample, whatever older entries precede them |
| `History.OldMalformedEntryIsSkipped` | network_speed_monitor.py:31 | with capacity 2, a malformed oldest entry before two well-formed ones is never read: the deques hold the two samples |
| `History.SeedFromCompleteHistory` | network_speed_monitor.py:27-34 | seeding from a file of `L` well-formed entries yields the last `min(L, cap)` of them, oldest first, in three deques that pair each position with one sample |
| `History.SeedStopsAtFirstMalformed` | network_speed_monitor.py:28-36 | the first malformed entry among the newest `cap` entries ends seeding: earlier entries of that tail stay loaded, the partial appends of the bad entry stay, and later entries are never read |
| `History.MissingUploadLeavesUploadsBehind` | network_speed_monitor.py:32-35 | an entry missing `'upload'` after complete entries `ss` leaves the timestamp and download deques one longer than the upload deque, ending with the broken entry's values |
| `History.SameLengthIsNotPairing` | network_speed_monitor.py:31-35 | for any sample `a`, entry `(t, d)` missing `'upload'` and two later samples, deques of capacity 3 seeded from `[a, (t, d)]` and fed the two samples have equal lengths, yet the oldest timestamp is `t` while the oldest upload is `a`'s |
| `History.SaveData` | network_speed_monitor.py:38-57 | the save succeeds iff the file is not a non-list JSON value and the disk write succeeds; then the file holds the newest 1000 of the old entries plus the new one, and the new one is last; a non-list file or a failed open leaves the file as it was; a failed dump leaves it unreadable |
| `Probe.TestSpeed` | network_speed_monitor.py:59-83 | one or two attempts; the retry happens iff the first attempt raised; no reading iff both attempts raised; otherwise the first successful attempt's rates |
| `Probe.TestSpeedIsFirstOfTwo` | network_speed_monitor.py:59-83 | `test_speed` equals a first-success search over the two attempts |
| `Worker.Init` | network_speed_monitor.py:13-23 | the constructor's deques have the given capacity, are within it, and are empty unless the file holds a list |
| `Worker.Accept` | network_speed_monitor.py:88-90 | a round yields a sample iff at least one attempt measured; the sample carries that round's clock reading and the rates of the first attempt that measured |
| `Worker.Cycle` | network_speed_monitor.py:87-97 | a failed probe leaves the state unchanged; otherwise each deque receives its field of the sample, equal lengths are kept and the file is what `save_data` leaves; the worker survives iff the probe failed or the save did not raise |
| `Worker.Run` | network_speed_monitor.py:85-97 | the loop keeps the deques within capacity and keeps equal lengths equal; rounds whose probes all fail leave the state unchanged and the worker alive |
| `Worker.RunWithHealthyDisk` | network_speed_monitor.py:85-97 | with a writable disk and a file that is a list, absent or unreadable, the worker never dies, the deques receive exactly the accepted samples in order, and the file holds the newest 1000 of the old entries followed by them, or is left untouched when nothing was accepted |
| `Worker.FileAfterHealthyRun` | network_speed_monitor.py:46-57 | starting from a file written from samples `ss`, a run with a writable disk leaves the newest 1000 of `ss` followed by the accepted samples, or the untouched file if nothing was accepted |
| `Worker.RunKeepsWindowsParallel` | network_speed_monitor.py:89-94 | deques that pair each position with one sample keep doing so over a run with a writable disk, and hold the newest `cap` of the old samples followed by the accepted ones |
| `Worker.RunHaltsOnRaise` | network_speed_monitor.py:54-57 | once a save has raised, later rounds change nothing: the worker thread is gone |
| `Worker.RestartRestoresWindow` | network_speed_monitor.py:25-57 | for a run in which every rewrite succeeds, started from a file of well-formed entries: reloading the file restores the live deques when `cap <= 1000`, and once a sample has been saved it restores the newest `min(cap, 1000)` samples |
| `TickLabels.Range` | network_speed_monitor.py:241 | `range(start, stop, step)` is empty iff `start >= stop`, starts at `start`, advances by `step`, and its last element lies in the final stride below `stop` |
| `TickLabels.Stride` | network_speed_monitor.py:240 | the stride is at least 1; it is 1 when `n < max_labels`, and otherwise the largest `step` with `step * max_labels <= n` |
| `TickLabels.Strided` | network_speed_monitor.py:240-243 | the strided choice is a labelling with that stride: it starts at 0, ends at `n - 1` and strictly increases, with gaps of exactly the stride except the last one |
| `TickLabels.Ticks` | network_speed_monitor.py:236-243 | every index is labelled when `n <= max_labels`; otherwise the positions are the stride-`max(1, n // max_labels)` labelling ending at `n - 1` |
| `TickLabels.TicksWithinStride` | network_speed_monitor.py:239-243 | with more samples than labels, the positions start at 0, end at `n - 1`, stay below `n`, and strictly increase, with no gap wider than the stride |
| `TickLabels.SpacedIsUnique` | network_speed_monitor.py:240-243 | the description of a labelling (first 0, last `n - 1`, fixed gaps but the last) allows only one sequence |
| `TickLabels.TickCountBounds` | network_speed_monitor.py:236-243 | with more samples than labels, between `max_labels` and `2 * max_labels` positions are labelled; `max_labels` is not an upper bound (15 samples with a budget of 8 get 15 labels) |
| `TickLabels.FifteenSamplesEightLabels` | network_speed_monitor.py:236-243 | 15 samples with a budget of 8 get 15 labels |

## Left out

- `History.Interrupted`: states only that the upload deque is untouched and that capacity holds. The exact partial appends are stated by `History.SeedStopsAtFirstMalformed`.
- Matplotlib rendering, colours, the y-axis scaling and the average/min/max statistics: these are presentation over floating point.
- The aspect-ratio choice of `max_labels` (4, 6 or 8): `max_labels` is an input to `TickLabels.Ticks`. The model covers every positive budget.
- The network measurement in `speedtest`, the lazy `self.st` instance and the division to Mbps. An attempt is an input, `Measured(download, upload)` or `Failed`.
- The thread, the `running` flag, `time.sleep(test_interval)` and the concurrent reads by the UI timer. A run is the sequence of rounds the loop completes.
- File access, `json.load`/`json.dump` and the ISO-8601 text of timestamps. A file is one of the four shapes of `History.Stored`, and an entry is one of the four shapes of `History.Record`. Timestamps are opaque integers.
- Entry values are not type-checked by the code (`download` may be any JSON value). The model carries them as reals.
- A negative `max_data_points`: `deque` raises `ValueError` in the constructor. Capacities are natural numbers.
- The `print` logging in `test_speed` and `speed_test_worker`.
