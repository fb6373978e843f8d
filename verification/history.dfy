/**
 The persisted history `speed_history.json` and the two operations on it:
 `load_history`, which seeds the windows from the tail of the file, and
 `save_data`, which rewrites the file with the new sample appended and the
 list capped at 1000 entries. JSON parsing, file access and the ISO-8601
 timestamp encoding are abstracted into the shapes below.
 */
module History {
  import opened Common
  import opened Window

  /** One element of the persisted JSON list, classified by how far
      `load_history` gets with it before an exception stops the loop. */
  datatype Record =
    | Complete(sample: Sample)
      // 'timestamp' parses, 'download' is present, 'upload' is missing
    | MissingUpload(timestamp: Instant, download: Speed)
      // 'timestamp' parses, 'download' is missing
    | MissingDownload(timestamp: Instant)
      // not an object, no 'timestamp' key, or a value `fromisoformat` rejects
    | BadTimestamp

  /** What the history file holds, as seen by `json.load`. */
  datatype Stored =
    | Missing                         // no file at the path
    | Unreadable                      // the file cannot be opened or is not valid JSON
    | NotAList                        // valid JSON whose top-level value is not a list
    | Entries(records: seq<Record>)   // a JSON list

  function AsRecord(s: Sample): Record { Complete(s) }

  /** The records of a history written by `save_data` from the samples `ss`. */
  function Completes(ss: seq<Sample>): (rs: seq<Record>)
    ensures |rs| == |ss|
    ensures forall i :: 0 <= i < |ss| ==> rs[i] == Complete(ss[i])
  {
    Project(ss, AsRecord)
  }

  /** The deques left behind when the entry `bad` raises part-way through
      its three appends: the appends that already happened stay. */
  function Interrupted(w: Windows, bad: Record, cap: nat): (r: Windows)
    requires w.Within(cap)
    requires !bad.Complete?
    ensures r.Within(cap)
    ensures r.uploads == w.uploads
  {
    match bad
    case MissingUpload(t, d) =>
      w.(timestamps := Push(w.timestamps, t, cap), downloads := Push(w.downloads, d, cap))
    case MissingDownload(t) =>
      w.(timestamps := Push(w.timestamps, t, cap))
    case BadTimestamp => w
  }

  /** Reference definition: the samples of the longest run of complete
      records at the front of `rs`. */
  function LeadingSamples(rs: seq<Record>): (ss: seq<Sample>)
    ensures |ss| <= |rs|
    ensures forall i :: 0 <= i < |ss| ==> rs[i] == Complete(ss[i])
    ensures |ss| < |rs| ==> !rs[|ss|].Complete?
    decreases |rs|
  {
    if rs == [] || !rs[0].Complete? then [] else [rs[0].sample] + LeadingSamples(rs[1..])
  }

  /** The `for entry in ...` loop of `load_history`: every complete entry is
      appended to the three deques; the first malformed one raises, the
      `except` swallows it, and nothing is rolled back. */
  function LoadEntries(w: Windows, rs: seq<Record>, cap: nat): (r: Windows)
    requires w.Within(cap)
    ensures r.Within(cap)
    ensures |LeadingSamples(rs)| == |rs| ==> r == PushSamples(w, LeadingSamples(rs), cap)
    ensures |LeadingSamples(rs)| < |rs| ==>
      r == Interrupted(PushSamples(w, LeadingSamples(rs), cap), rs[|LeadingSamples(rs)|], cap)
    decreases |rs|
  {
    if rs == [] then w
    else if rs[0].Complete? then
      PushSamplesCons(w, rs[0].sample, LeadingSamples(rs[1..]), cap);
      LoadEntries(w.PushSample(rs[0].sample, cap), rs[1..], cap)
    else Interrupted(w, rs[0], cap)
  }

  /** `load_history` run by the constructor on fresh deques of capacity
      `cap`: only a JSON list is read, and only its tail `data[-cap:]`. */
  function LoadHistory(cap: nat, file: Stored): (w: Windows)
    ensures w.Within(cap)
    ensures !file.Entries? ==> w == Empty
  {
    match file
    case Entries(rs) => LoadEntries(Empty, PyTail(rs, cap), cap)
    case _ => Empty
  }

  /** Complete entries are loaded one after the other before whatever
      follows them is looked at. */
  lemma {:induction false} LoadCompletePrefix(w: Windows, ss: seq<Sample>, rest: seq<Record>, cap: nat)
    requires w.Within(cap)
    ensures LoadEntries(w, Completes(ss) + rest, cap) == LoadEntries(PushSamples(w, ss, cap), rest, cap)
    decreases |ss|
  {
    if ss == [] {
      assert Completes(ss) + rest == rest;
    } else {
      var rs := Completes(ss) + rest;
      assert rs[0] == Complete(ss[0]);
      assert rs[1..] == Completes(ss[1..]) + rest;
      LoadCompletePrefix(w.PushSample(ss[0], cap), ss[1..], rest, cap);
    }
  }

  lemma TailOfCompletes(ss: seq<Sample>, cap: nat)
    ensures PyTail(Completes(ss), cap) == Completes(PyTail(ss, cap))
  {
    var start := if cap == 0 || cap >= |ss| then 0 else |ss| - cap;
    ProjectSuffix(ss, start, AsRecord);
  }

  /** Seeding reads only the newest `cap` entries (`data[-cap:]`): when those
      are all well-formed, the deques hold the newest `cap` of them, oldest
      first, whatever older (possibly malformed) entries precede them. */
  lemma {:induction false} SeedFromCompleteTail(cap: nat, rs: seq<Record>, ss: seq<Sample>)
    requires PyTail(rs, cap) == Completes(ss)
    ensures LoadHistory(cap, Entries(rs)) == Split(Last(ss, cap))
    ensures LoadHistory(cap, Entries(rs)).SameLength()
    ensures |LoadHistory(cap, Entries(rs)).timestamps| == Min(|ss|, cap)
  {
    calc {
      LoadHistory(cap, Entries(rs));
      LoadEntries(Empty, Completes(ss), cap);
      { assert Completes(ss) + [] == Completes(ss);
        LoadCompletePrefix(Empty, ss, [], cap); }
      LoadEntries(PushSamples(Empty, ss, cap), [], cap);
      PushSamples(Empty, ss, cap);
      { assert Empty == Split([]);
        PushSamplesSplit([], ss, cap);
        assert [] + ss == ss; }
      Split(Last(ss, cap));
    }
  }

  /** Seeding from a history of well-formed entries yields exactly the last
      `min(L, cap)` of them, oldest first, in three parallel deques. */
  lemma {:induction false} SeedFromCompleteHistory(cap: nat, ss: seq<Sample>)
    ensures LoadHistory(cap, Entries(Completes(ss))) == Split(Last(ss, cap))
    ensures LoadHistory(cap, Entries(Completes(ss))).SameLength()
    ensures |LoadHistory(cap, Entries(Completes(ss))).timestamps| == Min(|ss|, cap)
  {
    var t := PyTail(ss, cap);
    TailOfCompletes(ss, cap);
    SeedFromCompleteTail(cap, Completes(ss), t);
    assert Last(t, cap) == Last(ss, cap);
  }

  /** The reading of `data[-cap:]` in action: with capacity 2, a malformed
      oldest entry is never looked at. */
  lemma OldMalformedEntryIsSkipped(a: Sample, b: Sample)
    ensures LoadHistory(2, Entries([BadTimestamp, Complete(a), Complete(b)])) == Split([a, b])
  {
    var rs := [BadTimestamp, Complete(a), Complete(b)];
    assert PyTail(rs, 2) == Completes([a, b]);
    SeedFromCompleteTail(2, rs, [a, b]);
  }

  /** When entry `i` of the loaded tail is the first malformed one, the
      entries before it stay loaded, followed by whatever part of entry `i`
      was appended before it raised; later entries are never looked at. */
  lemma {:induction false} SeedStopsAtFirstMalformed(cap: nat, rs: seq<Record>, ss: seq<Sample>, bad: Record, rest: seq<Record>)
    requires PyTail(rs, cap) == Completes(ss) + [bad] + rest
    requires !bad.Complete?
    ensures LoadHistory(cap, Entries(rs)) == Interrupted(Split(Last(ss, cap)), bad, cap)
    ensures cap > 0 ==>
      var w := LoadHistory(cap, Entries(rs));
      && w.timestamps == Split(ss).timestamps + (if bad.BadTimestamp? then [] else [bad.timestamp])
      && w.downloads == Split(ss).downloads + (if bad.MissingUpload? then [bad.download] else [])
      && w.uploads == Split(ss).uploads
  {
    assert Completes(ss) + [bad] + rest == Completes(ss) + ([bad] + rest);
    LoadCompletePrefix(Empty, ss, [bad] + rest, cap);
    assert Empty == Split([]);
    PushSamplesSplit([], ss, cap);
    assert [] + ss == ss;
    var w0 := Split(Last(ss, cap));
    assert ([bad] + rest)[0] == bad;
    assert LoadEntries(w0, [bad] + rest, cap) == Interrupted(w0, bad, cap);
    if cap > 0 {
      assert |ss| < |PyTail(rs, cap)| <= cap;
      assert Last(ss, cap) == ss;
      InterruptedWithRoom(ss, bad, cap);
    }
  }

  /** Below capacity, a malformed entry's partial appends land at the back. */
  lemma InterruptedWithRoom(ss: seq<Sample>, bad: Record, cap: nat)
    requires |ss| < cap && !bad.Complete?
    ensures var w := Interrupted(Split(ss), bad, cap);
      && w.timestamps == Split(ss).timestamps + (if bad.BadTimestamp? then [] else [bad.timestamp])
      && w.downloads == Split(ss).downloads + (if bad.MissingUpload? then [bad.download] else [])
      && w.uploads == Split(ss).uploads
  {
    var w := Split(ss);
    match bad
    case MissingUpload(t, d) =>
      PushWithRoom(w.timestamps, t, cap);
      PushWithRoom(w.downloads, d, cap);
    case MissingDownload(t) =>
      PushWithRoom(w.timestamps, t, cap);
    case BadTimestamp =>
  }

  /** An entry without `'upload'` leaves the timestamp and download deques
      one element longer than the upload deque, their last element from the
      broken entry. */
  lemma MissingUploadLeavesUploadsBehind(cap: nat, rs: seq<Record>, ss: seq<Sample>, t: Instant, d: Speed, rest: seq<Record>)
    requires cap > 0
    requires PyTail(rs, cap) == Completes(ss) + [MissingUpload(t, d)] + rest
    ensures var w := LoadHistory(cap, Entries(rs));
      && |w.timestamps| == |w.downloads| == |w.uploads| + 1 == |ss| + 1
      && w.timestamps[|ss|] == t && w.downloads[|ss|] == d
  {
    SeedStopsAtFirstMalformed(cap, rs, ss, MissingUpload(t, d), rest);
  }

  /** Equal lengths do not make the deques parallel. Seeded from a sample
      `a` and an entry without `'upload'`, then fed two samples, the three
      deques of capacity 3 have the same length, yet the oldest timestamp is
      the broken entry's while the oldest upload is `a`'s. */
  lemma SameLengthIsNotPairing(a: Sample, t: Instant, d: Speed, b: Sample, c: Sample)
    ensures var w := LoadHistory(3, Entries([Complete(a), MissingUpload(t, d)]))
        .PushSample(b, 3)
        .PushSample(c, 3);
      && w.SameLength()
      && w.timestamps[0] == t && w.uploads[0] == a.upload
  {
    LoadExample(a, t, d);
    var w0 := Windows([a.timestamp, t], [a.download, d], [a.upload]);
    var w1 := w0.PushSample(b, 3);
    assert w1.timestamps == [a.timestamp, t, b.timestamp] by { PushWithRoom(w0.timestamps, b.timestamp, 3); }
    assert w1.uploads == [a.upload, b.upload] by { PushWithRoom(w0.uploads, b.upload, 3); }
    assert |w1.downloads| == 3 by { PushWithRoom(w0.downloads, b.download, 3); }
    var w2 := w1.PushSample(c, 3);
    assert w2.timestamps == [t, b.timestamp, c.timestamp] by { PushWhenFull(w1.timestamps, c.timestamp, 3); }
    assert w2.uploads == [a.upload, b.upload, c.upload] by { PushWithRoom(w1.uploads, c.upload, 3); }
    assert |w2.downloads| == 3 by { PushWhenFull(w1.downloads, c.download, 3); }
  }

  lemma LoadExample(a: Sample, t: Instant, d: Speed)
    ensures LoadHistory(3, Entries([Complete(a), MissingUpload(t, d)]))
      == Windows([a.timestamp, t], [a.download, d], [a.upload])
  {
    var rs := [Complete(a), MissingUpload(t, d)];
    assert PyTail(rs, 3) == rs;
    var w1 := Empty.PushSample(a, 3);
    assert w1 == Windows([a.timestamp], [a.download], [a.upload]);
    assert rs[1..] == [MissingUpload(t, d)];
    calc {
      LoadHistory(3, Entries(rs));
      LoadEntries(Empty, rs, 3);
      LoadEntries(w1, rs[1..], 3);
      Interrupted(w1, MissingUpload(t, d), 3);
    }
  }

  /** The cap `save_data` applies to the persisted list (`data[-1000:]`). */
  const HistoryCap: nat := 1000

  /** How the rewrite of the file goes, which the model cannot see. */
  datatype Disk =
    | Healthy      // open for writing and `json.dump` both succeed
    | OpenFails    // `open(..., 'w')` raises; the file is left as it was
    | DumpFails    // the file was truncated, then `json.dump` raised part-way

  /** The exceptions `save_data` lets escape. */
  datatype SaveError =
    | AppendToNonList   // the file held a JSON value without `append`
    | WriteFailed       // the rewrite raised

  /** The file after `save_data`, and the exception it raised, if any. */
  datatype Saved = Saved(file: Stored, raised: Option<SaveError>)

  /** The list `save_data` starts from: the stored list, or `[]` when the
      file is absent or cannot be read. */
  function PriorRecords(file: Stored): seq<Record> {
    if file.Entries? then file.records else []
  }

  /** `save_data`: read the old list (or `[]`), append the new entry, write
      back its last 1000 elements. The `append` and the rewrite sit outside
      any `try`, so their exceptions reach the caller. */
  function SaveData(file: Stored, s: Sample, disk: Disk): (r: Saved)
    ensures r.raised.None? <==> !file.NotAList? && disk.Healthy?
    ensures r.raised.None? ==>
      && r.file.Entries?
      && r.file.records == Last(PriorRecords(file) + [Complete(s)], HistoryCap)
      && 0 < |r.file.records| <= HistoryCap
      && r.file.records[|r.file.records| - 1] == Complete(s)
      && (|PriorRecords(file)| < HistoryCap ==> r.file.records == PriorRecords(file) + [Complete(s)])
    ensures file.NotAList? ==> r == Saved(file, Some(AppendToNonList))
    ensures !file.NotAList? && disk.OpenFails? ==> r == Saved(file, Some(WriteFailed))
    ensures !file.NotAList? && disk.DumpFails? ==> r == Saved(Unreadable, Some(WriteFailed))
  {
    if file.NotAList? then Saved(file, Some(AppendToNonList))
    else
      var data := PriorRecords(file) + [Complete(s)];
      match disk
      case Healthy => Saved(Entries(PyTail(data, HistoryCap)), None)
      case OpenFails => Saved(file, Some(WriteFailed))
      case DumpFails => Saved(Unreadable, Some(WriteFailed))
  }
}
