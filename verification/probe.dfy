/**
 The retry shape of `test_speed`: one measurement attempt with the current
 (lazily created) `speedtest.Speedtest` instance, and on any exception one
 more attempt with a fresh instance. What an attempt does on the network is
 abstracted into its outcome.
 */
module Probe {
  import opened Common

  /** The outcome of one attempt: server selection, download and upload all
      succeeded (with the rates already divided down to Mbps), or one of the
      steps, including creating the instance, raised. */
  datatype Attempt = Measured(download: Speed, upload: Speed) | Failed

  /** The pair `test_speed` returns (`None` for `(None, None)`) and how many
      attempts it made. */
  datatype Report = Report(reading: Option<(Speed, Speed)>, attempts: nat)

  /** Reference definition: the rates of the first successful attempt in
      `outcomes`, and how many attempts were consumed to find it. */
  function FirstSuccess(outcomes: seq<Attempt>): (r: Report)
    ensures r.attempts <= |outcomes|
    ensures r.reading.None? ==> r.attempts == |outcomes|
    decreases |outcomes|
  {
    if outcomes == [] then Report(None, 0)
    else if outcomes[0].Measured? then Report(Some((outcomes[0].download, outcomes[0].upload)), 1)
    else
      var rest := FirstSuccess(outcomes[1..]);
      Report(rest.reading, rest.attempts + 1)
  }

  /** `test_speed`: the first attempt, and the retry only if the first one
      raised. */
  function TestSpeed(first: Attempt, retry: Attempt): (r: Report)
    ensures 1 <= r.attempts <= 2
    ensures r.attempts == 2 <==> first.Failed?
    ensures r.reading.None? <==> first.Failed? && retry.Failed?
    ensures first.Measured? ==> r.reading == Some((first.download, first.upload))
    ensures first.Failed? && retry.Measured? ==> r.reading == Some((retry.download, retry.upload))
  {
    match first
    case Measured(d, u) => Report(Some((d, u)), 1)
    case Failed =>
      match retry
      case Measured(d, u) => Report(Some((d, u)), 2)
      case Failed => Report(None, 2)
  }

  /** `test_speed` is the first-success search cut off after two attempts. */
  lemma TestSpeedIsFirstOfTwo(first: Attempt, retry: Attempt)
    ensures TestSpeed(first, retry) == FirstSuccess([first, retry])
  {
    if first.Failed? {
      assert [first, retry][1..] == [retry];
      assert [retry][1..] == [];
      assert FirstSuccess([retry][1..]) == Report(None, 0);
      var tail := FirstSuccess([retry]);
      assert FirstSuccess([first, retry]) == Report(tail.reading, tail.attempts + 1);
    }
  }
}
