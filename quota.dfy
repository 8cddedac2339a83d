/**
 * The quota gate: a minimal `videos.list` request is issued before any bulk
 * work, and its outcome decides whether the transfer may go on.
 */
module Quota {

  /** How the probe request ended: normally, or with an HTTP error whose text rendering is `message`. */
  datatype ProbeOutcome =
    | ProbeSucceeded
    | ProbeFailed(message: string)

  /** The reason string that the destination service puts in a quota-exhausted error. */
  const QuotaMarker: string := "quotaExceeded"

  /** `needle` stands in `hay` starting at index `i`. */
  predicate OccursAt(needle: string, hay: string, i: int)
  {
    0 <= i && i + |needle| <= |hay| && hay[i..i + |needle|] == needle
  }

  /** Python's `needle in hay` on strings, as a left-to-right scan. */
  function Contains(hay: string, needle: string): bool
    decreases |hay|
  {
    if |hay| < |needle| then false
    else if hay[..|needle|] == needle then true
    else Contains(hay[1..], needle)
  }

  /** The scan finds `needle` exactly when it stands somewhere in `hay`. */
  lemma {:induction false} ContainsIff(hay: string, needle: string)
    ensures Contains(hay, needle) <==> exists i :: OccursAt(needle, hay, i)
    decreases |hay|
  {
    if |hay| < |needle| {
    } else if hay[..|needle|] == needle {
      assert OccursAt(needle, hay, 0);
    } else {
      var tail := hay[1..];
      ContainsIff(tail, needle);
      if exists i :: OccursAt(needle, hay, i) {
        var i :| OccursAt(needle, hay, i);
        assert i != 0;
        assert tail[i - 1..i - 1 + |needle|] == hay[i..i + |needle|];
        assert OccursAt(needle, tail, i - 1);
      }
      if exists j :: OccursAt(needle, tail, j) {
        var j :| OccursAt(needle, tail, j);
        assert tail[j..j + |needle|] == hay[j + 1..j + 1 + |needle|];
        assert OccursAt(needle, hay, j + 1);
      }
    }
  }

  /**
   * check_youtube_quota: the gate is closed only when the probe failed with
   * an error whose text contains "quotaExceeded"; success and every other
   * error leave it open.
   */
  function QuotaAvailable(probe: ProbeOutcome): (available: bool)
    ensures !available <==> probe.ProbeFailed? && exists i :: OccursAt(QuotaMarker, probe.message, i)
  {
    match probe
    case ProbeSucceeded => true
    case ProbeFailed(message) =>
      ContainsIff(message, QuotaMarker);
      !Contains(message, QuotaMarker)
  }

  /** Example: the error text "403 quotaExceeded" closes the gate. */
  lemma QuotaErrorClosesGate()
    ensures !QuotaAvailable(ProbeFailed("403 quotaExceeded"))
  {
    assert OccursAt(QuotaMarker, "403 quotaExceeded", 4);
  }

  /**
   * Example: the error text "403 rateLimitExceeded", which is longer than the
   * marker but does not carry it, leaves the gate open.
   */
  lemma OtherErrorKeepsGateOpen()
    ensures QuotaAvailable(ProbeFailed("403 rateLimitExceeded"))
  {
    var message := "403 rateLimitExceeded";
    forall i | 0 <= i <= |message| - |QuotaMarker|
      ensures !OccursAt(QuotaMarker, message, i)
    {
      assert message[i..i + |QuotaMarker|][0] == message[i] != QuotaMarker[0];
    }
    assert !exists i :: OccursAt(QuotaMarker, message, i);
  }
}
