/**
 * Version tokens of a B-tree slice: replication timestamps, CAS/time
 * pairs, the 64-bit token layout (time in the high 32 bits, the slice's
 * counter in the low bits) and the normalisation of caller-supplied
 * tokens and timestamps.
 */
module Tokens {
  import opened Bits

  /** A replication timestamp; only its `time` field is consulted. */
  datatype ReplTimestamp = ReplTimestamp(time: uint32)

  /** A proposed CAS value together with the timestamp it was made at. */
  datatype Castime = Castime(proposedCas: uint64, timestamp: ReplTimestamp)

  /**
   * The two "not supplied" markers, whose definitions lie outside this
   * model: the predicate that recognises a dummy castime and the invalid
   * timestamp.  Every result below holds whatever they are.
   */
  datatype Sentinels = Sentinels(isDummy: Castime -> bool, invalid: ReplTimestamp)

  /** A token handed to a delegate, with the slice's counter afterwards. */
  datatype Stamped = Stamped(castime: Castime, counter: nat)

  /** The token `(uint64_t(time) << 32) | counter`. */
  function ComposeCas(time: uint32, counter: nat): (cas: uint64)
    ensures counter < TWO_32 ==> cas == time * TWO_32 + counter
  {
    var high := ShiftLeft32(time);
    var low := ToUint64(counter);
    if counter < TWO_32 then
      Pow2Widths();
      BitOrDisjoint(time, 32, counter);
      assert low == counter;
      Or64(high, low)
    else
      Or64(high, low)
  }

  /**
   * The castime built from a clock reading and the counter value after
   * its increment: the reading is returned as the timestamp, and while the
   * counter fits in 32 bits the token's high half is the time and its low
   * half the counter.
   */
  function FreshCastime(now: ReplTimestamp, counter: nat): (r: Castime)
    ensures r.timestamp == now
    ensures counter < TWO_32 ==> ShiftRight32(r.proposedCas) == now.time
    ensures counter < TWO_32 ==> Low32(r.proposedCas) == counter
  {
    Castime(ComposeCas(now.time, counter), now)
  }

  /**
   * The castime overload of generate_if_necessary, on the counter's value:
   * a dummy is replaced by a fresh castime made with the incremented
   * counter; anything else passes through and the counter stays.
   */
  function NormalizeCastime(castime: Castime, isDummy: Castime -> bool, counter: nat, now: ReplTimestamp): (r: Stamped)
    ensures r.counter == if isDummy(castime) then counter + 1 else counter
    ensures !isDummy(castime) ==> r.castime == castime
    ensures isDummy(castime) ==> r.castime.timestamp == now
    ensures isDummy(castime) && r.counter < TWO_32 ==>
              ShiftRight32(r.castime.proposedCas) == now.time && Low32(r.castime.proposedCas) == r.counter
  {
    if isDummy(castime) then Stamped(FreshCastime(now, counter + 1), counter + 1)
    else Stamped(castime, counter)
  }

  /**
   * The timestamp overload of generate_if_necessary: a timestamp whose
   * time is the invalid one is replaced by the clock reading, any other
   * is passed through.
   */
  function NormalizeTimestamp(timestamp: ReplTimestamp, invalid: ReplTimestamp, now: ReplTimestamp): (r: ReplTimestamp)
    ensures timestamp.time != invalid.time ==> r == timestamp
    ensures timestamp.time == invalid.time ==> r == now
  {
    if timestamp.time == invalid.time then now else timestamp
  }

  /** Normalising an already normalised timestamp changes nothing. */
  lemma NormalizeTimestampIdempotent(timestamp: ReplTimestamp, invalid: ReplTimestamp, now: ReplTimestamp)
    ensures var once := NormalizeTimestamp(timestamp, invalid, now);
            NormalizeTimestamp(once, invalid, now) == once
  {
  }

  /** As long as the clock does not itself read the invalid time, a normalised timestamp is valid. */
  lemma NormalizedTimestampIsValid(timestamp: ReplTimestamp, invalid: ReplTimestamp, now: ReplTimestamp)
    requires now.time != invalid.time
    ensures NormalizeTimestamp(timestamp, invalid, now).time != invalid.time
  {
  }

  /** A generated token, with the counter at least 1 and below 2^32, is never 0. */
  lemma FreshCasNonZero(now: ReplTimestamp, counter: nat)
    requires 0 < counter < TWO_32
    ensures FreshCastime(now, counter).proposedCas != 0
  {
  }

  /** Under one timestamp, a later counter value gives a strictly larger token. */
  lemma FreshCasIncreasing(now: ReplTimestamp, c1: nat, c2: nat)
    requires c1 < c2 < TWO_32
    ensures FreshCastime(now, c1).proposedCas < FreshCastime(now, c2).proposedCas
  {
  }

  /** Tokens made with different counter values differ, whatever the two timestamps. */
  lemma FreshCasDistinct(t1: ReplTimestamp, t2: ReplTimestamp, c1: nat, c2: nat)
    requires c1 != c2 && c1 < TWO_32 && c2 < TWO_32
    ensures FreshCastime(t1, c1).proposedCas != FreshCastime(t2, c2).proposedCas
  {
    assert Low32(FreshCastime(t1, c1).proposedCas) == c1;
    assert Low32(FreshCastime(t2, c2).proposedCas) == c2;
  }
}
