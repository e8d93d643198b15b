/**
 * The B-tree slice: the per-shard object that owns the CAS counter,
 * stamps version tokens and turns every store operation into a call on
 * the delegated B-tree algorithms.  Its methods are proved against the
 * pure specification in module Dispatcher.
 */
module Slice {
  import opened Bits
  import opened Tokens
  import opened Dispatcher

  /** The contents of the superblock's magic field. */
  datatype Magic = ExpectedMagic | OtherMagic(raw: nat)

  /** A block identifier, or the null block id that marks an empty tree. */
  datatype BlockId = NullBlockId | Block(id: nat)

  /** The superblock page as the cache lends it for writing. */
  class SuperblockPage {
    var magic: Magic
    var rootBlock: BlockId

    /** The page describes a properly initialised, empty tree. */
    predicate IsFreshTree()
      reads this
    {
      magic == ExpectedMagic && rootBlock == NullBlockId
    }
  }

  class BtreeSlice {
    /** The per-slice CAS counter; the only state this layer mutates. */
    var casCounter: nat
    /** How the dummy castime and the invalid timestamp are recognised. */
    const sentinels: Sentinels

    /** A new slice starts its counter at zero. */
    constructor (sentinels: Sentinels)
      ensures casCounter == 0 && this.sentinels == sentinels
    {
      casCounter := 0;
      this.sentinels := sentinels;
    }

    /**
     * Initialises a new store: stamps the superblock page with the
     * expected magic and the null root, so the tree starts empty.
     */
    static method Create(superblock: SuperblockPage)
      modifies superblock
      ensures superblock.IsFreshTree()
    {
      superblock.magic := ExpectedMagic;
      superblock.rootBlock := NullBlockId;
    }

    /**
     * Pre-increments the counter and builds a token from the clock
     * reading `now` and the new counter value.
     */
    method GenCastime(now: ReplTimestamp) returns (castime: Castime)
      modifies this`casCounter
      ensures casCounter == old(casCounter) + 1
      ensures castime == FreshCastime(now, casCounter)
    {
      casCounter := casCounter + 1;
      castime := Castime(ComposeCas(now.time, casCounter), now);
    }

    /** Generates a castime when the caller passed the dummy; otherwise passes it through. */
    method GenerateIfNecessary(castime: Castime, now: ReplTimestamp) returns (r: Castime)
      modifies this`casCounter
      ensures Stamped(r, casCounter) == NormalizeCastime(castime, sentinels.isDummy, old(casCounter), now)
    {
      if sentinels.isDummy(castime) {
        r := GenCastime(now);
      } else {
        r := castime;
      }
    }

    /** Point get: delegated as is; the counter and the clock play no part. */
    method Get(key: Key) returns (req: Request)
      ensures forall now :: Dispatch(Operation.Get(key), sentinels, casCounter, now) == Dispatched(req, casCounter)
    {
      req := BtreeGet(key);
    }

    method GetCas(key: Key, castime: Castime, now: ReplTimestamp) returns (req: Request)
      modifies this`casCounter
      ensures Dispatched(req, casCounter) == Dispatch(Operation.GetCas(key, castime), sentinels, old(casCounter), now)
    {
      var token := GenerateIfNecessary(castime, now);
      req := BtreeGetCas(key, token);
    }

    /** Range get: delegated as is; the counter and the clock play no part. */
    method Rget(start: Key, end: Key, leftOpen: bool, rightOpen: bool, maxResults: uint64) returns (req: Request)
      ensures forall now :: Dispatch(Operation.Rget(start, end, leftOpen, rightOpen, maxResults), sentinels, casCounter, now)
                            == Dispatched(req, casCounter)
    {
      req := BtreeRgetSlice(start, end, leftOpen, rightOpen, maxResults);
    }

    method Set(key: Key, data: Bytes, flags: uint32, exptime: uint32, castime: Castime, now: ReplTimestamp)
      returns (req: Request)
      modifies this`casCounter
      ensures Dispatched(req, casCounter)
              == Dispatch(Operation.Set(key, data, flags, exptime, castime), sentinels, old(casCounter), now)
    {
      var token := GenerateIfNecessary(castime, now);
      req := BtreeSet(key, data, SetTypeSet, flags, exptime, 0, token);
    }

    method Add(key: Key, data: Bytes, flags: uint32, exptime: uint32, castime: Castime, now: ReplTimestamp)
      returns (req: Request)
      modifies this`casCounter
      ensures Dispatched(req, casCounter)
              == Dispatch(Operation.Add(key, data, flags, exptime, castime), sentinels, old(casCounter), now)
    {
      var token := GenerateIfNecessary(castime, now);
      req := BtreeSet(key, data, SetTypeAdd, flags, exptime, 0, token);
    }

    method Replace(key: Key, data: Bytes, flags: uint32, exptime: uint32, castime: Castime, now: ReplTimestamp)
      returns (req: Request)
      modifies this`casCounter
      ensures Dispatched(req, casCounter)
              == Dispatch(Operation.Replace(key, data, flags, exptime, castime), sentinels, old(casCounter), now)
    {
      var token := GenerateIfNecessary(castime, now);
      req := BtreeSet(key, data, SetTypeReplace, flags, exptime, 0, token);
    }

    method Cas(key: Key, data: Bytes, flags: uint32, exptime: uint32, unique: uint64, castime: Castime, now: ReplTimestamp)
      returns (req: Request)
      modifies this`casCounter
      ensures Dispatched(req, casCounter)
              == Dispatch(Operation.Cas(key, data, flags, exptime, unique, castime), sentinels, old(casCounter), now)
    {
      var token := GenerateIfNecessary(castime, now);
      req := BtreeSet(key, data, SetTypeCas, flags, exptime, unique, token);
    }

    method Incr(key: Key, amount: uint64, castime: Castime, now: ReplTimestamp) returns (req: Request)
      modifies this`casCounter
      ensures Dispatched(req, casCounter) == Dispatch(Operation.Incr(key, amount, castime), sentinels, old(casCounter), now)
    {
      var token := GenerateIfNecessary(castime, now);
      req := BtreeIncrDecr(key, true, amount, token);
    }

    method Decr(key: Key, amount: uint64, castime: Castime, now: ReplTimestamp) returns (req: Request)
      modifies this`casCounter
      ensures Dispatched(req, casCounter) == Dispatch(Operation.Decr(key, amount, castime), sentinels, old(casCounter), now)
    {
      var token := GenerateIfNecessary(castime, now);
      req := BtreeIncrDecr(key, false, amount, token);
    }

    method Append(key: Key, data: Bytes, castime: Castime, now: ReplTimestamp) returns (req: Request)
      modifies this`casCounter
      ensures Dispatched(req, casCounter) == Dispatch(Operation.Append(key, data, castime), sentinels, old(casCounter), now)
    {
      var token := GenerateIfNecessary(castime, now);
      req := BtreeAppendPrepend(key, data, true, token);
    }

    method Prepend(key: Key, data: Bytes, castime: Castime, now: ReplTimestamp) returns (req: Request)
      modifies this`casCounter
      ensures Dispatched(req, casCounter) == Dispatch(Operation.Prepend(key, data, castime), sentinels, old(casCounter), now)
    {
      var token := GenerateIfNecessary(castime, now);
      req := BtreeAppendPrepend(key, data, false, token);
    }

    /** Delete: the timestamp is normalised; the counter is not touched. */
    method DeleteKey(key: Key, timestamp: ReplTimestamp, now: ReplTimestamp) returns (req: Request)
      ensures Dispatched(req, casCounter) == Dispatch(Operation.DeleteKey(key, timestamp), sentinels, casCounter, now)
    {
      req := BtreeDelete(key, NormalizeTimestamp(timestamp, sentinels.invalid, now));
    }
  }

  /** The first token of a new slice has the counter 1 in its low half and the time in its high half. */
  method FirstToken(sentinels: Sentinels, now: ReplTimestamp) returns (c: Castime)
    ensures Low32(c.proposedCas) == 1 && ShiftRight32(c.proposedCas) == now.time
  {
    var slice := new BtreeSlice(sentinels);
    c := slice.GenCastime(now);
  }

  /**
   * Two successive generations on one slice under one clock reading: the
   * counter advances by two and the second token is strictly larger.
   */
  method TwoGenerations(slice: BtreeSlice, now: ReplTimestamp) returns (first: Castime, second: Castime)
    requires slice.casCounter + 2 < TWO_32
    modifies slice
    ensures slice.casCounter == old(slice.casCounter) + 2
    ensures Low32(first.proposedCas) == old(slice.casCounter) + 1
    ensures Low32(second.proposedCas) == old(slice.casCounter) + 2
    ensures first.proposedCas < second.proposedCas
  {
    first := slice.GenCastime(now);
    second := slice.GenCastime(now);
    FreshCasIncreasing(now, slice.casCounter - 1, slice.casCounter);
  }
}
