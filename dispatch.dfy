/**
 * The slice's operation surface as a pure specification: every store
 * operation a caller can issue, the call it becomes on the delegated
 * B-tree algorithm (a `Request`), and what that translation promises.
 * The B-tree algorithms themselves are outside this model; only the
 * arguments they receive are.
 */
module Dispatcher {
  import opened Bits
  import opened Tokens

  type Bytes = seq<bv8>
  type Key = Bytes

  /** The four kinds of store that share one delegate. */
  datatype SetType = SetTypeSet | SetTypeAdd | SetTypeReplace | SetTypeCas

  /** A call on the slice, with the arguments the caller passes. */
  datatype Operation =
    | Get(key: Key)
    | GetCas(key: Key, castime: Castime)
    | Rget(start: Key, end: Key, leftOpen: bool, rightOpen: bool, maxResults: uint64)
    | Set(key: Key, data: Bytes, flags: uint32, exptime: uint32, castime: Castime)
    | Add(key: Key, data: Bytes, flags: uint32, exptime: uint32, castime: Castime)
    | Replace(key: Key, data: Bytes, flags: uint32, exptime: uint32, castime: Castime)
    | Cas(key: Key, data: Bytes, flags: uint32, exptime: uint32, unique: uint64, castime: Castime)
    | Incr(key: Key, amount: uint64, castime: Castime)
    | Decr(key: Key, amount: uint64, castime: Castime)
    | Append(key: Key, data: Bytes, castime: Castime)
    | Prepend(key: Key, data: Bytes, castime: Castime)
    | DeleteKey(key: Key, timestamp: ReplTimestamp)
  {
    /** The operation carries a castime (every mutation but delete, and get_cas). */
    predicate HasCastime() {
      !Get? && !Rget? && !DeleteKey?
    }

    /** Only the two plain reads neither generate nor forward a token. */
    predicate IsRead() {
      Get? || Rget?
    }
  }

  /** A call on one of the delegated B-tree algorithms, with its arguments. */
  datatype Request =
    | BtreeGet(key: Key)
    | BtreeGetCas(key: Key, castime: Castime)
    | BtreeRgetSlice(start: Key, end: Key, leftOpen: bool, rightOpen: bool, maxResults: uint64)
    | BtreeSet(key: Key, data: Bytes, setType: SetType, flags: uint32, exptime: uint32, unique: uint64, castime: Castime)
    | BtreeIncrDecr(key: Key, increment: bool, amount: uint64, castime: Castime)
    | BtreeAppendPrepend(key: Key, data: Bytes, append: bool, castime: Castime)
    | BtreeDelete(key: Key, timestamp: ReplTimestamp)
  {
    predicate HasCastime() {
      !BtreeGet? && !BtreeRgetSlice? && !BtreeDelete?
    }
  }

  /** A delegate request together with the slice's counter after building it. */
  datatype Dispatched = Dispatched(request: Request, counter: nat)

  /** The operation's castime is a dummy, so the slice must generate one. */
  predicate GeneratesCastime(op: Operation, s: Sentinels) {
    op.HasCastime() && s.isDummy(op.castime)
  }

  /**
   * The request the slice hands to the B-tree layer for `op`, given the
   * counter before the call and the clock reading `now`.  The clock is
   * consulted only when a token or timestamp has to be generated.
   */
  function Dispatch(op: Operation, s: Sentinels, counter: nat, now: ReplTimestamp): (d: Dispatched)
    ensures d.counter == if GeneratesCastime(op, s) then counter + 1 else counter
    ensures d.request.HasCastime() == op.HasCastime()
    ensures op.HasCastime() ==> d.request.castime == NormalizeCastime(op.castime, s.isDummy, counter, now).castime
    ensures op.DeleteKey? ==> d.request == BtreeDelete(op.key, NormalizeTimestamp(op.timestamp, s.invalid, now))
    ensures d.request.BtreeSet? ==> d.request.unique == if op.Cas? then op.unique else 0
    ensures op.HasCastime() ==> Undispatch(d.request) == op.(castime := d.request.castime)
    ensures !op.HasCastime() ==> Undispatch(d.request) == if op.DeleteKey? then op.(timestamp := d.request.timestamp) else op
  {
    match op
    case Get(key) =>
      Dispatched(BtreeGet(key), counter)
    case GetCas(key, castime) =>
      var t := NormalizeCastime(castime, s.isDummy, counter, now);
      Dispatched(BtreeGetCas(key, t.castime), t.counter)
    case Rget(start, end, leftOpen, rightOpen, maxResults) =>
      Dispatched(BtreeRgetSlice(start, end, leftOpen, rightOpen, maxResults), counter)
    case Set(key, data, flags, exptime, castime) =>
      var t := NormalizeCastime(castime, s.isDummy, counter, now);
      Dispatched(BtreeSet(key, data, SetTypeSet, flags, exptime, 0, t.castime), t.counter)
    case Add(key, data, flags, exptime, castime) =>
      var t := NormalizeCastime(castime, s.isDummy, counter, now);
      Dispatched(BtreeSet(key, data, SetTypeAdd, flags, exptime, 0, t.castime), t.counter)
    case Replace(key, data, flags, exptime, castime) =>
      var t := NormalizeCastime(castime, s.isDummy, counter, now);
      Dispatched(BtreeSet(key, data, SetTypeReplace, flags, exptime, 0, t.castime), t.counter)
    case Cas(key, data, flags, exptime, unique, castime) =>
      var t := NormalizeCastime(castime, s.isDummy, counter, now);
      Dispatched(BtreeSet(key, data, SetTypeCas, flags, exptime, unique, t.castime), t.counter)
    case Incr(key, amount, castime) =>
      var t := NormalizeCastime(castime, s.isDummy, counter, now);
      Dispatched(BtreeIncrDecr(key, true, amount, t.castime), t.counter)
    case Decr(key, amount, castime) =>
      var t := NormalizeCastime(castime, s.isDummy, counter, now);
      Dispatched(BtreeIncrDecr(key, false, amount, t.castime), t.counter)
    case Append(key, data, castime) =>
      var t := NormalizeCastime(castime, s.isDummy, counter, now);
      Dispatched(BtreeAppendPrepend(key, data, true, t.castime), t.counter)
    case Prepend(key, data, castime) =>
      var t := NormalizeCastime(castime, s.isDummy, counter, now);
      Dispatched(BtreeAppendPrepend(key, data, false, t.castime), t.counter)
    case DeleteKey(key, timestamp) =>
      Dispatched(BtreeDelete(key, NormalizeTimestamp(timestamp, s.invalid, now)), counter)
  }

  /**
   * The operation a request was built from, read back from the request's
   * set type and flags: the inverse that `Dispatch`'s contract is stated
   * against.
   */
  function Undispatch(req: Request): Operation
  {
    match req
    case BtreeGet(key) => Get(key)
    case BtreeGetCas(key, castime) => GetCas(key, castime)
    case BtreeRgetSlice(start, end, leftOpen, rightOpen, maxResults) => Rget(start, end, leftOpen, rightOpen, maxResults)
    case BtreeSet(key, data, setType, flags, exptime, unique, castime) =>
      (match setType
       case SetTypeSet => Set(key, data, flags, exptime, castime)
       case SetTypeAdd => Add(key, data, flags, exptime, castime)
       case SetTypeReplace => Replace(key, data, flags, exptime, castime)
       case SetTypeCas => Cas(key, data, flags, exptime, unique, castime))
    case BtreeIncrDecr(key, increment, amount, castime) =>
      if increment then Incr(key, amount, castime) else Decr(key, amount, castime)
    case BtreeAppendPrepend(key, data, append, castime) =>
      if append then Append(key, data, castime) else Prepend(key, data, castime)
    case BtreeDelete(key, timestamp) => DeleteKey(key, timestamp)
  }

  /** The set-family operations, and only they, go to the set delegate, each with its own tag. */
  lemma SetTypeTags(op: Operation, s: Sentinels, counter: nat, now: ReplTimestamp)
    ensures var req := Dispatch(op, s, counter, now).request;
            && (req.BtreeSet? <==> op.Set? || op.Add? || op.Replace? || op.Cas?)
            && (op.Set? ==> req.setType == SetTypeSet && req.unique == 0)
            && (op.Add? ==> req.setType == SetTypeAdd && req.unique == 0)
            && (op.Replace? ==> req.setType == SetTypeReplace && req.unique == 0)
            && (op.Cas? ==> req.setType == SetTypeCas && req.unique == op.unique)
  {
  }

  /** incr passes true and decr false; append passes true and prepend false. */
  lemma DirectionFlags(op: Operation, s: Sentinels, counter: nat, now: ReplTimestamp)
    ensures var req := Dispatch(op, s, counter, now).request;
            && (req.BtreeIncrDecr? <==> op.Incr? || op.Decr?)
            && (req.BtreeIncrDecr? ==> req.increment == op.Incr?)
            && (req.BtreeAppendPrepend? <==> op.Append? || op.Prepend?)
            && (req.BtreeAppendPrepend? ==> req.append == op.Append?)
  {
  }

  /** get and rget neither read the clock nor touch the counter. */
  lemma ReadsLeaveCounter(op: Operation, s: Sentinels, counter: nat, now1: ReplTimestamp, now2: ReplTimestamp)
    requires op.IsRead()
    ensures Dispatch(op, s, counter, now1) == Dispatch(op, s, counter, now2)
    ensures Dispatch(op, s, counter, now1).counter == counter
  {
  }

  /**
   * Replay: an operation whose token is supplied (not a dummy, and for a
   * delete a valid timestamp) reaches the delegate exactly as issued, and
   * the counter does not move.
   */
  lemma SuppliedTokensPassThrough(op: Operation, s: Sentinels, counter: nat, now: ReplTimestamp)
    requires !GeneratesCastime(op, s)
    requires op.DeleteKey? ==> op.timestamp.time != s.invalid.time
    ensures var d := Dispatch(op, s, counter, now);
            Undispatch(d.request) == op && d.counter == counter
  {
  }

  /** The requests a run of operations produced, in order, and the counter after the last. */
  datatype Trace = Trace(requests: seq<Request>, counter: nat)

  /** The number of operations in `ops` whose dummy castime makes the slice generate one. */
  function CountGenerating(ops: seq<Operation>, s: Sentinels): (n: nat)
    ensures n <= |ops|
  {
    if ops == [] then 0
    else (if GeneratesCastime(ops[0], s) then 1 else 0) + CountGenerating(ops[1..], s)
  }

  /** `req` is the delegate call for `op`, with `op`'s token replaced by the normalised one. */
  predicate SameUpToToken(op: Operation, req: Request) {
    if op.HasCastime() then req.HasCastime() && Undispatch(req) == op.(castime := req.castime)
    else if op.DeleteKey? then req.BtreeDelete? && Undispatch(req) == op.(timestamp := req.timestamp)
    else Undispatch(req) == op
  }

  /**
   * Running a sequence of operations through one slice, the i-th with the
   * i-th clock reading: the requests in order and the final counter.
   */
  function Run(ops: seq<Operation>, clock: seq<ReplTimestamp>, s: Sentinels, counter: nat): (t: Trace)
    requires |clock| == |ops|
    ensures |t.requests| == |ops|
    ensures t.counter == counter + CountGenerating(ops, s)
    ensures forall i | 0 <= i < |ops| :: SameUpToToken(ops[i], t.requests[i])
  {
    if ops == [] then Trace([], counter)
    else
      var d := Dispatch(ops[0], s, counter, clock[0]);
      var rest := Run(ops[1..], clock[1..], s, d.counter);
      assert forall i | 0 < i < |ops| :: ops[i] == ops[1..][i - 1];
      Trace([d.request] + rest.requests, rest.counter)
  }

  /**
   * Within a run, the i-th request is exactly what `Dispatch` builds for the
   * i-th operation at the i-th clock reading from `c`, the counter as the
   * operations before it left it: the starting counter plus the number of
   * them that generated a token.
   */
  lemma {:induction false} RunDispatchesAt(ops: seq<Operation>, clock: seq<ReplTimestamp>, s: Sentinels, counter: nat, i: nat, c: nat)
    requires |clock| == |ops| && i < |ops|
    requires c == counter + CountGenerating(ops[..i], s)
    ensures Run(ops, clock, s, counter).requests[i] == Dispatch(ops[i], s, c, clock[i]).request
  {
    var d := Dispatch(ops[0], s, counter, clock[0]);
    var t := Run(ops, clock, s, counter);
    var rest := Run(ops[1..], clock[1..], s, d.counter);
    assert t.requests == [d.request] + rest.requests;
    if i == 0 {
      assert ops[..0] == [];
    } else {
      CountGeneratingPrefix(ops, s, i);
      RunDispatchesAt(ops[1..], clock[1..], s, d.counter, i - 1, c);
      assert ops[1..][i - 1] == ops[i] && clock[1..][i - 1] == clock[i];
      assert t.requests[i] == rest.requests[i - 1];
    }
  }

  /**
   * Replay within a run: an operation whose token is supplied reaches the
   * delegate exactly as issued, wherever it stands in the sequence.
   */
  lemma {:induction false} RunReplaysSupplied(ops: seq<Operation>, clock: seq<ReplTimestamp>, s: Sentinels, counter: nat, i: nat)
    requires |clock| == |ops| && i < |ops|
    requires !GeneratesCastime(ops[i], s)
    requires ops[i].DeleteKey? ==> ops[i].timestamp.time != s.invalid.time
    ensures Undispatch(Run(ops, clock, s, counter).requests[i]) == ops[i]
  {
    RunDispatchesAt(ops, clock, s, counter, i, counter + CountGenerating(ops[..i], s));
    SuppliedTokensPassThrough(ops[i], s, counter + CountGenerating(ops[..i], s), clock[i]);
  }

  /**
   * Within a run, the token generated for the i-th operation carries in its
   * low half exactly the starting counter plus the number of generating
   * operations up to and including the i-th, and in its high half that
   * operation's clock reading.
   */
  lemma {:induction false} RunStampExact(ops: seq<Operation>, clock: seq<ReplTimestamp>, s: Sentinels, counter: nat, i: nat)
    requires |clock| == |ops| && i < |ops|
    requires GeneratesCastime(ops[i], s)
    requires counter + CountGenerating(ops[..i + 1], s) < TWO_32
    ensures var req := Run(ops, clock, s, counter).requests[i];
            && req.HasCastime()
            && Low32(req.castime.proposedCas) == counter + CountGenerating(ops[..i + 1], s)
            && ShiftRight32(req.castime.proposedCas) == clock[i].time
  {
    var c := counter + CountGenerating(ops[..i], s);
    CountGeneratingSnoc(ops[..i], ops[i], s);
    assert ops[..i] + [ops[i]] == ops[..i + 1];
    var d := Dispatch(ops[i], s, c, clock[i]);
    var t := NormalizeCastime(ops[i].castime, s.isDummy, c, clock[i]);
    assert d.request.HasCastime() && d.request.castime == t.castime && t.counter == c + 1;
    RunDispatchesAt(ops, clock, s, counter, i, c);
  }

  /** Counting over a non-empty prefix: the first operation, then the rest of the prefix. */
  lemma {:induction false} CountGeneratingPrefix(ops: seq<Operation>, s: Sentinels, i: nat)
    requires 0 < i <= |ops|
    ensures CountGenerating(ops[..i], s)
            == (if GeneratesCastime(ops[0], s) then 1 else 0) + CountGenerating(ops[1..][..i - 1], s)
  {
    assert ops[..i][0] == ops[0] && ops[..i][1..] == ops[1..][..i - 1];
  }

  /** Counting over a sequence extended by one operation. */
  lemma {:induction false} CountGeneratingSnoc(ops: seq<Operation>, op: Operation, s: Sentinels)
    ensures CountGenerating(ops + [op], s) == CountGenerating(ops, s) + (if GeneratesCastime(op, s) then 1 else 0)
  {
    if ops != [] {
      assert (ops + [op])[1..] == ops[1..] + [op];
      CountGeneratingSnoc(ops[1..], op, s);
    } else {
      assert [op][1..] == [];
    }
  }

  /** The low half of the token in a castime-carrying request. */
  function StampCounter(req: Request): uint32
    requires req.HasCastime()
  {
    Low32(req.castime.proposedCas)
  }

  /**
   * Every token the slice generates while running `ops` carries, in its
   * low half, a counter value above the starting one and no larger than
   * the final one, and in its high half the time read for that operation.
   */
  lemma {:induction false} RunStampBounds(ops: seq<Operation>, clock: seq<ReplTimestamp>, s: Sentinels, counter: nat)
    requires |clock| == |ops|
    requires counter + CountGenerating(ops, s) < TWO_32
    ensures var t := Run(ops, clock, s, counter);
            forall i | 0 <= i < |ops| && GeneratesCastime(ops[i], s) ::
              && t.requests[i].HasCastime()
              && counter < StampCounter(t.requests[i]) <= t.counter
              && ShiftRight32(t.requests[i].castime.proposedCas) == clock[i].time
  {
    if ops != [] {
      var d := Dispatch(ops[0], s, counter, clock[0]);
      RunStampBounds(ops[1..], clock[1..], s, d.counter);
      var t := Run(ops, clock, s, counter);
      var rest := Run(ops[1..], clock[1..], s, d.counter);
      forall i | 0 <= i < |ops| && GeneratesCastime(ops[i], s)
        ensures && t.requests[i].HasCastime()
                && counter < StampCounter(t.requests[i]) <= t.counter
                && ShiftRight32(t.requests[i].castime.proposedCas) == clock[i].time
      {
        if i > 0 {
          assert ops[i] == ops[1..][i - 1];
          assert clock[i] == clock[1..][i - 1];
          assert t.requests[i] == rest.requests[i - 1];
        }
      }
    }
  }

  /**
   * No two mutations are stamped alike: the tokens the slice generates
   * while running `ops` have strictly increasing counters, hence are
   * pairwise distinct, and under one clock reading strictly increase.
   */
  lemma {:induction false} GeneratedTokensIncrease(ops: seq<Operation>, clock: seq<ReplTimestamp>, s: Sentinels, counter: nat)
    requires |clock| == |ops|
    requires counter + CountGenerating(ops, s) < TWO_32
    ensures var t := Run(ops, clock, s, counter);
            forall i, j | 0 <= i < j < |ops| && GeneratesCastime(ops[i], s) && GeneratesCastime(ops[j], s) ::
              && t.requests[i].HasCastime() && t.requests[j].HasCastime()
              && StampCounter(t.requests[i]) < StampCounter(t.requests[j])
              && t.requests[i].castime.proposedCas != t.requests[j].castime.proposedCas
              && (clock[i] == clock[j] ==> t.requests[i].castime.proposedCas < t.requests[j].castime.proposedCas)
  {
    if ops != [] {
      var d := Dispatch(ops[0], s, counter, clock[0]);
      var t := Run(ops, clock, s, counter);
      var rest := Run(ops[1..], clock[1..], s, d.counter);
      RunStampBounds(ops, clock, s, counter);
      RunStampBounds(ops[1..], clock[1..], s, d.counter);
      GeneratedTokensIncrease(ops[1..], clock[1..], s, d.counter);
      forall i, j | 0 <= i < j < |ops| && GeneratesCastime(ops[i], s) && GeneratesCastime(ops[j], s)
        ensures && t.requests[i].HasCastime() && t.requests[j].HasCastime()
                && StampCounter(t.requests[i]) < StampCounter(t.requests[j])
                && t.requests[i].castime.proposedCas != t.requests[j].castime.proposedCas
                && (clock[i] == clock[j] ==> t.requests[i].castime.proposedCas < t.requests[j].castime.proposedCas)
      {
        assert ops[j] == ops[1..][j - 1] && t.requests[j] == rest.requests[j - 1];
        if i > 0 {
          assert ops[i] == ops[1..][i - 1] && t.requests[i] == rest.requests[i - 1];
          assert clock[i] == clock[1..][i - 1] && clock[j] == clock[1..][j - 1];
        }
        var ci, cj := t.requests[i].castime, t.requests[j].castime;
        assert ci.proposedCas == ShiftRight32(ci.proposedCas) * TWO_32 + StampCounter(t.requests[i]);
        assert cj.proposedCas == ShiftRight32(cj.proposedCas) * TWO_32 + StampCounter(t.requests[j]);
      }
    }
  }
}
