/** Packs a list of transactions into one Multicall3 call, and what the parser makes of the result. */
module MulticallEncoder {
  import opened Common
  import opened Calldata
  import opened DefiParser
  import opened BatchTree
  import opened AddressSafety

  datatype RawTo = NoTo | BadTo | To(address: Address)

  /** The `data` entry; absent means `0x`. */
  datatype RawData = NoData | DataNotString | DataWithoutPrefix | DataOddLength | DataBadHex | Data(bytes: Bytes)

  datatype RawValue = NoValue | ValueNotInt | Value(wei: int)

  datatype RawTx = NotADict | Tx(to: RawTo, data: RawData, value: RawValue)

  datatype Reason =
    | TransactionsEmpty
    | TransactionNotDict
    | MissingTo
    | InvalidTo
    | DataProblem(data: RawData)
    | ValueInvalid
    | OuterValueMismatch
    | EncodingFailed

  /** A rejection, with the index of the offending transaction where there is one. */
  datatype EncodeError = EncodeError(reason: Reason, index: Option<nat>)

  datatype Parsed = Parsed(to: Address, data: Bytes, wei: nat)

  datatype Encoded = Encoded(to: Address, data: Bytes, value: nat)

  /** What is wrong with a transaction; the entries are looked at in the order to, data, value. */
  function Problem(tx: RawTx): Option<Reason> {
    match tx
    case NotADict => Some(TransactionNotDict)
    case Tx(to, data, value) =>
      if to.NoTo? then Some(MissingTo)
      else if to.BadTo? then Some(InvalidTo)
      else if !(data.NoData? || data.Data?) then Some(DataProblem(data))
      else if value.ValueNotInt? || (value.Value? && value.wei < 0) then Some(ValueInvalid)
      else None
  }

  function Accept(tx: RawTx): Parsed
    requires Problem(tx) == None
  {
    Parsed(tx.to.address, if tx.data.Data? then tx.data.bytes else [], if tx.value.Value? then tx.value.wei else 0)
  }

  function AcceptAll(txs: seq<RawTx>): seq<Parsed>
    requires forall i :: 0 <= i < |txs| ==> Problem(txs[i]) == None
  {
    seq(|txs|, i requires 0 <= i < |txs| => Accept(txs[i]))
  }

  function Total(parsed: seq<Parsed>): nat {
    if parsed == [] then 0 else Total(parsed[..|parsed| - 1]) + parsed[|parsed| - 1].wei
  }

  predicate NoValues(parsed: seq<Parsed>) {
    forall i :: 0 <= i < |parsed| ==> parsed[i].wei == 0
  }

  /** Sub-calls never allow failure. */
  function CallsOf(parsed: seq<Parsed>): seq<Call> {
    seq(|parsed|, i requires 0 <= i < |parsed| => Call(parsed[i].to, false, parsed[i].data))
  }

  function ValueCallsOf(parsed: seq<Parsed>): seq<ValueCall> {
    seq(|parsed|, i requires 0 <= i < |parsed| => ValueCall(parsed[i].to, false, parsed[i].wei, parsed[i].data))
  }

  class MulticallEncoder {
    const multicall: Address
    const codec: Codec

    constructor (multicall: Address, codec: Codec)
      ensures this.multicall == multicall && this.codec == codec
    {
      this.multicall := multicall;
      this.codec := codec;
    }

    method EncodeTransactions(txs: seq<RawTx>, outerValue: Option<int>) returns (r: Result<Encoded, EncodeError>)
      ensures r.Err? && r.error.index.Some? ==>
                && r.error.index.value < |txs| && Problem(txs[r.error.index.value]) == Some(r.error.reason)
                && forall k :: 0 <= k < r.error.index.value ==> Problem(txs[k]) == None
      ensures r.Err? && r.error.index.None? ==>
                || (txs == [] && r.error.reason == TransactionsEmpty)
                || (&& txs != [] && (forall k :: 0 <= k < |txs| ==> Problem(txs[k]) == None)
                    && r.error.reason == if outerValue.Some? && outerValue.value != Total(AcceptAll(txs))
                                         then OuterValueMismatch else EncodingFailed)
      ensures r.Ok? ==>
                && txs != [] && (forall k :: 0 <= k < |txs| ==> Problem(txs[k]) == None)
                && Packs(multicall, codec, AcceptAll(txs), outerValue, r.value)
      ensures r.Err? && r.error.reason == EncodingFailed ==>
                if NoValues(AcceptAll(txs)) then codec.encodeCalls(CallsOf(AcceptAll(txs))) == None
                else codec.encodeValueCalls(ValueCallsOf(AcceptAll(txs))) == None
    {
      if txs == [] {
        return Err(EncodeError(TransactionsEmpty, None));
      }
      var parsed: seq<Parsed> := [];
      for i := 0 to |txs|
        invariant forall k :: 0 <= k < i ==> Problem(txs[k]) == None
        invariant parsed == AcceptAll(txs[..i])
      {
        var problem := Problem(txs[i]);
        if problem != None {
          return Err(EncodeError(problem.value, Some(i)));
        }
        parsed := parsed + [Accept(txs[i])];
      }
      assert txs[..|txs|] == txs;
      var total, allZero := SumValues(parsed);
      if outerValue.Some? && outerValue.value != total {
        return Err(EncodeError(OuterValueMismatch, None));
      }
      if allZero {
        var body := codec.encodeCalls(CallsOf(parsed));
        return if body == None then Err(EncodeError(EncodingFailed, None))
               else Ok(Encoded(multicall, SelectorBytes(Aggregate3) + body.value, total));
      }
      var body := codec.encodeValueCalls(ValueCallsOf(parsed));
      return if body == None then Err(EncodeError(EncodingFailed, None))
             else Ok(Encoded(multicall, SelectorBytes(Aggregate3Value) + body.value, total));
    }

    method SumValues(parsed: seq<Parsed>) returns (total: nat, allZero: bool)
      ensures total == Total(parsed) && (allZero <==> NoValues(parsed))
    {
      total, allZero := 0, true;
      for i := 0 to |parsed|
        invariant total == Total(parsed[..i]) && (allZero <==> NoValues(parsed[..i]))
      {
        assert parsed[..i + 1][..i] == parsed[..i];
        total, allZero := total + parsed[i].wei, allZero && parsed[i].wei == 0;
      }
      assert parsed[..|parsed|] == parsed;
    }
  }

  /** The result carries the calls in the plain form when no call has a value, else with values, and
      its own value is their sum. */
  predicate Packs(multicall: Address, codec: Codec, parsed: seq<Parsed>, outerValue: Option<int>, e: Encoded) {
    && e.to == multicall
    && e.value == Total(parsed)
    && (outerValue.Some? ==> outerValue.value == e.value)
    && if NoValues(parsed) then
         var body := codec.encodeCalls(CallsOf(parsed));
         body.Some? && e.data == SelectorBytes(Aggregate3) + body.value
       else
         var body := codec.encodeValueCalls(ValueCallsOf(parsed));
         body.Some? && e.data == SelectorBytes(Aggregate3Value) + body.value
  }

  // ---------------------------------------------------------------- decoding gives the calls back

  function WeiOf(calls: seq<ValueCall>): nat {
    if calls == [] then 0 else WeiOf(calls[..|calls| - 1]) + calls[|calls| - 1].wei
  }

  lemma {:induction false} WeiIsTotal(parsed: seq<Parsed>)
    ensures WeiOf(ValueCallsOf(parsed)) == Total(parsed)
  {
    if parsed != [] {
      var n := |parsed| - 1;
      assert ValueCallsOf(parsed)[..n] == ValueCallsOf(parsed[..n]);
      WeiIsTotal(parsed[..n]);
    }
  }

  lemma {:induction false} NothingTotal(parsed: seq<Parsed>)
    ensures NoValues(parsed) <==> Total(parsed) == 0
  {
    if parsed != [] {
      var n := |parsed| - 1;
      NothingTotal(parsed[..n]);
      assert NoValues(parsed) <==> NoValues(parsed[..n]) && parsed[n].wei == 0;
    }
  }

  /** Decoding the packed call gives back the same calls in the same order, none allowing failure, and
      the values they carry add up to the value sent along; the plain form is used exactly when that
      value is zero. */
  lemma EncodeThenDecode(multicall: Address, codec: Codec, parsed: seq<Parsed>, outerValue: Option<int>, e: Encoded)
    requires RoundTrips(codec) && Packs(multicall, codec, parsed, outerValue, e)
    ensures SelectorOf(e.data) == if e.value == 0 then Aggregate3 else Aggregate3Value
    ensures e.value == 0 ==> exists calls :: codec.decodeCalls(Body(e.data)) == Some(calls) && SameCalls(parsed, calls)
    ensures e.value != 0 ==> exists calls ::
      codec.decodeValueCalls(Body(e.data)) == Some(calls) && SameValueCalls(parsed, calls) && WeiOf(calls) == e.value
  {
    NothingTotal(parsed);
    WeiIsTotal(parsed);
    if NoValues(parsed) {
      var calls := CallsOf(parsed);
      SelectorRoundTrip(Aggregate3, codec.encodeCalls(calls).value);
      assert codec.decodeCalls(Body(e.data)) == Some(calls) && SameCalls(parsed, calls);
    } else {
      var calls := ValueCallsOf(parsed);
      SelectorRoundTrip(Aggregate3Value, codec.encodeValueCalls(calls).value);
      assert codec.decodeValueCalls(Body(e.data)) == Some(calls) && SameValueCalls(parsed, calls);
    }
  }

  predicate SameCalls(parsed: seq<Parsed>, calls: seq<Call>) {
    && |calls| == |parsed|
    && forall i :: 0 <= i < |calls| ==>
      calls[i].target == parsed[i].to && calls[i].data == parsed[i].data && !calls[i].allowFailure
  }

  predicate SameValueCalls(parsed: seq<Parsed>, calls: seq<ValueCall>) {
    && |calls| == |parsed|
    && forall i :: 0 <= i < |calls| ==>
      && calls[i].target == parsed[i].to && calls[i].data == parsed[i].data && calls[i].wei == parsed[i].wei
      && !calls[i].allowFailure
  }

  // ---------------------------------------------------------------- walking the packed call

  function KindOf(e: Encoded): BatchKind { if e.value == 0 then Plain else WithValue }

  function LegsOf(parsed: seq<Parsed>): seq<Leg> {
    seq(|parsed|, i requires 0 <= i < |parsed| => LegOf(parsed[i].to, parsed[i].data))
  }

  lemma PackedBatch(multicall: Address, codec: Codec, parsed: seq<Parsed>, outerValue: Option<int>, e: Encoded)
    requires RoundTrips(codec) && Packs(multicall, codec, parsed, outerValue, e)
    ensures SelectorOf(e.data) == if KindOf(e) == Plain then Aggregate3 else Aggregate3Value
    ensures Batch(codec, KindOf(e), Body(e.data)) == Some(LegsOf(parsed))
  {
    EncodeThenDecode(multicall, codec, parsed, outerValue, e);
    if e.value == 0 {
      var calls :| codec.decodeCalls(Body(e.data)) == Some(calls) && SameCalls(parsed, calls);
      assert LegsOfCalls(calls) == LegsOf(parsed);
    } else {
      var calls :| codec.decodeValueCalls(Body(e.data)) == Some(calls) && SameValueCalls(parsed, calls);
      assert LegsOfValueCalls(calls) == LegsOf(parsed);
    }
  }

  /** A walk of the packed call that succeeds has collected Multicall3 and every target. */
  lemma EncodeThenWalk(c: ParserConfig, codec: Codec, parsed: seq<Parsed>, outerValue: Option<int>, e: Encoded)
    requires RoundTrips(codec) && Multicall3(c).Some? && Packs(Multicall3(c).value, codec, parsed, outerValue, e)
    requires BuiltIn(c, codec, e.to, SelectorOf(e.data), Body(e.data)).Ok?
    ensures var touched := BuiltIn(c, codec, e.to, SelectorOf(e.data), Body(e.data)).value;
      e.to in touched && forall i :: 0 <= i < |parsed| ==> parsed[i].to in touched
  {
    var kind, body := KindOf(e), Body(e.data);
    PackedBatch(e.to, codec, parsed, outerValue, e);
    WalkIsExact(c, codec, 0);
    assert Exact(c, codec, kind, body, 0);
    forall i | 0 <= i < |parsed| ensures Touches(codec, kind, body, parsed[i].to) {
      FirstStep(codec, kind, body, LegsOf(parsed), i, []);
      assert TouchesAlong(codec, kind, body, [i], parsed[i].to);
    }
  }

  /** A packed list of plain transfers is accepted exactly when Multicall3 and every target are allowed. */
  lemma TransfersAreAccepted(c: ParserConfig, codec: Codec, parsed: seq<Parsed>, outerValue: Option<int>, e: Encoded)
    requires RoundTrips(codec) && Multicall3(c).Some? && Packs(Multicall3(c).value, codec, parsed, outerValue, e)
    requires Router(c).Some? && Router(c) != Multicall3(c)
    requires forall i :: 0 <= i < |parsed| ==> parsed[i].data == []
    ensures CheckedCall(c, codec, None, e.to, e.data) == None <==>
      Allowed(c, e.to) && forall i :: 0 <= i < |parsed| ==> Allowed(c, parsed[i].to)
  {
    var kind, body, legs := KindOf(e), Body(e.data), LegsOf(parsed);
    PackedBatch(e.to, codec, parsed, outerValue, e);
    BatchAcceptance(c, codec, e.to, e.data, kind);
    AllNodesOkByLeg(c, codec, kind, body, legs, 0);
    forall a ensures Touches(codec, kind, body, a) <==> exists i :: 0 <= i < |parsed| && parsed[i].to == a {
      TouchesByLeg(codec, kind, body, legs, a);
      forall i | 0 <= i < |parsed| ensures LegTouches(codec, legs[i], a) <==> parsed[i].to == a {
      }
    }
  }

  // ---------------------------------------------------------------- from the transactions as given

  /** The bytes a transaction gives as its calldata; none where it gives nothing. */
  predicate GivesData(tx: RawTx, data: Bytes) {
    tx.Tx? && ((tx.data.NoData? && data == []) || (tx.data.Data? && data == tx.data.bytes))
  }

  /** The value a transaction gives; zero where it gives nothing. */
  predicate GivesValue(tx: RawTx, wei: int) {
    tx.Tx? && ((tx.value.NoValue? && wei == 0) || (tx.value.Value? && wei == tx.value.wei))
  }

  predicate GivesTarget(tx: RawTx, to: Address) { tx.Tx? && tx.to.To? && tx.to.address == to }

  /** What is wrong with a transaction, looking at the target, then the calldata, then the value. */
  lemma ProblemExactlyWhen(tx: RawTx)
    ensures Problem(tx) == Some(TransactionNotDict) <==> tx.NotADict?
    ensures tx.Tx? ==>
      && (Problem(tx) == Some(MissingTo) <==> tx.to.NoTo?)
      && (Problem(tx) == Some(InvalidTo) <==> tx.to.BadTo?)
      && (tx.to.To? && tx.data in {DataNotString, DataWithoutPrefix, DataOddLength, DataBadHex} ==>
            Problem(tx) == Some(DataProblem(tx.data)))
      && (tx.to.To? && (tx.data.NoData? || tx.data.Data?) ==>
            (Problem(tx) == Some(ValueInvalid) <==> tx.value.ValueNotInt? || (tx.value.Value? && tx.value.wei < 0)))
    ensures Problem(tx) == None <==>
      exists to, data, wei :: wei >= 0 && GivesTarget(tx, to) && GivesData(tx, data) && GivesValue(tx, wei)
  {
    if Problem(tx) == None {
      assert GivesTarget(tx, Accept(tx).to) && GivesData(tx, Accept(tx).data) && GivesValue(tx, Accept(tx).wei);
    }
  }

  /** The values given, added up. */
  function SumGiven(txs: seq<RawTx>): int {
    if txs == [] then 0
    else
      var last := txs[|txs| - 1];
      SumGiven(txs[..|txs| - 1]) + if last.Tx? && last.value.Value? then last.value.wei else 0
  }

  lemma {:induction false} TotalIsGiven(txs: seq<RawTx>)
    requires forall i :: 0 <= i < |txs| ==> Problem(txs[i]) == None
    ensures Total(AcceptAll(txs)) == SumGiven(txs)
  {
    if txs != [] {
      var n := |txs| - 1;
      TotalIsGiven(txs[..n]);
      assert AcceptAll(txs)[..n] == AcceptAll(txs[..n]);
    }
  }

  predicate SameAsGiven(txs: seq<RawTx>, calls: seq<Call>) {
    |calls| == |txs| && forall i :: 0 <= i < |calls| ==> CallAsGiven(txs[i], calls[i])
  }

  predicate CallAsGiven(tx: RawTx, call: Call) {
    GivesTarget(tx, call.target) && GivesData(tx, call.data) && !call.allowFailure
  }

  predicate SameValuesAsGiven(txs: seq<RawTx>, calls: seq<ValueCall>) {
    |calls| == |txs| && forall i :: 0 <= i < |calls| ==> ValueCallAsGiven(txs[i], calls[i])
  }

  predicate ValueCallAsGiven(tx: RawTx, call: ValueCall) {
    GivesTarget(tx, call.target) && GivesData(tx, call.data) && GivesValue(tx, call.wei) && !call.allowFailure
  }

  /** Whatever the encoder returns decodes to the transactions as they were given: one call each, in order,
      with their targets, their calldata and, in the form with values, their values, none allowing failure. The
      form without values is used exactly when the values given add up to zero, and that sum is sent along. */
  lemma EncodedAsGiven(multicall: Address, codec: Codec, txs: seq<RawTx>, outerValue: Option<int>, e: Encoded)
    requires RoundTrips(codec) && forall i :: 0 <= i < |txs| ==> Problem(txs[i]) == None
    requires Packs(multicall, codec, AcceptAll(txs), outerValue, e)
    ensures e.to == multicall && e.value == SumGiven(txs) && (outerValue.Some? ==> outerValue.value == SumGiven(txs))
    ensures |e.data| >= 4
    ensures e.data[..4] == if SumGiven(txs) == 0 then [0x82, 0xad, 0x56, 0xcb] else [0x17, 0x4d, 0xea, 0x71]
    ensures SumGiven(txs) == 0 ==>
      exists calls :: codec.decodeCalls(e.data[4..]) == Some(calls) && SameAsGiven(txs, calls)
    ensures SumGiven(txs) != 0 ==>
      exists calls :: codec.decodeValueCalls(e.data[4..]) == Some(calls) && SameValuesAsGiven(txs, calls)
  {
    var parsed := AcceptAll(txs);
    TotalIsGiven(txs);
    NothingTotal(parsed);
    EncodeThenDecode(multicall, codec, parsed, outerValue, e);
    if e.value == 0 {
      assert e.data[..4] == SelectorBytes(Aggregate3);
      var calls :| codec.decodeCalls(Body(e.data)) == Some(calls) && SameCalls(parsed, calls);
      AcceptedAsGiven(txs, calls);
    } else {
      assert e.data[..4] == SelectorBytes(Aggregate3Value);
      var calls :| codec.decodeValueCalls(Body(e.data)) == Some(calls) && SameValueCalls(parsed, calls);
      AcceptedValuesAsGiven(txs, calls);
    }
  }

  lemma AcceptedAsGiven(txs: seq<RawTx>, calls: seq<Call>)
    requires (forall i :: 0 <= i < |txs| ==> Problem(txs[i]) == None) && SameCalls(AcceptAll(txs), calls)
    ensures SameAsGiven(txs, calls)
  {
    forall i | 0 <= i < |calls| ensures CallAsGiven(txs[i], calls[i]) {
      assert AcceptAll(txs)[i] == Accept(txs[i]);
    }
  }

  lemma AcceptedValuesAsGiven(txs: seq<RawTx>, calls: seq<ValueCall>)
    requires (forall i :: 0 <= i < |txs| ==> Problem(txs[i]) == None) && SameValueCalls(AcceptAll(txs), calls)
    ensures SameValuesAsGiven(txs, calls)
  {
    forall i | 0 <= i < |calls| ensures ValueCallAsGiven(txs[i], calls[i]) {
      assert AcceptAll(txs)[i] == Accept(txs[i]);
    }
  }
}
