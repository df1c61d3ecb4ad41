/** Acceptance by the parser in terms of bytes: which calls a batch holds, byte for byte, and which
    addresses each of them names. */
module RawCalldata {
  import opened Common
  import opened Calldata
  import opened V3Path
  import opened DefiParser
  import opened BatchTree
  import opened AddressSafety

  // ---------------------------------------------------------------- selectors, byte for byte

  predicate Starts(data: Bytes, selector: Bytes) { |data| >= 4 && data[..4] == selector }

  predicate PlainBatch(data: Bytes) { Starts(data, [0x82, 0xad, 0x56, 0xcb]) }

  predicate ValueBatch(data: Bytes) { Starts(data, [0x17, 0x4d, 0xea, 0x71]) }

  predicate ForTokens(data: Bytes) { Starts(data, [0x38, 0xed, 0x17, 0x39]) }

  predicate WithEth(data: Bytes) { Starts(data, [0x7f, 0xf3, 0x6a, 0xb5]) || Starts(data, [0x18, 0xcb, 0xaf, 0xe5]) }

  predicate V3Call(data: Bytes) { Starts(data, [0xd4, 0xd0, 0x29, 0xe8]) || Starts(data, [0xdd, 0xbf, 0x02, 0x9b]) }

  predicate MoeCall(data: Bytes) { Starts(data, [0xd0, 0x04, 0xf0, 0xf8]) }

  lemma SelectorsByBytes(data: Bytes)
    ensures SelectorOf(data) == Aggregate3 <==> PlainBatch(data)
    ensures SelectorOf(data) == Aggregate3Value <==> ValueBatch(data)
    ensures SelectorOf(data) == TokensForTokens <==> ForTokens(data)
    ensures SelectorOf(data) in {EthForTokens, TokensForEth} <==> WithEth(data)
    ensures IsV3Swap(SelectorOf(data)) <==> V3Call(data)
    ensures SelectorOf(data) == MoeSwap <==> MoeCall(data)
    ensures |data| >= 4 ==> Body(data) == data[4..]
  {
  }

  /** Where the canonical targets come from. */
  lemma CanonicalTargets(c: ParserConfig)
    ensures c.multicall3.Some? ==> Multicall3(c) == c.multicall3
    ensures c.v2Router.Some? ==> Router(c) == c.v2Router
    ensures c.multicall3 == None && c.chainId == 1 ==>
      Multicall3(c) == Some([0xca, 0x11, 0xbd, 0xe0, 0x59, 0x77, 0xb3, 0x63, 0x11, 0x67,
                             0x02, 0x88, 0x62, 0xbe, 0x2a, 0x17, 0x39, 0x76, 0xca, 0x11])
    ensures c.v2Router == None && c.chainId == 1 ==>
      Router(c) == Some([0x7a, 0x25, 0x0d, 0x56, 0x30, 0xb4, 0xcf, 0x53, 0x97, 0x39,
                         0xdf, 0x2c, 0x5d, 0xac, 0xb4, 0xc6, 0x59, 0xf2, 0x48, 0x8d])
    ensures c.multicall3 == None && c.chainId != 1 ==> Multicall3(c) == c.adapterMulticall3
    ensures c.v2Router == None && c.chainId != 1 ==> Router(c) == c.adapterRouter
  {
  }

  // ---------------------------------------------------------------- the calls of a batch

  /** A call as it stands in a batch, with the kind of that batch. */
  datatype RawCall = RawCall(kind: BatchKind, target: Address, data: Bytes)

  function TargetsAndData(codec: Codec, kind: BatchKind, body: Bytes): Option<seq<(Address, Bytes)>> {
    match kind
    case Plain =>
      (match codec.decodeCalls(body)
       case None => None
       case Some(calls) => Some(seq(|calls|, i requires 0 <= i < |calls| => (calls[i].target, calls[i].data))))
    case WithValue =>
      (match codec.decodeValueCalls(body)
       case None => None
       case Some(calls) => Some(seq(|calls|, i requires 0 <= i < |calls| => (calls[i].target, calls[i].data))))
  }

  /** The call found by following `path` into batches within batches. */
  function RawAt(codec: Codec, kind: BatchKind, body: Bytes, path: Path): Option<RawCall>
    decreases |path|
  {
    if path == [] then None
    else
      match TargetsAndData(codec, kind, body)
      case None => None
      case Some(calls) =>
        if path[0] >= |calls| then None
        else
          var (target, data) := calls[path[0]];
          if |path| == 1 then Some(RawCall(kind, target, data))
          else if PlainBatch(data) then RawAt(codec, Plain, data[4..], path[1..])
          else if ValueBatch(data) then RawAt(codec, WithValue, data[4..], path[1..])
          else None
  }

  lemma {:induction false} RawIsNode(codec: Codec, kind: BatchKind, body: Bytes, path: Path)
    ensures At(codec, kind, body, path) ==
      match RawAt(codec, kind, body, path)
      case None => None
      case Some(r) => Some(Node(r.kind, LegOf(r.target, r.data)))
    decreases |path|
  {
    if path != [] && TargetsAndData(codec, kind, body).Some? && path[0] < |TargetsAndData(codec, kind, body).value| {
      var (target, data) := TargetsAndData(codec, kind, body).value[path[0]];
      assert Batch(codec, kind, body).Some? && Batch(codec, kind, body).value[path[0]] == LegOf(target, data);
      SelectorsByBytes(data);
      if |path| > 1 && PlainBatch(data) {
        RawIsNode(codec, Plain, data[4..], path[1..]);
      } else if |path| > 1 && ValueBatch(data) {
        RawIsNode(codec, WithValue, data[4..], path[1..]);
      }
    }
  }

  // ---------------------------------------------------------------- what one call must be, and names

  /** A swap with a minimum, read from the bytes after the selector. */
  predicate SwapStatesMinimum(codec: Codec, data: Bytes)
    requires |data| >= 4
  {
    var args := codec.decodeSwap(data[4..]);
    args.Some? && args.value.minOut != 0
  }

  predicate V3StatesMinimum(codec: Codec, data: Bytes)
    requires |data| >= 4
  {
    var args := codec.decodeV3(data[4..]);
    && args.Some? && args.value.minOut != 0 && args.value.amountIn != 0
    && |args.value.path| >= 20 && |args.value.path| % 23 == 20
  }

  predicate MoeStatesMinimum(codec: Codec, data: Bytes)
    requires |data| >= 4
  {
    var args := codec.decodeSwap(data[4..]);
    args.Some? && args.value.minOut != 0 && args.value.amount != 0
  }

  /** A call may stand in a batch that is `level` batches deep. */
  predicate RawOk(c: ParserConfig, codec: Codec, r: RawCall, level: nat) {
    || r.data == []
    || (PlainBatch(r.data) && Some(r.target) == Multicall3(c) && level < 5 && codec.decodeCalls(r.data[4..]).Some?)
    || (ValueBatch(r.data) && Some(r.target) == Multicall3(c) && level < 5 && codec.decodeValueCalls(r.data[4..]).Some?)
    || ((ForTokens(r.data) || WithEth(r.data)) && Some(r.target) == Router(c) && SwapStatesMinimum(codec, r.data))
    || (V3Call(r.data) && r.kind == Plain && V3StatesMinimum(codec, r.data))
    || (MoeCall(r.data) && r.kind == Plain && MoeStatesMinimum(codec, r.data))
  }

  predicate HopAt(path: Bytes, k: nat, a: Address) { 23 * k + 20 <= |path| && a == path[23 * k..23 * k + 20] }

  predicate InV3Swap(args: V3Args, a: Address) {
    a == args.recipient || exists k :: 0 <= k <= |args.path| && HopAt(args.path, k, a)
  }

  /** A call names its target and, when it is a swap, everything in it. */
  predicate Names(codec: Codec, r: RawCall, a: Address) {
    || a == r.target
    || ((ForTokens(r.data) || WithEth(r.data) || MoeCall(r.data)) && codec.decodeSwap(r.data[4..]).Some?
        && InSwap(codec.decodeSwap(r.data[4..]).value, a))
    || (V3Call(r.data) && codec.decodeV3(r.data[4..]).Some? && InV3Swap(codec.decodeV3(r.data[4..]).value, a))
  }

  lemma RawOkIsNodeOk(c: ParserConfig, codec: Codec, r: RawCall, level: nat)
    ensures RawOk(c, codec, r, level) <==> NodeOk(c, codec, Node(r.kind, LegOf(r.target, r.data)), level)
  {
    SelectorsByBytes(r.data);
  }

  lemma SwapAddressesNamed(args: SwapArgs, a: Address)
    ensures a in AddressesOf(args) <==> InSwap(args, a)
  {
  }

  lemma HopsNamed(path: Bytes, a: Address)
    requires WellFormed(path)
    ensures a in PathAddresses(path) <==> exists k :: 0 <= k <= |path| && HopAt(path, k, a)
  {
    if a in PathAddresses(path) {
      var k :| 0 <= k <= |path| / 23 && AddressAt(path, k) == a;
      assert HopAt(path, k, a);
    }
    if k :| 0 <= k <= |path| && HopAt(path, k, a) {
      assert AddressAt(path, k) == a && k <= |path| / 23;
    }
  }

  lemma NamesAreTouched(c: ParserConfig, codec: Codec, r: RawCall, level: nat, a: Address)
    requires RawOk(c, codec, r, level)
    ensures Names(codec, r, a) <==> a in NodeTouches(codec, LegOf(r.target, r.data))
  {
    SelectorsByBytes(r.data);
    if r.data != [] && V3Call(r.data) {
      HopsNamed(codec.decodeV3(r.data[4..]).value.path, a);
    } else if r.data != [] && (ForTokens(r.data) || WithEth(r.data) || MoeCall(r.data)) {
      SwapAddressesNamed(codec.decodeSwap(r.data[4..]).value, a);
    }
  }

  // ---------------------------------------------------------------- whole batches

  predicate OkAt(c: ParserConfig, codec: Codec, kind: BatchKind, body: Bytes, path: Path) {
    var r := RawAt(codec, kind, body, path);
    r.Some? ==> RawOk(c, codec, r.value, |path| - 1)
  }

  predicate NamesAt(codec: Codec, kind: BatchKind, body: Bytes, path: Path, a: Address) {
    var r := RawAt(codec, kind, body, path);
    r.Some? && Names(codec, r.value, a)
  }

  ghost predicate Orderly(c: ParserConfig, codec: Codec, kind: BatchKind, body: Bytes) {
    TargetsAndData(codec, kind, body).Some? && forall path: Path :: OkAt(c, codec, kind, body, path)
  }

  ghost predicate NamedSomewhere(codec: Codec, kind: BatchKind, body: Bytes, a: Address) {
    exists path: Path :: NamesAt(codec, kind, body, path, a)
  }

  lemma OrderlyIsOk(c: ParserConfig, codec: Codec, kind: BatchKind, body: Bytes)
    ensures Orderly(c, codec, kind, body) <==> Batch(codec, kind, body).Some? && AllNodesOk(c, codec, kind, body, 0)
  {
    forall path: Path ensures OkAt(c, codec, kind, body, path) <==> OkAlong(c, codec, kind, body, 0, path) {
      RawIsNode(codec, kind, body, path);
      var r := RawAt(codec, kind, body, path);
      if r.Some? {
        RawOkIsNodeOk(c, codec, r.value, |path| - 1);
      }
    }
  }

  lemma NamedIsTouched(c: ParserConfig, codec: Codec, kind: BatchKind, body: Bytes, a: Address)
    requires Orderly(c, codec, kind, body)
    ensures NamedSomewhere(codec, kind, body, a) <==> Touches(codec, kind, body, a)
  {
    forall path: Path ensures NamesAt(codec, kind, body, path, a) <==> TouchesAlong(codec, kind, body, path, a) {
      RawIsNode(codec, kind, body, path);
      var r := RawAt(codec, kind, body, path);
      if r.Some? {
        assert OkAt(c, codec, kind, body, path);
        NamesAreTouched(c, codec, r.value, |path| - 1, a);
      }
    }
  }

  /** A batch is walked to its end exactly when every call found in it, at any depth, is one of the six kinds
      that may stand there; and the walk then collects exactly the addresses these calls name: targets,
      recipients and every token of every route. */
  lemma WalkCollectsNames(c: ParserConfig, codec: Codec, kind: BatchKind, body: Bytes)
    requires Multicall3(c).Some? && Router(c).Some?
    ensures var walk := Walk(c, codec, kind, body, 0);
      && (walk.Ok? <==> Orderly(c, codec, kind, body))
      && (walk.Ok? ==> forall a :: a in walk.value <==> NamedSomewhere(codec, kind, body, a))
  {
    WalkIsExact(c, codec, 0);
    assert Exact(c, codec, kind, body, 0);
    OrderlyIsOk(c, codec, kind, body);
    if Orderly(c, codec, kind, body) {
      forall a ensures NamedSomewhere(codec, kind, body, a) <==> Touches(codec, kind, body, a) {
        NamedIsTouched(c, codec, kind, body, a);
      }
    }
  }

  // ---------------------------------------------------------------- acceptance

  ghost predicate SafelyOrderly(c: ParserConfig, codec: Codec, kind: BatchKind, body: Bytes) {
    Orderly(c, codec, kind, body) && forall a :: NamedSomewhere(codec, kind, body, a) ==> Allowed(c, a)
  }

  /** What is asked of a batch, and of any other call, once its target is allowed. */
  ghost predicate BatchAccepted(c: ParserConfig, codec: Codec, kind: BatchKind, to: Address, data: Bytes)
    requires |data| >= 4
  {
    Multicall3(c) == Some(to) && Router(c) != Some(to) && SafelyOrderly(c, codec, kind, data[4..])
  }

  ghost predicate SwapAccepted(c: ParserConfig, codec: Codec, data: Bytes)
    requires |data| >= 4
  {
    if ForTokens(data) then
      && SwapStatesMinimum(codec, data)
      && forall a :: InSwap(codec.decodeSwap(data[4..]).value, a) ==> Allowed(c, a)
    else if MoeCall(data) then
      && |data| >= 8 && MoeStatesMinimum(codec, data)
      && forall a :: InSwap(codec.decodeSwap(data[4..]).value, a) ==> Allowed(c, a)
    else
      && |data| >= 8 && V3StatesMinimum(codec, data)
      && forall a :: InV3Swap(codec.decodeV3(data[4..]).value, a) ==> Allowed(c, a)
  }

  ghost predicate RawAccepts(c: ParserConfig, codec: Codec, to: Address, data: Bytes)
    requires |data| >= 4
  {
    && Router(c).Some? && Multicall3(c).Some?
    && (if PlainBatch(data) then BatchAccepted(c, codec, Plain, to, data)
        else if ValueBatch(data) then BatchAccepted(c, codec, WithValue, to, data)
        else if Multicall3(c) == Some(to) then false
        else if ForTokens(data) || V3Call(data) || MoeCall(data) then Router(c) == Some(to) && SwapAccepted(c, codec, data)
        else WithEth(data) || Router(c) != Some(to))
  }

  lemma RawCallAcceptance(c: ParserConfig, codec: Codec, to: Address, data: Bytes)
    requires |data| >= 4
    ensures CheckedCall(c, codec, None, to, data) == None <==> Allowed(c, to) && RawAccepts(c, codec, to, data)
  {
    SelectorsByBytes(data);
    if PlainBatch(data) || ValueBatch(data) {
      RawBatchAcceptance(c, codec, to, data);
    } else if V3Call(data) || MoeCall(data) {
      RawOtherSwap(c, codec, to, data);
    } else if ForTokens(data) || WithEth(data) {
      RawV2Swap(c, codec, to, data);
    } else {
      OtherCall(c, codec, to, data);
    }
  }

  lemma RawBatchAcceptance(c: ParserConfig, codec: Codec, to: Address, data: Bytes)
    requires PlainBatch(data) || ValueBatch(data)
    ensures CheckedCall(c, codec, None, to, data) == None <==> Allowed(c, to) && RawAccepts(c, codec, to, data)
  {
    SelectorsByBytes(data);
    var kind := if PlainBatch(data) then Plain else WithValue;
    BatchAcceptance(c, codec, to, data, kind);
    OrderlyIsOk(c, codec, kind, data[4..]);
    if Orderly(c, codec, kind, data[4..]) {
      forall a ensures NamedSomewhere(codec, kind, data[4..], a) <==> Touches(codec, kind, data[4..], a) {
        NamedIsTouched(c, codec, kind, data[4..], a);
      }
    }
  }

  lemma RawV2Swap(c: ParserConfig, codec: Codec, to: Address, data: Bytes)
    requires ForTokens(data) || WithEth(data)
    ensures CheckedCall(c, codec, None, to, data) == None <==> Allowed(c, to) && RawAccepts(c, codec, to, data)
  {
    SelectorsByBytes(data);
    var args := codec.decodeSwap(data[4..]);
    if args.Some? {
      forall a ensures a in AddressesOf(args.value) <==> InSwap(args.value, a) {
        SwapAddressesNamed(args.value, a);
      }
    }
    if Router(c).Some? && Multicall3(c).Some? {
      TopLevelV2Swap(c, codec, to, data);
    }
  }

  lemma RawOtherSwap(c: ParserConfig, codec: Codec, to: Address, data: Bytes)
    requires V3Call(data) || MoeCall(data)
    ensures CheckedCall(c, codec, None, to, data) == None <==> Allowed(c, to) && RawAccepts(c, codec, to, data)
  {
    SelectorsByBytes(data);
    TopLevelOtherSwap(c, codec, to, data);
    if MoeCall(data) && MoeStatesMinimum(codec, data) {
      var args := codec.decodeSwap(data[4..]).value;
      forall a ensures a in AddressesOf(args) <==> InSwap(args, a) {
        SwapAddressesNamed(args, a);
      }
    } else if V3Call(data) && V3StatesMinimum(codec, data) {
      var args := codec.decodeV3(data[4..]).value;
      forall a ensures a in V3Addresses(Some(args)) <==> InV3Swap(args, a) {
        HopsNamed(args.path, a);
      }
    }
  }

  /** No plugin before the `i`th claims the call. */
  predicate Unclaimed(plugins: seq<Plugin>, i: nat, head: Bytes, to: Address)
    requires i <= |plugins|
  {
    forall j :: 0 <= j < i ==> !plugins[j].canHandle(head, to)
  }

  /** What a payload with an allowed target is accepted for: no calldata to speak of, the first plugin that
      claims the call decodes it, or no plugin claims it and the built-in rules hold. */
  ghost predicate DataAccepted(c: ParserConfig, codec: Codec, plugins: seq<Plugin>, to: Address, data: DataField) {
    || data.Nothing?
    || (data.Blob? && |data.bytes| < 4)
    || (data.Blob? && |data.bytes| >= 4 && Unclaimed(plugins, |plugins|, data.bytes[..4], to)
        && RawAccepts(c, codec, to, data.bytes))
    || (data.Blob? && |data.bytes| >= 4 && exists i :: 0 <= i < |plugins| && Claims(plugins, i, to, data.bytes))
  }

  predicate Claims(plugins: seq<Plugin>, i: nat, to: Address, data: Bytes)
    requires i < |plugins| && |data| >= 4
  {
    IsFirst(plugins, i, data[..4], to) && plugins[i].decodes(data[..4], data[4..])
  }

  predicate IsFirst(plugins: seq<Plugin>, i: nat, head: Bytes, to: Address)
    requires i < |plugins|
  {
    Unclaimed(plugins, i, head, to) && plugins[i].canHandle(head, to)
  }

  lemma {:induction false} HandlerIsFirst(plugins: seq<Plugin>, head: Bytes, to: Address)
    ensures Handler(plugins, head, to) == None <==> Unclaimed(plugins, |plugins|, head, to)
    ensures Handler(plugins, head, to).Some? ==>
      exists i :: 0 <= i < |plugins| && IsFirst(plugins, i, head, to) && Handler(plugins, head, to) == Some(plugins[i])
  {
    if plugins != [] && !plugins[0].canHandle(head, to) {
      HandlerIsFirst(plugins[1..], head, to);
      assert forall j :: 0 < j < |plugins| ==> plugins[j] == plugins[1..][j - 1];
      var rest := plugins[1..];
      if i :| 0 <= i < |rest| && IsFirst(rest, i, head, to) && Handler(rest, head, to) == Some(rest[i]) {
        var next := i + 1;
        assert IsFirst(plugins, next, head, to) && Handler(plugins, head, to) == Some(plugins[next]);
      }
    }
  }

  /** Acceptance of any payload, by its bytes. */
  lemma AcceptedExactlyWhen(c: ParserConfig, codec: Codec, plugins: seq<Plugin>, p: Payload)
    ensures Checked(c, codec, plugins, p) == None <==>
      p.to.Target? && Allowed(c, p.to.address) && DataAccepted(c, codec, plugins, p.to.address, p.data)
  {
    if p.to.Target? {
      EnforcedMeansAllowed(c, {p.to.address});
      if p.data.Blob? && |p.data.bytes| >= 4 {
        RawCallAcceptance(c, codec, p.to.address, p.data.bytes);
        HandlerIsFirst(plugins, p.data.bytes[..4], p.to.address);
        FirstClaimIsUnique(plugins, p.to.address, p.data.bytes);
      }
    }
  }

  lemma FirstClaimIsUnique(plugins: seq<Plugin>, to: Address, data: Bytes)
    requires |data| >= 4
    ensures var h := Handler(plugins, data[..4], to);
      (exists i :: 0 <= i < |plugins| && Claims(plugins, i, to, data)) <==> h.Some? && h.value.decodes(data[..4], data[4..])
  {
    HandlerIsFirst(plugins, data[..4], to);
    var h := Handler(plugins, data[..4], to);
    if h.Some? {
      var i :| 0 <= i < |plugins| && IsFirst(plugins, i, data[..4], to) && h == Some(plugins[i]);
      if h.value.decodes(data[..4], data[4..]) {
        assert Claims(plugins, i, to, data);
      }
      forall j | 0 <= j < |plugins| && Claims(plugins, j, to, data) ensures j == i {
        assert !(j < i) && !(i < j);
      }
    }
  }

  predicate OffTheLists(c: ParserConfig, a: Address) { a !in c.blacklist && (c.whitelist != {} ==> a in c.whitelist) }

  /** So in an accepted batch every V2 or Merchant Moe swap, at any depth, has its target, its recipient and
      every token of its route off the block list and, given an allow list, on it. */
  lemma AcceptedRoutesAreAllowed(c: ParserConfig, codec: Codec, to: Address, data: Bytes, path: Path, r: RawCall,
                                 args: SwapArgs)
    requires PlainBatch(data) || ValueBatch(data)
    requires Checked(c, codec, [], Payload(Target(to), Blob(data))) == None
    requires RawAt(codec, if PlainBatch(data) then Plain else WithValue, data[4..], path) == Some(r)
    requires ForTokens(r.data) || WithEth(r.data) || MoeCall(r.data)
    requires codec.decodeSwap(r.data[4..]) == Some(args)
    ensures OffTheLists(c, r.target) && OffTheLists(c, args.recipient)
    ensures forall i :: 0 <= i < |args.path| ==> OffTheLists(c, args.path[i])
  {
    var kind := if PlainBatch(data) then Plain else WithValue;
    RawBatchAcceptance(c, codec, to, data);
    NamedIsAllowed(c, codec, kind, data[4..], path, r, r.target);
    NamedIsAllowed(c, codec, kind, data[4..], path, r, args.recipient);
    forall i | 0 <= i < |args.path| ensures OffTheLists(c, args.path[i]) {
      assert InSwap(args, args.path[i]);
      NamedIsAllowed(c, codec, kind, data[4..], path, r, args.path[i]);
    }
  }

  lemma NamedIsAllowed(c: ParserConfig, codec: Codec, kind: BatchKind, body: Bytes, path: Path, r: RawCall, a: Address)
    requires SafelyOrderly(c, codec, kind, body) && RawAt(codec, kind, body, path) == Some(r) && Names(codec, r, a)
    ensures OffTheLists(c, a)
  {
    assert NamesAt(codec, kind, body, path, a) && NamedSomewhere(codec, kind, body, a);
  }

  // ---------------------------------------------------------------- reasons for a refusal

  /** What is wrong with a call of a batch by itself; a batch inside a batch has reasons of its own. */
  function RawReason(c: ParserConfig, codec: Codec, r: RawCall): Option<ParseError> {
    if r.data == [] then None
    else if PlainBatch(r.data) || ValueBatch(r.data) then
      if Some(r.target) != Multicall3(c) then Some(MulticallPoison) else None
    else if ForTokens(r.data) || WithEth(r.data) then
      if Some(r.target) != Router(c) then Some(RouterPoison) else SwapReason(codec, r.data[4..], false)
    else if r.kind == Plain && V3Call(r.data) then V3Reason(codec, r.data[4..])
    else if r.kind == Plain && MoeCall(r.data) then SwapReason(codec, r.data[4..], true)
    else Some(UnsupportedInnerCall)
  }

  function SwapReason(codec: Codec, body: Bytes, wantsInput: bool): Option<ParseError> {
    match codec.decodeSwap(body)
    case None => Some(SwapUndecodable)
    case Some(args) =>
      if args.minOut == 0 then Some(NoMinimumOut)
      else if wantsInput && args.amount == 0 then Some(NoAmountIn) else None
  }

  function V3Reason(codec: Codec, body: Bytes): Option<ParseError> {
    match codec.decodeV3(body)
    case None => Some(SwapUndecodable)
    case Some(args) =>
      if args.minOut == 0 then Some(NoMinimumOut)
      else if args.amountIn == 0 then Some(NoAmountIn)
      else if |args.path| < 20 then Some(PathTooShort)
      else if |args.path| % 23 != 20 then Some(PathMalformed) else None
  }

  /** What a batch inside a batch is refused for, if the call is one. */
  function InnerReason(c: ParserConfig, codec: Codec, r: RawCall, depth: nat): Option<ParseError> {
    if PlainBatch(r.data) then ErrorOf(Walk(c, codec, Plain, r.data[4..], depth + 1))
    else if ValueBatch(r.data) then ErrorOf(Walk(c, codec, WithValue, r.data[4..], depth + 1))
    else None
  }

  function ErrorOf<T>(r: Result<T, ParseError>): Option<ParseError> { match r case Ok(_) => None case Err(e) => Some(e) }

  function CallReason(c: ParserConfig, codec: Codec, r: RawCall, depth: nat): Option<ParseError> {
    if RawReason(c, codec, r).Some? then RawReason(c, codec, r) else InnerReason(c, codec, r, depth)
  }

  lemma LegReason(c: ParserConfig, codec: Codec, r: RawCall, depth: nat)
    requires depth <= 5 && Multicall3(c).Some? && Router(c).Some?
    ensures ErrorOf(WalkLeg(c, codec, r.kind, LegOf(r.target, r.data), depth)) == CallReason(c, codec, r, depth)
  {
    SelectorsByBytes(r.data);
  }

  lemma {:induction false} FirstBadLeg(c: ParserConfig, codec: Codec, kind: BatchKind, legs: seq<Leg>, depth: nat)
    returns (i: nat)
    requires depth <= MAX_DEPTH && Multicall3(c).Some? && Router(c).Some? && WalkLegs(c, codec, kind, legs, depth).Err?
    ensures i < |legs| && WalkLeg(c, codec, kind, legs[i], depth).Err?
    ensures WalkLeg(c, codec, kind, legs[i], depth).error == WalkLegs(c, codec, kind, legs, depth).error
    ensures forall j :: 0 <= j < i ==> WalkLeg(c, codec, kind, legs[j], depth).Ok?
  {
    var n := |legs| - 1;
    if WalkLegs(c, codec, kind, legs[..n], depth).Err? {
      i := FirstBadLeg(c, codec, kind, legs[..n], depth);
      assert legs[..n][i] == legs[i] && forall j :: 0 <= j < i ==> legs[..n][j] == legs[j];
    } else {
      i := n;
      EarlierLegsPass(c, codec, kind, legs[..n], depth);
      assert forall j :: 0 <= j < n ==> legs[..n][j] == legs[j];
    }
  }

  lemma {:induction false} EarlierLegsPass(c: ParserConfig, codec: Codec, kind: BatchKind, legs: seq<Leg>, depth: nat)
    requires depth <= MAX_DEPTH && Multicall3(c).Some? && Router(c).Some? && WalkLegs(c, codec, kind, legs, depth).Ok?
    ensures forall j :: 0 <= j < |legs| ==> WalkLeg(c, codec, kind, legs[j], depth).Ok?
  {
    if legs != [] {
      var n := |legs| - 1;
      EarlierLegsPass(c, codec, kind, legs[..n], depth);
      assert forall j :: 0 <= j < n ==> legs[..n][j] == legs[j];
    }
  }

  /** A refused batch is refused for being nested more than six deep, for its bytes, or for the first of its
      calls that has something wrong with it. */
  lemma WalkReason(c: ParserConfig, codec: Codec, kind: BatchKind, body: Bytes, depth: nat)
    requires Multicall3(c).Some? && Router(c).Some? && Walk(c, codec, kind, body, depth).Err?
    ensures var e := Walk(c, codec, kind, body, depth).error;
      var calls := TargetsAndData(codec, kind, body);
      if depth > 5 then e == TooDeep
      else if calls == None then e == BatchUndecodable(kind)
      else exists i :: 0 <= i < |calls.value| && RefusedAt(c, codec, kind, calls.value, depth, i, e)
  {
    if depth <= 5 && TargetsAndData(codec, kind, body).Some? {
      var calls, legs := TargetsAndData(codec, kind, body).value, Batch(codec, kind, body).value;
      var i := FirstBadLeg(c, codec, kind, legs, depth);
      forall j | 0 <= j <= i
        ensures ErrorOf(WalkLeg(c, codec, kind, legs[j], depth)) ==
                CallReason(c, codec, RawCall(kind, calls[j].0, calls[j].1), depth) {
        LegReason(c, codec, RawCall(kind, calls[j].0, calls[j].1), depth);
        assert legs[j] == LegOf(calls[j].0, calls[j].1);
      }
      assert RefusedAt(c, codec, kind, calls, depth, i, Walk(c, codec, kind, body, depth).error);
    }
  }

  predicate RefusedAt(c: ParserConfig, codec: Codec, kind: BatchKind, calls: seq<(Address, Bytes)>, depth: nat, i: nat,
                      e: ParseError)
    requires i < |calls|
  {
    && CallReason(c, codec, RawCall(kind, calls[i].0, calls[i].1), depth) == Some(e)
    && forall j :: 0 <= j < i ==> CallReason(c, codec, RawCall(kind, calls[j].0, calls[j].1), depth) == None
  }

  /** Why a call outside a batch is refused before its addresses are looked at. */
  function TopReason(c: ParserConfig, codec: Codec, to: Address, data: Bytes): Option<ParseError>
    requires |data| >= 4
  {
    var swap := ForTokens(data) || WithEth(data) || V3Call(data) || MoeCall(data);
    if Router(c) == None then Some(NoRouter)
    else if Multicall3(c) == None then Some(NoMulticall3)
    else if Router(c) == Some(to) && !swap then Some(NonSwapAtRouter)
    else if Router(c) == Some(to) && V3Call(data) && |data| < 8 then Some(ShortV3Call)
    else if Router(c) == Some(to) && MoeCall(data) && |data| < 8 then Some(ShortMoeCall)
    else if Multicall3(c) == Some(to) && !PlainBatch(data) && !ValueBatch(data) then Some(NonBatchAtMulticall3)
    else if PlainBatch(data) || ValueBatch(data) then
      if Multicall3(c) != Some(to) then Some(RoutePoison)
      else ErrorOf(Walk(c, codec, if PlainBatch(data) then Plain else WithValue, data[4..], 0))
    else if ForTokens(data) || V3Call(data) || MoeCall(data) then
      if Router(c) != Some(to) then Some(RoutePoison)
      else if V3Call(data) then V3Reason(codec, data[4..])
      else SwapReason(codec, data[4..], MoeCall(data))
    else None
  }

  lemma TopReasonGiven(c: ParserConfig, codec: Codec, to: Address, data: Bytes)
    requires |data| >= 4
    ensures ErrorOf(BuiltIn(c, codec, to, SelectorOf(data), Body(data))) == TopReason(c, codec, to, data)
  {
    SelectorsByBytes(data);
  }

  /** The reason given for a payload, in the order in which the parser looks: calldata text, target text,
      target, digits, plugin, the rules above, the block list, the allow list. */
  lemma ReasonGiven(c: ParserConfig, codec: Codec, plugins: seq<Plugin>, p: Payload)
    ensures p.data.NotText? ==> Checked(c, codec, plugins, p) == Some(DataNotText)
    ensures !p.data.NotText? && p.to.NotString? ==> Checked(c, codec, plugins, p) == Some(TargetNotText)
    ensures !p.data.NotText? && p.to.Malformed? ==> Checked(c, codec, plugins, p) == Some(TargetInvalid)
    ensures p.to.Target? && p.data.NotHex? ==> Checked(c, codec, plugins, p) == Some(DataNotHex)
    ensures p.to.Target? && p.data.Blob? && |p.data.bytes| >= 4 ==>
      var bytes, to := p.data.bytes, p.to.address;
      var reason := Checked(c, codec, plugins, p);
      if Unclaimed(plugins, |plugins|, bytes[..4], to) then
        if TopReason(c, codec, to, bytes).Some? then reason == TopReason(c, codec, to, bytes)
        else reason in {None, Some(BlockListed), Some(NotWhitelisted)}
      else reason in {None, Some(PluginFailed), Some(BlockListed), Some(NotWhitelisted)}
  {
    if p.to.Target? && p.data.Blob? && |p.data.bytes| >= 4 {
      HandlerIsFirst(plugins, p.data.bytes[..4], p.to.address);
      TopReasonGiven(c, codec, p.to.address, p.data.bytes);
    }
  }

  /** Which of the two lists refuses a set of addresses. */
  lemma ListReason(c: ParserConfig, touched: set<Address>)
    ensures Enforced(c, touched) == Some(BlockListed) <==> exists a :: a in touched && a in c.blacklist
    ensures Enforced(c, touched) == Some(NotWhitelisted) <==>
      (forall a :: a in touched ==> a !in c.blacklist) && c.whitelist != {} && exists a :: a in touched && a !in c.whitelist
  {
    if a :| a in touched && a in c.blacklist {
      assert a in touched * c.blacklist;
    } else {
      assert touched * c.blacklist == {};
    }
  }
}
