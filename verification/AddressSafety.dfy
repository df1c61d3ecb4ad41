/** What acceptance by the parser promises about the addresses of a payload. */
module AddressSafety {
  import opened Common
  import opened Calldata
  import opened V3Path
  import opened DefiParser
  import opened BatchTree

  /** Not block-listed and, when there is an allow list, on it. */
  predicate Allowed(c: ParserConfig, a: Address) {
    a !in c.blacklist && (c.whitelist != {} ==> a in c.whitelist)
  }

  lemma EnforcedMeansAllowed(c: ParserConfig, touched: set<Address>)
    ensures Enforced(c, touched) == None <==> forall a :: a in touched ==> Allowed(c, a)
  {
    forall a | a in touched && a in c.blacklist ensures touched * c.blacklist != {} {
      assert a in touched * c.blacklist;
    }
  }

  /** A batch on the built-in path is accepted exactly when it is addressed to Multicall3, every call
      in its tree is in order, and every address any of those calls involves is allowed. */
  lemma BatchAcceptance(c: ParserConfig, codec: Codec, to: Address, data: Bytes, kind: BatchKind)
    requires SelectorOf(data) == if kind == Plain then Aggregate3 else Aggregate3Value
    ensures CheckedCall(c, codec, None, to, data) == None <==>
      && Router(c).Some? && Multicall3(c) == Some(to) && Router(c) != Some(to)
      && Batch(codec, kind, Body(data)).Some?
      && AllNodesOk(c, codec, kind, Body(data), 0)
      && Allowed(c, to)
      && forall a :: Touches(codec, kind, Body(data), a) ==> Allowed(c, a)
  {
    if Router(c).Some? && Multicall3(c) == Some(to) && Router(c) != Some(to) {
      var walk := Walk(c, codec, kind, Body(data), 0);
      WalkIsExact(c, codec, 0);
      assert Exact(c, codec, kind, Body(data), 0);
      if walk.Ok? {
        EnforcedMeansAllowed(c, {to} + walk.value);
      }
    }
  }

  /** So nothing a call of an accepted batch involves, at any depth, is block-listed or off the list. */
  lemma AcceptedBatchIsSafe(c: ParserConfig, codec: Codec, to: Address, data: Bytes, kind: BatchKind, path: Path,
                            a: Address)
    requires SelectorOf(data) == if kind == Plain then Aggregate3 else Aggregate3Value
    requires CheckedCall(c, codec, None, to, data) == None
    requires TouchesAlong(codec, kind, Body(data), path, a)
    ensures |path| <= 6 && a !in c.blacklist && (c.whitelist != {} ==> a in c.whitelist)
  {
    BatchAcceptance(c, codec, to, data, kind);
    AtMostSixLevels(c, codec, kind, Body(data), path);
    assert Touches(codec, kind, Body(data), a);
  }

  /** Outside a batch only one of the three V2 entry points is decoded. The other two are accepted on
      their target alone, wherever it is, so neither a zero minimum nor the route is looked at. */
  lemma TopLevelV2Swap(c: ParserConfig, codec: Codec, to: Address, data: Bytes)
    requires IsV2Swap(SelectorOf(data)) && Router(c).Some? && Multicall3(c).Some?
    ensures CheckedCall(c, codec, None, to, data) == None <==>
      && Multicall3(c) != Some(to) && Allowed(c, to)
      && (SelectorOf(data) == TokensForTokens ==>
            && Router(c) == Some(to) && SwapHasMinimum(codec, Body(data))
            && forall a :: a in SwapAddresses(codec.decodeSwap(Body(data))) ==> Allowed(c, a))
  {
    EnforcedMeansAllowed(c, {to});
    var args := codec.decodeSwap(Body(data));
    if args.Some? {
      EnforcedMeansAllowed(c, {to} + AddressesOf(args.value));
    }
  }

  /** So at an allowed router the parser accepts every call of those two entry points, even one that,
      decoded the way it is inside a batch, asks for no minimum and pays a block-listed recipient. */
  lemma RouterCallGoesUndecoded(c: ParserConfig, codec: Codec, to: Address, data: Bytes, args: SwapArgs)
    requires SelectorOf(data) in {EthForTokens, TokensForEth} && codec.decodeSwap(Body(data)) == Some(args)
    requires args.minOut == 0 && args.recipient in c.blacklist
    requires Router(c) == Some(to) && Multicall3(c).Some? && Multicall3(c) != Some(to) && Allowed(c, to)
    ensures Checked(c, codec, [], Payload(Target(to), Blob(data))) == None
    ensures SwapTouches(codec, Body(data)) == Err(NoMinimumOut) && !Allowed(c, args.recipient)
  {
    TopLevelV2Swap(c, codec, to, data);
  }

  predicate OtherSwapOk(codec: Codec, s: Selector, body: Bytes) {
    if s == MoeSwap then MoeSwapHasMinimum(codec, body) else V3SwapHasMinimum(codec, body)
  }

  function OtherSwapAddresses(codec: Codec, s: Selector, body: Bytes): set<Address> {
    if s == MoeSwap then SwapAddresses(codec.decodeSwap(body)) else V3Addresses(codec.decodeV3(body))
  }

  /** V3 and Merchant Moe calls outside a batch: only at the router, only with a minimum and an input,
      and with every address of the route allowed. */
  lemma TopLevelOtherSwap(c: ParserConfig, codec: Codec, to: Address, data: Bytes)
    requires IsV3Swap(SelectorOf(data)) || SelectorOf(data) == MoeSwap
    ensures CheckedCall(c, codec, None, to, data) == None <==>
      && Router(c) == Some(to) && Multicall3(c).Some? && Multicall3(c) != Some(to) && |Body(data)| >= 4
      && OtherSwapOk(codec, SelectorOf(data), Body(data))
      && Allowed(c, to)
      && forall a :: a in OtherSwapAddresses(codec, SelectorOf(data), Body(data)) ==> Allowed(c, a)
  {
    EnforcedMeansAllowed(c, {to} + OtherSwapAddresses(codec, SelectorOf(data), Body(data)));
  }

  /** Any other call is judged by its target, which can be neither the router nor Multicall3. */
  lemma OtherCall(c: ParserConfig, codec: Codec, to: Address, data: Bytes)
    requires SelectorOf(data) == Other
    ensures CheckedCall(c, codec, None, to, data) == None <==>
      && Router(c).Some? && Multicall3(c).Some? && Router(c) != Some(to) && Multicall3(c) != Some(to) && Allowed(c, to)
  {
    EnforcedMeansAllowed(c, {to});
  }

  /** Short payloads, and calls a plugin claims, are judged by their target alone. */
  lemma TargetOnly(c: ParserConfig, codec: Codec, plugins: seq<Plugin>, to: Address, data: Bytes)
    ensures Checked(c, codec, plugins, Payload(Target(to), Nothing)) == None <==> Allowed(c, to)
    ensures |data| < 4 ==> (Checked(c, codec, plugins, Payload(Target(to), Blob(data))) == None <==> Allowed(c, to))
    ensures |data| >= 4 && Handler(plugins, Head(data), to).Some? ==>
      (Checked(c, codec, plugins, Payload(Target(to), Blob(data))) == None <==>
         Handler(plugins, Head(data), to).value.decodes(Head(data), Body(data)) && Allowed(c, to))
  {
    EnforcedMeansAllowed(c, {to});
  }

  /** Inside a plain batch a V3 swap may be addressed to any allowed address: the batch of this one call is
      accepted, while the same call by itself is refused unless it goes to the router. */
  lemma BatchedV3GoesAnywhere(c: ParserConfig, codec: Codec, to: Address, data: Bytes, call: Call, args: V3Args)
    requires SelectorOf(data) == Aggregate3 && codec.decodeCalls(Body(data)) == Some([call])
    requires IsV3Swap(SelectorOf(call.data)) && codec.decodeV3(Body(call.data)) == Some(args)
    requires args.minOut != 0 && args.amountIn != 0 && WellFormed(args.path)
    requires Router(c).Some? && Multicall3(c) == Some(to) && Router(c) != Some(to)
    requires Allowed(c, to) && Allowed(c, call.target) && Allowed(c, args.recipient)
    requires forall a :: a in PathAddresses(args.path) ==> Allowed(c, a)
    ensures CheckedCall(c, codec, None, to, data) == None
    ensures Router(c) != Some(call.target) ==> CheckedCall(c, codec, None, call.target, call.data) != None
  {
    var leg := LegOf(call.target, call.data);
    assert LegsOfCalls([call]) == [leg] && leg.action == V3Swap(Body(call.data));
    BatchAcceptance(c, codec, to, data, Plain);
    assert NodeOk(c, codec, Node(Plain, leg), 0);
    forall path: Path ensures OkAlong(c, codec, Plain, Body(data), 0, path) {
      OnlyLeg(codec, Body(data), leg, path);
    }
    forall a | Touches(codec, Plain, Body(data), a) ensures Allowed(c, a) {
      var path: Path :| TouchesAlong(codec, Plain, Body(data), path, a);
      OnlyLeg(codec, Body(data), leg, path);
    }
    TopLevelOtherSwap(c, codec, call.target, call.data);
  }

  /** In a batch of one swap every path leads to that swap or nowhere. */
  lemma OnlyLeg(codec: Codec, body: Bytes, leg: Leg, path: Path)
    requires Batch(codec, Plain, body) == Some([leg]) && leg.action.V3Swap?
    ensures At(codec, Plain, body, path) in {None, Some(Node(Plain, leg))}
    ensures At(codec, Plain, body, path).Some? ==> |path| == 1
  {
  }

  // ---------------------------------------------------------------- everything a payload involves

  /** Whatever lies in the batch, at any depth, is allowed, and lies at most six batches deep. */
  ghost predicate SafeBatch(c: ParserConfig, codec: Codec, kind: BatchKind, body: Bytes) {
    forall path: Path, a :: TouchesAlong(codec, kind, body, path, a) ==> |path| <= 6 && Allowed(c, a)
  }

  predicate AllAllowed(c: ParserConfig, touched: set<Address>) { forall a :: a in touched ==> Allowed(c, a) }

  /** The target is allowed, and so is everything the parser decodes from the call. */
  ghost predicate SafeCall(c: ParserConfig, codec: Codec, to: Address, data: Bytes) {
    Allowed(c, to) &&
    match SelectorOf(data)
    case Aggregate3 => SafeBatch(c, codec, Plain, Body(data))
    case Aggregate3Value => SafeBatch(c, codec, WithValue, Body(data))
    case TokensForTokens => AllAllowed(c, SwapAddresses(codec.decodeSwap(Body(data))))
    case ExactInput => AllAllowed(c, V3Addresses(codec.decodeV3(Body(data))))
    case ExactOutput => AllAllowed(c, V3Addresses(codec.decodeV3(Body(data))))
    case MoeSwap => AllAllowed(c, SwapAddresses(codec.decodeSwap(Body(data))))
    case EthForTokens => true
    case TokensForEth => true
    case Other => true
  }

  lemma AcceptedCallIsSafe(c: ParserConfig, codec: Codec, to: Address, data: Bytes)
    requires CheckedCall(c, codec, None, to, data) == None
    ensures SafeCall(c, codec, to, data)
  {
    var s := SelectorOf(data);
    if IsAggregate(s) {
      var kind := if s == Aggregate3 then Plain else WithValue;
      BatchAcceptance(c, codec, to, data, kind);
      forall path: Path, a | TouchesAlong(codec, kind, Body(data), path, a) ensures |path| <= 6 && Allowed(c, a) {
        AcceptedBatchIsSafe(c, codec, to, data, kind, path, a);
      }
    } else if IsV2Swap(s) {
      TopLevelV2Swap(c, codec, to, data);
    } else if s == Other {
      OtherCall(c, codec, to, data);
    } else {
      TopLevelOtherSwap(c, codec, to, data);
    }
  }

  /** The target of a payload is allowed and, unless a plugin decodes it, everything in its calldata is. */
  ghost predicate SafePayload(c: ParserConfig, codec: Codec, plugins: seq<Plugin>, p: Payload) {
    && p.to.Target? && Allowed(c, p.to.address)
    && (p.data.Blob? && |p.data.bytes| >= 4 && Handler(plugins, Head(p.data.bytes), p.to.address).None? ==>
          SafeCall(c, codec, p.to.address, p.data.bytes))
  }

  /** So it is for every payload the parser accepts. */
  lemma AcceptedPayloadIsSafe(c: ParserConfig, codec: Codec, plugins: seq<Plugin>, p: Payload)
    requires Checked(c, codec, plugins, p) == None
    ensures SafePayload(c, codec, plugins, p)
  {
    TargetOnly(c, codec, plugins, p.to.address, if p.data.Blob? then p.data.bytes else []);
    if p.data.Blob? && |p.data.bytes| >= 4 && Handler(plugins, Head(p.data.bytes), p.to.address).None? {
      AcceptedCallIsSafe(c, codec, p.to.address, p.data.bytes);
    }
  }
}
