/** L3 calldata parser: swap decoders, the two batch walkers and the address lists. */
module DefiParser {
  import opened Common
  import opened Calldata
  import opened V3Path

  datatype ParserConfig = ParserConfig(
    chainId: int,
    multicall3: Option<Address>,
    v2Router: Option<Address>,
    adapterMulticall3: Option<Address>,
    adapterRouter: Option<Address>,
    blacklist: set<Address>,
    whitelist: set<Address>)

  datatype BatchKind = Plain | WithValue

  datatype ParseError =
    | DataNotText
    | TargetNotText
    | TargetInvalid
    | DataNotHex
    | PluginFailed
    | NoMulticall3
    | NoRouter
    | NonSwapAtRouter
    | ShortV3Call
    | ShortMoeCall
    | NonBatchAtMulticall3
    | RoutePoison
    | TooDeep
    | BatchUndecodable(kind: BatchKind)
    | MulticallPoison
    | RouterPoison
    | UnsupportedInnerCall
    | SwapUndecodable
    | NoMinimumOut
    | NoAmountIn
    | PathTooShort
    | PathMalformed
    | BlockListed
    | NotWhitelisted

  // ---------------------------------------------------------------- canonical targets

  /** Configured address first, then the mainnet default, then the chain adapter. */
  function Multicall3(c: ParserConfig): Option<Address> {
    if c.multicall3.Some? then c.multicall3
    else if c.chainId == 1 then Some(MAINNET_MULTICALL3)
    else c.adapterMulticall3
  }

  function Router(c: ParserConfig): Option<Address> {
    if c.v2Router.Some? then c.v2Router
    else if c.chainId == 1 then Some(MAINNET_ROUTER)
    else c.adapterRouter
  }

  // ---------------------------------------------------------------- what each leaf may touch

  function AddressesOf(a: SwapArgs): set<Address> { {a.recipient} + set p | p in a.path }

  function SwapTouches(codec: Codec, body: Bytes): Result<set<Address>, ParseError> {
    match codec.decodeSwap(body)
    case None => Err(SwapUndecodable)
    case Some(a) => if a.minOut == 0 then Err(NoMinimumOut) else Ok(AddressesOf(a))
  }

  function MoeTouches(codec: Codec, body: Bytes): Result<set<Address>, ParseError> {
    match codec.decodeSwap(body)
    case None => Err(SwapUndecodable)
    case Some(a) =>
      if a.minOut == 0 then Err(NoMinimumOut) else if a.amount == 0 then Err(NoAmountIn) else Ok(AddressesOf(a))
  }

  function V3Touches(codec: Codec, body: Bytes): Result<set<Address>, ParseError> {
    match codec.decodeV3(body)
    case None => Err(SwapUndecodable)
    case Some(a) =>
      if a.minOut == 0 then Err(NoMinimumOut)
      else if a.amountIn == 0 then Err(NoAmountIn)
      else if |a.path| < 20 then Err(PathTooShort)
      else if |a.path| % 23 != 20 then Err(PathMalformed)
      else Ok({a.recipient} + PathAddresses(a.path))
  }

  // ---------------------------------------------------------------- the walk as a function

  /** What a call of a batch asks for, going by its selector. */
  datatype Action =
    | Transfer
    | Nest(kind: BatchKind, batch: Bytes)
    | V2Swap(args: Bytes)
    | V3Swap(args: Bytes)
    | MoeSwapCall(args: Bytes)
    | Unknown

  /** One call of a batch, whichever kind of batch it is in. */
  datatype Leg = Leg(target: Address, action: Action)

  function ActionOf(data: Bytes): Action {
    if data == [] then Transfer
    else
      match SelectorOf(data)
      case Aggregate3 => Nest(Plain, Body(data))
      case Aggregate3Value => Nest(WithValue, Body(data))
      case TokensForTokens => V2Swap(Body(data))
      case EthForTokens => V2Swap(Body(data))
      case TokensForEth => V2Swap(Body(data))
      case ExactInput => V3Swap(Body(data))
      case ExactOutput => V3Swap(Body(data))
      case MoeSwap => MoeSwapCall(Body(data))
      case Other => Unknown
  }

  function LegOf(target: Address, data: Bytes): Leg { Leg(target, ActionOf(data)) }

  function LegsOfCalls(calls: seq<Call>): seq<Leg> {
    seq(|calls|, i requires 0 <= i < |calls| => LegOf(calls[i].target, calls[i].data))
  }

  function LegsOfValueCalls(calls: seq<ValueCall>): seq<Leg> {
    seq(|calls|, i requires 0 <= i < |calls| => LegOf(calls[i].target, calls[i].data))
  }

  function Batch(codec: Codec, kind: BatchKind, body: Bytes): Option<seq<Leg>> {
    match kind
    case Plain =>
      (match codec.decodeCalls(body) case None => None case Some(calls) => Some(LegsOfCalls(calls)))
    case WithValue =>
      (match codec.decodeValueCalls(body) case None => None case Some(calls) => Some(LegsOfValueCalls(calls)))
  }

  function Levels(depth: nat): nat { if depth > MAX_DEPTH then 0 else MAX_DEPTH + 1 - depth }

  function Join(a: set<Address>, r: Result<set<Address>, ParseError>): Result<set<Address>, ParseError> {
    match r case Err(e) => Err(e) case Ok(b) => Ok(a + b)
  }

  /** What walking a batch ends in: the addresses it touches, or the first error met in call order. */
  function Walk(c: ParserConfig, codec: Codec, kind: BatchKind, body: Bytes, depth: nat): Result<set<Address>,
                ParseError>
    decreases Levels(depth), 2, 0
  {
    if depth > MAX_DEPTH then Err(TooDeep)
    else if Multicall3(c).None? then Err(NoMulticall3)
    else if Router(c).None? then Err(NoRouter)
    else
      match Batch(codec, kind, body)
      case None => Err(BatchUndecodable(kind))
      case Some(legs) => WalkLegs(c, codec, kind, legs, depth)
  }

  function WalkLegs(c: ParserConfig, codec: Codec, kind: BatchKind, legs: seq<Leg>, depth: nat)
    : Result<set<Address>, ParseError>
    requires depth <= MAX_DEPTH && Multicall3(c).Some? && Router(c).Some?
    decreases Levels(depth), 1, |legs|
  {
    if legs == [] then Ok({})
    else
      match WalkLegs(c, codec, kind, legs[..|legs| - 1], depth)
      case Err(e) => Err(e)
      case Ok(touched) => Join(touched, WalkLeg(c, codec, kind, legs[|legs| - 1], depth))
  }

  function WalkLeg(c: ParserConfig, codec: Codec, kind: BatchKind, leg: Leg, depth: nat): Result<set<Address>,
                   ParseError>
    requires depth <= MAX_DEPTH && Multicall3(c).Some? && Router(c).Some?
    decreases Levels(depth), 0, 0
  {
    match leg.action
    case Transfer => Ok({leg.target})
    case Nest(inner, batch) =>
      if leg.target != Multicall3(c).value then Err(MulticallPoison)
      else Join({leg.target}, Walk(c, codec, inner, batch, depth + 1))
    case V2Swap(args) =>
      if leg.target != Router(c).value then Err(RouterPoison) else Join({leg.target}, SwapTouches(codec, args))
    case V3Swap(args) =>
      if kind == WithValue then Err(UnsupportedInnerCall) else Join({leg.target}, V3Touches(codec, args))
    case MoeSwapCall(args) =>
      if kind == WithValue then Err(UnsupportedInnerCall) else Join({leg.target}, MoeTouches(codec, args))
    case Unknown => Err(UnsupportedInnerCall)
  }

  /** An error found in a prefix of the calls is the error of the batch. */
  lemma {:induction false} EarlierErrorStands(c: ParserConfig, codec: Codec, kind: BatchKind, legs: seq<Leg>,
                                              depth: nat, k: nat)
    requires depth <= MAX_DEPTH && Multicall3(c).Some? && Router(c).Some? && k <= |legs|
    requires WalkLegs(c, codec, kind, legs[..k], depth).Err?
    ensures WalkLegs(c, codec, kind, legs, depth) == WalkLegs(c, codec, kind, legs[..k], depth)
    decreases |legs|
  {
    if k < |legs| {
      assert legs[..|legs| - 1][..k] == legs[..k];
      EarlierErrorStands(c, codec, kind, legs[..|legs| - 1], depth, k);
    } else {
      assert legs[..k] == legs;
    }
  }

  // ---------------------------------------------------------------- the whole payload

  /** A decoder plugin: which calldata it claims, and on which of it it succeeds. */
  datatype Plugin = Plugin(canHandle: (Bytes, Address) -> bool, decodes: (Bytes, Bytes) -> bool)

  datatype DataField = NotText | Nothing | NotHex | Blob(bytes: Bytes)

  datatype TargetField = NotString | Malformed | Target(address: Address)

  datatype Payload = Payload(to: TargetField, data: DataField)

  function Enforced(c: ParserConfig, touched: set<Address>): Option<ParseError> {
    if touched * c.blacklist != {} then Some(BlockListed)
    else if c.whitelist != {} && !(touched <= c.whitelist) then Some(NotWhitelisted)
    else None
  }

  /** The first plugin that claims the call. */
  function Handler(plugins: seq<Plugin>, head: Bytes, to: Address): Option<Plugin> {
    if plugins == [] then None
    else if plugins[0].canHandle(head, to) then Some(plugins[0])
    else Handler(plugins[1..], head, to)
  }

  /** What the built-in decoders make of a call with selector `s`. */
  function BuiltIn(c: ParserConfig, codec: Codec, to: Address, s: Selector, body: Bytes): Result<set<Address>,
                   ParseError> {
    if Router(c).None? then Err(NoRouter)
    else if Multicall3(c).None? then Err(NoMulticall3)
    else
      var atRouter, atMulticall := to == Router(c).value, to == Multicall3(c).value;
      if atRouter && !(IsV2Swap(s) || IsV3Swap(s) || s == MoeSwap) then Err(NonSwapAtRouter)
      else if atRouter && IsV3Swap(s) && |body| < 4 then Err(ShortV3Call)
      else if atRouter && s == MoeSwap && |body| < 4 then Err(ShortMoeCall)
      else if atMulticall && !IsAggregate(s) then Err(NonBatchAtMulticall3)
      else
        match s
        case Aggregate3 => if !atMulticall then Err(RoutePoison) else Join({to}, Walk(c, codec, Plain, body, 0))
        case Aggregate3Value => if !atMulticall then Err(RoutePoison) else Join({to}, Walk(c, codec, WithValue, body, 0))
        case TokensForTokens => if !atRouter then Err(RoutePoison) else Join({to}, SwapTouches(codec, body))
        case ExactInput => if !atRouter then Err(RoutePoison) else Join({to}, V3Touches(codec, body))
        case ExactOutput => if !atRouter then Err(RoutePoison) else Join({to}, V3Touches(codec, body))
        case MoeSwap => if !atRouter then Err(RoutePoison) else Join({to}, MoeTouches(codec, body))
        case EthForTokens => Ok({to})
        case TokensForEth => Ok({to})
        case Other => Ok({to})
  }

  /** The verdict on a payload: no error, or the first one. */
  function Checked(c: ParserConfig, codec: Codec, plugins: seq<Plugin>, p: Payload): Option<ParseError> {
    if p.data.NotText? then Some(DataNotText)
    else if p.to.NotString? then Some(TargetNotText)
    else if p.to.Malformed? then Some(TargetInvalid)
    else if p.data.Nothing? then Enforced(c, {p.to.address})
    else if p.data.NotHex? then Some(DataNotHex)
    else if |p.data.bytes| < 4 then Enforced(c, {p.to.address})
    else CheckedCall(c, codec, Handler(plugins, Head(p.data.bytes), p.to.address), p.to.address, p.data.bytes)
  }

  function CheckedCall(c: ParserConfig, codec: Codec, handler: Option<Plugin>, to: Address,
                       data: Bytes): Option<ParseError> {
    match handler
    case Some(plugin) => if !plugin.decodes(Head(data), Body(data)) then Some(PluginFailed) else Enforced(c, {to})
    case None =>
      match BuiltIn(c, codec, to, SelectorOf(data), Body(data))
      case Err(e) => Some(e)
      case Ok(touched) => Enforced(c, touched)
  }

  // ---------------------------------------------------------------- the parser

  /** The set a parse fills; every walker of the parse shares it. */
  class Collected {
    var addresses: set<Address>

    constructor (first: set<Address>)
      ensures addresses == first
    {
      addresses := first;
    }

    method Add(a: Address)
      modifies this
      ensures addresses == old(addresses) + {a}
    {
      addresses := addresses + {a};
    }

    method AddAll(path: seq<Address>)
      modifies this
      ensures addresses == old(addresses) + set p | p in path
    {
      for i := 0 to |path|
        invariant addresses == old(addresses) + set p | p in path[..i]
      {
        Add(path[i]);
      }
      assert path[..|path|] == path;
    }
  }

  /** On success the collected set has grown by exactly the addresses of `r`. */
  predicate Filled(before: set<Address>, after: set<Address>, error: Option<ParseError>, r: Result<set<Address>,
                   ParseError>) {
    match r
    case Err(e) => error == Some(e) && before <= after
    case Ok(touched) => error == None && after == before + touched
  }

  class DeFiPayloadParser {
    const config: ParserConfig
    const codec: Codec
    const plugins: seq<Plugin>

    constructor (config: ParserConfig, codec: Codec, plugins: seq<Plugin>)
      ensures this.config == config && this.codec == codec && this.plugins == plugins
    {
      this.config := config;
      this.codec := codec;
      this.plugins := plugins;
    }

    method Validate(p: Payload) returns (error: Option<ParseError>)
      ensures error == Checked(config, codec, plugins, p)
    {
      if p.data.NotText? {
        return Some(DataNotText);
      }
      if !p.to.Target? {
        return Some(if p.to.NotString? then TargetNotText else TargetInvalid);
      }
      var to := p.to.address;
      if p.data.Nothing? {
        error := EnforceAddresses({to});
        return;
      }
      if p.data.NotHex? {
        return Some(DataNotHex);
      }
      var blob := p.data.bytes;
      if |blob| < 4 {
        error := EnforceAddresses({to});
        return;
      }
      var s, body := SelectorOf(blob), Body(blob);
      for i := 0 to |plugins|
        invariant Handler(plugins, Head(blob), to) == Handler(plugins[i..], Head(blob), to)
      {
        assert plugins[i..][1..] == plugins[i + 1..];
        if plugins[i].canHandle(Head(blob), to) {
          if !plugins[i].decodes(Head(blob), body) {
            return Some(PluginFailed);
          }
          error := EnforceAddresses({to});
          return;
        }
      }
      error := ValidateBuiltIn(to, s, body);
    }

    /** The rest of `validate`, once no plugin has claimed the call. */
    method ValidateBuiltIn(to: Address, s: Selector, body: Bytes) returns (error: Option<ParseError>)
      ensures error == match BuiltIn(config, codec, to, s, body)
                       case Err(e) => Some(e)
                       case Ok(touched) => Enforced(config, touched)
    {
      var router, multicall := Router(config), Multicall3(config);
      if router.None? || multicall.None? {
        return Some(if router.None? then NoRouter else NoMulticall3);
      }
      if to == router.value && !(IsV2Swap(s) || IsV3Swap(s) || s == MoeSwap) {
        return Some(NonSwapAtRouter);
      }
      if to == router.value && IsV3Swap(s) && |body| < 4 {
        return Some(ShortV3Call);
      }
      if to == router.value && s == MoeSwap && |body| < 4 {
        return Some(ShortMoeCall);
      }
      if to == multicall.value && !IsAggregate(s) {
        return Some(NonBatchAtMulticall3);
      }
      var collected := new Collected({to});
      error := None;
      if IsAggregate(s) {
        if to != multicall.value {
          return Some(RoutePoison);
        }
        if s == Aggregate3 {
          error := WalkMulticall(body, collected, 0);
        } else {
          error := WalkMulticallValue(body, collected, 0);
        }
      } else if s == TokensForTokens || IsV3Swap(s) || s == MoeSwap {
        if to != router.value {
          return Some(RoutePoison);
        }
        if s == TokensForTokens {
          error := AccumulateSwap(body, collected);
        } else if IsV3Swap(s) {
          error := AccumulateV3Swap(body, collected);
        } else {
          error := AccumulateMoeSwap(body, collected);
        }
      }
      if error == None {
        error := EnforceAddresses(collected.addresses);
      }
    }

    /** Two passes over the touched addresses: the block list, then the allow list if there is one. */
    method EnforceAddresses(touched: set<Address>) returns (error: Option<ParseError>)
      ensures error == Enforced(config, touched)
    {
      var left := touched;
      while left != {}
        invariant left <= touched && (touched - left) * config.blacklist == {}
        decreases |left|
      {
        var a :| a in left;
        if a in config.blacklist {
          assert a in touched * config.blacklist;
          return Some(BlockListed);
        }
        left := left - {a};
      }
      assert touched - {} == touched;
      if config.whitelist != {} {
        left := touched;
        while left != {}
          invariant left <= touched && touched - left <= config.whitelist
          decreases |left|
        {
          var a :| a in left;
          if a !in config.whitelist {
            return Some(NotWhitelisted);
          }
          left := left - {a};
        }
      }
      return None;
    }

    method CollectV3PathAddresses(path: Bytes, collected: Collected) returns (error: Option<ParseError>)
      modifies collected
      ensures Filled(old(collected.addresses), collected.addresses, error,
                     if |path| < 20 then Err(PathTooShort)
                     else if |path| % 23 != 20 then Err(PathMalformed)
                     else Ok(PathAddresses(path)))
    {
      if |path| < 20 {
        return Some(PathTooShort);
      }
      if |path| % 23 != 20 {
        return Some(PathMalformed);
      }
      var offset := 0;
      collected.Add(path[offset..offset + 20]);
      offset := offset + 20;
      ghost var k := 0;
      OneMoreHop(path, k);
      while offset < |path|
        invariant offset == 23 * k + 20 <= |path|
        invariant collected.addresses == old(collected.addresses) + AddressesUpTo(path, k)
        decreases |path| - offset
      {
        offset := offset + 3;
        collected.Add(path[offset..offset + 20]);
        offset := offset + 20;
        OneMoreHop(path, k + 1);
        k := k + 1;
      }
      return None;
    }

    method AccumulateSwap(body: Bytes, collected: Collected) returns (error: Option<ParseError>)
      modifies collected
      ensures Filled(old(collected.addresses), collected.addresses, error, SwapTouches(codec, body))
      ensures error == None <==> codec.decodeSwap(body).Some? && codec.decodeSwap(body).value.minOut != 0
      ensures error == None ==> forall a ::
        a in collected.addresses <==> a in old(collected.addresses) || InSwap(codec.decodeSwap(body).value, a)
    {
      var args := codec.decodeSwap(body);
      if args == None {
        return Some(SwapUndecodable);
      }
      if args.value.minOut == 0 {
        return Some(NoMinimumOut);
      }
      collected.Add(args.value.recipient);
      collected.AddAll(args.value.path);
      return None;
    }

    method AccumulateMoeSwap(body: Bytes, collected: Collected) returns (error: Option<ParseError>)
      modifies collected
      ensures Filled(old(collected.addresses), collected.addresses, error, MoeTouches(codec, body))
      ensures error == None <==>
        && codec.decodeSwap(body).Some?
        && codec.decodeSwap(body).value.minOut != 0 && codec.decodeSwap(body).value.amount != 0
      ensures error == None ==> forall a ::
        a in collected.addresses <==> a in old(collected.addresses) || InSwap(codec.decodeSwap(body).value, a)
    {
      var args := codec.decodeSwap(body);
      if args == None {
        return Some(SwapUndecodable);
      }
      if args.value.minOut == 0 {
        return Some(NoMinimumOut);
      }
      if args.value.amount == 0 {
        return Some(NoAmountIn);
      }
      collected.Add(args.value.recipient);
      collected.AddAll(args.value.path);
      return None;
    }

    method AccumulateV3Swap(body: Bytes, collected: Collected) returns (error: Option<ParseError>)
      modifies collected
      ensures Filled(old(collected.addresses), collected.addresses, error, V3Touches(codec, body))
    {
      var args := codec.decodeV3(body);
      if args == None {
        return Some(SwapUndecodable);
      }
      if args.value.minOut == 0 {
        return Some(NoMinimumOut);
      }
      if args.value.amountIn == 0 {
        return Some(NoAmountIn);
      }
      collected.Add(args.value.recipient);
      error := CollectV3PathAddresses(args.value.path, collected);
    }

    method WalkMulticall(body: Bytes, collected: Collected, depth: nat) returns (error: Option<ParseError>)
      modifies collected
      ensures Filled(old(collected.addresses), collected.addresses, error, Walk(config, codec, Plain, body, depth))
      decreases Levels(depth), 1
    {
      if depth > MAX_DEPTH {
        return Some(TooDeep);
      }
      if Multicall3(config).None? {
        return Some(NoMulticall3);
      }
      if Router(config).None? {
        return Some(NoRouter);
      }
      var decoded := codec.decodeCalls(body);
      if decoded == None {
        return Some(BatchUndecodable(Plain));
      }
      var calls := decoded.value;
      ghost var legs := LegsOfCalls(calls);
      for i := 0 to |calls|
        invariant Filled(old(collected.addresses), collected.addresses, None,
                         WalkLegs(config, codec, Plain, legs[..i], depth))
      {
        assert legs[..i + 1][..i] == legs[..i];
        error := VisitCall(calls[i].target, calls[i].data, collected, depth);
        if error != None {
          EarlierErrorStands(config, codec, Plain, legs, depth, i + 1);
          return;
        }
      }
      assert legs[..|legs|] == legs;
      return None;
    }

    /** One turn of the aggregate3 loop. */
    method VisitCall(target: Address, data: Bytes, collected: Collected, depth: nat) returns (error: Option<ParseError>)
      requires depth <= MAX_DEPTH && Multicall3(config).Some? && Router(config).Some?
      modifies collected
      ensures Filled(old(collected.addresses), collected.addresses, error,
                     WalkLeg(config, codec, Plain, LegOf(target, data), depth))
      decreases Levels(depth), 0
    {
      collected.Add(target);
      if data == [] {
        return None;
      }
      var s, body := SelectorOf(data), Body(data);
      if s == Aggregate3 {
        if target != Multicall3(config).value {
          return Some(MulticallPoison);
        }
        error := WalkMulticall(body, collected, depth + 1);
      } else if s == Aggregate3Value {
        if target != Multicall3(config).value {
          return Some(MulticallPoison);
        }
        error := WalkMulticallValue(body, collected, depth + 1);
      } else if IsV2Swap(s) {
        if target != Router(config).value {
          return Some(RouterPoison);
        }
        error := AccumulateSwap(body, collected);
      } else if IsV3Swap(s) {
        error := AccumulateV3Swap(body, collected);
      } else if s == MoeSwap {
        error := AccumulateMoeSwap(body, collected);
      } else {
        return Some(UnsupportedInnerCall);
      }
    }

    method WalkMulticallValue(body: Bytes, collected: Collected, depth: nat) returns (error: Option<ParseError>)
      modifies collected
      ensures Filled(old(collected.addresses), collected.addresses, error, Walk(config, codec, WithValue, body, depth))
      decreases Levels(depth), 1
    {
      if depth > MAX_DEPTH {
        return Some(TooDeep);
      }
      if Multicall3(config).None? {
        return Some(NoMulticall3);
      }
      if Router(config).None? {
        return Some(NoRouter);
      }
      var decoded := codec.decodeValueCalls(body);
      if decoded == None {
        return Some(BatchUndecodable(WithValue));
      }
      var calls := decoded.value;
      ghost var legs := LegsOfValueCalls(calls);
      for i := 0 to |calls|
        invariant Filled(old(collected.addresses), collected.addresses, None,
                         WalkLegs(config, codec, WithValue, legs[..i], depth))
      {
        assert legs[..i + 1][..i] == legs[..i];
        error := VisitValueCall(calls[i].target, calls[i].data, collected, depth);
        if error != None {
          EarlierErrorStands(config, codec, WithValue, legs, depth, i + 1);
          return;
        }
      }
      assert legs[..|legs|] == legs;
      return None;
    }

    /** One turn of the aggregate3Value loop, which knows no V3 or Merchant Moe swaps. */
    method VisitValueCall(target: Address, data: Bytes, collected: Collected,
                          depth: nat) returns (error: Option<ParseError>)
      requires depth <= MAX_DEPTH && Multicall3(config).Some? && Router(config).Some?
      modifies collected
      ensures Filled(old(collected.addresses), collected.addresses, error,
                     WalkLeg(config, codec, WithValue, LegOf(target, data), depth))
      decreases Levels(depth), 0
    {
      collected.Add(target);
      if data == [] {
        return None;
      }
      var s, body := SelectorOf(data), Body(data);
      if s == Aggregate3 {
        if target != Multicall3(config).value {
          return Some(MulticallPoison);
        }
        error := WalkMulticall(body, collected, depth + 1);
      } else if s == Aggregate3Value {
        if target != Multicall3(config).value {
          return Some(MulticallPoison);
        }
        error := WalkMulticallValue(body, collected, depth + 1);
      } else if IsV2Swap(s) {
        if target != Router(config).value {
          return Some(RouterPoison);
        }
        error := AccumulateSwap(body, collected);
      } else {
        return Some(UnsupportedInnerCall);
      }
    }
  }
}
