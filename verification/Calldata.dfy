/** Bytes, addresses, selectors, and the part of the ABI codec the parser relies on. */
module Calldata {
  import opened Common

  type Byte = b: int | 0 <= b < 256

  type Bytes = seq<Byte>

  /** A checksummed address, identified with its twenty bytes. */
  type Address = a: Bytes | |a| == 20 witness seq(20, _ => 0)

  const MAX_DEPTH: nat := 5

  const MAINNET_MULTICALL3: Address :=
    [0xca, 0x11, 0xbd, 0xe0, 0x59, 0x77, 0xb3, 0x63, 0x11, 0x67, 0x02, 0x88, 0x62, 0xbe, 0x2a, 0x17, 0x39, 0x76, 0xca, 0x11]

  const MAINNET_ROUTER: Address :=
    [0x7a, 0x25, 0x0d, 0x56, 0x30, 0xb4, 0xcf, 0x53, 0x97, 0x39, 0xdf, 0x2c, 0x5d, 0xac, 0xb4, 0xc6, 0x59, 0xf2, 0x48, 0x8d]

  datatype Selector =
    | Aggregate3
    | Aggregate3Value
    | TokensForTokens
    | EthForTokens
    | TokensForEth
    | ExactInput
    | ExactOutput
    | MoeSwap
    | Other

  function SelectorBytes(s: Selector): Bytes {
    match s
    case Aggregate3 => [0x82, 0xad, 0x56, 0xcb]
    case Aggregate3Value => [0x17, 0x4d, 0xea, 0x71]
    case TokensForTokens => [0x38, 0xed, 0x17, 0x39]
    case EthForTokens => [0x7f, 0xf3, 0x6a, 0xb5]
    case TokensForEth => [0x18, 0xcb, 0xaf, 0xe5]
    case ExactInput => [0xd4, 0xd0, 0x29, 0xe8]
    case ExactOutput => [0xdd, 0xbf, 0x02, 0x9b]
    case MoeSwap => [0xd0, 0x04, 0xf0, 0xf8]
    case Other => []
  }

  function Head(data: Bytes): Bytes { if |data| < 4 then data else data[..4] }

  function Body(data: Bytes): Bytes { if |data| < 4 then [] else data[4..] }

  /** Which known entry point the first four bytes name. */
  function SelectorOf(data: Bytes): Selector {
    var head := Head(data);
    if head == SelectorBytes(Aggregate3) then Aggregate3
    else if head == SelectorBytes(Aggregate3Value) then Aggregate3Value
    else if head == SelectorBytes(TokensForTokens) then TokensForTokens
    else if head == SelectorBytes(EthForTokens) then EthForTokens
    else if head == SelectorBytes(TokensForEth) then TokensForEth
    else if head == SelectorBytes(ExactInput) then ExactInput
    else if head == SelectorBytes(ExactOutput) then ExactOutput
    else if head == SelectorBytes(MoeSwap) then MoeSwap
    else Other
  }

  /** The selectors are pairwise different, so a call encoded for one entry point is read as that one. */
  lemma SelectorRoundTrip(s: Selector, body: Bytes)
    requires s != Other
    ensures SelectorOf(SelectorBytes(s) + body) == s
    ensures Body(SelectorBytes(s) + body) == body
  {
    var data := SelectorBytes(s) + body;
    assert Head(data) == SelectorBytes(s);
    assert SelectorBytes(s)[0] == data[0] && SelectorBytes(s)[1] == data[1];
  }

  predicate IsV2Swap(s: Selector) { s == TokensForTokens || s == EthForTokens || s == TokensForEth }

  predicate IsV3Swap(s: Selector) { s == ExactInput || s == ExactOutput }

  predicate IsAggregate(s: Selector) { s == Aggregate3 || s == Aggregate3Value }

  // ---------------------------------------------------------------- decoded arguments

  datatype Call = Call(target: Address, allowFailure: bool, data: Bytes)

  datatype ValueCall = ValueCall(target: Address, allowFailure: bool, wei: nat, data: Bytes)

  /** Uniswap V2 swap arguments; Merchant Moe swaps are read with the same shape. */
  datatype SwapArgs = SwapArgs(amount: nat, minOut: nat, path: seq<Address>, recipient: Address)

  /** The recipient or one of the tokens of the route. */
  predicate InSwap(args: SwapArgs, a: Address) {
    a == args.recipient || exists i :: 0 <= i < |args.path| && a == args.path[i]
  }

  datatype V3Args = V3Args(path: Bytes, recipient: Address, amountIn: nat, minOut: nat)

  /** The ABI library: encoders that may refuse, decoders that may fail. */
  datatype Codec = Codec(
    encodeCalls: seq<Call> -> Option<Bytes>,
    decodeCalls: Bytes -> Option<seq<Call>>,
    encodeValueCalls: seq<ValueCall> -> Option<Bytes>,
    decodeValueCalls: Bytes -> Option<seq<ValueCall>>,
    decodeSwap: Bytes -> Option<SwapArgs>,
    decodeV3: Bytes -> Option<V3Args>)

  /** Decoding what was encoded gives it back. */
  ghost predicate RoundTrips(codec: Codec) {
    && (forall calls :: codec.encodeCalls(calls).Some? ==>
          codec.decodeCalls(codec.encodeCalls(calls).value) == Some(calls))
    && (forall calls :: codec.encodeValueCalls(calls).Some? ==>
          codec.decodeValueCalls(codec.encodeValueCalls(calls).value) == Some(calls))
  }
}
