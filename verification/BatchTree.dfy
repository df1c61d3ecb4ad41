/** Nested batches as trees of calls, and what the walkers guarantee about every call in the tree. */
module BatchTree {
  import opened Common
  import opened Calldata
  import opened V3Path
  import opened DefiParser

  /** A position in the tree: which call of the batch, which call of the batch inside it, and so on. */
  type Path = seq<nat>

  /** The batch a call carries, if it is an aggregate call. */
  function Nested(leg: Leg): Option<(BatchKind, Bytes)> {
    if leg.action.Nest? then Some((leg.action.kind, leg.action.batch)) else None
  }

  /** A call together with the kind of batch it sits in. */
  datatype Node = Node(kind: BatchKind, leg: Leg)

  /** The call found by following `path`, wherever it leads and however deep. */
  function At(codec: Codec, kind: BatchKind, body: Bytes, path: Path): Option<Node>
    decreases |path|, 0
  {
    if path == [] then None
    else
      match Batch(codec, kind, body)
      case None => None
      case Some(legs) =>
        if path[0] >= |legs| then None
        else if |path| == 1 then Some(Node(kind, legs[path[0]]))
        else Beneath(codec, legs[path[0]], path[1..])
  }

  function Beneath(codec: Codec, leg: Leg, path: Path): Option<Node>
    decreases |path|, 1
  {
    match Nested(leg)
    case None => None
    case Some((kind, body)) => At(codec, kind, body, path)
  }

  /** A swap that states what it wants back, on a decodable route. */
  predicate SwapHasMinimum(codec: Codec, body: Bytes) {
    var a := codec.decodeSwap(body);
    a.Some? && a.value.minOut != 0
  }

  predicate V3SwapHasMinimum(codec: Codec, body: Bytes) {
    var a := codec.decodeV3(body);
    a.Some? && a.value.minOut != 0 && a.value.amountIn != 0 && WellFormed(a.value.path)
  }

  predicate MoeSwapHasMinimum(codec: Codec, body: Bytes) {
    var a := codec.decodeSwap(body);
    a.Some? && a.value.minOut != 0 && a.value.amount != 0
  }

  /** What is asked of one call, given how many batches it is nested in. */
  predicate NodeOk(c: ParserConfig, codec: Codec, node: Node, level: nat) {
    match node.leg.action
    case Transfer => true
    case Nest(kind, batch) =>
      Some(node.leg.target) == Multicall3(c) && level < MAX_DEPTH && Batch(codec, kind, batch).Some?
    case V2Swap(args) => Some(node.leg.target) == Router(c) && SwapHasMinimum(codec, args)
    case V3Swap(args) => node.kind == Plain && V3SwapHasMinimum(codec, args)
    case MoeSwapCall(args) => node.kind == Plain && MoeSwapHasMinimum(codec, args)
    case Unknown => false
  }

  function SwapAddresses(a: Option<SwapArgs>): set<Address> { if a.None? then {} else AddressesOf(a.value) }

  function V3Addresses(a: Option<V3Args>): set<Address> {
    if a.None? then {}
    else {a.value.recipient} + if WellFormed(a.value.path) then PathAddresses(a.value.path) else {}
  }

  /** The addresses one call involves: its target and, for a swap, the recipient and the route. */
  function NodeTouches(codec: Codec, leg: Leg): set<Address> {
    {leg.target} +
    match leg.action
    case Transfer => {}
    case Nest(_, _) => {}
    case V2Swap(args) => SwapAddresses(codec.decodeSwap(args))
    case V3Swap(args) => V3Addresses(codec.decodeV3(args))
    case MoeSwapCall(args) => SwapAddresses(codec.decodeSwap(args))
    case Unknown => {}
  }

  /** Whatever call `path` leads to is in order. */
  predicate OkAlong(c: ParserConfig, codec: Codec, kind: BatchKind, body: Bytes, depth: nat, path: Path) {
    var node := At(codec, kind, body, path);
    node.Some? ==> NodeOk(c, codec, node.value, depth + |path| - 1)
  }

  predicate TouchesAlong(codec: Codec, kind: BatchKind, body: Bytes, path: Path, a: Address) {
    var node := At(codec, kind, body, path);
    node.Some? && a in NodeTouches(codec, node.value.leg)
  }

  ghost predicate AllNodesOk(c: ParserConfig, codec: Codec, kind: BatchKind, body: Bytes, depth: nat) {
    forall path: Path :: OkAlong(c, codec, kind, body, depth, path)
  }

  ghost predicate Touches(codec: Codec, kind: BatchKind, body: Bytes, a: Address) {
    exists path: Path :: TouchesAlong(codec, kind, body, path, a)
  }

  /** The same two notions for one call and everything nested in it. */
  ghost predicate LegOk(c: ParserConfig, codec: Codec, kind: BatchKind, leg: Leg, depth: nat) {
    && NodeOk(c, codec, Node(kind, leg), depth)
    && (Nested(leg).Some? ==> AllNodesOk(c, codec, Nested(leg).value.0, Nested(leg).value.1, depth + 1))
  }

  ghost predicate LegTouches(codec: Codec, leg: Leg, a: Address) {
    || a in NodeTouches(codec, leg)
    || (Nested(leg).Some? && Touches(codec, Nested(leg).value.0, Nested(leg).value.1, a))
  }

  // ---------------------------------------------------------------- trees, one level at a time

  lemma FirstStep(codec: Codec, kind: BatchKind, body: Bytes, legs: seq<Leg>, i: nat, rest: Path)
    requires Batch(codec, kind, body) == Some(legs) && i < |legs|
    ensures At(codec, kind, body, [i]) == Some(Node(kind, legs[i]))
    ensures rest != [] ==> At(codec, kind, body, [i] + rest) == Beneath(codec, legs[i], rest)
  {
    assert ([i] + rest)[1..] == rest;
  }

  lemma StepDown(codec: Codec, kind: BatchKind, body: Bytes, legs: seq<Leg>, path: Path)
    requires Batch(codec, kind, body) == Some(legs) && At(codec, kind, body, path).Some?
    ensures path != [] && path[0] < |legs|
    ensures |path| == 1 ==> At(codec, kind, body, path).value == Node(kind, legs[path[0]])
    ensures |path| > 1 ==> Nested(legs[path[0]]).Some?
    ensures |path| > 1 ==> var (k, b) := Nested(legs[path[0]]).value;
      At(codec, k, b, path[1..]) == At(codec, kind, body, path)
  {
  }

  lemma LegIsOk(c: ParserConfig, codec: Codec, kind: BatchKind, body: Bytes, legs: seq<Leg>, depth: nat, i: nat)
    requires Batch(codec, kind, body) == Some(legs) && i < |legs| && AllNodesOk(c, codec, kind, body, depth)
    ensures LegOk(c, codec, kind, legs[i], depth)
  {
    FirstStep(codec, kind, body, legs, i, []);
    assert OkAlong(c, codec, kind, body, depth, [i]);
    if Nested(legs[i]).Some? {
      var (k, b) := Nested(legs[i]).value;
      var next := depth + 1;
      forall rest: Path ensures OkAlong(c, codec, k, b, next, rest) {
        FirstStep(codec, kind, body, legs, i, rest);
        assert OkAlong(c, codec, kind, body, depth, [i] + rest);
      }
    }
  }

  lemma NodeIsOk(c: ParserConfig, codec: Codec, kind: BatchKind, body: Bytes, legs: seq<Leg>, depth: nat, path: Path)
    requires Batch(codec, kind, body) == Some(legs)
    requires path != [] && path[0] < |legs| ==> LegOk(c, codec, kind, legs[path[0]], depth)
    ensures OkAlong(c, codec, kind, body, depth, path)
  {
    if At(codec, kind, body, path).Some? {
      StepDown(codec, kind, body, legs, path);
      if |path| > 1 {
        var (k, b) := Nested(legs[path[0]]).value;
        assert OkAlong(c, codec, k, b, depth + 1, path[1..]);
      }
    }
  }

  lemma AllNodesOkByLeg(c: ParserConfig, codec: Codec, kind: BatchKind, body: Bytes, legs: seq<Leg>, depth: nat)
    requires Batch(codec, kind, body) == Some(legs)
    ensures AllNodesOk(c, codec, kind, body, depth)
      <==> forall i :: 0 <= i < |legs| ==> LegOk(c, codec, kind, legs[i], depth)
  {
    if AllNodesOk(c, codec, kind, body, depth) {
      forall i | 0 <= i < |legs| ensures LegOk(c, codec, kind, legs[i], depth) {
        LegIsOk(c, codec, kind, body, legs, depth, i);
      }
    }
    if forall i :: 0 <= i < |legs| ==> LegOk(c, codec, kind, legs[i], depth) {
      forall path: Path ensures OkAlong(c, codec, kind, body, depth, path) {
        NodeIsOk(c, codec, kind, body, legs, depth, path);
      }
    }
  }

  lemma TouchesByLeg(codec: Codec, kind: BatchKind, body: Bytes, legs: seq<Leg>, a: Address)
    requires Batch(codec, kind, body) == Some(legs)
    ensures Touches(codec, kind, body, a) <==> exists i :: 0 <= i < |legs| && LegTouches(codec, legs[i], a)
  {
    if Touches(codec, kind, body, a) {
      var path: Path :| TouchesAlong(codec, kind, body, path, a);
      StepDown(codec, kind, body, legs, path);
      if |path| > 1 {
        var (k, b) := Nested(legs[path[0]]).value;
        assert TouchesAlong(codec, k, b, path[1..], a);
      }
      assert LegTouches(codec, legs[path[0]], a);
    }
    if i :| 0 <= i < |legs| && LegTouches(codec, legs[i], a) {
      FirstStep(codec, kind, body, legs, i, []);
      if a in NodeTouches(codec, legs[i]) {
        assert TouchesAlong(codec, kind, body, [i], a);
      } else {
        var (k, b) := Nested(legs[i]).value;
        var rest: Path :| TouchesAlong(codec, k, b, rest, a);
        FirstStep(codec, kind, body, legs, i, rest);
        assert TouchesAlong(codec, kind, body, [i] + rest, a);
      }
    }
  }

  // ---------------------------------------------------------------- the walk is exact

  /** What the walk of a batch must amount to. */
  ghost predicate Exact(c: ParserConfig, codec: Codec, kind: BatchKind, body: Bytes, depth: nat) {
    var r := Walk(c, codec, kind, body, depth);
    && (r.Ok? <==> depth <= MAX_DEPTH && Batch(codec, kind, body).Some? && AllNodesOk(c, codec, kind, body, depth))
    && (r.Ok? ==> forall a :: a in r.value <==> Touches(codec, kind, body, a))
  }

  ghost predicate LegExact(c: ParserConfig, codec: Codec, kind: BatchKind, leg: Leg, depth: nat)
    requires depth <= MAX_DEPTH && Multicall3(c).Some? && Router(c).Some?
  {
    var r := WalkLeg(c, codec, kind, leg, depth);
    && (r.Ok? <==> LegOk(c, codec, kind, leg, depth))
    && (r.Ok? ==> forall a :: a in r.value <==> LegTouches(codec, leg, a))
  }

  ghost predicate ExactAt(c: ParserConfig, codec: Codec, depth: nat) {
    forall kind, body :: Exact(c, codec, kind, body, depth)
  }

  /** The walk of a batch whose targets are known succeeds exactly when every call in the tree is in
      order, at most six batches deep; and then it has collected exactly the addresses involved. */
  lemma {:induction false} WalkIsExact(c: ParserConfig, codec: Codec, depth: nat)
    requires Multicall3(c).Some? && Router(c).Some?
    ensures ExactAt(c, codec, depth)
    decreases Levels(depth)
  {
    if depth <= MAX_DEPTH {
      WalkIsExact(c, codec, depth + 1);
      forall kind, body ensures Exact(c, codec, kind, body, depth) {
        BatchIsExact(c, codec, kind, body, depth);
      }
    }
  }

  lemma BatchIsExact(c: ParserConfig, codec: Codec, kind: BatchKind, body: Bytes, depth: nat)
    requires depth <= MAX_DEPTH && Multicall3(c).Some? && Router(c).Some? && ExactAt(c, codec, depth + 1)
    ensures Exact(c, codec, kind, body, depth)
  {
    if Batch(codec, kind, body).Some? {
      var legs := Batch(codec, kind, body).value;
      forall i | 0 <= i < |legs| ensures LegExact(c, codec, kind, legs[i], depth) {
        if Nested(legs[i]).Some? {
          BranchIsExact(c, codec, kind, legs[i], depth);
        } else {
          LeafIsExact(c, codec, kind, legs[i], depth);
        }
      }
      WalkLegsByLeg(c, codec, kind, legs, depth);
      AllNodesOkByLeg(c, codec, kind, body, legs, depth);
      forall a ensures Touches(codec, kind, body, a) <==> exists i :: 0 <= i < |legs| && LegTouches(codec, legs[i], a) {
        TouchesByLeg(codec, kind, body, legs, a);
      }
    }
  }

  lemma {:induction false} WalkLegsByLeg(c: ParserConfig, codec: Codec, kind: BatchKind, legs: seq<Leg>, depth: nat)
    requires depth <= MAX_DEPTH && Multicall3(c).Some? && Router(c).Some?
    ensures var r := WalkLegs(c, codec, kind, legs, depth);
      && (r.Ok? <==> forall i :: 0 <= i < |legs| ==> WalkLeg(c, codec, kind, legs[i], depth).Ok?)
      && (r.Ok? ==> forall a :: a in r.value <==>
            exists i :: 0 <= i < |legs| && a in WalkLeg(c, codec, kind, legs[i], depth).value)
  {
    if legs != [] {
      var n := |legs| - 1;
      WalkLegsByLeg(c, codec, kind, legs[..n], depth);
      assert forall i :: 0 <= i < n ==> legs[..n][i] == legs[i];
    }
  }

  /** A call that carries a batch. */
  lemma BranchIsExact(c: ParserConfig, codec: Codec, kind: BatchKind, leg: Leg, depth: nat)
    requires depth <= MAX_DEPTH && Multicall3(c).Some? && Router(c).Some? && Nested(leg).Some?
    requires ExactAt(c, codec, depth + 1)
    ensures LegExact(c, codec, kind, leg, depth)
  {
    var k, b := Nested(leg).value.0, Nested(leg).value.1;
    assert Exact(c, codec, k, b, depth + 1);
    BranchWalk(c, codec, kind, leg, depth);
    BranchOk(c, codec, kind, leg, depth);
    var r, inner := WalkLeg(c, codec, kind, leg, depth), Walk(c, codec, k, b, depth + 1);
    assert r.Ok? <==> leg.target == Multicall3(c).value && inner.Ok?;
    assert r.Ok? <==> LegOk(c, codec, kind, leg, depth);
    if r.Ok? {
      assert r.value == {leg.target} + inner.value;
      forall a ensures a in r.value <==> LegTouches(codec, leg, a) {
        assert a in inner.value <==> Touches(codec, k, b, a);
      }
    }
  }

  lemma BranchWalk(c: ParserConfig, codec: Codec, kind: BatchKind, leg: Leg, depth: nat)
    requires depth <= MAX_DEPTH && Multicall3(c).Some? && Router(c).Some? && Nested(leg).Some?
    ensures var (k, b) := Nested(leg).value;
      WalkLeg(c, codec, kind, leg, depth) ==
        if leg.target != Multicall3(c).value then Err(MulticallPoison)
        else Join({leg.target}, Walk(c, codec, k, b, depth + 1))
  {
  }

  lemma BranchOk(c: ParserConfig, codec: Codec, kind: BatchKind, leg: Leg, depth: nat)
    requires Multicall3(c).Some? && Nested(leg).Some?
    ensures var (k, b) := Nested(leg).value;
      NodeOk(c, codec, Node(kind, leg), depth) <==>
        leg.target == Multicall3(c).value && depth + 1 <= MAX_DEPTH && Batch(codec, k, b).Some?
    ensures NodeTouches(codec, leg) == {leg.target}
  {
  }

  /** A call that carries no batch. */
  lemma LeafIsExact(c: ParserConfig, codec: Codec, kind: BatchKind, leg: Leg, depth: nat)
    requires depth <= MAX_DEPTH && Multicall3(c).Some? && Router(c).Some? && Nested(leg).None?
    ensures LegExact(c, codec, kind, leg, depth)
  {
    var r := WalkLeg(c, codec, kind, leg, depth);
    assert r.Ok? <==> NodeOk(c, codec, Node(kind, leg), depth);
    assert r.Ok? ==> r.value == NodeTouches(codec, leg);
  }

  // ---------------------------------------------------------------- nesting

  lemma {:induction false} PrefixIsBatch(codec: Codec, kind: BatchKind, body: Bytes, path: Path, k: nat)
    requires At(codec, kind, body, path).Some? && 0 < k < |path|
    ensures At(codec, kind, body, path[..k]).Some? && Nested(At(codec, kind, body, path[..k]).value.leg).Some?
    decreases k
  {
    var legs := Batch(codec, kind, body).value;
    StepDown(codec, kind, body, legs, path);
    FirstStep(codec, kind, body, legs, path[0], path[1..k]);
    assert path[..k] == [path[0]] + path[1..k];
    if k > 1 {
      var (innerKind, inner) := Nested(legs[path[0]]).value;
      PrefixIsBatch(codec, innerKind, inner, path[1..], k - 1);
      assert path[1..][..k - 1] == path[1..k];
    }
  }

  /** A batch in order holds no call nested in more than six batches. */
  lemma AtMostSixLevels(c: ParserConfig, codec: Codec, kind: BatchKind, body: Bytes, path: Path)
    requires At(codec, kind, body, path).Some?
    ensures AllNodesOk(c, codec, kind, body, 0) ==> |path| <= 6
  {
    if |path| > 6 {
      PrefixIsBatch(codec, kind, body, path, 6);
      assert !OkAlong(c, codec, kind, body, 0, path[..6]);
    }
  }
}
