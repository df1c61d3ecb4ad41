/** Configuration resolution: explicit values, then the chain profile, then inferred defaults, then a
    runtime patch, with a tag on every field saying where its value came from. */
module ConfigAuthority {
  import opened Common

  datatype Value =
    | Null
    | Text(s: string)
    | Number(n: int)
    | Flag(b: bool)
    | List(items: seq<Value>)
    | Tuple(members: seq<Value>)
    | Dict(entries: map<string, Value>)
    | StringSet(elements: set<string>)

  /** The fields resolution treats by name, and all the others. */
  datatype Field = Multicall3 | Router | RpcUrls | ChainId | ChainProfile | Other(name: string)

  type Fields = map<Field, Value>

  type Tags = map<Field, string>

  /** A dictionary as it is iterated: distinct keys in insertion order. */
  type Entries = seq<(Field, Value)>

  ghost predicate Distinct(entries: Entries) {
    forall i, j :: 0 <= i < j < |entries| ==> entries[i].0 != entries[j].0
  }

  predicate Listed(entries: Entries, key: Field) {
    exists i :: 0 <= i < |entries| && entries[i].0 == key
  }

  /** `dict.get`. */
  function Lookup(entries: Entries, key: Field): Value {
    if entries == [] then Null
    else if entries[|entries| - 1].0 == key then entries[|entries| - 1].1
    else Lookup(entries[..|entries| - 1], key)
  }

  lemma {:induction false} UnlistedIsNull(entries: Entries, key: Field)
    requires !Listed(entries, key)
    ensures Lookup(entries, key) == Null
  {
    if entries != [] {
      var n := |entries| - 1;
      assert forall i :: 0 <= i < n ==> entries[..n][i] == entries[i];
      UnlistedIsNull(entries[..n], key);
    }
  }

  function Get(m: Fields, key: Field): Value { if key in m then m[key] else Null }

  /** The values a stored field may be overwritten from: unset, or an empty string, list or dictionary. */
  predicate Blank(v: Value) { v == Null || v == Text("") || v == List([]) || v == Dict(map[]) }

  /** What an overlay will write: anything set, except empty collections. */
  predicate Writable(v: Value) {
    && v != Null
    && !(v.List? && v.items == []) && !(v.Tuple? && v.members == [])
    && !(v.Dict? && v.entries == map[]) && !(v.StringSet? && v.elements == {})
  }

  /** The two dictionaries a resolution builds. */
  datatype State = State(merged: Fields, tags: Tags)

  function Tag(t: Tags, key: Field): Option<string> { if key in t then Some(t[key]) else None }

  function Put(s: State, key: Field, value: Value, tag: string): State {
    State(s.merged[key := value], s.tags[key := tag])
  }

  // ---------------------------------------------------------------- overlays and patches, key by key

  function Overlay(s: State, key: Field, value: Value, source: string): State {
    if Blank(Get(s.merged, key)) && Writable(value) then Put(s, key, value, source) else s
  }

  function Overlaid(s: State, entries: Entries, source: string): State {
    if entries == [] then s
    else
      var n := |entries| - 1;
      Overlay(Overlaid(s, entries[..n], source), entries[n].0, entries[n].1, source)
  }

  function Patch(s: State, key: Field, value: Value, allow: set<Field>): State {
    var current := Get(s.merged, key);
    if value == Null then s
    else if Blank(current) then Put(s, key, value, "runtime")
    else if key in allow && current != value then Put(s, key, value, "runtime_override")
    else s
  }

  /** A runtime patch none of whose entries raises. */
  function Patched(s: State, entries: Entries, allow: set<Field>): State {
    if entries == [] then s
    else
      var n := |entries| - 1;
      Patch(Patched(s, entries[..n], allow), entries[n].0, entries[n].1, allow)
  }

  /** A patch value that would change a field it has no permission to change. */
  predicate Trespasses(base: Fields, allow: set<Field>, key: Field, value: Value) {
    value != Null && !Blank(Get(base, key)) && key !in allow && Get(base, key) != value
  }

  function OverlayValue(current: Value, value: Value): Value {
    if Blank(current) && Writable(value) then value else current
  }

  function OverlayTag(tag: Option<string>, current: Value, value: Value, source: string): Option<string> {
    if Blank(current) && Writable(value) then Some(source) else tag
  }

  function PatchValue(current: Value, value: Value, allowed: bool): Value {
    if value != Null && (Blank(current) || allowed) then value else current
  }

  function PatchTag(tag: Option<string>, current: Value, value: Value, allowed: bool): Option<string> {
    if value == Null then tag
    else if Blank(current) then Some("runtime")
    else if allowed && current != value then Some("runtime_override")
    else tag
  }

  lemma OverlayOne(s: State, changed: Field, value: Value, source: string, key: Field)
    ensures var after := Overlay(s, changed, value, source);
      var current, offered := Get(s.merged, key), if key == changed then value else Null;
      && Get(after.merged, key) == OverlayValue(current, offered)
      && Tag(after.tags, key) == OverlayTag(Tag(s.tags, key), current, offered, source)
  {
  }

  /** An overlay treats every field on its own. */
  lemma {:induction false} OverlayAt(s: State, entries: Entries, source: string, key: Field)
    requires Distinct(entries)
    ensures var after := Overlaid(s, entries, source);
      var current, value := Get(s.merged, key), Lookup(entries, key);
      && Get(after.merged, key) == OverlayValue(current, value)
      && Tag(after.tags, key) == OverlayTag(Tag(s.tags, key), current, value, source)
  {
    if entries != [] {
      var n := |entries| - 1;
      var before := Overlaid(s, entries[..n], source);
      OverlayAt(s, entries[..n], source, key);
      OverlayOne(before, entries[n].0, entries[n].1, source, key);
      if entries[n].0 == key {
        UnlistedIsNull(entries[..n], key);
      }
    }
  }

  lemma PatchOne(s: State, changed: Field, value: Value, allow: set<Field>, key: Field)
    ensures var after := Patch(s, changed, value, allow);
      var current, offered := Get(s.merged, key), if key == changed then value else Null;
      && Get(after.merged, key) == PatchValue(current, offered, key in allow)
      && Tag(after.tags, key) == PatchTag(Tag(s.tags, key), current, offered, key in allow)
  {
    PutAt(s, changed, value, "runtime", key);
    PutAt(s, changed, value, "runtime_override", key);
    if key == changed && value != Null && Blank(Get(s.merged, key)) {
      assert Patch(s, changed, value, allow) == Put(s, changed, value, "runtime");
    }
  }

  lemma PutAt(s: State, changed: Field, value: Value, tag: string, key: Field)
    ensures var after := Put(s, changed, value, tag);
      && Get(after.merged, key) == (if key == changed then value else Get(s.merged, key))
      && Tag(after.tags, key) == if key == changed then Some(tag) else Tag(s.tags, key)
  {
  }

  /** So does a patch. */
  lemma {:induction false} PatchAt(s: State, entries: Entries, allow: set<Field>, key: Field)
    requires Distinct(entries)
    ensures var after := Patched(s, entries, allow);
      var current, value := Get(s.merged, key), Lookup(entries, key);
      && Get(after.merged, key) == PatchValue(current, value, key in allow)
      && Tag(after.tags, key) == PatchTag(Tag(s.tags, key), current, value, key in allow)
  {
    if entries != [] {
      var n := |entries| - 1;
      var before := Patched(s, entries[..n], allow);
      PatchAt(s, entries[..n], allow, key);
      PatchOne(before, entries[n].0, entries[n].1, allow, key);
      if entries[n].0 == key {
        UnlistedIsNull(entries[..n], key);
        assert Lookup(entries, key) == entries[n].1;
      } else {
        assert Lookup(entries, key) == Lookup(entries[..n], key);
      }
    }
  }

  // ---------------------------------------------------------------- the loops

  /** The dictionaries, changed in place. */
  class Resolution {
    var merged: Fields
    var tags: Tags

    function View(): State
      reads this
    {
      State(merged, tags)
    }

    constructor (merged: Fields, tags: Tags)
      ensures View() == State(merged, tags)
    {
      this.merged, this.tags := merged, tags;
    }

    method OverlayNonEmpty(incoming: Entries, source: string)
      modifies this
      ensures View() == Overlaid(old(View()), incoming, source)
    {
      var added: Tags := map[];
      for i := 0 to |incoming|
        invariant State(merged, tags + added) == Overlaid(old(View()), incoming[..i], source)
        invariant tags == old(tags)
      {
        assert incoming[..i + 1][..i] == incoming[..i];
        var (key, value) := incoming[i];
        if Blank(Get(merged, key)) && Writable(value) {
          assert tags + added[key := source] == (tags + added)[key := source];
          merged, added := merged[key := value], added[key := source];
        }
      }
      assert incoming[..|incoming|] == incoming;
      tags := tags + added;
    }

    /** Endpoint list and chain id, which have rules of their own. */
    method Locate(rpcUrls: Option<seq<string>>)
      modifies this
      ensures View() == Located(old(View()), rpcUrls)
    {
      if rpcUrls.Some? {
        merged, tags := merged[RpcUrls := Urls(rpcUrls.value)], tags[RpcUrls := "explicit"];
      } else if RpcUrls !in tags {
        tags := tags[RpcUrls := "explicit"];
      }
      if ChainId !in tags {
        tags := tags[ChainId := "explicit"];
      }
    }

    /** The runtime patch, and the chain profile it may leave unset on purpose. */
    method Finish(c: Config, patch: Entries) returns (r: Result<State, Field>)
      requires Distinct(patch)
      modifies this
      ensures r.Err? <==> c.strict && !NoTrespass(old(merged), c.allowlist, patch)
      ensures r.Err? ==> FirstTrespass(old(merged), c.allowlist, patch, r.error)
      ensures r.Ok? ==> r.value == NullProfileKept(Patched(old(View()), patch, c.allowlist), patch)
    {
      var error := ApplyRuntimePatch(patch, c.allowlist, c.strict);
      if error.Some? {
        return Err(error.value);
      }
      if Listed(patch, ChainProfile) && Get(merged, ChainProfile) == Null {
        merged, tags := merged[ChainProfile := Lookup(patch, ChainProfile)], tags[ChainProfile := "runtime"];
      }
      return Ok(View());
    }

    /** `_apply_runtime_patch`: the first trespass raises in strict mode and is skipped otherwise. */
    method ApplyRuntimePatch(patch: Entries, allow: set<Field>, strict: bool) returns (error: Option<Field>)
      requires Distinct(patch)
      modifies this
      ensures error.Some? ==> strict && FirstTrespass(old(merged), allow, patch, error.value)
      ensures error.Some? ==> !NoTrespass(old(merged), allow, patch)
      ensures error.None? ==>
        && (strict ==> NoTrespass(old(merged), allow, patch))
        && View() == Patched(old(View()), patch, allow)
    {
      for i := 0 to |patch|
        invariant View() == Patched(old(View()), patch[..i], allow)
        invariant strict ==> NoTrespass(old(merged), allow, patch[..i])
      {
        assert patch[..i + 1][..i] == patch[..i];
        var (key, value) := patch[i];
        var current := Get(merged, key);
        assert current == Get(old(merged), key) by {
          UntouchedSoFar(old(View()), patch, allow, i);
        }
        if value != Null {
          if Blank(current) {
            merged, tags := merged[key := value], tags[key := "runtime"];
          } else if key in allow && current != value {
            merged, tags := merged[key := value], tags[key := "runtime_override"];
          } else if strict && current != value {
            assert Trespasses(old(merged), allow, patch[i].0, patch[i].1);
            return Some(key);
          }
        }
      }
      assert patch[..|patch|] == patch;
      return None;
    }
  }

  ghost predicate NoTrespass(base: Fields, allow: set<Field>, patch: Entries) {
    forall i :: 0 <= i < |patch| ==> !Trespasses(base, allow, patch[i].0, patch[i].1)
  }

  /** The first entry of the patch that trespasses is for this field. */
  ghost predicate FirstTrespass(base: Fields, allow: set<Field>, patch: Entries, key: Field) {
    exists i :: 0 <= i < |patch| && patch[i].0 == key && Trespasses(base, allow, patch[i].0, patch[i].1)
      && NoTrespass(base, allow, patch[..i])
  }

  lemma UntouchedSoFar(s: State, patch: Entries, allow: set<Field>, i: nat)
    requires Distinct(patch) && i < |patch|
    ensures Get(Patched(s, patch[..i], allow).merged, patch[i].0) == Get(s.merged, patch[i].0)
  {
    PatchAt(s, patch[..i], allow, patch[i].0);
    UnlistedIsNull(patch[..i], patch[i].0);
  }

  // ---------------------------------------------------------------- resolution

  function L3Defaults(chainId: int): Entries {
    if chainId == 1 then
      [(Multicall3, Text("0xcA11bde05977b3631167028862bE2a173976CA11")),
       (Router, Text("0x7a250d5630B4cF539739dF2C5dAcb4c659F2488D"))]
    else []
  }

  function ProfileDefaults(profile: Fields): Entries {
    [(Multicall3, Get(profile, Multicall3)), (Router, Get(profile, Router))]
  }

  /** A configuration: its fields as dumped, and the settings resolution itself consults. */
  datatype Config = Config(dump: Fields, tags: Tags, chainId: int, profile: Fields, allowlist: set<Field>, strict: bool)

  function Urls(urls: seq<string>): Value { List(seq(|urls|, i requires 0 <= i < |urls| => Text(urls[i]))) }

  /** Endpoint list and chain id, which have rules of their own. */
  function Located(s: State, rpcUrls: Option<seq<string>>): State {
    var urls := if rpcUrls.Some? then Put(s, RpcUrls, Urls(rpcUrls.value), "explicit")
                else if RpcUrls !in s.tags then s.(tags := s.tags[RpcUrls := "explicit"]) else s;
    if ChainId !in urls.tags then urls.(tags := urls.tags[ChainId := "explicit"]) else urls
  }

  /** Everything before the runtime patch, for given profile and inferred defaults. */
  function Layered(c: Config, profile: Entries, inferred: Entries, rpcUrls: Option<seq<string>>): State {
    Located(Overlaid(Overlaid(State(c.dump, c.tags), profile, "profile"), inferred, "inferred"), rpcUrls)
  }

  /** A patched chain profile that is None is kept as None, and counts as set by the patch. */
  function NullProfileKept(s: State, patch: Entries): State {
    if Listed(patch, ChainProfile) && Get(s.merged, ChainProfile) == Null
    then Put(s, ChainProfile, Lookup(patch, ChainProfile), "runtime") else s
  }

  function Resolved(c: Config, profile: Entries, inferred: Entries, rpcUrls: Option<seq<string>>,
                    patch: Entries): State {
    NullProfileKept(Patched(Layered(c, profile, inferred, rpcUrls), patch, c.allowlist), patch)
  }

  /** `resolve_config` for a given configuration, up to model validation. Strict mode raises exactly
      when the patch would change a set field it has no permission for. */
  method ResolveConfig(c: Config, rpcUrls: Option<seq<string>>, patch: Entries) returns (r: Result<State, Field>)
    requires Distinct(patch)
    ensures
      var layered := Layered(c, ProfileDefaults(c.profile), L3Defaults(c.chainId), rpcUrls).merged;
      && (r.Err? <==> c.strict && !NoTrespass(layered, c.allowlist, patch))
      && (r.Err? ==> FirstTrespass(layered, c.allowlist, patch, r.error))
    ensures r.Ok? ==> r.value == Resolved(c, ProfileDefaults(c.profile), L3Defaults(c.chainId), rpcUrls, patch)
  {
    var state := new Resolution(c.dump, c.tags);
    state.OverlayNonEmpty(ProfileDefaults(c.profile), "profile");
    state.OverlayNonEmpty(L3Defaults(c.chainId), "inferred");
    state.Locate(rpcUrls);
    r := state.Finish(c, patch);
  }

  // ---------------------------------------------------------------- precedence

  datatype Source = Explicit | Profile | Inferred | Runtime | RuntimeOverride | Nobody

  function SourceName(s: Source): string {
    match s
    case Explicit => "explicit"
    case Profile => "profile"
    case Inferred => "inferred"
    case Runtime => "runtime"
    case RuntimeOverride => "runtime_override"
    case Nobody => ""
  }

  /** What each source has to say about one field. */
  datatype Offers = Offers(explicit: Value, profile: Value, inferred: Value, runtime: Value)

  /** Endpoints given with the call stand in for the configuration's own and shut out both defaults. */
  function OfferedFor(c: Config, profile: Entries, inferred: Entries, rpcUrls: Option<seq<string>>, patch: Entries,
                      key: Field)
    : Offers
  {
    if key == RpcUrls && rpcUrls.Some? then Offers(Urls(rpcUrls.value), Null, Null, Lookup(patch, key))
    else Offers(Get(c.dump, key), Lookup(profile, key), Lookup(inferred, key), Lookup(patch, key))
  }

  /** The tag of a field the configuration itself supplies. */
  function ExplicitTag(c: Config, rpcUrls: Option<seq<string>>, key: Field): Option<string> {
    if key == RpcUrls && rpcUrls.Some? then Some("explicit")
    else if key in {RpcUrls, ChainId} && key !in c.tags then Some("explicit")
    else Tag(c.tags, key)
  }

  function Offered(o: Offers, s: Source): Value {
    match s
    case Explicit => o.explicit
    case Profile => o.profile
    case Inferred => o.inferred
    case Runtime => o.runtime
    case RuntimeOverride => o.runtime
    case Nobody => Null
  }

  /** A default counts when an overlay writes it and the next source must leave it alone. */
  predicate Counts(v: Value) { Writable(v) && !Blank(v) }

  /** The first source with something to say. */
  function FirstSupplier(o: Offers): Source {
    if !Blank(o.explicit) then Explicit
    else if Counts(o.profile) then Profile
    else if Counts(o.inferred) then Inferred
    else if !Blank(o.runtime) then Runtime
    else Nobody
  }

  /** The first source, unless the field is on the allow list and the patch disagrees with it. */
  function Supplier(o: Offers, allowed: bool): Source {
    var first := FirstSupplier(o);
    if allowed && o.runtime != Null && first != Runtime && first != Nobody && o.runtime != Offered(o, first)
    then RuntimeOverride else first
  }

  /** One field, from its four offers to its final value and tag. */
  lemma FieldPrecedence(o: Offers, allowed: bool, tag: Option<string>)
    ensures
      var v1, t1 := OverlayValue(o.explicit, o.profile), OverlayTag(tag, o.explicit, o.profile, "profile");
      var v2, t2 := OverlayValue(v1, o.inferred), OverlayTag(t1, v1, o.inferred, "inferred");
      var v, t := PatchValue(v2, o.runtime, allowed), PatchTag(t2, v2, o.runtime, allowed);
      var s := Supplier(o, allowed);
      && (s == Nobody ==> Blank(v))
      && (s != Nobody ==> v == Offered(o, s) && v != Null)
      && (s == Explicit ==> t == tag)
      && (s != Nobody && s != Explicit ==> t == Some(SourceName(s)))
  {
  }

  lemma LocatedAt(s: State, rpcUrls: Option<seq<string>>, key: Field)
    ensures
      var given, after := key == RpcUrls && rpcUrls.Some?, Located(s, rpcUrls);
      && Get(after.merged, key) == (if given then Urls(rpcUrls.value) else Get(s.merged, key))
      && Tag(after.tags, key) ==
         if given || (key in {RpcUrls, ChainId} && key !in s.tags) then Some("explicit") else Tag(s.tags, key)
  {
  }

  /** One field, before the runtime patch. */
  lemma FieldLayered(c: Config, profile: Entries, inferred: Entries, rpcUrls: Option<seq<string>>, patch: Entries,
                     key: Field)
    requires Distinct(profile) && Distinct(inferred)
    ensures
      var o, tag := OfferedFor(c, profile, inferred, rpcUrls, patch, key), ExplicitTag(c, rpcUrls, key);
      var v, t := OverlayValue(o.explicit, o.profile), OverlayTag(tag, o.explicit, o.profile, "profile");
      var layered := Layered(c, profile, inferred, rpcUrls);
      && Get(layered.merged, key) == OverlayValue(v, o.inferred)
      && Tag(layered.tags, key) == OverlayTag(t, v, o.inferred, "inferred")
  {
    var start := State(c.dump, c.tags);
    OverlayAt(start, profile, "profile", key);
    OverlayAt(Overlaid(start, profile, "profile"), inferred, "inferred", key);
    LocatedAt(Overlaid(Overlaid(start, profile, "profile"), inferred, "inferred"), rpcUrls, key);
  }

  /** One field, from the layers to the result. */
  lemma FieldPatched(layered: State, patch: Entries, allow: set<Field>, key: Field)
    requires Distinct(patch)
    ensures
      var v, t := Get(layered.merged, key), Tag(layered.tags, key);
      var runtime, allowed := Lookup(patch, key), key in allow;
      var final := NullProfileKept(Patched(layered, patch, allow), patch);
      && Get(final.merged, key) == PatchValue(v, runtime, allowed)
      && (PatchValue(v, runtime, allowed) != Null || key != ChainProfile ==>
            Tag(final.tags, key) == PatchTag(t, v, runtime, allowed))
  {
    PatchAt(layered, patch, allow, key);
  }

  /** Every field takes the value of its first supplier, or the patched value if the allow list lets a
      differing patch through, and stays empty when nobody supplies it. Its tag names the supplier; when
      that is the configuration itself, it is what it was, or "explicit" where the endpoint list or the
      chain id had none or the endpoints were given with the call. */
  lemma SupplierWins(c: Config, profile: Entries, inferred: Entries, rpcUrls: Option<seq<string>>, patch: Entries,
                     key: Field)
    requires Distinct(profile) && Distinct(inferred) && Distinct(patch)
    ensures
      var o := OfferedFor(c, profile, inferred, rpcUrls, patch, key);
      var s, final := Supplier(o, key in c.allowlist), Resolved(c, profile, inferred, rpcUrls, patch);
      && (s == Nobody ==> Blank(Get(final.merged, key)))
      && (s != Nobody ==> Get(final.merged, key) == Offered(o, s))
      && (s == Explicit ==> Tag(final.tags, key) == ExplicitTag(c, rpcUrls, key))
      && (s != Nobody && s != Explicit ==> Tag(final.tags, key) == Some(SourceName(s)))
  {
    FieldLayered(c, profile, inferred, rpcUrls, patch, key);
    FieldPatched(Layered(c, profile, inferred, rpcUrls), patch, c.allowlist, key);
    FieldPrecedence(OfferedFor(c, profile, inferred, rpcUrls, patch, key), key in c.allowlist, ExplicitTag(c, rpcUrls, key));
  }

  /** So endpoints given with the call, if there are any, win over everything but an allow-listed patch,
      and an empty list of them wins over the configuration and the defaults, but not over a patch. */
  lemma UrlsWin(c: Config, profile: Entries, inferred: Entries, urls: seq<string>, patch: Entries)
    requires Distinct(patch)
    ensures
      var runtime, allowed := Lookup(patch, RpcUrls), RpcUrls in c.allowlist;
      var final := Resolved(c, profile, inferred, Some(urls), patch);
      Get(final.merged, RpcUrls) == if runtime != Null && (urls == [] || allowed) then runtime else Urls(urls)
  {
    PatchAt(Layered(c, profile, inferred, Some(urls)), patch, c.allowlist, RpcUrls);
    if urls != [] {
      assert |Urls(urls).items| > 0;
    }
  }
}
