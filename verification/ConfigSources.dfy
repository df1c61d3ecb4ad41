/** The sources of a configuration, value by value: what each of them offers a field, and which one wins. */
module ConfigSources {
  import opened Common
  import opened ConfigAuthority

  /** What counts as unset, and what an overlay will not write. */
  lemma UnsetValues(v: Value)
    ensures Blank(v) <==> v == Null || v == Text("") || v == List([]) || v == Dict(map[])
    ensures Counts(v) <==> v !in {Null, Text(""), List([]), Tuple([]), Dict(map[]), StringSet({})}
  {
  }

  lemma {:induction false} LookupFinds(entries: Entries, i: nat)
    requires Distinct(entries) && i < |entries|
    ensures Lookup(entries, entries[i].0) == entries[i].1
  {
    var n := |entries| - 1;
    if i < n {
      assert entries[..n][i] == entries[i];
      LookupFinds(entries[..n], i);
    }
  }

  /** What the chain profile offers a field: its Multicall3 address and its router, and nothing else. */
  function ProfileOffer(c: Config, key: Field): Value {
    match key
    case Multicall3 => Get(c.profile, Multicall3)
    case Router => Get(c.profile, Router)
    case _ => Null
  }

  /** What is inferred: on the main network the two addresses deployed there, elsewhere nothing. */
  function InferredOffer(c: Config, key: Field): Value {
    if c.chainId != 1 then Null
    else
      match key
      case Multicall3 => Text("0xcA11bde05977b3631167028862bE2a173976CA11")
      case Router => Text("0x7a250d5630B4cF539739dF2C5dAcb4c659F2488D")
      case _ => Null
  }

  lemma DefaultsOffered(c: Config, key: Field)
    ensures Distinct(ProfileDefaults(c.profile)) && Distinct(L3Defaults(c.chainId))
    ensures Lookup(ProfileDefaults(c.profile), key) == ProfileOffer(c, key)
    ensures Lookup(L3Defaults(c.chainId), key) == InferredOffer(c, key)
  {
    var profile, inferred := ProfileDefaults(c.profile), L3Defaults(c.chainId);
    LookupFinds(profile, 0);
    LookupFinds(profile, 1);
    if c.chainId == 1 {
      LookupFinds(inferred, 0);
      LookupFinds(inferred, 1);
    }
    if key != Multicall3 && key != Router {
      UnlistedIsNull(profile, key);
      UnlistedIsNull(inferred, key);
    }
  }

  /** The sources of every field of a resolved configuration, in their order: what is set in the configuration
      or given with the call, the chain profile, what is inferred, the patch. */
  lemma ResolvedByOffers(c: Config, rpcUrls: Option<seq<string>>, patch: Entries, key: Field)
    requires Distinct(patch)
    ensures
      var given := key == RpcUrls && rpcUrls.Some?;
      var o := Offers(if given then Urls(rpcUrls.value) else Get(c.dump, key),
                      if given then Null else ProfileOffer(c, key),
                      if given then Null else InferredOffer(c, key), Lookup(patch, key));
      var s := Supplier(o, key in c.allowlist);
      var final := Resolved(c, ProfileDefaults(c.profile), L3Defaults(c.chainId), rpcUrls, patch);
      && (s == Nobody ==> Blank(Get(final.merged, key)))
      && (s != Nobody ==> Get(final.merged, key) == Offered(o, s))
      && (s == Explicit ==> Tag(final.tags, key) == ExplicitTag(c, rpcUrls, key))
      && (s != Nobody && s != Explicit ==> Tag(final.tags, key) == Some(SourceName(s)))
  {
    DefaultsOffered(c, key);
    SupplierWins(c, ProfileDefaults(c.profile), L3Defaults(c.chainId), rpcUrls, patch, key);
  }

  /** Which source that is, offer by offer. */
  lemma SupplierByOffers(o: Offers, allowed: bool)
    ensures
      var s := Supplier(o, allowed);
      var isSet := !Blank(o.explicit);
      && (s == Nobody <==> !isSet && !Counts(o.profile) && !Counts(o.inferred) && Blank(o.runtime))
      && (s == Runtime <==> !isSet && !Counts(o.profile) && !Counts(o.inferred) && !Blank(o.runtime))
      && (s == Explicit <==> isSet && (allowed ==> o.runtime in {Null, o.explicit}))
      && (s == Profile <==> !isSet && Counts(o.profile) && (allowed ==> o.runtime in {Null, o.profile}))
      && (s == Inferred <==>
            !isSet && !Counts(o.profile) && Counts(o.inferred) && (allowed ==> o.runtime in {Null, o.inferred}))
      && (s == RuntimeOverride ==> allowed && o.runtime != Null)
  {
  }

  /** A patch that names the chain profile without giving one leaves it unset by the patch. */
  lemma NullProfileTagged(layered: State, patch: Entries, allow: set<Field>)
    requires Distinct(patch)
    ensures var final := NullProfileKept(Patched(layered, patch, allow), patch);
      Listed(patch, ChainProfile) && Get(layered.merged, ChainProfile) == Lookup(patch, ChainProfile) == Null ==>
        && ChainProfile in final.merged && final.merged[ChainProfile] == Null
        && Tag(final.tags, ChainProfile) == Some("runtime")
  {
    PatchAt(layered, patch, allow, ChainProfile);
  }
}
