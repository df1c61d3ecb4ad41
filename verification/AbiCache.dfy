/** The two-level ABI cache: an in-memory LRU order over a persistent table, with expiry. */
module AbiCache {
  import opened Common

  type Key = string
  type Abi = Json

  datatype Entry = Entry(abi: Abi, expiresAt: int)
  datatype Row = Row(abi: Abi, touchedAt: int, expiresAt: int)

  /** The calls that matter to a reader of the cache, in the order in which they took the lock. */
  datatype Op = OpGet(key: Key, now: int) | OpSet(key: Key, abi: Abi, expiresAt: int) | OpInvalidate(key: Key)

  datatype Reply = Closed | Miss | Hit(abi: Abi)

  // ---------------------------------------------------------------- the plain expiring map

  /** What the last write of `key` left, with no invalidation since. Nothing is ever purged here. */
  function LastWrite(base: map<Key, Entry>, log: seq<Op>, key: Key): Option<Entry> {
    if log == [] then (if key in base then Some(base[key]) else None)
    else
      match log[|log| - 1]
      case OpSet(k, abi, expiresAt) =>
        if k == key then Some(Entry(abi, expiresAt)) else LastWrite(base, log[..|log| - 1], key)
      case OpInvalidate(k) => if k == key then None else LastWrite(base, log[..|log| - 1], key)
      case OpGet(_, _) => LastWrite(base, log[..|log| - 1], key)
  }

  /** What one expiring map would answer at time `now`. */
  function Answer(base: map<Key, Entry>, log: seq<Op>, key: Key, now: int): Reply {
    match LastWrite(base, log, key)
    case None => Miss
    case Some(entry) => if entry.expiresAt <= now then Miss else Hit(entry.abi)
  }

  /** Whether a call on top of `log` counts as a use of its key: a write, or a read that hits. */
  predicate IsUse(base: map<Key, Entry>, log: seq<Op>, op: Op) {
    match op
    case OpSet(_, _, _) => true
    case OpGet(k, now) => Answer(base, log, k, now).Hit?
    case OpInvalidate(_) => false
  }

  /** Position of the last use of `key`; -1 if there is none. */
  function LastUse(base: map<Key, Entry>, log: seq<Op>, key: Key): (r: int)
    ensures -1 <= r < |log|
    ensures r >= 0 ==> log[r].key == key
  {
    if log == [] then -1
    else
      var n := |log| - 1;
      if log[n].key == key && IsUse(base, log[..n], log[n]) then n else LastUse(base, log[..n], key)
  }

  lemma LogAppend(base: map<Key, Entry>, log: seq<Op>, op: Op, key: Key)
    ensures LastWrite(base, log + [op], key) ==
      if op.key != key || op.OpGet? then LastWrite(base, log, key)
      else if op.OpSet? then Some(Entry(op.abi, op.expiresAt)) else None
    ensures LastUse(base, log + [op], key) ==
      if op.key == key && IsUse(base, log, op) then |log| else LastUse(base, log, key)
  {
    assert (log + [op])[..|log|] == log;
  }

  // ---------------------------------------------------------------- key orders

  predicate Distinct(s: seq<Key>) {
    forall i, j :: 0 <= i < j < |s| ==> s[i] != s[j]
  }

  function Without(s: seq<Key>, gone: set<Key>): seq<Key> {
    if s == [] then []
    else if s[0] in gone then Without(s[1..], gone)
    else [s[0]] + Without(s[1..], gone)
  }

  lemma {:induction false} WithoutMembers(s: seq<Key>, gone: set<Key>)
    ensures forall k :: k in Without(s, gone) <==> k in s && k !in gone
    ensures |Without(s, gone)| <= |s|
    ensures (exists k :: k in gone && k in s) ==> |Without(s, gone)| < |s|
  {
    if s != [] {
      WithoutMembers(s[1..], gone);
      assert s == [s[0]] + s[1..];
    }
  }

  lemma {:induction false} WithoutKeepsDistinct(s: seq<Key>, gone: set<Key>)
    requires Distinct(s)
    ensures Distinct(Without(s, gone))
  {
    if s != [] {
      WithoutKeepsDistinct(s[1..], gone);
      WithoutMembers(s[1..], gone);
      var rest := Without(s[1..], gone);
      assert s[0] !in s[1..];
      if s[0] !in gone {
        assert forall j :: 0 <= j < |rest| ==> rest[j] in s[1..];
      }
    }
  }

  lemma {:induction false} WithoutSplits(a: seq<Key>, b: seq<Key>, gone: set<Key>)
    ensures Without(a + b, gone) == Without(a, gone) + Without(b, gone)
  {
    if a == [] {
      assert a + b == b;
    } else {
      assert (a + b)[0] == a[0] && (a + b)[1..] == a[1..] + b;
      WithoutSplits(a[1..], b, gone);
    }
  }

  lemma {:induction false} WithoutAbsent(s: seq<Key>, gone: set<Key>)
    requires forall k :: k in s ==> k !in gone
    ensures Without(s, gone) == s
  {
    if s != [] {
      assert s == [s[0]] + s[1..];
      WithoutAbsent(s[1..], gone);
    }
  }

  lemma {:induction false} WithoutAgrees(s: seq<Key>, a: set<Key>, b: set<Key>)
    requires forall k :: k in s ==> (k in a <==> k in b)
    ensures Without(s, a) == Without(s, b)
  {
    if s != [] {
      assert forall k :: k in s[1..] ==> k in s;
      WithoutAgrees(s[1..], a, b);
    }
  }

  /** Moving a key to the most recent end of an order. */
  function Promote(s: seq<Key>, key: Key): seq<Key> {
    Without(s, {key}) + [key]
  }

  lemma PromoteMembers(s: seq<Key>, key: Key)
    ensures forall k :: k in Promote(s, key) <==> k in s || k == key
    ensures |Promote(s, key)| == if key in s then |Without(s, {key})| + 1 else |s| + 1
    ensures key in s ==> |Promote(s, key)| <= |s|
  {
    WithoutMembers(s, {key});
    if key !in s {
      WithoutAbsent(s, {key});
    }
  }

  lemma PromoteKeepsDistinct(s: seq<Key>, key: Key)
    requires Distinct(s)
    ensures Distinct(Promote(s, key))
  {
    WithoutKeepsDistinct(s, {key});
    WithoutMembers(s, {key});
  }

  /** The newest `limit` keys of an order. */
  function Newest(s: seq<Key>, limit: nat): seq<Key> {
    if |s| <= limit then s else s[|s| - limit..]
  }

  lemma NewestMembers(s: seq<Key>, limit: nat)
    ensures forall k :: k in Newest(s, limit) ==> k in s
    ensures |Newest(s, limit)| <= limit
  {
  }

  /** Keys stand in the order of their last use. */
  ghost predicate ByLastUse(base: map<Key, Entry>, log: seq<Op>, s: seq<Key>) {
    forall i, j :: 0 <= i < j < |s| ==> UsedNoLater(base, log, s[i], s[j])
  }

  ghost predicate UsedNoLater(base: map<Key, Entry>, log: seq<Op>, a: Key, b: Key) {
    LastUse(base, log, a) <= LastUse(base, log, b)
  }

  ghost predicate EverUsed(base: map<Key, Entry>, log: seq<Op>, key: Key) {
    LastUse(base, log, key) >= 0
  }

  lemma {:induction false} WithoutKeepsByLastUse(base: map<Key, Entry>, log: seq<Op>, s: seq<Key>, gone: set<Key>)
    requires ByLastUse(base, log, s)
    ensures ByLastUse(base, log, Without(s, gone))
  {
    if s != [] {
      WithoutKeepsByLastUse(base, log, s[1..], gone);
      WithoutMembers(s[1..], gone);
      var rest := Without(s[1..], gone);
      forall j | 0 <= j < |rest| ensures UsedNoLater(base, log, s[0], rest[j]) {
        assert rest[j] in s[1..];
      }
    }
  }

  /** Logging a call that is no use of any stored key changes no last use. */
  lemma IdleAppendKeepsByLastUse(base: map<Key, Entry>, log: seq<Op>, op: Op, s: seq<Key>)
    requires ByLastUse(base, log, s) && !IsUse(base, log, op)
    ensures ByLastUse(base, log + [op], s)
    ensures forall k :: LastUse(base, log + [op], k) == LastUse(base, log, k)
  {
    forall k ensures LastUse(base, log + [op], k) == LastUse(base, log, k) {
      LogAppend(base, log, op, k);
    }
    SameUsesSameOrder(base, log, log + [op], s);
  }

  lemma SameUsesSameOrder(base: map<Key, Entry>, log: seq<Op>, log': seq<Op>, s: seq<Key>)
    requires ByLastUse(base, log, s) && forall k :: LastUse(base, log', k) == LastUse(base, log, k)
    ensures ByLastUse(base, log', s)
  {
    forall i, j | 0 <= i < j < |s| ensures UsedNoLater(base, log', s[i], s[j]) {
      assert UsedNoLater(base, log, s[i], s[j]);
    }
  }

  lemma UseKeepsByLastUse(base: map<Key, Entry>, log: seq<Op>, op: Op, s: seq<Key>)
    requires ByLastUse(base, log, s) && IsUse(base, log, op)
    ensures ByLastUse(base, log + [op], Promote(s, op.key))
    ensures LastUse(base, log + [op], op.key) == |log|
    ensures forall k :: k != op.key ==> LastUse(base, log + [op], k) == LastUse(base, log, k)
  {
    WithoutKeepsByLastUse(base, log, s, {op.key});
    WithoutMembers(s, {op.key});
    var r := Promote(s, op.key);
    forall k ensures LastUse(base, log + [op], k) == if k == op.key then |log| else LastUse(base, log, k) {
      LogAppend(base, log, op, k);
    }
    var rest := Without(s, {op.key});
    forall i, j | 0 <= i < j < |r| ensures UsedNoLater(base, log + [op], r[i], r[j]) {
      assert r[i] == rest[i] && rest[i] != op.key;
      if j < |rest| {
        assert UsedNoLater(base, log, rest[i], rest[j]);
        assert r[j] == rest[j] && rest[j] != op.key;
      }
    }
  }

  ghost predicate IsSuffix(s: seq<Key>, of: seq<Key>) {
    |s| <= |of| && s == of[|of| - |s|..]
  }

  lemma SuffixWithout(s: seq<Key>, of: seq<Key>, gone: set<Key>)
    requires IsSuffix(s, of)
    ensures IsSuffix(Without(s, gone), Without(of, gone))
  {
    var k := |of| - |s|;
    assert of == of[..k] + s;
    WithoutSplits(of[..k], s, gone);
  }

  lemma SuffixPromote(s: seq<Key>, of: seq<Key>, key: Key, limit: nat)
    requires IsSuffix(s, of)
    ensures IsSuffix(Newest(Promote(s, key), limit), Promote(of, key))
  {
    SuffixWithout(s, of, {key});
    var a, b := Without(s, {key}), Without(of, {key});
    assert b == b[..|b| - |a|] + a;
    assert Promote(of, key) == b[..|b| - |a|] + Promote(s, key);
  }

  // ---------------------------------------------------------------- the invariant, on values

  /** What a reader has seen of the cache: its calls so far, the latest time any of them read,
      and every stored key in order of use. `base` is what the database held when it was opened. */
  datatype Past = Past(base: map<Key, Entry>, log: seq<Op>, clock: int, recency: seq<Key>)

  /** The two levels: the OrderedDict (order and contents) and the persistent table. */
  datatype Levels = Levels(order: seq<Key>, memory: map<Key, Entry>, table: map<Key, Row>)

  function EntryOf(row: Row): Entry { Entry(row.abi, row.expiresAt) }

  /** The table agrees with the expiring map on everything that has not expired. */
  ghost predicate TableFaithful(p: Past, l: Levels) {
    forall k :: RowFaithful(p, l.table, k)
  }

  ghost predicate RowFaithful(p: Past, table: map<Key, Row>, k: Key) {
    var last := LastWrite(p.base, p.log, k);
    if k in table then last == Some(EntryOf(table[k])) else last.Some? ==> last.value.expiresAt <= p.clock
  }

  /** Every entry in memory repeats its table row, expiry included. */
  ghost predicate MemoryBacked(l: Levels) {
    && (forall k :: k in l.order <==> k in l.memory)
    && (forall k :: k in l.memory ==> k in l.table && l.memory[k] == EntryOf(l.table[k]))
  }

  /** Memory holds the most recently used of the stored keys, in that order. */
  ghost predicate MemoryIsRecent(p: Past, l: Levels, limit: nat) {
    && |l.order| <= limit
    && IsSuffix(l.order, p.recency)
    && Distinct(p.recency)
    && (forall k :: k in p.recency <==> k in l.table)
    && ByLastUse(p.base, p.log, p.recency)
    && (forall k :: k in l.order ==> EverUsed(p.base, p.log, k))
  }

  ghost predicate Consistent(p: Past, l: Levels, limit: nat) {
    TableFaithful(p, l) && MemoryBacked(l) && MemoryIsRecent(p, l, limit)
  }

  /** The table answers exactly as the expiring map does. */
  lemma TableAnswers(p: Past, l: Levels, key: Key, now: int)
    requires TableFaithful(p, l) && p.clock <= now
    ensures Answer(p.base, p.log, key, now)
      == if key in l.table && l.table[key].expiresAt > now then Hit(l.table[key].abi) else Miss
  {
    assert RowFaithful(p, l.table, key);
  }

  /** The entries of `m` whose keys are in `s`. */
  function Restrict(m: map<Key, Entry>, s: seq<Key>): map<Key, Entry> {
    map k | k in m && k in s :: m[k]
  }

  lemma RestrictToTail(m: map<Key, Entry>, s: seq<Key>, k: nat)
    requires Distinct(s) && k < |s|
    ensures s[k..][1..] == s[k + 1..]
    ensures Restrict(m, s[k..]) - {s[k]} == Restrict(m, s[k + 1..])
  {
    assert s[k..] == [s[k]] + s[k + 1..];
    assert forall i :: k + 1 <= i < |s| ==> s[i] != s[k];
  }

  /** When `key` may be touched again, and what a touch at `at` leaves of the two touch records:
      it is swallowed if the last one is less than `interval` old. */
  function TouchedLast(last: map<Key, int>, interval: int, key: Key, at: int): map<Key, int> {
    if key in last && at - last[key] < interval then last else last[key := at]
  }

  function TouchedTable(table: map<Key, Row>, last: map<Key, int>, interval: int, key: Key, at: int): map<Key, Row> {
    if key !in table || (key in last && at - last[key] < interval) then table
    else table[key := table[key].(touchedAt := at)]
  }

  /** What a hit leaves of the levels: from memory the row may be touched, from the table the entry
      is loaded and its row stays as it is. */
  function AfterHit(l: Levels, last: map<Key, int>, interval: int, limit: nat, key: Key, touchNow: int): Levels
    requires key in l.table
  {
    var order := Newest(Promote(l.order, key), limit);
    Levels(order, Restrict(l.memory[key := EntryOf(l.table[key])], order),
           if key in l.memory then TouchedTable(l.table, last, interval, key, touchNow) else l.table)
  }

  lemma HitFromMemory(l: Levels, last: map<Key, int>, interval: int, limit: nat, key: Key, touchNow: int)
    requires MemoryBacked(l) && key in l.memory && |l.order| <= limit
    ensures AfterHit(l, last, interval, limit, key, touchNow)
      == Levels(Promote(l.order, key), l.memory, TouchedTable(l.table, last, interval, key, touchNow))
  {
    PromoteMembers(l.order, key);
  }

  lemma HitFromTable(l: Levels, last: map<Key, int>, interval: int, limit: nat, key: Key, touchNow: int)
    requires MemoryBacked(l) && key !in l.memory && key in l.table
    ensures var order := Newest(l.order + [key], limit);
      AfterHit(l, last, interval, limit, key, touchNow)
      == Levels(order, Restrict(l.memory[key := EntryOf(l.table[key])], order), l.table)
    ensures Without(l.order, {key}) == l.order
  {
    WithoutAbsent(l.order, {key});
  }

  function AfterHitLast(l: Levels, last: map<Key, int>, interval: int, key: Key, touchNow: int): map<Key, int>
    requires key in l.table
  {
    TouchedLast(last, interval, key, if key in l.memory then touchNow else l.table[key].touchedAt)
  }

  function AfterMiss(l: Levels, key: Key): Levels {
    Levels(Without(l.order, {key}), l.memory - {key}, l.table - {key})
  }

  lemma HitIsUse(l: Levels, last: map<Key, int>, interval: int, limit: nat, key: Key, touchNow: int)
    requires MemoryBacked(l) && key in l.table
    ensures UsedLevels(l, AfterHit(l, last, interval, limit, key, touchNow), limit, key)
    ensures EntryOf(AfterHit(l, last, interval, limit, key, touchNow).table[key]) == EntryOf(l.table[key])
  {
    PromoteMembers(l.order, key);
    NewestMembers(Promote(l.order, key), limit);
  }

  /** How a use of `key` changes the levels: it moves to the recent end, its row may be rewritten,
      memory is trimmed to the newest `limit` keys. */
  ghost predicate UsedLevels(l: Levels, l': Levels, limit: nat, key: Key) {
    && l'.order == Newest(Promote(l.order, key), limit)
    && key in l'.table
    && (forall k :: k != key ==> (k in l'.table <==> k in l.table) && (k in l.table ==> l'.table[k] == l.table[k]))
    && (forall k :: k in l'.memory <==> k in l'.order)
    && (forall k :: k in l'.memory ==>
          if k == key then l'.memory[k] == EntryOf(l'.table[k]) else k in l.memory && l'.memory[k] == l.memory[k])
  }

  lemma UseKeepsFaithful(p: Past, l: Levels, limit: nat, op: Op, clock: int, l': Levels)
    requires TableFaithful(p, l) && p.clock <= clock && UsedLevels(l, l', limit, op.key)
    requires LastWrite(p.base, p.log + [op], op.key) == Some(EntryOf(l'.table[op.key]))
    ensures TableFaithful(Past(p.base, p.log + [op], clock, Promote(p.recency, op.key)), l')
  {
    var p' := Past(p.base, p.log + [op], clock, Promote(p.recency, op.key));
    forall k ensures RowFaithful(p', l'.table, k) {
      assert RowFaithful(p, l.table, k);
      LogAppend(p.base, p.log, op, k);
    }
  }

  lemma UseKeepsRecent(p: Past, l: Levels, limit: nat, op: Op, clock: int, l': Levels)
    requires MemoryIsRecent(p, l, limit) && IsUse(p.base, p.log, op)
    requires l'.order == Newest(Promote(l.order, op.key), limit)
    requires forall k :: k in l'.table <==> k in l.table || k == op.key
    ensures MemoryIsRecent(Past(p.base, p.log + [op], clock, Promote(p.recency, op.key)), l', limit)
  {
    UseKeepsByLastUse(p.base, p.log, op, p.recency);
    SuffixPromote(l.order, p.recency, op.key, limit);
    PromoteKeepsDistinct(p.recency, op.key);
    PromoteMembers(p.recency, op.key);
    PromoteMembers(l.order, op.key);
    NewestMembers(Promote(l.order, op.key), limit);
    UsedSince(p.base, p.log, op, l.order, l'.order);
  }

  lemma UsedSince(base: map<Key, Entry>, log: seq<Op>, op: Op, order: seq<Key>, order': seq<Key>)
    requires forall k :: k in order ==> EverUsed(base, log, k)
    requires forall k :: k in order' ==> k in order || k == op.key
    requires IsUse(base, log, op)
    ensures forall k :: k in order' ==> EverUsed(base, log + [op], k)
  {
    forall k | k in order' ensures EverUsed(base, log + [op], k) {
      assert k != op.key ==> EverUsed(base, log, k);
      LogAppend(base, log, op, k);
    }
  }

  /** Dropping keys that the log says are gone, or that have expired by `clock`. */
  lemma ForgetKeeps(p: Past, l: Levels, limit: nat, log: seq<Op>, clock: int, gone: set<Key>)
    requires Consistent(p, l, limit) && p.clock <= clock
    requires forall k :: LastUse(p.base, log, k) == LastUse(p.base, p.log, k)
    requires forall k :: k !in gone ==> LastWrite(p.base, log, k) == LastWrite(p.base, p.log, k)
    requires forall k :: k in gone && LastWrite(p.base, log, k).Some? ==>
      LastWrite(p.base, log, k).value.expiresAt <= clock
    ensures var p', l' := Past(p.base, log, clock, Without(p.recency, gone)),
                          Levels(Without(l.order, gone), l.memory - gone, l.table - gone);
      TableFaithful(p', l') && MemoryBacked(l') && MemoryIsRecent(p', l', limit)
  {
    var p' := Past(p.base, log, clock, Without(p.recency, gone));
    var l' := Levels(Without(l.order, gone), l.memory - gone, l.table - gone);
    forall k ensures RowFaithful(p', l'.table, k) {
      assert RowFaithful(p, l.table, k);
    }
    WithoutMembers(l.order, gone);
    ForgetKeepsRecent(p, l, limit, log, gone, p', l');
  }

  lemma ForgetKeepsRecent(p: Past, l: Levels, limit: nat, log: seq<Op>, gone: set<Key>, p': Past, l': Levels)
    requires MemoryIsRecent(p, l, limit)
    requires forall k :: LastUse(p.base, log, k) == LastUse(p.base, p.log, k)
    requires p'.base == p.base && p'.log == log && p'.recency == Without(p.recency, gone)
    requires l'.order == Without(l.order, gone) && l'.table == l.table - gone
    ensures MemoryIsRecent(p', l', limit)
  {
    WithoutKeepsDistinct(p.recency, gone);
    WithoutMembers(p.recency, gone);
    WithoutMembers(l.order, gone);
    SuffixWithout(l.order, p.recency, gone);
    SameUsesSameOrder(p.base, p.log, log, p.recency);
    WithoutKeepsByLastUse(p.base, log, p.recency, gone);
    forall k | k in l'.order ensures EverUsed(p.base, log, k) {
      assert EverUsed(p.base, p.log, k);
    }
  }

  lemma DistinctSuffix(s: seq<Key>, of: seq<Key>)
    requires IsSuffix(s, of) && Distinct(of)
    ensures Distinct(s)
  {
    var k := |of| - |s|;
    forall i, j | 0 <= i < j < |s| ensures s[i] != s[j] {
      assert of[k + i] != of[k + j];
    }
  }

  ghost function AfterRead(p: Past, key: Key, now: int): Past {
    Past(p.base, p.log + [OpGet(key, now)], now,
         if Answer(p.base, p.log, key, now).Hit? then Promote(p.recency, key) else Without(p.recency, {key}))
  }

  /** A read, whether it hits or misses, keeps the invariant and gives the expiring map's answer. */
  lemma ReadKeeps(p: Past, l: Levels, last: map<Key, int>, interval: int, limit: nat, key: Key, now: int, touchNow: int)
    requires Consistent(p, l, limit) && p.clock <= now
    ensures Distinct(l.order)
    ensures Answer(p.base, p.log, key, now)
      == if key in l.table && l.table[key].expiresAt > now then Hit(l.table[key].abi) else Miss
    ensures Answer(p.base, p.log, key, now) == Miss ==> Consistent(AfterRead(p, key, now), AfterMiss(l, key), limit)
    ensures Answer(p.base, p.log, key, now).Hit? ==>
      Consistent(AfterRead(p, key, now), AfterHit(l, last, interval, limit, key, touchNow), limit)
  {
    var op := OpGet(key, now);
    DistinctSuffix(l.order, p.recency);
    TableAnswers(p, l, key, now);
    LogAppend(p.base, p.log, op, key);
    if Answer(p.base, p.log, key, now).Hit? {
      HitIsUse(l, last, interval, limit, key, touchNow);
      var used := AfterHit(l, last, interval, limit, key, touchNow);
      UseKeepsFaithful(p, l, limit, op, now, used);
      UseKeepsRecent(p, l, limit, op, now, used);
    } else {
      IdleAppendKeepsByLastUse(p.base, p.log, op, p.recency);
      forall k ensures LastWrite(p.base, p.log + [op], k) == LastWrite(p.base, p.log, k) {
        LogAppend(p.base, p.log, op, k);
      }
      assert RowFaithful(p, l.table, key);
      ForgetKeeps(p, l, limit, p.log + [op], now, {key});
    }
  }

  function AfterSet(l: Levels, limit: nat, key: Key, row: Row): Levels {
    var order := Newest(Promote(l.order, key), limit);
    Levels(order, Restrict(l.memory[key := EntryOf(row)], order), l.table[key := row])
  }

  ghost function AfterWrite(p: Past, key: Key, abi: Abi, expiresAt: int): Past {
    Past(p.base, p.log + [OpSet(key, abi, expiresAt)], p.clock, Promote(p.recency, key))
  }

  lemma WriteKeeps(p: Past, l: Levels, limit: nat, key: Key, row: Row)
    requires Consistent(p, l, limit)
    ensures Distinct(l.order) && MemoryBacked(l)
    ensures Consistent(AfterWrite(p, key, row.abi, row.expiresAt), AfterSet(l, limit, key, row), limit)
  {
    var op := OpSet(key, row.abi, row.expiresAt);
    DistinctSuffix(l.order, p.recency);
    LogAppend(p.base, p.log, op, key);
    PromoteMembers(l.order, key);
    NewestMembers(Promote(l.order, key), limit);
    var used := AfterSet(l, limit, key, row);
    UseKeepsFaithful(p, l, limit, op, p.clock, used);
    UseKeepsRecent(p, l, limit, op, p.clock, used);
  }

  lemma InvalidateKeeps(p: Past, l: Levels, limit: nat, key: Key)
    requires Consistent(p, l, limit)
    ensures Consistent(p.(log := p.log + [OpInvalidate(key)], recency := Without(p.recency, {key})),
                       AfterMiss(l, key), limit)
  {
    var op := OpInvalidate(key);
    IdleAppendKeepsByLastUse(p.base, p.log, op, p.recency);
    forall k ensures LastWrite(p.base, p.log + [op], k) == if k == key then None else LastWrite(p.base, p.log, k) {
      LogAppend(p.base, p.log, op, k);
    }
    ForgetKeeps(p, l, limit, p.log + [op], p.clock, {key});
  }

  function Stale(table: map<Key, Row>, now: int): set<Key> {
    set k | k in table && table[k].expiresAt <= now
  }

  function AfterSweep(l: Levels, stale: set<Key>): Levels {
    Levels(Without(l.order, stale), l.memory - stale, l.table - stale)
  }

  ghost function SweptPast(p: Past, table: map<Key, Row>, now: int): Past {
    Past(p.base, p.log, now, Without(p.recency, Stale(table, now)))
  }

  lemma SweepKeeps(p: Past, l: Levels, limit: nat, now: int)
    requires Consistent(p, l, limit) && p.clock <= now
    ensures Consistent(SweptPast(p, l.table, now), AfterSweep(l, Stale(l.table, now)), limit)
  {
    var stale := Stale(l.table, now);
    forall k | k in stale ensures LastWrite(p.base, p.log, k) == Some(EntryOf(l.table[k])) {
      assert RowFaithful(p, l.table, k);
    }
    ForgetKeeps(p, l, limit, p.log, now, stale);
  }

  /** The keys the sweep collects from memory, in order. */
  function StaleKeys(order: seq<Key>, memory: map<Key, Entry>, now: int): (r: seq<Key>)
    requires forall k :: k in order ==> k in memory
    ensures forall k :: k in r <==> k in order && memory[k].expiresAt <= now
  {
    if order == [] then []
    else (if memory[order[0]].expiresAt <= now then [order[0]] else []) + StaleKeys(order[1..], memory, now)
  }

  /** Memory and table expire together, so dropping the stale resident keys drops all stale keys. */
  lemma StaleOnBothLevels(l: Levels, dropped: set<Key>, now: int)
    requires MemoryBacked(l) && forall k :: k in dropped <==> k in l.order && l.memory[k].expiresAt <= now
    ensures Without(l.order, dropped) == Without(l.order, Stale(l.table, now))
    ensures l.memory - dropped == l.memory - Stale(l.table, now)
  {
    WithoutAgrees(l.order, dropped, Stale(l.table, now));
  }

  lemma {:induction false} WithoutTwice(s: seq<Key>, a: set<Key>, b: set<Key>)
    ensures Without(Without(s, a), b) == Without(s, a + b)
  {
    if s != [] {
      WithoutTwice(s[1..], a, b);
      if s[0] !in a {
        var rest := Without(s[1..], a);
        assert ([s[0]] + rest)[1..] == rest;
      }
    }
  }

  // ---------------------------------------------------------------- whole runs, on values

  datatype Call =
    | GetAt(key: Key, now: int, touchNow: int)
    | SetTo(key: Key, abi: Abi, now: int)
    | Drop(key: Key)
    | SweepAt(now: int)

  datatype CacheState = CacheState(past: Past, levels: Levels, lastTouch: map<Key, int>)

  /** How the two levels answer. */
  function ReplyOf(l: Levels, key: Key, now: int): Reply {
    if key in l.table && l.table[key].expiresAt > now then Hit(l.table[key].abi) else Miss
  }

  /** What a call on an open cache leaves behind; the methods below are proved to do this. */
  ghost function AfterCall(s: CacheState, ttl: int, interval: int, limit: nat, call: Call): CacheState {
    var l, last := s.levels, s.lastTouch;
    match call
    case GetAt(key, now, touchNow) =>
      if ReplyOf(l, key, now).Hit? then
        CacheState(AfterRead(s.past, key, now), AfterHit(l, last, interval, limit, key, touchNow),
                   AfterHitLast(l, last, interval, key, touchNow))
      else CacheState(AfterRead(s.past, key, now), AfterMiss(l, key), if key in l.table then last - {key} else last)
    case SetTo(key, abi, now) =>
      CacheState(AfterWrite(s.past, key, abi, now + ttl), AfterSet(l, limit, key, Row(abi, now, now + ttl)),
                 TouchedLast(last, interval, key, now))
    case Drop(key) =>
      CacheState(s.past.(log := s.past.log + [OpInvalidate(key)], recency := Without(s.past.recency, {key})),
                 AfterMiss(l, key), last - {key})
    case SweepAt(now) => CacheState(SweptPast(s.past, l.table, now), AfterSweep(l, Stale(l.table, now)), last)
  }

  ghost function AfterCalls(s: CacheState, ttl: int, interval: int, limit: nat, calls: seq<Call>): CacheState
    decreases calls
  {
    if calls == [] then s else AfterCalls(AfterCall(s, ttl, interval, limit, calls[0]), ttl, interval, limit, calls[1..])
  }

  /** A call that reads the clock under the lock does not read an earlier time than the last one did. */
  predicate NotBefore(call: Call, clock: int) { call.GetAt? || call.SweepAt? ==> clock <= call.now }

  function ClockAfter(call: Call, clock: int): int { if call.GetAt? || call.SweepAt? then call.now else clock }

  predicate InOrder(calls: seq<Call>, clock: int) {
    calls == [] || (NotBefore(calls[0], clock) && InOrder(calls[1..], ClockAfter(calls[0], clock)))
  }

  function LastClock(calls: seq<Call>, clock: int): int {
    if calls == [] then clock else LastClock(calls[1..], ClockAfter(calls[0], clock))
  }

  /** A call as the expiring map sees it: sweeps are invisible to it. */
  function OpsOf(call: Call, ttl: int): seq<Op> {
    match call
    case GetAt(key, now, _) => [OpGet(key, now)]
    case SetTo(key, abi, now) => [OpSet(key, abi, now + ttl)]
    case Drop(key) => [OpInvalidate(key)]
    case SweepAt(_) => []
  }

  function Logged(calls: seq<Call>, ttl: int): seq<Op> {
    if calls == [] then [] else OpsOf(calls[0], ttl) + Logged(calls[1..], ttl)
  }

  ghost predicate Sound(s: CacheState, limit: nat) { Consistent(s.past, s.levels, limit) }

  lemma GetKeeps(s: CacheState, ttl: int, interval: int, limit: nat, call: Call)
    requires Sound(s, limit) && call.GetAt? && NotBefore(call, s.past.clock)
    ensures Sound(AfterCall(s, ttl, interval, limit, call), limit)
  {
    ReadKeeps(s.past, s.levels, s.lastTouch, interval, limit, call.key, call.now, call.touchNow);
    if ReplyOf(s.levels, call.key, call.now).Hit? {
      assert AfterCall(s, ttl, interval, limit, call).levels ==
             AfterHit(s.levels, s.lastTouch, interval, limit, call.key, call.touchNow);
    } else {
      assert AfterCall(s, ttl, interval, limit, call).levels == AfterMiss(s.levels, call.key);
    }
  }

  lemma SetKeeps(s: CacheState, ttl: int, interval: int, limit: nat, call: Call)
    requires Sound(s, limit) && call.SetTo?
    ensures Sound(AfterCall(s, ttl, interval, limit, call), limit)
  {
    WriteKeeps(s.past, s.levels, limit, call.key, Row(call.abi, call.now, call.now + ttl));
  }

  lemma DropKeeps(s: CacheState, ttl: int, interval: int, limit: nat, call: Call)
    requires Sound(s, limit) && call.Drop?
    ensures Sound(AfterCall(s, ttl, interval, limit, call), limit)
  {
    InvalidateKeeps(s.past, s.levels, limit, call.key);
  }

  lemma SweepCallKeeps(s: CacheState, ttl: int, interval: int, limit: nat, call: Call)
    requires Sound(s, limit) && call.SweepAt? && NotBefore(call, s.past.clock)
    ensures Sound(AfterCall(s, ttl, interval, limit, call), limit)
  {
    SweepKeeps(s.past, s.levels, limit, call.now);
  }

  lemma CallKeeps(s: CacheState, ttl: int, interval: int, limit: nat, call: Call) returns (t: CacheState)
    requires Sound(s, limit) && NotBefore(call, s.past.clock)
    ensures t == AfterCall(s, ttl, interval, limit, call) && Sound(t, limit)
  {
    t := AfterCall(s, ttl, interval, limit, call);
    if call.GetAt? {
      GetKeeps(s, ttl, interval, limit, call);
    } else if call.SetTo? {
      SetKeeps(s, ttl, interval, limit, call);
    } else if call.Drop? {
      DropKeeps(s, ttl, interval, limit, call);
    } else {
      SweepCallKeeps(s, ttl, interval, limit, call);
    }
  }

  lemma CallIsLogged(s: CacheState, ttl: int, interval: int, limit: nat, call: Call)
    ensures var p := AfterCall(s, ttl, interval, limit, call).past;
      && p.base == s.past.base && p.log == s.past.log + OpsOf(call, ttl) && p.clock == ClockAfter(call, s.past.clock)
  {
  }

  lemma {:induction false} RunKeeps(s: CacheState, ttl: int, interval: int, limit: nat, calls: seq<Call>)
    requires Sound(s, limit) && InOrder(calls, s.past.clock)
    ensures Sound(AfterCalls(s, ttl, interval, limit, calls), limit)
    decreases calls
  {
    if calls != [] {
      var next := CallKeeps(s, ttl, interval, limit, calls[0]);
      CallIsLogged(s, ttl, interval, limit, calls[0]);
      RunKeeps(next, ttl, interval, limit, calls[1..]);
    }
  }

  lemma {:induction false} RunIsLogged(s: CacheState, ttl: int, interval: int, limit: nat, calls: seq<Call>)
    ensures var p := AfterCalls(s, ttl, interval, limit, calls).past;
      && p.base == s.past.base && p.log == s.past.log + Logged(calls, ttl) && p.clock == LastClock(calls, s.past.clock)
    decreases calls
  {
    if calls != [] {
      CallIsLogged(s, ttl, interval, limit, calls[0]);
      RunIsLogged(AfterCall(s, ttl, interval, limit, calls[0]), ttl, interval, limit, calls[1..]);
      assert s.past.log + OpsOf(calls[0], ttl) + Logged(calls[1..], ttl) == s.past.log + Logged(calls, ttl);
    }
  }

  /** After every sequence of reads, writes, invalidations and sweeps the two levels answer exactly as
      one expiring map that never evicts, purges or sweeps. */
  lemma RunsAnswerAsOneMap(s: CacheState, ttl: int, interval: int, limit: nat, calls: seq<Call>, key: Key, now: int)
    requires Sound(s, limit) && InOrder(calls, s.past.clock) && LastClock(calls, s.past.clock) <= now
    ensures ReplyOf(AfterCalls(s, ttl, interval, limit, calls).levels, key, now)
            == Answer(s.past.base, s.past.log + Logged(calls, ttl), key, now)
    ensures |AfterCalls(s, ttl, interval, limit, calls).levels.order| <= limit
  {
    var t := AfterCalls(s, ttl, interval, limit, calls);
    RunKeeps(s, ttl, interval, limit, calls);
    RunIsLogged(s, ttl, interval, limit, calls);
    TableAnswers(t.past, t.levels, key, now);
  }

  // ---------------------------------------------------------------- the cache

  class AbiLRUCache {
    const maxEntries: nat
    const ttl: int
    const interval: int
    var order: seq<Key>               // OrderedDict order, least recently used first
    var memory: map<Key, Entry>       // OrderedDict contents
    var table: map<Key, Row>
    var lastTouch: map<Key, int>
    var closed: bool
    ghost var past: Past

    function View(): Levels
      reads this
    {
      Levels(order, memory, table)
    }

    ghost function State(): CacheState
      reads this
    {
      CacheState(past, View(), lastTouch)
    }

    ghost predicate Valid()
      reads this
    {
      Consistent(past, View(), maxEntries)
    }

    constructor (maxEntries: nat, ttl: int, invalidationInterval: int, stored: map<Key, Row>,
                 ghost storedOrder: seq<Key>, ghost startedAt: int)
      requires Distinct(storedOrder) && forall k :: k in storedOrder <==> k in stored
      ensures Valid() && !closed && order == [] && memory == map[] && table == stored && lastTouch == map[]
      ensures this.maxEntries == maxEntries && this.ttl == ttl
      ensures interval == if invalidationInterval < 1 then 1 else invalidationInterval
      ensures past == Past(map k | k in stored :: EntryOf(stored[k]), [], startedAt, storedOrder)
    {
      this.maxEntries, this.ttl := maxEntries, ttl;
      interval := if invalidationInterval < 1 then 1 else invalidationInterval;
      order, memory, table, lastTouch, closed := [], map[], stored, map[], false;
      past := Past(map k | k in stored :: EntryOf(stored[k]), [], startedAt, storedOrder);
    }

    /** `_trim_memory_locked`: drop from the old end until the limit holds. */
    method TrimMemory()
      requires Distinct(order) && forall k :: k in order <==> k in memory
      modifies this`order, this`memory
      ensures order == Newest(old(order), maxEntries)
      ensures memory == Restrict(old(memory), order)
    {
      ghost var start := order;
      ghost var dropped := 0;
      while |order| > maxEntries
        invariant 0 <= dropped <= |start| && order == start[dropped..]
        invariant dropped > 0 ==> |order| >= maxEntries
        invariant memory == Restrict(old(memory), order)
        decreases |order|
      {
        RestrictToTail(old(memory), start, dropped);
        memory := memory - {order[0]};
        order := order[1..];
        dropped := dropped + 1;
      }
    }

    /** `_touch_locked`. */
    method Touch(key: Key, at: int)
      modifies this`table, this`lastTouch
      ensures lastTouch == TouchedLast(old(lastTouch), interval, key, at)
      ensures table == TouchedTable(old(table), old(lastTouch), interval, key, at)
    {
      if key in lastTouch && at - lastTouch[key] < interval {
        return;
      }
      lastTouch := lastTouch[key := at];
      if key in table {
        table := table[key := table[key].(touchedAt := at)];
      }
    }

    /** `_purge_locked`. */
    method Purge(key: Key)
      modifies this`order, this`memory, this`lastTouch, this`table
      ensures View() == AfterMiss(old(View()), key) && lastTouch == old(lastTouch) - {key}
    {
      order, memory := Without(order, {key}), memory - {key};
      lastTouch := lastTouch - {key};
      table := table - {key};
    }

    /** Move a resident key to the recent end, and touch its row. */
    method Refresh(key: Key, touchNow: int)
      requires MemoryBacked(View()) && key in memory && |order| <= maxEntries
      modifies this`order, this`memory, this`table, this`lastTouch
      ensures View() == AfterHit(old(View()), old(lastTouch), interval, maxEntries, key, touchNow)
      ensures lastTouch == TouchedLast(old(lastTouch), interval, key, touchNow)
    {
      HitFromMemory(View(), lastTouch, interval, maxEntries, key, touchNow);
      var entry := memory[key];
      order, memory := Without(order, {key}), memory - {key};
      order, memory := order + [key], memory[key := entry];
      Touch(key, touchNow);
    }

    /** Bring a stored key into memory; its row keeps its touch time. */
    method Load(key: Key, ghost touchNow: int)
      requires MemoryBacked(View()) && Distinct(order) && key !in memory && key in table
      modifies this`order, this`memory, this`table, this`lastTouch
      ensures View() == AfterHit(old(View()), old(lastTouch), interval, maxEntries, key, touchNow)
      ensures lastTouch == TouchedLast(old(lastTouch), interval, key, old(table)[key].touchedAt)
    {
      HitFromTable(View(), lastTouch, interval, maxEntries, key, touchNow);
      PromoteKeepsDistinct(order, key);
      var row := table[key];
      order, memory := order + [key], memory[key := EntryOf(row)];
      TrimMemory();
      Touch(key, row.touchedAt);
      assert table == old(table);
    }

    /** The lookup behind `get`: memory first, then the table, purging what is stale. */
    method Lookup(key: Key, now: int, touchNow: int) returns (reply: Reply)
      requires MemoryBacked(View()) && Distinct(order) && |order| <= maxEntries
      modifies this`order, this`memory, this`table, this`lastTouch
      ensures reply == if key in old(table) && old(table)[key].expiresAt > now then Hit(old(table)[key].abi) else Miss
      ensures reply == Miss ==>
        && View() == AfterMiss(old(View()), key)
        && lastTouch == if key in old(table) then old(lastTouch) - {key} else old(lastTouch)
      ensures reply.Hit? ==>
        && View() == AfterHit(old(View()), old(lastTouch), interval, maxEntries, key, touchNow)
        && lastTouch == AfterHitLast(old(View()), old(lastTouch), interval, key, touchNow)
    {
      if key in memory {
        if memory[key].expiresAt <= now {
          Purge(key);
          return Miss;
        }
        reply := Hit(memory[key].abi);
        Refresh(key, touchNow);
      } else {
        if key !in table {
          WithoutAbsent(order, {key});
          return Miss;
        }
        if table[key].expiresAt <= now {
          Purge(key);
          return Miss;
        }
        reply := Hit(table[key].abi);
        Load(key, touchNow);
      }
    }

    /** `get`. `now` is read by the staleness test, `touchNow` by the touch that follows it. */
    method Get(key: Key, now: int, touchNow: int) returns (reply: Reply)
      requires Valid() && past.clock <= now
      modifies this
      ensures Valid() && closed == old(closed)
      // A closed cache refuses and changes nothing.
      ensures closed ==> reply == Closed && State() == old(State())
      // An open one answers as the expiring map would.
      ensures !closed ==>
        && reply == Answer(past.base, old(past).log, key, now)
        && State() == AfterCall(old(State()), ttl, interval, maxEntries, GetAt(key, now, touchNow))
    {
      if closed {
        return Closed;
      }
      ReadKeeps(past, View(), lastTouch, interval, maxEntries, key, now, touchNow);
      reply := Lookup(key, now, touchNow);
      past := AfterRead(past, key, now);
    }

    /** The memory half of `set`: re-insert at the recent end, then trim. */
    method Insert(key: Key, entry: Entry)
      requires Distinct(order) && forall k :: k in order <==> k in memory
      modifies this`order, this`memory
      ensures order == Newest(Promote(old(order), key), maxEntries)
      ensures memory == Restrict(old(memory)[key := entry], order)
    {
      ghost var promoted := Promote(order, key);
      PromoteMembers(order, key);
      PromoteKeepsDistinct(order, key);
      if key in memory {
        order, memory := Without(order, {key}), memory - {key};
      } else {
        WithoutAbsent(order, {key});
      }
      order, memory := order + [key], memory[key := entry];
      assert order == promoted && memory == old(memory)[key := entry];
      TrimMemory();
    }

    /** The locked part of `set`: memory, touch, then the row itself. */
    method Store(key: Key, row: Row)
      requires Distinct(order) && MemoryBacked(View())
      modifies this`order, this`memory, this`table, this`lastTouch
      ensures View() == AfterSet(old(View()), maxEntries, key, row)
      ensures lastTouch == TouchedLast(old(lastTouch), interval, key, row.touchedAt)
    {
      Insert(key, EntryOf(row));
      Touch(key, row.touchedAt);
      table := table[key := row];
    }

    /** `set`. `now` was read before the lock was taken, so it may lie behind what readers have seen. */
    method Set(key: Key, abi: Abi, now: int) returns (refused: bool)
      requires Valid()
      modifies this
      ensures Valid() && closed == old(closed)
      ensures refused == closed
      ensures State() == if closed then old(State())
                         else AfterCall(old(State()), ttl, interval, maxEntries, SetTo(key, abi, now))
    {
      if closed {
        return true;
      }
      refused := false;
      var row := Row(abi, now, now + ttl);
      ghost var written, stored := AfterWrite(past, key, row.abi, row.expiresAt), AfterSet(View(), maxEntries, key, row);
      assert Distinct(order) && MemoryBacked(View()) && Consistent(written, stored, maxEntries) by {
        WriteKeeps(past, View(), maxEntries, key, row);
      }
      past := written;
      Store(key, row);
      assert View() == stored;
    }

    /** `invalidate`. */
    method Invalidate(key: Key) returns (refused: bool)
      requires Valid()
      modifies this
      ensures Valid() && closed == old(closed)
      ensures refused == closed
      ensures State() == if closed then old(State()) else AfterCall(old(State()), ttl, interval, maxEntries, Drop(key))
    {
      if closed {
        return true;
      }
      InvalidateKeeps(past, View(), maxEntries, key);
      Purge(key);
      past := past.(log := past.log + [OpInvalidate(key)], recency := Without(past.recency, {key}));
      refused := false;
    }

    /** Drop the stale entries from memory, one by one. */
    method DropStaleEntries(now: int) returns (ghost dropped: set<Key>)
      requires forall k :: k in order <==> k in memory
      modifies this`order, this`memory
      ensures forall k :: k in dropped <==> k in old(order) && old(memory)[k].expiresAt <= now
      ensures order == Without(old(order), dropped) && memory == old(memory) - dropped
    {
      var staleKeys := StaleKeys(order, memory, now);
      WithoutAbsent(order, {});
      dropped := {};
      for i := 0 to |staleKeys|
        invariant forall k :: k in dropped <==> k in staleKeys[..i]
        invariant order == Without(old(order), dropped) && memory == old(memory) - dropped
      {
        WithoutTwice(old(order), dropped, {staleKeys[i]});
        assert staleKeys[..i + 1] == staleKeys[..i] + [staleKeys[i]];
        order, memory := Without(order, {staleKeys[i]}), memory - {staleKeys[i]};
        dropped := dropped + {staleKeys[i]};
      }
      assert staleKeys[..|staleKeys|] == staleKeys;
    }

    /** `_invalidate_stale_locked`: the stale entries leave memory, then the table. */
    method Sweep(now: int)
      requires MemoryBacked(View())
      modifies this`order, this`memory, this`table
      ensures View() == AfterSweep(old(View()), Stale(old(table), now))
    {
      ghost var before := View();
      ghost var dropped := DropStaleEntries(now);
      StaleOnBothLevels(before, dropped, now);
      table := table - Stale(table, now);
    }

    /** `invalidate_stale`; the janitor thread does the same on a cache that is still open. */
    method InvalidateStale(now: int) returns (refused: bool)
      requires Valid() && past.clock <= now
      modifies this
      ensures Valid() && closed == old(closed)
      ensures refused == closed
      ensures State() == if closed then old(State()) else AfterCall(old(State()), ttl, interval, maxEntries, SweepAt(now))
    {
      if closed {
        return true;
      }
      refused := false;
      ghost var later, swept := SweptPast(past, table, now), AfterSweep(View(), Stale(table, now));
      assert MemoryBacked(View()) && Consistent(later, swept, maxEntries) by {
        SweepKeeps(past, View(), maxEntries, now);
      }
      past := later;
      Sweep(now);
      assert View() == swept;
    }

    /** `close`: later calls are refused; closing twice is harmless. */
    method Close()
      requires Valid()
      modifies this`closed
      ensures Valid() && closed
    {
      closed := true;
    }
  }

  // ---------------------------------------------------------------- consequences

  lemma SuffixIsMoreRecent(base: map<Key, Entry>, log: seq<Op>, order: seq<Key>, recency: seq<Key>,
                           out: Key, resident: Key)
    requires IsSuffix(order, recency) && ByLastUse(base, log, recency)
    requires out in recency && out !in order && resident in order
    ensures LastUse(base, log, out) <= LastUse(base, log, resident)
  {
    var k := |recency| - |order|;
    var i :| 0 <= i < |recency| && recency[i] == out;
    var j :| 0 <= j < |order| && order[j] == resident;
    assert forall n :: k <= n < |recency| ==> recency[n] == order[n - k];
    assert recency[k + j] == resident && i < k + j;
    assert UsedNoLater(base, log, recency[i], recency[k + j]);
  }

  /** A key that is stored but not resident was used longer ago than every resident key, so every
      eviction removes the least recently used resident. */
  lemma ResidentsAreMostRecent(p: Past, l: Levels, limit: nat, out: Key, resident: Key)
    requires Consistent(p, l, limit)
    requires out in l.table && out !in l.memory && resident in l.memory
    ensures LastUse(p.base, p.log, out) < LastUse(p.base, p.log, resident)
  {
    SuffixIsMoreRecent(p.base, p.log, l.order, p.recency, out, resident);
    assert EverUsed(p.base, p.log, resident);
  }

  // ---------------------------------------------------------------- the expiring map, call by call

  /** Call `i` is the last write or invalidation of `key`. */
  ghost predicate LastChange(log: seq<Op>, key: Key, i: int) {
    0 <= i < |log| && Changes(log[i], key) && forall k :: i < k < |log| ==> !Changes(log[k], key)
  }

  predicate Changes(op: Op, key: Key) { (op.OpSet? || op.OpInvalidate?) && op.key == key }

  ghost predicate NeverChanged(log: seq<Op>, key: Key) { forall k :: 0 <= k < |log| ==> !Changes(log[k], key) }

  lemma {:induction false} LastWriteAt(base: map<Key, Entry>, log: seq<Op>, key: Key)
    ensures forall i :: LastChange(log, key, i) ==>
      LastWrite(base, log, key) == if log[i].OpSet? then Some(Entry(log[i].abi, log[i].expiresAt)) else None
    ensures NeverChanged(log, key) ==> LastWrite(base, log, key) == if key in base then Some(base[key]) else None
  {
    if log != [] && !Changes(log[|log| - 1], key) {
      var init := log[..|log| - 1];
      LastWriteAt(base, init, key);
      forall i | LastChange(log, key, i)
        ensures LastWrite(base, log, key) == if log[i].OpSet? then Some(Entry(log[i].abi, log[i].expiresAt)) else None {
        assert LastChange(init, key, i);
      }
    }
  }

  /** The map answers a key exactly when the last call that changed it was a write that has not expired, or when
      no call changed it and what was stored has not; an entry is gone from the second it expires. */
  lemma AnswerByLastChange(base: map<Key, Entry>, log: seq<Op>, key: Key, now: int, i: int)
    requires LastChange(log, key, i) || (i == -1 && NeverChanged(log, key))
    ensures Answer(base, log, key, now) ==
      if i >= 0 then (if log[i].OpSet? && now < log[i].expiresAt then Hit(log[i].abi) else Miss)
      else if key in base && now < base[key].expiresAt then Hit(base[key].abi) else Miss
  {
    LastWriteAt(base, log, key);
  }

  // ---------------------------------------------------------------- what each call leaves, level by level

  /** The last touch is less than the interval old. */
  predicate TouchedRecently(last: map<Key, int>, interval: int, key: Key, at: int) {
    key in last && at - last[key] < interval
  }

  /** A hit in memory touches the row unless it was touched recently; a hit in the table leaves the table as it
      is, and counts as a touch at the time the row was touched. Nobody else's row or record changes. */
  lemma HitLeaves(s: CacheState, ttl: int, interval: int, limit: nat, key: Key, now: int, touchNow: int)
    requires MemoryBacked(s.levels) && key in s.levels.table && now < s.levels.table[key].expiresAt
    ensures var l, t := s.levels, AfterCall(s, ttl, interval, limit, GetAt(key, now, touchNow));
      var row := l.table[key];
      if key in l.memory then
        if TouchedRecently(s.lastTouch, interval, key, touchNow) then t.levels.table == l.table && t.lastTouch == s.lastTouch
        else
          && t.levels.table == l.table[key := Row(row.abi, touchNow, row.expiresAt)]
          && t.lastTouch == s.lastTouch[key := touchNow]
      else
        && t.levels.table == l.table
        && t.lastTouch == if TouchedRecently(s.lastTouch, interval, key, row.touchedAt) then s.lastTouch
                          else s.lastTouch[key := row.touchedAt]
    ensures var l, t := s.levels, AfterCall(s, ttl, interval, limit, GetAt(key, now, touchNow)).levels;
      && (limit > 0 && |Without(l.order, {key})| < limit ==> key in t.memory)
      && forall k :: k in t.memory ==> t.memory[k] == Entry(l.table[k].abi, l.table[k].expiresAt)
  {
    assert s.levels.table[key := s.levels.table[key]] == s.levels.table;
  }

  /** A read that misses, for want of a row or because it has expired, takes the key from both levels. */
  lemma MissLeaves(s: CacheState, ttl: int, interval: int, limit: nat, key: Key, now: int, touchNow: int)
    requires key in s.levels.table ==> s.levels.table[key].expiresAt <= now
    ensures var t := AfterCall(s, ttl, interval, limit, GetAt(key, now, touchNow));
      && t.levels.table == s.levels.table - {key} && t.levels.memory == s.levels.memory - {key}
      && t.lastTouch == if key in s.levels.table then s.lastTouch - {key} else s.lastTouch
  {
  }

  /** A write leaves one row with the time of the write and an expiry one lifetime later; an invalidation leaves
      nothing of the key; a sweep leaves exactly what has not expired. */
  lemma OtherCallsLeave(s: CacheState, ttl: int, interval: int, limit: nat, key: Key, abi: Abi, now: int)
    ensures var t := AfterCall(s, ttl, interval, limit, SetTo(key, abi, now));
      && t.levels.table == s.levels.table[key := Row(abi, now, now + ttl)]
      && (key in t.levels.memory ==> t.levels.memory[key] == Entry(abi, now + ttl))
      && t.lastTouch == if TouchedRecently(s.lastTouch, interval, key, now) then s.lastTouch else s.lastTouch[key := now]
    ensures var t := AfterCall(s, ttl, interval, limit, Drop(key));
      && t.levels.table == s.levels.table - {key} && t.levels.memory == s.levels.memory - {key}
      && t.lastTouch == s.lastTouch - {key}
    ensures var t := AfterCall(s, ttl, interval, limit, SweepAt(now));
      && (forall k :: k in t.levels.table <==> k in s.levels.table && now < s.levels.table[k].expiresAt)
      && (forall k :: k in t.levels.table ==> t.levels.table[k] == s.levels.table[k])
      && t.lastTouch == s.lastTouch
  {
  }
}
