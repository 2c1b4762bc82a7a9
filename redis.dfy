/** The Redis keyspace the programs talk to, reduced to what they use: strings, sets,
    hashes, sorted sets and lists, the commands that change them, and the two ways the
    programs send several commands at once (MULTI/EXEC after WATCH, and pipelines). */
module Redis {
  import opened Wrappers
  import opened Decimals
  import opened Ordering

  /** A snapshot of the whole keyspace. Every kind of value has its own map; Redis keeps
      no empty set, hash, sorted set or list, and neither does `Apply`. Numbers are kept
      as their decimal strings, as Redis keeps them; sorted-set scores are integers. */
  datatype Db = Db(
    strs: map<string, string>,
    sets: map<string, set<string>>,
    hashes: map<string, map<string, string>>,
    zsets: map<string, map<string, int>>,
    lists: map<string, seq<string>>)

  const Empty := Db(map[], map[], map[], map[], map[])

  // ----- reads -----

  function Get(db: Db, k: string): Option<string> {
    if k in db.strs then Some(db.strs[k]) else None
  }

  predicate Exists(db: Db, k: string) {
    k in db.strs || k in db.sets || k in db.hashes || k in db.zsets || k in db.lists
  }

  function Members(db: Db, k: string): set<string> {
    if k in db.sets then db.sets[k] else {}
  }

  predicate SIsMember(db: Db, k: string, m: string) { m in Members(db, k) }

  function HashOf(db: Db, k: string): map<string, string> {
    if k in db.hashes then db.hashes[k] else map[]
  }

  function HGet(db: Db, k: string, f: string): Option<string> {
    if f in HashOf(db, k) then Some(HashOf(db, k)[f]) else None
  }

  function ZSetOf(db: Db, k: string): map<string, int> {
    if k in db.zsets then db.zsets[k] else map[]
  }

  function ZScore(db: Db, k: string, m: string): Option<int> {
    if m in ZSetOf(db, k) then Some(ZSetOf(db, k)[m]) else None
  }

  function ZCard(db: Db, k: string): nat { |ZSetOf(db, k)| }

  /** ZRANK: the number of members ranked before `m`, if `m` is a member. */
  function ZRank(db: Db, k: string, m: string): Option<nat> {
    if m in ZSetOf(db, k) then Some(RankIn(ZSetOf(db, k), m)) else None
  }

  /** ZRANGE k start stop: members in rank order, lowest score first. */
  function ZRange(db: Db, k: string, start: int, stop: int): seq<string> {
    var o := Ordered(ZSetOf(db, k));
    var w := Window(|o|, start, stop);
    o[w.0..w.1]
  }

  /** ZREVRANGE k start stop: members in reverse rank order, highest score first. */
  function ZRevRange(db: Db, k: string, start: int, stop: int): seq<string> {
    var o := Reverse(Ordered(ZSetOf(db, k)));
    var w := Window(|o|, start, stop);
    o[w.0..w.1]
  }

  function ListOf(db: Db, k: string): seq<string> {
    if k in db.lists then db.lists[k] else []
  }

  /** Everything the keyspace holds under one key. */
  datatype View = View(
    value: Option<string>, members: set<string>, fields: map<string, string>,
    scores: map<string, int>, items: seq<string>)

  function At(db: Db, k: string): View {
    View(Get(db, k), Members(db, k), HashOf(db, k), ZSetOf(db, k), ListOf(db, k))
  }

  // ----- building blocks of the writes -----

  function RemoveKeys(db: Db, ks: set<string>): Db {
    Db(db.strs - ks, db.sets - ks, db.hashes - ks, db.zsets - ks, db.lists - ks)
  }

  function PutSet(db: Db, k: string, s: set<string>): Db {
    db.(sets := if s == {} then db.sets - {k} else db.sets[k := s])
  }

  function PutHash(db: Db, k: string, h: map<string, string>): Db {
    db.(hashes := if h == map[] then db.hashes - {k} else db.hashes[k := h])
  }

  function PutZSet(db: Db, k: string, z: map<string, int>): Db {
    db.(zsets := if z == map[] then db.zsets - {k} else db.zsets[k := z])
  }

  function PutList(db: Db, k: string, l: seq<string>): Db {
    db.(lists := if l == [] then db.lists - {k} else db.lists[k := l])
  }

  /** RENAME of an existing key to a different name: whatever `d` held is gone. */
  function RenameKey(db: Db, k: string, d: string): Db {
    var r := RemoveKeys(db, {k, d});
    Db(
      if k in db.strs then r.strs[d := db.strs[k]] else r.strs,
      if k in db.sets then r.sets[d := db.sets[k]] else r.sets,
      if k in db.hashes then r.hashes[d := db.hashes[k]] else r.hashes,
      if k in db.zsets then r.zsets[d := db.zsets[k]] else r.zsets,
      if k in db.lists then r.lists[d := db.lists[k]] else r.lists)
  }

  /** HMSET's pairs, later pairs overriding earlier ones. */
  function WithPairs(h: map<string, string>, pairs: seq<(string, string)>): map<string, string>
    decreases |pairs|
  {
    if pairs == [] then h else WithPairs(h[pairs[0].0 := pairs[0].1], pairs[1..])
  }

  /** A ZINTERSTORE input: a sorted set, or a plain set whose members all score 1. */
  function ZSource(db: Db, k: string): map<string, int> {
    if k in db.zsets then db.zsets[k] else map m | m in Members(db, k) :: 1
  }

  /** What ZREMRANGEBYRANK leaves of `z`. */
  function WithoutRanks(z: map<string, int>, start: int, stop: int): map<string, int> {
    var o := Ordered(z);
    var w := Window(|o|, start, stop);
    z - set i | w.0 <= i < w.1 :: o[i]
  }

  /** The members of a command's argument list. */
  function Elems(s: seq<string>): set<string> { set x | x in s }

  function Max(a: int, b: int): int { if a < b then b else a }

  /** An integer field or value read for INCR/HINCRBY: absent counts as 0. */
  function Counter(v: Option<string>): Option<int> {
    if v.None? then Some(0) else ParseInt(v.value)
  }

  // ----- the writes -----

  datatype Cmd =
    | Set(key: string, value: string)
    | Del(keys: seq<string>)
    | Rename(key: string, newKey: string)
    | Incr(key: string)
    | SAdd(key: string, member: string)
    | SRem(key: string, member: string)
    | SMove(key: string, dest: string, member: string)
    | HSet(key: string, field: string, value: string)
    | HMSet(key: string, pairs: seq<(string, string)>)
    | HDel(key: string, fields: seq<string>)
    | HIncrBy(key: string, field: string, delta: int)
    | ZAdd(key: string, member: string, score: int)
    | ZIncrBy(key: string, member: string, delta: int)
    | ZRem(key: string, members: seq<string>)
    | ZRemRangeByRank(key: string, start: int, stop: int)
    | ZInterStoreMax(dest: string, left: string, right: string)  // WEIGHTS 1 1 AGGREGATE MAX
    | LPush(key: string, value: string)
    | LTrim(key: string, start: int, stop: int)
    | LRange(key: string, start: int, stop: int)  // a read queued with the writes

  /** The commands Redis refuses at run time; a refused command changes nothing. */
  predicate Fails(db: Db, c: Cmd) {
    match c
    case Incr(k) => Counter(Get(db, k)).None?
    case HIncrBy(k, f, _) => Counter(HGet(db, k, f)).None?
    case Rename(k, _) => !Exists(db, k)
    case _ => false
  }

  function Apply(db: Db, c: Cmd): Db {
    if Fails(db, c) then db
    else match c
      case Set(k, v) =>
        var r := RemoveKeys(db, {k});
        r.(strs := r.strs[k := v])
      case Del(ks) => RemoveKeys(db, Elems(ks))
      case Rename(k, d) => if k == d then db else RenameKey(db, k, d)
      case Incr(k) => db.(strs := db.strs[k := Decimal(Counter(Get(db, k)).value + 1)])
      case SAdd(k, m) => db.(sets := db.sets[k := Members(db, k) + {m}])
      case SRem(k, m) => PutSet(db, k, Members(db, k) - {m})
      case SMove(k, d, m) =>
        if m !in Members(db, k) then db
        else
          var r := PutSet(db, k, Members(db, k) - {m});
          r.(sets := r.sets[d := Members(r, d) + {m}])
      case HSet(k, f, v) => db.(hashes := db.hashes[k := HashOf(db, k)[f := v]])
      case HMSet(k, pairs) => PutHash(db, k, WithPairs(HashOf(db, k), pairs))
      case HDel(k, fs) => PutHash(db, k, HashOf(db, k) - Elems(fs))
      case HIncrBy(k, f, n) =>
        db.(hashes := db.hashes[k := HashOf(db, k)[f := Decimal(Counter(HGet(db, k, f)).value + n)]])
      case ZAdd(k, m, s) => db.(zsets := db.zsets[k := ZSetOf(db, k)[m := s]])
      case ZIncrBy(k, m, n) =>
        db.(zsets := db.zsets[k := ZSetOf(db, k)[m := (if m in ZSetOf(db, k) then ZSetOf(db, k)[m] else 0) + n]])
      case ZRem(k, ms) => PutZSet(db, k, ZSetOf(db, k) - Elems(ms))
      case ZRemRangeByRank(k, a, b) => PutZSet(db, k, WithoutRanks(ZSetOf(db, k), a, b))
      case ZInterStoreMax(d, a, b) =>
        var l := ZSource(db, a);
        var r := ZSource(db, b);
        PutZSet(RemoveKeys(db, {d}), d, map m | m in l && m in r :: Max(l[m], r[m]))
      case LPush(k, v) => db.(lists := db.lists[k := [v] + ListOf(db, k)])
      case LTrim(k, a, b) =>
        var l := ListOf(db, k);
        var w := Window(|l|, a, b);
        PutList(db, k, l[w.0..w.1])
      case LRange(_, _, _) => db
  }

  /** The keys a command may change. */
  function Touched(c: Cmd): set<string> {
    match c
    case Del(ks) => Elems(ks)
    case Rename(k, d) => {k, d}
    case SMove(k, d, _) => {k, d}
    case ZInterStoreMax(d, _, _) => {d}
    case LRange(_, _, _) => {}
    case _ => {c.key}
  }

  /** A committed MULTI/EXEC or a pipeline: every command runs in order and a refused
      one is skipped. */
  function ApplyAll(db: Db, cmds: seq<Cmd>): Db
    decreases |cmds|
  {
    if cmds == [] then db else ApplyAll(Apply(db, cmds[0]), cmds[1..])
  }

  predicate AllSucceed(db: Db, cmds: seq<Cmd>)
    decreases |cmds|
  {
    cmds == [] || (!Fails(db, cmds[0]) && AllSucceed(Apply(db, cmds[0]), cmds[1..]))
  }

  function TouchedAll(cmds: seq<Cmd>): set<string> {
    set i, k | 0 <= i < |cmds| && k in Touched(cmds[i]) :: k
  }

  /** Commands awaited one by one with `?`: the first refusal ends the sequence. */
  function RunSeq(db: Db, cmds: seq<Cmd>): (bool, Db)
    decreases |cmds|
  {
    if cmds == [] then (true, db)
    else if Fails(db, cmds[0]) then (false, db)
    else RunSeq(Apply(db, cmds[0]), cmds[1..])
  }

  // ----- facts about the writes -----

  lemma PutSetFrame(db: Db, k: string, x: string, s: set<string>)
    requires x != k
    ensures At(PutSet(db, k, s), x) == At(db, x)
  {
  }

  lemma PutHashFrame(db: Db, k: string, x: string, h: map<string, string>)
    requires x != k
    ensures At(PutHash(db, k, h), x) == At(db, x)
  {
  }

  lemma PutZSetFrame(db: Db, k: string, x: string, z: map<string, int>)
    requires x != k
    ensures At(PutZSet(db, k, z), x) == At(db, x)
  {
  }

  lemma PutListFrame(db: Db, k: string, x: string, l: seq<string>)
    requires x != k
    ensures At(PutList(db, k, l), x) == At(db, x)
  {
  }

  lemma RemoveFrame(db: Db, ks: set<string>, x: string)
    requires x !in ks
    ensures At(RemoveKeys(db, ks), x) == At(db, x)
  {
  }

  /** A command leaves every key it does not name as it was. */
  lemma Frame(db: Db, c: Cmd, k: string)
    requires k !in Touched(c)
    ensures At(Apply(db, c), k) == At(db, k)
  {
    if Fails(db, c) {
    } else if c.Rename? {
      if c.key != c.newKey { RemoveFrame(db, {c.key, c.newKey}, k); }
    } else if c.Set? || c.Del? || c.Incr? || c.LRange? {
      FrameKeys(db, c, k);
    } else if c.ZInterStoreMax? {
      FrameInterStore(db, c, k);
    } else if c.SAdd? || c.SRem? || c.SMove? {
      FrameSets(db, c, k);
    } else if c.HSet? || c.HMSet? || c.HDel? || c.HIncrBy? {
      FrameHashes(db, c, k);
    } else if c.ZAdd? || c.ZIncrBy? {
      FrameZSets(db, c, k);
    } else if c.ZRem? {
      FrameZRem(db, c.key, c.members, k);
    } else if c.ZRemRangeByRank? {
      FrameZRemRange(db, c.key, c.start, c.stop, k);
    } else {
      FrameLists(db, c, k);
    }
  }

  lemma FrameKeys(db: Db, c: Cmd, k: string)
    requires c.Set? || c.Del? || c.Incr? || c.LRange?
    requires !Fails(db, c) && k !in Touched(c)
    ensures At(Apply(db, c), k) == At(db, k)
  {
    match c
    case Set(a, v) =>
      RemoveFrame(db, {a}, k);
    case Del(ks) =>
      RemoveFrame(db, Elems(ks), k);
    case Incr(_) =>
    case LRange(_, _, _) =>
  }

  lemma FrameInterStore(db: Db, c: Cmd, k: string)
    requires c.ZInterStoreMax?
    requires k !in Touched(c)
    ensures At(Apply(db, c), k) == At(db, k)
  {
    var l := ZSource(db, c.left);
    var r := ZSource(db, c.right);
    RemoveFrame(db, {c.dest}, k);
    PutZSetFrame(RemoveKeys(db, {c.dest}), c.dest, k, (map m | m in l && m in r :: Max(l[m], r[m])));
  }

  lemma FrameSets(db: Db, c: Cmd, k: string)
    requires c.SAdd? || c.SRem? || c.SMove?
    requires !Fails(db, c) && k !in Touched(c)
    ensures At(Apply(db, c), k) == At(db, k)
  {
    if c.SRem? || (c.SMove? && c.member in Members(db, c.key)) {
      PutSetFrame(db, c.key, k, Members(db, c.key) - {c.member});
    }
  }

  lemma FrameHashes(db: Db, c: Cmd, k: string)
    requires c.HSet? || c.HMSet? || c.HDel? || c.HIncrBy?
    requires !Fails(db, c) && k !in Touched(c)
    ensures At(Apply(db, c), k) == At(db, k)
  {
    if c.HMSet? {
      PutHashFrame(db, c.key, k, WithPairs(HashOf(db, c.key), c.pairs));
    } else if c.HDel? {
      PutHashFrame(db, c.key, k, HashOf(db, c.key) - Elems(c.fields));
    }
  }

  lemma FrameZSets(db: Db, c: Cmd, k: string)
    requires c.ZAdd? || c.ZIncrBy?
    requires !Fails(db, c) && k !in Touched(c)
    ensures At(Apply(db, c), k) == At(db, k)
  {
  }

  lemma FrameHIncrBy(db: Db, a: string, f: string, n: int, k: string)
    requires k != a
    ensures At(Apply(db, HIncrBy(a, f, n)), k) == At(db, k)
  {
  }

  lemma FrameSAdd(db: Db, a: string, m: string, k: string)
    requires k != a
    ensures At(Apply(db, SAdd(a, m)), k) == At(db, k)
  {
  }

  lemma FrameZRem(db: Db, a: string, ms: seq<string>, k: string)
    requires k != a
    ensures At(Apply(db, ZRem(a, ms)), k) == At(db, k)
  {
    PutZSetFrame(db, a, k, ZSetOf(db, a) - Elems(ms));
  }

  lemma FrameZRemRange(db: Db, a: string, i: int, j: int, k: string)
    requires k != a
    ensures At(Apply(db, ZRemRangeByRank(a, i, j)), k) == At(db, k)
  {
    PutZSetFrame(db, a, k, WithoutRanks(ZSetOf(db, a), i, j));
  }

  lemma FrameLists(db: Db, c: Cmd, k: string)
    requires c.LPush? || c.LTrim?
    requires !Fails(db, c) && k !in Touched(c)
    ensures At(Apply(db, c), k) == At(db, k)
  {
    if c.LTrim? {
      var l := ListOf(db, c.key);
      var w := Window(|l|, c.start, c.stop);
      PutListFrame(db, c.key, k, l[w.0..w.1]);
    }
  }

  lemma {:induction false} FrameAll(db: Db, cmds: seq<Cmd>, k: string)
    requires k !in TouchedAll(cmds)
    ensures At(ApplyAll(db, cmds), k) == At(db, k)
    decreases |cmds|
  {
    if cmds != [] {
      assert k !in Touched(cmds[0]);
      Frame(db, cmds[0], k);
      assert TouchedAll(cmds[1..]) <= TouchedAll(cmds) by {
        forall x | x in TouchedAll(cmds[1..]) ensures x in TouchedAll(cmds) {
          var i :| 0 <= i < |cmds[1..]| && x in Touched(cmds[1..][i]);
          assert x in Touched(cmds[i + 1]);
        }
      }
      FrameAll(Apply(db, cmds[0]), cmds[1..], k);
    }
  }

  /** Awaiting commands one by one that all succeed ends where a batch of them ends. */
  lemma {:induction false} RunSeqAllSucceed(db: Db, cmds: seq<Cmd>)
    ensures RunSeq(db, cmds).0 == AllSucceed(db, cmds)
    ensures AllSucceed(db, cmds) ==> RunSeq(db, cmds).1 == ApplyAll(db, cmds)
    decreases |cmds|
  {
    if cmds != [] && !Fails(db, cmds[0]) {
      RunSeqAllSucceed(Apply(db, cmds[0]), cmds[1..]);
    }
  }

  lemma ApplyAllCons(db: Db, c: Cmd, rest: seq<Cmd>)
    ensures ApplyAll(db, [c] + rest) == ApplyAll(Apply(db, c), rest)
  {
    assert ([c] + rest)[1..] == rest;
  }

  lemma ApplyAllOne(db: Db, c: Cmd)
    ensures ApplyAll(db, [c]) == Apply(db, c)
  {
    assert [c][1..] == [];
  }

  /** HINCRBY on an integer field adds to it. */
  lemma HIncrByAdds(db: Db, k: string, f: string, n: int)
    requires Counter(HGet(db, k, f)).Some?
    ensures Counter(HGet(Apply(db, HIncrBy(k, f, n)), k, f)) == Some(Counter(HGet(db, k, f)).value + n)
  {
    ParseDecimal(Counter(HGet(db, k, f)).value + n);
  }

  /** HINCRBY on an integer field stores the sum, written in decimal. */
  lemma HIncrByStores(db: Db, k: string, f: string, n: int)
    requires Counter(HGet(db, k, f)).Some?
    ensures HGet(Apply(db, HIncrBy(k, f, n)), k, f) == Some(Decimal(Counter(HGet(db, k, f)).value + n))
  {
  }

  /** Each command writes one kind of value only (RENAME, DEL, SET and ZINTERSTORE,
      which may replace a key of any kind, are not listed). */
  lemma ApplyKinds(db: Db, c: Cmd)
    ensures (c.SAdd? || c.SRem? || c.SMove?) ==> Apply(db, c).(sets := db.sets) == db
    ensures (c.HSet? || c.HMSet? || c.HDel? || c.HIncrBy?) ==> Apply(db, c).(hashes := db.hashes) == db
    ensures (c.ZAdd? || c.ZIncrBy? || c.ZRem? || c.ZRemRangeByRank?) ==> Apply(db, c).(zsets := db.zsets) == db
    ensures (c.LPush? || c.LTrim? || c.LRange?) ==> Apply(db, c).(lists := db.lists) == db
    ensures c.Incr? ==> Apply(db, c).(strs := db.strs) == db
  {
    if c.SAdd? || c.SRem? || c.SMove? {
      SetsOnly(db, c);
    } else if c.HSet? || c.HMSet? || c.HDel? || c.HIncrBy? {
      HashesOnly(db, c);
    } else if c.ZAdd? || c.ZIncrBy? || c.ZRem? || c.ZRemRangeByRank? {
      ZSetsOnly(db, c);
    }
  }

  lemma SetsOnly(db: Db, c: Cmd)
    requires c.SAdd? || c.SRem? || c.SMove?
    ensures Apply(db, c).(sets := db.sets) == db
  {
  }

  lemma HashesOnly(db: Db, c: Cmd)
    requires c.HSet? || c.HMSet? || c.HDel? || c.HIncrBy?
    ensures Apply(db, c).(hashes := db.hashes) == db
  {
  }

  lemma ZSetsOnly(db: Db, c: Cmd)
    requires c.ZAdd? || c.ZIncrBy? || c.ZRem? || c.ZRemRangeByRank?
    ensures Apply(db, c).(zsets := db.zsets) == db
  {
  }

  lemma RunSeqCons(db: Db, c: Cmd, rest: seq<Cmd>)
    ensures RunSeq(db, [c] + rest) == if Fails(db, c) then (false, db) else RunSeq(Apply(db, c), rest)
  {
    assert ([c] + rest)[1..] == rest;
  }

  /** HMSET keeps every field that none of its pairs names. */
  lemma {:induction false} WithPairsKeeps(h: map<string, string>, pairs: seq<(string, string)>, f: string)
    requires forall i :: 0 <= i < |pairs| ==> pairs[i].0 != f
    ensures f in WithPairs(h, pairs) <==> f in h
    ensures f in h ==> WithPairs(h, pairs)[f] == h[f]
    decreases |pairs|
  {
    if pairs != [] {
      assert pairs[0].0 != f;
      forall j | 0 <= j < |pairs[1..]| ensures pairs[1..][j].0 != f {
        assert pairs[1..][j] == pairs[j + 1];
      }
      WithPairsKeeps(h[pairs[0].0 := pairs[0].1], pairs[1..], f);
    }
  }

  /** HMSET with distinct field names stores each of its pairs. */
  lemma {:induction false} WithPairsStores(h: map<string, string>, pairs: seq<(string, string)>, i: nat)
    requires forall i, j :: 0 <= i < j < |pairs| ==> pairs[i].0 != pairs[j].0
    requires i < |pairs|
    ensures pairs[i].0 in WithPairs(h, pairs) && WithPairs(h, pairs)[pairs[i].0] == pairs[i].1
    decreases |pairs|
  {
    var h' := h[pairs[0].0 := pairs[0].1];
    assert WithPairs(h, pairs) == WithPairs(h', pairs[1..]);
    if i > 0 {
      assert pairs[1..][i - 1] == pairs[i];
      WithPairsStores(h', pairs[1..], i - 1);
    } else {
      forall j | 0 <= j < |pairs[1..]| ensures pairs[1..][j].0 != pairs[0].0 {
        assert pairs[1..][j] == pairs[j + 1];
      }
      WithPairsKeeps(h', pairs[1..], pairs[0].0);
    }
  }

  /** HMSET with distinct field names leaves each field holding its value. */
  lemma HMSetStores(db: Db, k: string, pairs: seq<(string, string)>, i: nat)
    requires forall i, j :: 0 <= i < j < |pairs| ==> pairs[i].0 != pairs[j].0
    requires i < |pairs|
    ensures HGet(Apply(db, HMSet(k, pairs)), k, pairs[i].0) == Some(pairs[i].1)
  {
    WithPairsStores(HashOf(db, k), pairs, i);
  }

  lemma HIncrByOtherField(db: Db, k: string, f: string, g: string, n: int)
    requires f != g
    ensures HGet(Apply(db, HIncrBy(k, g, n)), k, f) == HGet(db, k, f)
  {
  }

  /** HINCRBY on a state where the field reads as it does in `db` adds to `db`'s value. */
  lemma HIncrByStoresFrom(db: Db, d: Db, k: string, f: string, n: int)
    requires HGet(d, k, f) == HGet(db, k, f) && Counter(HGet(db, k, f)).Some?
    ensures HGet(Apply(d, HIncrBy(k, f, n)), k, f) == Some(Decimal(Counter(HGet(db, k, f)).value + n))
  {
    HIncrByStores(d, k, f, n);
  }

  lemma HIncrByOtherKey(db: Db, k: string, f: string, n: int, k2: string, g: string)
    requires k != k2
    ensures HGet(Apply(db, HIncrBy(k, f, n)), k2, g) == HGet(db, k2, g)
  {
  }

  /** ZINCRBY adds to the score, an absent member starting from 0. */
  lemma ZIncrByAdds(db: Db, k: string, m: string, n: int)
    ensures ZScore(Apply(db, ZIncrBy(k, m, n)), k, m) ==
            Some((if ZScore(db, k, m).Some? then ZScore(db, k, m).value else 0) + n)
  {
  }

  /** The score of `m`, an absent member counting as 0 (where ZINCRBY starts). */
  function ScoreOr0(db: Db, k: string, m: string): int {
    if ZScore(db, k, m).Some? then ZScore(db, k, m).value else 0
  }

  /** ZINCRBY on a state whose sorted sets are those of `db` adds to `db`'s score. */
  lemma ZIncrByAddsTo(db: Db, d: Db, k: string, m: string, n: int)
    requires d.zsets == db.zsets
    ensures ZScore(Apply(d, ZIncrBy(k, m, n)), k, m) == Some(ScoreOr0(db, k, m) + n)
  {
    ZIncrByAdds(d, k, m, n);
  }

  /** ZINCRBY on a state where `m` scores what it scores in `db` adds to `db`'s score. */
  lemma ZIncrByAddsFrom(db: Db, d: Db, k: string, m: string, n: int)
    requires ZScore(d, k, m) == ZScore(db, k, m)
    ensures ZScore(Apply(d, ZIncrBy(k, m, n)), k, m) == Some(ScoreOr0(db, k, m) + n)
  {
    ZIncrByAdds(d, k, m, n);
  }

  /** HINCRBY on a state whose hashes are those of `db` stores the sum with `db`'s value. */
  lemma HIncrByStoresTo(db: Db, d: Db, k: string, f: string, n: int)
    requires d.hashes == db.hashes && Counter(HGet(db, k, f)).Some?
    ensures !Fails(d, HIncrBy(k, f, n))
    ensures HGet(Apply(d, HIncrBy(k, f, n)), k, f) == Some(Decimal(Counter(HGet(db, k, f)).value + n))
  {
  }

  /** HINCRBY leaves every other field of every hash. */
  lemma HIncrByKeepsOthers(db: Db, d: Db, k: string, f: string, n: int, g: string)
    requires d.hashes == db.hashes && g != f
    ensures HGet(Apply(d, HIncrBy(k, f, n)), k, g) == HGet(db, k, g)
  {
  }

  /** SMOVE between two different sets. */
  lemma SMoveMembers(db: Db, from: string, to: string, m: string, k: string)
    requires from != to
    ensures Members(Apply(db, SMove(from, to, m)), k) ==
            if m !in Members(db, from) then Members(db, k)
            else if k == from then Members(db, from) - {m}
            else if k == to then Members(db, to) + {m}
            else Members(db, k)
  {
  }

  lemma HGetOfHashes(a: Db, b: Db, k: string, f: string)
    requires a.hashes == b.hashes
    ensures HGet(a, k, f) == HGet(b, k, f)
  {
  }

  lemma ZScoreOfZSets(a: Db, b: Db, k: string, m: string)
    requires a.zsets == b.zsets
    ensures ZScore(a, k, m) == ZScore(b, k, m)
  {
  }

  /** ZINCRBY writes sorted sets only. */
  lemma ZIncrByKeeps(db: Db, k: string, m: string, n: int)
    ensures Apply(db, ZIncrBy(k, m, n)).hashes == db.hashes
    ensures Apply(db, ZIncrBy(k, m, n)).sets == db.sets
    ensures Apply(db, ZIncrBy(k, m, n)).strs == db.strs
  {
  }

  /** The hash under `k2` after HINCRBY on field `f` of `k`. */
  lemma HIncrByHash(db: Db, k: string, f: string, n: int, k2: string)
    ensures HashOf(Apply(db, HIncrBy(k, f, n)), k2) ==
              if k2 != k || Counter(HGet(db, k, f)).None? then HashOf(db, k2)
              else HashOf(db, k)[f := Decimal(Counter(HGet(db, k, f)).value + n)]
  {
  }

  /** ZADD writes sorted sets only. */
  lemma ZAddKeeps(db: Db, k: string, m: string, score: int)
    ensures Apply(db, ZAdd(k, m, score)).hashes == db.hashes
    ensures Apply(db, ZAdd(k, m, score)).sets == db.sets
    ensures Apply(db, ZAdd(k, m, score)).strs == db.strs
  {
  }

  /** HINCRBY writes hashes only. */
  lemma HIncrByKeeps(db: Db, k: string, f: string, n: int)
    ensures Apply(db, HIncrBy(k, f, n)).zsets == db.zsets
    ensures Apply(db, HIncrBy(k, f, n)).sets == db.sets
  {
  }

  /** SMOVE writes sets only. */
  lemma SMoveKeeps(db: Db, from: string, to: string, m: string)
    ensures Apply(db, SMove(from, to, m)).hashes == db.hashes
    ensures Apply(db, SMove(from, to, m)).zsets == db.zsets
  {
  }

  /** SADD writes sets only. */
  lemma SAddKeeps(db: Db, k: string, m: string)
    ensures Apply(db, SAdd(k, m)).hashes == db.hashes
    ensures Apply(db, SAdd(k, m)).zsets == db.zsets
    ensures Apply(db, SAdd(k, m)).strs == db.strs
  {
  }

  /** HMSET writes hashes only. */
  lemma HMSetKeeps(db: Db, k: string, pairs: seq<(string, string)>)
    ensures Apply(db, HMSet(k, pairs)).strs == db.strs
    ensures Apply(db, HMSet(k, pairs)).sets == db.sets
    ensures Apply(db, HMSet(k, pairs)).zsets == db.zsets
  {
  }

  /** INCR writes strings only. */
  lemma IncrKeeps(db: Db, k: string)
    ensures Apply(db, Incr(k)).sets == db.sets
    ensures Apply(db, Incr(k)).hashes == db.hashes
    ensures Apply(db, Incr(k)).zsets == db.zsets
  {
  }

  /** INCR on an integer value stores the successor, written in decimal. */
  lemma IncrStores(db: Db, k: string)
    requires Counter(Get(db, k)).Some?
    ensures Get(Apply(db, Incr(k)), k) == Some(Decimal(Counter(Get(db, k)).value + 1))
  {
  }

  lemma ZIncrByOtherKey(db: Db, k: string, m: string, n: int, k2: string, m2: string)
    requires k != k2
    ensures ZScore(Apply(db, ZIncrBy(k, m, n)), k2, m2) == ZScore(db, k2, m2)
  {
  }

  lemma SAddMembers(db: Db, key: string, m: string, k: string)
    ensures Members(Apply(db, SAdd(key, m)), k) == if k == key then Members(db, key) + {m} else Members(db, k)
  {
  }

  /** Awaited HINCRBYs and ZINCRBYs leave every set alone, whether or not one is refused. */
  lemma {:induction false} RunSeqKeepsSets(db: Db, cmds: seq<Cmd>)
    requires forall i :: 0 <= i < |cmds| ==> cmds[i].HIncrBy? || cmds[i].ZIncrBy?
    ensures RunSeq(db, cmds).1.sets == db.sets
    decreases |cmds|
  {
    if cmds != [] && !Fails(db, cmds[0]) {
      ApplyKinds(db, cmds[0]);
      RunSeqKeepsSets(Apply(db, cmds[0]), cmds[1..]);
    }
  }

  /** ZREM writes sorted sets only. */
  lemma ZRemKeeps(db: Db, k: string, ms: seq<string>)
    ensures Apply(db, ZRem(k, ms)).hashes == db.hashes
    ensures Apply(db, ZRem(k, ms)).sets == db.sets
  {
  }

  lemma ZRemRemoves(db: Db, k: string, ms: seq<string>)
    ensures ZSetOf(Apply(db, ZRem(k, ms)), k) == ZSetOf(db, k) - Elems(ms)
  {
  }

  lemma ZRemOne(db: Db, k: string, m: string)
    ensures ZSetOf(Apply(db, ZRem(k, [m])), k) == ZSetOf(db, k) - {m}
  {
    assert Elems([m]) == {m};
  }

  /** Running one more command of a list. */
  lemma ApplyAllPrefix(db: Db, cmds: seq<Cmd>, i: nat)
    requires i < |cmds|
    ensures ApplyAll(db, cmds[..i + 1]) == Apply(ApplyAll(db, cmds[..i]), cmds[i])
  {
    assert cmds[..i + 1] == cmds[..i] + [cmds[i]];
    ApplyAllAppend(db, cmds[..i], cmds[i]);
  }

  lemma ApplyAllAppend(db: Db, cmds: seq<Cmd>, c: Cmd)
    ensures ApplyAll(db, cmds + [c]) == Apply(ApplyAll(db, cmds), c)
    decreases |cmds|
  {
    if cmds != [] {
      assert (cmds + [c])[1..] == cmds[1..] + [c];
      ApplyAllAppend(Apply(db, cmds[0]), cmds[1..], c);
    }
  }

  /** A batch in two parts runs the first part, then the second. */
  lemma {:induction false} ApplyAllConcat(db: Db, a: seq<Cmd>, b: seq<Cmd>)
    ensures ApplyAll(db, a + b) == ApplyAll(ApplyAll(db, a), b)
    decreases |a|
  {
    if a == [] {
      assert a + b == b;
    } else {
      assert a + b == [a[0]] + (a[1..] + b);
      ApplyAllCons(db, a[0], a[1..] + b);
      ApplyAllConcat(Apply(db, a[0]), a[1..], b);
      ApplyAllCons(db, a[0], a[1..]);
      assert [a[0]] + a[1..] == a;
    }
  }

  /** A batch of two commands. */
  lemma ApplyAllTwo(db: Db, c0: Cmd, c1: Cmd)
    ensures ApplyAll(db, [c0, c1]) == Apply(Apply(db, c0), c1)
  {
    assert [c0, c1] == [c0] + [c1];
    ApplyAllCons(db, c0, [c1]);
    ApplyAllOne(Apply(db, c0), c1);
  }

  // ----- each write in closed form, for proofs that chain several -----

  lemma DelIs(db: Db, ks: seq<string>)
    ensures Apply(db, Del(ks)) == RemoveKeys(db, Elems(ks))
  {
  }

  lemma HSetIs(db: Db, k: string, f: string, v: string)
    ensures Apply(db, HSet(k, f, v)) == db.(hashes := db.hashes[k := HashOf(db, k)[f := v]])
  {
  }

  lemma HDelIs(db: Db, k: string, fs: seq<string>)
    ensures Apply(db, HDel(k, fs)) == PutHash(db, k, HashOf(db, k) - Elems(fs))
  {
  }

  lemma ZAddIs(db: Db, k: string, m: string, s: int)
    ensures Apply(db, ZAdd(k, m, s)) == db.(zsets := db.zsets[k := ZSetOf(db, k)[m := s]])
  {
  }

  lemma ZIncrByIs(db: Db, k: string, m: string, n: int)
    ensures Apply(db, ZIncrBy(k, m, n)) == db.(zsets := db.zsets[k := ZSetOf(db, k)[m := ScoreOr0(db, k, m) + n]])
  {
  }

  lemma ZRemIs(db: Db, k: string, ms: seq<string>)
    ensures Apply(db, ZRem(k, ms)) == PutZSet(db, k, ZSetOf(db, k) - Elems(ms))
  {
  }

  lemma ZRemRangeIs(db: Db, k: string, a: int, b: int)
    ensures Apply(db, ZRemRangeByRank(k, a, b)) == PutZSet(db, k, WithoutRanks(ZSetOf(db, k), a, b))
  {
  }

  lemma ZAddStores(db: Db, k: string, m: string, s: int)
    ensures ZSetOf(Apply(db, ZAdd(k, m, s)), k) == ZSetOf(db, k)[m := s]
  {
  }

  lemma ZRemRangeStores(db: Db, k: string, a: int, b: int)
    ensures ZSetOf(Apply(db, ZRemRangeByRank(k, a, b)), k) == WithoutRanks(ZSetOf(db, k), a, b)
  {
  }

  lemma ZIncrByOtherSet(db: Db, k: string, m: string, n: int, k2: string)
    requires k2 != k
    ensures ZSetOf(Apply(db, ZIncrBy(k, m, n)), k2) == ZSetOf(db, k2)
  {
  }

  lemma ZAddOtherSet(db: Db, k: string, m: string, s: int, k2: string)
    requires k2 != k
    ensures ZSetOf(Apply(db, ZAdd(k, m, s)), k2) == ZSetOf(db, k2)
  {
  }

  lemma ZRemRangeOtherSet(db: Db, k: string, a: int, b: int, k2: string)
    requires k2 != k
    ensures ZSetOf(Apply(db, ZRemRangeByRank(k, a, b)), k2) == ZSetOf(db, k2)
  {
    FrameZRemRange(db, k, a, b, k2);
  }

  lemma ZRemRangeKeeps(db: Db, k: string, a: int, b: int)
    ensures Apply(db, ZRemRangeByRank(k, a, b)).hashes == db.hashes
  {
    ZSetsOnly(db, ZRemRangeByRank(k, a, b));
  }

  /** HDEL and ZREM leave every other key as it was. */
  lemma HDelZRemOtherKey(db: Db, k: string, fs: seq<string>, k2: string)
    requires k2 != k
    ensures Exists(Apply(db, HDel(k, fs)), k2) == Exists(db, k2)
    ensures Exists(Apply(db, ZRem(k, fs)), k2) == Exists(db, k2)
  {
  }

  /** RENAME of an existing key moves everything it holds to the new name. */
  lemma RenameMoves(db: Db, k: string, d: string)
    requires Exists(db, k) && k != d
    ensures At(Apply(db, Rename(k, d)), d) == At(db, k)
    ensures !Exists(Apply(db, Rename(k, d)), k)
  {
  }

  lemma SetIs(db: Db, k: string, v: string)
    ensures Apply(db, Set(k, v)) == RemoveKeys(db, {k}).(strs := RemoveKeys(db, {k}).strs[k := v])
  { }

  /** SET replaces whatever the key held with a string. */
  lemma SetStores(db: Db, k: string, v: string)
    ensures Get(Apply(db, Set(k, v)), k) == Some(v)
    ensures ZSetOf(Apply(db, Set(k, v)), k) == map[]
  {
  }

  lemma LPushIs(db: Db, k: string, v: string)
    ensures Apply(db, LPush(k, v)) == db.(lists := db.lists[k := [v] + ListOf(db, k)])
  {
  }

  /** ZREMRANGEBYRANK keeps exactly the members whose rank falls outside the window. */
  lemma WithoutRanksKeeps(z: map<string, int>, a: int, b: int, m: string)
    ensures var w := Window(|z|, a, b);
            m in WithoutRanks(z, a, b) <==> m in z && !(w.0 <= RankIn(z, m) < w.1)
  {
    var o := Ordered(z);
    OrderedDistinct(z);
    var w := Window(|o|, a, b);
    var gone := set i | w.0 <= i < w.1 :: o[i];
    if m in z {
      var j := RankIn(z, m);
      if m in gone {
        var i :| w.0 <= i < w.1 && o[i] == m;
        assert i == j;
      }
    }
  }

  // ----- the connection -----

  /** One client connection's view of the server: the keyspace, updated in place. */
  class Store {
    var strs: map<string, string>
    var sets: map<string, set<string>>
    var hashes: map<string, map<string, string>>
    var zsets: map<string, map<string, int>>
    var lists: map<string, seq<string>>

    constructor ()
      ensures State() == Empty
    {
      strs, sets, hashes, zsets, lists := map[], map[], map[], map[], map[];
    }

    function State(): Db
      reads this
    {
      Db(strs, sets, hashes, zsets, lists)
    }

    method Load(d: Db)
      modifies this
      ensures State() == d
    {
      strs, sets, hashes, zsets, lists := d.strs, d.sets, d.hashes, d.zsets, d.lists;
    }

    /** One awaited command; `ok` is false when the server refused it. */
    method Run(c: Cmd) returns (ok: bool)
      modifies this
      ensures ok == !Fails(old(State()), c)
      ensures State() == Apply(old(State()), c)
    {
      ok := !Fails(State(), c);
      Load(Apply(State(), c));
    }

    /** INCR with its reply. */
    method Incr(k: string) returns (r: Result<int>)
      modifies this
      ensures State() == Apply(old(State()), Cmd.Incr(k))
      ensures Fails(old(State()), Cmd.Incr(k)) ==> r == Err(NotAnInteger)
      ensures !Fails(old(State()), Cmd.Incr(k)) ==>
        r == Ok(Counter(Get(old(State()), k)).value + 1)
    {
      var c := Counter(Get(State(), k));
      Load(Apply(State(), Cmd.Incr(k)));
      r := if c.None? then Err(NotAnInteger) else Ok(c.value + 1);
    }

    /** EXEC after WATCH. `conflict` says whether another client wrote a watched key
        since the WATCH; then the server discards the batch and replies nil. */
    method Exec(batch: seq<Cmd>, conflict: bool) returns (committed: bool)
      modifies this
      ensures committed == !conflict
      ensures State() == if conflict then old(State()) else ApplyAll(old(State()), batch)
    {
      committed := !conflict;
      if committed {
        Load(ApplyAll(State(), batch));
      }
    }

    /** A pipeline's `all()`: every command runs; `ok` is false if any was refused. */
    method Pipeline(batch: seq<Cmd>) returns (ok: bool)
      modifies this
      ensures ok == AllSucceed(old(State()), batch)
      ensures State() == ApplyAll(old(State()), batch)
    {
      ok := AllSucceed(State(), batch);
      Load(ApplyAll(State(), batch));
    }
  }
}
