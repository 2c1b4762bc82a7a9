/** Counters sampled in time slices of several widths: every update adds to the slice
    that holds `now` at each width, and a read returns one width's samples, oldest
    first. */
module Counters {
  import opened Wrappers
  import opened Decimals
  import opened Redis

  /** The slice widths in seconds: a second, five seconds, a minute, five minutes, an
      hour, five hours and a day. */
  const PRECISION: seq<int> := [1, 5, 60, 300, 3600, 18000, 86400]

  /** The sorted set that lists every counter, so that a cleaner can find them. */
  const KnownKey := "known:"

  /** Rust's `/` on `i64`: the quotient truncated toward zero. */
  function TruncDiv(a: int, b: int): int
    requires b > 0
  {
    if a >= 0 then a / b else -((-a) / b)
  }

  /** The start of the slice of width `prec` that holds `now`. */
  function SliceStart(now: int, prec: int): int
    requires prec > 0
  {
    TruncDiv(now, prec) * prec
  }

  /** `{prec}:{name}`: the counter's name at one width. */
  function CounterHash(prec: int, name: string): string { Decimal(prec) + ":" + name }

  /** `count:{prec}:{name}`: the hash from slice start to count. */
  function CountKey(prec: int, name: string): string { "count:" + CounterHash(prec, name) }

  predicate Positive(precs: seq<int>) { forall i :: 0 <= i < |precs| ==> precs[i] > 0 }

  predicate Distinct(precs: seq<int>) { forall i, j :: 0 <= i < j < |precs| ==> precs[i] != precs[j] }

  /** The two writes queued for one width: list the counter in `known:` with score 0,
      and add `count` to the field of the current slice. */
  function PrecCmds(name: string, count: int, now: int, prec: int): seq<Cmd>
    requires prec > 0
  {
    [ ZAdd(KnownKey, CounterHash(prec, name), 0),
      HIncrBy(CountKey(prec, name), Decimal(SliceStart(now, prec)), count) ]
  }

  /** The pipeline `update_counter` queues for the widths `precs`, in their order. */
  function UpdateCmds(name: string, count: int, now: int, precs: seq<int>): seq<Cmd>
    requires Positive(precs)
    decreases |precs|
  {
    if precs == [] then []
    else UpdateCmds(name, count, now, precs[..|precs| - 1]) + PrecCmds(name, count, now, precs[|precs| - 1])
  }

  /** `update_counter`: one pipeline over all seven widths. The pipeline reports an
      error when one of its HINCRBYs was refused; the others still ran. */
  method UpdateCounter(store: Store, name: string, count: int, now: int) returns (r: Result<()>)
    modifies store
    ensures store.State() == ApplyAll(old(store.State()), UpdateCmds(name, count, now, PRECISION))
    ensures r == if AllSucceed(old(store.State()), UpdateCmds(name, count, now, PRECISION)) then Ok(())
                 else Err(NotAnInteger)
  {
    var batch: seq<Cmd> := [];
    PrecisionShape();
    for i := 0 to |PRECISION|
      invariant batch == UpdateCmds(name, count, now, PRECISION[..i])
      invariant store.State() == old(store.State())
    {
      var prec := PRECISION[i];
      var pnow := TruncDiv(now, prec) * prec;
      var hash := CounterHash(prec, name);
      batch := batch + [ZAdd(KnownKey, hash, 0), HIncrBy("count:" + hash, Decimal(pnow), count)];
      UpdateCmdsStep(name, count, now, PRECISION, i);
    }
    assert PRECISION[..|PRECISION|] == PRECISION;
    var ok := store.Pipeline(batch);
    r := if ok then Ok(()) else Err(NotAnInteger);
  }

  /** One more width queued. */
  lemma UpdateCmdsStep(name: string, count: int, now: int, precs: seq<int>, i: nat)
    requires Positive(precs) && i < |precs|
    ensures UpdateCmds(name, count, now, precs[..i + 1])
         == UpdateCmds(name, count, now, precs[..i]) + PrecCmds(name, count, now, precs[i])
  {
    assert precs[..i + 1][..i] == precs[..i];
  }

  // ----- the slice arithmetic -----

  /** The slice start is a multiple of the width. From a non-negative `now` it is the
      largest such multiple not above `now`; from a negative one, truncation rounds up
      instead, to the smallest multiple not below `now`. */
  lemma SliceStartBounds(now: int, prec: int)
    requires prec in PRECISION
    ensures SliceStart(now, prec) % prec == 0
    ensures now >= 0 ==> 0 <= SliceStart(now, prec) <= now < SliceStart(now, prec) + prec
    ensures now < 0 ==> SliceStart(now, prec) - prec < now <= SliceStart(now, prec) <= 0
  {
    if prec <= 60 { SliceShort(now, prec); } else { SliceLong(now, prec); }
  }

  // With the width a literal the arithmetic is linear; the two halves keep each proof small.

  lemma SliceShort(now: int, prec: int)
    requires prec in [1, 5, 60]
    ensures SliceStart(now, prec) % prec == 0
    ensures now >= 0 ==> 0 <= SliceStart(now, prec) <= now < SliceStart(now, prec) + prec
    ensures now < 0 ==> SliceStart(now, prec) - prec < now <= SliceStart(now, prec) <= 0
  {
    var q := TruncDiv(now, prec);
    if prec == 1 { assert SliceStart(now, 1) == q * 1; }
    else if prec == 5 { assert SliceStart(now, 5) == q * 5; }
    else { assert SliceStart(now, 60) == q * 60; }
  }

  lemma SliceLong(now: int, prec: int)
    requires prec in [300, 3600, 18000, 86400]
    ensures SliceStart(now, prec) % prec == 0
    ensures now >= 0 ==> 0 <= SliceStart(now, prec) <= now < SliceStart(now, prec) + prec
    ensures now < 0 ==> SliceStart(now, prec) - prec < now <= SliceStart(now, prec) <= 0
  {
    var q := TruncDiv(now, prec);
    if prec == 300 { assert SliceStart(now, 300) == q * 300; }
    else if prec == 3600 { assert SliceStart(now, 3600) == q * 3600; }
    else if prec == 18000 { assert SliceStart(now, 18000) == q * 18000; }
    else { assert SliceStart(now, 86400) == q * 86400; }
  }

  // ----- the keys -----

  /** No decimal contains `:`, so the counter's keys of two widths differ. */
  lemma CountKeyInjective(p: int, q: int, name: string)
    requires CountKey(p, name) == CountKey(q, name)
    ensures p == q
  {
    var a, b := Decimal(p), Decimal(q);
    var h := CounterHash(p, name);
    assert h == CountKey(p, name)[6..] == CounterHash(q, name);
    assert |a| == |b|;
    assert a == h[..|a|] == b;
    DecimalInjective(p, q);
  }

  lemma KnownNotCount(p: int, name: string)
    ensures KnownKey != CountKey(p, name)
  {
    assert KnownKey[0] == 'k' && CountKey(p, name)[0] == 'c';
  }

  lemma PrecisionShape()
    ensures Positive(PRECISION) && Distinct(PRECISION)
  {
  }

  // ----- what an update does -----

  /** The hash `count:{q}:{name}` after the two writes of width `p`. */
  lemma PrecCmdsHash(db: Db, name: string, count: int, now: int, p: int, q: int)
    requires p > 0 && q > 0
    ensures var key, slot := CountKey(q, name), Decimal(SliceStart(now, q));
            HashOf(ApplyAll(db, PrecCmds(name, count, now, p)), key) ==
              if p != q || Counter(HGet(db, key, slot)).None? then HashOf(db, key)
              else HashOf(db, key)[slot := Decimal(Counter(HGet(db, key, slot)).value + count)]
  {
    var key, slot := CountKey(q, name), Decimal(SliceStart(now, q));
    var c0 := ZAdd(KnownKey, CounterHash(p, name), 0);
    var c1 := HIncrBy(CountKey(p, name), Decimal(SliceStart(now, p)), count);
    var d1 := Apply(db, c0);
    ApplyAllTwo(db, c0, c1);
    ZAddKeeps(db, KnownKey, CounterHash(p, name), 0);
    HGetOfHashes(d1, db, key, slot);
    assert HashOf(d1, key) == HashOf(db, key);
    HIncrByHash(d1, CountKey(p, name), Decimal(SliceStart(now, p)), count, key);
    if p != q && CountKey(p, name) == key {
      CountKeyInjective(p, q, name);
    }
  }

  /** An update over widths that exclude `q` leaves `count:{q}:{name}` alone. */
  lemma {:induction false} UpdateSkipsHash(db: Db, name: string, count: int, now: int, precs: seq<int>, q: int)
    requires Positive(precs) && q > 0 && q !in precs
    ensures HashOf(ApplyAll(db, UpdateCmds(name, count, now, precs)), CountKey(q, name)) == HashOf(db, CountKey(q, name))
    decreases |precs|
  {
    if precs != [] {
      var init, last := precs[..|precs| - 1], precs[|precs| - 1];
      ApplyAllConcat(db, UpdateCmds(name, count, now, init), PrecCmds(name, count, now, last));
      UpdateSkipsHash(db, name, count, now, init, q);
      PrecCmdsHash(ApplyAll(db, UpdateCmds(name, count, now, init)), name, count, now, last, q);
    }
  }

  /** The hash of width `q` after an update over distinct widths that include `q`: the
      field of the current slice grows by `count`, every other field is kept. A field
      that does not read as an integer makes its HINCRBY fail, and the hash stays. */
  lemma {:induction false} UpdateCountHash(db: Db, name: string, count: int, now: int, precs: seq<int>, q: int)
    requires Positive(precs) && Distinct(precs) && q in precs
    ensures var key, slot := CountKey(q, name), Decimal(SliceStart(now, q));
            HashOf(ApplyAll(db, UpdateCmds(name, count, now, precs)), key) ==
              if Counter(HGet(db, key, slot)).None? then HashOf(db, key)
              else HashOf(db, key)[slot := Decimal(Counter(HGet(db, key, slot)).value + count)]
    decreases |precs|
  {
    var init, last := precs[..|precs| - 1], precs[|precs| - 1];
    var mid := ApplyAll(db, UpdateCmds(name, count, now, init));
    ApplyAllConcat(db, UpdateCmds(name, count, now, init), PrecCmds(name, count, now, last));
    PrecCmdsHash(mid, name, count, now, last, q);
    if last == q {
      assert q !in init;
      UpdateSkipsHash(db, name, count, now, init, q);
    } else {
      assert q in init;
      UpdateCountHash(db, name, count, now, init, q);
    }
  }

  /** `update_counter` at each of the seven widths: the current slice's field of
      `count:{prec}:{name}` grows by `count`, or stays as it was when it does not read
      as an integer, and the other fields stay. */
  lemma UpdateCounterCounts(db: Db, name: string, count: int, now: int, prec: int)
    requires prec in PRECISION
    ensures var key, slot := CountKey(prec, name), Decimal(SliceStart(now, prec));
            var after := ApplyAll(db, UpdateCmds(name, count, now, PRECISION));
            && (Counter(HGet(db, key, slot)).Some? ==>
                 HGet(after, key, slot) == Some(Decimal(Counter(HGet(db, key, slot)).value + count)))
            && (Counter(HGet(db, key, slot)).None? ==> HGet(after, key, slot) == HGet(db, key, slot))
            && (forall f :: f != slot ==> HGet(after, key, f) == HGet(db, key, f))
  {
    PrecisionShape();
    UpdateCountHash(db, name, count, now, PRECISION, prec);
  }

  /** The names `{prec}:{name}` of the counter at the widths `precs`. */
  function KnownHashes(name: string, precs: seq<int>): set<string> {
    set p | p in precs :: CounterHash(p, name)
  }

  /** `known:` after an update: each of the counter's names is listed with score 0, and
      every other entry keeps its score. */
  lemma {:induction false} UpdateKnown(db: Db, name: string, count: int, now: int, precs: seq<int>, m: string)
    requires Positive(precs)
    ensures ZScore(ApplyAll(db, UpdateCmds(name, count, now, precs)), KnownKey, m)
         == if m in KnownHashes(name, precs) then Some(0) else ZScore(db, KnownKey, m)
    decreases |precs|
  {
    if precs != [] {
      var init, last := precs[..|precs| - 1], precs[|precs| - 1];
      ApplyAllConcat(db, UpdateCmds(name, count, now, init), PrecCmds(name, count, now, last));
      PrecCmdsKnown(ApplyAll(db, UpdateCmds(name, count, now, init)), name, count, now, last, m);
      UpdateKnown(db, name, count, now, init, m);
      KnownHashesStep(name, precs);
    }
  }

  /** `known:` after the two writes of one width. */
  lemma PrecCmdsKnown(db: Db, name: string, count: int, now: int, p: int, m: string)
    requires p > 0
    ensures ZScore(ApplyAll(db, PrecCmds(name, count, now, p)), KnownKey, m)
         == if m == CounterHash(p, name) then Some(0) else ZScore(db, KnownKey, m)
  {
    var c0 := ZAdd(KnownKey, CounterHash(p, name), 0);
    var c1 := HIncrBy(CountKey(p, name), Decimal(SliceStart(now, p)), count);
    ApplyAllTwo(db, c0, c1);
    HIncrByKeeps(Apply(db, c0), CountKey(p, name), Decimal(SliceStart(now, p)), count);
    ZScoreOfZSets(Apply(Apply(db, c0), c1), Apply(db, c0), KnownKey, m);
  }

  lemma KnownHashesStep(name: string, precs: seq<int>)
    requires precs != []
    ensures KnownHashes(name, precs) == KnownHashes(name, precs[..|precs| - 1]) + {CounterHash(precs[|precs| - 1], name)}
  {
    assert precs == precs[..|precs| - 1] + [precs[|precs| - 1]];
  }

  /** After `update_counter`, `known:` lists `{prec}:{name}` with score 0 for each of
      the seven widths, and keeps every other entry and its score. */
  lemma UpdateCounterKnown(db: Db, name: string, count: int, now: int, m: string)
    ensures var after := ApplyAll(db, UpdateCmds(name, count, now, PRECISION));
            ZScore(after, KnownKey, m) == if m in KnownHashes(name, PRECISION) then Some(0) else ZScore(db, KnownKey, m)
  {
    PrecisionShape();
    UpdateKnown(db, name, count, now, PRECISION, m);
  }

  /** A second update of the same counter, at any time and by any count, leaves
      `known:` as the first one left it: listing a name again adds nothing. */
  lemma UpdateKnownStable(db: Db, name: string, c1: int, t1: int, c2: int, t2: int)
    ensures var once := ApplyAll(db, UpdateCmds(name, c1, t1, PRECISION));
            ZSetOf(ApplyAll(once, UpdateCmds(name, c2, t2, PRECISION)), KnownKey) == ZSetOf(once, KnownKey)
  {
    var once := ApplyAll(db, UpdateCmds(name, c1, t1, PRECISION));
    var twice := ApplyAll(once, UpdateCmds(name, c2, t2, PRECISION));
    forall m ensures ZScore(twice, KnownKey, m) == ZScore(once, KnownKey, m) {
      UpdateCounterKnown(db, name, c1, t1, m);
      UpdateCounterKnown(once, name, c2, t2, m);
    }
    assert ZSetOf(twice, KnownKey) == ZSetOf(once, KnownKey) by {
      forall m ensures m in ZSetOf(twice, KnownKey) <==> m in ZSetOf(once, KnownKey) {
        assert ZScore(twice, KnownKey, m) == ZScore(once, KnownKey, m);
      }
      forall m | m in ZSetOf(twice, KnownKey) ensures ZSetOf(twice, KnownKey)[m] == ZSetOf(once, KnownKey)[m] {
        assert ZScore(twice, KnownKey, m) == ZScore(once, KnownKey, m);
      }
    }
  }

  /** The two writes of one width change no key but `known:` and that width's hash. */
  lemma PrecCmdsFrame(db: Db, name: string, count: int, now: int, p: int, k: string)
    requires p > 0 && k != KnownKey && k != CountKey(p, name)
    ensures At(ApplyAll(db, PrecCmds(name, count, now, p)), k) == At(db, k)
  {
    var c0 := ZAdd(KnownKey, CounterHash(p, name), 0);
    var c1 := HIncrBy(CountKey(p, name), Decimal(SliceStart(now, p)), count);
    ApplyAllTwo(db, c0, c1);
    Frame(db, c0, k);
    Frame(Apply(db, c0), c1, k);
  }

  /** An update changes no key but `known:` and the counter's hashes. */
  lemma {:induction false} UpdateFrame(db: Db, name: string, count: int, now: int, precs: seq<int>, k: string)
    requires Positive(precs)
    requires k != KnownKey && forall p :: p in precs ==> k != CountKey(p, name)
    ensures At(ApplyAll(db, UpdateCmds(name, count, now, precs)), k) == At(db, k)
    decreases |precs|
  {
    if precs != [] {
      var init, last := precs[..|precs| - 1], precs[|precs| - 1];
      ApplyAllConcat(db, UpdateCmds(name, count, now, init), PrecCmds(name, count, now, last));
      UpdateFrame(db, name, count, now, init, k);
      PrecCmdsFrame(ApplyAll(db, UpdateCmds(name, count, now, init)), name, count, now, last, k);
    }
  }

  /** `update_counter` touches `known:` and `count:{prec}:{name}` for the seven widths,
      and nothing else. */
  lemma UpdateCounterFrame(db: Db, name: string, count: int, now: int, k: string)
    requires k != KnownKey && forall p :: p in PRECISION ==> k != CountKey(p, name)
    ensures At(ApplyAll(db, UpdateCmds(name, count, now, PRECISION)), k) == At(db, k)
  {
    UpdateFrame(db, name, count, now, PRECISION, k);
  }

  // ----- reading a counter back -----

  /** Rust's order on `(i64, i64)` tuples: by the first component, then the second. */
  predicate PairLe(a: (int, int), b: (int, int)) {
    a.0 < b.0 || (a.0 == b.0 && a.1 <= b.1)
  }

  predicate SortedSamples(s: seq<(int, int)>) {
    forall i, j :: 0 <= i < j < |s| ==> PairLe(s[i], s[j])
  }

  /** Every field and value of the hash reads as an integer, as the conversion of the
      HGETALL reply to `Vec<(i64, i64)>` needs. */
  predicate SamplesReadable(h: map<string, string>) {
    forall f :: f in h ==> ParseInt(f).Some? && ParseInt(h[f]).Some?
  }

  function Sample(h: map<string, string>, f: string): Option<(int, int)>
    requires f in h
  {
    if ParseInt(f).Some? && ParseInt(h[f]).Some? then Some((ParseInt(f).value, ParseInt(h[f]).value)) else None
  }

  /** The (slice start, count) pairs the hash holds. */
  ghost function Samples(h: map<string, string>): set<(int, int)> {
    set f | f in h && Sample(h, f).Some? :: Sample(h, f).value
  }

  /** Positions `0..hi` of `s` are in order except for the one at `j`, which is no
      greater than anything after it: the state of insertion while `s[j]` moves down. */
  predicate Inserting(s: seq<(int, int)>, hi: int, j: int)
    requires 0 <= j <= hi < |s|
  {
    && (forall k, l :: 0 <= k < l <= hi && k != j && l != j ==> PairLe(s[k], s[l]))
    && (forall l :: j < l <= hi ==> PairLe(s[j], s[l]))
  }

  lemma InsertStart(s: seq<(int, int)>, i: int)
    requires 0 <= i < |s| && SortedSamples(s[..i])
    ensures Inserting(s, i, i)
  {
    forall k, l | 0 <= k < l <= i && k != i && l != i ensures PairLe(s[k], s[l]) {
      assert s[k] == s[..i][k] && s[l] == s[..i][l];
    }
  }

  lemma InsertSwap(s: seq<(int, int)>, hi: int, j: int)
    requires 0 < j <= hi < |s| && Inserting(s, hi, j) && !PairLe(s[j - 1], s[j])
    ensures Inserting(s[j - 1 := s[j]][j := s[j - 1]], hi, j - 1)
  {
  }

  lemma InsertDone(s: seq<(int, int)>, hi: int, j: int)
    requires 0 <= j <= hi < |s| && Inserting(s, hi, j) && (j == 0 || PairLe(s[j - 1], s[j]))
    ensures SortedSamples(s[..hi + 1])
  {
    forall k, l | 0 <= k < l <= hi ensures PairLe(s[k], s[l]) {
      if l == j && k < j - 1 {
        assert PairLe(s[k], s[j - 1]);
      }
    }
  }

  /** `data.sort()`: an insertion sort in place. */
  method SortSamples(a: array<(int, int)>)
    modifies a
    ensures SortedSamples(a[..])
    ensures multiset(a[..]) == multiset(old(a[..]))
  {
    for i := 0 to a.Length
      invariant SortedSamples(a[..i])
      invariant multiset(a[..]) == multiset(old(a[..]))
    {
      Insert(a, i);
    }
    assert a[..a.Length] == a[..];
  }

  /** Moves `a[i]` down into the sorted run before it. */
  method Insert(a: array<(int, int)>, i: int)
    requires 0 <= i < a.Length && SortedSamples(a[..i])
    modifies a
    ensures SortedSamples(a[..i + 1])
    ensures multiset(a[..]) == multiset(old(a[..]))
  {
    var j := i;
    InsertStart(a[..], i);
    while j > 0 && !PairLe(a[j - 1], a[j])
      invariant 0 <= j <= i
      invariant multiset(a[..]) == multiset(old(a[..]))
      invariant Inserting(a[..], i, j)
    {
      InsertSwap(a[..], i, j);
      a[j - 1], a[j] := a[j], a[j - 1];
      j := j - 1;
    }
    InsertDone(a[..], i, j);
  }

  /** The HGETALL reply converted to `Vec<(i64, i64)>`, in whatever order the hash
      lists its fields; `None` when a field or value is not an integer. */
  method ReadSamples(h: map<string, string>) returns (r: Option<seq<(int, int)>>)
    ensures r.Some? <==> SamplesReadable(h)
    ensures r.Some? ==> |r.value| == |h| && forall x :: x in r.value <==> x in Samples(h)
  {
    var data: seq<(int, int)> := [];
    var rest := h.Keys;
    ghost var order: seq<string> := [];
    while rest != {}
      invariant rest <= h.Keys
      invariant |data| == |order| && |order| + |rest| == |h.Keys|
      invariant forall i :: 0 <= i < |order| ==> order[i] in h && order[i] !in rest && Sample(h, order[i]) == Some(data[i])
      invariant forall f :: f in h && f !in rest ==> f in order
      decreases |rest|
    {
      var f :| f in rest;
      if Sample(h, f).None? {
        return None;
      }
      data := data + [Sample(h, f).value];
      order := order + [f];
      rest := rest - {f};
    }
    assert SamplesReadable(h) by {
      forall f | f in h ensures ParseInt(f).Some? && ParseInt(h[f]).Some? {
        var i :| 0 <= i < |order| && order[i] == f;
      }
    }
    forall x | x in Samples(h) ensures x in data {
      var f :| f in h && Sample(h, f) == Some(x);
      var i :| 0 <= i < |order| && order[i] == f;
    }
    r := Some(data);
  }

  /** `get_counter`: the samples of one width, oldest slice first; a field or value
      that does not read as an integer makes the read fail. */
  method GetCounter(store: Store, name: string, prec: int) returns (r: Result<seq<(int, int)>>)
    ensures var h := HashOf(store.State(), CountKey(prec, name));
            && (r.Ok? <==> SamplesReadable(h))
            && (r.Err? ==> r.error == NotAnInteger)
            && (r.Ok? ==> && SortedSamples(r.value)
                          && |r.value| == |h|
                          && forall x :: x in r.value <==> x in Samples(h))
  {
    var read := ReadSamples(HashOf(store.State(), CountKey(prec, name)));
    if read.None? {
      return Err(NotAnInteger);
    }
    var data := read.value;
    var a := new (int, int)[|data|](i requires 0 <= i < |data| => data[i]);
    assert a[..] == data;
    SortSamples(a);
    assert forall x :: x in a[..] <==> x in multiset(a[..]);
    r := Ok(a[..]);
  }
}
