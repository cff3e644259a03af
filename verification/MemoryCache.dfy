/** `rann_agent/cache/memory.py` and `backend.py`. The bounded in-memory cache, against an ideal
    map that never runs out of room. */
module Cache {
  import opened Prelude

  type Key = string
  type Value = string
  type Time = int

  /** `(value, expires_at)`; a stored value may itself be Python's None. */
  datatype Entry = Entry(value: Option<Value>, deadline: Option<Time>)

  predicate IsExpired(e: Entry, now: Time) {
    e.deadline.Some? && now > e.deadline.value
  }

  function MakeEntry(value: Option<Value>, ttl: Option<int>, now: Time): Entry {
    Entry(value, if ttl.None? then None else Some(now + ttl.value))
  }

  /** `_get_value(self._store.get(key))` */
  function GetValue(store: map<Key, Entry>, k: Key, now: Time): Option<Value> {
    if k !in store || IsExpired(store[k], now) then None else store[k].value
  }

  type Store = Dict<Key, Entry>

  function Size(d: Store): nat {
    |d.keys|
  }

  // ----- what each operation leaves -----

  function Stale(d: Store, now: Time): seq<Key> {
    Filter(d.keys, k => k in d.at && IsExpired(d.at[k], now))
  }

  function PopAll(d: Store, ks: seq<Key>): Store
    decreases ks
  {
    if ks == [] then d else PopAll(d.Pop(ks[0]), ks[1..])
  }

  predicate Full(d: Store, maxSize: int, k: Key) {
    Size(d) >= maxSize && k !in d.at
  }

  /** The store after `_evict_stale(1)`. */
  function EvictedStale(d: Store, now: Time): Store {
    var stale := Stale(d, now);
    if stale == [] then d else d.Pop(stale[0])
  }

  /** `max(1, max_size // 10)` */
  function Batch(maxSize: int): int {
    Max(1, maxSize / 10)
  }

  /** The oldest-first loop is reached. */
  predicate Overflows(d: Store, maxSize: int, k: Key, now: Time) {
    Full(d, maxSize, k) && Size(EvictedStale(d, now)) >= maxSize
  }

  function Room(d: Store, maxSize: int, k: Key, now: Time): Store {
    if !Full(d, maxSize, k) then d
    else if !Overflows(d, maxSize, k, now) then EvictedStale(d, now)
    else
      var e := EvictedStale(d, now);
      PopAll(e, e.keys[..Min(Batch(maxSize), |e.keys|)])
  }

  function SetTo(d: Store, maxSize: int, k: Key, e: Entry, now: Time): Store {
    Room(d, maxSize, k, now).Put(k, e)
  }

  function GotFrom(d: Store, k: Key, now: Time): Store {
    if k in d.at && GetValue(d.at, k, now).None? then d.Pop(k) else d
  }

  function Checked(d: Store, k: Key, now: Time): Store {
    if k in d.at && IsExpired(d.at[k], now) then d.Pop(k) else d
  }

  lemma {:induction false} PopAllValid(d: Store, ks: seq<Key>)
    requires d.Valid()
    ensures PopAll(d, ks).Valid()
    ensures forall k :: k in PopAll(d, ks).at <==> k in d.at && k !in ks
    ensures forall k :: k in PopAll(d, ks).at ==> PopAll(d, ks).at[k] == d.at[k]
    decreases ks
  {
    if ks != [] {
      PopValid(d, ks[0]);
      PopAllValid(d.Pop(ks[0]), ks[1..]);
      assert ks == [ks[0]] + ks[1..];
    }
  }

  /** Popping the first keys of a dict leaves exactly the later ones, in order. */
  lemma {:induction false} PopPrefix(d: Store, n: nat)
    requires d.Valid() && n <= |d.keys|
    ensures PopAll(d, d.keys[..n]).keys == d.keys[n..]
    decreases n
  {
    if n > 0 {
      PopValid(d, d.keys[0]);
      assert d.Pop(d.keys[0]).keys == d.keys[1..];
      assert d.keys[..n][1..] == d.keys[1..][..n - 1];
      PopPrefix(d.Pop(d.keys[0]), n - 1);
    }
  }

  lemma StaleAreKeys(d: Store, now: Time)
    requires d.Valid()
    ensures forall k :: k in Stale(d, now) <==> k in d.at && IsExpired(d.at[k], now)
    ensures EvictedStale(d, now).Valid()
    ensures Size(EvictedStale(d, now)) == if Stale(d, now) == [] then Size(d) else Size(d) - 1
  {
    if Stale(d, now) != [] {
      var k := Stale(d, now)[0];
      PopValid(d, k);
      assert k in Stale(d, now);
      RemoveLength(d.keys, k);
    }
  }

  lemma StaleNoDup(d: Store, now: Time)
    requires d.Valid()
    ensures NoDup(Stale(d, now))
  {
    FilterNoDup(d.keys, k => k in d.at && IsExpired(d.at[k], now));
  }

  lemma RoomValid(d: Store, maxSize: int, k: Key, now: Time)
    requires d.Valid()
    ensures Room(d, maxSize, k, now).Valid()
    ensures forall j :: j in Room(d, maxSize, k, now).at ==> j in d.at && Room(d, maxSize, k, now).at[j] == d.at[j]
  {
    StaleAreKeys(d, now);
    var e := EvictedStale(d, now);
    PopAllValid(e, e.keys[..Min(Batch(maxSize), |e.keys|)]);
  }

  /** The oldest-first loop removes exactly the first keys in insertion order, at least one and a
      tenth of the capacity, after the one stale entry if there was any. */
  lemma OldestFirst(d: Store, maxSize: int, k: Key, e: Entry, now: Time)
    requires d.Valid() && Overflows(d, maxSize, k, now)
    ensures var kept := EvictedStale(d, now).keys;
            SetTo(d, maxSize, k, e, now).keys == kept[Min(if maxSize < 20 then 1 else maxSize / 10, |kept|)..] + [k]
  {
    StaleAreKeys(d, now);
    var s := EvictedStale(d, now);
    PopPrefix(s, Min(Batch(maxSize), |s.keys|));
    RoomValid(d, maxSize, k, now);
    assert k !in Room(d, maxSize, k, now).at;
  }

  /** Within capacity the oldest-first loop is reached exactly when the store is full, the key is
      new and nothing in the store has expired. */
  lemma OverflowIff(d: Store, maxSize: int, k: Key, now: Time)
    requires d.Valid() && Size(d) <= maxSize
    ensures Overflows(d, maxSize, k, now) <==>
            Size(d) == maxSize && k !in d.at && forall j :: j in d.at ==> !IsExpired(d.at[j], now)
  {
    StaleAreKeys(d, now);
    if Stale(d, now) != [] {
      assert Stale(d, now)[0] in Stale(d, now);
    }
  }

  /** The store never grows past its capacity (past one entry, if the capacity is below one). */
  lemma SetWithinCapacity(d: Store, maxSize: int, k: Key, e: Entry, now: Time)
    requires d.Valid() && Size(d) <= Max(1, maxSize)
    ensures Size(SetTo(d, maxSize, k, e, now)) <= Max(1, maxSize)
  {
    StaleAreKeys(d, now);
    if k in d.at {
    } else if Overflows(d, maxSize, k, now) {
      OldestFirst(d, maxSize, k, e, now);
    } else {
      RoomValid(d, maxSize, k, now);
    }
  }

  // ----- whole runs against the ideal map -----

  datatype Op =
    | Set(k: Key, v: Option<Value>, ttl: Option<int>)
    | Delete(k: Key)
    | Clear
    | Get(k: Key)
    | Exists(k: Key)

  datatype Timed = Timed(now: Time, op: Op)

  function Apply(d: Store, maxSize: int, now: Time, op: Op): Store {
    match op
    case Set(k, v, ttl) => SetTo(d, maxSize, k, MakeEntry(v, ttl, now), now)
    case Delete(k) => d.Pop(k)
    case Clear => Dict([], map[])
    case Get(k) => GotFrom(d, k, now)
    case Exists(k) => Checked(d, k, now)
  }

  lemma ApplyValid(d: Store, maxSize: int, now: Time, op: Op)
    requires d.Valid()
    ensures Apply(d, maxSize, now, op).Valid()
  {
    match op {
      case Set(k, v, ttl) =>
        RoomValid(d, maxSize, k, now);
        PutValid(Room(d, maxSize, k, now), k, MakeEntry(v, ttl, now));
      case Delete(k) => PopValid(d, k);
      case Clear =>
      case Get(k) => PopValid(d, k);
      case Exists(k) => PopValid(d, k);
    }
  }

  /** The last set of each key since its last delete or the last clear; nothing ever leaves. */
  function Ideal(history: seq<Timed>): map<Key, Entry> {
    if history == [] then map[]
    else
      var before := Ideal(history[..|history| - 1]);
      var last := history[|history| - 1];
      match last.op
      case Set(k, v, ttl) => before[k := MakeEntry(v, ttl, last.now)]
      case Delete(k) => before - {k}
      case Clear => map[]
      case Get(_) => before
      case Exists(_) => before
  }

  /** The store a run leaves, from an empty one. */
  function After(maxSize: int, history: seq<Timed>): Store {
    if history == [] then Dict([], map[])
    else
      var last := history[|history| - 1];
      Apply(After(maxSize, history[..|history| - 1]), maxSize, last.now, last.op)
  }

  ghost predicate ClockRises(history: seq<Timed>) {
    forall i :: 0 < i < |history| ==> history[i - 1].now <= history[i].now
  }

  /** No set of the run reached the oldest-first loop. */
  predicate NeverOverflowed(maxSize: int, history: seq<Timed>) {
    history == [] ||
    (var before, last := history[..|history| - 1], history[|history| - 1];
     NeverOverflowed(maxSize, before) &&
     (last.op.Set? ==> !Overflows(After(maxSize, before), maxSize, last.op.k, last.now)))
  }

  lemma {:induction false} AfterValid(maxSize: int, history: seq<Timed>)
    ensures After(maxSize, history).Valid()
    ensures Size(After(maxSize, history)) <= Max(1, maxSize)
  {
    if history != [] {
      var before, last := history[..|history| - 1], history[|history| - 1];
      AfterValid(maxSize, before);
      ApplyValid(After(maxSize, before), maxSize, last.now, last.op);
      ApplySize(After(maxSize, before), maxSize, last.now, last.op);
    }
  }

  /** Asking for a key drops what cannot be given: a get leaves it stored exactly when it gave a value,
      and exists when it found it. */
  lemma AskingPrunes(d: Store, maxSize: int, k: Key, now: Time)
    requires d.Valid()
    ensures k in Apply(d, maxSize, now, Get(k)).at <==> GetValue(d.at, k, now).Some?
    ensures k in Apply(d, maxSize, now, Exists(k)).at <==> Present(d.at, k, now)
  {
    PopValid(d, k);
  }

  lemma PopSize(d: Store, k: Key)
    ensures Size(d.Pop(k)) <= Size(d)
  {
    RemoveLength(d.keys, k);
  }

  lemma ApplySize(d: Store, maxSize: int, now: Time, op: Op)
    requires d.Valid() && Size(d) <= Max(1, maxSize)
    ensures Size(Apply(d, maxSize, now, op)) <= Max(1, maxSize)
  {
    match op {
      case Set(k, v, ttl) => SetWithinCapacity(d, maxSize, k, MakeEntry(v, ttl, now), now);
      case Delete(k) => PopSize(d, k);
      case Clear =>
      case Get(k) => PopSize(d, k);
      case Exists(k) => PopSize(d, k);
    }
  }

  /** What the store holds is what the ideal map holds. */
  lemma {:induction false} StoreWithinIdeal(maxSize: int, history: seq<Timed>)
    ensures forall k :: k in After(maxSize, history).at ==>
              k in Ideal(history) && After(maxSize, history).at[k] == Ideal(history)[k]
  {
    if history != [] {
      var before, last := history[..|history| - 1], history[|history| - 1];
      StoreWithinIdeal(maxSize, before);
      AfterValid(maxSize, before);
      if last.op.Set? {
        RoomValid(After(maxSize, before), maxSize, last.op.k, last.now);
      }
    }
  }

  predicate Overwrites(op: Op, k: Key) {
    (op.Set? && op.k == k) || (op.Delete? && op.k == k) || op.Clear?
  }

  /** The i-th operation is the latest set of `k`, and `k` was not deleted or cleared since. */
  ghost predicate LatestSet(history: seq<Timed>, i: nat, k: Key) {
    i < |history| && history[i].op.Set? && history[i].op.k == k
    && forall j :: i < j < |history| ==> !Overwrites(history[j].op, k)
  }

  lemma {:induction false} IdealIsLatestSet(history: seq<Timed>, k: Key) returns (i: nat)
    requires k in Ideal(history)
    ensures LatestSet(history, i, k)
    ensures Ideal(history)[k] == MakeEntry(history[i].op.v, history[i].op.ttl, history[i].now)
  {
    var last := |history| - 1;
    if Overwrites(history[last].op, k) {
      i := last;
    } else {
      i := IdealIsLatestSet(history[..last], k);
    }
  }

  /** A hit returns the value of the latest set of the key, not since deleted or cleared, and not
      past its deadline: at every point of every run, whatever was evicted. */
  lemma {:induction false} HitIsLatestSet(maxSize: int, history: seq<Timed>, k: Key, now: Time)
    requires GetValue(After(maxSize, history).at, k, now).Some?
    ensures exists i: nat :: LatestSet(history, i, k)
              && history[i].op.v == GetValue(After(maxSize, history).at, k, now)
              && (history[i].op.ttl.Some? ==> now <= history[i].now + history[i].op.ttl.value)
  {
    StoreWithinIdeal(maxSize, history);
    var i := IdealIsLatestSet(history, k);
  }

  /** Some `get` of `k` came after its latest set. */
  predicate ReadSince(history: seq<Timed>, k: Key) {
    history != [] &&
    var op := history[|history| - 1].op;
    op == Get(k) || (!Overwrites(op, k) && ReadSince(history[..|history| - 1], k))
  }

  /** A stored None that some `get` has dropped. */
  predicate NoneRead(history: seq<Timed>, k: Key) {
    k in Ideal(history) && Ideal(history)[k].value.None? && ReadSince(history, k)
  }

  /** The keys the oldest-first loop of this operation pops. */
  function Oldest(d: Store, maxSize: int, op: Op, now: Time): seq<Key> {
    if op.Set? && Overflows(d, maxSize, op.k, now) then
      var keys := EvictedStale(d, now).keys;
      keys[..Min(Batch(maxSize), |keys|)]
    else []
  }

  /** Some set since the latest set of `k` overflowed and popped `k` among the oldest keys. */
  predicate Lost(maxSize: int, history: seq<Timed>, k: Key) {
    history != [] &&
    var before, last := history[..|history| - 1], history[|history| - 1];
    !Overwrites(last.op, k)
    && (Lost(maxSize, before, k) || k in Oldest(After(maxSize, before), maxSize, last.op, last.now))
  }

  /** Apart from expired entries, the store misses exactly what the oldest-first loop popped and what
      was dropped as a stored None. */
  ghost predicate Keeps(d: Store, maxSize: int, history: seq<Timed>, now: Time) {
    forall k :: k in Ideal(history) ==> KeepsKey(d, maxSize, history, now, k)
  }

  predicate KeepsKey(d: Store, maxSize: int, history: seq<Timed>, now: Time, k: Key)
    requires k in Ideal(history)
  {
    && (k in d.at || IsExpired(Ideal(history)[k], now) || NoneRead(history, k) || Lost(maxSize, history, k))
    && (NoneRead(history, k) || Lost(maxSize, history, k) ==> k !in d.at)
  }

  lemma {:induction false} StoreKeepsIdeal(maxSize: int, history: seq<Timed>, now: Time)
    requires ClockRises(history) && (history != [] ==> history[|history| - 1].now <= now)
    ensures Keeps(After(maxSize, history), maxSize, history, now)
  {
    if history != [] {
      var before, last := history[..|history| - 1], history[|history| - 1];
      StoreKeepsIdeal(maxSize, before, last.now);
      StoreWithinIdeal(maxSize, before);
      AfterValid(maxSize, before);
      KeepsStep(After(maxSize, before), before, maxSize, history, now);
    }
  }

  lemma KeepsStep(d: Store, before: seq<Timed>, maxSize: int, history: seq<Timed>, now: Time)
    requires history != [] && before == history[..|history| - 1] && d == After(maxSize, before)
    requires history[|history| - 1].now <= now
    requires d.Valid() && Keeps(d, maxSize, before, history[|history| - 1].now)
    requires forall k :: k in d.at ==> k in Ideal(before) && d.at[k] == Ideal(before)[k]
    ensures Keeps(After(maxSize, history), maxSize, history, now)
  {
    var last := history[|history| - 1];
    forall k | k in Ideal(history) ensures KeepsKey(After(maxSize, history), maxSize, history, now, k) {
      if Overwrites(last.op, k) {
        PutByLast(maxSize, history, k);
      } else {
        assert KeepsKey(d, maxSize, before, last.now, k);
        KeepsKeyStep(d, before, maxSize, history, now, k);
      }
    }
  }

  lemma PutByLast(maxSize: int, history: seq<Timed>, k: Key)
    requires history != [] && Overwrites(history[|history| - 1].op, k) && k in Ideal(history)
    ensures k in After(maxSize, history).at && !ReadSince(history, k) && !Lost(maxSize, history, k)
  {
  }

  lemma KeepsKeyStep(d: Store, before: seq<Timed>, maxSize: int, history: seq<Timed>, now: Time, k: Key)
    requires history != [] && before == history[..|history| - 1] && d == After(maxSize, before) && d.Valid()
    requires history[|history| - 1].now <= now && !Overwrites(history[|history| - 1].op, k)
    requires k in Ideal(before) && k in Ideal(history) && KeepsKey(d, maxSize, before, history[|history| - 1].now, k)
    requires k in d.at ==> d.at[k] == Ideal(before)[k]
    ensures KeepsKey(After(maxSize, history), maxSize, history, now, k)
  {
    var last := history[|history| - 1];
    match last.op {
      case Set(_, _, _) => RoomKeeps(d, maxSize, last.op, last.now);
      case Delete(j) => RemoveNoDup(d.keys, j);
      case Clear =>
      case Get(_) =>
      case Exists(_) =>
    }
  }

  /** Making room pops the oldest keys of the loop, and otherwise only what has expired. */
  lemma RoomKeeps(d: Store, maxSize: int, op: Op, now: Time)
    requires d.Valid() && op.Set?
    ensures forall j :: j in Room(d, maxSize, op.k, now).at ==> j in d.at && j !in Oldest(d, maxSize, op, now)
    ensures forall j :: j in d.at && !IsExpired(d.at[j], now) && j !in Oldest(d, maxSize, op, now) ==>
              j in Room(d, maxSize, op.k, now).at
  {
    StaleAreKeys(d, now);
    PopStaleKeeps(d, now);
    var e := EvictedStale(d, now);
    PopAllValid(e, e.keys[..Min(Batch(maxSize), |e.keys|)]);
    RoomValid(d, maxSize, op.k, now);
  }

  lemma PopStaleKeeps(d: Store, now: Time)
    requires d.Valid()
    ensures forall k :: k in d.at && !IsExpired(d.at[k], now) ==> k in EvictedStale(d, now).at
  {
    StaleAreKeys(d, now);
    if Stale(d, now) != [] {
      assert Stale(d, now)[0] in Stale(d, now);
    }
  }

  /** `get` answers as a map that never runs out of room, except exactly where that map has a value
      and the key was popped among the oldest since its latest set: stale eviction and lazy pruning
      are invisible in every run. */
  lemma GetMatchesIdealIff(maxSize: int, history: seq<Timed>, k: Key, now: Time)
    requires ClockRises(history) && (history != [] ==> history[|history| - 1].now <= now)
    ensures GetValue(After(maxSize, history).at, k, now) == GetValue(Ideal(history), k, now) <==>
            !(GetValue(Ideal(history), k, now).Some? && Lost(maxSize, history, k))
  {
    StoreKeepsIdeal(maxSize, history, now);
    StoreWithinIdeal(maxSize, history);
  }

  /** A latest set not since deleted or cleared is what the ideal map holds. */
  lemma {:induction false} LatestSetIsIdeal(history: seq<Timed>, i: nat, k: Key)
    requires LatestSet(history, i, k)
    ensures k in Ideal(history)
    ensures Ideal(history)[k] == MakeEntry(history[i].op.v, history[i].op.ttl, history[i].now)
    decreases |history|
  {
    var last := |history| - 1;
    if i < last {
      assert !Overwrites(history[last].op, k);
      LatestSetIsIdeal(history[..last], i, k);
    }
  }

  /** The i-th operation's time to live has not passed. */
  predicate InTime(history: seq<Timed>, i: nat, now: Time)
    requires i < |history| && history[i].op.Set?
  {
    match history[i].op.ttl
    case None => true
    case Some(ttl) => now <= history[i].now + ttl
  }

  /** After the latest set of a key, `get` gives its value, and `exists` finds it, until its time to live
      has passed, unless it was lost to the oldest-first loop (or, for `exists`, is a None that was
      read). */
  lemma ReadUntilDeadline(maxSize: int, history: seq<Timed>, i: nat, k: Key, now: Time)
    requires ClockRises(history) && (history != [] ==> history[|history| - 1].now <= now)
    requires LatestSet(history, i, k)
    ensures GetValue(After(maxSize, history).at, k, now) ==
            if InTime(history, i, now) && !Lost(maxSize, history, k) then history[i].op.v else None
    ensures Present(After(maxSize, history).at, k, now) <==>
            && InTime(history, i, now) && !Lost(maxSize, history, k)
            && (history[i].op.v.Some? || !ReadSince(history, k))
  {
    LatestSetIsIdeal(history, i, k);
    StoreKeepsIdeal(maxSize, history, now);
    StoreWithinIdeal(maxSize, history);
  }

  /** Without one, nothing is found. */
  lemma UnsetIsAbsent(maxSize: int, history: seq<Timed>, k: Key, now: Time)
    requires forall i :: !LatestSet(history, i, k)
    ensures GetValue(After(maxSize, history).at, k, now) == None && !Present(After(maxSize, history).at, k, now)
  {
    StoreWithinIdeal(maxSize, history);
    if k in Ideal(history) {
      var i := IdealIsLatestSet(history, k);
    }
  }

  /** With room for one, setting a second key loses the first. */
  lemma SecondSetLosesFirst(j: Key, k: Key, v: Value, now: Time)
    requires j != k
    ensures var history := [Timed(now, Set(j, Some(v), None)), Timed(now, Set(k, Some(v), None))];
            && Lost(1, history, j) && GetValue(Ideal(history), j, now) == Some(v)
            && GetValue(After(1, history).at, j, now) == None
  {
    var history := [Timed(now, Set(j, Some(v), None)), Timed(now, Set(k, Some(v), None))];
    var e := MakeEntry(Some(v), None, now);
    assert history[..1] == [history[0]] && [history[0]][..0] == [];
    var d := After(1, history[..1]);
    assert d == Dict([j], map[j := e]) by { assert After(1, []) == Dict([], map[]); }
    AfterValid(1, history[..1]);
    OverflowIff(d, 1, k, now);
    StaleAreKeys(d, now);
    assert EvictedStale(d, now) == d && Oldest(d, 1, history[1].op, now) == [j];
    assert ClockRises(history) && Ideal(history[..1]) == map[j := e];
    GetMatchesIdealIff(1, history, j, now);
    StoreWithinIdeal(1, history);
  }

  lemma {:induction false} NeverLost(maxSize: int, history: seq<Timed>, k: Key)
    requires NeverOverflowed(maxSize, history)
    ensures !Lost(maxSize, history, k)
  {
    if history != [] {
      NeverLost(maxSize, history[..|history| - 1], k);
    }
  }

  /** So in a run that never reached the oldest-first loop it always does. */
  lemma {:induction false} GetRefinesIdeal(maxSize: int, history: seq<Timed>, k: Key, now: Time)
    requires ClockRises(history) && NeverOverflowed(maxSize, history)
    requires history != [] ==> history[|history| - 1].now <= now
    ensures GetValue(After(maxSize, history).at, k, now) == GetValue(Ideal(history), k, now)
  {
    NeverLost(maxSize, history, k);
    GetMatchesIdealIff(maxSize, history, k, now);
  }

  predicate Present(store: map<Key, Entry>, k: Key, now: Time) {
    k in store && !IsExpired(store[k], now)
  }

  /** `exists` answers as that map, except exactly for a live entry popped among the oldest since its
      latest set, and for a live stored None that some `get` has read since. */
  lemma ExistsMatchesIdealIff(maxSize: int, history: seq<Timed>, k: Key, now: Time)
    requires ClockRises(history) && (history != [] ==> history[|history| - 1].now <= now)
    ensures (Present(After(maxSize, history).at, k, now) <==> Present(Ideal(history), k, now)) <==>
            !(Present(Ideal(history), k, now)
              && (Lost(maxSize, history, k) || (Ideal(history)[k].value.None? && ReadSince(history, k))))
  {
    StoreKeepsIdeal(maxSize, history, now);
    StoreWithinIdeal(maxSize, history);
  }

  /** So in a run that never reached the oldest-first loop, only for the latter. */
  lemma {:induction false} ExistsRefinesIdeal(maxSize: int, history: seq<Timed>, k: Key, now: Time)
    requires ClockRises(history) && NeverOverflowed(maxSize, history)
    requires history != [] ==> history[|history| - 1].now <= now
    ensures (Present(After(maxSize, history).at, k, now) <==> Present(Ideal(history), k, now)) <==>
            !(Present(Ideal(history), k, now) && Ideal(history)[k].value.None? && ReadSince(history, k))
  {
    NeverLost(maxSize, history, k);
    ExistsMatchesIdealIff(maxSize, history, k, now);
  }

  /** A stored None exists until the first `get`, which counts it as a miss and drops it. */
  lemma {:induction false} StoredNoneIsDropped(maxSize: int, k: Key, now: Time)
    requires maxSize >= 1
    ensures var history := [Timed(now, Set(k, None, None)), Timed(now, Get(k))];
            NeverOverflowed(maxSize, history) && Present(Ideal(history), k, now)
            && !Present(After(maxSize, history).at, k, now) && Present(After(maxSize, history[..1]).at, k, now)
  {
    var history := [Timed(now, Set(k, None, None)), Timed(now, Get(k))];
    assert history[..1][..0] == [] && history[..1] == [history[0]];
    assert After(maxSize, history[..1]) == SetTo(Dict([], map[]), maxSize, k, MakeEntry(None, None, now), now);
    assert NeverOverflowed(maxSize, []) && !Full(After(maxSize, []), maxSize, k);
  }

  // ----- the object -----

  class InMemoryCache {
    const maxSize: int
    var store: Store
    var hits: nat
    var misses: nat
    var evictions: nat

    constructor (maxSize: int)
      ensures this.maxSize == maxSize && store == After(maxSize, [])
      ensures hits == 0 && misses == 0 && evictions == 0
    {
      this.maxSize := maxSize;
      store := Dict([], map[]);
      hits, misses, evictions := 0, 0, 0;
    }

    method GetOne(key: Key, now: Time) returns (value: Option<Value>)
      requires store.Valid()
      modifies this
      ensures store.Valid() && store == Apply(old(store), maxSize, now, Get(key))
      ensures value == GetValue(old(store).at, key, now)
      ensures hits == old(hits) + (if value.Some? then 1 else 0)
      ensures misses == old(misses) + (if value.None? then 1 else 0)
      ensures evictions == old(evictions)
    {
      value := GetValue(store.at, key, now);
      if value.Some? {
        hits := hits + 1;
      } else {
        misses := misses + 1;
        if key in store.at {
          PopValid(store, key);
          store := store.Pop(key);
        }
      }
    }

    /** `_evict_stale(count)` */
    method EvictStale(count: nat, now: Time) returns (removed: nat)
      requires store.Valid()
      modifies this`store, this`evictions
      ensures store.Valid() && removed == Min(count, |Stale(old(store), now)|)
      ensures store == PopAll(old(store), Stale(old(store), now)[..removed])
      ensures evictions == old(evictions) + removed && Size(store) == Size(old(store)) - removed
    {
      removed := 0;
      var stale := Stale(store, now);
      var n := Min(count, |stale|);
      StaleAreKeys(store, now);
      StaleNoDup(store, now);
      NoDupPrefix(stale, n);
      removed := PopEach(stale[..n]);
    }

    /** `for k in keys: self._store.pop(k, None)`, counting evictions. */
    method PopEach(keys: seq<Key>) returns (removed: nat)
      requires store.Valid() && NoDup(keys) && forall k :: k in keys ==> k in store.at
      modifies this`store, this`evictions
      ensures store.Valid() && store == PopAll(old(store), keys) && removed == |keys|
      ensures evictions == old(evictions) + removed && Size(store) == Size(old(store)) - removed
    {
      removed := 0;
      for i := 0 to |keys|
        invariant store.Valid() && removed == i
        invariant NoDup(keys[i..]) && forall k :: k in keys[i..] ==> k in store.at
        invariant PopAll(store, keys[i..]) == PopAll(old(store), keys)
        invariant evictions == old(evictions) + i && Size(store) == Size(old(store)) - i
      {
        ListTail(keys, i);
        EvictOne(keys[i]);
        removed := removed + 1;
      }
    }

    static lemma ListTail(keys: seq<Key>, i: nat)
      requires i < |keys| && NoDup(keys[i..])
      ensures keys[i..][0] == keys[i] && keys[i..][1..] == keys[i + 1..]
      ensures NoDup(keys[i + 1..]) && keys[i] !in keys[i + 1..] && forall k :: k in keys[i + 1..] ==> k in keys[i..]
    {
    }

    method EvictOne(key: Key)
      requires store.Valid() && key in store.at
      modifies this`store, this`evictions
      ensures store.Valid() && store == old(store).Pop(key)
      ensures evictions == old(evictions) + 1 && Size(store) == Size(old(store)) - 1
    {
      PopValid(store, key);
      RemoveLength(store.keys, key);
      store := store.Pop(key);
      evictions := evictions + 1;
    }

    method SetOne(key: Key, value: Option<Value>, ttl: Option<int>, now: Time)
      requires store.Valid()
      modifies this
      ensures store.Valid() && store == Apply(old(store), maxSize, now, Set(key, value, ttl))
      ensures hits == old(hits) && misses == old(misses)
      ensures evictions == old(evictions) + Size(old(store)) + (if key in old(store).at then 0 else 1) - Size(store)
    {
      if |store.keys| >= maxSize && key !in store.at {
        var _ := EvictStale(1, now);
        assert store == EvictedStale(old(store), now);
        if |store.keys| >= maxSize {
          var n := Min(Batch(maxSize), |store.keys|);
          NoDupPrefix(store.keys, n);
          var _ := PopEach(store.keys[..n]);
        }
      }
      RoomValid(old(store), maxSize, key, now);
      PutValid(store, key, MakeEntry(value, ttl, now));
      store := store.Put(key, MakeEntry(value, ttl, now));
    }

    method DeleteOne(key: Key) returns (found: bool)
      requires store.Valid()
      modifies this`store
      ensures store.Valid() && store == old(store).Pop(key) && found == (key in old(store).at)
    {
      found := key in store.at;
      PopValid(store, key);
      if found {
        store := store.Pop(key);
      } else {
        assert store.at - {key} == store.at;
      }
    }

    method ClearAll()
      modifies this
      ensures store == Dict([], map[]) && store.Valid() && hits == 0 && misses == 0 && evictions == 0
    {
      store := Dict([], map[]);
      hits, misses, evictions := 0, 0, 0;
    }

    method ExistsOne(key: Key, now: Time) returns (present: bool)
      requires store.Valid()
      modifies this`store
      ensures store.Valid() && store == Apply(old(store), maxSize, now, Exists(key))
      ensures present == Present(old(store).at, key, now)
    {
      if key !in store.at {
        return false;
      }
      if IsExpired(store.at[key], now) {
        PopValid(store, key);
        store := store.Pop(key);
        return false;
      }
      return true;
    }
  }
}
