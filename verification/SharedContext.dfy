/** `rann_agent/orchestration/shared_context.py`. The cross-agent key-value store: entries with
    a time to live and a version, a version vector, and a disk file rewritten by every writer. */
module SharedStore {
  import opened Prelude
  import opened VersionVectors

  type Key = string
  type Value = string
  type Time = int

  datatype Entry = Entry(key: Key, value: Value, version: int, created: Time, updated: Time,
                         ttl: Option<int>, owner: string, tags: seq<string>, accesses: nat)

  /** What the JSON file holds. */
  datatype Saved = Saved(memory: map<Key, Entry>, vv: Clock)

  datatype Store = Store(me: ReplicaId, defaultTtl: int, memory: map<Key, Entry>, vv: Clock, disk: Option<Saved>)

  predicate Expired(e: Entry, t: Time) {
    e.ttl.Some? && t > e.updated + e.ttl.value
  }

  predicate LiveAt(s: Store, k: Key, t: Time) {
    k in s.memory && !Expired(s.memory[k], t)
  }

  // ----- what each operation does -----

  function Unexpired(m: map<Key, Entry>, t: Time): map<Key, Entry> {
    map k | k in m && !Expired(m[k], t) :: m[k]
  }

  function Persisted(s: Store, t: Time): Store {
    s.(disk := Some(Saved(Unexpired(s.memory, t), s.vv)))
  }

  /** A context opened on the file as it is at time `t`. */
  function Opened(me: ReplicaId, defaultTtl: int, disk: Option<Saved>, t: Time): Store {
    if disk.Some? then Store(me, defaultTtl, Unexpired(disk.value.memory, t), disk.value.vv, disk)
    else Store(me, defaultTtl, map[], map[], disk)
  }

  function TtlOr(s: Store, ttl: Option<int>): Option<int> {
    if ttl.Some? then ttl else Some(s.defaultTtl)
  }

  /** Python's `name or other`. */
  function NameOr(name: Option<string>, other: string): string {
    if name.Some? && name.value != "" then name.value else other
  }

  /** The entry `set` builds: an update of a live entry, or a new one whose version is the
      context's own count. */
  function SetEntry(s: Store, t: Time, k: Key, v: Value, ttl: Option<int>, tags: Option<seq<string>>,
                    owner: Option<string>): Entry {
    if LiveAt(s, k, t) then
      var e := s.memory[k];
      Entry(k, v, e.version + 1, e.created, t, TtlOr(s, ttl), NameOr(owner, e.owner),
            if tags.Some? then tags.value else e.tags, e.accesses)
    else
      Entry(k, v, Count(Incremented(s.vv, s.me), s.me), t, t, TtlOr(s, ttl), NameOr(owner, "unknown"),
            if tags.Some? then tags.value else [], 0)
  }

  function SetTo(s: Store, t: Time, k: Key, v: Value, ttl: Option<int>, tags: Option<seq<string>>,
                 owner: Option<string>): Store {
    var vv := if LiveAt(s, k, t) then s.vv else Incremented(s.vv, s.me);
    Persisted(s.(vv := vv, memory := s.memory[k := SetEntry(s, t, k, v, ttl, tags, owner)]), t)
  }

  /** The version test of `set_if_version`: it looks at an expired entry that is still there. */
  predicate CasPasses(s: Store, k: Key, expected: int) {
    if k in s.memory then s.memory[k].version == expected else expected == 0
  }

  function CasTo(s: Store, t: Time, k: Key, v: Value, expected: int, ttl: Option<int>,
                 tags: Option<seq<string>>): Store {
    if CasPasses(s, k, expected) then SetTo(s, t, k, v, ttl, tags, None) else s
  }

  function Retagged(s: Store, t: Time, k: Key, tags: seq<string>): Store {
    if LiveAt(s, k, t) then
      var e := s.memory[k];
      Persisted(s.(memory := s.memory[k := e.(tags := tags, accesses := e.accesses + 1)]), t)
    else s
  }

  function Touched(s: Store, t: Time, k: Key, ttl: Option<int>): Store {
    if LiveAt(s, k, t) then
      var e := s.memory[k];
      Persisted(s.(memory := s.memory[k := e.(ttl := TtlOr(s, ttl), updated := t, accesses := e.accesses + 1)]), t)
    else s
  }

  /** `delete`, `delete_many` and `clear`: the file is rewritten only if something went. */
  function Without(s: Store, t: Time, gone: set<Key>): Store {
    if s.memory.Keys !! gone then s else Persisted(s.(memory := s.memory - gone), t)
  }

  function OwnedBy(s: Store, agent: Option<string>): set<Key> {
    set k | k in s.memory && (agent.None? || s.memory[k].owner == agent.value)
  }

  /** One key of `atomic_set`; a new entry starts at version 1 and leaves the vector alone. */
  function PutEntry(s: Store, t: Time, k: Key, v: Value, ttl: Option<int>): Entry {
    if LiveAt(s, k, t) then
      var e := s.memory[k];
      Entry(k, v, e.version + 1, e.created, t, TtlOr(s, ttl), e.owner, e.tags, e.accesses)
    else Entry(k, v, 1, t, t, TtlOr(s, ttl), "unknown", [], 0)
  }

  function PutOne(s: Store, t: Time, k: Key, v: Value, ttl: Option<int>): Store {
    s.(memory := s.memory[k := PutEntry(s, t, k, v, ttl)])
  }

  function PutFirst(s: Store, t: Time, items: Dict<Key, Value>, n: nat, ttl: Option<int>): Store
    requires n <= |items.keys| && forall k :: k in items.keys ==> k in items.at
  {
    if n == 0 then s
    else PutOne(PutFirst(s, t, items, n - 1, ttl), t, items.keys[n - 1], items.at[items.keys[n - 1]], ttl)
  }

  /** `get` and `get_entry` drop an expired entry in memory only; a hit counts an access. */
  function Read(s: Store, t: Time, k: Key): Store {
    if k !in s.memory then s
    else if Expired(s.memory[k], t) then s.(memory := s.memory - {k})
    else s.(memory := s.memory[k := s.memory[k].(accesses := s.memory[k].accesses + 1)])
  }

  datatype Op =
    | Set(k: Key, v: Value, ttl: Option<int>, setTags: Option<seq<string>>, owner: Option<string>)
    | SetIfVersion(k: Key, v: Value, expected: int, ttl: Option<int>, setTags: Option<seq<string>>)
    | UpdateTags(k: Key, tags: seq<string>)
    | Touch(k: Key, ttl: Option<int>)
    | Delete(gone: set<Key>)
    | Clear(agent: Option<string>)
    | AtomicSet(items: Dict<Key, Value>, ttl: Option<int>)
    | Get(k: Key)
    | MergeVector(remote: Clock)
    | Restart(me: ReplicaId)

  ghost predicate WellFormed(op: Op) {
    op.AtomicSet? ==> op.items.Valid()
  }

  ghost function Apply(s: Store, t: Time, op: Op): Store
    requires WellFormed(op)
  {
    match op
    case Set(k, v, ttl, tags, owner) => SetTo(s, t, k, v, ttl, tags, owner)
    case SetIfVersion(k, v, expected, ttl, tags) => CasTo(s, t, k, v, expected, ttl, tags)
    case UpdateTags(k, tags) => Retagged(s, t, k, tags)
    case Touch(k, ttl) => Touched(s, t, k, ttl)
    case Delete(gone) => Without(s, t, gone)
    case Clear(agent) => Without(s, t, OwnedBy(s, agent))
    case AtomicSet(items, ttl) => Persisted(PutFirst(s, t, items, |items.keys|, ttl), t)
    case Get(k) => Read(s, t, k)
    case MergeVector(remote) => s.(vv := Merged(s.vv, remote))
    case Restart(me) => Opened(me, s.defaultTtl, s.disk, t)
  }

  // ----- memory and disk agree -----

  /** The entries a reader can see at time `t`, access counts aside. */
  function Visible(m: map<Key, Entry>, t: Time): map<Key, Entry> {
    map k | k in m && !Expired(m[k], t) :: m[k].(accesses := 0)
  }

  function OnDisk(s: Store): map<Key, Entry> {
    if s.disk.Some? then s.disk.value.memory else map[]
  }

  ghost predicate InSync(s: Store, t: Time) {
    && Visible(s.memory, t) == Visible(OnDisk(s), t)
    && (s.disk.Some? ==> Leq(s.disk.value.vv, s.vv))
  }

  lemma VisibleLater(m: map<Key, Entry>, n: map<Key, Entry>, t: Time, u: Time)
    requires t <= u && Visible(m, t) == Visible(n, t)
    ensures Visible(m, u) == Visible(n, u)
  {
    forall k ensures k in Visible(m, u) <==> k in Visible(n, u) {
      assert k in Visible(m, t) <==> k in Visible(n, t);
      assert k in Visible(m, t) ==> m[k].(accesses := 0) == Visible(n, t)[k] == n[k].(accesses := 0);
    }
    forall k | k in Visible(m, u) ensures Visible(m, u)[k] == Visible(n, u)[k] {
      assert k in Visible(m, t) && Visible(m, t)[k] == Visible(n, t)[k];
    }
  }

  lemma PersistSyncs(s: Store, t: Time)
    ensures InSync(Persisted(s, t), t)
    ensures Visible(Persisted(s, t).memory, t) == Visible(s.memory, t)
  {
  }

  lemma LeqMerged(c: Clock, d: Clock, e: Clock)
    requires Leq(c, d)
    ensures Leq(c, Merged(d, e))
  {
    MergeIsLub(d, e, d);
    forall a ensures Count(c, a) <= Count(Merged(d, e), a) {
      assert Count(c, a) <= Count(d, a) && Count(d, a) <= Count(Merged(d, e), a);
    }
  }

  lemma ApplyKeepsSync(s: Store, t: Time, u: Time, op: Op)
    requires InSync(s, t) && t <= u && WellFormed(op)
    ensures InSync(Apply(s, u, op), u)
  {
    VisibleLater(s.memory, OnDisk(s), t, u);
    match op {
      case Set(k, v, ttl, tags, owner) => SetSyncs(s, u, k, v, ttl, tags, owner);
      case SetIfVersion(k, v, expected, ttl, tags) => SetSyncs(s, u, k, v, ttl, tags, None);
      case UpdateTags(k, tags) => MetadataSyncs(s, u, k, tags, None);
      case Touch(k, ttl) => MetadataSyncs(s, u, k, [], ttl);
      case Delete(gone) => PersistSyncs(s.(memory := s.memory - gone), u);
      case Clear(agent) => PersistSyncs(s.(memory := s.memory - OwnedBy(s, agent)), u);
      case AtomicSet(items, ttl) => PersistSyncs(PutFirst(s, u, items, |items.keys|, ttl), u);
      case Get(k) => ReadIsInvisible(s, u, k);
      case MergeVector(remote) => if s.disk.Some? { LeqMerged(s.disk.value.vv, s.vv, remote); }
      case Restart(me) => OpenedSyncs(me, s.defaultTtl, s.disk, u);
    }
  }

  lemma SetSyncs(s: Store, t: Time, k: Key, v: Value, ttl: Option<int>, tags: Option<seq<string>>,
                 owner: Option<string>)
    ensures InSync(SetTo(s, t, k, v, ttl, tags, owner), t)
  {
    var s' := SetTo(s, t, k, v, ttl, tags, owner);
    PersistSyncs(s'.(disk := s.disk), t);
  }

  lemma MetadataSyncs(s: Store, t: Time, k: Key, tags: seq<string>, ttl: Option<int>)
    requires InSync(s, t)
    ensures InSync(Retagged(s, t, k, tags), t) && InSync(Touched(s, t, k, ttl), t)
  {
    if LiveAt(s, k, t) {
      PersistSyncs(Retagged(s, t, k, tags).(disk := s.disk), t);
      PersistSyncs(Touched(s, t, k, ttl).(disk := s.disk), t);
    }
  }

  lemma ReadIsInvisible(s: Store, t: Time, k: Key)
    ensures Visible(Read(s, t, k).memory, t) == Visible(s.memory, t)
  {
  }

  lemma OpenedSyncs(me: ReplicaId, defaultTtl: int, disk: Option<Saved>, t: Time)
    ensures InSync(Opened(me, defaultTtl, disk, t), t)
  {
    var s := Opened(me, defaultTtl, disk, t);
    assert Visible(s.memory, t) == Visible(OnDisk(s), t);
  }

  /** A timed run: operations at non-decreasing clock readings. */
  datatype Timed = Timed(t: Time, op: Op)

  ghost predicate Runs(s: Store, t: Time, run: seq<Timed>, s': Store, t': Time)
    decreases run
  {
    if run == [] then s == s' && t == t'
    else t <= run[0].t && WellFormed(run[0].op) && Runs(Apply(s, run[0].t, run[0].op), run[0].t, run[1..], s', t')
  }

  lemma {:induction false} RunKeepsSync(s: Store, t: Time, run: seq<Timed>, s': Store, t': Time)
    requires InSync(s, t) && Runs(s, t, run, s', t')
    ensures InSync(s', t') && t <= t'
    decreases run
  {
    if run != [] {
      ApplyKeepsSync(s, t, run[0].t, run[0].op);
      RunKeepsSync(Apply(s, run[0].t, run[0].op), run[0].t, run[1..], s', t');
    }
  }

  /** At every point of every run, opening a new context on the file shows the same live entries
      as the running one, then and at every later time; its vector has heard of nothing more. */
  lemma ReloadAgrees(me: ReplicaId, defaultTtl: int, file: Option<Saved>, t0: Time,
                     run: seq<Timed>, s: Store, t: Time, other: ReplicaId, now: Time, later: Time)
    requires Runs(Opened(me, defaultTtl, file, t0), t0, run, s, t) && t <= now <= later
    ensures Visible(Opened(other, defaultTtl, s.disk, now).memory, later) == Visible(s.memory, later)
    ensures Leq(Opened(other, defaultTtl, s.disk, now).vv, s.vv)
  {
    OpenedSyncs(me, defaultTtl, file, t0);
    RunKeepsSync(Opened(me, defaultTtl, file, t0), t0, run, s, t);
    OpenedSyncs(other, defaultTtl, s.disk, now);
    var reopened := Opened(other, defaultTtl, s.disk, now);
    assert OnDisk(reopened) == OnDisk(s);
    VisibleLater(s.memory, OnDisk(s), t, later);
    VisibleLater(reopened.memory, OnDisk(s), now, later);
  }

  // ----- versions and values within one lifetime -----

  /** The operation writes a value to the live key `k`. */
  ghost predicate Writes(s: Store, op: Op, k: Key) {
    || (op.Set? && op.k == k)
    || (op.SetIfVersion? && op.k == k && CasPasses(s, k, op.expected))
    || (op.AtomicSet? && k in op.items.at)
  }

  /** The value it writes. */
  ghost function Written(s: Store, op: Op, k: Key): Value
    requires Writes(s, op, k)
  {
    if op.AtomicSet? then op.items.at[k] else op.v
  }

  lemma {:induction false} PutFirstAt(s: Store, t: Time, items: Dict<Key, Value>, n: nat, ttl: Option<int>, k: Key)
    requires items.Valid() && n <= |items.keys| && LiveAt(s, k, t)
    ensures var s' := PutFirst(s, t, items, n, ttl);
            k in s'.memory && s'.me == s.me && s'.vv == s.vv
            && s'.memory[k].version == s.memory[k].version + (if k in items.keys[..n] then 1 else 0)
            && (k in items.keys[..n] ==> s'.memory[k].value == items.at[k])
            && (k !in items.keys[..n] ==> s'.memory[k] == s.memory[k])
  {
    if n > 0 {
      PutFirstAt(s, t, items, n - 1, ttl, k);
      assert items.keys[..n] == items.keys[..n - 1] + [items.keys[n - 1]];
      NoDupPrefix(items.keys, n);
      NoDupAppend(items.keys[..n - 1], items.keys[n - 1]);
    }
  }

  /** While a key stays alive, each write raises its version by exactly one and sets its value;
      nothing else changes either, not even a restart. */
  lemma VersionStep(s: Store, t: Time, u: Time, op: Op, k: Key)
    requires InSync(s, t) && t <= u && WellFormed(op) && LiveAt(s, k, u) && k in Apply(s, u, op).memory
    ensures Apply(s, u, op).memory[k].version == s.memory[k].version + if Writes(s, op, k) then 1 else 0
    ensures Apply(s, u, op).memory[k].value == if Writes(s, op, k) then Written(s, op, k) else s.memory[k].value
  {
    match op {
      case Set(k', v, ttl, tags, owner) =>
      case SetIfVersion(k', v, expected, ttl, tags) =>
      case UpdateTags(k', tags) =>
      case Touch(k', ttl) =>
      case Delete(gone) =>
      case Clear(agent) =>
      case AtomicSet(items, ttl) =>
        PutFirstAt(s, u, items, |items.keys|, ttl, k);
        assert items.keys[..|items.keys|] == items.keys;
      case Get(k') =>
      case MergeVector(remote) =>
      case Restart(me) =>
        assert k in Visible(s.memory, t) && k in Visible(OnDisk(s), t);
        assert Visible(s.memory, t)[k] == Visible(OnDisk(s), t)[k];
    }
  }

  /** A write to a key that is not alive creates it: through set its version is the number of keys the
      context has then created, through `atomic_set` it is 1. */
  lemma CreatedVersion(s: Store, t: Time, op: Op, k: Key)
    requires WellFormed(op) && Writes(s, op, k) && !LiveAt(s, k, t)
    ensures k in Apply(s, t, op).memory && Apply(s, t, op).memory[k].accesses == 0
    ensures Apply(s, t, op).memory[k].version == if op.AtomicSet? then 1 else Count(s.vv, s.me) + 1
  {
    if op.AtomicSet? {
      PutFirstKeys(s, t, op.items, |op.items.keys|, op.ttl, k);
      assert op.items.keys[..|op.items.keys|] == op.items.keys;
    }
  }

  /** An access is counted for each get, touch and change of tags of a live key, and nothing else
      but a restart changes the count. */
  lemma AccessStep(s: Store, t: Time, op: Op, k: Key)
    requires WellFormed(op) && !op.Restart? && LiveAt(s, k, t) && k in Apply(s, t, op).memory
    ensures Apply(s, t, op).memory[k].accesses ==
            s.memory[k].accesses + if (op.Get? || op.Touch? || op.UpdateTags?) && op.k == k then 1 else 0
  {
    if op.AtomicSet? {
      PutFirstKeys(s, t, op.items, |op.items.keys|, op.ttl, k);
    }
  }

  /** A run during which `k` is alive at every clock reading and is never removed. */
  ghost predicate Lifetime(s: Store, t: Time, run: seq<Timed>, s': Store, t': Time, k: Key)
    decreases run
  {
    if run == [] then s == s' && t == t'
    else
      var u, op := run[0].t, run[0].op;
      && t <= u && WellFormed(op) && LiveAt(s, k, u) && k in Apply(s, u, op).memory
      && Lifetime(Apply(s, u, op), u, run[1..], s', t', k)
  }

  lemma {:induction false} VersionsRise(s: Store, t: Time, run: seq<Timed>, s': Store, t': Time, k: Key)
    requires InSync(s, t) && k in s.memory && Lifetime(s, t, run, s', t', k)
    ensures k in s'.memory && s'.memory[k].version >= s.memory[k].version
    ensures InSync(s', t') && t <= t'
    decreases run
  {
    if run != [] {
      var u, op := run[0].t, run[0].op;
      VersionStep(s, t, u, op, k);
      ApplyKeepsSync(s, t, u, op);
      VersionsRise(Apply(s, u, op), u, run[1..], s', t', k);
    }
  }

  /** How many writes a lifetime holds, and the value the last of them wrote (`v` if there is none). */
  ghost function WriteCount(s: Store, run: seq<Timed>, k: Key): nat
    requires forall i :: 0 <= i < |run| ==> WellFormed(run[i].op)
    decreases run
  {
    if run == [] then 0
    else (if Writes(s, run[0].op, k) then 1 else 0) + WriteCount(Apply(s, run[0].t, run[0].op), run[1..], k)
  }

  ghost function LastWritten(s: Store, run: seq<Timed>, k: Key, v: Value): Value
    requires forall i :: 0 <= i < |run| ==> WellFormed(run[i].op)
    decreases run
  {
    if run == [] then v
    else LastWritten(Apply(s, run[0].t, run[0].op), run[1..], k,
                     if Writes(s, run[0].op, k) then Written(s, run[0].op, k) else v)
  }

  /** At the end of any lifetime, reads, touches, other keys' operations and restarts included, the
      key holds the last value written and its version has risen by exactly the number of writes. */
  lemma {:induction false} LifetimeIsExact(s: Store, t: Time, run: seq<Timed>, s': Store, t': Time, k: Key)
    requires InSync(s, t) && k in s.memory && Lifetime(s, t, run, s', t', k)
    requires forall i :: 0 <= i < |run| ==> WellFormed(run[i].op)
    ensures k in s'.memory && s'.memory[k].value == LastWritten(s, run, k, s.memory[k].value)
    ensures s'.memory[k].version == s.memory[k].version + WriteCount(s, run, k)
    decreases run
  {
    if run != [] {
      var u, op := run[0].t, run[0].op;
      VersionStep(s, t, u, op, k);
      ApplyKeepsSync(s, t, u, op);
      LifetimeIsExact(Apply(s, u, op), u, run[1..], s', t', k);
    }
  }

  /** The same from the write that creates the key, or any other write, on. */
  lemma WrittenLifetimeIsExact(s: Store, t: Time, u: Time, op: Op, run: seq<Timed>, s': Store, t': Time, k: Key)
    requires InSync(s, t) && t <= u && WellFormed(op) && Writes(s, op, k)
    requires Lifetime(Apply(s, u, op), u, run, s', t', k) && forall i :: 0 <= i < |run| ==> WellFormed(run[i].op)
    ensures k in s'.memory && s'.memory[k].value == LastWritten(Apply(s, u, op), run, k, Written(s, op, k))
    ensures s'.memory[k].version == Apply(s, u, op).memory[k].version + WriteCount(Apply(s, u, op), run, k)
  {
    ApplyKeepsSync(s, t, u, op);
    WriteIsThere(s, u, op, k);
    LifetimeIsExact(Apply(s, u, op), u, run, s', t', k);
  }

  lemma WriteIsThere(s: Store, t: Time, op: Op, k: Key)
    requires WellFormed(op) && Writes(s, op, k)
    ensures k in Apply(s, t, op).memory && Apply(s, t, op).memory[k].value == Written(s, op, k)
  {
    if op.AtomicSet? {
      PutFirstKeys(s, t, op.items, |op.items.keys|, op.ttl, k);
      assert op.items.keys[..|op.items.keys|] == op.items.keys;
    }
  }

  /** What `atomic_set` has done to one key after the first `n` items. */
  lemma {:induction false} PutFirstKeys(s: Store, t: Time, items: Dict<Key, Value>, n: nat, ttl: Option<int>, k: Key)
    requires items.Valid() && n <= |items.keys|
    ensures var s' := PutFirst(s, t, items, n, ttl);
            if k in items.keys[..n] then
              k in s'.memory && s'.memory[k] == PutEntry(s, t, k, items.at[k], ttl)
            else (k in s'.memory <==> k in s.memory) && (k in s.memory ==> s'.memory[k] == s.memory[k])
    ensures PutFirst(s, t, items, n, ttl).defaultTtl == s.defaultTtl
  {
    if n > 0 {
      PutFirstKeys(s, t, items, n - 1, ttl, k);
      assert items.keys[..n] == items.keys[..n - 1] + [items.keys[n - 1]];
      NoDupPrefix(items.keys, n);
      NoDupAppend(items.keys[..n - 1], items.keys[n - 1]);
    }
  }

  // ----- what a reader is to see -----

  /** A key as its readers know it. */
  datatype Item = Item(value: Value, created: Time, updated: Time, deadline: Option<Time>, owner: string,
                       tags: seq<string>)

  type Items = map<Key, Item>

  /** Items vanish by themselves, after their deadline; nothing is cached and there is no file. */
  predicate Shown(m: Items, k: Key, t: Time) {
    k in m && (m[k].deadline.Some? ==> t <= m[k].deadline.value)
  }

  /** The time an item lives when it is given `ttl`, by default an hour or what the context was told. */
  function Span(ttl: Option<int>, defaultTtl: int): int {
    match ttl
    case Some(seconds) => seconds
    case None => defaultTtl
  }

  /** A value written at `t`: what is shown keeps its creation time, and its owner and tags unless
      others are given. */
  function Rewritten(m: Items, t: Time, k: Key, v: Value, span: int, tags: Option<seq<string>>,
                     owner: Option<string>): Item {
    var known := Shown(m, k, t);
    Item(v, if known then m[k].created else t, t, Some(t + span),
         if owner.Some? && owner.value != "" then owner.value else if known then m[k].owner else "unknown",
         if tags.Some? then tags.value else if known then m[k].tags else [])
  }

  /** The items after an operation; `passes` says whether a version test succeeds. */
  function ShouldBe(m: Items, t: Time, op: Op, defaultTtl: int, passes: bool): Items {
    match op
    case Set(k, v, ttl, tags, owner) => m[k := Rewritten(m, t, k, v, Span(ttl, defaultTtl), tags, owner)]
    case SetIfVersion(k, v, _, ttl, tags) =>
      if passes then m[k := Rewritten(m, t, k, v, Span(ttl, defaultTtl), tags, None)] else m
    case UpdateTags(k, tags) => if Shown(m, k, t) then m[k := m[k].(tags := tags)] else m
    case Touch(k, ttl) =>
      if Shown(m, k, t) then m[k := m[k].(updated := t, deadline := Some(t + Span(ttl, defaultTtl)))] else m
    case Delete(gone) => m - gone
    case Clear(None) => map[]
    case Clear(Some(agent)) => map k | k in m && m[k].owner != agent :: m[k]
    case AtomicSet(items, ttl) =>
      m + map k | k in items.at :: Rewritten(m, t, k, items.at[k], Span(ttl, defaultTtl), None, None)
    case Get(_) => m
    case MergeVector(_) => m
    case Restart(_) => m
  }

  function AsItem(e: Entry): Item {
    Item(e.value, e.created, e.updated, if e.ttl.Some? then Some(e.updated + e.ttl.value) else None, e.owner, e.tags)
  }

  /** The key is live in the store exactly when the items show it, and then is as they say. */
  predicate ShowsKey(s: Store, m: Items, t: Time, k: Key) {
    (LiveAt(s, k, t) <==> Shown(m, k, t)) && (LiveAt(s, k, t) ==> AsItem(s.memory[k]) == m[k])
  }

  ghost predicate Shows(s: Store, m: Items, t: Time) {
    forall k :: ShowsKey(s, m, t, k)
  }

  lemma ShowsLater(s: Store, m: Items, t: Time, u: Time)
    requires Shows(s, m, t) && t <= u
    ensures Shows(s, m, u)
  {
    forall k ensures ShowsKey(s, m, u, k) {
      assert ShowsKey(s, m, t, k);
    }
  }

  ghost predicate Passes(s: Store, op: Op) {
    op.SetIfVersion? ==> CasPasses(s, op.k, op.expected)
  }

  lemma SetShows(s: Store, m: Items, t: Time, k: Key, v: Value, ttl: Option<int>, tags: Option<seq<string>>,
                 owner: Option<string>, j: Key)
    requires ShowsKey(s, m, t, k) && ShowsKey(s, m, t, j)
    ensures ShowsKey(SetTo(s, t, k, v, ttl, tags, owner),
                     m[k := Rewritten(m, t, k, v, Span(ttl, s.defaultTtl), tags, owner)], t, j)
  {
  }

  lemma MetadataShows(s: Store, m: Items, t: Time, op: Op, k: Key)
    requires (op.UpdateTags? || op.Touch? || op.Get?) && ShowsKey(s, m, t, op.k) && ShowsKey(s, m, t, k)
    ensures ShowsKey(Apply(s, t, op), ShouldBe(m, t, op, s.defaultTtl, true), t, k)
  {
  }

  lemma RemovalShows(s: Store, m: Items, t: Time, op: Op, k: Key)
    requires (op.Delete? || op.Clear?) && ShowsKey(s, m, t, k)
    ensures ShowsKey(Apply(s, t, op), ShouldBe(m, t, op, s.defaultTtl, true), t, k)
  {
  }

  lemma PutShows(s: Store, m: Items, t: Time, k: Key, v: Value, ttl: Option<int>)
    requires ShowsKey(s, m, t, k)
    ensures AsItem(PutEntry(s, t, k, v, ttl)) == Rewritten(m, t, k, v, Span(ttl, s.defaultTtl), None, None)
  {
  }

  lemma AtomicShows(s: Store, m: Items, t: Time, items: Dict<Key, Value>, ttl: Option<int>, k: Key)
    requires items.Valid() && ShowsKey(s, m, t, k)
    ensures var op := AtomicSet(items, ttl); ShowsKey(Apply(s, t, op), ShouldBe(m, t, op, s.defaultTtl, true), t, k)
  {
    PutFirstKeys(s, t, items, |items.keys|, ttl, k);
    assert items.keys[..|items.keys|] == items.keys;
    var s' := Apply(s, t, AtomicSet(items, ttl));
    if k in items.at {
      PutShows(s, m, t, k, items.at[k], ttl);
      assert k in s'.memory && s'.memory[k] == PutEntry(s, t, k, items.at[k], ttl);
    } else {
      assert LiveAt(s', k, t) <==> LiveAt(s, k, t);
    }
  }

  lemma RestartShows(s: Store, m: Items, t: Time, me: ReplicaId, k: Key)
    requires InSync(s, t) && ShowsKey(s, m, t, k)
    ensures ShowsKey(Opened(me, s.defaultTtl, s.disk, t), m, t, k)
  {
    assert k in Visible(s.memory, t) <==> k in Visible(OnDisk(s), t);
    assert k in Visible(s.memory, t) ==> Visible(s.memory, t)[k] == Visible(OnDisk(s), t)[k];
  }

  /** Every operation does to a reader's view exactly what it should. */
  lemma StepShows(s: Store, m: Items, t: Time, op: Op)
    requires WellFormed(op) && InSync(s, t) && Shows(s, m, t)
    ensures Shows(Apply(s, t, op), ShouldBe(m, t, op, s.defaultTtl, Passes(s, op)), t)
    ensures Apply(s, t, op).defaultTtl == s.defaultTtl
  {
    forall k ensures ShowsKey(Apply(s, t, op), ShouldBe(m, t, op, s.defaultTtl, Passes(s, op)), t, k) {
      assert ShowsKey(s, m, t, k);
      match op {
        case Set(j, v, ttl, tags, owner) => SetShows(s, m, t, j, v, ttl, tags, owner, k);
        case SetIfVersion(j, v, expected, ttl, tags) => SetShows(s, m, t, j, v, ttl, tags, None, k);
        case UpdateTags(_, _) => MetadataShows(s, m, t, op, k);
        case Touch(_, _) => MetadataShows(s, m, t, op, k);
        case Delete(_) => RemovalShows(s, m, t, op, k);
        case Clear(_) => RemovalShows(s, m, t, op, k);
        case AtomicSet(items, ttl) => AtomicShows(s, m, t, items, ttl, k);
        case Get(_) => MetadataShows(s, m, t, op, k);
        case MergeVector(_) =>
        case Restart(me) => RestartShows(s, m, t, me, k);
      }
    }
    if op.AtomicSet? { PutFirstKeys(s, t, op.items, |op.items.keys|, op.ttl, ""); }
  }

  /** The items after a run, by the operations alone but for the version tests. */
  ghost function ShouldBeAfter(s: Store, m: Items, run: seq<Timed>): Items
    requires forall i :: 0 <= i < |run| ==> WellFormed(run[i].op)
    decreases run
  {
    if run == [] then m
    else
      var u, op := run[0].t, run[0].op;
      ShouldBeAfter(Apply(s, u, op), ShouldBe(m, u, op, s.defaultTtl, Passes(s, op)), run[1..])
  }

  lemma {:induction false} RunShows(s: Store, m: Items, t: Time, run: seq<Timed>, s': Store, t': Time)
    requires InSync(s, t) && Shows(s, m, t) && Runs(s, t, run, s', t')
    requires forall i :: 0 <= i < |run| ==> WellFormed(run[i].op)
    ensures Shows(s', ShouldBeAfter(s, m, run), t')
    decreases run
  {
    if run != [] {
      var u, op := run[0].t, run[0].op;
      ShowsLater(s, m, t, u);
      VisibleLater(s.memory, OnDisk(s), t, u);
      StepShows(s, m, u, op);
      ApplyKeepsSync(s, t, u, op);
      RunShows(Apply(s, u, op), ShouldBe(m, u, op, s.defaultTtl, Passes(s, op)), u, run[1..], s', t');
    }
  }

  /** After any run from any file, and at any later time, what a reader sees of each key is what the
      operations should have made of the file's items: versions, caching, lazy expiry, restarts and
      the file on disk are invisible. */
  lemma ReadersSeeItems(me: ReplicaId, defaultTtl: int, file: Option<Saved>, t0: Time, run: seq<Timed>, s: Store,
                        t: Time, k: Key, now: Time)
    requires Runs(Opened(me, defaultTtl, file, t0), t0, run, s, t) && t <= now
    requires forall i :: 0 <= i < |run| ==> WellFormed(run[i].op)
    ensures var start := map j | file.Some? && j in file.value.memory :: AsItem(file.value.memory[j]);
            var m := ShouldBeAfter(Opened(me, defaultTtl, file, t0), start, run);
            (LiveAt(s, k, now) <==> Shown(m, k, now)) && (LiveAt(s, k, now) ==> AsItem(s.memory[k]) == m[k])
  {
    var start: Items := map j | file.Some? && j in file.value.memory :: AsItem(file.value.memory[j]);
    var s0 := Opened(me, defaultTtl, file, t0);
    OpenedSyncs(me, defaultTtl, file, t0);
    forall j ensures ShowsKey(s0, start, t0, j) {
    }
    RunShows(s0, start, t0, run, s, t);
    ShowsLater(s, ShouldBeAfter(s0, start, run), t, now);
    assert ShowsKey(s, ShouldBeAfter(s0, start, run), now, k);
  }

  /** A set can be read until its time to live has passed, and leaves other keys alone. */
  lemma SetIsReadable(s: Store, t: Time, k: Key, v: Value, ttl: Option<int>, tags: Option<seq<string>>,
                      owner: Option<string>, u: Time)
    ensures var s' := Apply(s, t, Set(k, v, ttl, tags, owner));
            && k in s'.memory && s'.memory[k].value == v
            && (LiveAt(s', k, u) <==> u <= t + Span(ttl, s.defaultTtl))
            && s'.memory - {k} == s.memory - {k}
  {
  }

  /** A touch lets a live entry live its time to live from now. */
  lemma TouchProlongs(s: Store, t: Time, k: Key, ttl: Option<int>, u: Time)
    requires LiveAt(s, k, t) && t <= u
    ensures LiveAt(Apply(s, t, Touch(k, ttl)), k, u) <==> u <= t + Span(ttl, s.defaultTtl)
  {
  }

  /** The operation rewrites the file. */
  ghost predicate WritesFile(s: Store, t: Time, op: Op) {
    match op
    case Set(_, _, _, _, _) => true
    case SetIfVersion(k, _, expected, _, _) => CasPasses(s, k, expected)
    case UpdateTags(k, _) => LiveAt(s, k, t)
    case Touch(k, _) => LiveAt(s, k, t)
    case Delete(gone) => exists k :: k in gone && k in s.memory
    case Clear(agent) => exists k :: k in s.memory && (agent.None? || s.memory[k].owner == agent.value)
    case AtomicSet(_, _) => true
    case Get(_) => false
    case MergeVector(_) => false
    case Restart(_) => false
  }

  /** A file that is rewritten holds exactly the live entries, as they are in memory, and the vector;
      otherwise it stays as it was. */
  lemma FileAfter(s: Store, t: Time, op: Op)
    requires WellFormed(op)
    ensures var s' := Apply(s, t, op);
            if WritesFile(s, t, op) then
              && s'.disk.Some? && s'.disk.value.vv == s'.vv
              && (forall k :: k in s'.disk.value.memory <==> LiveAt(s', k, t))
              && (forall k :: k in s'.disk.value.memory ==> s'.disk.value.memory[k] == s'.memory[k])
            else s'.disk == s.disk
  {
  }

  /** Every entry is stored under its own key. */
  ghost predicate Keyed(m: map<Key, Entry>) {
    forall k :: k in m ==> m[k].key == k
  }

  lemma StepKeepsKeys(s: Store, t: Time, op: Op)
    requires WellFormed(op) && Keyed(s.memory) && Keyed(OnDisk(s))
    ensures Keyed(Apply(s, t, op).memory) && Keyed(OnDisk(Apply(s, t, op)))
  {
    if op.AtomicSet? {
      forall k ensures var s' := PutFirst(s, t, op.items, |op.items.keys|, op.ttl);
                       k in s'.memory ==> s'.memory[k].key == k {
        PutFirstKeys(s, t, op.items, |op.items.keys|, op.ttl, k);
      }
    }
  }

  lemma {:induction false} RunKeepsKeys(s: Store, t: Time, run: seq<Timed>, s': Store, t': Time)
    requires Runs(s, t, run, s', t') && Keyed(s.memory) && Keyed(OnDisk(s))
    ensures Keyed(s'.memory) && Keyed(OnDisk(s'))
    decreases run
  {
    if run != [] {
      StepKeepsKeys(s, run[0].t, run[0].op);
      RunKeepsKeys(Apply(s, run[0].t, run[0].op), run[0].t, run[1..], s', t');
    }
  }

  /** After a get the version test decides as the version a reader is told (0 for none). */
  lemma GetSettlesVersions(s: Store, t: Time, k: Key, expected: int)
    ensures CasPasses(Apply(s, t, Get(k)), k, expected) <==>
            expected == if LiveAt(s, k, t) then s.memory[k].version else 0
  {
  }

  /** An expired entry nobody has read since. */
  predicate Leftover(s: Store, k: Key, t: Time) {
    k in s.memory && Expired(s.memory[k], t)
  }

  ghost predicate AnotherPasses(s: Store, t: Time, k: Key, expected: int) {
    exists run, s', t' :: Lifetime(s, t, run, s', t', k) && CasPasses(s', k, expected)
  }

  /** After a compare-and-set succeeds, another one with the same expected version can succeed in
      the same lifetime exactly when the first overwrote an expired leftover and the vector's
      count had not yet reached the expected version. Expected version 0 is covered. */
  lemma SecondWinnerIff(s: Store, t: Time, k: Key, v: Value, expected: int, ttl: Option<int>, tags: Option<seq<string>>)
    requires CasPasses(s, k, expected)
    requires LiveAt(CasTo(s, t, k, v, expected, ttl, tags), k, t)
    ensures AnotherPasses(CasTo(s, t, k, v, expected, ttl, tags), t, k, expected) <==>
            Leftover(s, k, t) && Count(s.vv, s.me) < expected
  {
    var s1 := CasTo(s, t, k, v, expected, ttl, tags);
    if Leftover(s, k, t) && Count(s.vv, s.me) < expected {
      var run, s' := Raise(s1, t, k, expected);
      assert CasPasses(s', k, expected);
    } else {
      forall run, s', t' | Lifetime(s1, t, run, s', t', k) ensures !CasPasses(s', k, expected) {
        VersionsRise(s1, t, run, s', t', k);
      }
    }
  }

  /** Plain sets bring a live key to any higher version. */
  lemma {:induction false} Raise(s: Store, t: Time, k: Key, target: int) returns (run: seq<Timed>, s': Store)
    requires LiveAt(s, k, t) && s.memory[k].version <= target
    ensures Lifetime(s, t, run, s', t, k) && k in s'.memory && s'.memory[k].version == target
    decreases target - s.memory[k].version
  {
    if s.memory[k].version == target {
      run, s' := [], s;
    } else {
      var op := Set(k, "", Some(0), None, None);
      var tail: seq<Timed>;
      tail, s' := Raise(Apply(s, t, op), t, k, target);
      run := [Timed(t, op)] + tail;
      assert run[1..] == tail;
    }
  }

  /** Two compare-and-sets expecting version 2 both succeed, in a context without a file: a set and
      an update bring the key to version 2, it expires, the first compare-and-set recreates it, and
      the recreated entry has version 2 again. */
  lemma TwoWinners()
    ensures exists run, s, t, now ::
              && Runs(Opened("me", 3600, None, 0), 0, run, s, t) && t <= now
              && CasPasses(s, "k", 2) && CasPasses(CasTo(s, now, "k", "first", 2, None, None), "k", 2)
              && LiveAt(CasTo(s, now, "k", "first", 2, None, None), "k", now)
  {
    var run := [Timed(0, Set("k", "v", None, None, None)), Timed(1, Set("k", "v", Some(5), None, None))];
    var s0 := Opened("me", 3600, None, 0);
    var s1 := Apply(s0, 0, run[0].op);
    var s2 := Apply(s1, 1, run[1].op);
    assert run[1..] == [run[1]] && run[1..][1..] == [];
    assert Runs(s1, 0, [run[1]], s2, 1);
    assert s2.memory["k"] == Entry("k", "v", 2, 0, 1, Some(5), "unknown", [], 0);
    var s3 := CasTo(s2, 100, "k", "first", 2, None, None);
    assert s3.memory["k"].version == 2 && LiveAt(s3, "k", 100);
    assert Runs(s0, 0, run, s2, 1);
    assert CasPasses(s2, "k", 2) && CasPasses(s3, "k", 2);
  }

  /** `set_if_version` decides as the version a reader is told (0 for none), except exactly on an
      expired leftover whose version equals the expected one, or when 0 is expected. */
  lemma CasMatchesReaderIff(s: Store, t: Time, k: Key, expected: int)
    ensures (CasPasses(s, k, expected) <==>
             (if LiveAt(s, k, t) then s.memory[k].version == expected else expected == 0))
            <==> !(Leftover(s, k, t) && (expected == 0) != (s.memory[k].version == expected))
  {
  }

  // ----- the store speaks the version-vector protocol -----

  /** `s` is the context of a running replica, and its file's vector is a copy that was handed out. */
  ghost predicate Represents(s: Store, sys: System) {
    && s.me in sys.replicas && sys.replicas[s.me].clock == s.vv
    && (s.disk.Some? ==> Handed(sys, s.disk.value.vv))
  }

  ghost predicate Handed(sys: System, c: Clock) {
    exists k :: k in sys.sent && k.clock == c
  }

  /** Merged vectors are copies of others', and a restarted context has a name nobody had. */
  ghost predicate Fair(s: Store, sys: System, op: Op) {
    && WellFormed(op)
    && (op.MergeVector? ==> Handed(sys, op.remote))
    && (op.Restart? ==> op.me !in sys.replicas)
  }

  /** The operation makes a new entry through `set`. */
  ghost predicate Creates(s: Store, t: Time, op: Op) {
    (op.Set? || (op.SetIfVersion? && CasPasses(s, op.k, op.expected))) && !LiveAt(s, op.k, t)
  }

  /** Apart from merges and restarts, a vector changes exactly when a key is created, by one for the
      context itself, and a file written holds the vector of that moment. */
  lemma VectorStep(s: Store, t: Time, op: Op)
    requires WellFormed(op) && !op.MergeVector? && !op.Restart?
    ensures var s' := Apply(s, t, op);
            && s'.me == s.me && s'.vv == (if Creates(s, t, op) then Incremented(s.vv, s.me) else s.vv)
            && (s'.disk == s.disk || (s'.disk.Some? && s'.disk.value.vv == s'.vv))
  {
    if op.AtomicSet? {
      PutFirstKeepsVector(s, t, op.items, |op.items.keys|, op.ttl);
    }
  }

  lemma {:induction false} PutFirstKeepsVector(s: Store, t: Time, items: Dict<Key, Value>, n: nat, ttl: Option<int>)
    requires n <= |items.keys| && forall k :: k in items.keys ==> k in items.at
    ensures var s' := PutFirst(s, t, items, n, ttl); s'.me == s.me && s'.vv == s.vv && s'.disk == s.disk
  {
    if n > 0 {
      PutFirstKeepsVector(s, t, items, n - 1, ttl);
    }
  }

  /** Every operation of a context is a few steps of the protocol, so what the protocol guarantees
      holds of contexts; no other replica notices, and no copy is lost. */
  lemma StoreRefinesProtocol(s: Store, sys: System, t: Time, op: Op) returns (es: seq<Step>, sys': System)
    requires Represents(s, sys) && Fair(s, sys, op)
    ensures Reaches(sys, es, sys') && Represents(Apply(s, t, op), sys')
    ensures sys'.log == sys.log + if Creates(s, t, op) then [s.me] else []
    ensures sys.sent <= sys'.sent
    ensures forall r :: r in sys.replicas && r != s.me ==> r in sys'.replicas && sys'.replicas[r] == sys.replicas[r]
  {
    var s' := Apply(s, t, op);
    if op.MergeVector? {
      var k :| k in sys.sent && k.clock == op.remote;
      es, sys' := OneStep(sys, MergeIn(s.me, k));
    } else if op.Restart? {
      var from := None;
      if s.disk.Some? {
        var k :| k in sys.sent && k.clock == s.disk.value.vv;
        from := Some(k);
      }
      es, sys' := OneStep(sys, Start(op.me, from));
    } else {
      VectorStep(s, t, op);
      var mid := if Creates(s, t, op) then After(sys, Create(s.me)) else sys;
      sys' := After(mid, CopyOut(s.me));
      es := (if Creates(s, t, op) then [Create(s.me)] else []) + [CopyOut(s.me)];
      CreateThenCopy(sys, s.me, Creates(s, t, op));
      assert mid.replicas[s.me] in sys'.sent && mid.replicas[s.me].clock == s'.vv;
    }
  }

  lemma OneStep(sys: System, e: Step) returns (es: seq<Step>, sys': System)
    requires Enabled(sys, e)
    ensures es == [e] && sys' == After(sys, e) && Reaches(sys, es, sys')
  {
    es, sys' := [e], After(sys, e);
    assert es[1..] == [];
  }

  lemma CreateThenCopy(sys: System, r: ReplicaId, creates: bool)
    requires r in sys.replicas
    ensures var mid := if creates then After(sys, Create(r)) else sys;
            Reaches(sys, (if creates then [Create(r)] else []) + [CopyOut(r)], After(mid, CopyOut(r)))
  {
    var mid := if creates then After(sys, Create(r)) else sys;
    assert [CopyOut(r)][1..] == [];
    assert Reaches(mid, [CopyOut(r)], After(mid, CopyOut(r)));
    if creates {
      assert ([Create(r)] + [CopyOut(r)])[1..] == [CopyOut(r)];
    } else {
      assert [] + [CopyOut(r)] == [CopyOut(r)];
    }
  }

  // ----- the objects -----

  class ContextEntry {
    const key: Key
    const value: Value
    const version: int
    const createdAt: Time
    const owner: string
    var updatedAt: Time
    var ttl: Option<int>
    var tags: seq<string>
    var accessCount: nat

    constructor (e: Entry)
      ensures Value() == e
    {
      key, value, version, createdAt, owner := e.key, e.value, e.version, e.created, e.owner;
      updatedAt, ttl, tags, accessCount := e.updated, e.ttl, e.tags, e.accesses;
    }

    function Value(): Entry
      reads this
    {
      Entry(key, value, version, createdAt, updatedAt, ttl, owner, tags, accessCount)
    }

    predicate IsExpired(now: Time)
      reads this
    {
      ttl.Some? && now > updatedAt + ttl.value
    }
  }

  lemma DropOne<K, V>(was: map<K, V>, gone: set<K>, k: K)
    ensures was - (gone + {k}) == (was - gone) - {k}
    ensures k in was - gone ==> |was - (gone + {k})| == |was - gone| - 1
    ensures k !in was - gone ==> was - (gone + {k}) == was - gone
  {
    if k in was - gone {
      assert (was - (gone + {k})).Keys == (was - gone).Keys - {k};
    }
  }

  class SharedContext {
    const me: ReplicaId
    const defaultTtl: int
    var memory: map<Key, ContextEntry>
    var vv: VersionVector
    /** What the file at the persist path holds. */
    var disk: Option<Saved>

    ghost predicate Valid()
      reads this
    {
      forall i, j :: i in memory && j in memory && i != j ==> memory[i] != memory[j]
    }

    ghost function Model(): Store
      reads this, memory.Values, vv
    {
      Store(me, defaultTtl, map k | k in memory :: memory[k].Value(), vv.clock, disk)
    }

    /** `_load_from_disk` on a new context. */
    constructor (me: ReplicaId, defaultTtl: int, file: Option<Saved>, now: Time)
      ensures Valid() && Model() == Opened(me, defaultTtl, file, now)
    {
      this.me, this.defaultTtl, disk, memory := me, defaultTtl, file, map[];
      vv := new VersionVector(map[]);
      new;
      if file.Some? {
        LoadEntries(file.value.memory, now);
        vv := new VersionVector(file.value.vv);
        assert Model().memory == Unexpired(file.value.memory, now);
      }
    }

    method LoadEntries(stored: map<Key, Entry>, now: Time)
      requires memory == map[]
      modifies this`memory
      ensures Valid() && fresh(memory.Values) && memory.Keys == Unexpired(stored, now).Keys
      ensures forall k :: k in memory ==> memory[k].Value() == stored[k]
    {
      var todo := stored.Keys;
      while todo != {}
        invariant todo <= stored.Keys && Valid()
        invariant forall k :: k in memory ==> fresh(memory[k])
        invariant forall k :: k in memory <==> k in stored && k !in todo && !Expired(stored[k], now)
        invariant forall k :: k in memory ==> memory[k].Value() == stored[k]
      {
        var k :| k in todo;
        var entry := new ContextEntry(stored[k]);
        if !entry.IsExpired(now) {
          memory := memory[k := entry];
        }
        todo := todo - {k};
      }
    }

    method Persist(now: Time)
      requires Valid()
      modifies this`disk
      ensures Valid() && Model() == Persisted(old(Model()), now)
    {
      disk := Some(Saved(map k | k in memory && !memory[k].IsExpired(now) :: memory[k].Value(), vv.clock));
      assert Model().memory == old(Model()).memory;
      assert disk.value.memory == Unexpired(Model().memory, now);
    }

    /** What the memory with one key put stands for. */
    twostate lemma MemoryWith(k: Key)
      requires k in memory && memory.Keys == old(memory).Keys + {k}
      requires forall j :: j in memory && j != k ==> memory[j] == old(memory[j]) && unchanged(memory[j])
      ensures Model().memory == old(Model()).memory[k := memory[k].Value()]
    {
    }

    /** `self._memory[key] = entry` */
    method Insert(k: Key, e: Entry) returns (entry: ContextEntry)
      requires Valid()
      modifies this`memory
      ensures Valid() && fresh(entry) && memory == old(memory)[k := entry]
      ensures Model() == old(Model()).(memory := old(Model()).memory[k := e])
    {
      entry := new ContextEntry(e);
      memory := memory[k := entry];
      MemoryWith(k);
    }

    method Put(now: Time, key: Key, value: Value, ttl: Option<int>, tags: Option<seq<string>>, owner: Option<string>)
      returns (entry: ContextEntry)
      requires Valid()
      modifies this, vv
      ensures Valid() && vv == old(vv) && memory == old(memory)[key := entry] && fresh(entry)
      ensures Model() == SetTo(old(Model()), now, key, value, ttl, tags, owner)
    {
      var e: Entry;
      var actualTtl := if ttl.Some? then ttl else Some(defaultTtl);
      if key in memory && !memory[key].IsExpired(now) {
        var existing := memory[key];
        e := Entry(key, value, existing.version + 1, existing.createdAt, now, actualTtl,
                   NameOr(owner, existing.owner),
                   if tags.Some? then tags.value else existing.tags, existing.accessCount);
      } else {
        vv.Increment(me);
        e := Entry(key, value, Count(vv.clock, me), now, now, actualTtl, NameOr(owner, "unknown"),
                   if tags.Some? then tags.value else [], 0);
      }
      assert e == SetEntry(old(Model()), now, key, value, ttl, tags, owner);
      assert Model().memory == old(Model()).memory;
      entry := Insert(key, e);
      Persist(now);
    }

    method PutIfVersion(now: Time, key: Key, value: Value, expected: int, ttl: Option<int>, tags: Option<seq<string>>)
      returns (ok: bool)
      requires Valid()
      modifies this, vv
      ensures Valid() && vv == old(vv)
      ensures ok == CasPasses(old(Model()), key, expected)
      ensures Model() == CasTo(old(Model()), now, key, value, expected, ttl, tags)
    {
      if key !in memory {
        if expected != 0 {
          return false;
        }
      } else if memory[key].version != expected {
        return false;
      }
      var _ := Put(now, key, value, ttl, tags, None);
      return true;
    }

    method ReplaceTags(now: Time, key: Key, tags: seq<string>) returns (ok: bool)
      requires Valid()
      modifies this, memory.Values
      ensures Valid() && vv == old(vv) && memory == old(memory)
      ensures ok == LiveAt(old(Model()), key, now)
      ensures Model() == Retagged(old(Model()), now, key, tags)
    {
      if key !in memory || memory[key].IsExpired(now) {
        return false;
      }
      var entry := memory[key];
      entry.tags := tags;
      entry.accessCount := entry.accessCount + 1;
      assert Model().memory == old(Model()).memory[key := entry.Value()];
      Persist(now);
      return true;
    }

    method Refresh(now: Time, key: Key, ttl: Option<int>) returns (ok: bool)
      requires Valid()
      modifies this, memory.Values
      ensures Valid() && vv == old(vv) && memory == old(memory)
      ensures ok == LiveAt(old(Model()), key, now)
      ensures Model() == Touched(old(Model()), now, key, ttl)
    {
      if key !in memory || memory[key].IsExpired(now) {
        return false;
      }
      var entry := memory[key];
      entry.ttl := if ttl.Some? then ttl else Some(defaultTtl);
      entry.updatedAt := now;
      entry.accessCount := entry.accessCount + 1;
      assert Model().memory == old(Model()).memory[key := entry.Value()];
      Persist(now);
      return true;
    }

    /** What the memory without some keys stands for. */
    twostate lemma MemoryWithout(gone: set<Key>)
      requires memory == old(memory) - gone
      requires forall k :: k in memory ==> unchanged(memory[k])
      ensures Model().memory == old(Model()).memory - gone
    {
    }

    method Remove(now: Time, key: Key) returns (ok: bool)
      requires Valid()
      modifies this
      ensures Valid() && vv == old(vv) && ok == (key in old(memory))
      ensures Model() == Without(old(Model()), now, {key})
    {
      ok := key in memory;
      if ok {
        memory := memory - {key};
        MemoryWithout({key});
        Persist(now);
      }
    }

    method DeleteMany(now: Time, keys: seq<Key>) returns (count: nat)
      requires Valid()
      modifies this
      ensures Valid() && vv == old(vv)
      ensures count == |old(memory)| - |memory|
      ensures Model() == Without(old(Model()), now, Elements(keys))
    {
      count := Drop(keys);
      MemoryWithout(Elements(keys));
      if count != 0 {
        Persist(now);
      }
    }

    method Drop(keys: seq<Key>) returns (count: nat)
      requires Valid()
      modifies this`memory
      ensures Valid() && memory == old(memory) - Elements(keys) && count == |old(memory)| - |memory|
      ensures count == 0 <==> old(memory).Keys !! Elements(keys)
    {
      count := 0;
      ghost var was, gone: set<Key> := memory, {};
      for i := 0 to |keys|
        invariant gone == Elements(keys[..i]) && memory == was - gone
        invariant count == |was| - |memory|
        invariant count == 0 <==> was.Keys !! gone
      {
        assert Elements(keys[..i + 1]) == gone + {keys[i]};
        DropOne(was, gone, keys[i]);
        if keys[i] in memory {
          memory := memory - {keys[i]};
          count := count + 1;
        }
        gone := gone + {keys[i]};
      }
      assert keys[..|keys|] == keys;
    }

    method ClearOwned(now: Time, agent: Option<string>) returns (count: nat)
      requires Valid()
      modifies this
      ensures Valid() && vv == old(vv)
      ensures count == |OwnedBy(old(Model()), agent)|
      ensures Model() == Without(old(Model()), now, OwnedBy(old(Model()), agent))
    {
      ghost var gone := OwnedBy(Model(), agent);
      count := DropOwned(agent);
      MemoryWithout(gone);
      if count != 0 {
        Persist(now);
      }
    }

    /** Lines 322-329. */
    method DropOwned(agent: Option<string>) returns (count: nat)
      requires Valid()
      modifies this`memory
      ensures Valid() && memory == old(memory) - OwnedBy(old(Model()), agent)
      ensures count == |OwnedBy(old(Model()), agent)|
      ensures count == 0 <==> old(memory).Keys !! OwnedBy(old(Model()), agent)
    {
      ghost var was := memory;
      ghost var gone := OwnedBy(Model(), agent);
      assert gone <= was.Keys;
      if agent.None? {
        assert gone == memory.Keys;
        count := |memory|;
        memory := map[];
      } else {
        var toDelete := set k | k in memory && memory[k].owner == agent.value;
        assert toDelete == gone;
        count := |toDelete|;
        DropEach(toDelete);
      }
    }

    /** `for k in to_delete: del self._memory[k]` */
    method DropEach(keys: set<Key>)
      requires Valid()
      modifies this`memory
      ensures Valid() && memory == old(memory) - keys
    {
      var todo := keys;
      while todo != {}
        invariant Valid() && memory - todo == old(memory) - keys
      {
        var k :| k in todo;
        assert memory - todo == (memory - {k}) - (todo - {k});
        todo := todo - {k};
        memory := memory - {k};
      }
      assert memory - {} == memory;
    }

    method AtomicPut(now: Time, items: Dict<Key, Value>, ttl: Option<int>)
      requires Valid() && items.Valid()
      modifies this
      ensures Valid() && vv == old(vv)
      ensures Model() == Persisted(PutFirst(old(Model()), now, items, |items.keys|, ttl), now)
    {
      for i := 0 to |items.keys|
        invariant Valid() && vv == old(vv)
        invariant Model() == PutFirst(old(Model()), now, items, i, ttl)
      {
        PutItem(now, items.keys[i], items.at[items.keys[i]], ttl);
      }
      Persist(now);
    }

    /** Lines 344-367. */
    method PutItem(now: Time, key: Key, value: Value, ttl: Option<int>)
      requires Valid()
      modifies this`memory
      ensures Valid() && Model() == PutOne(old(Model()), now, key, value, ttl)
    {
      var actualTtl := if ttl.Some? then ttl else Some(defaultTtl);
      var e := Entry(key, value, 1, now, now, actualTtl, "unknown", [], 0);
      if key in memory && !memory[key].IsExpired(now) {
        var existing := memory[key];
        e := Entry(key, value, existing.version + 1, existing.createdAt, now, actualTtl,
                   existing.owner, existing.tags, existing.accessCount);
      }
      assert e == PutEntry(Model(), now, key, value, ttl);
      var _ := Insert(key, e);
    }

    method Lookup(now: Time, key: Key) returns (value: Option<Value>)
      requires Valid()
      modifies this, memory.Values
      ensures Valid() && vv == old(vv)
      ensures value == if LiveAt(old(Model()), key, now) then Some(old(Model()).memory[key].value) else None
      ensures Model() == Read(old(Model()), now, key)
    {
      if key !in memory {
        return None;
      }
      var entry := memory[key];
      if entry.IsExpired(now) {
        memory := memory - {key};
        MemoryWithout({key});
        return None;
      }
      entry.accessCount := entry.accessCount + 1;
      return Some(entry.value);
    }

    /** `version_for`: what a reader is told, None for a missing or expired entry. */
    method VersionFor(now: Time, key: Key) returns (version: Option<int>)
      requires Valid()
      ensures version == if LiveAt(Model(), key, now) then Some(Model().memory[key].version) else None
    {
      if key !in memory || memory[key].IsExpired(now) {
        return None;
      }
      return Some(memory[key].version);
    }

    method GetVersionVector() returns (copy: VersionVector)
      requires Valid()
      ensures fresh(copy) && copy.clock == vv.clock
    {
      copy := vv.Copy();
    }

    method MergeVersionVector(remote: VersionVector)
      requires Valid()
      modifies vv
      ensures Valid() && Model() == old(Model()).(vv := Merged(old(vv.clock), old(remote.clock)))
    {
      vv.Merge(remote);
    }
  }
}
