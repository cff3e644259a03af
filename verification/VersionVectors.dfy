/** `rann_agent/orchestration/shared_context.py`. Version vectors, and the protocol they serve:
    replicas that create keys, copy out their vector and merge the copies of others. */
module VersionVectors {
  import opened Prelude

  type ReplicaId = string
  type Clock = map<ReplicaId, nat>

  /** `clock.get(agent_id, 0)` */
  function Count(c: Clock, a: ReplicaId): nat {
    if a in c then c[a] else 0
  }

  function Incremented(c: Clock, a: ReplicaId): Clock {
    c[a := Count(c, a) + 1]
  }

  function Merged(c: Clock, d: Clock): Clock {
    map a | a in c.Keys + d.Keys :: if Count(c, a) >= Count(d, a) then Count(c, a) else Count(d, a)
  }

  ghost predicate Leq(c: Clock, d: Clock) {
    forall a :: Count(c, a) <= Count(d, a)
  }

  ghost predicate HappenedBefore(c: Clock, d: Clock) {
    Leq(c, d) && exists a :: Count(c, a) < Count(d, a)
  }

  // ----- order laws -----

  /** `merge` is the least upper bound. */
  lemma MergeIsLub(c: Clock, d: Clock, u: Clock)
    ensures Leq(c, Merged(c, d)) && Leq(d, Merged(c, d))
    ensures Leq(c, u) && Leq(d, u) ==> Leq(Merged(c, d), u)
  {
    forall a ensures Count(Merged(c, d), a) == Max(Count(c, a), Count(d, a)) {
    }
  }

  lemma HappenedBeforeIsStrictOrder(c: Clock, d: Clock, e: Clock)
    ensures !HappenedBefore(c, c)
    ensures HappenedBefore(c, d) && HappenedBefore(d, e) ==> HappenedBefore(c, e)
    ensures HappenedBefore(c, d) ==> !HappenedBefore(d, c)
  {
    if HappenedBefore(c, d) && HappenedBefore(d, e) {
      var a :| Count(c, a) < Count(d, a);
      assert Count(d, a) <= Count(e, a);
      forall b ensures Count(c, b) <= Count(e, b) {
        assert Count(c, b) <= Count(d, b) && Count(d, b) <= Count(e, b);
      }
    }
  }

  // ----- the object -----

  class VersionVector {
    var clock: Clock

    constructor (clock: Clock := map[])
      ensures this.clock == clock
    {
      this.clock := clock;
    }

    method Increment(a: ReplicaId)
      modifies this
      ensures clock == Incremented(old(clock), a)
    {
      clock := clock[a := Count(clock, a) + 1];
    }

    /** The items of `other` are visited in some order; `other` may be this vector. */
    method Merge(other: VersionVector)
      modifies this
      ensures clock == Merged(old(clock), old(other.clock))
    {
      ghost var c, d := clock, other.clock;
      var todo := other.clock.Keys;
      while todo != {}
        invariant todo <= d.Keys && todo <= other.clock.Keys
        invariant forall a :: a in todo ==> other.clock[a] == d[a]
        invariant clock.Keys == c.Keys + (d.Keys - todo)
        invariant forall a :: a in clock ==>
                    clock[a] == if a in todo then Count(c, a) else Count(Merged(c, d), a)
      {
        var a :| a in todo;
        var version := other.clock[a];
        clock := clock[a := if Count(clock, a) >= version then Count(clock, a) else version];
        todo := todo - {a};
      }
    }

    method Precedes(other: VersionVector) returns (before: bool)
      ensures before == HappenedBefore(clock, other.clock)
    {
      var dominated := false;
      var todo := clock.Keys + other.clock.Keys;
      while todo != {}
        invariant forall a :: a !in todo ==> Count(clock, a) <= Count(other.clock, a)
        invariant dominated <==> exists a :: a !in todo && Count(clock, a) < Count(other.clock, a)
      {
        var a :| a in todo;
        var mine, theirs := Count(clock, a), Count(other.clock, a);
        if mine > theirs {
          return false;
        }
        if mine < theirs {
          dominated := true;
        }
        todo := todo - {a};
      }
      return dominated;
    }

    /** `from_dict(to_dict())`: a copy that later changes do not reach. */
    method Copy() returns (v: VersionVector)
      ensures fresh(v) && v.clock == clock
    {
      v := new VersionVector(clock);
    }
  }

  // ----- the protocol -----

  /** What a vector says, and (history only) the create events it has heard of, as positions in
      the global log of creations. */
  datatype Knowledge = Knowledge(clock: Clock, heard: set<nat>)

  /** `log[i]` is the replica that made the i-th creation anywhere; `sent` holds every copy ever
      handed out, so a copy may be lost, delivered twice or delivered late. */
  datatype System = System(log: seq<ReplicaId>, replicas: map<ReplicaId, Knowledge>, sent: set<Knowledge>)

  datatype Step =
    | Create(r: ReplicaId)
    | CopyOut(r: ReplicaId)
    | MergeIn(r: ReplicaId, copy: Knowledge)
    | Start(r: ReplicaId, from: Option<Knowledge>)

  ghost predicate Enabled(s: System, e: Step) {
    match e
    case Create(r) => r in s.replicas
    case CopyOut(r) => r in s.replicas
    case MergeIn(r, copy) => r in s.replicas && copy in s.sent
    case Start(r, from) => r !in s.replicas && (from.Some? ==> from.value in s.sent)
  }

  ghost function After(s: System, e: Step): System
    requires Enabled(s, e)
  {
    match e
    case Create(r) =>
      var k := s.replicas[r];
      s.(log := s.log + [r],
         replicas := s.replicas[r := Knowledge(Incremented(k.clock, r), k.heard + {|s.log|})])
    case CopyOut(r) => s.(sent := s.sent + {s.replicas[r]})
    case MergeIn(r, copy) =>
      var k := s.replicas[r];
      s.(replicas := s.replicas[r := Knowledge(Merged(k.clock, copy.clock), k.heard + copy.heard)])
    case Start(r, from) =>
      s.(replicas := s.replicas[r := if from.Some? then from.value else Knowledge(map[], {})])
  }

  const NOBODY: System := System([], map[], {})

  /** `t` can be reached from `s` by the steps `es`. */
  ghost predicate Reaches(s: System, es: seq<Step>, t: System)
    decreases es
  {
    if es == [] then s == t
    else Enabled(s, es[0]) && Reaches(After(s, es[0]), es[1..], t)
  }

  /** How often `a` created something. */
  function Creations(log: seq<ReplicaId>, a: ReplicaId): nat {
    if log == [] then 0
    else Creations(log[..|log| - 1], a) + if log[|log| - 1] == a then 1 else 0
  }

  /** The i-th creation is its replica's first, second, ... */
  function Rank(log: seq<ReplicaId>, i: nat): nat
    requires i < |log|
  {
    Creations(log[..i + 1], log[i])
  }

  /** The i-th creation was heard of exactly when the vector counts that far. */
  ghost predicate Counted(log: seq<ReplicaId>, k: Knowledge, i: nat)
    requires i < |log|
  {
    i in k.heard <==> Rank(log, i) <= Count(k.clock, log[i])
  }

  ghost predicate Digests(log: seq<ReplicaId>, k: Knowledge) {
    && (forall i :: i in k.heard ==> i < |log|)
    && (forall i: nat :: i < |log| ==> Counted(log, k, i))
    && (forall a :: Count(k.clock, a) <= Creations(log, a))
  }

  ghost predicate Inv(s: System) {
    && (forall r :: r in s.replicas ==> Digests(s.log, s.replicas[r]))
    && (forall r :: r in s.replicas ==> Count(s.replicas[r].clock, r) == Creations(s.log, r))
    && (forall k :: k in s.sent ==> Digests(s.log, k))
    && (forall a :: a !in s.replicas ==> Creations(s.log, a) == 0)
  }

  lemma {:induction false} CreationsOfPrefix(log: seq<ReplicaId>, n: nat, a: ReplicaId)
    requires n <= |log|
    ensures Creations(log[..n], a) <= Creations(log, a)
  {
    if n < |log| {
      assert log[..|log| - 1][..n] == log[..n];
      CreationsOfPrefix(log[..|log| - 1], n, a);
    } else {
      assert log[..n] == log;
    }
  }

  /** Each number up to the count is the rank of some creation. */
  lemma {:induction false} CreationOfRank(log: seq<ReplicaId>, a: ReplicaId, n: nat) returns (i: nat)
    requires 1 <= n <= Creations(log, a)
    ensures i < |log| && log[i] == a && Rank(log, i) == n
  {
    var last := |log| - 1;
    if log[last] == a && n == Creations(log, a) {
      i := last;
      assert log[..i + 1] == log;
    } else {
      i := CreationOfRank(log[..last], a, n);
      assert log[..last][..i + 1] == log[..i + 1];
    }
  }

  lemma RanksAfter(log: seq<ReplicaId>, r: ReplicaId)
    ensures forall a :: Creations(log + [r], a) == Creations(log, a) + if a == r then 1 else 0
    ensures forall i :: 0 <= i < |log| ==> Rank(log + [r], i) == Rank(log, i) <= Creations(log, log[i])
    ensures Rank(log + [r], |log|) == Creations(log, r) + 1
  {
    var log' := log + [r];
    assert log'[..|log|] == log && log'[..|log| + 1] == log';
    forall i | 0 <= i < |log| ensures Rank(log', i) == Rank(log, i) <= Creations(log, log[i]) {
      assert log'[..i + 1] == log[..i + 1];
      CreationsOfPrefix(log, i + 1, log[i]);
    }
  }

  /** A creation nobody else has heard of leaves everybody else's digest exact. */
  lemma DigestAfterOther(log: seq<ReplicaId>, r: ReplicaId, k: Knowledge)
    requires Digests(log, k)
    ensures Digests(log + [r], k)
  {
    RanksAfter(log, r);
    forall i: nat | i < |log + [r]| ensures Counted(log + [r], k, i) {
      if i < |log| {
        assert Counted(log, k, i);
      } else {
        assert Count(k.clock, r) <= Creations(log, r);
      }
    }
  }

  lemma OwnCounted(log: seq<ReplicaId>, r: ReplicaId, k: Knowledge, i: nat)
    requires Digests(log, k) && Count(k.clock, r) == Creations(log, r) && i <= |log|
    ensures Counted(log + [r], Knowledge(Incremented(k.clock, r), k.heard + {|log|}), i)
  {
    RanksAfter(log, r);
    if i < |log| {
      assert Counted(log, k, i);
    }
  }

  lemma OwnCount(log: seq<ReplicaId>, r: ReplicaId, c: Clock)
    requires Count(c, r) == Creations(log, r) && forall a :: Count(c, a) <= Creations(log, a)
    ensures Count(Incremented(c, r), r) == Creations(log + [r], r)
    ensures forall a :: Count(Incremented(c, r), a) <= Creations(log + [r], a)
  {
    RanksAfter(log, r);
  }

  lemma DigestAfterOwn(log: seq<ReplicaId>, r: ReplicaId, k: Knowledge)
    requires Digests(log, k) && Count(k.clock, r) == Creations(log, r)
    ensures Digests(log + [r], Knowledge(Incremented(k.clock, r), k.heard + {|log|}))
    ensures Count(Incremented(k.clock, r), r) == Creations(log + [r], r)
  {
    forall i: nat | i < |log + [r]|
      ensures Counted(log + [r], Knowledge(Incremented(k.clock, r), k.heard + {|log|}), i)
    {
      OwnCounted(log, r, k, i);
    }
    OwnCount(log, r, k.clock);
  }

  lemma DigestOfMerge(log: seq<ReplicaId>, k: Knowledge, m: Knowledge)
    requires Digests(log, k) && Digests(log, m)
    ensures Digests(log, Knowledge(Merged(k.clock, m.clock), k.heard + m.heard))
  {
    var u := Knowledge(Merged(k.clock, m.clock), k.heard + m.heard);
    forall a ensures Count(u.clock, a) == Max(Count(k.clock, a), Count(m.clock, a)) {
    }
    forall i: nat | i < |log| ensures Counted(log, u, i) {
      assert Counted(log, k, i) && Counted(log, m, i);
    }
  }

  lemma StepKeepsInv(s: System, e: Step)
    requires Inv(s) && Enabled(s, e)
    ensures Inv(After(s, e))
  {
    var t := After(s, e);
    match e {
      case Create(r) =>
        CreateKeepsInv(s, r);
      case CopyOut(r) =>
      case MergeIn(r, copy) =>
        DigestOfMerge(s.log, s.replicas[r], copy);
        assert Count(copy.clock, r) <= Creations(s.log, r);
      case Start(r, from) =>
        if from.None? {
          StartsEmpty(s.log);
        } else {
          assert Count(from.value.clock, r) <= Creations(s.log, r);
        }
    }
  }

  lemma StartsEmpty(log: seq<ReplicaId>)
    ensures Digests(log, Knowledge(map[], {}))
  {
    forall i: nat | i < |log| ensures Counted(log, Knowledge(map[], {}), i) {
      assert log[..i + 1][..i] == log[..i];
    }
  }

  lemma CreateKeepsInv(s: System, r: ReplicaId)
    requires Inv(s) && r in s.replicas
    ensures Inv(After(s, Create(r)))
  {
    var t := After(s, Create(r));
    assert t.log[..|s.log|] == s.log;
    DigestAfterOwn(s.log, r, s.replicas[r]);
    forall q | q in t.replicas
      ensures Digests(t.log, t.replicas[q]) && Count(t.replicas[q].clock, q) == Creations(t.log, q)
    {
      DigestAfterOther(s.log, r, s.replicas[q]);
    }
    forall k | k in t.sent ensures Digests(t.log, k) {
      DigestAfterOther(s.log, r, k);
    }
  }

  lemma {:induction false} ReachableInv(s: System, es: seq<Step>, t: System)
    requires Inv(s) && Reaches(s, es, t)
    ensures Inv(t)
    decreases es
  {
    if es != [] {
      StepKeepsInv(s, es[0]);
      ReachableInv(After(s, es[0]), es[1..], t);
    }
  }

  /** The vectors that exist in a system: the replicas' own and the copies handed out. */
  ghost predicate Exists(s: System, k: Knowledge) {
    k in s.replicas.Values || k in s.sent
  }

  lemma DigestOrder(log: seq<ReplicaId>, k: Knowledge, m: Knowledge)
    requires Digests(log, k) && Digests(log, m)
    ensures Leq(k.clock, m.clock) <==> k.heard <= m.heard
  {
    if k.heard <= m.heard {
      forall a ensures Count(k.clock, a) <= Count(m.clock, a) {
        if Count(k.clock, a) > 0 {
          assert Count(k.clock, a) <= Creations(log, a);
          var i := CreationOfRank(log, a, Count(k.clock, a));
          assert Counted(log, k, i) && Counted(log, m, i);
        }
      }
    }
    if Leq(k.clock, m.clock) {
      forall i | i in k.heard ensures i in m.heard {
        assert Counted(log, k, i) && Counted(log, m, i);
        assert Count(k.clock, log[i]) <= Count(m.clock, log[i]);
      }
    }
  }

  /** In every reachable system `happened_before` is exactly strict inclusion of what the two
      vectors have heard of, and pointwise order is inclusion. */
  lemma VectorsAreExactDigests(es: seq<Step>, s: System, k: Knowledge, m: Knowledge)
    requires Reaches(NOBODY, es, s) && Exists(s, k) && Exists(s, m)
    ensures Leq(k.clock, m.clock) <==> k.heard <= m.heard
    ensures HappenedBefore(k.clock, m.clock) <==> k.heard < m.heard
    ensures forall i: nat :: i < |s.log| ==> (i in k.heard <==> Rank(s.log, i) <= Count(k.clock, s.log[i]))
  {
    assert Inv(NOBODY);
    ReachableInv(NOBODY, es, s);
    forall i: nat | i < |s.log| ensures i in k.heard <==> Rank(s.log, i) <= Count(k.clock, s.log[i]) {
      assert Counted(s.log, k, i);
    }
    DigestOrder(s.log, k, m);
    DigestOrder(s.log, m, k);
    if k.heard < m.heard && forall a :: Count(k.clock, a) >= Count(m.clock, a) {
      assert Leq(m.clock, k.clock);
    }
    if HappenedBefore(k.clock, m.clock) {
      var a :| Count(k.clock, a) < Count(m.clock, a);
      assert !Leq(m.clock, k.clock);
    }
  }

  /** Merging a copy hears exactly what either side had heard, whatever the order, and hearing it
      again adds nothing. */
  lemma MergeIsUnion(es: seq<Step>, s: System, r: ReplicaId, copy: Knowledge)
    requires Reaches(NOBODY, es, s) && Enabled(s, MergeIn(r, copy))
    ensures var k := After(s, MergeIn(r, copy)).replicas[r];
            && Digests(s.log, k) && k.heard == s.replicas[r].heard + copy.heard
            && Leq(Merged(k.clock, copy.clock), k.clock)
    ensures forall other :: Exists(s, other) && s.replicas[r].heard + copy.heard <= other.heard ==>
              Leq(After(s, MergeIn(r, copy)).replicas[r].clock, other.clock)
  {
    assert Inv(NOBODY);
    ReachableInv(NOBODY, es, s);
    var mine := s.replicas[r];
    DigestOfMerge(s.log, mine, copy);
    var k := After(s, MergeIn(r, copy)).replicas[r];
    forall other | Exists(s, other) && mine.heard + copy.heard <= other.heard
      ensures Leq(k.clock, other.clock)
    {
      DigestOrder(s.log, k, other);
    }
    MergeIsLub(mine.clock, copy.clock, k.clock);
    MergeIsLub(k.clock, copy.clock, k.clock);
  }
}
