/** `rann_agent/orchestration/shared_context.py`. Several contexts that exchange copies of their
    version vectors: what `happened_before` says about the keys created through `set`. */
module Clusters {
  import opened Prelude
  import opened VersionVectors
  import opened SharedStore

  /** A context and (history only) the creations its vector has heard of, and those heard of when
      its file was last written. Creations are positions in the log of them all. */
  datatype Peer = Peer(store: Store, heard: set<nat>, onFile: set<nat>)

  /** `log[i]` is the context that made the i-th creation; `copies` holds every vector ever handed
      out, with what it had heard of then. */
  datatype Cluster = Cluster(log: seq<ReplicaId>, peers: map<ReplicaId, Peer>, copies: set<Knowledge>)

  /** An operation of a context, `get_version_vector`, `merge_version_vector`, or opening a context
      under a new name, on no file or on another's. */
  datatype Event =
    | Act(r: ReplicaId, t: Time, op: Op)
    | HandOut(r: ReplicaId)
    | Receive(r: ReplicaId, t: Time, copy: Knowledge)
    | Open(r: ReplicaId, t: Time, defaultTtl: int, from: Option<ReplicaId>)

  const NO_CONTEXTS: Cluster := Cluster([], map[], {})

  ghost predicate Possible(c: Cluster, e: Event) {
    match e
    case Act(r, t, op) => r in c.peers && WellFormed(op) && !op.MergeVector? && !op.Restart?
    case HandOut(r) => r in c.peers
    case Receive(r, t, copy) => r in c.peers && copy in c.copies
    case Open(r, t, defaultTtl, from) => r !in c.peers && (from.Some? ==> from.value in c.peers)
  }

  ghost function Acted(c: Cluster, r: ReplicaId, t: Time, op: Op): Cluster
    requires r in c.peers && WellFormed(op)
  {
    var p := c.peers[r];
    var creates, s' := Creates(p.store, t, op), Apply(p.store, t, op);
    var heard' := p.heard + if creates then {|c.log|} else {};
    var onFile' := if s'.disk == p.store.disk then p.onFile else heard';
    Cluster(c.log + if creates then [r] else [], c.peers[r := Peer(s', heard', onFile')], c.copies)
  }

  ghost function OpenedOn(c: Cluster, r: ReplicaId, t: Time, defaultTtl: int, from: Option<ReplicaId>): Peer
    requires from.Some? ==> from.value in c.peers
  {
    if from.Some? && c.peers[from.value].store.disk.Some? then
      var p := c.peers[from.value];
      Peer(Opened(r, defaultTtl, p.store.disk, t), p.onFile, p.onFile)
    else Peer(Opened(r, defaultTtl, None, t), {}, {})
  }

  ghost function Became(c: Cluster, e: Event): Cluster
    requires Possible(c, e)
  {
    match e
    case Act(r, t, op) => Acted(c, r, t, op)
    case HandOut(r) => c.(copies := c.copies + {Knowledge(c.peers[r].store.vv, c.peers[r].heard)})
    case Receive(r, t, copy) =>
      var p := c.peers[r];
      c.(peers := c.peers[r := p.(store := Apply(p.store, t, MergeVector(copy.clock)), heard := p.heard + copy.heard)])
    case Open(r, t, defaultTtl, from) => c.(peers := c.peers[r := OpenedOn(c, r, t, defaultTtl, from)])
  }

  ghost predicate Arises(c: Cluster, es: seq<Event>, d: Cluster)
    decreases es
  {
    if es == [] then c == d
    else Possible(c, es[0]) && Arises(Became(c, es[0]), es[1..], d)
  }

  // ----- the cluster runs the protocol -----

  /** The context called `r` is replica `r` of the protocol, and its file's vector was handed out. */
  ghost predicate PeerIs(c: Cluster, sys: System, r: ReplicaId)
    requires r in c.peers
  {
    var p := c.peers[r];
    && p.store.me == r && r in sys.replicas && sys.replicas[r] == Knowledge(p.store.vv, p.heard)
    && (p.store.disk.Some? ==> Knowledge(p.store.disk.value.vv, p.onFile) in sys.sent)
  }

  ghost predicate Simulates(c: Cluster, sys: System) {
    && sys.log == c.log && sys.replicas.Keys == c.peers.Keys && c.copies <= sys.sent
    && forall r :: r in c.peers ==> PeerIs(c, sys, r)
  }

  ghost predicate Runnable(c: Cluster) {
    exists es, sys :: Reaches(NOBODY, es, sys) && Simulates(c, sys)
  }

  lemma {:induction false} ReachesThen(s: System, es: seq<Step>, t: System, fs: seq<Step>, u: System)
    requires Reaches(s, es, t) && Reaches(t, fs, u)
    ensures Reaches(s, es + fs, u)
    decreases es
  {
    if es == [] {
      assert es + fs == fs;
    } else {
      assert (es + fs)[1..] == es[1..] + fs;
      ReachesThen(After(s, es[0]), es[1..], t, fs, u);
    }
  }

  lemma ActSimulates(c: Cluster, sys: System, r: ReplicaId, t: Time, op: Op) returns (es: seq<Step>, sys': System)
    requires Simulates(c, sys) && Possible(c, Act(r, t, op))
    ensures Reaches(sys, es, sys') && Simulates(Became(c, Act(r, t, op)), sys')
  {
    var p := c.peers[r];
    assert PeerIs(c, sys, r);
    VectorStep(p.store, t, op);
    var creates := Creates(p.store, t, op);
    var mid := if creates then After(sys, Create(r)) else sys;
    CreateThenCopy(sys, r, creates);
    es, sys' := (if creates then [Create(r)] else []) + [CopyOut(r)], After(mid, CopyOut(r));
    var c' := Became(c, Act(r, t, op));
    assert c.log + [] == c.log;
    assert p.heard + {} == p.heard;
    forall q | q in c'.peers ensures PeerIs(c', sys', q) {
      assert q in c.peers ==> PeerIs(c, sys, q);
    }
  }

  lemma EventSimulates(c: Cluster, sys: System, e: Event) returns (es: seq<Step>, sys': System)
    requires Simulates(c, sys) && Possible(c, e)
    ensures Reaches(sys, es, sys') && Simulates(Became(c, e), sys')
  {
    match e {
      case Act(r, t, op) =>
        es, sys' := ActSimulates(c, sys, r, t, op);
        return;
      case HandOut(r) =>
        assert PeerIs(c, sys, r);
        es, sys' := OneStep(sys, CopyOut(r));
      case Receive(r, t, copy) =>
        assert PeerIs(c, sys, r);
        es, sys' := OneStep(sys, MergeIn(r, copy));
      case Open(r, t, defaultTtl, from) =>
        var source := None;
        if from.Some? && c.peers[from.value].store.disk.Some? {
          var p := c.peers[from.value];
          assert PeerIs(c, sys, from.value);
          source := Some(Knowledge(p.store.disk.value.vv, p.onFile));
        }
        es, sys' := OneStep(sys, Start(r, source));
    }
    var c' := Became(c, e);
    forall q | q in c'.peers ensures PeerIs(c', sys', q) {
      assert q in c.peers ==> PeerIs(c, sys, q);
    }
  }

  lemma {:induction false} ArisenIsRunnable(c: Cluster, es: seq<Event>, d: Cluster)
    requires Runnable(c) && Arises(c, es, d)
    ensures Runnable(d)
    decreases es
  {
    if es != [] {
      var steps, sys :| Reaches(NOBODY, steps, sys) && Simulates(c, sys);
      var more, sys' := EventSimulates(c, sys, es[0]);
      ReachesThen(NOBODY, steps, sys, more, sys');
      ArisenIsRunnable(Became(c, es[0]), es[1..], d);
    }
  }

  /** The vectors in the cluster: the contexts' own, those in their files, and the copies. */
  ghost predicate Held(c: Cluster, k: Knowledge) {
    || (exists r :: r in c.peers && k == Knowledge(c.peers[r].store.vv, c.peers[r].heard))
    || (exists r :: r in c.peers && c.peers[r].store.disk.Some?
                    && k == Knowledge(c.peers[r].store.disk.value.vv, c.peers[r].onFile))
    || k in c.copies
  }

  /** Over every run of any number of contexts, `happened_before` between two vectors is strict
      inclusion of the `set` creations they have heard of. */
  lemma HappenedBeforeIsInclusion(es: seq<Event>, c: Cluster, k: Knowledge, m: Knowledge)
    requires Arises(NO_CONTEXTS, es, c) && Held(c, k) && Held(c, m)
    ensures HappenedBefore(k.clock, m.clock) <==> k.heard < m.heard
    ensures Leq(k.clock, m.clock) <==> k.heard <= m.heard
    ensures forall a :: Count(k.clock, a) <= Creations(c.log, a)
  {
    assert Reaches(NOBODY, [], NOBODY) && Simulates(NO_CONTEXTS, NOBODY);
    ArisenIsRunnable(NO_CONTEXTS, es, c);
    var steps, sys :| Reaches(NOBODY, steps, sys) && Simulates(c, sys);
    HeldExists(c, sys, k);
    HeldExists(c, sys, m);
    VectorsAreExactDigests(steps, sys, k, m);
    ReachableInv(NOBODY, steps, sys);
  }

  lemma HeldExists(c: Cluster, sys: System, k: Knowledge)
    requires Simulates(c, sys) && Held(c, k)
    ensures Exists(sys, k)
  {
    forall r | r in c.peers
      ensures Knowledge(c.peers[r].store.vv, c.peers[r].heard) in sys.replicas.Values
      ensures c.peers[r].store.disk.Some? ==> Knowledge(c.peers[r].store.disk.value.vv, c.peers[r].onFile) in sys.sent
    {
      assert PeerIs(c, sys, r) && sys.replicas[r] in sys.replicas.Values;
    }
  }

  /** A context's own count is the number of keys it created through `set`. */
  lemma OwnCountIsExact(es: seq<Event>, c: Cluster, r: ReplicaId)
    requires Arises(NO_CONTEXTS, es, c) && r in c.peers
    ensures Count(c.peers[r].store.vv, r) == Creations(c.log, r)
  {
    assert Reaches(NOBODY, [], NOBODY) && Simulates(NO_CONTEXTS, NOBODY);
    ArisenIsRunnable(NO_CONTEXTS, es, c);
    var steps, sys :| Reaches(NOBODY, steps, sys) && Simulates(c, sys);
    ReachableInv(NOBODY, steps, sys);
    assert PeerIs(c, sys, r);
  }
}
