/** `rann_agent/orchestration/shared_context.py`. Several contexts on one file, as all contexts with
    the default path are: each writes the whole file from its own memory. */
module SharedFiles {
  import opened Prelude
  import opened VersionVectors
  import opened SharedStore

  /** The contexts by name, the file, and (history only) whose operation last changed it. A context's
      own `disk` is the file as it last met it. */
  datatype Group = Group(contexts: map<ReplicaId, Store>, file: Option<Saved>, writer: Option<ReplicaId>)

  datatype Event = Open(r: ReplicaId, t: Time, defaultTtl: int) | Act(r: ReplicaId, t: Time, op: Op)

  ghost predicate Possible(g: Group, e: Event) {
    match e
    case Open(r, _, _) => r !in g.contexts
    case Act(r, _, op) => r in g.contexts && WellFormed(op) && !op.Restart?
  }

  /** The context as it is now, on the file as it is now. */
  function OnFile(g: Group, r: ReplicaId): Store
    requires r in g.contexts
  {
    g.contexts[r].(disk := g.file)
  }

  ghost function Became(g: Group, e: Event): Group
    requires Possible(g, e)
  {
    match e
    case Open(r, t, defaultTtl) => g.(contexts := g.contexts[r := Opened(r, defaultTtl, g.file, t)])
    case Act(r, t, op) =>
      var s := Apply(OnFile(g, r), t, op);
      Group(g.contexts[r := s], s.disk, if s.disk == g.file then g.writer else Some(r))
  }

  /** A run at non-decreasing clock readings, from `t` to `u`. */
  ghost predicate Arises(g: Group, t: Time, es: seq<Event>, h: Group, u: Time)
    decreases es
  {
    if es == [] then g == h && t == u
    else t <= es[0].t && Possible(g, es[0]) && Arises(Became(g, es[0]), es[0].t, es[1..], h, u)
  }

  /** Before the first write every context agrees with the file, and from then on the last writer. */
  ghost predicate Inv(g: Group, t: Time) {
    if g.writer.None? then forall r :: r in g.contexts ==> InSync(OnFile(g, r), t)
    else g.writer.value in g.contexts && InSync(OnFile(g, g.writer.value), t)
  }

  lemma {:induction false} SyncLasts(s: Store, t: Time, u: Time)
    requires InSync(s, t) && t <= u
    ensures InSync(s, u)
  {
    VisibleLater(s.memory, OnDisk(s), t, u);
  }

  /** Whatever a context's memory and the file were, an operation that writes makes them agree. */
  lemma WritingSyncs(s: Store, t: Time, op: Op)
    requires WellFormed(op) && !op.Restart? && Apply(s, t, op).disk != s.disk
    ensures InSync(Apply(s, t, op), t)
  {
    match op {
      case Set(k, v, ttl, tags, owner) => SetSyncs(s, t, k, v, ttl, tags, owner);
      case SetIfVersion(k, v, expected, ttl, tags) => SetSyncs(s, t, k, v, ttl, tags, None);
      case UpdateTags(k, tags) => PersistSyncs(Apply(s, t, op).(disk := s.disk), t);
      case Touch(k, ttl) => PersistSyncs(Apply(s, t, op).(disk := s.disk), t);
      case Delete(gone) => PersistSyncs(s.(memory := s.memory - gone), t);
      case Clear(agent) => PersistSyncs(s.(memory := s.memory - OwnedBy(s, agent)), t);
      case AtomicSet(items, ttl) => PersistSyncs(PutFirst(s, t, items, |items.keys|, ttl), t);
      case Get(k) =>
      case MergeVector(remote) =>
    }
  }

  lemma OpenKeepsInv(g: Group, t: Time, e: Event)
    requires Inv(g, t) && Possible(g, e) && t <= e.t && e.Open?
    ensures Inv(Became(g, e), e.t)
  {
    OpenedSyncs(e.r, e.defaultTtl, g.file, e.t);
    forall r | r in g.contexts && InSync(OnFile(g, r), t) ensures InSync(OnFile(g, r), e.t) {
      SyncLasts(OnFile(g, r), t, e.t);
    }
  }

  lemma ActKeepsInv(g: Group, t: Time, e: Event)
    requires Inv(g, t) && Possible(g, e) && t <= e.t && e.Act?
    ensures Inv(Became(g, e), e.t)
  {
    var s, h := Apply(OnFile(g, e.r), e.t, e.op), Became(g, e);
    assert OnFile(h, e.r) == s;
    if s.disk != g.file {
      WritingSyncs(OnFile(g, e.r), e.t, e.op);
    } else {
      forall r | r in g.contexts && InSync(OnFile(g, r), t) ensures InSync(OnFile(h, r), e.t) {
        if r == e.r {
          ApplyKeepsSync(OnFile(g, r), t, e.t, e.op);
        } else {
          SyncLasts(OnFile(g, r), t, e.t);
        }
      }
    }
  }

  lemma {:induction false} RunKeepsInv(g: Group, t: Time, es: seq<Event>, h: Group, u: Time)
    requires Inv(g, t) && Arises(g, t, es, h, u)
    ensures Inv(h, u) && t <= u
    decreases es
  {
    if es != [] {
      match es[0] {
        case Open(_, _, _) => OpenKeepsInv(g, t, es[0]);
        case Act(_, _, _) => ActKeepsInv(g, t, es[0]);
      }
      RunKeepsInv(Became(g, es[0]), es[0].t, es[1..], h, u);
    }
  }

  /** After any run of any number of contexts on one file, and at any later time, opening the file
      shows the live entries of a context exactly when that context shows those of the last writer;
      before anybody has written, always. */
  lemma FileShowsLastWriter(file: Option<Saved>, t: Time, es: seq<Event>, g: Group, u: Time, r: ReplicaId, now: Time)
    requires Arises(Group(map[], file, None), t, es, g, u) && r in g.contexts && u <= now
    ensures g.writer.Some? ==> g.writer.value in g.contexts
    ensures Visible(Opened("", 0, g.file, now).memory, now) == Visible(g.contexts[r].memory, now) <==>
            g.writer.Some? ==> Visible(g.contexts[r].memory, now) == Visible(g.contexts[g.writer.value].memory, now)
  {
    RunKeepsInv(Group(map[], file, None), t, es, g, u);
    var w := if g.writer.Some? then g.writer.value else r;
    SyncLasts(OnFile(g, w), u, now);
    OpenedSyncs("", 0, g.file, now);
    assert OnDisk(Opened("", 0, g.file, now)) == OnDisk(OnFile(g, w));
  }

  /** Two contexts opened on no file: what the second one sets puts the first one's key out of the
      file, though the first still has it. */
  lemma SecondWriterDropsKey()
    ensures exists es, g, u ::
              && Arises(Group(map[], None, None), 0, es, g, u) && g.contexts.Keys == {"a", "b"}
              && LiveAt(g.contexts["a"], "x", u) && !LiveAt(Opened("c", 3600, g.file, u), "x", u)
              && LiveAt(Opened("c", 3600, g.file, u), "y", u)
  {
    var e0, e1 := Open("a", 0, 3600), Open("b", 0, 3600);
    var e2, e3 := Act("a", 0, Set("x", "v", None, None, None)), Act("b", 0, Set("y", "v", None, None, None));
    var g0 := Group(map[], None, None);
    var g1 := Became(g0, e0);
    var g2 := Became(g1, e1);
    var g3 := Became(g2, e2);
    var g4 := Became(g3, e3);
    assert Arises(g4, 0, [], g4, 0);
    ArisesBefore(g3, 0, e3, [], g4, 0);
    ArisesBefore(g2, 0, e2, [e3], g4, 0);
    ArisesBefore(g1, 0, e1, [e2, e3], g4, 0);
    ArisesBefore(g0, 0, e0, [e1, e2, e3], g4, 0);
  }

  lemma ArisesBefore(g: Group, t: Time, e: Event, es: seq<Event>, h: Group, u: Time)
    requires t <= e.t && Possible(g, e) && Arises(Became(g, e), e.t, es, h, u)
    ensures Arises(g, t, [e] + es, h, u)
  {
    assert ([e] + es)[1..] == es;
  }
}
