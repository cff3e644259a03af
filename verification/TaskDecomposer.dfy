/** `rann_agent/intelligence/task_decomposer.py`. Splitting a task into subtasks and layering
    subtasks by their dependencies. */
module Decomposer {
  import opened Prelude

  datatype Subtask = Subtask(id: string, description: string, toolHint: string,
                             dependsOn: seq<string>, order: int, difficulty: string)

  // ----- the layering -----

  predicate HasId(s: seq<Subtask>, id: string) {
    exists t :: t in s && t.id == id
  }

  /** No dependency of `t` is the id of a subtask still waiting. */
  predicate Resolved(waiting: seq<Subtask>, t: Subtask) {
    forall dep :: dep in t.dependsOn ==> !HasId(waiting, dep)
  }

  /** The subtasks of `s`, in order, that are (or are not) resolved while `waiting` waits. */
  function Select(s: seq<Subtask>, waiting: seq<Subtask>, resolved: bool): seq<Subtask> {
    if s == [] then []
    else if Resolved(waiting, s[0]) == resolved then [s[0]] + Select(s[1..], waiting, resolved)
    else Select(s[1..], waiting, resolved)
  }

  lemma {:induction false} SelectMembers(s: seq<Subtask>, waiting: seq<Subtask>, resolved: bool)
    ensures forall t :: t in Select(s, waiting, resolved) <==> t in s && Resolved(waiting, t) == resolved
  {
    if s != [] {
      SelectMembers(s[1..], waiting, resolved);
    }
  }

  function Ready(waiting: seq<Subtask>): seq<Subtask> {
    Select(waiting, waiting, true)
  }

  function Unready(waiting: seq<Subtask>): seq<Subtask> {
    Select(waiting, waiting, false)
  }

  lemma {:induction false} SelectAppend(a: seq<Subtask>, b: seq<Subtask>, waiting: seq<Subtask>, resolved: bool)
    ensures Select(a + b, waiting, resolved) == Select(a, waiting, resolved) + Select(b, waiting, resolved)
  {
    if a == [] {
      assert a + b == b;
    } else {
      assert (a + b)[1..] == a[1..] + b;
      SelectAppend(a[1..], b, waiting, resolved);
    }
  }

  /** Splitting by readiness loses nothing and duplicates nothing. */
  lemma {:induction false} SelectSplits(s: seq<Subtask>, waiting: seq<Subtask>)
    ensures multiset(s) == multiset(Select(s, waiting, true)) + multiset(Select(s, waiting, false))
    ensures |s| == |Select(s, waiting, true)| + |Select(s, waiting, false)|
  {
    if s != [] {
      assert s == [s[0]] + s[1..];
      SelectSplits(s[1..], waiting);
    }
  }

  /** The next level: the ready subtasks, or the first one when there are none. */
  function NextLevel(waiting: seq<Subtask>): seq<Subtask>
    requires waiting != []
  {
    if Ready(waiting) != [] then Ready(waiting) else waiting[..1]
  }

  function Rest(waiting: seq<Subtask>): (rest: seq<Subtask>)
    requires waiting != []
    ensures |rest| < |waiting|
  {
    SelectSplits(waiting, waiting);
    if Ready(waiting) != [] then Unready(waiting) else waiting[1..]
  }

  function Levels(waiting: seq<Subtask>): seq<seq<Subtask>>
    decreases |waiting|
  {
    if waiting == [] then [] else [NextLevel(waiting)] + Levels(Rest(waiting))
  }

  function Flatten<T>(levels: seq<seq<T>>): seq<T> {
    if levels == [] then [] else levels[0] + Flatten(levels[1..])
  }

  /** Who is in the next level, and who waits on. */
  lemma NextMembers(w: seq<Subtask>)
    requires w != []
    ensures forall t :: t in w <==> t in NextLevel(w) || t in Rest(w)
    ensures forall t :: t in Ready(w) <==> t in w && Resolved(w, t)
    ensures Ready(w) != [] ==> forall t :: t in Rest(w) <==> t in w && !Resolved(w, t)
  {
    SelectMembers(w, w, true);
    SelectMembers(w, w, false);
    if Ready(w) == [] {
      assert w == w[..1] + w[1..];
    }
  }

  lemma LevelAndRest(s: seq<Subtask>)
    requires s != []
    ensures multiset(NextLevel(s)) + multiset(Rest(s)) == multiset(s)
  {
    if Ready(s) != [] {
      SelectSplits(s, s);
    } else {
      assert s == s[..1] + s[1..];
    }
  }

  /** The concatenated levels are a permutation of the input, cyclic or not, duplicates or not. */
  lemma {:induction false} LevelsPermute(s: seq<Subtask>)
    ensures multiset(Flatten(Levels(s))) == multiset(s)
    decreases |s|
  {
    if s != [] {
      LevelAndRest(s);
      LevelsPermute(Rest(s));
      assert Levels(s)[1..] == Levels(Rest(s));
    }
  }

  /** The subtasks still waiting when level `n` is formed. */
  function At(s: seq<Subtask>, n: nat): seq<Subtask> {
    if n == 0 then s else Next(At(s, n - 1))
  }

  function Next(w: seq<Subtask>): seq<Subtask> {
    if w == [] then [] else Rest(w)
  }

  lemma {:induction false} LevelIsAt(s: seq<Subtask>, n: nat)
    requires n <= |Levels(s)|
    ensures Levels(s)[n..] == Levels(At(s, n))
    ensures n < |Levels(s)| ==> At(s, n) != [] && Levels(s)[n] == NextLevel(At(s, n))
  {
    if n > 0 {
      LevelIsAt(s, n - 1);
      assert Levels(s)[n - 1..][1..] == Levels(s)[n..];
    }
  }

  lemma {:induction false} WaitingAreInputs(s: seq<Subtask>, n: nat)
    ensures forall t :: t in At(s, n) ==> t in s
  {
    if n > 0 {
      WaitingAreInputs(s, n - 1);
      if At(s, n - 1) != [] { NextMembers(At(s, n - 1)); }
    }
  }

  // ----- the fallback -----

  /** Each of these subtasks depends on one of them. */
  predicate Stuck(pool: seq<Subtask>) {
    forall t :: t in pool ==> !Resolved(pool, t)
  }

  /** Only a level made by the fallback, a single subtask taken while everything left was stuck,
      holds a subtask whose dependency comes in the same or a later level. */
  lemma LateDependencyMeansStuck(s: seq<Subtask>, n: nat, t: Subtask, dep: string)
    requires n < |Levels(s)| && t in Levels(s)[n]
    requires dep in t.dependsOn && HasId(Flatten(Levels(s)[n..]), dep)
    ensures |Levels(s)[n]| == 1 && Stuck(Flatten(Levels(s)[n..]))
  {
    LevelIsAt(s, n);
    var w := At(s, n);
    LevelsPermute(w);
    SameMembers(Flatten(Levels(w)), w, t);
    NextMembers(w);
    forall u | u in w ensures !Resolved(Flatten(Levels(w)), u) {
      SameMembers(Flatten(Levels(w)), w, u);
    }
  }

  lemma SameMembers(a: seq<Subtask>, b: seq<Subtask>, t: Subtask)
    requires multiset(a) == multiset(b)
    ensures forall u :: u in a <==> u in b
    ensures Resolved(a, t) <==> Resolved(b, t)
  {
    forall u ensures u in a <==> u in b {
      assert multiset(a)[u] == multiset(b)[u];
    }
  }

  /** A layering puts every dependency that is in the list strictly earlier. */
  ghost predicate Layering(s: seq<Subtask>, level: map<Subtask, nat>) {
    && (forall t :: t in s ==> t in level)
    && (forall t, u :: t in s && u in s && u.id in t.dependsOn ==> level[u] < level[t])
  }

  ghost predicate NeverStuck(s: seq<Subtask>) {
    forall n :: At(s, n) != [] ==> Ready(At(s, n)) != []
  }

  lemma {:induction false} Lowest(w: seq<Subtask>, level: map<Subtask, nat>) returns (t: Subtask)
    requires w != [] && forall t :: t in w ==> t in level
    ensures t in w && forall u :: u in w ==> level[t] <= level[u]
  {
    t := w[0];
    if |w| > 1 {
      var u := Lowest(w[1..], level);
      t := if level[u] < level[t] then u else t;
    }
  }

  lemma LayeredHasReady(w: seq<Subtask>, level: map<Subtask, nat>)
    requires w != [] && Layering(w, level)
    ensures Ready(w) != []
  {
    var t := Lowest(w, level);
    assert Resolved(w, t);
    NextMembers(w);
    assert t in Ready(w);
  }

  /** The level the loop gives to `t`. */
  function LevelOf(s: seq<Subtask>, t: Subtask): nat
    requires t in s
    decreases |s|
  {
    if t in NextLevel(s) then 0
    else
      StillWaiting(s, t);
      1 + LevelOf(Rest(s), t)
  }

  lemma StillWaiting(s: seq<Subtask>, t: Subtask)
    requires t in s && t !in NextLevel(s)
    ensures t in Rest(s)
  {
    NextMembers(s);
  }

  lemma {:induction false} DependencyIsEarlier(s: seq<Subtask>, t: Subtask, u: Subtask)
    requires t in s && u in s && u.id in t.dependsOn && NeverStuck(s)
    ensures LevelOf(s, u) < LevelOf(s, t)
    decreases |s|
  {
    assert At(s, 0) == s;
    assert HasId(s, u.id);
    NextMembers(s);
    assert t !in NextLevel(s);
    StillWaiting(s, t);
    if u !in NextLevel(s) {
      StillWaiting(s, u);
      NeverStuckRest(s);
      DependencyIsEarlier(Rest(s), t, u);
    }
  }

  lemma NeverStuckRest(s: seq<Subtask>)
    requires s != [] && NeverStuck(s)
    ensures NeverStuck(Rest(s))
  {
    var r := Rest(s);
    forall n: nat | At(r, n) != [] ensures Ready(At(r, n)) != [] {
      AtRest(s, n);
      assert At(r, n) == At(s, n + 1);
    }
  }

  lemma {:induction false} AtRest(s: seq<Subtask>, n: nat)
    ensures At(Next(s), n) == Next(At(s, n))
  {
    if n > 0 {
      AtRest(s, n - 1);
    }
  }

  /** The fallback is never used exactly when some valid layering exists. */
  lemma NeverStuckIffLayerable(s: seq<Subtask>)
    ensures NeverStuck(s) <==> exists level :: Layering(s, level)
  {
    if NeverStuck(s) {
      var level := map t | t in s :: LevelOf(s, t);
      forall t, u | t in s && u in s && u.id in t.dependsOn ensures level[u] < level[t] {
        DependencyIsEarlier(s, t, u);
      }
      assert Layering(s, level);
    }
    forall level, n: nat | Layering(s, level) && At(s, n) != [] ensures Ready(At(s, n)) != [] {
      WaitingAreInputs(s, n);
      LayeredHasReady(At(s, n), level);
    }
  }

  // ----- dependency chains -----

  /** The i-th subtask depends on the one before it. */
  predicate Linked(c: seq<Subtask>, i: nat)
    requires 0 < i < |c|
  {
    c[i - 1].id in c[i].dependsOn
  }

  /** A chain of dependencies in `s`, earliest first. */
  ghost predicate Chain(s: seq<Subtask>, c: seq<Subtask>) {
    && c != []
    && (forall t :: t in c ==> t in s)
    && (forall i :: 0 < i < |c| ==> Linked(c, i))
  }

  /** The earliest subtask depends on the latest. */
  predicate Closes(c: seq<Subtask>) {
    c != [] && c[|c| - 1].id in c[0].dependsOn
  }

  /** Some chain of dependencies closes. */
  ghost predicate Cyclic(s: seq<Subtask>) {
    exists c :: Chain(s, c) && Closes(c)
  }

  ghost predicate ChainTo(s: seq<Subtask>, c: seq<Subtask>, t: Subtask) {
    Chain(s, c) && c[|c| - 1] == t
  }

  lemma ChainInit(s: seq<Subtask>, c: seq<Subtask>)
    requires Chain(s, c) && |c| > 1
    ensures Chain(s, c[..|c| - 1])
  {
    var d := c[..|c| - 1];
    forall i | 0 < i < |d| ensures Linked(d, i) {
      assert Linked(c, i);
    }
  }

  lemma ExtendChain(s: seq<Subtask>, c: seq<Subtask>, u: Subtask, t: Subtask)
    requires ChainTo(s, c, u) && t in s && u.id in t.dependsOn
    ensures ChainTo(s, c + [t], t)
  {
    forall i | 0 < i < |c + [t]| ensures Linked(c + [t], i) {
      assert i < |c| ==> Linked(c, i);
    }
  }

  /** A layering rises along a chain. */
  lemma {:induction false} LayeringRespectsChain(s: seq<Subtask>, level: map<Subtask, nat>, c: seq<Subtask>)
    requires Layering(s, level) && Chain(s, c)
    ensures c[0] in s && c[|c| - 1] in s && level[c[|c| - 1]] >= level[c[0]] + |c| - 1
    decreases |c|
  {
    if |c| > 1 {
      ChainInit(s, c);
      LayeringRespectsChain(s, level, c[..|c| - 1]);
      assert Linked(c, |c| - 1);
    }
  }

  /** In a stuck pool dependencies can be followed for ever. */
  lemma {:induction false} StuckChain(pool: seq<Subtask>, n: nat) returns (c: seq<Subtask>)
    requires pool != [] && Stuck(pool)
    ensures Chain(pool, c) && |c| == n + 1
  {
    if n == 0 {
      c := [pool[0]];
    } else {
      var d := StuckChain(pool, n - 1);
      assert d[0] in pool && !Resolved(pool, d[0]);
      var dep :| dep in d[0].dependsOn && HasId(pool, dep);
      var u :| u in pool && u.id == dep;
      c := [u] + d;
      forall i | 0 < i < |c| ensures Linked(c, i) {
        assert i > 1 ==> Linked(d, i - 1);
      }
    }
  }

  /** More places than subtasks: some subtask stands in two of them. */
  lemma {:induction false} Repeats(c: seq<Subtask>, pool: seq<Subtask>) returns (i: nat, j: nat)
    requires |c| > |pool| && forall t :: t in c ==> t in pool
    ensures i < j < |c| && c[i] == c[j]
    decreases |c|
  {
    if c[0] in c[1..] {
      i, j := 0, 1 + Pos(c[1..], c[0]);
    } else {
      RemoveLength(pool, c[0]);
      assert c[0] in pool;
      i, j := Repeats(c[1..], Remove(pool, c[0]));
      i, j := i + 1, j + 1;
    }
  }

  lemma SubChain(s: seq<Subtask>, c: seq<Subtask>, i: nat, j: nat)
    requires Chain(s, c) && i <= j < |c|
    ensures Chain(s, c[i..j + 1]) && c[i..j + 1][0] == c[i] && c[i..j + 1][j - i] == c[j]
  {
    var d := c[i..j + 1];
    forall k | 0 < k < |d| ensures Linked(d, k) {
      assert Linked(c, i + k);
    }
  }

  /** A chain longer than the pool closes somewhere. */
  lemma LongChainCloses(pool: seq<Subtask>, c: seq<Subtask>)
    requires Chain(pool, c) && |c| > |pool|
    ensures Cyclic(pool)
  {
    var i, j := Repeats(c, pool);
    SubChain(pool, c, i + 1, j);
    assert Linked(c, i + 1);
    var d := c[i + 1..j + 1];
    assert Chain(pool, d) && Closes(d);
  }

  lemma CyclicWithin(s: seq<Subtask>, pool: seq<Subtask>)
    requires Cyclic(pool) && forall t :: t in pool ==> t in s
    ensures Cyclic(s)
  {
    var c :| Chain(pool, c) && Closes(c);
    assert Chain(s, c);
  }

  /** The fallback is never used exactly when the dependencies in the list form no cycle. */
  lemma NeverStuckIffAcyclic(s: seq<Subtask>)
    ensures NeverStuck(s) <==> !Cyclic(s)
  {
    if NeverStuck(s) {
      NeverStuckIffLayerable(s);
      var level :| Layering(s, level);
      forall c | Chain(s, c) ensures !Closes(c) {
        LayeringRespectsChain(s, level, c);
      }
    } else {
      var n :| At(s, n) != [] && Ready(At(s, n)) == [];
      WaitingAreInputs(s, n);
      NextMembers(At(s, n));
      var c := StuckChain(At(s, n), |At(s, n)|);
      LongChainCloses(At(s, n), c);
      CyclicWithin(s, At(s, n));
    }
  }

  // ----- optimality -----

  /** What a subtask of a later level waited for is in the level before. */
  lemma WaitedFor(w: seq<Subtask>, t: Subtask) returns (u: Subtask)
    requires w != [] && Ready(w) != [] && t in Rest(w) && Resolved(Rest(w), t)
    ensures u in NextLevel(w) && u.id in t.dependsOn
  {
    NextMembers(w);
    var dep :| dep in t.dependsOn && HasId(w, dep);
    u :| u in w && u.id == dep;
    assert !HasId(Rest(w), dep);
    if u !in NextLevel(w) { StillWaiting(w, u); }
  }

  /** A subtask of level n ends a chain of n + 1. */
  lemma {:induction false} LevelHasChain(s: seq<Subtask>, n: nat, t: Subtask) returns (c: seq<Subtask>)
    requires NeverStuck(s) && At(s, n) != [] && t in NextLevel(At(s, n))
    ensures ChainTo(s, c, t) && |c| == n + 1
  {
    WaitingAreInputs(s, n);
    NextMembers(At(s, n));
    if n == 0 {
      c := [t];
    } else {
      var u := WaitedFor(At(s, n - 1), t);
      c := LevelHasChain(s, n - 1, u);
      ExtendChain(s, c, u, t);
      c := c + [t];
    }
  }

  /** No chain to a subtask of level n is longer. */
  lemma {:induction false} ChainsAreShort(s: seq<Subtask>, n: nat, t: Subtask, c: seq<Subtask>)
    requires NeverStuck(s) && At(s, n) != [] && t in NextLevel(At(s, n)) && ChainTo(s, c, t)
    ensures |c| <= n + 1
    decreases |c|
  {
    if |c| > 1 {
      var u := c[|c| - 2];
      ChainInit(s, c);
      assert Linked(c, |c| - 1) && u in c;
      if u in At(s, n) {
        NextMembers(At(s, n));
        assert HasId(At(s, n), u.id) && t in Ready(At(s, n));
        assert false;
      }
      var m := LeftAt(s, n, u);
      ChainsAreShort(s, m, u, c[..|c| - 1]);
    }
  }

  lemma {:induction false} LeftAt(s: seq<Subtask>, n: nat, u: Subtask) returns (m: nat)
    requires u in s && u !in At(s, n)
    ensures m < n && At(s, m) != [] && u in NextLevel(At(s, m))
  {
    if u in At(s, n - 1) {
      m := n - 1;
      if u !in NextLevel(At(s, m)) { StillWaiting(At(s, m), u); }
    } else {
      m := LeftAt(s, n - 1, u);
    }
  }

  /** Without a cycle, each subtask's level is the number of links of its longest chain of
      dependencies, and no layering places it earlier. */
  lemma LevelsAreOptimal(s: seq<Subtask>, n: nat, t: Subtask)
    requires !Cyclic(s) && n < |Levels(s)| && t in Levels(s)[n]
    ensures exists c :: ChainTo(s, c, t) && |c| == n + 1
    ensures forall c :: ChainTo(s, c, t) ==> |c| <= n + 1
    ensures forall level :: Layering(s, level) ==> level[t] >= n
  {
    NeverStuckIffAcyclic(s);
    LevelIsAt(s, n);
    var c := LevelHasChain(s, n, t);
    forall c | ChainTo(s, c, t) ensures |c| <= n + 1 {
      ChainsAreShort(s, n, t, c);
    }
    forall level | Layering(s, level) ensures level[t] >= n {
      LayeringRespectsChain(s, level, c);
    }
  }

  /** No layering uses fewer levels: each puts some subtask at the last level's index or later. */
  lemma FewestLevels(s: seq<Subtask>, level: map<Subtask, nat>)
    requires Layering(s, level) && s != []
    ensures exists t :: t in s && level[t] >= |Levels(s)| - 1
  {
    var last := |Levels(s)| - 1;
    LevelIsAt(s, last);
    NeverStuckIffLayerable(s);
    NeverStuckIffAcyclic(s);
    var w := At(s, last);
    WaitingAreInputs(s, last);
    assert Ready(w) != [];
    var t := Ready(w)[0];
    assert t in Levels(s)[last];
    LevelsAreOptimal(s, last, t);
  }

  /** Without a cycle, every dependency in the list is in a strictly earlier level. */
  lemma DependenciesFirst(s: seq<Subtask>, n: nat, t: Subtask, m: nat, u: Subtask)
    requires !Cyclic(s)
    requires n < |Levels(s)| && t in Levels(s)[n] && m < |Levels(s)| && u in Levels(s)[m]
    requires u.id in t.dependsOn
    ensures m < n
  {
    LevelsAreOptimal(s, m, u);
    var c :| ChainTo(s, c, u) && |c| == m + 1;
    LevelMembersAreInputs(s, n);
    ExtendChain(s, c, u, t);
    LevelsAreOptimal(s, n, t);
  }

  lemma LevelMembersAreInputs(s: seq<Subtask>, n: nat)
    requires n < |Levels(s)|
    ensures forall t :: t in Levels(s)[n] ==> t in s
  {
    LevelIsAt(s, n);
    NextMembers(At(s, n));
    WaitingAreInputs(s, n);
  }

  // ----- the loop -----

  /** `for subtask in ready: remaining.remove(subtask)` */
  function RemoveEach(s: seq<Subtask>, gone: seq<Subtask>): seq<Subtask>
    decreases gone
  {
    if gone == [] then s else RemoveEach(Remove(s, gone[0]), gone[1..])
  }

  lemma {:induction false} RemoveEachBehind(x: Subtask, s: seq<Subtask>, gone: seq<Subtask>)
    requires x !in gone
    ensures RemoveEach([x] + s, gone) == [x] + RemoveEach(s, gone)
    decreases gone
  {
    if gone != [] {
      assert Remove([x] + s, gone[0]) == [x] + Remove(s, gone[0]) by { assert ([x] + s)[1..] == s; }
      RemoveEachBehind(x, Remove(s, gone[0]), gone[1..]);
    }
  }

  /** Removing the ready ones, first equal element at a time, leaves the others in order, even
      when equal subtasks occur several times. */
  lemma {:induction false} RemoveEachSelected(s: seq<Subtask>, waiting: seq<Subtask>)
    ensures RemoveEach(s, Select(s, waiting, true)) == Select(s, waiting, false)
  {
    if s != [] {
      RemoveEachSelected(s[1..], waiting);
      if !Resolved(waiting, s[0]) {
        assert [s[0]] + s[1..] == s;
        SelectMembers(s[1..], waiting, true);
        RemoveEachBehind(s[0], s[1..], Select(s[1..], waiting, true));
      }
    }
  }

  lemma RemoveLevel(w: seq<Subtask>)
    requires w != []
    ensures RemoveEach(w, NextLevel(w)) == Rest(w)
  {
    if Ready(w) != [] {
      RemoveEachSelected(w, w);
    } else {
      assert w[..1][1..] == [];
    }
  }

  method CollectReady(remaining: seq<Subtask>) returns (ready: seq<Subtask>)
    ensures ready == Ready(remaining)
  {
    ready := [];
    for i := 0 to |remaining|
      invariant ready == Select(remaining[..i], remaining, true)
    {
      SelectAppend(remaining[..i], [remaining[i]], remaining, true);
      assert remaining[..i + 1] == remaining[..i] + [remaining[i]];
      if Resolved(remaining, remaining[i]) {
        ready := ready + [remaining[i]];
      }
    }
    assert remaining[..|remaining|] == remaining;
  }

  method Discard(s: seq<Subtask>, gone: seq<Subtask>) returns (remaining: seq<Subtask>)
    ensures remaining == RemoveEach(s, gone)
  {
    remaining := s;
    for j := 0 to |gone|
      invariant RemoveEach(remaining, gone[j..]) == RemoveEach(s, gone)
    {
      remaining := Remove(remaining, gone[j]);
      assert gone[j..][1..] == gone[j + 1..];
    }
  }

  lemma LevelsUnfold(formed: seq<seq<Subtask>>, w: seq<Subtask>)
    requires w != []
    ensures formed + Levels(w) == (formed + [NextLevel(w)]) + Levels(Rest(w))
  {
  }

  method GetExecutionOrder(subtasks: seq<Subtask>) returns (levels: seq<seq<Subtask>>)
    ensures levels == Levels(subtasks)
  {
    levels := [];
    var remaining := subtasks;
    while remaining != []
      invariant levels + Levels(remaining) == Levels(subtasks)
      decreases |remaining|
    {
      var ready := CollectReady(remaining);
      if ready == [] {
        ready := remaining[..1];
      }
      assert ready == NextLevel(remaining);
      LevelsUnfold(levels, remaining);
      RemoveLevel(remaining);
      levels := levels + [ready];
      remaining := Discard(remaining, ready);
    }
  }

  // ----- splitting a task -----

  /** What `str.isspace` accepts. */
  predicate IsSpace(c: char) {
    var n := c as int;
    || 0x09 <= n <= 0x0D || 0x1C <= n <= 0x20 || n == 0x85 || n == 0xA0 || n == 0x1680
    || 0x2000 <= n <= 0x200A || n == 0x2028 || n == 0x2029 || n == 0x202F || n == 0x205F || n == 0x3000
  }

  const WHITE_SPACE: string :=
    "\t\n\U{000B}\U{000C}\r\U{001C}\U{001D}\U{001E}\U{001F} \U{0085}\U{00A0}\U{1680}\U{2000}\U{2001}\U{2002}" +
    "\U{2003}\U{2004}\U{2005}\U{2006}\U{2007}\U{2008}\U{2009}\U{200A}\U{2028}\U{2029}\U{202F}\U{205F}\U{3000}"

  lemma IsSpaceIff(c: char)
    ensures IsSpace(c) <==> c in WHITE_SPACE
  {
  }

  function LeftStrip(s: string): (r: string)
    ensures r != [] ==> !IsSpace(r[0])
  {
    if s != [] && IsSpace(s[0]) then LeftStrip(s[1..]) else s
  }

  function RightStrip(s: string): (r: string)
    ensures r != [] ==> !IsSpace(r[|r| - 1])
    ensures |r| <= |s| && r == s[..|r|]
  {
    if s != [] && IsSpace(s[|s| - 1]) then RightStrip(s[..|s| - 1]) else s
  }

  function Strip(s: string): string {
    RightStrip(LeftStrip(s))
  }

  predicate Stripped(s: string) {
    s != [] && !IsSpace(s[0]) && !IsSpace(s[|s| - 1])
  }

  lemma StripIsStripped(s: string)
    ensures Strip(s) != [] ==> Stripped(Strip(s))
    ensures Stripped(s) ==> Strip(s) == s
  {
  }

  /** `[p.strip() for p in parts if p.strip()]` */
  function Cleaned(raw: seq<string>): (parts: seq<string>)
    ensures forall p :: p in parts ==> Stripped(p)
  {
    if raw == [] then []
    else
      var p := Strip(raw[0]);
      StripIsStripped(raw[0]);
      if p == [] then Cleaned(raw[1..]) else [p] + Cleaned(raw[1..])
  }

  predicate AllSpace(s: string) {
    forall c :: c in s ==> IsSpace(c)
  }

  /** Stripping takes white space off both ends and nothing else. */
  lemma {:induction false} LeftStripDropsSpace(s: string) returns (a: string)
    ensures s == a + LeftStrip(s) && AllSpace(a)
  {
    if s != [] && IsSpace(s[0]) {
      var b := LeftStripDropsSpace(s[1..]);
      a := [s[0]] + b;
    } else {
      a := [];
    }
  }

  lemma {:induction false} RightStripDropsSpace(s: string) returns (b: string)
    ensures s == RightStrip(s) + b && AllSpace(b)
  {
    if s != [] && IsSpace(s[|s| - 1]) {
      var a := RightStripDropsSpace(s[..|s| - 1]);
      b := a + [s[|s| - 1]];
    } else {
      b := [];
    }
  }

  lemma StripDropsSpace(s: string) returns (a: string, b: string)
    ensures s == a + Strip(s) + b && AllSpace(a) && AllSpace(b)
    ensures Strip(s) == [] <==> AllSpace(s)
  {
    a := LeftStripDropsSpace(s);
    b := RightStripDropsSpace(LeftStrip(s));
    StripIsStripped(s);
    if Strip(s) != [] {
      HoldsMore(s, a, Strip(s), b);
    } else {
      assert s == a + b;
      SpaceAppend(a, b);
    }
  }

  lemma HoldsMore(s: string, a: string, part: string, b: string)
    requires s == a + part + b && Stripped(part)
    ensures !AllSpace(s)
  {
    assert s[|a|] == part[0] && s[|a|] in s;
  }

  lemma SpaceAppend(a: string, b: string)
    requires AllSpace(a) && AllSpace(b)
    ensures AllSpace(a + b)
  {
  }

  lemma {:induction false} CleanedAppend(a: seq<string>, b: seq<string>)
    ensures Cleaned(a + b) == Cleaned(a) + Cleaned(b)
  {
    if a == [] {
      assert a + b == b;
    } else {
      assert (a + b)[1..] == a[1..] + b;
      CleanedAppend(a[1..], b);
    }
  }

  /** The pieces that are not white space alone. */
  function Spoken(raw: seq<string>): seq<string> {
    Filter(raw, p => !AllSpace(p))
  }

  function StripEach(parts: seq<string>): (r: seq<string>)
    ensures |r| == |parts| && forall j :: 0 <= j < |parts| ==> r[j] == Strip(parts[j])
  {
    if parts == [] then [] else [Strip(parts[0])] + StripEach(parts[1..])
  }

  /** No piece that is not white space alone is lost, in order; each is stripped. */
  lemma {:induction false} CleanedKeepsAll(raw: seq<string>)
    ensures Cleaned(raw) == StripEach(Spoken(raw))
  {
    if raw != [] {
      CleanedKeepsAll(raw[1..]);
      var _, _ := StripDropsSpace(raw[0]);
      assert Spoken(raw) == if AllSpace(raw[0]) then Spoken(raw[1..]) else [raw[0]] + Spoken(raw[1..]);
    }
  }

  /** The regular-expression splits and the keyword tables, which this model does not open. */
  datatype Heuristics = Heuristics(bySeparators: string -> seq<string>, byNumbers: string -> seq<string>,
                                   guessTool: string -> string, difficulty: string -> string)

  function SplitTask(h: Heuristics, task: string): (parts: seq<string>)
    ensures forall p :: p in parts ==> Stripped(p)
  {
    var parts := Cleaned(h.bySeparators(task));
    if |parts| == 1 && |h.byNumbers(task)| > 1 then Cleaned(h.byNumbers(task)) else parts
  }

  /** The pieces a task is split into are those of the separators, unless just one of them is not
      white space alone and numbers split the task further. */
  lemma SplitKeepsAll(h: Heuristics, task: string)
    ensures var raw := if |Spoken(h.bySeparators(task))| == 1 && |h.byNumbers(task)| > 1 then h.byNumbers(task)
                       else h.bySeparators(task);
            SplitTask(h, task) == StripEach(Spoken(raw))
  {
    CleanedKeepsAll(h.bySeparators(task));
    CleanedKeepsAll(h.byNumbers(task));
  }

  function Digit(d: nat): char
    requires d < 10
  {
    "0123456789"[d]
  }

  function Decimal(n: nat): string {
    if n < 10 then [Digit(n)] else Decimal(n / 10) + [Digit(n % 10)]
  }

  lemma {:induction false} DecimalInjective(m: nat, n: nat)
    requires Decimal(m) == Decimal(n)
    ensures m == n
  {
    DecimalEnd(m);
    DecimalEnd(n);
    if m >= 10 && n >= 10 {
      DecimalInjective(m / 10, n / 10);
    }
  }

  lemma DecimalEnd(n: nat)
    ensures Decimal(n) != [] && Decimal(n)[|Decimal(n)| - 1] == Digit(n % 10)
    ensures n < 10 <==> |Decimal(n)| == 1
    ensures n >= 10 ==> Decimal(n)[..|Decimal(n)| - 1] == Decimal(n / 10)
  {
    if n >= 10 {
      DecimalNonEmpty(n / 10);
    }
  }

  lemma {:induction false} DecimalNonEmpty(n: nat)
    ensures Decimal(n) != []
  {
  }

  function StepId(n: nat): string {
    "step_" + Decimal(n)
  }

  /** The number a decimal stands for. */
  function Number(s: string): int {
    if s == [] then 0 else 10 * Number(s[..|s| - 1]) + (s[|s| - 1] as int - '0' as int)
  }

  /** A step id is "step_" and the decimal of its number. */
  lemma {:induction false} StepIdReads(n: nat)
    ensures StepId(n)[..5] == "step_" && Number(StepId(n)[5..]) == n
  {
    assert StepId(n)[5..] == Decimal(n);
    DecimalReads(n);
  }

  lemma {:induction false} DecimalReads(n: nat)
    ensures Number(Decimal(n)) == n && forall c :: c in Decimal(n) ==> '0' <= c <= '9'
  {
    if n >= 10 {
      DecimalReads(n / 10);
      assert Decimal(n)[..|Decimal(n)| - 1] == Decimal(n / 10);
    } else {
      assert Number([]) == 0 && [Digit(n)][..0] == [];
    }
  }

  lemma StepIdInjective(m: nat, n: nat)
    requires StepId(m) == StepId(n)
    ensures m == n
  {
    assert StepId(m)[5..] == Decimal(m) && StepId(n)[5..] == Decimal(n);
    DecimalInjective(m, n);
  }

  /** The first two steps are free; each later one depends on the one before it. */
  function Step(h: Heuristics, parts: seq<string>, i: nat): Subtask
    requires i < |parts|
  {
    Subtask(StepId(i + 1), parts[i], h.guessTool(parts[i]), if i >= 2 then [StepId(i)] else [], i,
            h.difficulty(parts[i]))
  }

  function Steps(h: Heuristics, parts: seq<string>): (steps: seq<Subtask>)
    ensures |steps| == |parts|
  {
    seq(|parts|, i requires 0 <= i < |parts| => Step(h, parts, i))
  }

  /** The levels `decompose` is meant to give: the first two steps together, then one by one. */
  function Staircase(steps: seq<Subtask>): seq<seq<Subtask>> {
    if |steps| <= 2 then [steps] else [steps[..2]] + Singles(steps[2..])
  }

  function Singles(steps: seq<Subtask>): (r: seq<seq<Subtask>>)
    ensures |r| == |steps|
  {
    if steps == [] then [] else [[steps[0]]] + Singles(steps[1..])
  }

  /** The ids of the steps from `k` on. */
  lemma HasStepId(h: Heuristics, parts: seq<string>, k: nat, n: nat)
    requires k <= |parts|
    ensures HasId(Steps(h, parts)[k..], StepId(n)) <==> k < n <= |parts|
  {
    var w := Steps(h, parts)[k..];
    if k < n <= |parts| {
      assert w[n - 1 - k] == Step(h, parts, n - 1);
    }
    if HasId(w, StepId(n)) {
      var t :| t in w && t.id == StepId(n);
      var j :| 0 <= j < |w| && w[j] == t;
      assert w[j] == Step(h, parts, k + j);
      StepIdInjective(k + j + 1, n);
    }
  }

  lemma ResolvedStep(h: Heuristics, parts: seq<string>, k: nat, i: nat)
    requires k <= i < |parts|
    ensures Resolved(Steps(h, parts)[k..], Step(h, parts, i)) <==> i < 2 || i == k
  {
    HasStepId(h, parts, k, i);
    if i >= 2 {
      assert Step(h, parts, i).dependsOn == [StepId(i)];
      assert StepId(i) in Step(h, parts, i).dependsOn;
    }
  }

  /** If exactly the first `n` of `s` are resolved, selecting cuts `s` there. */
  lemma {:induction false} SelectPrefix(s: seq<Subtask>, w: seq<Subtask>, n: nat)
    requires n <= |s|
    requires forall j :: 0 <= j < |s| ==> (Resolved(w, s[j]) <==> j < n)
    ensures Select(s, w, true) == s[..n] && Select(s, w, false) == s[n..]
  {
    if s != [] {
      SelectPrefix(s[1..], w, if n > 0 then n - 1 else 0);
    }
  }

  lemma StepsReady(h: Heuristics, parts: seq<string>, k: nat, n: nat)
    requires k < n <= |parts| && (n == k + 1 || (k == 0 && n == 2)) && (n == 1 ==> |parts| == 1)
    ensures Ready(Steps(h, parts)[k..]) == Steps(h, parts)[k..][..n - k]
    ensures Unready(Steps(h, parts)[k..]) == Steps(h, parts)[k..][n - k..]
  {
    var w := Steps(h, parts)[k..];
    forall j | 0 <= j < |w| ensures Resolved(w, w[j]) <==> j < n - k {
      assert w[j] == Step(h, parts, k + j);
      ResolvedStep(h, parts, k, k + j);
    }
    SelectPrefix(w, w, n - k);
  }

  /** From step `k` on, exactly the first `n` of the waiting steps form the next level. */
  lemma StepsLevel(h: Heuristics, parts: seq<string>, k: nat, n: nat)
    requires k < n <= |parts| && (n == k + 1 || (k == 0 && n == 2)) && (n == 1 ==> |parts| == 1)
    ensures NextLevel(Steps(h, parts)[k..]) == Steps(h, parts)[k..n]
    ensures Rest(Steps(h, parts)[k..]) == Steps(h, parts)[n..]
  {
    var s := Steps(h, parts);
    StepsReady(h, parts, k, n);
    assert s[k..][..n - k] == s[k..n] && s[k..][n - k..] == s[n..];
  }

  lemma {:induction false} LevelsOfTail(h: Heuristics, parts: seq<string>, k: nat)
    requires 2 <= k <= |parts|
    ensures Levels(Steps(h, parts)[k..]) == Singles(Steps(h, parts)[k..])
    decreases |parts| - k
  {
    var s := Steps(h, parts);
    if k < |parts| {
      StepsLevel(h, parts, k, k + 1);
      LevelsOfTail(h, parts, k + 1);
      assert s[k..k + 1] == [s[k..][0]] && s[k..][1..] == s[k + 1..];
    }
  }

  /** Layering the steps of n >= 2 parts gives exactly n - 1 levels: the first two steps together,
      then one step each, in order. */
  lemma LevelsOfSteps(h: Heuristics, parts: seq<string>)
    requires |parts| >= 1
    ensures Levels(Steps(h, parts)) == Staircase(Steps(h, parts))
    ensures |parts| >= 2 ==> |Levels(Steps(h, parts))| == |parts| - 1
  {
    var s := Steps(h, parts);
    var n := Min(2, |parts|);
    assert s[0..] == s && s[0..n] == s[..n];
    StepsLevel(h, parts, 0, n);
    LevelsUnfold([], s);
    if |parts| >= 2 {
      LevelsOfTail(h, parts, 2);
    }
    assert |parts| <= 2 ==> s[..n] == s && s[n..] == [];
  }

  // ----- the cache -----

  /** `task[:100]` */
  function CacheKey(task: string): string {
    if |task| <= 100 then task else task[..100]
  }

  function Fresh(h: Heuristics, task: string): seq<Subtask> {
    Steps(h, SplitTask(h, task))
  }

  function Answer(h: Heuristics, cache: map<string, seq<Subtask>>, task: string): seq<Subtask> {
    if CacheKey(task) in cache then cache[CacheKey(task)] else Fresh(h, task)
  }

  /** The cache after answering the tasks of `history` in order. */
  function CacheAfter(h: Heuristics, history: seq<string>): map<string, seq<Subtask>> {
    if history == [] then map[]
    else
      var cache := CacheAfter(h, history[..|history| - 1]);
      var task := history[|history| - 1];
      cache[CacheKey(task) := Answer(h, cache, task)]
  }

  /** The first task of the history with the given cache key. */
  function FirstWith(history: seq<string>, key: string): Option<string> {
    if history == [] then None
    else if CacheKey(history[0]) == key then Some(history[0])
    else FirstWith(history[1..], key)
  }

  lemma {:induction false} FirstWithAppend(history: seq<string>, task: string, key: string)
    ensures FirstWith(history + [task], key) ==
            if FirstWith(history, key).Some? then FirstWith(history, key)
            else if CacheKey(task) == key then Some(task) else None
  {
    if history != [] {
      assert (history + [task])[1..] == history[1..] + [task];
      FirstWithAppend(history[1..], task, key);
    }
  }

  lemma {:induction false} CacheHoldsFirst(h: Heuristics, history: seq<string>, key: string)
    ensures key in CacheAfter(h, history) <==> FirstWith(history, key).Some?
    ensures key in CacheAfter(h, history) ==>
              CacheAfter(h, history)[key] == Fresh(h, FirstWith(history, key).value)
    decreases |history|
  {
    if history != [] {
      var before, task := history[..|history| - 1], history[|history| - 1];
      assert history == before + [task];
      CacheHoldsFirst(h, before, key);
      CacheHoldsFirst(h, before, CacheKey(task));
      FirstWithAppend(before, task, key);
    }
  }

  lemma {:induction false} FirstWithKey(history: seq<string>, key: string)
    ensures FirstWith(history, key).Some? ==>
              CacheKey(FirstWith(history, key).value) == key && FirstWith(history, key).value in history
  {
    if history != [] {
      FirstWithKey(history[1..], key);
    }
  }

  /** Whatever was asked before, a task is answered with the decomposition of the first task ever
      asked that shares its first 100 characters. With tasks of at most 100 characters that is the
      task itself, so the cache changes no answer. */
  lemma CachedAnswer(h: Heuristics, history: seq<string>, task: string)
    ensures Answer(h, CacheAfter(h, history), task) ==
            var first := FirstWith(history, CacheKey(task));
            Fresh(h, if first.Some? then first.value else task)
    ensures (|task| <= 100 && forall t :: t in history ==> |t| <= 100) ==>
              Answer(h, CacheAfter(h, history), task) == Fresh(h, task)
  {
    CacheHoldsFirst(h, history, CacheKey(task));
    FirstWithKey(history, CacheKey(task));
  }

  /** Heuristics that split one task into a single part and every other into none. */
  function Singling(task: string): Heuristics {
    Heuristics(t => if t == task then ["a"] else [], t => [], t => "", t => "")
  }

  lemma SinglingTells(task: string, other: string)
    requires other != task
    ensures Fresh(Singling(task), other) != Fresh(Singling(task), task)
  {
    var h := Singling(task);
    assert h.bySeparators(task) == ["a"] && ["a"][1..] == [];
    StripIsStripped("a");
    assert Cleaned(["a"]) == ["a"] + Cleaned([]);
    assert |Fresh(h, task)| == 1 && |Fresh(h, other)| == 0;
  }

  /** The cache changes no answer, whatever the heuristics, exactly when the first task of the history
      that shares the first 100 characters, if any, is the task itself. */
  lemma CacheIsInvisibleIff(history: seq<string>, task: string)
    ensures (forall h :: Answer(h, CacheAfter(h, history), task) == Fresh(h, task)) <==>
            FirstWith(history, CacheKey(task)) in {None, Some(task)}
  {
    forall h ensures Answer(h, CacheAfter(h, history), task) ==
                     var first := FirstWith(history, CacheKey(task));
                     Fresh(h, if first.Some? then first.value else task) {
      CachedAnswer(h, history, task);
    }
    var first := FirstWith(history, CacheKey(task));
    if first.Some? && first.value != task {
      SinglingTells(task, first.value);
      var h := Singling(task);
      assert Answer(h, CacheAfter(h, history), task) != Fresh(h, task);
    }
  }

  /** Two different tasks with the same first 100 characters, neither of which is split: asked second,
      the second gets the first one's step. */
  lemma SharedKeyMisleads(h: Heuristics, first: string, second: string)
    requires first != second && CacheKey(first) == CacheKey(second)
    requires SplitTask(h, first) == [first] && SplitTask(h, second) == [second]
    ensures Answer(h, CacheAfter(h, [first]), second) == Fresh(h, first) != Fresh(h, second)
  {
    CachedAnswer(h, [first], second);
    assert Fresh(h, first)[0] == Step(h, [first], 0) && Fresh(h, second)[0] == Step(h, [second], 0);
  }

  /** A hundred letters and one more. */
  function LongTask(last: char): string {
    seq(100, _ => 'a') + [last]
  }

  /** Such tasks exist: the two need only be left whole by the regular expressions, which look for
      separators and numbers. */
  lemma LongTasksShareAnswers(h: Heuristics)
    requires forall last :: last in "bc" ==> h.bySeparators(LongTask(last)) == [LongTask(last)]
    requires forall last :: last in "bc" ==> |h.byNumbers(LongTask(last))| <= 1
    ensures Answer(h, CacheAfter(h, [LongTask('b')]), LongTask('c')) == Fresh(h, LongTask('b'))
    ensures Fresh(h, LongTask('b')) != Fresh(h, LongTask('c'))
  {
    LeftWhole(h, 'b');
    LeftWhole(h, 'c');
    assert LongTask('b')[100] != LongTask('c')[100];
    SharedKeyMisleads(h, LongTask('b'), LongTask('c'));
  }

  lemma LeftWhole(h: Heuristics, last: char)
    requires last in "bc" && h.bySeparators(LongTask(last)) == [LongTask(last)] && |h.byNumbers(LongTask(last))| <= 1
    ensures SplitTask(h, LongTask(last)) == [LongTask(last)] && CacheKey(LongTask(last)) == seq(100, _ => 'a')
  {
    var task := LongTask(last);
    assert task[0] == 'a' && task[|task| - 1] == last;
    StripIsStripped(task);
    assert [task][1..] == [] && Cleaned([task]) == [task] + Cleaned([]);
  }

  class TaskDecomposer {
    const h: Heuristics
    var decompositionCache: map<string, seq<Subtask>>

    constructor (h: Heuristics)
      ensures this.h == h && decompositionCache == CacheAfter(h, [])
    {
      this.h := h;
      decompositionCache := map[];
    }

    static lemma StepsSoFar(h: Heuristics, task: string, i: nat)
      requires i < |SplitTask(h, task)|
      ensures var parts := SplitTask(h, task);
              && parts[i] != [] && Strip(parts[i]) == parts[i]
              && Steps(h, parts)[..i + 1] == Steps(h, parts)[..i] + [Step(h, parts, i)]
              && (i > 0 ==> Steps(h, parts)[..i][i - 1].id == StepId(i))
    {
      var parts := SplitTask(h, task);
      assert parts[i] in parts;
      StripIsStripped(parts[i]);
    }

    /** `subtasks[i - 1]` is in range because no part is empty, so no part is skipped. */
    method Decompose(task: string) returns (subtasks: seq<Subtask>)
      modifies this
      ensures subtasks == Answer(h, old(decompositionCache), task)
      ensures decompositionCache == old(decompositionCache)[CacheKey(task) := subtasks]
      ensures CacheKey(task) !in old(decompositionCache) ==>
                && |subtasks| == |SplitTask(h, task)|
                && forall i :: 0 <= i < |subtasks| ==>
                     && subtasks[i].id == StepId(i + 1) && subtasks[i].order == i
                     && subtasks[i].description == SplitTask(h, task)[i]
                     && subtasks[i].toolHint == h.guessTool(subtasks[i].description)
                     && subtasks[i].difficulty == h.difficulty(subtasks[i].description)
                     && subtasks[i].dependsOn == if i >= 2 then [subtasks[i - 1].id] else []
    {
      var key := CacheKey(task);
      if key in decompositionCache {
        subtasks := decompositionCache[key];
        assert decompositionCache == decompositionCache[key := subtasks];
        return;
      }
      subtasks := [];
      var parts := SplitTask(h, task);
      for i := 0 to |parts|
        invariant decompositionCache == old(decompositionCache)
        invariant subtasks == Steps(h, parts)[..i]
      {
        StepsSoFar(h, task, i);
        var part := Strip(parts[i]);
        if part == [] {
          continue;
        }
        var dependsOn := [];
        if i > 0 {
          if i >= 2 {
            dependsOn := [subtasks[i - 1].id];
          }
        }
        subtasks := subtasks + [Subtask(StepId(i + 1), part, h.guessTool(part), dependsOn, i, h.difficulty(part))];
      }
      decompositionCache := decompositionCache[key := subtasks];
    }
  }
}
