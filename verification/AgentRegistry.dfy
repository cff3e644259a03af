/** `rann_agent/orchestration/agent_registry.py`. The registry of live agents: a forest stored
    twice, in each agent's parent id and in each agent's list of child ids, and the cascade that
    removes a whole subtree. */
module Agents {
  import opened Prelude

  type Id = string

  /** What one record holds. The registry reads and writes only the two link fields. */
  datatype Agent = Agent(id: Id, name: string, role: string, parent: Option<Id>, children: seq<Id>)

  type Registry = Dict<Id, Agent>

  const EMPTY: Registry := Dict([], map[])

  /** `parent_id and parent_id in self._agents`: the empty string is no parent. */
  predicate Linked(d: Registry, parent: Option<Id>) {
    parent.Some? && parent.value != "" && parent.value in d.at
  }

  /** `p` lists `c` as a child. */
  predicate Lists(d: Registry, p: Id, c: Id) {
    p in d.at && c in d.at[p].children
  }

  /** `c` is registered with parent `p`, which was registered before it. */
  ghost predicate NamesParent(d: Registry, p: Id, c: Id) {
    c in d.at && d.at[c].parent == Some(p) && p != "" && Before(d.keys, p, c)
  }

  /** Every listed child names the lister as its parent, and nobody is listed twice. */
  ghost predicate Sound(d: Registry) {
    && d.Valid()
    && (forall p, c :: Lists(d, p, c) ==> NamesParent(d, p, c))
    && (forall p :: p in d.at ==> NoDup(d.at[p].children))
  }

  /** Every agent whose parent is registered is in that parent's list. */
  ghost predicate Complete(d: Registry) {
    forall c :: c in d.at && Linked(d, d.at[c].parent) ==> Lists(d, d.at[c].parent.value, c)
  }

  ghost predicate Forest(d: Registry) {
    Sound(d) && Complete(d)
  }

  /** The two encodings agree: being listed by `p`, and then exactly once, is the same as being
      registered with parent `p`; and then `p` was registered first. */
  lemma EncodingsAgree(d: Registry, p: Id, c: Id)
    requires Forest(d) && p in d.at
    ensures multiset(d.at[p].children)[c] <= 1
    ensures multiset(d.at[p].children)[c] == 1 <==> c in d.at && d.at[c].parent == Some(p) && p != ""
    ensures Lists(d, p, c) ==> Before(d.keys, p, c)
  {
    NoDupCounts(d.at[p].children, c);
    assert Lists(d, p, c) ==> NamesParent(d, p, c);
  }

  // ----- registering -----

  function Registered(d: Registry, id: Id, name: string, role: string, parent: Option<Id>): Registry {
    var d1 := d.Put(id, Agent(id, name, role, parent, []));
    if Linked(d1, parent) then
      var p := d1.at[parent.value];
      d1.Put(parent.value, p.(children := p.children + [id]))
    else d1
  }

  /** The newcomer has the given name, role and parent, is last on its parent's list, and lists nobody
      but perhaps itself; no other record changes. */
  lemma RegisteredRecords(d: Registry, id: Id, name: string, role: string, parent: Option<Id>, k: Id)
    ensures var e := Registered(d, id, name, role, parent);
            && (k in e.at <==> k in d.at || k == id)
            && (k == id ==> e.at[k].id == id && e.at[k].name == name && e.at[k].role == role && e.at[k].parent == parent
                            && e.at[k].children == if parent == Some(id) && id != "" then [id] else [])
            && (k in d.at && k != id ==>
                  e.at[k] == d.at[k].(children := d.at[k].children + if parent == Some(k) && k != "" then [id] else []))
  {
    if k in d.at { assert d.at[k].children + [] == d.at[k].children; }
  }

  /** What a caller must check before registering `id` under `parent`: nobody already names `id`
      as its parent, `id` is not its own parent, and an `id` that is registered already has no
      registered parent and only moves under an agent registered before it. */
  ghost predicate MayRegister(d: Registry, id: Id, parent: Option<Id>) {
    && (id != "" ==> parent != Some(id) && forall c :: c in d.at ==> d.at[c].parent != Some(id))
    && (id in d.at ==>
          !Linked(d, d.at[id].parent) && (Linked(d, parent) ==> Before(d.keys, parent.value, id)))
  }

  /** Registration keeps the forest exactly when the caller's check passes. */
  lemma RegisterKeepsForestIff(d: Registry, id: Id, name: string, role: string, parent: Option<Id>)
    requires Forest(d)
    ensures Forest(Registered(d, id, name, role, parent)) <==> MayRegister(d, id, parent)
  {
    if MayRegister(d, id, parent) {
      RegisterKeepsForest(d, id, name, role, parent);
    } else {
      RegisterBreaksForest(d, id, name, role, parent);
    }
  }

  lemma RegisterKeepsForest(d: Registry, id: Id, name: string, role: string, parent: Option<Id>)
    requires Forest(d) && MayRegister(d, id, parent)
    ensures Forest(Registered(d, id, name, role, parent))
  {
    NewcomerIsUnlisted(d, id, parent);
    RegisterKeepsSound(d, id, name, role, parent);
    RegisterKeepsComplete(d, id, name, role, parent);
  }

  lemma RegisterKeepsComplete(d: Registry, id: Id, name: string, role: string, parent: Option<Id>)
    requires Complete(d) && MayRegister(d, id, parent)
    ensures Complete(Registered(d, id, name, role, parent))
  {
    var e := Registered(d, id, name, role, parent);
    forall c | c in e.at && Linked(e, e.at[c].parent) ensures Lists(e, e.at[c].parent.value, c) {
      if c != id {
        assert Lists(d, d.at[c].parent.value, c);
      }
    }
  }

  /** A newcomer that passes the check is in no list and has an empty one. */
  lemma NewcomerIsUnlisted(d: Registry, id: Id, parent: Option<Id>)
    requires Forest(d) && MayRegister(d, id, parent)
    ensures forall p :: !Lists(d, p, id)
    ensures id in d.at ==> d.at[id].children == []
  {
    if id in d.at && d.at[id].children != [] {
      assert Lists(d, id, d.at[id].children[0]);
    }
  }

  lemma RegisterKeepsSound(d: Registry, id: Id, name: string, role: string, parent: Option<Id>)
    requires Forest(d) && MayRegister(d, id, parent)
    requires forall p :: !Lists(d, p, id)
    requires id in d.at ==> d.at[id].children == []
    ensures Sound(Registered(d, id, name, role, parent))
  {
    var e := Registered(d, id, name, role, parent);
    PutValid(d, id, Agent(id, name, role, parent, []));
    forall p, c | Lists(e, p, c) ensures NamesParent(e, p, c) {
      RegisteredLink(d, id, name, role, parent, p, c);
    }
    forall p | p in e.at ensures NoDup(e.at[p].children) {
      if Linked(e, parent) && p == parent.value {
        assert !Lists(d, p, id);
        NoDupAppend(d.at[p].children, id);
      }
    }
  }

  lemma RegisteredLink(d: Registry, id: Id, name: string, role: string, parent: Option<Id>, p: Id, c: Id)
    requires Forest(d) && MayRegister(d, id, parent) && !Lists(d, p, id)
    requires id in d.at ==> d.at[id].children == []
    requires Lists(Registered(d, id, name, role, parent), p, c)
    ensures NamesParent(Registered(d, id, name, role, parent), p, c)
  {
    if c == id {
      BeforeAppend(d.keys, p, p, id);
    } else {
      assert Lists(d, p, c);
      BeforeAppend(d.keys, p, c, id);
    }
  }

  lemma RegisterBreaksForest(d: Registry, id: Id, name: string, role: string, parent: Option<Id>)
    requires Forest(d) && !MayRegister(d, id, parent)
    ensures !Forest(Registered(d, id, name, role, parent))
  {
    var e := Registered(d, id, name, role, parent);
    if id != "" && parent == Some(id) {
      assert Lists(e, id, id);
      if Before(e.keys, id, id) {
        BeforeMembers(e.keys, id, id);
      }
    } else if id != "" && exists c :: c in d.at && d.at[c].parent == Some(id) {
      ParentLosesChildren(d, id, name, role, parent);
    } else if Linked(d, d.at[id].parent) {
      var q := d.at[id].parent.value;
      assert Lists(d, q, id) && NamesParent(d, q, id);
      BeforeMembers(d.keys, q, id);
      if parent == Some(q) {
        NoDupAppend(d.at[q].children, id);
      } else {
        assert Lists(e, q, id);
      }
    } else {
      assert Lists(e, parent.value, id);
    }
  }

  lemma ParentLosesChildren(d: Registry, id: Id, name: string, role: string, parent: Option<Id>)
    requires Forest(d) && id != "" && parent != Some(id)
    requires exists c :: c in d.at && d.at[c].parent == Some(id)
    ensures !Complete(Registered(d, id, name, role, parent))
  {
    var e := Registered(d, id, name, role, parent);
    var c :| c in d.at && d.at[c].parent == Some(id);
    if c == id {
      assert Lists(d, id, id) && NamesParent(d, id, id);
      BeforeMembers(d.keys, id, id);
    }
    assert c in e.at && Linked(e, e.at[c].parent) && !Lists(e, id, c);
  }

  // ----- subtrees -----

  /** `c` is listed by its parent. */
  predicate Child(d: Registry, c: Id) {
    c in d.at && d.at[c].parent.Some? && Lists(d, d.at[c].parent.value, c)
  }

  lemma ChildIsLater(d: Registry, c: Id)
    requires Sound(d) && Child(d, c)
    ensures d.at[c].parent.value in d.keys && c in d.keys
    ensures Pos(d.keys, d.at[c].parent.value) < Pos(d.keys, c)
  {
    assert NamesParent(d, d.at[c].parent.value, c);
    BeforeIsPos(d.keys, d.at[c].parent.value, c);
  }

  /** `c` is `a` or one of its descendants, following the child lists. */
  ghost predicate Under(d: Registry, a: Id, c: Id)
    requires Sound(d)
    decreases if c in d.keys then Pos(d.keys, c) else 0
  {
    c == a ||
    (Child(d, c) && (ChildIsLater(d, c); Under(d, a, d.at[c].parent.value)))
  }

  ghost function Subtree(d: Registry, a: Id): set<Id>
    requires Sound(d)
  {
    set c | c in d.at && Under(d, a, c)
  }

  /** The registry without `a` and all its descendants, and without `a` in its parent's list. */
  ghost function Pruned(d: Registry, a: Id): Registry
    requires Sound(d)
  {
    Dict(Filter(d.keys, k => !Under(d, a, k)),
         map k | k in d.at && !Under(d, a, k) ::
           d.at[k].(children := Remove(d.at[k].children, a)))
  }

  /** A chain of child-list links, each agent listing the next. */
  ghost predicate Descent(d: Registry, path: seq<Id>) {
    path != [] && (|path| > 1 ==> Lists(d, path[|path| - 2], path[|path| - 1]) && Descent(d, path[..|path| - 1]))
  }

  /** `Under` climbs; going down the child lists from `a` reaches the same agents. */
  lemma UnderIffDescent(d: Registry, a: Id, c: Id)
    requires Sound(d)
    ensures Under(d, a, c) <==> exists path :: Descent(d, path) && path[0] == a && path[|path| - 1] == c
  {
    if Under(d, a, c) {
      var path := DescentTo(d, a, c);
    }
    forall path | Descent(d, path) && path[0] == a && path[|path| - 1] == c ensures Under(d, a, c) {
      DescentIsUnder(d, path);
    }
  }

  lemma {:induction false} DescentTo(d: Registry, a: Id, c: Id) returns (path: seq<Id>)
    requires Sound(d) && Under(d, a, c)
    ensures Descent(d, path) && path[0] == a && path[|path| - 1] == c
    decreases if c in d.keys then Pos(d.keys, c) else 0
  {
    if c == a {
      path := [a];
    } else {
      ChildIsLater(d, c);
      path := DescentTo(d, a, d.at[c].parent.value);
      assert (path + [c])[..|path|] == path;
      path := path + [c];
    }
  }

  lemma {:induction false} DescentIsUnder(d: Registry, path: seq<Id>)
    requires Sound(d) && Descent(d, path)
    ensures Under(d, path[0], path[|path| - 1])
    decreases |path|
  {
    if |path| > 1 {
      DescentIsUnder(d, path[..|path| - 1]);
      assert NamesParent(d, path[|path| - 2], path[|path| - 1]);
    }
  }

  lemma PrunedSound(d: Registry, a: Id)
    requires Sound(d)
    ensures Sound(Pruned(d, a))
  {
    var e := Pruned(d, a);
    FilterNoDup(d.keys, k => !Under(d, a, k));
    forall p, c | Lists(e, p, c) ensures NamesParent(e, p, c) {
      RemoveNoDup(d.at[p].children, a);
      assert Lists(d, p, c) && NamesParent(d, p, c) && Child(d, c);
      FilterKeepsOrder(d.keys, k => !Under(d, a, k), p, c);
    }
    forall p | p in e.at ensures NoDup(e.at[p].children) {
      RemoveNoDup(d.at[p].children, a);
    }
  }

  /** Pruning a forest leaves a forest. */
  lemma PruneKeepsForest(d: Registry, a: Id)
    requires Forest(d)
    ensures Forest(Pruned(d, a))
  {
    var e := Pruned(d, a);
    PrunedSound(d, a);
    forall c | c in e.at && Linked(e, e.at[c].parent) ensures Lists(e, e.at[c].parent.value, c) {
      assert Lists(d, d.at[c].parent.value, c);
    }
  }

  // ----- the cascade -----

  /** Lines 175-177: `a` leaves its parent's list. */
  function Detached(d: Registry, a: Id): Registry
    requires a in d.at
  {
    if Linked(d, d.at[a].parent) && a in d.at[d.at[a].parent.value].children then
      var p := d.at[a].parent.value;
      d.(at := d.at[p := d.at[p].(children := Remove(d.at[p].children, a))])
    else d
  }

  /** Some way down the child lists leads from an agent of `from` to `c`. */
  ghost predicate Reaches(d: Registry, from: set<Id>, c: Id) {
    exists path :: Descent(d, path) && path[0] in from && path[|path| - 1] == c
  }

  ghost function Reached(d: Registry, from: set<Id>): set<Id> {
    set c | c in d.at && Reaches(d, from, c)
  }

  /** The list without the first occurrence of each of `gone`. */
  function DropFirsts(s: seq<Id>, gone: set<Id>): (r: seq<Id>)
    ensures forall c :: c in r ==> c in s
    ensures forall c :: c in s && c !in gone ==> c in r
  {
    if s == [] then []
    else if s[0] in gone then DropFirsts(s[1..], gone - {s[0]})
    else [s[0]] + DropFirsts(s[1..], gone)
  }

  /** Those of `gone` whose parent is `k`. */
  function Leavers(d: Registry, gone: set<Id>, k: Id): set<Id> {
    set c | c in gone && c in d.at && k != "" && d.at[c].parent == Some(k)
  }

  /** The ids in order, without `gone`. */
  function Others(ids: seq<Id>, gone: set<Id>): seq<Id> {
    Filter(ids, k => k !in gone)
  }

  /** The registry without `gone`, each of whom also leaves its parent's list, once. */
  function Without(d: Registry, gone: set<Id>): (e: Registry)
    ensures e.at.Keys == d.at.Keys - gone
  {
    Dict(Others(d.keys, gone),
         map k | k in d.at && k !in gone ::
           d.at[k].(children := DropFirsts(d.at[k].children, Leavers(d, gone, k))))
  }

  /** The registry without everybody reached from `from`. */
  ghost function Cut(d: Registry, from: set<Id>): Registry {
    Without(d, Reached(d, from))
  }

  lemma {:induction false} DropTwice(s: seq<Id>, a: set<Id>, b: set<Id>)
    requires a !! b
    ensures DropFirsts(DropFirsts(s, a), b) == DropFirsts(s, a + b)
  {
    if s != [] {
      if s[0] in a {
        DropTwice(s[1..], a - {s[0]}, b);
        assert (a - {s[0]}) + b == a + b - {s[0]};
      } else if s[0] in b {
        DropTwice(s[1..], a, b - {s[0]});
        assert a + (b - {s[0]}) == a + b - {s[0]};
      } else {
        DropTwice(s[1..], a, b);
      }
    }
  }

  lemma {:induction false} DropSame(s: seq<Id>, a: set<Id>, b: set<Id>)
    requires forall c :: c in s ==> (c in a <==> c in b)
    ensures DropFirsts(s, a) == DropFirsts(s, b)
  {
    if s != [] {
      if s[0] in a {
        DropSame(s[1..], a - {s[0]}, b - {s[0]});
      } else {
        DropSame(s[1..], a, b);
      }
    }
  }

  lemma {:induction false} DropNone(s: seq<Id>)
    ensures DropFirsts(s, {}) == s
  {
    if s != [] {
      DropNone(s[1..]);
    }
  }

  lemma {:induction false} DropOne(s: seq<Id>, c: Id)
    ensures DropFirsts(s, {c}) == Remove(s, c)
  {
    if s != [] {
      if s[0] == c {
        assert {c} - {c} == {};
        DropNone(s[1..]);
      } else {
        DropOne(s[1..], c);
      }
    }
  }

  /** What holds of the starts and passes down the child lists holds of everybody reached. */
  lemma ReachedHave(d: Registry, from: set<Id>, has: Id -> bool, c: Id)
    requires forall a :: a in from ==> has(a)
    requires forall p, q :: has(p) && Lists(d, p, q) ==> has(q)
    requires Reaches(d, from, c)
    ensures has(c)
  {
    var path :| Descent(d, path) && path[0] in from && path[|path| - 1] == c;
    DescentHas(d, path, has);
  }

  lemma {:induction false} DescentHas(d: Registry, path: seq<Id>, has: Id -> bool)
    requires Descent(d, path) && has(path[0])
    requires forall p, q :: has(p) && Lists(d, p, q) ==> has(q)
    ensures has(path[|path| - 1])
    decreases |path|
  {
    if |path| > 1 {
      DescentHas(d, path[..|path| - 1], has);
    }
  }

  lemma ReachesStarts(d: Registry, from: set<Id>)
    ensures forall a :: a in from ==> Reaches(d, from, a)
  {
    forall a | a in from ensures Reaches(d, from, a) {
      assert Descent(d, [a]) && [a][0] == a;
    }
  }

  lemma ReachesNext(d: Registry, from: set<Id>)
    ensures forall p, c :: Reaches(d, from, p) && Lists(d, p, c) ==> Reaches(d, from, c)
  {
    forall p, c | Reaches(d, from, p) && Lists(d, p, c) ensures Reaches(d, from, c) {
      var path :| Descent(d, path) && path[0] in from && path[|path| - 1] == p;
      assert (path + [c])[..|path|] == path;
      assert Descent(d, path + [c]);
    }
  }

  /** Fewer links reach less, and so do starts that are themselves reached. */
  lemma ReachesLess(d: Registry, from: set<Id>, e: Registry, to: set<Id>)
    requires forall p, c :: Lists(e, p, c) ==> Lists(d, p, c)
    requires forall c :: c in to ==> Reaches(d, from, c)
    ensures forall c :: Reaches(e, to, c) ==> Reaches(d, from, c)
  {
    ReachesNext(d, from);
    forall c | Reaches(e, to, c) ensures Reaches(d, from, c) {
      ReachedHave(e, to, x => Reaches(d, from, x), c);
    }
  }

  lemma CutLinks(d: Registry, from: set<Id>)
    ensures forall p, c :: Lists(Cut(d, from), p, c) ==> Lists(d, p, c)
    ensures forall p, c :: Lists(d, p, c) && !Reaches(d, from, p) && !Reaches(d, from, c) ==> Lists(Cut(d, from), p, c)
  {
  }

  lemma ReachedEither(d: Registry, a: set<Id>, b: set<Id>, c: Id)
    requires Reaches(d, a + b, c)
    ensures Reaches(d, a, c) || Reaches(Cut(d, a), b, c)
  {
    var e := Cut(d, a);
    CutLinks(d, a);
    ReachesStarts(d, a);
    ReachesStarts(e, b);
    ReachesNext(d, a);
    ReachesNext(e, b);
    ReachedHave(d, a + b, x => Reaches(d, a, x) || Reaches(e, b, x), c);
  }

  /** What a second cut removes is what its starts reached before the first, unless removed then. */
  lemma ReachedTwice(d: Registry, a: set<Id>, b: set<Id>)
    ensures Reached(d, a + b) == Reached(d, a) + Reached(Cut(d, a), b)
  {
    ReachesStarts(d, a + b);
    ReachesLess(d, a + b, d, a);
    CutLinks(d, a);
    ReachesLess(d, a + b, Cut(d, a), b);
    forall c | Reaches(d, a + b, c) ensures Reaches(d, a, c) || Reaches(Cut(d, a), b, c) {
      ReachedEither(d, a, b, c);
    }
  }

  lemma LeaversSplit(d: Registry, gone: set<Id>, next: set<Id>, k: Id)
    requires gone !! next
    ensures Leavers(d, gone + next, k) == Leavers(d, gone, k) + Leavers(Without(d, gone), next, k)
    ensures Leavers(d, gone, k) !! Leavers(Without(d, gone), next, k)
  {
    var e := Without(d, gone);
    forall c | c in next ensures c in Leavers(e, next, k) <==> c in Leavers(d, gone + next, k) {
    }
  }

  lemma TwiceRecord(d: Registry, gone: set<Id>, next: set<Id>, k: Id)
    requires gone !! next && k in Without(d, gone + next).at
    ensures k in Without(Without(d, gone), next).at
    ensures Without(Without(d, gone), next).at[k] == Without(d, gone + next).at[k]
  {
    LeaversSplit(d, gone, next, k);
    DropTwice(d.at[k].children, Leavers(d, gone, k), Leavers(Without(d, gone), next, k));
  }

  lemma OthersTwice(ids: seq<Id>, gone: set<Id>, next: set<Id>)
    ensures Others(Others(ids, gone), next) == Others(ids, gone + next)
  {
    FilterWithin(ids, k => k !in gone, k => k !in next, k => k !in gone + next);
  }

  lemma WithoutTwice(d: Registry, gone: set<Id>, next: set<Id>)
    requires gone !! next
    ensures Without(Without(d, gone), next) == Without(d, gone + next)
  {
    OthersTwice(d.keys, gone, next);
    var was, now := Without(d, gone + next).at, Without(Without(d, gone), next).at;
    assert now.Keys == was.Keys;
    forall k | k in was ensures now[k] == was[k] {
      TwiceRecord(d, gone, next, k);
    }
  }

  /** Cutting in two rounds is cutting at once. */
  lemma CutTwice(d: Registry, a: set<Id>, b: set<Id>)
    requires d.Valid()
    ensures Cut(Cut(d, a), b) == Cut(d, a + b)
  {
    ReachedTwice(d, a, b);
    WithoutTwice(d, Reached(d, a), Reached(Cut(d, a), b));
  }

  /** Whoever is listed ranks above the lister, except an agent that is its own parent and lists
      itself once. */
  ghost predicate Ranked(d: Registry, rank: map<Id, nat>) {
    d.Valid() && d.at.Keys <= rank.Keys && forall p, c :: Lists(d, p, c) ==> Rises(d, rank, p, c)
  }

  ghost predicate Rises(d: Registry, rank: map<Id, nat>, p: Id, c: Id)
    requires p in d.at
  {
    p in rank && c in rank && (rank[p] < rank[c] || (p == c && p != "" && d.at[p].parent == Some(p)
                                                     && multiset(d.at[p].children)[p] == 1))
  }

  /** What every registry has, whatever was registered in whatever order. */
  ghost predicate Orderly(d: Registry) {
    exists rank :: Ranked(d, rank)
  }

  lemma {:induction false} DropCounts(s: seq<Id>, gone: set<Id>, c: Id)
    ensures multiset(DropFirsts(s, gone))[c] == multiset(s)[c] - if c in gone && c in s then 1 else 0
  {
    if s != [] {
      assert s == [s[0]] + s[1..];
      DropCounts(s[1..], if s[0] in gone then gone - {s[0]} else gone, c);
    }
  }

  lemma CutRanked(d: Registry, rank: map<Id, nat>, from: set<Id>)
    requires Ranked(d, rank)
    ensures Ranked(Cut(d, from), rank)
  {
    var e, gone := Cut(d, from), Reached(d, from);
    FilterNoDup(d.keys, k => k !in gone);
    CutLinks(d, from);
    forall p, c | Lists(e, p, c) ensures Rises(e, rank, p, c) {
      assert Lists(d, p, c) && Rises(d, rank, p, c);
      DropCounts(d.at[p].children, Leavers(d, gone, p), p);
    }
  }

  lemma DetachedDrops(d: Registry, a: Id, k: Id)
    requires a in d.at && k in d.at
    ensures Detached(d, a).keys == d.keys && Detached(d, a).at.Keys == d.at.Keys
    ensures Detached(d, a).at[k] == d.at[k].(children := DropFirsts(d.at[k].children, Leavers(d, {a}, k)))
  {
    var s := d.at[k].children;
    DropNone(s);
    DropOne(s, a);
    assert Leavers(d, {a}, k) == if k != "" && d.at[a].parent == Some(k) then {a} else {};
  }

  lemma DetachedLinks(d: Registry, a: Id)
    requires a in d.at
    ensures forall p, c :: Lists(Detached(d, a), p, c) ==> Lists(d, p, c)
    ensures forall p, c :: Lists(d, p, c) && c != a ==> Lists(Detached(d, a), p, c)
  {
    forall p | p in d.at
      ensures Detached(d, a).at.Keys == d.at.Keys
      ensures forall c :: c in Detached(d, a).at[p].children ==> c in d.at[p].children
      ensures forall c :: c in d.at[p].children && c != a ==> c in Detached(d, a).at[p].children
    {
      DetachedDrops(d, a, p);
    }
  }

  lemma DetachedRanked(d: Registry, rank: map<Id, nat>, a: Id)
    requires Ranked(d, rank) && a in d.at
    ensures Ranked(Detached(d, a), rank) && !Lists(Detached(d, a), a, a)
  {
    var e := Detached(d, a);
    DetachedDrops(d, a, a);
    DetachedLinks(d, a);
    DropCounts(d.at[a].children, Leavers(d, {a}, a), a);
    assert Lists(d, a, a) ==> Rises(d, rank, a, a);
    forall p, c | Lists(e, p, c) ensures Rises(e, rank, p, c) {
      assert Lists(d, p, c) && Rises(d, rank, p, c);
      DetachedDrops(d, a, p);
      DropCounts(d.at[p].children, Leavers(d, {a}, p), p);
    }
  }

  lemma NotReachedFromAbove(d: Registry, rank: map<Id, nat>, a: Id, from: set<Id>)
    requires Ranked(d, rank) && a in d.at && !Lists(d, a, a)
    requires forall c :: c in from ==> Lists(d, a, c)
    ensures !Reaches(d, from, a)
  {
    forall c | c in from ensures c in rank && rank[c] > rank[a] {
      assert Rises(d, rank, a, c);
    }
    if Reaches(d, from, a) {
      forall p, q | p in rank && rank[p] > rank[a] && Lists(d, p, q) ensures q in rank && rank[q] > rank[a] {
        assert Rises(d, rank, p, q);
      }
      ReachedHave(d, from, x => x in rank && rank[x] > rank[a], a);
    }
  }

  /** Detaching `a`, cutting at its children and then deleting its entry is cutting at `a`. */
  lemma CutIsCascade(d: Registry, a: Id)
    requires Orderly(d) && a in d.at
    ensures var e, cs := Detached(d, a), Elements(Detached(d, a).at[a].children);
            && Orderly(e) && a !in Reached(e, cs) && Reached(e, {a}) <= Reached(d, {a})
            && Cut(e, cs).Pop(a) == Cut(d, {a}) && Orderly(Cut(d, {a}))
  {
    var rank :| Ranked(d, rank);
    DetachedRanked(d, rank, a);
    CutRanked(d, rank, {a});
    var e := Detached(d, a);
    var cs := Elements(e.at[a].children);
    NotReachedFromAbove(e, rank, a, cs);
    ReachedFromChildren(d, a);
    WithoutOneMore(d, a, Reached(e, cs));
    assert Reached(d, {a}) == Reached(e, cs) + {a};
  }

  lemma ReachedFromChildren(d: Registry, a: Id)
    requires a in d.at
    ensures var e := Detached(d, a);
            && Reached(d, {a}) == {a} + Reached(e, Elements(e.at[a].children))
            && Reached(e, {a}) <= Reached(d, {a})
  {
    var e := Detached(d, a);
    var cs := Elements(e.at[a].children);
    DetachedLinks(d, a);
    DetachedDrops(d, a, a);
    ReachesStarts(d, {a});
    ReachesNext(d, {a});
    ReachesStarts(e, cs);
    ReachesNext(e, cs);
    forall c | c in cs ensures Reaches(d, {a}, c) {
      assert Lists(e, a, c);
    }
    ReachesLess(d, {a}, e, cs);
    ReachesLess(d, {a}, e, {a});
    forall c | Reaches(d, {a}, c) ensures c == a || Reaches(e, cs, c) {
      ReachedHave(d, {a}, x => x == a || Reaches(e, cs, x), c);
    }
  }

  lemma CutRecord(d: Registry, a: Id, below: set<Id>, k: Id)
    requires a in d.at && k in d.at && a !in below
    ensures var e := Detached(d, a);
            k in e.at && e.at[k].(children := DropFirsts(e.at[k].children, Leavers(e, below, k))) ==
                         d.at[k].(children := DropFirsts(d.at[k].children, Leavers(d, below + {a}, k)))
  {
    var e := Detached(d, a);
    DetachedDrops(d, a, k);
    DropTwice(d.at[k].children, Leavers(d, {a}, k), Leavers(e, below, k));
    assert Leavers(d, below + {a}, k) == Leavers(d, {a}, k) + Leavers(e, below, k);
  }

  lemma OthersRemove(ids: seq<Id>, below: set<Id>, a: Id)
    requires NoDup(ids)
    ensures Remove(Others(ids, below), a) == Others(ids, below + {a})
  {
    FilterNoDup(ids, k => k !in below);
    RemoveIsFilter(Others(ids, below), a, k => k !in {a});
    OthersTwice(ids, below, {a});
  }

  lemma OneMoreRecord(d: Registry, a: Id, below: set<Id>, k: Id)
    requires a in d.at && a !in below && k in Without(d, below + {a}).at
    ensures k in Without(Detached(d, a), below).at
    ensures Without(Detached(d, a), below).at[k] == Without(d, below + {a}).at[k]
  {
    CutRecord(d, a, below, k);
  }

  lemma OneMoreRecords(d: Registry, a: Id, below: set<Id>)
    requires a in d.at && a !in below
    ensures Without(Detached(d, a), below).at - {a} == Without(d, below + {a}).at
  {
    var was, now := Without(d, below + {a}).at, Without(Detached(d, a), below).at - {a};
    assert Detached(d, a).at.Keys == d.at.Keys by { DetachedDrops(d, a, a); }
    assert now.Keys == was.Keys;
    forall k | k in was ensures now[k] == was[k] {
      OneMoreRecord(d, a, below, k);
    }
  }

  lemma WithoutOneMore(d: Registry, a: Id, below: set<Id>)
    requires d.Valid() && a in d.at && a !in below
    ensures Without(Detached(d, a), below).Pop(a) == Without(d, below + {a})
  {
    OthersRemove(d.keys, below, a);
    OneMoreRecords(d, a, below);
  }

  lemma SoundRecord(d: Registry, a: Id, gone: set<Id>, k: Id)
    requires Sound(d) && k in d.at && !Under(d, a, k)
    requires forall c :: c in gone <==> c in d.at && Under(d, a, c)
    ensures DropFirsts(d.at[k].children, Leavers(d, gone, k)) == Remove(d.at[k].children, a)
  {
    forall c | c in d.at[k].children ensures c in Leavers(d, gone, k) <==> c == a {
      assert Lists(d, k, c) && NamesParent(d, k, c) && Child(d, c);
      BeforeMembers(d.keys, k, c);
    }
    DropSame(d.at[k].children, Leavers(d, gone, k), {a});
    DropOne(d.at[k].children, a);
  }

  /** A removed id stays on the list of an agent that stays exactly when it was listed there more
      often than its removal takes it off: once, and only by its parent. */
  lemma StaleIff(d: Registry, a: Id, k: Id, c: Id)
    requires k in Cut(d, {a}).at && c in Reached(d, {a})
    ensures Lists(Cut(d, {a}), k, c) <==>
            multiset(d.at[k].children)[c] > if k != "" && d.at[c].parent == Some(k) then 1 else 0
  {
    DropCounts(d.at[k].children, Leavers(d, Reached(d, {a}), k), c);
    assert Lists(Cut(d, {a}), k, c) <==> multiset(Cut(d, {a}).at[k].children)[c] > 0;
  }

  /** What registering p, q, then c under p, and c again under q leaves. */
  function Moved(): Registry {
    Dict(["p", "q", "c"], map["p" := Agent("p", "", "", None, ["c"]), "q" := Agent("q", "", "", None, ["c"]),
                              "c" := Agent("c", "", "", Some("q"), [])])
  }

  lemma MovedIsRegistered()
    ensures var d := Registered(Registered(EMPTY, "p", "", "", None), "q", "", "", None);
            Registered(Registered(d, "c", "", "", Some("p")), "c", "", "", Some("q")) == Moved()
  {
    var d := Registered(Registered(EMPTY, "p", "", "", None), "q", "", "", None);
    assert d == Dict(["p", "q"], map["p" := Agent("p", "", "", None, []), "q" := Agent("q", "", "", None, [])]);
    var e := Registered(d, "c", "", "", Some("p"));
    assert e.keys == ["p", "q", "c"] && e.at["p"] == Agent("p", "", "", None, ["c"]);
  }

  /** Registered under one parent and then again under another, an agent stays on the first one's
      list when it is deregistered. */
  lemma StaleAfterMove()
    ensures var e := Cut(Moved(), {"c"}); "c" !in e.at && Lists(e, "p", "c") && !Lists(e, "q", "c")
  {
    var d := Moved();
    ReachesStarts(d, {"c"});
    forall k | Reaches(d, {"c"}, k) ensures k == "c" {
      ReachedHave(d, {"c"}, x => x == "c", k);
    }
    assert Reached(d, {"c"}) == {"c"};
    StaleIff(d, "c", "p", "c");
    StaleIff(d, "c", "q", "c");
  }

  /** On sound lists that is removing the whole subtree. */
  lemma CutIsPruned(d: Registry, a: Id)
    requires Sound(d)
    ensures Cut(d, {a}) == Pruned(d, a)
  {
    var gone := Reached(d, {a});
    forall k ensures Reaches(d, {a}, k) <==> Under(d, a, k) {
      UnderIffDescent(d, a, k);
    }
    FilterSame(d.keys, k => k !in gone, k => !Under(d, a, k));
    var cut, pruned := Cut(d, {a}).at, Pruned(d, a).at;
    assert cut.Keys == pruned.Keys;
    forall k | k in cut ensures cut[k] == pruned[k] {
      SoundRecord(d, a, gone, k);
    }
  }

  lemma CutOnSound(d: Registry, a: Id)
    ensures Sound(d) ==> Cut(d, {a}) == Pruned(d, a) && Sound(Cut(d, {a}))
  {
    if Sound(d) {
      CutIsPruned(d, a);
      PrunedSound(d, a);
    }
  }

  lemma SoundIsOrderly(d: Registry)
    requires Sound(d)
    ensures Orderly(d)
  {
    var rank: map<Id, nat> := map k | k in d.at :: Pos(d.keys, k);
    forall p, c | Lists(d, p, c) ensures Rises(d, rank, p, c) {
      assert NamesParent(d, p, c);
      BeforeIsPos(d.keys, p, c);
    }
    assert Ranked(d, rank);
  }

  /** Cutting first at somebody below changes nothing. */
  lemma CutBelowFirst(d: Registry, a: Id, c: Id)
    requires d.Valid() && Reaches(d, {a}, c)
    ensures Reached(d, {c}) <= Reached(d, {a}) && Cut(Cut(d, {c}), {a}) == Cut(d, {a})
  {
    ReachesStarts(d, {a});
    ReachesLess(d, {a}, d, {c});
    ReachesLess(d, {a}, d, {c} + {a});
    ReachesStarts(d, {c} + {a});
    ReachesLess(d, {c} + {a}, d, {a});
    CutTwice(d, {c}, {a});
    assert Reached(d, {c} + {a}) == Reached(d, {a});
  }

  /** On sound lists, removing the first child's subtree leaves `a` with the remaining children, and
      does not change what removing the subtree of `a` is to give. */
  lemma ChildStep(d: Registry, a: Id, c: Id)
    requires Sound(d) && a in d.at && !Child(d, a)
    requires d.at[a].children != [] && d.at[a].children[0] == c
    ensures Subtree(d, c) < Subtree(d, a)
    ensures Sound(Pruned(d, c)) && a in Pruned(d, c).at && !Child(Pruned(d, c), a)
    ensures Pruned(d, c).at[a].children == d.at[a].children[1..]
    ensures Subtree(Pruned(d, c), a) <= Subtree(d, a)
    ensures Pruned(Pruned(d, c), a) == Pruned(d, a)
  {
    var e := Pruned(d, c);
    assert Lists(d, a, c) && NamesParent(d, a, c);
    BeforeMembers(d.keys, a, c);
    assert Under(d, a, a) && !Under(d, c, a);
    ReachesStarts(d, {a});
    ReachesNext(d, {a});
    CutBelowFirst(d, a, c);
    SubtreeIsReached(d, a);
    SubtreeIsReached(d, c);
    PrunedSound(d, c);
    SubtreeIsReached(e, a);
    CutIsPruned(d, a);
    CutIsPruned(d, c);
    CutIsPruned(e, a);
    CutLinks(d, {c});
    ReachesLess(d, {a}, e, {a});
  }

  lemma SubtreeIsReached(d: Registry, a: Id)
    requires Sound(d)
    ensures Subtree(d, a) == Reached(d, {a})
  {
    forall k ensures Under(d, a, k) <==> Reaches(d, {a}, k) {
      UnderIffDescent(d, a, k);
    }
  }

  lemma CutNothing(d: Registry, from: set<Id>)
    requires d.Valid() && Reached(d, from) == {}
    ensures Cut(d, from) == d
  {
    FilterIdentity(d.keys, k => k !in Reached(d, from));
    var e := Cut(d, from);
    forall k | k in d.at ensures k in e.at && e.at[k] == d.at[k] {
      assert Leavers(d, {}, k) == {};
      DropNone(d.at[k].children);
    }
    assert e.at == d.at;
  }

  lemma UnknownReachesNobody(d: Registry, c: Id)
    requires c !in d.at
    ensures Reached(d, {c}) == {}
  {
    forall k | Reaches(d, {c}, k) ensures k == c {
      ReachedHave(d, {c}, x => x == c, k);
    }
  }

  lemma BelowChildren(d: Registry, a: Id, cs: set<Id>)
    requires forall k :: k in cs ==> Lists(d, a, k)
    ensures Reaches(d, {a}, a) && forall x :: Reaches(d, cs, x) ==> Reaches(d, {a}, x)
  {
    ReachesStarts(d, {a});
    ReachesNext(d, {a});
    ReachesLess(d, {a}, d, cs);
  }

  lemma CutReachesLess(d: Registry, done: set<Id>, cs: set<Id>, c: Id)
    requires c in cs
    ensures forall x :: Reaches(Cut(d, done), {c}, x) ==> Reaches(d, cs, x)
  {
    CutLinks(d, done);
    ReachesStarts(d, cs);
    ReachesLess(d, cs, Cut(d, done), {c});
  }

  /** The next child of `a`, when those of `done` were deregistered, has a smaller subtree left. */
  lemma NextIsSmaller(d: Registry, a: Id, cs: set<Id>, done: set<Id>, c: Id)
    requires a in d.at && a !in Reached(d, cs) && forall k :: k in cs ==> Lists(d, a, k)
    requires c in cs
    ensures Reached(Cut(d, done), {c}) < Reached(d, {a})
  {
    BelowChildren(d, a, cs);
    CutReachesLess(d, done, cs, c);
    assert a in Reached(d, {a}) && a !in Reached(Cut(d, done), {c});
  }

  /** Deregistering it, whether it is still there or not, cuts at one more child. */
  lemma CutNext(d: Registry, done: set<Id>, c: Id)
    requires d.Valid()
    ensures (if c in Cut(d, done).at then Cut(Cut(d, done), {c}) else Cut(d, done)) == Cut(d, done + {c})
  {
    var m := Cut(d, done);
    CutTwice(d, done, {c});
    if c !in m.at {
      UnknownReachesNobody(m, c);
      CutKeepsValid(d, done);
      CutNothing(m, {c});
    }
  }

  lemma CutKeepsValid(d: Registry, from: set<Id>)
    requires d.Valid()
    ensures Cut(d, from).Valid()
  {
    FilterNoDup(d.keys, k => k !in Reached(d, from));
  }

  lemma CutKeepsOrderly(d: Registry, from: set<Id>)
    requires Orderly(d)
    ensures Orderly(Cut(d, from))
  {
    var rank :| Ranked(d, rank);
    CutRanked(d, rank, from);
  }

  lemma {:induction false} Above(rank: map<Id, nat>) returns (top: nat)
    ensures forall k :: k in rank ==> rank[k] < top
    decreases |rank|
  {
    if rank == map[] {
      top := 0;
    } else {
      var k :| k in rank;
      var rest := rank - {k};
      assert rest.Keys == rank.Keys - {k};
      var below := Above(rest);
      top := Max(below, rank[k] + 1);
      forall j | j in rank ensures rank[j] < top {
        assert j != k ==> j in rest;
      }
    }
  }

  /** No registration, checked or not, breaks that order: a record put in place of another starts
      without children. */
  lemma RegisterKeepsOrderly(d: Registry, id: Id, name: string, role: string, parent: Option<Id>)
    requires Orderly(d)
    ensures Orderly(Registered(d, id, name, role, parent))
  {
    var rank :| Ranked(d, rank);
    var top := Above(rank);
    var d1, e := d.Put(id, Agent(id, name, role, parent, [])), Registered(d, id, name, role, parent);
    PutValid(d, id, Agent(id, name, role, parent, []));
    if Linked(d1, parent) {
      PutValid(d1, parent.value, e.at[parent.value]);
    }
    forall p, c | Lists(e, p, c) ensures Rises(e, rank[id := top], p, c) {
      if p != id && c != id {
        assert Lists(d, p, c) && Rises(d, rank, p, c);
      }
    }
    assert Ranked(e, rank[id := top]);
  }

  // ----- whole runs -----

  datatype Request =
    | Register(id: Id, name: string, role: string, parent: Option<Id>)
    | Deregister(id: Id)

  ghost function Served(d: Registry, r: Request): Registry {
    match r
    case Register(id, name, role, parent) => Registered(d, id, name, role, parent)
    case Deregister(id) => if id in d.at then Cut(d, {id}) else d
  }

  ghost function ServedAll(d: Registry, rs: seq<Request>): Registry
    decreases rs
  {
    if rs == [] then d else ServedAll(Served(d, rs[0]), rs[1..])
  }

  /** Every registration of the run passes the caller's check when it is made. */
  ghost predicate Disciplined(d: Registry, rs: seq<Request>)
    decreases rs
  {
    rs == [] ||
    ((rs[0].Register? ==> MayRegister(d, rs[0].id, rs[0].parent)) && Disciplined(Served(d, rs[0]), rs[1..]))
  }

  lemma DeregisterKeepsForest(d: Registry, id: Id)
    requires Forest(d)
    ensures Forest(Cut(d, {id}))
  {
    CutIsPruned(d, id);
    PruneKeepsForest(d, id);
  }

  /** Every registry that any run can reach is orderly, so the cascade always ends. */
  lemma {:induction false} ReachableIsOrderly(d: Registry, rs: seq<Request>)
    requires Orderly(d)
    ensures Orderly(ServedAll(d, rs))
    decreases rs
  {
    if rs != [] {
      match rs[0] {
        case Register(id, name, role, parent) => RegisterKeepsOrderly(d, id, name, role, parent);
        case Deregister(id) => CutKeepsOrderly(d, {id});
      }
      ReachableIsOrderly(Served(d, rs[0]), rs[1..]);
    }
  }

  /** Every registry that a disciplined run can reach is a forest. */
  lemma {:induction false} ReachableIsForest(d: Registry, rs: seq<Request>)
    requires Forest(d) && Disciplined(d, rs)
    ensures Forest(ServedAll(d, rs))
    decreases rs
  {
    if rs != [] {
      match rs[0] {
        case Register(id, name, role, parent) => RegisterKeepsForest(d, id, name, role, parent);
        case Deregister(id) => DeregisterKeepsForest(d, id);
      }
      ReachableIsForest(Served(d, rs[0]), rs[1..]);
    }
  }

  lemma EmptyIsForest()
    ensures Forest(EMPTY) && Orderly(EMPTY)
  {
    SoundIsOrderly(EMPTY);
  }

  // ----- the lock -----

  /** The registry, and whether a call that has not returned holds its lock. */
  datatype Shared = Shared(agents: Registry, held: bool)

  /** What a call leaves and returns: None if it never returns. */
  datatype Ran = Ran(left: Shared, returned: Option<bool>)

  /** `deregister` as written. A lock that is held is waited for until its holder returns; a holder
      that itself waits for it never does. */
  function AsWritten(s: Shared, id: Id): Ran
    decreases if s.held then 0 else 2, 0
  {
    if s.held then Ran(s, None)
    else if id !in s.agents.at then Ran(s, Some(false))
    else
      var d := Detached(s.agents, id);
      var r := ChildrenAsWritten(Shared(d, true), d.at[id].children);
      if r.returned.None? then r else Ran(Shared(r.left.agents.Pop(id), false), Some(true))
  }

  /** Lines 180-181, with the lock held throughout. */
  function ChildrenAsWritten(s: Shared, children: seq<Id>): Ran
    decreases 1, children
  {
    if children == [] then Ran(s, Some(true))
    else
      var r := AsWritten(Shared(s.agents, true), children[0]);
      if r.returned.None? then r else ChildrenAsWritten(r.left, children[1..])
  }

  lemma FirstChildWaits(d: Registry, children: seq<Id>)
    requires children != []
    ensures ChildrenAsWritten(Shared(d, true), children) == Ran(Shared(d, true), None)
  {
    assert AsWritten(Shared(d, true), children[0]) == Ran(Shared(d, true), None);
  }

  /** With the lock free, the call returns exactly when the id is unknown or lists nobody but itself.
      Then it has done what deregistering is to do; otherwise it has done no more than take the
      agent off its parent's list, and keeps the lock. */
  lemma ReturnsIff(d: Registry, id: Id)
    requires Orderly(d)
    ensures var r := AsWritten(Shared(d, false), id);
            && (r.returned.Some? <==> id !in d.at || forall c :: c in d.at[id].children ==> c == id)
            && (r.returned.Some? ==> r == Ran(Shared(if id in d.at then Cut(d, {id}) else d, false), Some(id in d.at)))
            && (r.returned.None? ==> id in d.at && r.left == Shared(Detached(d, id), true))
  {
    if id in d.at {
      var rank :| Ranked(d, rank);
      var children := Detached(d, id).at[id].children;
      DetachedRanked(d, rank, id);
      DetachedLinks(d, id);
      assert forall c :: c in children <==> Lists(Detached(d, id), id, c);
      assert forall c :: c in d.at[id].children <==> Lists(d, id, c);
      if children == [] {
        CutIsCascade(d, id);
        assert Elements(children) == {};
        CutNothing(Detached(d, id), {});
      } else {
        assert children[0] in children && children[0] != id;
        FirstChildWaits(Detached(d, id), children);
      }
    }
  }

  /** One parent and its child: deregistering the parent never returns and removes nobody. */
  lemma ParentNeverReturns()
    ensures var d := Registered(Registered(EMPTY, "p", "", "", None), "c", "", "", Some("p"));
            Forest(d) && AsWritten(Shared(d, false), "p") == Ran(Shared(d, true), None)
  {
    EmptyIsForest();
    var d := Registered(EMPTY, "p", "", "", None);
    RegisterKeepsForest(EMPTY, "p", "", "", None);
    RegisterKeepsForest(d, "c", "", "", Some("p"));
    var e := Registered(d, "c", "", "", Some("p"));
    assert e.at["p"].children == [] + ["c"];
    FirstChildWaits(e, e.at["p"].children);
  }

  /** Any request with the lock: one made while it is held is never served. */
  function ServedAsWritten(s: Shared, r: Request): Shared {
    match r
    case Register(id, name, role, parent) =>
      if s.held then s else s.(agents := Registered(s.agents, id, name, role, parent))
    case Deregister(id) => AsWritten(s, id).left
  }

  function ServedAllAsWritten(s: Shared, rs: seq<Request>): Shared
    decreases rs
  {
    if rs == [] then s else ServedAllAsWritten(ServedAsWritten(s, rs[0]), rs[1..])
  }

  /** Nobody with other agents on its list is deregistered. */
  ghost predicate NoCascade(d: Registry, rs: seq<Request>)
    decreases rs
  {
    rs == [] ||
    ((rs[0].Deregister? && rs[0].id in d.at ==> forall c :: c in d.at[rs[0].id].children ==> c == rs[0].id)
     && NoCascade(Served(d, rs[0]), rs[1..]))
  }

  lemma {:induction false} HeldForEver(s: Shared, rs: seq<Request>)
    requires s.held
    ensures ServedAllAsWritten(s, rs) == s
    decreases rs
  {
    if rs != [] {
      HeldForEver(s, rs[1..]);
    }
  }

  /** Any run, with the lock, ends with the lock free exactly when nobody with other agents on its
      list is deregistered, and then it does what it does without the lock. From the first such
      request on nothing is served any more. */
  lemma {:induction false} LockFreeIff(d: Registry, rs: seq<Request>)
    requires Orderly(d)
    ensures var end := ServedAllAsWritten(Shared(d, false), rs);
            (!end.held <==> NoCascade(d, rs)) && (!end.held ==> end.agents == ServedAll(d, rs))
    decreases rs
  {
    if rs != [] {
      var s := ServedAsWritten(Shared(d, false), rs[0]);
      match rs[0] {
        case Register(id, name, role, parent) => RegisterKeepsOrderly(d, id, name, role, parent);
        case Deregister(id) =>
          CutKeepsOrderly(d, {id});
          ReturnsIff(d, id);
      }
      if s.held {
        HeldForEver(s, rs[1..]);
      } else {
        LockFreeIff(Served(d, rs[0]), rs[1..]);
      }
    }
  }

  // ----- the objects -----

  class AgentInfo {
    const id: Id
    const name: string
    const role: string
    const parentId: Option<Id>
    var childIds: seq<Id>

    constructor (id: Id, name: string, role: string, parentId: Option<Id>)
      ensures Value() == Agent(id, name, role, parentId, [])
    {
      this.id, this.name, this.role, this.parentId := id, name, role, parentId;
      childIds := [];
    }

    function Value(): Agent
      reads this
    {
      Agent(id, name, role, parentId, childIds)
    }
  }

  class AgentRegistry {
    var agents: Dict<Id, AgentInfo>
    var locked: bool

    /** Different ids have different objects. */
    ghost predicate Valid()
      reads this`agents
    {
      agents.Valid() && forall i, j :: i in agents.at && j in agents.at && i != j ==> agents.at[i] != agents.at[j]
    }

    ghost function Model(): Registry
      reads this`agents, agents.at.Values
    {
      Dict(agents.keys, map i | i in agents.at :: agents.at[i].Value())
    }

    constructor ()
      ensures Valid() && Model() == EMPTY && !locked
    {
      agents, locked := Dict([], map[]), false;
    }

    predicate HasParent(parentId: Option<Id>)
      reads this`agents
    {
      parentId.Some? && parentId.value != "" && parentId.value in agents.at
    }

    method RegisterWithId(id: Id, name: string, role: string, parentId: Option<Id>) returns (info: AgentInfo)
      requires Valid()
      modifies this`agents, agents.at.Values
      ensures Valid() && fresh(info) && id in agents.at && agents.at[id] == info
      ensures Model() == Registered(old(Model()), id, name, role, parentId)
      ensures info.id == id && info.name == name && info.role == role && info.parentId == parentId
    {
      info := new AgentInfo(id, name, role, parentId);
      Store(id, info);
      Link(id, parentId);
    }

    /** The records the registry holds after one was put. */
    twostate lemma RecordsWith(id: Id)
      requires id in agents.at && agents.at.Keys == old(agents).at.Keys + {id}
      requires forall k :: k in agents.at && k != id ==> agents.at[k] == old(agents).at[k] && unchanged(agents.at[k])
      ensures Model().at == old(Model()).at[id := agents.at[id].Value()]
    {
    }

    /** The records it holds after one was deleted. */
    twostate lemma RecordsWithout(id: Id)
      requires agents.at == old(agents).at - {id}
      requires forall k :: k in agents.at ==> unchanged(agents.at[k])
      ensures Model().at == old(Model()).at - {id}
    {
    }

    method Store(id: Id, info: AgentInfo)
      requires Valid() && info !in agents.at.Values
      modifies this`agents
      ensures Valid() && agents == old(agents).Put(id, info)
      ensures Model() == old(Model()).Put(id, info.Value())
    {
      PutValid(agents, id, info);
      agents := agents.Put(id, info);
      RecordsWith(id);
    }

    /** `del self._agents[agent_id]` */
    method Forget(id: Id)
      requires Valid()
      modifies this`agents
      ensures Valid() && agents == old(agents).Pop(id)
      ensures Model() == old(Model()).Pop(id)
    {
      PopValid(agents, id);
      agents := agents.Pop(id);
      RecordsWithout(id);
    }

    /** The records it holds after one of them changed its list. */
    twostate lemma ListChanged(p: Id)
      requires agents == old(agents) && p in agents.at
      requires forall k :: k in agents.at && k != p ==> unchanged(agents.at[k])
      ensures Model() == old(Model()).(at := old(Model()).at[p := agents.at[p].Value()])
    {
    }

    /** Lines 161-162: the new agent joins its parent's list. */
    method Link(id: Id, parentId: Option<Id>)
      requires Valid()
      modifies agents.at.Values
      ensures Model() == if Linked(old(Model()), parentId) then
                           var p := old(Model()).at[parentId.value];
                           old(Model()).Put(parentId.value, p.(children := p.children + [id]))
                         else old(Model())
    {
      if HasParent(parentId) {
        var parent := agents.at[parentId.value];
        parent.childIds := parent.childIds + [id];
        ListChanged(parentId.value);
      }
    }

    /** `register`: the id is a new uuid, so no record mentions it. */
    method RegisterAgent(uuid: Id, name: string, role: string, parentId: Option<Id>) returns (info: AgentInfo)
      requires Valid() && Forest(Model())
      requires uuid !in agents.at && parentId != Some(uuid)
      requires forall c :: c in agents.at ==> agents.at[c].parentId != Some(uuid)
      modifies this`agents, agents.at.Values
      ensures Valid() && Forest(Model())
      ensures Model() == Registered(old(Model()), uuid, name, role, parentId)
    {
      RegisterKeepsForest(Model(), uuid, name, role, parentId);
      info := RegisterWithId(uuid, name, role, parentId);
    }

    /** Lines 172-177: `agentId` leaves its parent's list. */
    method Detach(agentId: Id)
      requires Valid() && agentId in agents.at
      modifies agents.at.Values
      ensures Model() == Detached(old(Model()), agentId)
    {
      var info := agents.at[agentId];
      if HasParent(info.parentId) {
        var parent := agents.at[info.parentId.value];
        if agentId in parent.childIds {
          parent.childIds := Remove(parent.childIds, agentId);
          ListChanged(info.parentId.value);
        }
      }
    }

    /** The cascade. Each child takes itself off its parent's list while the loop walks a copy. */
    method Deregister(agentId: Id) returns (found: bool)
      requires Valid() && Orderly(Model())
      modifies this`agents, agents.at.Values
      ensures Valid() && Orderly(Model())
      ensures forall i :: i in agents.at ==> i in old(agents.at) && agents.at[i] == old(agents.at[i])
      ensures found == (agentId in old(agents.at))
      ensures Model() == if found then Cut(old(Model()), {agentId}) else old(Model())
      ensures Sound(old(Model())) ==> Sound(Model()) && (found ==> Model() == Pruned(old(Model()), agentId))
      decreases Reached(Model(), {agentId}), 1
    {
      if agentId !in agents.at {
        return false;
      }
      CutOnSound(Model(), agentId);
      CutIsCascade(Model(), agentId);
      Detach(agentId);
      DeregisterChildren(agentId);
      Forget(agentId);
      return true;
    }

    /** Lines 180-181. */
    method DeregisterChildren(agentId: Id)
      requires Valid() && Orderly(Model()) && agentId in agents.at
      requires agentId !in Reached(Model(), Elements(Model().at[agentId].children))
      modifies this`agents, agents.at.Values
      ensures Valid() && agentId in agents.at
      ensures forall i :: i in agents.at ==> i in old(agents.at) && agents.at[i] == old(agents.at[i])
      ensures Model() == Cut(old(Model()), Elements(old(Model()).at[agentId].children))
      decreases Reached(Model(), {agentId}), 0
    {
      ghost var d := Model();
      var copy := agents.at[agentId].childIds;
      WalkStarts(d, agentId, copy);
      for i := 0 to |copy|
        invariant Valid() && agentId in agents.at
        invariant forall k :: k in agents.at ==> k in old(agents.at) && agents.at[k] == old(agents.at[k])
        invariant Model() == Cut(d, Elements(copy[..i]))
      {
        WalkStep(d, agentId, copy, i);
        var _ := Deregister(copy[i]);
      }
      assert copy[..|copy|] == copy;
    }

    static lemma WalkStarts(d: Registry, a: Id, copy: seq<Id>)
      requires d.Valid()
      ensures Cut(d, Elements(copy[..0])) == d
    {
      assert Elements(copy[..0]) == {};
      CutNothing(d, {});
    }

    static lemma WalkStep(d: Registry, a: Id, copy: seq<Id>, i: nat)
      requires Orderly(d) && a in d.at && copy == d.at[a].children && i < |copy| && a !in Reached(d, Elements(copy))
      ensures var m := Cut(d, Elements(copy[..i]));
              && Orderly(m) && Reached(m, {copy[i]}) < Reached(d, {a})
              && (if copy[i] in m.at then Cut(m, {copy[i]}) else m) == Cut(d, Elements(copy[..i + 1]))
              && a in Cut(d, Elements(copy[..i + 1])).at
    {
      var done := Elements(copy[..i]);
      assert Elements(copy[..i + 1]) == done + {copy[i]};
      assert forall k :: k in Elements(copy) ==> Lists(d, a, k);
      CutKeepsOrderly(d, done);
      NextIsSmaller(d, a, Elements(copy), done, copy[i]);
      CutNext(d, done, copy[i]);
      ReachesStarts(d, Elements(copy));
      ReachesLess(d, Elements(copy), d, Elements(copy[..i + 1]));
    }

    /** `deregister` as written, which awaits itself with the lock held: None if it never returns. */
    method DeregisterAsWritten(agentId: Id) returns (found: Option<bool>)
      requires Valid()
      modifies this, agents.at.Values
      ensures Valid()
      ensures Ran(Shared(Model(), locked), found) == AsWritten(Shared(old(Model()), old(locked)), agentId)
      decreases if locked then 0 else 2
    {
      if locked {
        return None;
      }
      locked := true;
      if agentId !in agents.at {
        locked := false;
        return Some(false);
      }
      found := Cascade(agentId);
      if found.Some? {
        locked := false;
      }
    }

    /** Lines 172-191, holding the lock. */
    method Cascade(agentId: Id) returns (done: Option<bool>)
      requires Valid() && locked && agentId in agents.at
      modifies this, agents.at.Values
      ensures Valid() && locked
      ensures Ran(Shared(Model(), done.None?), done) == AsWritten(Shared(old(Model()), false), agentId)
      decreases 1, 1
    {
      Detach(agentId);
      done := AwaitChildren(agents.at[agentId].childIds);
      if done.Some? {
        Forget(agentId);
      }
    }

    /** Lines 180-181. */
    method AwaitChildren(copy: seq<Id>) returns (done: Option<bool>)
      requires Valid() && locked
      modifies this, agents.at.Values
      ensures Valid() && locked
      ensures Ran(Shared(Model(), true), done) == ChildrenAsWritten(Shared(old(Model()), true), copy)
      decreases 1, 0
    {
      for i := 0 to |copy|
        invariant Valid() && locked && agents == old(agents)
        invariant ChildrenAsWritten(Shared(Model(), true), copy[i..]) ==
                  ChildrenAsWritten(Shared(old(Model()), true), copy)
      {
        done := DeregisterAsWritten(copy[i]);
        if done.None? {
          return;
        }
      }
      done := Some(true);
    }
  }
}
