/** `rann_agent/auth/__init__.py` and `router.py`. Sliding-window rate limiting. The API limiter
    and the router's `check_rate_limit` are the same algorithm over two dictionaries. */
module RateLimits {
  import opened Prelude

  type Key = string
  type Time = real

  /** `[t for t in times if t > cutoff]` */
  function Newer(times: seq<Time>, cutoff: Time): seq<Time> {
    if times == [] then []
    else if times[0] > cutoff then [times[0]] + Newer(times[1..], cutoff)
    else Newer(times[1..], cutoff)
  }

  function TimesOf(counters: map<Key, seq<Time>>, k: Key): seq<Time> {
    if k in counters then counters[k] else []
  }

  predicate Allowed(times: seq<Time>, limit: int, window: int, now: Time) {
    |Newer(times, now - window as real)| < limit
  }

  /** The stored times after one request. */
  function Counted(times: seq<Time>, limit: int, window: int, now: Time): seq<Time> {
    Newer(times, now - window as real) + if Allowed(times, limit, window, now) then [now] else []
  }

  class RateLimiter {
    var counters: map<Key, seq<Time>>

    constructor ()
      ensures counters == map[]
    {
      counters := map[];
    }

    method IsAllowed(key: Key, maxRequests: int, windowSeconds: int, now: Time) returns (ok: bool)
      modifies this
      ensures ok == Allowed(TimesOf(old(counters), key), maxRequests, windowSeconds, now)
      ensures counters == old(counters)[key := Counted(TimesOf(old(counters), key), maxRequests, windowSeconds, now)]
    {
      var cutoff := now - windowSeconds as real;
      if key !in counters {
        counters := counters[key := []];
      }
      counters := counters[key := Newer(counters[key], cutoff)];
      assert counters == old(counters)[key := Newer(TimesOf(old(counters), key), cutoff)];
      if |counters[key]| >= maxRequests {
        assert Newer(TimesOf(old(counters), key), cutoff) + [] == counters[key];
        return false;
      }
      counters := counters[key := counters[key] + [now]];
      return true;
    }
  }

  // ----- whole runs -----

  datatype Request = Request(key: Key, limit: int, window: int, now: Time)

  /** The stored times, and (history only) every accepted request ever, which the limiter prunes. */
  datatype State = State(counters: map<Key, seq<Time>>, accepted: map<Key, seq<Time>>)

  predicate Accepts(st: State, r: Request) {
    Allowed(TimesOf(st.counters, r.key), r.limit, r.window, r.now)
  }

  function Serve(st: State, r: Request): State {
    State(st.counters[r.key := Counted(TimesOf(st.counters, r.key), r.limit, r.window, r.now)],
          if Accepts(st, r) then st.accepted[r.key := TimesOf(st.accepted, r.key) + [r.now]] else st.accepted)
  }

  const EMPTY := State(map[], map[])

  function ServeAll(st: State, run: seq<Request>): State
    decreases run
  {
    if run == [] then st else ServeAll(Serve(st, run[0]), run[1..])
  }

  /** Every request of the key accepted in a run, oldest first. */
  function Accepted(run: seq<Request>, k: Key): seq<Time> {
    TimesOf(ServeAll(EMPTY, run).accepted, k)
  }

  /** The requests of one key. */
  function Only(run: seq<Request>, k: Key): seq<Request> {
    if run == [] then []
    else if run[0].key == k then [run[0]] + Only(run[1..], k)
    else Only(run[1..], k)
  }

  /** Per key, the cutoff never goes back: so for a fixed window and a clock that never does. */
  ghost predicate CutoffsRise(run: seq<Request>) {
    forall i, j :: 0 <= i < j < |run| && run[i].key == run[j].key ==>
                     run[i].now - run[i].window as real <= run[j].now - run[j].window as real
  }

  lemma FixedWindowsRise(run: seq<Request>, window: map<Key, int>)
    requires forall i :: 0 <= i < |run| ==> run[i].key in window && run[i].window == window[run[i].key]
    requires forall i, j :: 0 <= i < j < |run| ==> run[i].now <= run[j].now
    ensures CutoffsRise(run)
  {
  }

  lemma {:induction false} NewerOfNewer(times: seq<Time>, c: Time, d: Time)
    ensures Newer(Newer(times, c), d) == Newer(times, if c > d then c else d)
  {
    if times != [] {
      NewerOfNewer(times[1..], c, d);
    }
  }

  lemma {:induction false} NewerAppend(a: seq<Time>, b: seq<Time>, c: Time)
    ensures Newer(a + b, c) == Newer(a, c) + Newer(b, c)
  {
    if a == [] {
      assert a + b == b;
    } else {
      assert (a + b)[1..] == a[1..] + b;
      NewerAppend(a[1..], b, c);
    }
  }

  /** From the given cutoff on, the pruned times and the whole history show the same. */
  predicate SameFrom(st: State, k: Key, cutoff: Time) {
    Newer(TimesOf(st.counters, k), cutoff) == Newer(TimesOf(st.accepted, k), cutoff)
  }

  lemma ServeKeepsSame(st: State, r: Request, k: Key, cutoff: Time)
    requires SameFrom(st, k, cutoff) && (r.key == k ==> r.now - r.window as real <= cutoff)
    ensures SameFrom(Serve(st, r), k, cutoff)
  {
    if r.key == k {
      var times, c := TimesOf(st.counters, k), r.now - r.window as real;
      var newest := if Accepts(st, r) then [r.now] else [];
      NewerAppend(Newer(times, c), newest, cutoff);
      NewerOfNewer(times, c, cutoff);
      NewerAppend(TimesOf(st.accepted, k), newest, cutoff);
      assert TimesOf(st.accepted, k) + newest == TimesOf(Serve(st, r).accepted, k);
    }
  }

  // ----- what pruning forgets -----

  lemma {:induction false} ServeLast(st: State, run: seq<Request>, r: Request)
    ensures ServeAll(st, run + [r]) == Serve(ServeAll(st, run), r)
    decreases run
  {
    if run == [] {
      assert run + [r] == [r] && [r][1..] == [];
    } else {
      assert (run + [r])[1..] == run[1..] + [r];
      ServeLast(Serve(st, run[0]), run[1..], r);
    }
  }

  /** Request `i` of the run is one of the key's and was accepted. */
  predicate AcceptedAt(run: seq<Request>, k: Key, i: nat) {
    i < |run| && run[i].key == k && Accepts(ServeAll(EMPTY, run[..i]), run[i])
  }

  /** Request `j` of the run is one of the key's and its cutoff has reached `t`. */
  predicate PrunesUpTo(run: seq<Request>, k: Key, j: nat, t: Time) {
    j < |run| && run[j].key == k && t <= run[j].now - run[j].window as real
  }

  /** An accepted request newer than the cutoff was pruned by a later one. */
  ghost predicate Forgets(run: seq<Request>, k: Key, cutoff: Time) {
    exists i: nat, j: nat :: i < j && AcceptedAt(run, k, i) && PrunesUpTo(run, k, j, run[i].now) && cutoff < run[i].now
  }

  /** Some request accepted in the run is in `(after, upTo]`. */
  ghost predicate AcceptedBetween(run: seq<Request>, k: Key, after: Time, upTo: Time) {
    exists i: nat :: AcceptedAt(run, k, i) && after < run[i].now <= upTo
  }

  lemma AcceptedAtAppend(run: seq<Request>, r: Request, k: Key, i: nat)
    ensures i < |run| ==> AcceptedAt(run + [r], k, i) == AcceptedAt(run, k, i)
    ensures AcceptedAt(run + [r], k, |run|) <==> r.key == k && Accepts(ServeAll(EMPTY, run), r)
  {
    assert (run + [r])[..|run|] == run;
    if i < |run| {
      assert (run + [r])[..i] == run[..i];
    }
  }

  lemma BetweenAppend(run: seq<Request>, r: Request, k: Key, c: Time, d: Time)
    ensures AcceptedBetween(run + [r], k, c, d) <==>
            AcceptedBetween(run, k, c, d) || (r.key == k && Accepts(ServeAll(EMPTY, run), r) && c < r.now <= d)
  {
    forall i: nat ensures AcceptedAt(run + [r], k, i) <==>
                          AcceptedAt(run, k, i) || (i == |run| && AcceptedAt(run + [r], k, |run|)) {
      AcceptedAtAppend(run, r, k, i);
    }
    AcceptedAtAppend(run, r, k, |run|);
  }

  lemma ForgetsAppend(run: seq<Request>, r: Request, k: Key, c: Time)
    ensures Forgets(run + [r], k, c) <==>
            Forgets(run, k, c) || (r.key == k && AcceptedBetween(run, k, c, r.now - r.window as real))
  {
    var n, run' := |run|, run + [r];
    forall i: nat | i < n ensures AcceptedAt(run', k, i) == AcceptedAt(run, k, i) && run'[i] == run[i] {
      AcceptedAtAppend(run, r, k, i);
    }
    forall j: nat, t | j < n ensures PrunesUpTo(run', k, j, t) == PrunesUpTo(run, k, j, t) {
    }
    if Forgets(run', k, c) {
      var i: nat, j: nat :| i < j && AcceptedAt(run', k, i) && PrunesUpTo(run', k, j, run'[i].now) && c < run'[i].now;
      assert AcceptedAt(run, k, i);
      assert j < n ==> PrunesUpTo(run, k, j, run[i].now);
    }
    if Forgets(run, k, c) {
      var i: nat, j: nat :| i < j && AcceptedAt(run, k, i) && PrunesUpTo(run, k, j, run[i].now) && c < run[i].now;
      assert AcceptedAt(run', k, i) && PrunesUpTo(run', k, j, run'[i].now);
    }
    if r.key == k && AcceptedBetween(run, k, c, r.now - r.window as real) {
      var i: nat :| AcceptedAt(run, k, i) && c < run[i].now <= r.now - r.window as real;
      assert AcceptedAt(run', k, i) && PrunesUpTo(run', k, n, run'[i].now);
    }
  }

  /** The cutoff from which the stored times still count what they counted from `c` on, once `r` has
      pruned them. */
  function PrunedFrom(r: Request, k: Key, c: Time): Time {
    if r.key == k && r.now - r.window as real > c then r.now - r.window as real else c
  }

  lemma CountedNewer(times: seq<Time>, r: Request, c: Time)
    ensures |Newer(Counted(times, r.limit, r.window, r.now), c)| ==
            |Newer(times, PrunedFrom(r, r.key, c))| +
            if Allowed(times, r.limit, r.window, r.now) && r.now > c then 1 else 0
  {
    var d := r.now - r.window as real;
    NewerOfNewer(times, d, c);
    NewerAppend(Newer(times, d), if Allowed(times, r.limit, r.window, r.now) then [r.now] else [], c);
  }

  /** The stored and the accepted times of a key newer than `c`, after one more request. */
  lemma CountsAppend(run: seq<Request>, r: Request, k: Key, c: Time)
    ensures var st := ServeAll(EMPTY, run);
            var extra := if r.key == k && Accepts(st, r) && r.now > c then 1 else 0;
            && |Newer(TimesOf(ServeAll(EMPTY, run + [r]).counters, k), c)| ==
               |Newer(TimesOf(st.counters, k), PrunedFrom(r, k, c))| + extra
            && |Newer(Accepted(run + [r], k), c)| == |Newer(Accepted(run, k), c)| + extra
  {
    var st := ServeAll(EMPTY, run);
    ServeLast(EMPTY, run, r);
    if r.key == k {
      CountedNewer(TimesOf(st.counters, k), r, c);
      if Accepts(st, r) {
        NewerAppend(Accepted(run, k), [r.now], c);
      }
    }
  }

  lemma {:induction false} NewerShrinks(times: seq<Time>, c: Time, d: Time)
    requires c <= d
    ensures |Newer(times, d)| <= |Newer(times, c)|
  {
    if times != [] {
      NewerShrinks(times[1..], c, d);
    }
  }

  /** Moving the cutoff from `c` on to `d` loses nothing exactly when nothing was accepted between. */
  lemma {:induction false} NothingBetween(run: seq<Request>, k: Key, c: Time, d: Time)
    requires c <= d
    ensures |Newer(Accepted(run, k), c)| == |Newer(Accepted(run, k), d)| <==> !AcceptedBetween(run, k, c, d)
  {
    if run != [] {
      var before, r := run[..|run| - 1], run[|run| - 1];
      assert run == before + [r];
      NothingBetween(before, k, c, d);
      BetweenAppend(before, r, k, c, d);
      CountsAppend(before, r, k, c);
      CountsAppend(before, r, k, d);
      NewerShrinks(Accepted(before, k), c, d);
    }
  }

  /** The stored times count at most as many as the full history, and exactly as many if and only
      if no accepted request newer than the cutoff was pruned by a later one: for every run, key and
      cutoff, whatever the limits, windows and clock readings. */
  lemma {:induction false} CountsAgreeIff(run: seq<Request>, k: Key, c: Time)
    ensures var stored := TimesOf(ServeAll(EMPTY, run).counters, k);
            && |Newer(stored, c)| <= |Newer(Accepted(run, k), c)|
            && (|Newer(stored, c)| == |Newer(Accepted(run, k), c)| <==> !Forgets(run, k, c))
  {
    if run != [] {
      var before, r := run[..|run| - 1], run[|run| - 1];
      assert run == before + [r];
      var m := PrunedFrom(r, k, c);
      CountsAppend(before, r, k, c);
      ForgetsAppend(before, r, k, c);
      CountsAgreeIff(before, k, m);
      NothingBetween(before, k, c, m);
      NewerShrinks(Accepted(before, k), c, m);
      ForgetsLater(before, k, c, m);
    }
  }

  /** With nothing accepted in between, the later cutoff sees the same forgotten requests. */
  lemma ForgetsLater(run: seq<Request>, k: Key, c: Time, d: Time)
    requires c <= d
    ensures Forgets(run, k, d) ==> Forgets(run, k, c)
    ensures Forgets(run, k, c) && !AcceptedBetween(run, k, c, d) ==> Forgets(run, k, d)
  {
  }

  /** Applied to every limit, two counts decide alike only if they are equal. */
  lemma LimitsTell(st: State, r: Request, n: nat)
    ensures (forall limit :: Accepts(st, r.(limit := limit)) <==> n < limit) <==>
            |Newer(TimesOf(st.counters, r.key), r.now - r.window as real)| == n
  {
    var stored := |Newer(TimesOf(st.counters, r.key), r.now - r.window as real)|;
    forall limit ensures Accepts(st, r.(limit := limit)) <==> stored < limit {
    }
    assert !Accepts(st, r.(limit := stored)) && Accepts(st, r.(limit := stored + 1));
  }

  /** Each limit is applied to the stored times as it would be to the full history, whatever the
      limit, exactly when nothing newer than the request's cutoff was forgotten. */
  lemma DecisionsAgreeIff(run: seq<Request>, r: Request)
    ensures (forall limit :: Accepts(ServeAll(EMPTY, run), r.(limit := limit)) <==>
                             |Newer(Accepted(run, r.key), r.now - r.window as real)| < limit) <==>
            !Forgets(run, r.key, r.now - r.window as real)
  {
    var c := r.now - r.window as real;
    CountsAgreeIff(run, r.key, c);
    LimitsTell(ServeAll(EMPTY, run), r, |Newer(Accepted(run, r.key), c)|);
  }

  /** If the key's cutoffs never go back, each decision made on the pruned times is the decision on
      the full history. */
  lemma DecisionsIgnorePruning(run: seq<Request>, r: Request)
    requires CutoffsRise(run + [r])
    ensures Accepts(ServeAll(EMPTY, run), r) <==> |Newer(Accepted(run, r.key), r.now - r.window as real)| < r.limit
  {
    var c := r.now - r.window as real;
    forall i: nat, j: nat | i < j && AcceptedAt(run, r.key, i) && PrunesUpTo(run, r.key, j, run[i].now)
      ensures run[i].now <= c
    {
      assert (run + [r])[j] == run[j] && (run + [r])[|run|] == r;
    }
    CountsAgreeIff(run, r.key, c);
  }

  /** With windows that change from call to call pruning shows: a short window forgets requests
      that a later, longer window should count. */
  lemma ShrinkingWindowForgets()
    ensures var run, r := [Request("k", 1, 10, 0.0), Request("k", 1, 1, 5.0)], Request("k", 2, 10, 6.0);
            Accepts(ServeAll(EMPTY, run), r) && |Newer(Accepted(run, "k"), r.now - r.window as real)| == r.limit
  {
    var r0, r1 := Request("k", 1, 10, 0.0), Request("k", 1, 1, 5.0);
    var st := Serve(EMPTY, r0);
    var st' := Serve(st, r1);
    assert [r0, r1][1..] == [r1] && [r1][1..] == [];
    assert ServeAll(EMPTY, [r0, r1]) == ServeAll(st, [r1]) == ServeAll(st', []) == st';
    assert TimesOf(st.counters, "k") == [0.0] == TimesOf(st.accepted, "k");
    assert Newer([0.0], 4.0) == [];
    assert TimesOf(st'.counters, "k") == [5.0] && TimesOf(st'.accepted, "k") == [0.0, 5.0];
    assert [0.0, 5.0][1..] == [5.0];
    assert Newer([5.0], -4.0) == [5.0] && Newer([0.0, 5.0], -4.0) == [0.0, 5.0];
  }

  predicate SameKey(st: State, ts: State, k: Key) {
    TimesOf(st.counters, k) == TimesOf(ts.counters, k) && TimesOf(st.accepted, k) == TimesOf(ts.accepted, k)
  }

  /** A request changes nothing about other keys, and what it does to its own depends on that key
      alone. */
  lemma ServeOneKey(st: State, ts: State, r: Request, k: Key)
    requires SameKey(st, ts, k)
    ensures SameKey(Serve(st, r), if r.key == k then Serve(ts, r) else ts, k)
  {
  }

  lemma {:induction false} ServeAllOneKey(st: State, ts: State, run: seq<Request>, k: Key)
    requires SameKey(st, ts, k)
    ensures SameKey(ServeAll(st, run), ServeAll(ts, Only(run, k)), k)
    decreases run
  {
    if run != [] {
      ServeOneKey(st, ts, run[0], k);
      ServeAllOneKey(Serve(st, run[0]), if run[0].key == k then Serve(ts, run[0]) else ts, run[1..], k);
      assert run[0].key == k ==> Only(run, k)[1..] == Only(run[1..], k);
    }
  }

  /** Keys are independent: what is stored and accepted for a key depends on its own requests. */
  lemma KeysAreIndependent(run: seq<Request>, k: Key)
    ensures TimesOf(ServeAll(EMPTY, run).counters, k) == TimesOf(ServeAll(EMPTY, Only(run, k)).counters, k)
    ensures Accepted(run, k) == Accepted(Only(run, k), k)
  {
    ServeAllOneKey(EMPTY, EMPTY, run, k);
  }

  // ----- the bound -----

  /** The key's requests all carry one limit and one window, and the clock never goes back. */
  ghost predicate Fixed(run: seq<Request>, k: Key, limit: int, window: int) {
    && (forall i :: 0 <= i < |run| && run[i].key == k ==> run[i].limit == limit && run[i].window == window)
    && (forall i, j :: 0 <= i < j < |run| ==> run[i].now <= run[j].now)
  }

  ghost predicate Sorted(times: seq<Time>) {
    forall i, j :: 0 <= i < j < |times| ==> times[i] <= times[j]
  }

  function InWindow(times: seq<Time>, after: Time, upTo: Time): nat {
    if times == [] then 0
    else InWindow(times[..|times| - 1], after, upTo) + if after < times[|times| - 1] <= upTo then 1 else 0
  }

  /** In sorted times, what is newer than a cutoff is a suffix. */
  lemma {:induction false} NewerIsSuffix(times: seq<Time>, cutoff: Time)
    requires Sorted(times)
    ensures |Newer(times, cutoff)| <= |times|
    ensures Newer(times, cutoff) == times[|times| - |Newer(times, cutoff)|..]
    ensures forall i :: |times| - |Newer(times, cutoff)| <= i < |times| ==> times[i] > cutoff
    ensures forall i :: 0 <= i < |times| - |Newer(times, cutoff)| ==> times[i] <= cutoff
  {
    if times != [] {
      NewerIsSuffix(times[1..], cutoff);
      if times[0] > cutoff {
        NewerAll(times, cutoff);
      }
    }
  }

  lemma {:induction false} NewerAll(times: seq<Time>, cutoff: Time)
    requires forall i :: 0 <= i < |times| ==> times[i] > cutoff
    ensures Newer(times, cutoff) == times
  {
    if times != [] {
      NewerAll(times[1..], cutoff);
    }
  }

  /** Any `limit` accepted requests apart lie at least a window apart. */
  ghost predicate Spaced(times: seq<Time>, limit: nat, window: int) {
    forall i :: 0 <= i < |times| - limit ==> times[i] <= times[i + limit] - window as real
  }

  /** Accepting at `now` keeps the times spaced when fewer than `limit` are in the window. */
  lemma AcceptOne(times: seq<Time>, limit: nat, window: int, now: Time)
    requires limit > 0 && Sorted(times) && Spaced(times, limit, window)
    requires forall i :: 0 <= i < |times| ==> times[i] <= now
    requires |Newer(times, now - window as real)| < limit
    ensures Sorted(times + [now]) && Spaced(times + [now], limit, window)
  {
    NewerIsSuffix(times, now - window as real);
  }

  /** What every step keeps, for a key with fixed limits, at clock reading `t`. */
  ghost predicate Inv(st: State, k: Key, limit: int, window: int, t: Time) {
    var times := TimesOf(st.accepted, k);
    && Sorted(times) && (if limit <= 0 then times == [] else Spaced(times, limit, window))
    && (forall i :: 0 <= i < |times| ==> times[i] <= t)
    && (forall c :: c >= t - window as real ==> SameFrom(st, k, c))
  }

  lemma ServeKeepsInv(st: State, r: Request, k: Key, limit: int, window: int, t: Time)
    requires Inv(st, k, limit, window, t) && t <= r.now
    requires r.key == k ==> r.limit == limit && r.window == window
    ensures Inv(Serve(st, r), k, limit, window, r.now)
  {
    forall c | c >= r.now - window as real ensures SameFrom(Serve(st, r), k, c) {
      assert SameFrom(st, k, c);
      ServeKeepsSame(st, r, k, c);
    }
    if r.key == k && Accepts(st, r) {
      assert SameFrom(st, k, r.now - window as real);
      AcceptOne(TimesOf(st.accepted, k), limit, window, r.now);
    }
  }

  lemma {:induction false} ServeAllKeepsInv(st: State, run: seq<Request>, k: Key, limit: int, window: int,
                                            t: Time)
    returns (t': Time)
    requires Inv(st, k, limit, window, t) && Fixed(run, k, limit, window) && (run != [] ==> t <= run[0].now)
    ensures Inv(ServeAll(st, run), k, limit, window, t')
    decreases run
  {
    if run == [] {
      t' := t;
    } else {
      ServeKeepsInv(st, run[0], k, limit, window, t);
      t' := ServeAllKeepsInv(Serve(st, run[0]), run[1..], k, limit, window, run[0].now);
    }
  }

  /** Times in an interval shorter than the window: at most `limit`. */
  lemma {:induction false} SpacedBound(times: seq<Time>, limit: nat, window: int, upTo: Time)
    requires limit > 0 && Sorted(times) && Spaced(times, limit, window)
    ensures InWindow(times, upTo - window as real, upTo) <= limit
  {
    var n := |times|;
    if n > 0 {
      var before := times[..n - 1];
      SpacedBound(before, limit, window, upTo);
      var after := upTo - window as real;
      if after < times[n - 1] <= upTo && n > limit {
        assert times[n - 1 - limit] <= after;
        OldAreOutside(times, n - limit, after, upTo);
        InWindowSuffix(times, n - limit, after, upTo);
      } else if n <= limit {
        InWindowSuffix(times, 0, after, upTo);
      }
    }
  }

  lemma {:induction false} OldAreOutside(times: seq<Time>, m: nat, after: Time, upTo: Time)
    requires Sorted(times) && m <= |times| && (m > 0 ==> times[m - 1] <= after)
    ensures InWindow(times[..m], after, upTo) == 0
  {
    if m > 0 {
      assert times[..m][..m - 1] == times[..m - 1];
      if m > 1 { assert times[m - 2] <= times[m - 1]; }
      OldAreOutside(times, m - 1, after, upTo);
    }
  }

  lemma {:induction false} InWindowSuffix(times: seq<Time>, m: nat, after: Time, upTo: Time)
    requires m <= |times|
    ensures InWindow(times, after, upTo) <= InWindow(times[..m], after, upTo) + |times| - m
    decreases |times|
  {
    if m < |times| {
      assert times[..|times| - 1][..m] == times[..m];
      InWindowSuffix(times[..|times| - 1], m, after, upTo);
    } else {
      assert times[..m] == times;
    }
  }

  /** Every window-long interval, whenever it ends, holds at most `limit` accepted requests (none
      if the limit is not positive). */
  lemma WindowBound(run: seq<Request>, k: Key, limit: int, window: int, t: Time)
    requires Fixed(run, k, limit, window)
    ensures InWindow(Accepted(run, k), t - window as real, t) <= Max(0, limit)
  {
    var last := ServeAllKeepsInv(EMPTY, run, k, limit, window, if run == [] then t else run[0].now);
    if limit > 0 {
      SpacedBound(Accepted(run, k), limit, window, t);
    }
  }
}
