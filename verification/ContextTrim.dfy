/** `rann_agent/memory/context_trim.py`. Trimming a conversation to a token budget: the system
    message, the last ten messages and as many of the newest messages between them as fit. */
module ContextTrim {
  import opened Prelude

  /** An absent role or content reads as the empty string. */
  datatype Message = Message(role: string, content: string)

  /** How tokens are estimated: a constant per message, an encoder, or characters. */
  datatype Estimator = TestMode | Encoder(count: string -> nat) | CharRatio

  const TAIL := 10

  predicate Contains(s: string, part: string) {
    exists i :: 0 <= i <= |s| - |part| && OccursAt(s, part, i)
  }

  predicate OccursAt(s: string, part: string, i: nat)
    requires i <= |s| - |part|
  {
    s[i..i + |part|] == part
  }

  predicate LooksLikeCode(s: string) {
    Contains(s, "```") || Contains(s, "def ") || Contains(s, "class ") || Contains(s, "import ")
    || Contains(s, "//") || Contains(s, "#")
  }

  function Weight(est: Estimator, m: Message): nat {
    match est
    case TestMode => 50
    case Encoder(count) => count(m.content)
    case CharRatio => if LooksLikeCode(m.content) then |m.content| / 3 else |m.content| / 4
  }

  function Tokens(est: Estimator, ms: seq<Message>): nat {
    if ms == [] then 0 else Weight(est, ms[0]) + Tokens(est, ms[1..])
  }

  lemma {:induction false} TokensAppend(est: Estimator, a: seq<Message>, b: seq<Message>)
    ensures Tokens(est, a + b) == Tokens(est, a) + Tokens(est, b)
  {
    if a == [] {
      assert a + b == b;
    } else {
      assert (a + b)[1..] == a[1..] + b;
      TokensAppend(est, a[1..], b);
    }
  }

  lemma {:induction false} TestModeCounts(ms: seq<Message>)
    ensures Tokens(TestMode, ms) == |ms| * 50
  {
    if ms != [] {
      TestModeCounts(ms[1..]);
    }
  }

  const CODE_MARKS: seq<string> := ["```", "def ", "class ", "import ", "//", "#"]

  ghost predicate Splits(s: string, a: string, part: string, b: string) {
    s == a + part + b
  }

  lemma ContainsIff(s: string, part: string)
    ensures Contains(s, part) <==> exists a, b :: Splits(s, a, part, b)
  {
    if Contains(s, part) {
      var i :| 0 <= i <= |s| - |part| && OccursAt(s, part, i);
      assert Splits(s, s[..i], part, s[i + |part|..]);
    }
    forall a, b | Splits(s, a, part, b) ensures Contains(s, part) {
      assert OccursAt(s, part, |a|);
    }
  }

  /** A message looks like code exactly when it holds one of the marks. */
  lemma LooksLikeCodeIff(s: string)
    ensures LooksLikeCode(s) <==> exists i, a, b :: 0 <= i < |CODE_MARKS| && Splits(s, a, CODE_MARKS[i], b)
  {
    forall i | 0 <= i < |CODE_MARKS|
      ensures Contains(s, CODE_MARKS[i]) <==> exists a, b :: Splits(s, a, CODE_MARKS[i], b)
    {
      ContainsIff(s, CODE_MARKS[i]);
    }
    assert LooksLikeCode(s) <==> exists i :: 0 <= i < |CODE_MARKS| && Contains(s, CODE_MARKS[i]) by {
      assert CODE_MARKS[0] == "```" && CODE_MARKS[1] == "def " && CODE_MARKS[2] == "class ";
      assert CODE_MARKS[3] == "import " && CODE_MARKS[4] == "//" && CODE_MARKS[5] == "#";
    }
  }

  /** An encoder is asked about contents: one that counts characters gives their number. */
  lemma {:induction false} EncoderSeesContents(ms: seq<Message>)
    ensures Tokens(Encoder(s => |s|), ms) == Chars(ms)
  {
    if ms != [] {
      EncoderSeesContents(ms[1..]);
    }
  }

  /** All three branches are the same sum of per-message weights. */
  method EstimateTokens(est: Estimator, messages: seq<Message>) returns (total: nat)
    ensures total == Tokens(est, messages)
  {
    if est.TestMode? {
      TestModeCounts(messages);
      return |messages| * 50;
    }
    total := 0;
    for i := 0 to |messages|
      invariant total == Tokens(est, messages[..i])
    {
      TokensAppend(est, messages[..i], [messages[i]]);
      assert messages[..i + 1] == messages[..i] + [messages[i]];
      if est.Encoder? {
        total := total + est.count(messages[i].content);
      } else if LooksLikeCode(messages[i].content) {
        total := total + |messages[i].content| / 3;
      } else {
        total := total + |messages[i].content| / 4;
      }
    }
    assert messages[..|messages|] == messages;
  }

  // ----- which messages are kept -----

  /** `role.lower() == "system"` */
  predicate IsSystem(m: Message) {
    |m.role| == 6 &&
    forall i :: 0 <= i < 6 ==> m.role[i] == "system"[i] || m.role[i] == "SYSTEM"[i]
  }

  /** `str.lower` on the letters A to Z. No other character becomes a letter of "system". */
  function Lower(s: string): (r: string)
    ensures |r| == |s|
  {
    seq(|s|, i requires 0 <= i < |s| => if 'A' <= s[i] <= 'Z' then (s[i] as int + 32) as char else s[i])
  }

  lemma IsSystemIff(m: Message)
    ensures IsSystem(m) <==> Lower(m.role) == "system"
  {
  }

  /** The first system message. */
  function SystemIndex(ms: seq<Message>): (r: Option<nat>)
    ensures r.Some? ==> r.value < |ms|
  {
    if ms == [] then None
    else if IsSystem(ms[0]) then Some(0)
    else
      var r := SystemIndex(ms[1..]);
      if r.Some? then Some(r.value + 1) else None
  }

  function TailStart(ms: seq<Message>): (n: nat)
    ensures n <= |ms|
  {
    if |ms| <= TAIL then 0 else |ms| - TAIL
  }

  function MiddleStart(ms: seq<Message>): nat {
    if SystemIndex(ms) == Some(0) then 1 else 0
  }

  function Head(ms: seq<Message>): seq<Message> {
    var s := SystemIndex(ms);
    if s.Some? then [ms[s.value]] else []
  }

  /** The `k` messages before the tail, newest first. */
  function Newest(ms: seq<Message>, k: nat): (r: seq<Message>)
    requires k <= TailStart(ms)
    ensures |r| == k
  {
    if k == 0 then [] else Newest(ms, k - 1) + [ms[TailStart(ms) - k]]
  }

  /** A trimmed conversation with `k` middle messages: the system message, the `k` newest middle
      messages with the newest first, and the tail. */
  function Kept(ms: seq<Message>, k: nat): seq<Message>
    requires k <= TailStart(ms)
  {
    Head(ms) + Newest(ms, k) + ms[TailStart(ms)..]
  }

  predicate Fits(est: Estimator, ms: seq<Message>, available: int, k: nat)
    requires k <= TailStart(ms)
  {
    Tokens(est, Kept(ms, k)) <= available
  }

  /** The greedy count: one more as long as one more fits. */
  function Greedy(est: Estimator, ms: seq<Message>, available: int, k: nat): (best: nat)
    requires k <= TailStart(ms)
    ensures k <= best <= TailStart(ms)
    decreases TailStart(ms) - k
  {
    if k + MiddleStart(ms) < TailStart(ms) && Fits(est, ms, available, k + 1)
    then Greedy(est, ms, available, k + 1)
    else k
  }

  // ----- why the greedy count is the largest that fits -----

  lemma TokensKept(est: Estimator, ms: seq<Message>, k: nat)
    requires 0 < k <= TailStart(ms)
    ensures Tokens(est, Kept(ms, k)) == Tokens(est, Kept(ms, k - 1)) + Weight(est, ms[TailStart(ms) - k])
  {
    var head, tail, mid, m := Head(ms), ms[TailStart(ms)..], Newest(ms, k - 1), ms[TailStart(ms) - k];
    TokensAppend(est, head + (mid + [m]), tail);
    TokensAppend(est, head, mid + [m]);
    TokensAppend(est, mid, [m]);
    TokensAppend(est, head + mid, tail);
    TokensAppend(est, head, mid);
  }

  lemma {:induction false} FitsIsMonotone(est: Estimator, ms: seq<Message>, available: int, j: nat, k: nat)
    requires j <= k <= TailStart(ms) && Fits(est, ms, available, k)
    ensures Fits(est, ms, available, j)
    decreases k - j
  {
    if j < k {
      TokensKept(est, ms, k);
      FitsIsMonotone(est, ms, available, j, k - 1);
    }
  }

  lemma {:induction false} GreedyFits(est: Estimator, ms: seq<Message>, available: int, k: nat)
    requires k <= TailStart(ms) && Fits(est, ms, available, k)
    ensures Fits(est, ms, available, Greedy(est, ms, available, k))
    ensures k + MiddleStart(ms) <= TailStart(ms) ==> Greedy(est, ms, available, k) + MiddleStart(ms) <= TailStart(ms)
    decreases TailStart(ms) - k
  {
    if k + MiddleStart(ms) < TailStart(ms) && Fits(est, ms, available, k + 1) {
      GreedyFits(est, ms, available, k + 1);
    }
  }

  lemma {:induction false} GreedyStops(est: Estimator, ms: seq<Message>, available: int, k: nat)
    requires k <= TailStart(ms)
    ensures var g := Greedy(est, ms, available, k);
            g + MiddleStart(ms) < TailStart(ms) ==> !Fits(est, ms, available, g + 1)
    decreases TailStart(ms) - k
  {
    if k + MiddleStart(ms) < TailStart(ms) && Fits(est, ms, available, k + 1) {
      GreedyStops(est, ms, available, k + 1);
    }
  }

  /** The greedy count is the largest number of middle messages that fits. */
  lemma GreedyIsLargest(est: Estimator, ms: seq<Message>, available: int, k: nat, j: nat)
    requires k <= TailStart(ms) && Fits(est, ms, available, k)
    requires j + MiddleStart(ms) <= TailStart(ms)
    ensures Fits(est, ms, available, Greedy(est, ms, available, k))
    ensures Greedy(est, ms, available, k) < j ==> !Fits(est, ms, available, j)
    ensures k + MiddleStart(ms) <= TailStart(ms) ==> Greedy(est, ms, available, k) + MiddleStart(ms) <= TailStart(ms)
  {
    GreedyFits(est, ms, available, k);
    GreedyStops(est, ms, available, k);
    var g := Greedy(est, ms, available, k);
    if g < j && Fits(est, ms, available, j) {
      FitsIsMonotone(est, ms, available, g + 1, j);
    }
  }

  /** Past the fallback there are more than ten messages: with ten or fewer the fallback keeps all
      of them, so it cannot fit when the input did not. */
  lemma LongPastFallback(est: Estimator, ms: seq<Message>, available: int)
    requires Tokens(est, ms) > available && Fits(est, ms, available, 0)
    ensures |ms| > TAIL
  {
    if |ms| <= TAIL {
      assert ms[TailStart(ms)..] == ms;
      TokensAppend(est, Head(ms) + Newest(ms, 0), ms);
    }
  }

  // ----- the algorithm -----

  /** `list(reversed(middle))` */
  function Reversed(s: seq<Message>): (r: seq<Message>)
    ensures |r| == |s| && forall i :: 0 <= i < |s| ==> r[i] == s[|s| - 1 - i]
  {
    if s == [] then [] else Reversed(s[1..]) + [s[0]]
  }

  function Insert(s: seq<Message>, i: nat, m: Message): seq<Message>
    requires i <= |s|
  {
    s[..i] + [m] + s[i..]
  }

  function Pop(s: seq<Message>, i: nat): seq<Message>
    requires i < |s|
  {
    s[..i] + s[i + 1..]
  }

  lemma {:induction false} SystemIndexIsFirst(ms: seq<Message>)
    ensures SystemIndex(ms).None? <==> forall i :: 0 <= i < |ms| ==> !IsSystem(ms[i])
    ensures SystemIndex(ms).Some? ==>
              IsSystem(ms[SystemIndex(ms).value]) && forall i :: 0 <= i < SystemIndex(ms).value ==> !IsSystem(ms[i])
  {
    if ms != [] {
      SystemIndexIsFirst(ms[1..]);
      forall i | 0 < i < |ms| ensures ms[i] == ms[1..][i - 1] {
      }
    }
  }

  predicate FirstSystemAt(ms: seq<Message>, i: int) {
    0 <= i < |ms| && Lower(ms[i].role) == "system" && forall j :: 0 <= j < i ==> Lower(ms[j].role) != "system"
  }

  /** A trimmed conversation keeps the last ten messages at its end, or all if there are fewer, and
      begins with the first message of role "system" in any case, if there is one. */
  lemma HeadAndTail(ms: seq<Message>, k: nat)
    requires k <= TailStart(ms)
    ensures var n := if |ms| < 10 then |ms| else 10;
            |Kept(ms, k)| >= n && Kept(ms, k)[|Kept(ms, k)| - n..] == ms[|ms| - n..]
    ensures forall i :: FirstSystemAt(ms, i) ==> Kept(ms, k)[0] == ms[i]
  {
    SystemIndexIsFirst(ms);
    forall m: Message ensures IsSystem(m) <==> Lower(m.role) == "system" {
      IsSystemIff(m);
    }
    assert Kept(ms, k) == (Head(ms) + Newest(ms, k)) + ms[TailStart(ms)..];
  }

  function Chars(ms: seq<Message>): nat {
    if ms == [] then 0 else |ms[0].content| + Chars(ms[1..])
  }

  /** Without an encoder tokens are characters by four, rounded down for each message, or by three
      where a message looks like code. */
  lemma {:induction false} CharBounds(ms: seq<Message>)
    ensures 3 * Tokens(CharRatio, ms) <= Chars(ms) <= 4 * Tokens(CharRatio, ms) + 3 * |ms|
    ensures (forall m :: m in ms ==> !LooksLikeCode(m.content)) ==> 4 * Tokens(CharRatio, ms) <= Chars(ms)
    ensures (forall m :: m in ms ==> LooksLikeCode(m.content)) ==> Chars(ms) <= 3 * Tokens(CharRatio, ms) + 2 * |ms|
  {
    if ms != [] {
      CharBounds(ms[1..]);
    }
  }

  method FindSystem(messages: seq<Message>) returns (at: Option<nat>)
    ensures at == SystemIndex(messages)
  {
    for i := 0 to |messages|
      invariant SystemIndex(messages) ==
                var r := SystemIndex(messages[i..]); if r.Some? then Some(r.value + i) else None
    {
      assert messages[i..][1..] == messages[i + 1..];
      if IsSystem(messages[i]) {
        return Some(i);
      }
    }
    return None;
  }

  /** The result is the input if it fits; else the fallback, system message and tail, if even that
      is too big; else the greedy fill. */
  method TrimContext(est: Estimator, messages: seq<Message>, available: int) returns (result: seq<Message>)
    ensures result ==
            if messages == [] || Tokens(est, messages) <= available then messages
            else if !Fits(est, messages, available, 0) then Kept(messages, 0)
            else Kept(messages, Greedy(est, messages, available, 0))
  {
    if messages == [] {
      return messages;
    }
    var current := EstimateTokens(est, messages);
    if current <= available {
      return messages;
    }
    var system := FindSystem(messages);
    var head := if system.Some? then [messages[system.value]] else [];
    var tail := messages[TailStart(messages)..];
    result := head + tail;
    assert head + [] + tail == head + tail;
    var total := EstimateTokens(est, result);
    if total > available {
      return;
    }
    LongPastFallback(est, messages, available);
    var start := if system == Some(0) then 1 else 0;
    var middle := messages[start..|messages| - TAIL];
    result := FillMiddle(est, messages, available, head + tail, Reversed(middle));
  }

  lemma InsertThenPop(front: seq<Message>, m: Message, tail: seq<Message>)
    ensures Insert(front + tail, |front|, m) == front + [m] + tail
    ensures Pop(front + [m] + tail, |front|) == front + tail
  {
    assert (front + tail)[..|front|] == front && (front + tail)[|front|..] == tail;
  }

  lemma KeptNext(ms: seq<Message>, i: nat)
    requires i < TailStart(ms)
    ensures Kept(ms, i + 1) == Head(ms) + Newest(ms, i) + [ms[TailStart(ms) - 1 - i]] + ms[TailStart(ms)..]
  {
    assert Head(ms) + Newest(ms, i + 1) == Head(ms) + Newest(ms, i) + [ms[TailStart(ms) - 1 - i]];
  }

  /** Inserting just before the tail adds the next message; popping there takes it back. */
  lemma InsertStep(ms: seq<Message>, i: nat)
    requires |ms| > TAIL && i < TailStart(ms)
    ensures |Kept(ms, i)| >= TAIL && |Kept(ms, i + 1)| == |Kept(ms, i)| + 1
    ensures Kept(ms, i + 1) == Insert(Kept(ms, i), |Kept(ms, i)| - TAIL, ms[TailStart(ms) - 1 - i])
    ensures Pop(Kept(ms, i + 1), |Kept(ms, i + 1)| - TAIL - 1) == Kept(ms, i)
  {
    var front, m, tail := Head(ms) + Newest(ms, i), ms[TailStart(ms) - 1 - i], ms[TailStart(ms)..];
    KeptNext(ms, i);
    InsertThenPop(front, m, tail);
    assert |tail| == TAIL && Kept(ms, i) == front + tail;
  }

  method FillMiddle(est: Estimator, ms: seq<Message>, available: int, start: seq<Message>, newestFirst: seq<Message>)
    returns (result: seq<Message>)
    requires |ms| > TAIL && start == Kept(ms, 0)
    requires |newestFirst| == TailStart(ms) - MiddleStart(ms)
    requires forall i :: 0 <= i < |newestFirst| ==> newestFirst[i] == ms[TailStart(ms) - 1 - i]
    ensures result == Kept(ms, Greedy(est, ms, available, 0))
  {
    result := start;
    ghost var best := Greedy(est, ms, available, 0);
    for i := 0 to |newestFirst|
      invariant i <= TailStart(ms) && result == Kept(ms, i)
      invariant Greedy(est, ms, available, i) == best
    {
      var fits;
      result, fits := InsertIfFits(est, ms, available, i, result, newestFirst[i]);
      if !fits {
        return;
      }
    }
  }

  /** Lines 170-173. */
  method InsertIfFits(est: Estimator, ghost ms: seq<Message>, available: int, ghost i: nat, kept: seq<Message>,
                      m: Message)
    returns (result: seq<Message>, fits: bool)
    requires |ms| > TAIL && i < TailStart(ms) && kept == Kept(ms, i) && m == ms[TailStart(ms) - 1 - i]
    ensures fits == Fits(est, ms, available, i + 1)
    ensures result == Kept(ms, if fits then i + 1 else i)
  {
    InsertStep(ms, i);
    result := Insert(kept, |kept| - TAIL, m);
    var total := EstimateTokens(est, result);
    fits := total <= available;
    if !fits {
      result := Pop(result, |result| - TAIL - 1);
    }
  }

  // ----- what a caller gets -----

  /** The number of middle messages in a trimmed conversation. */
  function Middle(est: Estimator, ms: seq<Message>, available: int): nat {
    if Fits(est, ms, available, 0) then Greedy(est, ms, available, 0) else 0
  }

  /** A trimmed conversation is within budget exactly when the system message and the tail are; then
      it keeps the largest number of middle messages that fits. */
  lemma TrimmedIsMaximal(est: Estimator, ms: seq<Message>, available: int)
    requires Tokens(est, ms) > available
    ensures Tokens(est, Kept(ms, Middle(est, ms, available))) <= available <==> Fits(est, ms, available, 0)
    ensures Fits(est, ms, available, 0) ==>
              && |ms| > TAIL && Middle(est, ms, available) <= |ms| - TAIL - MiddleStart(ms)
              && forall j :: Middle(est, ms, available) < j <= |ms| - TAIL - MiddleStart(ms) ==>
                  !Fits(est, ms, available, j)
  {
    if Fits(est, ms, available, 0) {
      LongPastFallback(est, ms, available);
      GreedyIsLargest(est, ms, available, 0, 0);
      forall j | Middle(est, ms, available) < j <= |ms| - TAIL - MiddleStart(ms) ensures !Fits(est, ms, available, j) {
        GreedyIsLargest(est, ms, available, 0, j);
      }
    }
  }

  /** lo, lo + 1, ..., hi - 1 */
  function Up(lo: nat, hi: nat): (r: seq<nat>)
    requires lo <= hi
    ensures |r| == hi - lo && forall j :: 0 <= j < |r| ==> r[j] == lo + j
  {
    seq(hi - lo, j => lo + j)
  }

  /** hi - 1, hi - 2, ..., hi - k */
  function Down(hi: nat, k: nat): (r: seq<nat>)
    requires k <= hi
    ensures |r| == k && forall j :: 0 <= j < |r| ==> r[j] == hi - 1 - j
  {
    seq(k, j requires 0 <= j < k => hi - 1 - j)
  }

  /** Which positions of the input a trimmed conversation takes its messages from. */
  function Positions(ms: seq<Message>, k: nat): seq<nat>
    requires k <= TailStart(ms)
  {
    var s := SystemIndex(ms);
    (if s.Some? then [s.value] else []) + (Down(TailStart(ms), k) + Up(TailStart(ms), |ms|))
  }

  lemma {:induction false} NewestAt(ms: seq<Message>, k: nat, j: nat)
    requires j < k <= TailStart(ms)
    ensures Newest(ms, k)[j] == ms[TailStart(ms) - 1 - j]
  {
    if j < k - 1 {
      NewestAt(ms, k - 1, j);
    }
  }

  lemma KeptIsPositions(ms: seq<Message>, k: nat)
    requires k <= TailStart(ms)
    ensures |Kept(ms, k)| == |Positions(ms, k)|
    ensures forall j :: 0 <= j < |Kept(ms, k)| ==>
              Positions(ms, k)[j] < |ms| && Kept(ms, k)[j] == ms[Positions(ms, k)[j]]
  {
    forall j | 0 <= j < k ensures Newest(ms, k)[j] == ms[TailStart(ms) - 1 - j] {
      NewestAt(ms, k, j);
    }
  }

  ghost predicate Distinct(at: seq<nat>) {
    forall i, j :: 0 <= i < j < |at| ==> at[i] != at[j]
  }

  /** A message is kept twice exactly when the system message is also among the kept middle
      messages or in the tail. */
  lemma DuplicatesIff(ms: seq<Message>, k: nat)
    requires k <= TailStart(ms)
    ensures Distinct(Positions(ms, k)) <==> SystemIndex(ms).None? || SystemIndex(ms).value < TailStart(ms) - k
  {
    var down, up := Down(TailStart(ms), k), Up(TailStart(ms), |ms|);
    var at := Positions(ms, k);
    assert forall i :: 0 <= i < |down + up| ==> TailStart(ms) - k <= (down + up)[i] < |ms|;
    if SystemIndex(ms).Some? {
      var s := SystemIndex(ms).value;
      assert at == [s] + (down + up);
      if s >= TailStart(ms) - k {
        var i := if s < TailStart(ms) then TailStart(ms) - 1 - s else k + s - TailStart(ms);
        assert (down + up)[i] == s && at[i + 1] == s && at[0] == s;
      }
    }
  }

  lemma {:induction false} TokensNewest(est: Estimator, ms: seq<Message>, k: nat)
    requires k <= TailStart(ms)
    ensures Tokens(est, Newest(ms, k)) == Tokens(est, ms[TailStart(ms) - k..TailStart(ms)])
  {
    if k > 0 {
      var end, m := TailStart(ms), ms[TailStart(ms) - k];
      TokensNewest(est, ms, k - 1);
      TokensAppend(est, Newest(ms, k - 1), [m]);
      assert ms[end - k..end] == [m] + ms[end - k + 1..end];
      TokensAppend(est, [m], ms[end - k + 1..end]);
    }
  }

  /** Keeping every message before the tail is no cheaper than the input. */
  lemma AllIsTooMuch(est: Estimator, ms: seq<Message>, available: int)
    requires Tokens(est, ms) > available
    ensures !Fits(est, ms, available, TailStart(ms))
  {
    var n := TailStart(ms);
    TokensNewest(est, ms, n);
    TokensOfThree(est, Head(ms), Newest(ms, n), ms[n..]);
    assert ms[0..n] == ms[..n] && ms == ms[..n] + ms[n..];
    TokensAppend(est, ms[..n], ms[n..]);
  }

  lemma TokensOfThree(est: Estimator, a: seq<Message>, b: seq<Message>, c: seq<Message>)
    ensures Tokens(est, a + b + c) == Tokens(est, a) + Tokens(est, b) + Tokens(est, c)
  {
    TokensAppend(est, a + b, c);
    TokensAppend(est, a, b);
  }

  lemma KeptLength(ms: seq<Message>, k: nat)
    requires k <= TailStart(ms)
    ensures |Kept(ms, k)| == (if SystemIndex(ms).Some? then 1 else 0) + k + |ms| - TailStart(ms)
  {
  }

  /** At least `j` middle messages are kept exactly when `j` of them fit. */
  lemma KeepsIff(est: Estimator, ms: seq<Message>, available: int, j: nat)
    requires Tokens(est, ms) > available && 0 < j <= TailStart(ms)
    ensures j <= Middle(est, ms, available) <==> Fits(est, ms, available, j)
  {
    var k := Middle(est, ms, available);
    if !Fits(est, ms, available, 0) {
      if Fits(est, ms, available, j) { FitsIsMonotone(est, ms, available, 0, j); }
    } else {
      GreedyIsLargest(est, ms, available, 0, if j + MiddleStart(ms) <= TailStart(ms) then j else 0);
      AllIsTooMuch(est, ms, available);
      if j <= k { FitsIsMonotone(est, ms, available, j, k); }
    }
  }

  /** A trimmed conversation repeats a message exactly when the system message is in the tail, or
      when it and everything from it on fit together. */
  lemma RepeatsIff(est: Estimator, ms: seq<Message>, available: int)
    requires Tokens(est, ms) > available
    ensures var at := SystemIndex(ms);
            Distinct(Positions(ms, Middle(est, ms, available))) <==>
            at.None? || (at.value < TailStart(ms) && !Fits(est, ms, available, TailStart(ms) - at.value))
  {
    DuplicatesIff(ms, Middle(est, ms, available));
    if SystemIndex(ms).Some? { LateIff(est, ms, available); }
  }

  lemma LateIff(est: Estimator, ms: seq<Message>, available: int)
    requires Tokens(est, ms) > available && SystemIndex(ms).Some?
    ensures var at, start := SystemIndex(ms).value, TailStart(ms);
            at < start - Middle(est, ms, available) <==> at < start && !Fits(est, ms, available, start - at)
  {
    if SystemIndex(ms).value < TailStart(ms) {
      KeepsIff(est, ms, available, TailStart(ms) - SystemIndex(ms).value);
    }
  }

  /** Past the fallback nothing is repeated when the system message is first or absent. */
  lemma NoDuplicatesPastFallback(est: Estimator, ms: seq<Message>, available: int)
    requires Tokens(est, ms) > available && Fits(est, ms, available, 0)
    requires SystemIndex(ms) == None || SystemIndex(ms) == Some(0)
    ensures Distinct(Positions(ms, Middle(est, ms, available)))
  {
    LongPastFallback(est, ms, available);
    AllIsTooMuch(est, ms, available);
    RepeatsIff(est, ms, available);
  }

  /** Two messages, then the system message, then ten more: past the fallback the system message is
      kept twice. */
  lemma LateSystemRepeats(m: Message, system: Message)
    requires IsSystem(system) && !IsSystem(m)
    ensures var ms := [m, m, system] + seq(10, _ => m);
            && Tokens(TestMode, ms) > 600 && Fits(TestMode, ms, 600, 0)
            && !Distinct(Positions(ms, Middle(TestMode, ms, 600)))
  {
    var ms := [m, m, system] + seq(10, _ => m);
    assert ms[1..][1..][0] == system && SystemIndex(ms[1..][1..]) == Some(0);
    assert SystemIndex(ms[1..]) == Some(1) && SystemIndex(ms) == Some(2);
    TestModeCounts(ms);
    TestModeCounts(Kept(ms, 0));
    TestModeCounts(Kept(ms, 1));
    RepeatsIff(TestMode, ms, 600);
  }

  /** An over-budget conversation comes back longer exactly when it has at most ten messages and a
      system message: then by one, the system message being kept twice. */
  lemma FallbackGrows(est: Estimator, ms: seq<Message>, available: int)
    requires Tokens(est, ms) > available
    ensures |Kept(ms, Middle(est, ms, available))| > |ms| <==> |ms| <= TAIL && SystemIndex(ms).Some?
    ensures |ms| <= TAIL && SystemIndex(ms).Some? ==>
              && |Kept(ms, Middle(est, ms, available))| == |ms| + 1
              && !Distinct(Positions(ms, Middle(est, ms, available)))
  {
    KeptLength(ms, Middle(est, ms, available));
    if TailStart(ms) > 0 {
      KeepsIff(est, ms, available, TailStart(ms));
      AllIsTooMuch(est, ms, available);
    }
    DuplicatesIff(ms, 0);
  }
}
