/** The per-minute rate limiter (internal/transport/http/middleware/ratelimit.go).

    The counter behind it is only an interface in the source; here an increment counts up from one and
    the count lives for the given TTL from its first increment. */
module RateLimit {
  // Nanoseconds.
  const SECOND: int := 1_000_000_000
  const MINUTE: int := 60 * SECOND
  const COUNTER_TTL: int := 2 * MINUTE

  /** Go's integer division, which truncates toward zero. */
  function Quo(a: int, b: int): int
    requires b > 0
  {
    if a < 0 then -((-a) / b) else a / b
  }

  function Bucket(unix: int): int {
    Quo(unix, 60)
  }

  function RetryAfter(unix: int): int {
    (Bucket(unix) + 1) * 60 - unix
  }

  /** The advice is from 1 to 60 seconds exactly for clocks from 1970 on, and for earlier whole minutes;
      then waiting that long leads to the next bucket. */
  lemma RetryAfterInRange(unix: int)
    ensures 1 <= RetryAfter(unix) <= 60 <==> unix >= 0 || unix % 60 == 0
    ensures unix >= 0 ==> Bucket(unix + RetryAfter(unix)) == Bucket(unix) + 1
  {
    if unix < 0 {
      var q, r := (-unix) / 60, (-unix) % 60;
      assert -unix == 60 * q + r && RetryAfter(unix) == 60 + r;
      if r == 0 {
        assert unix == 60 * (-q);
      } else {
        assert unix == 60 * (-q - 1) + (60 - r);
      }
    }
  }

  // ----- Counter keys

  function Digit(d: nat): char
    requires d < 10
  {
    '0' + d as char
  }

  function Decimal(n: nat): string {
    if n < 10 then [Digit(n)] else Decimal(n / 10) + [Digit(n % 10)]
  }

  /** The number a decimal numeral stands for. */
  function ValueOf(s: string): int {
    if s == "" then 0 else 10 * ValueOf(s[..|s| - 1]) + (s[|s| - 1] as int - '0' as int)
  }

  predicate ColonFree(s: string) {
    forall i :: 0 <= i < |s| ==> s[i] != ':'
  }

  lemma {:induction false} DecimalReads(n: nat)
    ensures ColonFree(Decimal(n)) && ValueOf(Decimal(n)) == n
  {
    if n >= 10 {
      DecimalReads(n / 10);
      assert Decimal(n)[..|Decimal(n)| - 1] == Decimal(n / 10);
    }
  }

  function CounterKey(group: string, caller: string, bucket: nat): string {
    "ratelimit:" + (group + ":" + caller + ":" + Decimal(bucket))
  }

  /** The text before the first colon, and the text after the last, are determined by the whole. */
  lemma SplitAtFirstColon(a: string, rest: string, a': string, rest': string)
    requires ColonFree(a) && ColonFree(a') && a + ":" + rest == a' + ":" + rest'
    ensures a == a' && rest == rest'
  {
    var s := a + ":" + rest;
    assert s[|a|] == ':' && s[|a'|] == ':';
    assert forall i :: 0 <= i < |a| ==> s[i] == a[i];
    assert forall i :: 0 <= i < |a'| ==> s[i] == a'[i];
    assert |a| == |a'|;
    assert s[..|a|] == a && s[..|a'|] == a';
    assert s[|a| + 1..] == rest && s[|a'| + 1..] == rest';
  }

  lemma SplitAtLastColon(rest: string, b: string, rest': string, b': string)
    requires ColonFree(b) && ColonFree(b') && rest + ":" + b == rest' + ":" + b'
    ensures b == b' && rest == rest'
  {
    var s := rest + ":" + b;
    assert s[|rest|] == ':' && s[|rest'|] == ':';
    assert forall i :: |rest| < i < |s| ==> s[i] == b[i - |rest| - 1];
    assert forall i :: |rest'| < i < |s| ==> s[i] == b'[i - |rest'| - 1];
    assert |rest| == |rest'|;
    assert s[..|rest|] == rest && s[..|rest'|] == rest';
    assert s[|rest| + 1..] == b && s[|rest'| + 1..] == b';
  }

  /** Two requests share a counter only when group, caller and minute agree, as long as group names have
      no colon; callers may have any (addresses do). */
  lemma CounterKeyInjective(group: string, caller: string, bucket: nat, group': string, caller': string, bucket': nat)
    requires ColonFree(group) && ColonFree(group')
    requires CounterKey(group, caller, bucket) == CounterKey(group', caller', bucket')
    ensures group == group' && caller == caller' && bucket == bucket'
    ensures CounterKey(group, caller, bucket)[..10] == "ratelimit:"
  {
    DecimalReads(bucket);
    DecimalReads(bucket');
    var k, k' := CounterKey(group, caller, bucket), CounterKey(group', caller', bucket');
    assert k[10..] == group + ":" + caller + ":" + Decimal(bucket);
    assert k'[10..] == group' + ":" + caller' + ":" + Decimal(bucket');
    SplitAtLastColon(group + ":" + caller, Decimal(bucket), group' + ":" + caller', Decimal(bucket'));
    SplitAtFirstColon(group, caller, group', caller');
  }

  // ----- Counting

  datatype Counter = Counter(count: nat, expires: int)

  type Counters = map<string, Counter>

  function Incremented(counters: Counters, key: string, at: int): Counters {
    if key in counters && at < counters[key].expires
    then counters[key := Counter(counters[key].count + 1, counters[key].expires)]
    else counters[key := Counter(1, at + COUNTER_TTL)]
  }

  /** How the increment went: counted and answered, or an error before or after it took effect. */
  datatype Attempt = Counted | Unreached | Unanswered

  /** A request reads the clock, then increments its counter. */
  datatype Request = Request(group: string, caller: string, readAt: int, incrementedAt: int, attempt: Attempt) {
    function Unix(): int { readAt / SECOND }

    /** Less than a minute passes between the two; the clock reads 1970 or later. */
    predicate Prompt() {
      ColonFree(group) && 0 <= readAt <= incrementedAt < readAt + MINUTE
    }

    function Minute(): nat
      requires Prompt()
    {
      Bucket(Unix())
    }

    function Key(): string
      requires Prompt()
    {
      CounterKey(group, caller, Minute())
    }
  }

  predicate AllPrompt(requests: seq<Request>) {
    forall i :: 0 <= i < |requests| ==> requests[i].Prompt()
  }

  /** A request that reached the counter of this group, caller and minute. */
  predicate CountsIn(r: Request, group: string, caller: string, minute: nat)
    requires r.Prompt()
  {
    r.group == group && r.caller == caller && r.readAt / 60_000_000_000 == minute && !r.attempt.Unreached?
  }

  function After(counters: Counters, r: Request): Counters
    requires r.Prompt()
  {
    if r.attempt.Unreached? then counters else Incremented(counters, r.Key(), r.incrementedAt)
  }

  /** The counters after these requests incremented them, in this order. */
  function Replay(requests: seq<Request>): Counters
    requires AllPrompt(requests)
  {
    if requests == [] then map[]
    else After(Replay(requests[..|requests| - 1]), requests[|requests| - 1])
  }

  /** The last request was counted, within the limit. */
  predicate LastWithin(requests: seq<Request>, limit: nat)
    requires AllPrompt(requests) && requests != []
  {
    var last := requests[|requests| - 1];
    !last.attempt.Unreached? && last.Key() in Replay(requests) && Replay(requests)[last.Key()].count <= limit
  }

  /** Whether the last request is let through; one whose increment reports an error always is. */
  predicate LastServed(requests: seq<Request>, limit: nat)
    requires AllPrompt(requests) && requests != []
  {
    !requests[|requests| - 1].attempt.Counted? || LastWithin(requests, limit)
  }

  function Total(requests: seq<Request>, group: string, caller: string, minute: nat): nat
    requires AllPrompt(requests)
  {
    if requests == [] then 0
    else
      Total(requests[..|requests| - 1], group, caller, minute) +
      if CountsIn(requests[|requests| - 1], group, caller, minute) then 1 else 0
  }

  function Within(requests: seq<Request>, group: string, caller: string, minute: nat, limit: nat): nat
    requires AllPrompt(requests)
  {
    if requests == [] then 0
    else
      Within(requests[..|requests| - 1], group, caller, minute, limit) +
      if CountsIn(requests[|requests| - 1], group, caller, minute) && LastWithin(requests, limit) then 1 else 0
  }

  lemma PromptMinute(r: Request)
    requires r.Prompt()
    ensures r.Minute() * MINUTE <= r.readAt < (r.Minute() + 1) * MINUTE
    ensures r.incrementedAt < r.Minute() * MINUTE + COUNTER_TTL
  {
  }

  lemma KeyMeansMinute(r: Request, group: string, caller: string, minute: nat)
    requires r.Prompt() && ColonFree(group)
    ensures r.Key() == CounterKey(group, caller, minute) && !r.attempt.Unreached? <==> CountsIn(r, group, caller, minute)
  {
    if r.Key() == CounterKey(group, caller, minute) {
      CounterKeyInjective(r.group, r.caller, r.Minute(), group, caller, minute);
    }
  }

  /** The counter of a caller's minute counts all its requests: it cannot expire while requests of that
      minute still arrive. */
  lemma {:induction false} CounterCountsAll(requests: seq<Request>, group: string, caller: string, minute: nat)
    requires AllPrompt(requests) && ColonFree(group)
    ensures var total, key := Total(requests, group, caller, minute), CounterKey(group, caller, minute);
            if total == 0 then key !in Replay(requests)
            else key in Replay(requests) && Replay(requests)[key].count == total
                 && Replay(requests)[key].expires >= minute * MINUTE + COUNTER_TTL
  {
    if requests != [] {
      var last := requests[|requests| - 1];
      CounterCountsAll(requests[..|requests| - 1], group, caller, minute);
      KeyMeansMinute(last, group, caller, minute);
      PromptMinute(last);
    }
  }

  /** A request is let through exactly if its count failed, or its caller has made no more than `limit`
      counted requests in its minute, itself included. */
  lemma LastServedMeans(requests: seq<Request>, limit: nat)
    requires AllPrompt(requests) && requests != []
    ensures var r := requests[|requests| - 1];
            LastServed(requests, limit) <==>
            !r.attempt.Counted? || Total(requests, r.group, r.caller, r.readAt / 60_000_000_000) <= limit
  {
    var r := requests[|requests| - 1];
    CounterCountsAll(requests, r.group, r.caller, r.Minute());
    KeyMeansMinute(r, r.group, r.caller, r.Minute());
  }

  function Least(a: nat, b: nat): nat {
    if a < b then a else b
  }

  /** Exactly the first `limit` counted requests of a caller's minute are within the limit, however
      requests of other callers, groups and minutes interleave. */
  lemma {:induction false} MinuteIsLimited(requests: seq<Request>, group: string, caller: string, minute: nat, limit: nat)
    requires AllPrompt(requests) && ColonFree(group)
    ensures Within(requests, group, caller, minute, limit) == Least(Total(requests, group, caller, minute), limit)
  {
    if requests != [] {
      MinuteIsLimited(requests[..|requests| - 1], group, caller, minute, limit);
      CounterCountsAll(requests, group, caller, minute);
      KeyMeansMinute(requests[|requests| - 1], group, caller, minute);
    }
  }

  // ----- Any 60 seconds

  type Window = Request -> bool

  function ReadIn(start: int): Window {
    (r: Request) => start <= r.readAt < start + MINUTE
  }

  function IncrementedIn(start: int): Window {
    (r: Request) => start <= r.incrementedAt < start + MINUTE
  }

  predicate Matches(r: Request, group: string, caller: string, window: Window) {
    r.group == group && r.caller == caller && window(r)
  }

  /** Requests of one caller that were let through. */
  function Served(requests: seq<Request>, group: string, caller: string, window: Window, limit: nat): nat
    requires AllPrompt(requests)
  {
    if requests == [] then 0
    else
      Served(requests[..|requests| - 1], group, caller, window, limit) +
      if Matches(requests[|requests| - 1], group, caller, window) && LastServed(requests, limit) then 1 else 0
  }

  /** Requests of one caller whose increment reported an error. */
  function Erred(requests: seq<Request>, group: string, caller: string, window: Window): nat {
    if requests == [] then 0
    else
      var last := requests[|requests| - 1];
      Erred(requests[..|requests| - 1], group, caller, window) +
      if Matches(last, group, caller, window) && !last.attempt.Counted? then 1 else 0
  }

  /** Requests within the limit over `count` minutes. */
  function WithinOver(requests: seq<Request>, group: string, caller: string, first: nat, count: nat, limit: nat): nat
    requires AllPrompt(requests)
  {
    if count == 0 then 0
    else WithinOver(requests, group, caller, first, count - 1, limit) + Within(requests, group, caller, first + count - 1, limit)
  }

  lemma {:induction false} WithinOverSnoc(requests: seq<Request>, group: string, caller: string, first: nat, count: nat, limit: nat)
    requires AllPrompt(requests) && requests != []
    ensures var last := requests[|requests| - 1];
            WithinOver(requests, group, caller, first, count, limit) ==
            WithinOver(requests[..|requests| - 1], group, caller, first, count, limit) +
            if first <= last.Minute() < first + count && CountsIn(last, group, caller, last.Minute()) && LastWithin(requests, limit) then 1 else 0
  {
    if count > 0 {
      WithinOverSnoc(requests, group, caller, first, count - 1, limit);
    }
  }

  lemma {:induction false} WithinOverLimited(requests: seq<Request>, group: string, caller: string, first: nat, count: nat, limit: nat)
    requires AllPrompt(requests) && ColonFree(group)
    ensures WithinOver(requests, group, caller, first, count, limit) <= count * limit
  {
    if count > 0 {
      WithinOverLimited(requests, group, caller, first, count - 1, limit);
      MinuteIsLimited(requests, group, caller, first + count - 1, limit);
      assert count * limit == (count - 1) * limit + limit;
    }
  }

  /** A window whose requests all belong to these minutes. */
  ghost predicate Spans(window: Window, first: nat, count: nat) {
    forall r: Request :: r.Prompt() && window(r) ==> first <= r.Minute() < first + count
  }

  lemma {:induction false} ServedWithin(requests: seq<Request>, group: string, caller: string, window: Window, first: nat, count: nat, limit: nat)
    requires AllPrompt(requests) && Spans(window, first, count)
    ensures Served(requests, group, caller, window, limit) <=
            WithinOver(requests, group, caller, first, count, limit) + Erred(requests, group, caller, window)
  {
    if requests != [] {
      ServedWithin(requests[..|requests| - 1], group, caller, window, first, count, limit);
      WithinOverSnoc(requests, group, caller, first, count, limit);
    } else {
      NoneWithin(group, caller, first, count, limit);
    }
  }

  lemma {:induction false} NoneWithin(group: string, caller: string, first: nat, count: nat, limit: nat)
    ensures WithinOver([], group, caller, first, count, limit) == 0
  {
    if count > 0 {
      NoneWithin(group, caller, first, count - 1, limit);
    }
  }

  lemma ReadInSpans(start: nat)
    ensures Spans(ReadIn(start), start / MINUTE, if start % MINUTE == 0 then 1 else 2)
  {
    forall r: Request | r.Prompt() && ReadIn(start)(r)
      ensures start / MINUTE <= r.Minute() < start / MINUTE + if start % MINUTE == 0 then 1 else 2
    {
      PromptMinute(r);
    }
  }

  /** Requests counted in the minute from `start` can have read the clock in three of its minutes, because
      up to a minute passes in between; but only if the window leaves room in each of them. */
  predicate ThreeMinutesMeet(start: nat) {
    start >= MINUTE && 1 <= start % MINUTE <= MINUTE - 2
  }

  /** The first of the clock's minutes that can meet in the window. */
  function FirstCounted(start: nat): nat {
    if start < MINUTE || start % MINUTE == MINUTE - 1 then start / MINUTE else start / MINUTE - 1
  }

  lemma IncrementedInSpans(start: nat)
    ensures Spans(IncrementedIn(start), FirstCounted(start), if ThreeMinutesMeet(start) then 3 else 2)
  {
    forall r: Request | r.Prompt() && IncrementedIn(start)(r)
      ensures FirstCounted(start) <= r.Minute() < FirstCounted(start) + if ThreeMinutesMeet(start) then 3 else 2
    {
      PromptMinute(r);
    }
  }

  lemma SpanLimited(requests: seq<Request>, group: string, caller: string, window: Window, first: nat, count: nat, limit: nat)
    requires AllPrompt(requests) && ColonFree(group) && Spans(window, first, count)
    ensures Served(requests, group, caller, window, limit) <= count * limit + Erred(requests, group, caller, window)
  {
    ServedWithin(requests, group, caller, window, first, count, limit);
    WithinOverLimited(requests, group, caller, first, count, limit);
  }

  /** Of the requests that read the clock in any 60 seconds, at most twice the limit get through, besides
      those for which the counter reported an error; at most the limit when they are a minute of the clock. */
  lemma WindowIsLimited(requests: seq<Request>, group: string, caller: string, start: nat, limit: nat)
    requires AllPrompt(requests) && ColonFree(group)
    ensures Served(requests, group, caller, ReadIn(start), limit) <=
            (if start % MINUTE == 0 then limit else 2 * limit) + Erred(requests, group, caller, ReadIn(start))
  {
    ReadInSpans(start);
    SpanLimited(requests, group, caller, ReadIn(start), start / MINUTE, if start % MINUTE == 0 then 1 else 2, limit);
  }

  /** Of the requests that are let through or refused in any 60 seconds, at most three times the limit get
      through, besides those for which the counter reported an error; at most twice unless three minutes
      of the clock meet. */
  lemma PassageIsLimited(requests: seq<Request>, group: string, caller: string, start: nat, limit: nat)
    requires AllPrompt(requests) && ColonFree(group)
    ensures Served(requests, group, caller, IncrementedIn(start), limit) <=
            (if ThreeMinutesMeet(start) then 3 * limit else 2 * limit) + Erred(requests, group, caller, IncrementedIn(start))
  {
    IncrementedInSpans(start);
    SpanLimited(requests, group, caller, IncrementedIn(start), FirstCounted(start), if ThreeMinutesMeet(start) then 3 else 2, limit);
  }

  // ----- The bounds are reached

  /** The same request `n` times over. */
  function Burst(r: Request, n: nat): seq<Request> {
    if n == 0 then [] else Burst(r, n - 1) + [r]
  }

  lemma TotalSnoc(requests: seq<Request>, r: Request, group: string, caller: string, minute: nat)
    requires AllPrompt(requests) && r.Prompt()
    ensures AllPrompt(requests + [r])
    ensures Total(requests + [r], group, caller, minute) ==
            Total(requests, group, caller, minute) + if CountsIn(r, group, caller, minute) then 1 else 0
  {
    assert (requests + [r])[..|requests|] == requests;
  }

  /** As long as its minute is within the limit, one more counted request gets through. */
  lemma OneMoreServed(requests: seq<Request>, r: Request, window: Window, limit: nat)
    requires AllPrompt(requests) && r.Prompt() && r.attempt.Counted? && window(r)
    requires Total(requests, r.group, r.caller, r.Minute()) < limit
    ensures AllPrompt(requests + [r])
    ensures Total(requests + [r], r.group, r.caller, r.Minute()) == Total(requests, r.group, r.caller, r.Minute()) + 1
    ensures Served(requests + [r], r.group, r.caller, window, limit) == Served(requests, r.group, r.caller, window, limit) + 1
    ensures Erred(requests + [r], r.group, r.caller, window) == Erred(requests, r.group, r.caller, window)
  {
    assert (requests + [r])[..|requests|] == requests;
    TotalSnoc(requests, r, r.group, r.caller, r.Minute());
    CounterCountsAll(requests + [r], r.group, r.caller, r.Minute());
  }

  lemma BurstSnoc(before: seq<Request>, r: Request, n: nat)
    requires n > 0
    ensures before + Burst(r, n) == (before + Burst(r, n - 1)) + [r]
  {
  }

  /** Up to `limit` requests in a fresh minute all get through. */
  lemma {:induction false} BurstServed(before: seq<Request>, r: Request, window: Window, n: nat, limit: nat)
    requires AllPrompt(before) && r.Prompt() && r.attempt.Counted? && window(r) && n <= limit
    requires Total(before, r.group, r.caller, r.Minute()) == 0
    ensures AllPrompt(before + Burst(r, n))
    ensures Total(before + Burst(r, n), r.group, r.caller, r.Minute()) == n
    ensures Served(before + Burst(r, n), r.group, r.caller, window, limit) == Served(before, r.group, r.caller, window, limit) + n
    ensures Erred(before + Burst(r, n), r.group, r.caller, window) == Erred(before, r.group, r.caller, window)
  {
    if n == 0 {
      assert before + Burst(r, n) == before;
    } else {
      BurstServed(before, r, window, n - 1, limit);
      OneMoreServed(before + Burst(r, n - 1), r, window, limit);
      BurstSnoc(before, r, n);
    }
  }

  /** A burst leaves the counts of other minutes alone. */
  lemma {:induction false} BurstElsewhere(before: seq<Request>, r: Request, n: nat, minute: nat)
    requires AllPrompt(before) && r.Prompt() && r.Minute() != minute
    ensures AllPrompt(before + Burst(r, n))
    ensures Total(before + Burst(r, n), r.group, r.caller, minute) == Total(before, r.group, r.caller, minute)
  {
    if n == 0 {
      assert before + Burst(r, n) == before;
    } else {
      BurstElsewhere(before, r, n - 1, minute);
      TotalSnoc(before + Burst(r, n - 1), r, r.group, r.caller, minute);
      BurstSnoc(before, r, n);
    }
  }

  predicate SameCaller(r: Request, group: string, caller: string) {
    r.group == group && r.caller == caller && r.attempt.Counted?
  }

  lemma TwoBurstsServed(a: Request, b: Request, group: string, caller: string, window: Window, limit: nat)
    requires SameCaller(a, group, caller) && SameCaller(b, group, caller) && a.Prompt() && b.Prompt() && a.Minute() != b.Minute()
    requires window(a) && window(b)
    ensures var requests := Burst(a, limit) + Burst(b, limit);
            && AllPrompt(requests)
            && Served(requests, group, caller, window, limit) == 2 * limit
            && Erred(requests, group, caller, window) == 0
  {
    BurstServed([], a, window, limit, limit);
    BurstElsewhere([], a, limit, b.Minute());
    assert [] + Burst(a, limit) == Burst(a, limit);
    BurstServed(Burst(a, limit), b, window, limit, limit);
  }

  lemma ThreeBurstsServed(a: Request, b: Request, c: Request, group: string, caller: string, window: Window, limit: nat)
    requires SameCaller(a, group, caller) && SameCaller(b, group, caller) && SameCaller(c, group, caller)
    requires a.Prompt() && b.Prompt() && c.Prompt()
    requires a.Minute() != b.Minute() && a.Minute() != c.Minute() && b.Minute() != c.Minute()
    requires window(a) && window(b) && window(c)
    ensures var requests := (Burst(a, limit) + Burst(b, limit)) + Burst(c, limit);
            && AllPrompt(requests)
            && Served(requests, group, caller, window, limit) == 3 * limit
            && Erred(requests, group, caller, window) == 0
  {
    TwoBurstsServed(a, b, group, caller, window, limit);
    BurstElsewhere([], a, limit, c.Minute());
    assert [] + Burst(a, limit) == Burst(a, limit);
    BurstElsewhere(Burst(a, limit), b, limit, c.Minute());
    BurstServed(Burst(a, limit) + Burst(b, limit), c, window, limit, limit);
  }

  lemma InMinute(r: Request, minute: nat)
    requires r.Prompt() && minute * MINUTE <= r.readAt < (minute + 1) * MINUTE
    ensures r.Minute() == minute
  {
  }

  function CountedAt(group: string, caller: string, readAt: int, incrementedAt: int): Request {
    Request(group, caller, readAt, incrementedAt, Counted)
  }

  /** Every window that is not a minute of the clock lets twice the limit through, for every limit. */
  lemma WindowBoundIsReached(group: string, caller: string, start: nat, limit: nat) returns (requests: seq<Request>)
    requires ColonFree(group) && start % MINUTE != 0
    ensures AllPrompt(requests) && Erred(requests, group, caller, ReadIn(start)) == 0
    ensures Served(requests, group, caller, ReadIn(start), limit) == 2 * limit
  {
    var minute := start / MINUTE;
    var turn := (minute + 1) * MINUTE;
    var a, b := CountedAt(group, caller, start, start), CountedAt(group, caller, turn, turn);
    InMinute(a, minute);
    InMinute(b, minute + 1);
    TwoBurstsServed(a, b, group, caller, ReadIn(start), limit);
    requests := Burst(a, limit) + Burst(b, limit);
  }

  /** The last reading of one minute, the reading at `start` in the next and the first one of the minute
      after that, all counted within 60 seconds. */
  lemma ThreeMinutesCounted(group: string, caller: string, start: nat) returns (a: Request, b: Request, c: Request)
    requires ColonFree(group) && ThreeMinutesMeet(start)
    ensures SameCaller(a, group, caller) && SameCaller(b, group, caller) && SameCaller(c, group, caller)
    ensures a.Prompt() && b.Prompt() && c.Prompt()
    ensures a.Minute() + 1 == b.Minute() == c.Minute() - 1
    ensures IncrementedIn(start)(a) && IncrementedIn(start)(b) && IncrementedIn(start)(c)
  {
    var minute := start / MINUTE;
    var turn := (minute + 1) * MINUTE;
    a := CountedAt(group, caller, minute * MINUTE - 1, start);
    b := CountedAt(group, caller, start, start);
    c := CountedAt(group, caller, turn, turn);
    InMinute(a, minute - 1);
    InMinute(b, minute);
    InMinute(c, minute + 1);
  }

  /** Every window in which three minutes of the clock meet lets three times the limit through, for every
      limit. */
  lemma PassageBoundIsReached(group: string, caller: string, start: nat, limit: nat) returns (requests: seq<Request>)
    requires ColonFree(group) && ThreeMinutesMeet(start)
    ensures AllPrompt(requests) && Erred(requests, group, caller, IncrementedIn(start)) == 0
    ensures Served(requests, group, caller, IncrementedIn(start), limit) == 3 * limit
  {
    var a, b, c := ThreeMinutesCounted(group, caller, start);
    ThreeBurstsServed(a, b, c, group, caller, IncrementedIn(start), limit);
    requests := (Burst(a, limit) + Burst(b, limit)) + Burst(c, limit);
  }

  /** Readings of two minutes, counted within the 60 seconds from any start but the first instant of 1970. */
  lemma TwoMinutesCounted(group: string, caller: string, start: nat) returns (a: Request, b: Request)
    requires ColonFree(group) && start > 0
    ensures SameCaller(a, group, caller) && SameCaller(b, group, caller)
    ensures a.Prompt() && b.Prompt() && a.Minute() + 1 == b.Minute()
    ensures IncrementedIn(start)(a) && IncrementedIn(start)(b)
  {
    var minute := start / MINUTE;
    if start % MINUTE == 0 {
      a, b := CountedAt(group, caller, start - 1, start), CountedAt(group, caller, start, start);
      InMinute(a, minute - 1);
      InMinute(b, minute);
    } else {
      var turn := (minute + 1) * MINUTE;
      a, b := CountedAt(group, caller, start, start), CountedAt(group, caller, turn, turn);
      InMinute(a, minute);
      InMinute(b, minute + 1);
    }
  }

  /** In every run, no caller gets more than `bound` requests through in the window, besides those whose
      count failed. */
  ghost predicate Bounds(window: Window, bound: nat, limit: nat) {
    forall requests: seq<Request>, group: string, caller: string :: AllPrompt(requests) && ColonFree(group) ==>
      Served(requests, group, caller, window, limit) <= bound + Erred(requests, group, caller, window)
  }

  /** On clock readings the limit itself holds exactly in the minutes of the clock. */
  lemma WindowLimitedIff(start: nat, limit: nat)
    requires limit >= 1
    ensures Bounds(ReadIn(start), limit, limit) <==> start % MINUTE == 0
  {
    if start % MINUTE == 0 {
      forall requests: seq<Request>, group: string, caller: string | AllPrompt(requests) && ColonFree(group)
        ensures Served(requests, group, caller, ReadIn(start), limit) <= limit + Erred(requests, group, caller, ReadIn(start))
      {
        WindowIsLimited(requests, group, caller, start, limit);
      }
    } else {
      var _ := WindowBoundIsReached("", "", start, limit);
    }
  }

  /** Counted when they pass, the limit itself holds in no window but the very first minute. */
  lemma PassageWithinLimitIff(start: nat, limit: nat)
    requires limit >= 1
    ensures Bounds(IncrementedIn(start), limit, limit) <==> start == 0
  {
    if start == 0 {
      FirstMinuteSpans();
      forall requests: seq<Request>, group: string, caller: string | AllPrompt(requests) && ColonFree(group)
        ensures Served(requests, group, caller, IncrementedIn(0), limit) <= limit + Erred(requests, group, caller, IncrementedIn(0))
      {
        SpanLimited(requests, group, caller, IncrementedIn(0), 0, 1, limit);
      }
    } else {
      var a, b := TwoMinutesCounted("", "", start);
      TwoBurstsServed(a, b, "", "", IncrementedIn(start), limit);
    }
  }

  lemma FirstMinuteSpans()
    ensures Spans(IncrementedIn(0), 0, 1)
  {
    forall r: Request | r.Prompt() && IncrementedIn(0)(r)
      ensures r.Minute() == 0
    {
      InMinute(r, 0);
    }
  }

  /** Counted when they pass, twice the limit holds exactly where no three minutes of the clock meet. */
  lemma PassageLimitedIff(start: nat, limit: nat)
    requires limit >= 1
    ensures Bounds(IncrementedIn(start), 2 * limit, limit) <==>
            start < MINUTE || start % MINUTE == 0 || start % MINUTE == MINUTE - 1
  {
    if ThreeMinutesMeet(start) {
      var _ := PassageBoundIsReached("", "", start, limit);
    } else {
      forall requests: seq<Request>, group: string, caller: string | AllPrompt(requests) && ColonFree(group)
        ensures Served(requests, group, caller, IncrementedIn(start), limit) <= 2 * limit + Erred(requests, group, caller, IncrementedIn(start))
      {
        PassageIsLimited(requests, group, caller, start, limit);
      }
    }
  }

  lemma ReplaySnoc(requests: seq<Request>, r: Request)
    requires AllPrompt(requests) && r.Prompt()
    ensures AllPrompt(requests + [r])
    ensures Replay(requests + [r]) == After(Replay(requests), r)
  {
    assert (requests + [r])[..|requests|] == requests;
  }

  // ----- The middleware

  datatype Response = Forwarded | TooManyRequests(retryAfter: int)

  class Limiter {
    var counters: Counters
    var requests: seq<Request>

    ghost predicate Valid()
      reads this
    {
      AllPrompt(requests) && counters == Replay(requests)
    }

    constructor ()
      ensures Valid() && requests == []
    {
      counters, requests := map[], [];
    }

    method Incr(key: string, at: int) returns (count: nat)
      modifies this`counters
      ensures counters == Incremented(old(counters), key, at)
      ensures count == counters[key].count
      ensures counters - {key} == old(counters) - {key}
      ensures counters[key] ==
              if key in old(counters) && at < old(counters)[key].expires
              then Counter(old(counters)[key].count + 1, old(counters)[key].expires)
              else Counter(1, at + 120_000_000_000)
    {
      if key in counters && at < counters[key].expires {
        counters := counters[key := counters[key].(count := counters[key].count + 1)];
      } else {
        counters := counters[key := Counter(1, at + COUNTER_TTL)];
      }
      count := counters[key].count;
    }

    /** One request.  When the counter reports an error it is served; when it is refused it is told to
        come back in the next bucket. */
    method Handle(request: Request, limit: nat) returns (response: Response)
      requires Valid() && request.Prompt()
      modifies this
      ensures Valid() && requests == old(requests) + [request]
      ensures response.Forwarded? <==> LastServed(requests, limit)
      ensures !request.attempt.Counted? ==> response.Forwarded?
      ensures request.attempt.Counted? ==>
                (response.Forwarded? <==> Total(requests, request.group, request.caller, request.readAt / 60_000_000_000) <= limit)
      ensures response.TooManyRequests? ==>
                && 1 <= response.retryAfter <= 60
                && Bucket(request.Unix() + response.retryAfter) == Bucket(request.Unix()) + 1
    {
      var unix := request.Unix();
      var minuteBucket := request.Minute();
      ReplaySnoc(requests, request);
      requests := requests + [request];
      LastServedMeans(requests, limit);
      if request.attempt.Unreached? {
        return Forwarded;
      }
      var count := Incr(CounterKey(request.group, request.caller, minuteBucket), request.incrementedAt);
      if request.attempt.Unanswered? {
        return Forwarded;
      }
      if count > limit {
        var nextBucket := (minuteBucket + 1) * 60;
        RetryAfterInRange(unix);
        return TooManyRequests(nextBucket - unix);
      }
      return Forwarded;
    }
  }

  /** The middleware; without a limiter it lets everything through. */
  method Pass(limiter: Limiter?, request: Request, limit: nat) returns (response: Response)
    requires limiter != null ==> limiter.Valid() && request.Prompt()
    modifies limiter
    ensures limiter == null ==> response == Forwarded
    ensures limiter != null ==>
              && limiter.Valid() && limiter.requests == old(limiter.requests) + [request]
              && (response.Forwarded? <==> LastServed(limiter.requests, limit))
  {
    if limiter == null {
      return Forwarded;
    }
    response := limiter.Handle(request, limit);
  }
}
