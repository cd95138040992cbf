/**
  The fixed-window rate limiter (src/lib/rate-limit.ts): a store of counters per client address,
  updated by requests and emptied of expired entries by a periodic cleanup.
 */
module RateLimit {
  import opened Options

  datatype Limits = Limits(windowMs: nat, maxRequests: nat)

  datatype Entry = Entry(count: nat, resetAt: int)

  type Store = map<string, Entry>

  // ---- One client -------------------------------------------------------------

  /** What a request does to its client's counter. */
  function Count(l: Limits, e: Option<Entry>, now: int): Entry {
    if e.None? || now > e.value.resetAt then Entry(1, now + l.windowMs)
    else e.value.(count := e.value.count + 1)
  }

  /** Whether the request is let through: the first of a window always is. */
  predicate Allowed(l: Limits, e: Option<Entry>, now: int) {
    e.None? || now > e.value.resetAt || e.value.count + 1 <= l.maxRequests
  }

  /** The answers to one client's requests when nothing is ever cleaned up. */
  function Answers(l: Limits, e: Option<Entry>, times: seq<int>): seq<bool>
    decreases |times|
  {
    if times == [] then [] else [Allowed(l, e, times[0])] + Answers(l, Some(Count(l, e, times[0])), times[1..])
  }

  // ---- The shared store -------------------------------------------------------

  function Get(s: Store, client: string): Option<Entry> {
    if client in s then Some(s[client]) else None
  }

  function Purge(s: Store, now: int): Store {
    map c | c in s && now <= s[c].resetAt :: s[c]
  }

  datatype Event = Request(client: string, now: int) | Cleanup(now: int)

  function After(l: Limits, s: Store, e: Event): Store {
    match e
    case Request(c, now) => s[c := Count(l, Get(s, c), now)]
    case Cleanup(now) => Purge(s, now)
  }

  function Run(l: Limits, s: Store, es: seq<Event>): Store
    decreases |es|
  {
    if es == [] then s else Run(l, After(l, s, es[0]), es[1..])
  }

  predicate By(e: Event, client: string) {
    e.Request? && e.client == client
  }

  /** The answers one client sees in a run of the shared store. */
  function ClientAnswers(l: Limits, s: Store, es: seq<Event>, client: string): seq<bool>
    decreases |es|
  {
    if es == [] then []
    else
      (if By(es[0], client) then [Allowed(l, Get(s, client), es[0].now)] else [])
      + ClientAnswers(l, After(l, s, es[0]), es[1..], client)
  }

  function ClientTimes(es: seq<Event>, client: string): seq<int> {
    if es == [] then []
    else (if By(es[0], client) then [es[0].now] else []) + ClientTimes(es[1..], client)
  }

  /** The clock never runs backwards. */
  predicate Clocked(es: seq<Event>, from: int) {
    es == [] || (from <= es[0].now && Clocked(es[1..], es[0].now))
  }

  // ---- The purged store refines the never-purged counter ----------------------

  /** The store has the counter's entry, or dropped it after it expired. */
  predicate Refines(s: Store, e: Option<Entry>, client: string, now: int) {
    Get(s, client) == e || (client !in s && e.Some? && e.value.resetAt < now)
  }

  lemma {:induction false} CleanupInvisibleFrom(
    l: Limits, s: Store, e: Option<Entry>, es: seq<Event>, client: string, from: int)
    requires Clocked(es, from) && Refines(s, e, client, from)
    ensures ClientAnswers(l, s, es, client) == Answers(l, e, ClientTimes(es, client))
    decreases |es|
  {
    if es != [] {
      var s', times := After(l, s, es[0]), ClientTimes(es, client);
      if By(es[0], client) {
        assert times[0] == es[0].now && times[1..] == ClientTimes(es[1..], client);
        CleanupInvisibleFrom(l, s', Some(Count(l, e, es[0].now)), es[1..], client, es[0].now);
      } else {
        assert times == ClientTimes(es[1..], client);
        assert Refines(s', e, client, es[0].now);
        CleanupInvisibleFrom(l, s', e, es[1..], client, es[0].now);
      }
    }
  }

  /**
    Cleanups and other clients' requests change no answer a client gets: its answers in the
    shared, purged store are those of a counter of its own that is never purged.
   */
  lemma CleanupInvisible(l: Limits, es: seq<Event>, client: string, from: int)
    requires Clocked(es, from)
    ensures ClientAnswers(l, map[], es, client) == Answers(l, None, ClientTimes(es, client))
  {
    CleanupInvisibleFrom(l, map[], None, es, client, from);
  }

  /** A cleanup drops exactly the counters whose window is over, a request touches its client's alone. */
  lemma StoreExactly(l: Limits, s: Store, client: string, now: int, other: string)
    ensures Get(After(l, s, Cleanup(now)), client) ==
            if client in s && now > s[client].resetAt then None else Get(s, client)
    ensures other != client ==> Get(After(l, s, Request(client, now)), other) == Get(s, other)
    ensures var e, e' := Get(s, client), Get(After(l, s, Request(client, now)), client);
            && e'.Some?
            && if e.None? || e.value.resetAt < now then e'.value == Entry(1, now + l.windowMs)
               else e'.value == Entry(e.value.count + 1, e.value.resetAt)
  {
  }

  // ---- How many requests get through ------------------------------------------

  function Hits(answers: seq<bool>): nat {
    if answers == [] then 0 else (if answers[0] then 1 else 0) + Hits(answers[1..])
  }

  predicate Within(times: seq<int>, lo: int, hi: int) {
    forall t | t in times :: lo <= t <= hi
  }

  predicate Ascending(times: seq<int>) {
    forall i, j | 0 <= i < j < |times| :: times[i] <= times[j]
  }

  /** What one window lets through. */
  function Quota(l: Limits): nat { if l.maxRequests == 0 then 1 else l.maxRequests }

  /** Inside an open window exactly the rest of the quota gets through, and that first. */
  lemma {:induction false} RestOfWindow(l: Limits, e: Entry, times: seq<int>)
    requires e.count >= 1 && forall t | t in times :: t <= e.resetAt
    ensures Hits(Answers(l, Some(e), times)) <= if e.count <= Quota(l) then Quota(l) - e.count else 0
    ensures |Answers(l, Some(e), times)| == |times|
    ensures forall i | 0 <= i < |times| :: Answers(l, Some(e), times)[i] <==> e.count + i < Quota(l)
    decreases |times|
  {
    if times != [] {
      assert times[0] in times && forall t | t in times[1..] :: t in times;
      RestOfWindow(l, Count(l, Some(e), times[0]), times[1..]);
    }
  }

  /**
    In the window a request opens, exactly the first maxRequests requests are let through
    (one, if maxRequests is zero).
   */
  lemma QuotaPerWindow(l: Limits, e: Option<Entry>, times: seq<int>)
    requires times != [] && (e.None? || times[0] > e.value.resetAt)
    requires Within(times, times[0], times[0] + l.windowMs)
    ensures Hits(Answers(l, e, times)) <= Quota(l)
    ensures |Answers(l, e, times)| == |times|
    ensures forall i | 0 <= i < |times| :: Answers(l, e, times)[i] <==> i < Quota(l)
  {
    assert forall t | t in times[1..] :: t in times;
    RestOfWindow(l, Count(l, e, times[0]), times[1..]);
  }

  lemma FirstIsEarliest(times: seq<int>, hi: int)
    requires times != [] && Ascending(times) && forall t | t in times :: t <= hi
    ensures Within(times, times[0], hi)
  {
    forall t | t in times ensures times[0] <= t {
      var i :| 0 <= i < |times| && times[i] == t;
    }
  }

  /** A span no longer than the window holds at most one quota and the rest of another. */
  lemma {:induction false} QuotaPerSpan(l: Limits, e: Option<Entry>, times: seq<int>, start: int)
    requires Ascending(times) && Within(times, start, start + l.windowMs)
    requires e.Some? ==> e.value.count >= 1
    ensures Hits(Answers(l, e, times)) <= 2 * Quota(l) - 1
  {
    if times != [] {
      assert times[0] in times;
      if e.None? || times[0] > e.value.resetAt {
        FirstIsEarliest(times, start + l.windowMs);
        QuotaPerWindow(l, e, times);
      } else {
        SpanAfterOpen(l, e.value, times, start);
      }
    }
  }

  lemma {:induction false} SpanAfterOpen(l: Limits, e: Entry, times: seq<int>, start: int)
    requires e.count >= 1 && Ascending(times) && Within(times, start, start + l.windowMs)
    ensures Hits(Answers(l, Some(e), times)) <= Quota(l) + if e.count <= Quota(l) then Quota(l) - e.count else 0
    decreases |times|
  {
    if times != [] {
      assert times[0] in times && forall t | t in times[1..] :: t in times;
      if times[0] > e.resetAt {
        FirstIsEarliest(times, start + l.windowMs);
        QuotaPerWindow(l, Some(e), times);
      } else {
        SpanAfterOpen(l, Count(l, Some(e), times[0]), times[1..], start);
      }
    }
  }

  predicate CountsPositive(s: Store) {
    forall c | c in s :: s[c].count >= 1
  }

  lemma {:induction false} RunKeepsCounts(l: Limits, s: Store, es: seq<Event>)
    requires CountsPositive(s)
    ensures CountsPositive(Run(l, s, es))
    decreases |es|
  {
    if es != [] {
      RunKeepsCounts(l, After(l, s, es[0]), es[1..]);
    }
  }

  lemma {:induction false} ClientTimesAscending(es: seq<Event>, client: string, from: int)
    requires Clocked(es, from)
    ensures Ascending(ClientTimes(es, client)) && forall t | t in ClientTimes(es, client) :: from <= t
  {
    if es != [] {
      ClientTimesAscending(es[1..], client, es[0].now);
      var times, rest := ClientTimes(es, client), ClientTimes(es[1..], client);
      forall i, j | 0 <= i < j < |times| ensures times[i] <= times[j] {
        assert times[j] in times;
        if By(es[0], client) {
          assert times[j] == rest[j - 1] && rest[j - 1] in rest;
          assert i > 0 ==> times[i] == rest[i - 1];
        } else {
          assert times == rest;
        }
      }
    }
  }

  lemma {:induction false} ClockedTail(l: Limits, before: seq<Event>, span: seq<Event>, from: int) returns (at: int)
    requires Clocked(before + span, from)
    ensures Clocked(span, at)
    decreases |before|
  {
    if before == [] {
      assert before + span == span;
      at := from;
    } else {
      assert (before + span)[1..] == before[1..] + span;
      at := ClockedTail(l, before[1..], span, before[0].now);
    }
  }

  /**
    In every run, a client gets at most 2 * maxRequests - 1 allowed answers in any time span of
    length windowMs, whatever came before, whatever others request and whenever cleanups happen.
   */
  lemma AtMostTwoQuotasPerSpan(l: Limits, before: seq<Event>, span: seq<Event>, client: string, from: int, start: int)
    requires Clocked(before + span, from)
    requires forall e | e in span && By(e, client) :: start <= e.now <= start + l.windowMs
    ensures Hits(ClientAnswers(l, Run(l, map[], before), span, client)) <= 2 * Quota(l) - 1
  {
    var at := ClockedTail(l, before, span, from);
    var s := Run(l, map[], before);
    RunKeepsCounts(l, map[], before);
    CleanupInvisibleFrom(l, s, Get(s, client), span, client, at);
    ClientTimesAscending(span, client, at);
    ClientTimesFrom(span, client);
    QuotaPerSpan(l, Get(s, client), ClientTimes(span, client), start);
  }

  /**
    In every run: once a client's request finds its window closed or its counter gone, exactly the
    first quota of its requests within the next windowMs is let through, whatever others do.
   */
  lemma QuotaPerWindowInRun(l: Limits, before: seq<Event>, span: seq<Event>, client: string, from: int)
    requires Clocked(before + span, from) && ClientTimes(span, client) != []
    requires var first, s := ClientTimes(span, client)[0], Run(l, map[], before);
             && (client in s ==> first > s[client].resetAt)
             && forall e | e in span && By(e, client) :: e.now <= first + l.windowMs
    ensures var answers := ClientAnswers(l, Run(l, map[], before), span, client);
            && |answers| == |ClientTimes(span, client)|
            && forall i | 0 <= i < |answers| :: answers[i] <==> i < Quota(l)
  {
    var at := ClockedTail(l, before, span, from);
    var s, times := Run(l, map[], before), ClientTimes(span, client);
    CleanupInvisibleFrom(l, s, Get(s, client), span, client, at);
    ClientTimesAscending(span, client, at);
    ClientTimesFrom(span, client);
    FirstIsEarliest(times, times[0] + l.windowMs);
    QuotaPerWindow(l, Get(s, client), times);
  }

  lemma {:induction false} ClientTimesFrom(es: seq<Event>, client: string)
    ensures forall t | t in ClientTimes(es, client) :: exists e :: e in es && By(e, client) && e.now == t
  {
    if es != [] {
      ClientTimesFrom(es[1..], client);
      forall t | t in ClientTimes(es, client) ensures exists e :: e in es && By(e, client) && e.now == t {
        if t in ClientTimes(es[1..], client) {
          var e :| e in es[1..] && By(e, client) && e.now == t;
          assert e in es;
        } else {
          assert es[0] in es;
        }
      }
    }
  }

  // ---- The bound is reached ---------------------------------------------------

  function Repeat(t: int, n: nat): (r: seq<int>)
    ensures |r| == n && forall x | x in r :: x == t
  {
    if n == 0 then [] else [t] + Repeat(t, n - 1)
  }

  lemma {:induction false} OpenWindowHits(l: Limits, e: Entry, t: int, n: nat, rest: seq<int>)
    requires t <= e.resetAt && e.count + n <= l.maxRequests
    ensures Hits(Answers(l, Some(e), Repeat(t, n) + rest))
         == n + Hits(Answers(l, Some(e.(count := e.count + n)), rest))
    decreases n
  {
    var times := Repeat(t, n) + rest;
    if n == 0 {
      assert times == rest;
    } else {
      assert times[0] == t && times[1..] == Repeat(t, n - 1) + rest;
      OpenWindowHits(l, e.(count := e.count + 1), t, n - 1, rest);
    }
  }

  /** One request at 0, the rest of its quota at windowMs, and a whole quota right after. */
  function Burst(l: Limits): seq<int>
    requires l.maxRequests >= 1
  {
    Repeat(l.windowMs, l.maxRequests - 1) + Repeat(l.windowMs + 1, l.maxRequests)
  }

  /** For every limit and window the bound is attained, even within one millisecond. */
  lemma BoundReached(l: Limits)
    requires l.maxRequests >= 1
    ensures Hits(Answers(l, Some(Count(l, None, 0)), Burst(l))) == 2 * l.maxRequests - 1
    ensures Within(Burst(l), l.windowMs, l.windowMs + 1)
  {
    var n := l.maxRequests;
    var late := Repeat(l.windowMs + 1, n);
    OpenWindowHits(l, Entry(1, l.windowMs), l.windowMs, n - 1, late);
    assert late == [l.windowMs + 1] + Repeat(l.windowMs + 1, n - 1);
    var e := Entry(1, l.windowMs + 1 + l.windowMs);
    var tail := Repeat(l.windowMs + 1, n - 1);
    assert tail + [] == tail;
    OpenWindowHits(l, e, l.windowMs + 1, n - 1, []);
    assert late[1..] == tail;
    assert Count(l, Some(Entry(n, l.windowMs)), l.windowMs + 1) == e;
  }

  function Requests(client: string, times: seq<int>): (r: seq<Event>)
    ensures |r| == |times| && forall i | 0 <= i < |r| :: r[i] == Request(client, times[i])
  {
    seq(|times|, i requires 0 <= i < |times| => Request(client, times[i]))
  }

  lemma {:induction false} RequestsAtTimes(client: string, times: seq<int>, from: int)
    requires Ascending(times) && forall t | t in times :: from <= t
    ensures ClientTimes(Requests(client, times), client) == times && Clocked(Requests(client, times), from)
    decreases |times|
  {
    if times != [] {
      var rest := times[1..];
      assert times[0] in times && times == [times[0]] + rest;
      assert Requests(client, times)[1..] == Requests(client, rest);
      FirstIsEarliest(times, times[|times| - 1]);
      RequestsAtTimes(client, rest, times[0]);
    }
  }

  lemma FirstRequest(l: Limits, client: string)
    ensures Get(Run(l, map[], Requests(client, [0])), client) == Some(Count(l, None, 0))
  {
    var before := Requests(client, [0]);
    assert before[1..] == [];
    assert Run(l, map[], before) == Run(l, After(l, map[], before[0]), []);
  }

  lemma BurstRequested(l: Limits, client: string)
    requires l.maxRequests >= 1
    ensures var before, span := Requests(client, [0]), Requests(client, Burst(l));
            && ClientTimes(span, client) == Burst(l) && Clocked(span, 0) && Clocked(before + span, 0)
            && forall e | e in span :: l.windowMs <= e.now <= l.windowMs + 1
  {
    hide Burst, Repeat, ClientTimes;
    var before, span := Requests(client, [0]), Requests(client, Burst(l));
    BurstAscending(l);
    RequestsAtTimes(client, Burst(l), 0);
    assert before == [Request(client, 0)] && (before + span)[1..] == span;
    BoundReached(l);
    forall e | e in span ensures l.windowMs <= e.now <= l.windowMs + 1 {
      var k :| 0 <= k < |span| && span[k] == e;
      assert Burst(l)[k] in Burst(l);
    }
  }

  /** One request and then a burst is a run of the store, and its client gets the full bound. */
  lemma BoundReachedInRun(l: Limits, client: string)
    requires l.maxRequests >= 1
    ensures var before, span := Requests(client, [0]), Requests(client, Burst(l));
            && Clocked(before + span, 0)
            && (forall e | e in span && By(e, client) :: l.windowMs <= e.now <= l.windowMs + 1)
            && Hits(ClientAnswers(l, Run(l, map[], before), span, client)) == 2 * l.maxRequests - 1
  {
    hide Run, Requests, Burst, Answers, ClientAnswers, ClientTimes, Clocked, Hits, Ascending, Count;
    BoundReached(l);
    BurstRequested(l, client);
    FirstRequest(l, client);
    var s := Run(l, map[], Requests(client, [0]));
    CleanupInvisibleFrom(l, s, Get(s, client), Requests(client, Burst(l)), client, 0);
  }

  lemma BurstAscending(l: Limits)
    requires l.maxRequests >= 1
    ensures Ascending(Burst(l)) && forall t | t in Burst(l) :: 0 <= t
  {
    var early, late := Repeat(l.windowMs, l.maxRequests - 1), Repeat(l.windowMs + 1, l.maxRequests);
    forall k | 0 <= k < |Burst(l)| ensures Burst(l)[k] == if k < |early| then l.windowMs else l.windowMs + 1 {
      assert if k < |early| then early[k] in early else late[k - |early|] in late;
    }
  }

  // ---- The limiter, updated in place ------------------------------------------

  class RateLimiter {
    const limits: Limits
    const bypass: bool          // MC_DISABLE_RATE_LIMIT is set and the limiter is not critical
    var store: Store

    constructor (limits: Limits, bypass: bool)
      ensures this.limits == limits && this.bypass == bypass && store == map[]
    {
      this.limits, this.bypass, store := limits, bypass, map[];
    }

    method Check(client: string, now: int) returns (allowed: bool)
      modifies this
      ensures allowed == (bypass || Allowed(limits, old(Get(store, client)), now))
      ensures store == if bypass then old(store) else After(limits, old(store), Request(client, now))
    {
      if bypass {
        return true;
      }
      if client !in store || now > store[client].resetAt {
        store := store[client := Entry(1, now + limits.windowMs)];
        return true;
      }
      var entry := store[client].(count := store[client].count + 1);
      store := store[client := entry];
      return !(entry.count > limits.maxRequests);
    }

    method CleanUp(now: int)
      modifies this
      ensures store == After(limits, old(store), Cleanup(now))
    {
      var keys := store.Keys;
      while keys != {}
        invariant keys <= store.Keys <= old(store).Keys
        invariant forall c | c in store :: store[c] == old(store)[c]
        invariant forall c | c in old(store) && c !in store :: now > old(store)[c].resetAt
        invariant forall c | c in store && c !in keys :: now <= store[c].resetAt
        decreases |keys|
      {
        var key :| key in keys;
        keys := keys - {key};
        if now > store[key].resetAt {
          store := store - {key};
        }
      }
    }
  }

  // ---- The client address -----------------------------------------------------

  /**
    extractClientIp: `forwarded` is the x-forwarded-for chain after splitting and trimming,
    `realIp` the trimmed x-real-ip header, empty when absent.
   */
  method ExtractClientIp(forwarded: Option<seq<string>>, trusted: set<string>, realIp: string) returns (ip: string)
    ensures forwarded.Some? && trusted != {} && (exists a :: a in forwarded.value && a !in trusted) ==>
              exists i :: 0 <= i < |forwarded.value| && ip == forwarded.value[i] && ip !in trusted
                     && forall j | i < j < |forwarded.value| :: forwarded.value[j] in trusted
    ensures forwarded.None? || trusted == {} || (forall a | a in forwarded.value :: a in trusted) ==>
              ip == if realIp == "" then "unknown" else realIp
  {
    if forwarded.Some? && trusted != {} {
      var ips := forwarded.value;
      var i := |ips|;
      while i > 0
        invariant 0 <= i <= |ips|
        invariant forall j | i <= j < |ips| :: ips[j] in trusted
      {
        i := i - 1;
        if ips[i] !in trusted {
          return ips[i];
        }
      }
    }
    return if realIp == "" then "unknown" else realIp;
  }
}
