/**
  The webhook retry queue and circuit breaker (src/lib/webhooks.ts) as a state machine.

  One step is one stretch of code between two awaits, so deliveries and overlapping retry
  sweeps interleave freely. A delivery is named by the position at which it was created;
  `deliveries` keeps every delivery ever made, `rows` says which of them still have a row in
  the webhook_deliveries table.
 */
module Webhooks {
  import opened Options

  type Positive = n: int | n >= 1 witness 1

  // ---- Backoff ----------------------------------------------------------------

  /** BACKOFF_SECONDS, the last entry repeating. */
  function Backoff(attempt: nat): int {
    if attempt == 0 then 30
    else if attempt == 1 then 300
    else if attempt == 2 then 1800
    else if attempt == 3 then 7200
    else 28800
  }

  /** Math.round */
  function Round(x: real): int {
    (x + 0.5).Floor
  }

  /** nextRetryDelay, the random draw being a parameter. */
  function NextRetryDelay(attempt: nat, draw: real): int {
    var base := Backoff(attempt) as real;
    Round(base + base * 0.2 * (2.0 * draw - 1.0))
  }

  function MinDelay(attempt: nat): int { Backoff(attempt) * 4 / 5 }
  function MaxDelay(attempt: nat): int { Backoff(attempt) * 6 / 5 }

  /** Whatever the draw, a delay stays within 20% of its base. */
  lemma DelayWithinJitter(attempt: nat, draw: real)
    requires 0.0 <= draw < 1.0
    ensures MinDelay(attempt) <= NextRetryDelay(attempt, draw) <= MaxDelay(attempt)
    ensures 5 * MinDelay(attempt) == 4 * Backoff(attempt) && 5 * MaxDelay(attempt) == 6 * Backoff(attempt)
  {
    var base := Backoff(attempt) as real;
    var x := base + base * 0.2 * (2.0 * draw - 1.0);
    assert base * 0.8 <= x <= base * 1.2;
    assert MinDelay(attempt) as real == base * 0.8 && MaxDelay(attempt) as real == base * 1.2;
    assert MinDelay(attempt) <= Round(x) by {
      assert MinDelay(attempt) as real <= x + 0.5;
    }
    assert Round(x) as real <= x + 0.5;
  }

  /** Rounding goes to the nearest integer, upwards from the middle. */
  lemma RoundIsNearest(x: real)
    ensures Round(x) as real - 0.5 <= x < Round(x) as real + 0.5
  {
  }

  /** The delay grows with the draw, from four fifths of its base through the base itself. */
  lemma DelayFollowsDraw(attempt: nat, a: real, b: real)
    requires 0.0 <= a <= b < 1.0
    ensures NextRetryDelay(attempt, a) <= NextRetryDelay(attempt, b)
    ensures NextRetryDelay(attempt, 0.0) == MinDelay(attempt) && NextRetryDelay(attempt, 0.5) == Backoff(attempt)
  {
    var base := Backoff(attempt) as real;
    assert base * 0.2 * (2.0 * a - 1.0) <= base * 0.2 * (2.0 * b - 1.0);
  }

  /** Delays of successive attempts strictly increase until the schedule is exhausted. */
  lemma DelaysIncrease(a: nat, b: nat, drawA: real, drawB: real)
    requires a < b <= 4 && 0.0 <= drawA < 1.0 && 0.0 <= drawB < 1.0
    ensures NextRetryDelay(a, drawA) < NextRetryDelay(b, drawB)
  {
    DelayWithinJitter(a, drawA);
    DelayWithinJitter(b, drawB);
  }

  // ---- State ------------------------------------------------------------------

  /** A payload: null or undefined, some JSON value, or a whole stored body. */
  datatype Payload = Absent | Json(text: string) | Body(event: string, sentAt: int, data: Payload)

  datatype Phase =
    | Waiting                                                // claimed or fired, not yet posted
    | Flying                                                 // posted, the response not yet recorded
    | Logged(ok: bool, at: int, retryAt: Option<int>)        // recorded in the table
    | Lost                                                   // recording it failed

  datatype Delivery = Delivery(
    webhook: int, event: string, data: Payload, attempt: nat, parent: Option<nat>,
    auto: bool,                                              // allowRetry
    born: int, sentAt: int, phase: Phase)

  datatype Webhook = Webhook(enabled: bool, failures: nat, events: set<string>)

  /** What the breaker's history consists of. */
  datatype Entry = Outcome(webhook: int, id: nat, ok: bool) | CircuitReset(webhook: int)

  datatype State = State(
    max: Positive,                                           // MAX_RETRIES
    now: int, webhooks: map<int, Webhook>, deliveries: seq<Delivery>, rows: set<nat>, log: seq<Entry>)

  predicate Initial(s: State) {
    s.deliveries == [] && s.rows == {} && s.log == [] && forall w | w in s.webhooks :: s.webhooks[w].failures == 0
  }

  datatype Event =
    | Fire(webhook: int, event: string, data: Payload, now: int)
    | Claim(batch: seq<nat>, now: int)
    | Post(id: nat, now: int)
    | Finish(id: nat, ok: bool, now: int, draw: real, drop: set<nat>)
    | Lose(id: nat)
    | Test(webhook: int, event: string, data: Payload, now: int)
    | Redeliver(row: nat, now: int)
    | SetEnabled(webhook: int, enabled: bool)
    | ResetCircuit(webhook: int)
    | Remove(webhook: int)

  // ---- Steps ------------------------------------------------------------------

  predicate Matches(w: Webhook, event: string) {
    w.enabled && ("*" in w.events || event in w.events)
  }

  function Fresh(webhook: int, event: string, data: Payload, auto: bool, now: int): Delivery {
    Delivery(webhook, event, data, 0, None, auto, now, now, Waiting)
  }

  /** The payload read back from a stored body: parsed.data ?? parsed. */
  function RetryData(d: Delivery): Payload {
    if d.data.Absent? then Body(d.event, d.sentAt, d.data) else d.data
  }

  function Child(d: Delivery, id: nat, auto: bool, now: int): Delivery {
    Delivery(d.webhook, d.event, RetryData(d), d.attempt + 1, Some(id), auto, now, now, Waiting)
  }

  predicate Pending(d: Delivery) {
    d.phase.Logged? && d.phase.retryAt.Some?
  }

  predicate Due(s: State, id: nat, now: int) {
    && id in s.rows && id < |s.deliveries| && Pending(s.deliveries[id])
    && s.deliveries[id].phase.retryAt.value <= now
    && s.deliveries[id].webhook in s.webhooks && s.webhooks[s.deliveries[id].webhook].enabled
  }

  predicate Distinct(ids: seq<nat>) {
    forall i, j | 0 <= i < j < |ids| :: ids[i] != ids[j]
  }

  /** What the sweep's SELECT … LIMIT 50 may return. */
  predicate Batch(s: State, batch: seq<nat>, now: int) {
    && |batch| <= 50
    && (forall i | 0 <= i < |batch| :: Due(s, batch[i], now))
    && Distinct(batch)
    && (|batch| < 50 ==> forall id | id in s.rows && Due(s, id, now) :: id in batch)
  }

  function Cleared(d: Delivery): Delivery {
    if d.phase.Logged? then d.(phase := d.phase.(retryAt := None)) else d
  }

  function ClearBatch(ds: seq<Delivery>, batch: seq<nat>): (r: seq<Delivery>)
    ensures |r| == |ds|
  {
    seq(|ds|, i requires 0 <= i < |ds| => if i in batch then Cleared(ds[i]) else ds[i])
  }

  function Children(ds: seq<Delivery>, batch: seq<nat>, now: int): (r: seq<Delivery>)
    requires forall i | 0 <= i < |batch| :: batch[i] < |ds|
    ensures |r| == |batch|
  {
    seq(|batch|, i requires 0 <= i < |batch| => Child(ds[batch[i]], batch[i], true, now))
  }

  function RowsOf(ds: seq<Delivery>, rows: set<nat>, webhook: int): set<nat> {
    set id | id in rows && id < |ds| && ds[id].webhook == webhook
  }

  function LoggedAt(ds: seq<Delivery>, id: nat): int {
    if id < |ds| && ds[id].phase.Logged? then ds[id].phase.at else 0
  }

  /** What "keep the newest 200 rows of this webhook" may delete; ties are broken arbitrarily. */
  predicate Prunes(ds: seq<Delivery>, own: set<nat>, drop: set<nat>) {
    && drop <= own
    && |own - drop| == (if |own| <= 200 then |own| else 200)
    && forall d, k | d in drop && k in own - drop :: LoggedAt(ds, d) <= LoggedAt(ds, k)
  }

  function Recorded(s: State, id: nat, ok: bool, now: int, draw: real): Delivery
    requires id < |s.deliveries|
  {
    var d := s.deliveries[id];
    var retryAt := if d.auto && !ok && d.attempt < s.max - 1 then Some(now + NextRetryDelay(d.attempt, draw)) else None;
    d.(phase := Logged(ok, now, retryAt))
  }

  function Breaker(w: Webhook, d: Delivery, ok: bool, max: Positive): Webhook {
    if !d.auto then w
    else if ok then w.(failures := 0)
    else if d.attempt >= max - 1 && w.failures + 1 >= max then w.(failures := w.failures + 1, enabled := false)
    else w.(failures := w.failures + 1)
  }

  predicate CanFinish(s: State, id: nat, ok: bool, now: int, draw: real, drop: set<nat>) {
    && id < |s.deliveries| && s.deliveries[id].phase.Flying?
    && s.now <= now && 0.0 <= draw < 1.0
    && s.deliveries[id].webhook in s.webhooks
    && var ds := s.deliveries[id := Recorded(s, id, ok, now, draw)];
       Prunes(ds, RowsOf(ds, s.rows + {id}, s.deliveries[id].webhook), drop)
  }

  predicate Enabled(s: State, e: Event) {
    match e
    case Fire(w, event, data, now) => s.now <= now && w in s.webhooks && Matches(s.webhooks[w], event)
    case Claim(batch, now) => s.now <= now && Batch(s, batch, now)
    case Post(id, now) => s.now <= now && id < |s.deliveries| && s.deliveries[id].phase.Waiting?
    case Finish(id, ok, now, draw, drop) => CanFinish(s, id, ok, now, draw, drop)
    case Lose(id) => id < |s.deliveries| && s.deliveries[id].phase.Flying?
    case Test(w, event, data, now) => s.now <= now && w in s.webhooks
    case Redeliver(row, now) => s.now <= now && row in s.rows && row < |s.deliveries|
    case SetEnabled(w, _) => w in s.webhooks
    case ResetCircuit(w) => w in s.webhooks
    case Remove(w) => true
  }

  function Step(s: State, e: Event): State {
    if !Enabled(s, e) then s else
    match e
    case Fire(w, event, data, now) =>
      s.(now := now, deliveries := s.deliveries + [Fresh(w, event, data, true, now)])
    case Claim(batch, now) =>
      s.(now := now, deliveries := ClearBatch(s.deliveries, batch) + Children(s.deliveries, batch, now))
    case Post(id, now) =>
      s.(now := now, deliveries := s.deliveries[id := s.deliveries[id].(phase := Flying, sentAt := now)])
    case Finish(id, ok, now, draw, drop) =>
      var d := s.deliveries[id];
      s.(now := now,
         deliveries := s.deliveries[id := Recorded(s, id, ok, now, draw)],
         rows := s.rows + {id} - drop,
         webhooks := s.webhooks[d.webhook := Breaker(s.webhooks[d.webhook], d, ok, s.max)],
         log := if d.auto then s.log + [Outcome(d.webhook, id, ok)] else s.log)
    case Lose(id) =>
      s.(deliveries := s.deliveries[id := s.deliveries[id].(phase := Lost)])
    case Test(w, event, data, now) =>
      s.(now := now, deliveries := s.deliveries + [Fresh(w, event, data, false, now)])
    case Redeliver(row, now) =>
      s.(now := now, deliveries := s.deliveries + [Child(s.deliveries[row], row, false, now)])
    case SetEnabled(w, enabled) =>
      s.(webhooks := s.webhooks[w := s.webhooks[w].(enabled := enabled)])
    case ResetCircuit(w) =>
      s.(webhooks := s.webhooks[w := s.webhooks[w].(enabled := true, failures := 0)], log := s.log + [CircuitReset(w)])
    case Remove(w) =>
      s.(webhooks := s.webhooks - {w}, rows := s.rows - RowsOf(s.deliveries, s.rows, w))
  }

  function Run(s: State, es: seq<Event>): State
    decreases |es|
  {
    if es == [] then s else Run(Step(s, es[0]), es[1..])
  }

  // ---- What each step does ----------------------------------------------------

  /** 30 seconds, 5 minutes, 30 minutes, 2 hours, and 8 hours from then on. */
  lemma BackoffSchedule(attempt: nat)
    ensures Backoff(0) == 30 && Backoff(1) == 5 * 60 && Backoff(2) == 30 * 60 && Backoff(3) == 2 * 60 * 60
    ensures attempt >= 4 ==> Backoff(attempt) == 8 * 60 * 60
  {
  }

  /** One delivery is queued behind the others, with this content. */
  predicate Queues(
    before: seq<Delivery>, after: seq<Delivery>, webhook: int, event: string, data: Payload,
    attempt: int, parent: Option<nat>, auto: bool, now: int)
  {
    && |after| == |before| + 1 && after[..|before|] == before
    && var d := after[|before|];
       && d.webhook == webhook && d.event == event && d.data == data && d.attempt == attempt
       && d.parent == parent && d.auto == auto && d.born == now && d.phase.Waiting?
  }

  predicate SameTables(s: State, s': State) {
    s'.max == s.max && s'.rows == s.rows && s'.webhooks == s.webhooks && s'.log == s.log
  }

  /** The payload of a resent delivery: as it was, or the whole stored body if it was null. */
  predicate Resent(d: Delivery, data: Payload) {
    if d.data == Absent then data == Body(d.event, d.sentAt, Absent) else data == d.data
  }

  /** An event reaches exactly the enabled webhooks subscribed to it or to everything, as attempt 0. */
  lemma FireQueues(s: State, w: int, event: string, data: Payload, now: int)
    requires s.now <= now
    ensures var s' := Step(s, Fire(w, event, data, now));
            && SameTables(s, s')
            && if w in s.webhooks && s.webhooks[w].enabled && s.webhooks[w].events * {"*", event} != {}
               then Queues(s.deliveries, s'.deliveries, w, event, data, 0, None, true, now)
               else s'.deliveries == s.deliveries
  {
    if w in s.webhooks {
      var both := s.webhooks[w].events * {"*", event};
      assert "*" in s.webhooks[w].events ==> "*" in both;
      assert event in s.webhooks[w].events ==> event in both;
    }
  }

  /** A test goes to the webhook whether or not it is enabled or subscribed, and is never retried. */
  lemma TestQueues(s: State, w: int, event: string, data: Payload, now: int)
    requires s.now <= now && w in s.webhooks
    ensures var s' := Step(s, Test(w, event, data, now));
            SameTables(s, s') && Queues(s.deliveries, s'.deliveries, w, event, data, 0, None, false, now)
  {
  }

  /** A manual redelivery resends a row's event and payload as its next attempt, never retried. */
  lemma RedeliverQueues(s: State, row: nat, now: int)
    requires s.now <= now && row in s.rows && row < |s.deliveries|
    ensures var d, s' := s.deliveries[row], Step(s, Redeliver(row, now));
            && SameTables(s, s') && |s'.deliveries| == |s.deliveries| + 1
            && Resent(d, s'.deliveries[|s.deliveries|].data)
            && Queues(s.deliveries, s'.deliveries, d.webhook, d.event, s'.deliveries[|s.deliveries|].data,
                      d.attempt + 1, Some(row), false, now)
  {
  }

  /** A sweep takes the batch out of the queue and launches its next attempts, in the same order. */
  lemma ClaimQueues(s: State, batch: seq<nat>, now: int)
    requires s.now <= now && Batch(s, batch, now)
    ensures var n, ds, s' := |s.deliveries|, s.deliveries, Step(s, Claim(batch, now));
            && SameTables(s, s') && |s'.deliveries| == n + |batch|
            && (forall i | 0 <= i < n :: s'.deliveries[i] ==
                  (if i in batch then ds[i].(phase := ds[i].phase.(retryAt := None)) else ds[i]))
            && forall k | 0 <= k < |batch| ::
                 var d, c := ds[batch[k]], s'.deliveries[n + k];
                 && c.webhook == d.webhook && c.event == d.event && Resent(d, c.data) && c.attempt == d.attempt + 1
                 && c.parent == Some(batch[k]) && c.auto && c.born == now && c.phase.Waiting?
  {
    forall i | i in batch ensures Due(s, i, now) {
      var k :| 0 <= k < |batch| && batch[k] == i;
      assert Due(s, batch[k], now);
    }
    forall k | 0 <= k < |batch| ensures Due(s, batch[k], now) {}
  }

  /** A waiting delivery can be posted, whatever became of its webhook; its body is stamped then. */
  lemma PostSends(s: State, id: nat, now: int)
    requires s.now <= now && id < |s.deliveries| && s.deliveries[id].phase.Waiting?
    ensures var s' := Step(s, Post(id, now));
            && SameTables(s, s')
            && s'.deliveries == s.deliveries[id := s.deliveries[id].(phase := Flying, sentAt := now)]
  {
  }

  /**
    Recording a result: the delivery gets a row, which stays unless it is pruned; an automatic
    failure that is not the last attempt is scheduled again within 20% of its delay; only automatic
    results reach the webhook's counter, which a success clears; nothing else changes.
   */
  lemma FinishRecords(s: State, id: nat, ok: bool, now: int, draw: real, drop: set<nat>)
    requires CanFinish(s, id, ok, now, draw, drop)
    ensures var s', d := Step(s, Finish(id, ok, now, draw, drop)), s.deliveries[id];
            var d', w := s'.deliveries[id], d.webhook;
            && s'.deliveries == s.deliveries[id := d'] && d' == d.(phase := d'.phase)
            && d'.phase.Logged? && d'.phase.ok == ok && d'.phase.at == now
            && (d'.phase.retryAt.Some? <==> d.auto && !ok && d.attempt < s.max - 1)
            && (d'.phase.retryAt.Some? ==>
                  now + MinDelay(d.attempt) <= d'.phase.retryAt.value <= now + MaxDelay(d.attempt))
            && s'.rows + drop == s.rows + {id} + drop && s'.rows * drop == {}
            && s'.webhooks.Keys == s.webhooks.Keys
            && (forall v | v in s.webhooks && v != w :: s'.webhooks[v] == s.webhooks[v])
            && s'.webhooks[w].events == s.webhooks[w].events
            && (s'.webhooks[w].enabled ==> s.webhooks[w].enabled)
            && s'.webhooks[w].failures ==
               (if !d.auto then s.webhooks[w].failures else if ok then 0 else s.webhooks[w].failures + 1)
            && s'.log == if d.auto then s.log + [Outcome(w, id, ok)] else s.log
  {
    DelayWithinJitter(s.deliveries[id].attempt, draw);
  }

  /** Losing a recording leaves the tables alone; switches, resets and removals touch one webhook. */
  lemma AdministrationSteps(s: State, w: int, enabled: bool, id: nat)
    ensures id < |s.deliveries| && s.deliveries[id].phase.Flying? ==>
              var s' := Step(s, Lose(id));
              SameTables(s, s') && s'.deliveries == s.deliveries[id := s.deliveries[id].(phase := Lost)]
    ensures w in s.webhooks ==>
              && Step(s, SetEnabled(w, enabled)) == s.(webhooks := s.webhooks[w := s.webhooks[w].(enabled := enabled)])
              && var s' := Step(s, ResetCircuit(w));
                 && s'.webhooks == s.webhooks[w := Webhook(true, 0, s.webhooks[w].events)]
                 && s'.deliveries == s.deliveries && s'.rows == s.rows
    ensures var s' := Step(s, Remove(w));
            && s'.webhooks.Keys == s.webhooks.Keys - {w} && s'.deliveries == s.deliveries && s'.log == s.log
            && (forall v | v in s'.webhooks :: s'.webhooks[v] == s.webhooks[v])
            && forall r | 0 <= r < |s.deliveries| :: r in s'.rows <==> r in s.rows && s.deliveries[r].webhook != w
  {
  }

  /** A launch that retries nothing: whose webhook, which event, what payload. */
  datatype Launch = Launch(webhook: int, event: string, data: Payload)

  /** The deliveries that have no parent, in order. */
  function Roots(ds: seq<Delivery>, auto: bool): seq<Launch> {
    if ds == [] then []
    else
      var d := ds[|ds| - 1];
      Roots(ds[..|ds| - 1], auto)
      + if d.auto == auto && d.parent.None? then [Launch(d.webhook, d.event, d.data)] else []
  }

  /** The events of a run that find their webhook enabled and subscribed. */
  function Firings(s: State, es: seq<Event>): seq<Launch>
    decreases |es|
  {
    if es == [] then []
    else
      var e := es[0];
      (if e.Fire? && s.now <= e.now && e.webhook in s.webhooks && s.webhooks[e.webhook].enabled
          && ("*" in s.webhooks[e.webhook].events || e.event in s.webhooks[e.webhook].events)
       then [Launch(e.webhook, e.event, e.data)] else [])
      + Firings(Step(s, e), es[1..])
  }

  /** The tests of a run, whose webhook need only exist. */
  function Tests(s: State, es: seq<Event>): seq<Launch>
    decreases |es|
  {
    if es == [] then []
    else
      var e := es[0];
      (if e.Test? && s.now <= e.now && e.webhook in s.webhooks then [Launch(e.webhook, e.event, e.data)] else [])
      + Tests(Step(s, e), es[1..])
  }

  lemma {:induction false} RootsConcat(a: seq<Delivery>, b: seq<Delivery>, auto: bool)
    ensures Roots(a + b, auto) == Roots(a, auto) + Roots(b, auto)
    decreases |b|
  {
    if b == [] {
      assert a + b == a;
    } else {
      var n := |b| - 1;
      assert (a + b)[..|a| + n] == a + b[..n];
      RootsConcat(a, b[..n], auto);
    }
  }

  /** Deliveries that agree in everything but their phase and stamp have the same roots. */
  lemma {:induction false} RootsSame(a: seq<Delivery>, b: seq<Delivery>, auto: bool)
    requires |a| == |b|
    requires forall i | 0 <= i < |a| :: b[i] == a[i].(phase := b[i].phase, sentAt := b[i].sentAt)
    ensures Roots(a, auto) == Roots(b, auto)
  {
    if a != [] {
      RootsSame(a[..|a| - 1], b[..|b| - 1], auto);
    }
  }

  lemma {:induction false} NoRoots(ds: seq<Delivery>, auto: bool)
    requires forall i | 0 <= i < |ds| :: ds[i].parent.Some?
    ensures Roots(ds, auto) == []
  {
    if ds != [] {
      NoRoots(ds[..|ds| - 1], auto);
    }
  }

  lemma StepRoots(s: State, e: Event, auto: bool)
    ensures Roots(Step(s, e).deliveries, auto) ==
            Roots(s.deliveries, auto) + if auto then Firings(s, [e]) else Tests(s, [e])
  {
    hide Roots, Prunes, Due;
    var s', n := Step(s, e), |s.deliveries|;
    var old', more := s'.deliveries[..n], s'.deliveries[n..];
    assert s'.deliveries == old' + more;
    RootsConcat(old', more, auto);
    RootsSame(s.deliveries, old', auto);
    if Enabled(s, e) && (e.Fire? || e.Test?) {
      OneRoot(more[0], auto);
      assert more == [more[0]];
    } else {
      NoRoots(more, auto);
    }
  }

  lemma OneRoot(d: Delivery, auto: bool)
    ensures Roots([d], auto) == if d.auto == auto && d.parent.None? then [Launch(d.webhook, d.event, d.data)] else []
  {
    assert [d][..0] == [];
  }

  /**
    In every run the automatic deliveries without a parent are exactly the run's firings, in order,
    and the manual ones exactly its tests: no event is lost, doubled, altered or invented.
   */
  lemma {:induction false} RootsAreLaunches(s: State, es: seq<Event>)
    ensures Roots(Run(s, es).deliveries, true) == Roots(s.deliveries, true) + Firings(s, es)
    ensures Roots(Run(s, es).deliveries, false) == Roots(s.deliveries, false) + Tests(s, es)
    decreases |es|
  {
    hide Roots, Step;
    if es != [] {
      StepRoots(s, es[0], true);
      StepRoots(s, es[0], false);
      RootsAreLaunches(Step(s, es[0]), es[1..]);
      assert [es[0]][0] == es[0] && [es[0]][1..] == [];
    }
  }

  // ---- Invariant: the shape of retry chains -----------------------------------

  /** An automatic delivery against its parent. */
  predicate ChildOf(c: Delivery, p: Delivery, id: nat) {
    && p.auto && p.phase.Logged? && !p.phase.ok && p.phase.retryAt.None?
    && c.webhook == p.webhook && c.event == p.event && c.data == RetryData(p)
    && c.attempt == p.attempt + 1
    && p.phase.at + MinDelay(p.attempt) <= c.born
  }

  predicate LinkOk(ds: seq<Delivery>, max: Positive, i: nat)
    requires i < |ds|
  {
    var d := ds[i];
    d.auto ==>
      && d.attempt < max
      && (d.attempt == 0 <==> d.parent.None?)
      && (d.parent.Some? ==> d.parent.value < i && ChildOf(d, ds[d.parent.value], d.parent.value))
  }

  predicate Linked(ds: seq<Delivery>, max: Positive) {
    forall i | 0 <= i < |ds| :: LinkOk(ds, max, i)
  }

  predicate PendingOk(d: Delivery, max: Positive) {
    Pending(d) ==>
      d.auto && !d.phase.ok && d.attempt < max - 1 && d.phase.at + MinDelay(d.attempt) <= d.phase.retryAt.value
  }

  predicate OnlyFailuresPending(ds: seq<Delivery>, max: Positive) {
    forall i | 0 <= i < |ds| :: PendingOk(ds[i], max)
  }

  predicate SingleChild(ds: seq<Delivery>) {
    forall i, j | 0 <= i < j < |ds| && ds[i].auto && ds[j].auto && ds[i].parent.Some? :: ds[i].parent != ds[j].parent
  }

  /** A row with an automatic child is not waiting for another retry. */
  predicate Claimed(ds: seq<Delivery>, id: nat) {
    id < |ds| && ds[id].phase.Logged? && ds[id].phase.retryAt.None?
  }

  predicate TimedOk(d: Delivery, now: int) {
    d.born <= now && (d.phase.Logged? ==> d.born <= d.phase.at <= now)
  }

  predicate Timed(ds: seq<Delivery>, now: int) {
    forall i | 0 <= i < |ds| :: TimedOk(ds[i], now)
  }

  predicate TableOk(s: State) {
    forall r | r in s.rows ::
      r < |s.deliveries| && s.deliveries[r].phase.Logged? && s.deliveries[r].webhook in s.webhooks
  }

  predicate Capped(s: State) {
    forall w | w in s.webhooks :: |RowsOf(s.deliveries, s.rows, w)| <= 200
  }

  predicate ChainInv(s: State) {
    && Linked(s.deliveries, s.max)
    && OnlyFailuresPending(s.deliveries, s.max)
    && SingleChild(s.deliveries)
    && Timed(s.deliveries, s.now)
    && TableOk(s)
  }

  lemma AppendKeeps(ds: seq<Delivery>, d: Delivery, max: Positive, now: int, later: int)
    requires Linked(ds, max) && OnlyFailuresPending(ds, max) && SingleChild(ds) && Timed(ds, now)
    requires now <= later == d.born && d.phase.Waiting?
    requires d.auto ==> d.attempt == 0 && d.parent.None?
    ensures var r := ds + [d];
            Linked(r, max) && OnlyFailuresPending(r, max) && SingleChild(r) && Timed(r, later)
  {
    var r := ds + [d];
    forall i | 0 <= i < |r| ensures LinkOk(r, max, i) && PendingOk(r[i], max) && TimedOk(r[i], later) {
      if i < |ds| {
        assert LinkOk(ds, max, i) && PendingOk(ds[i], max) && TimedOk(ds[i], now);
      }
    }
  }

  /** Changing the phase of a delivery that is not recorded yet keeps the links. */
  lemma PhaseKeeps(ds: seq<Delivery>, id: nat, d: Delivery, max: Positive, now: int, later: int)
    requires Linked(ds, max) && OnlyFailuresPending(ds, max) && SingleChild(ds) && Timed(ds, now)
    requires id < |ds| && !ds[id].phase.Logged? && now <= later
    requires d == ds[id].(phase := d.phase, sentAt := d.sentAt)
    requires PendingOk(d, max) && (d.phase.Logged? ==> d.phase.at == later)
    ensures var r := ds[id := d];
            Linked(r, max) && OnlyFailuresPending(r, max) && SingleChild(r) && Timed(r, later)
  {
    var r := ds[id := d];
    forall i | 0 <= i < |r| ensures LinkOk(r, max, i) && PendingOk(r[i], max) && TimedOk(r[i], later) {
      assert LinkOk(ds, max, i) && PendingOk(ds[i], max) && TimedOk(ds[i], now);
    }
  }

  lemma ClaimKeepsLink(s: State, batch: seq<nat>, now: int, i: nat)
    requires ChainInv(s) && s.now <= now && Batch(s, batch, now)
    requires i < |Step(s, Claim(batch, now)).deliveries|
    ensures var r := Step(s, Claim(batch, now)).deliveries;
            LinkOk(r, s.max, i) && PendingOk(r[i], s.max) && TimedOk(r[i], now)
  {
    var ds, n := s.deliveries, |s.deliveries|;
    if i < n {
      assert LinkOk(ds, s.max, i) && PendingOk(ds[i], s.max) && TimedOk(ds[i], s.now);
    } else {
      var p := batch[i - n];
      assert Due(s, p, now) && p in batch;
      assert PendingOk(ds[p], s.max) && LinkOk(ds, s.max, p) && TimedOk(ds[p], s.now);
    }
  }

  lemma ClaimKeepsSingle(s: State, batch: seq<nat>, now: int, i: nat, j: nat)
    requires ChainInv(s) && s.now <= now && Batch(s, batch, now)
    requires var r := Step(s, Claim(batch, now)).deliveries;
             i < j < |r| && r[i].auto && r[j].auto && r[i].parent.Some?
    ensures var r := Step(s, Claim(batch, now)).deliveries; r[i].parent != r[j].parent
  {
    var ds, n := s.deliveries, |s.deliveries|;
    if j >= n {
      var p := batch[j - n];
      assert Due(s, p, now);
      if i < n {
        assert LinkOk(ds, s.max, i);
      } else {
        assert batch[i - n] != p;
      }
    }
  }

  lemma ClaimKeeps(s: State, batch: seq<nat>, now: int)
    requires ChainInv(s) && s.now <= now && Batch(s, batch, now)
    ensures ChainInv(Step(s, Claim(batch, now)))
  {
    var s' := Step(s, Claim(batch, now));
    var r := s'.deliveries;
    assert Linked(r, s.max) && OnlyFailuresPending(r, s.max) && Timed(r, now) by {
      forall i | 0 <= i < |r| ensures LinkOk(r, s.max, i) && PendingOk(r[i], s.max) && TimedOk(r[i], now) {
        ClaimKeepsLink(s, batch, now, i);
      }
    }
    assert SingleChild(r) by {
      forall i, j | 0 <= i < j < |r| && r[i].auto && r[j].auto && r[i].parent.Some? ensures r[i].parent != r[j].parent {
        ClaimKeepsSingle(s, batch, now, i, j);
      }
    }
  }

  lemma StepKeepsChains(s: State, e: Event)
    requires ChainInv(s)
    ensures ChainInv(Step(s, e))
  {
    if Enabled(s, e) {
      match e
      case Claim(batch, now) => ClaimKeeps(s, batch, now);
      case Fire(w, event, data, now) =>
        AppendKeeps(s.deliveries, Fresh(w, event, data, true, now), s.max, s.now, now);
      case Test(w, event, data, now) =>
        AppendKeeps(s.deliveries, Fresh(w, event, data, false, now), s.max, s.now, now);
      case Redeliver(row, now) =>
        AppendKeeps(s.deliveries, Child(s.deliveries[row], row, false, now), s.max, s.now, now);
      case Post(id, now) =>
        PhaseKeeps(s.deliveries, id, s.deliveries[id].(phase := Flying, sentAt := now), s.max, s.now, now);
      case Lose(id) =>
        PhaseKeeps(s.deliveries, id, s.deliveries[id].(phase := Lost), s.max, s.now, s.now);
      case Finish(id, ok, now, draw, drop) =>
        DelayWithinJitter(s.deliveries[id].attempt, draw);
        PhaseKeeps(s.deliveries, id, Recorded(s, id, ok, now, draw), s.max, s.now, now);
      case _ =>
    }
  }

  lemma {:induction false} RunKeepsChains(s: State, es: seq<Event>)
    requires ChainInv(s)
    ensures ChainInv(Run(s, es))
    decreases |es|
  {
    if es != [] {
      StepKeepsChains(s, es[0]);
      RunKeepsChains(Step(s, es[0]), es[1..]);
    }
  }

  // ---- Claims -----------------------------------------------------------------

  lemma ClaimedStays(s: State, e: Event, id: nat)
    requires Claimed(s.deliveries, id)
    ensures Claimed(Step(s, e).deliveries, id)
  {
  }

  lemma {:induction false} ClaimedForever(s: State, es: seq<Event>, id: nat)
    requires Claimed(s.deliveries, id)
    ensures Claimed(Run(s, es).deliveries, id)
    decreases |es|
  {
    if es != [] {
      ClaimedStays(s, es[0], id);
      ClaimedForever(Step(s, es[0]), es[1..], id);
    }
  }

  /** Whatever happens between two sweeps, no row is claimed by both. */
  lemma NoDoubleClaim(s: State, first: seq<nat>, t1: int, between: seq<Event>, second: seq<nat>, t2: int)
    requires Enabled(s, Claim(first, t1))
    requires Enabled(Run(Step(s, Claim(first, t1)), between), Claim(second, t2))
    ensures forall id | id in first :: id !in second
  {
    var mid := Step(s, Claim(first, t1));
    var end := Run(mid, between);
    forall id | id in first ensures id !in second {
      var i :| 0 <= i < |first| && first[i] == id;
      assert Due(s, first[i], t1);
      assert Claimed(mid.deliveries, id);
      ClaimedForever(mid, between, id);
      forall j | 0 <= j < |second| ensures second[j] != id {
        assert Due(end, second[j], t2);
      }
    }
  }

  predicate Sent(ds: seq<Delivery>, id: nat) {
    id < |ds| && !ds[id].phase.Waiting?
  }

  lemma {:induction false} SentForever(s: State, es: seq<Event>, id: nat)
    requires Sent(s.deliveries, id)
    ensures Sent(Run(s, es).deliveries, id)
    decreases |es|
  {
    if es != [] {
      SentForever(Step(s, es[0]), es[1..], id);
    }
  }

  /** A delivery is posted at most once, so a bound on deliveries is a bound on posts. */
  lemma NoDoublePost(s: State, id: nat, t1: int, between: seq<Event>, t2: int)
    requires Enabled(s, Post(id, t1))
    ensures !Enabled(Run(Step(s, Post(id, t1)), between), Post(id, t2))
  {
    SentForever(Step(s, Post(id, t1)), between, id);
  }

  /**
    In every run, an automatic row's attempt is below MAX_RETRIES, a row waiting for a retry is
    an automatic failure that was not the last attempt, and a row has at most one automatic child.
   */
  lemma RowsInEveryRun(s: State, es: seq<Event>)
    requires Initial(s)
    ensures var s' := Run(s, es); var ds := s'.deliveries;
            && (forall r | r in s'.rows :: r < |ds| && ds[r].phase.Logged?)
            && (forall r | r in s'.rows && ds[r].auto :: ds[r].attempt < s.max)
            && (forall r | r in s'.rows && Pending(ds[r]) ::
                  ds[r].auto && !ds[r].phase.ok && ds[r].attempt < s.max - 1)
            && (forall i, j | 0 <= i < j < |ds| && ds[i].auto && ds[j].auto && ds[i].parent.Some? ::
                  ds[i].parent != ds[j].parent)
  {
    RunKeepsChains(s, es);
    RunKeepsMax(s, es);
    var ds := Run(s, es).deliveries;
    forall r | 0 <= r < |ds| ensures ds[r].auto ==> ds[r].attempt < s.max {
      assert LinkOk(ds, s.max, r);
    }
    forall r | 0 <= r < |ds| && Pending(ds[r]) ensures ds[r].auto && !ds[r].phase.ok && ds[r].attempt < s.max - 1 {
      assert PendingOk(ds[r], s.max);
    }
  }

  // ---- Attempt numbers under manual redelivery --------------------------------

  predicate BelowMax(s: State) {
    forall i | 0 <= i < |s.deliveries| :: s.deliveries[i].attempt < s.max
  }

  /** The check the redelivery endpoint does not make: only a row with an attempt to spare is resent. */
  predicate Guarded(s: State, e: Event) {
    Enabled(s, e) && e.Redeliver? ==> s.deliveries[e.row].attempt < s.max - 1
  }

  predicate GuardedRun(s: State, es: seq<Event>)
    decreases |es|
  {
    es == [] || (Guarded(s, es[0]) && GuardedRun(Step(s, es[0]), es[1..]))
  }

  lemma ClaimStaysBelow(s: State, batch: seq<nat>, now: int)
    requires ChainInv(s) && BelowMax(s) && Enabled(s, Claim(batch, now))
    ensures BelowMax(Step(s, Claim(batch, now)))
  {
    var n, ds := |s.deliveries|, Step(s, Claim(batch, now)).deliveries;
    forall i | 0 <= i < |ds| ensures ds[i].attempt < s.max {
      if i >= n {
        assert Due(s, batch[i - n], now) && PendingOk(s.deliveries[batch[i - n]], s.max);
      }
    }
  }

  /** A step keeps every attempt below MAX_RETRIES exactly when it is guarded. */
  lemma BelowMaxStep(s: State, e: Event)
    requires ChainInv(s) && BelowMax(s)
    ensures BelowMax(Step(s, e)) <==> Guarded(s, e)
  {
    hide Prunes, ChainInv, ClearBatch, Children;
    if Enabled(s, e) {
      if e.Claim? {
        ClaimStaysBelow(s, e.batch, e.now);
      } else if e.Redeliver? {
        var ds := Step(s, e).deliveries;
        assert ds[|s.deliveries|].attempt == s.deliveries[e.row].attempt + 1;
      }
    }
  }

  lemma {:induction false} AboveMaxForever(s: State, es: seq<Event>)
    requires !BelowMax(s)
    ensures !BelowMax(Run(s, es))
    decreases |es|
  {
    if es != [] {
      var i :| 0 <= i < |s.deliveries| && s.deliveries[i].attempt >= s.max;
      AttemptStays(s, es[0], i);
      AboveMaxForever(Step(s, es[0]), es[1..]);
    }
  }

  lemma AttemptStays(s: State, e: Event, i: nat)
    requires i < |s.deliveries|
    ensures i < |Step(s, e).deliveries| && Step(s, e).deliveries[i].attempt == s.deliveries[i].attempt
    ensures Step(s, e).max == s.max
  {
  }

  lemma {:induction false} BelowMaxRun(s: State, es: seq<Event>)
    requires ChainInv(s) && BelowMax(s)
    ensures BelowMax(Run(s, es)) <==> GuardedRun(s, es)
    decreases |es|
  {
    if es != [] {
      BelowMaxStep(s, es[0]);
      if Guarded(s, es[0]) {
        StepKeepsChains(s, es[0]);
        BelowMaxRun(Step(s, es[0]), es[1..]);
      } else {
        AboveMaxForever(Step(s, es[0]), es[1..]);
      }
    }
  }

  /**
    In every run all attempts, manual ones included, stay below MAX_RETRIES if and only if every
    manual redelivery of the run meets a row whose attempt is below MAX_RETRIES - 1.
   */
  lemma BelowMaxExactly(s: State, es: seq<Event>)
    requires Initial(s)
    ensures BelowMax(Run(s, es)) <==> GuardedRun(s, es)
  {
    BelowMaxRun(s, es);
  }

  lemma {:induction false} RunConcat(s: State, a: seq<Event>, b: seq<Event>)
    ensures Run(s, a + b) == Run(Run(s, a), b)
    decreases |a|
  {
    if a == [] {
      assert a + b == b;
    } else {
      assert (a + b)[1..] == a[1..] + b;
      RunConcat(Step(s, a[0]), a[1..], b);
    }
  }

  /** The newest row can always be spared by the pruning. */
  lemma {:induction false} PruneSparing(ds: seq<Delivery>, own: set<nat>, id: nat) returns (drop: set<nat>)
    requires id in own && forall k | k in own :: LoggedAt(ds, k) <= LoggedAt(ds, id)
    ensures Prunes(ds, own, drop) && id !in drop
    decreases |own|
  {
    if |own| <= 200 {
      drop := {};
      assert own - drop == own;
    } else {
      assert own - {id} != {} by {
        assert |own - {id}| == |own| - 1;
      }
      var o := OldestExists(ds, own - {id});
      var rest := PruneSparing(ds, own - {o}, id);
      drop := rest + {o};
      assert own - drop == own - {o} - rest;
    }
  }

  /** Posting the newest delivery and recording its failure can leave its row in the table. */
  lemma RecordNewest(s: State, id: nat) returns (drop: set<nat>)
    requires ChainInv(s) && |s.deliveries| == id + 1 && s.deliveries[id].phase.Waiting?
    requires s.deliveries[id].webhook in s.webhooks && !s.deliveries[id].auto
    ensures var es := [Post(id, s.now), Finish(id, false, s.now, 0.0, drop)];
            var r, d := Run(s, es), s.deliveries[id];
            && ChainInv(r) && r.webhooks == s.webhooks && |r.deliveries| == id + 1 && id in r.rows
            && r.deliveries[id].attempt == d.attempt && r.deliveries[id].webhook == d.webhook && !r.deliveries[id].auto
  {
    hide Linked, OnlyFailuresPending, SingleChild, Prunes;
    var post := Post(id, s.now);
    var flying := Step(s, post);
    StepKeepsChains(s, post);
    var ds := flying.deliveries[id := Recorded(flying, id, false, s.now, 0.0)];
    var own := RowsOf(ds, flying.rows + {id}, s.deliveries[id].webhook);
    forall k | k in own ensures LoggedAt(ds, k) <= LoggedAt(ds, id) {
      assert TimedOk(flying.deliveries[k], s.now);
    }
    drop := PruneSparing(ds, own, id);
    var finish := Finish(id, false, s.now, 0.0, drop);
    StepKeepsChains(flying, finish);
    var end := Step(flying, finish);
    assert end.webhooks == s.webhooks;
    assert [post, finish][1..] == [finish] && [finish][1..] == [];
    assert Run(end, []) == end && Run(flying, [finish]) == end;
  }

  /** Redelivering the latest row again and again records attempt number n, for every n. */
  lemma {:induction false} RedeliveryChain(s: State, w: int, n: nat) returns (es: seq<Event>)
    requires Initial(s) && w in s.webhooks
    ensures var r := Run(s, es);
            && ChainInv(r) && r.webhooks == s.webhooks && |r.deliveries| == n + 1 && n in r.rows
            && r.deliveries[n].attempt == n && r.deliveries[n].webhook == w && !r.deliveries[n].auto
  {
    hide ChainInv, Prunes;
    var before, launch := s, Test(w, "x", Absent, s.now);
    es := [];
    if n > 0 {
      es := RedeliveryChain(s, w, n - 1);
      before := Run(s, es);
      launch := Redeliver(n - 1, before.now);
    } else {
      InitialChains(s);
    }
    var launched := Step(before, launch);
    StepKeepsChains(before, launch);
    var drop := RecordNewest(launched, n);
    var finish := [Post(n, launched.now), Finish(n, false, launched.now, 0.0, drop)];
    assert ([launch] + finish)[1..] == finish;
    RunConcat(s, es, [launch] + finish);
    es := es + ([launch] + finish);
  }

  lemma InitialChains(s: State)
    requires Initial(s)
    ensures ChainInv(s) && BelowMax(s)
  {
  }

  /** Whatever MAX_RETRIES is, some run records a row with that very attempt number. */
  lemma ManualRedeliveryReachesMax(s: State, w: int)
    requires Initial(s) && w in s.webhooks
    ensures exists es, id :: id in Run(s, es).rows && id < |Run(s, es).deliveries|
                     && Run(s, es).deliveries[id].attempt == s.max
  {
    var es := RedeliveryChain(s, w, s.max);
    assert s.max in Run(s, es).rows;
  }

  // ---- Chains -----------------------------------------------------------------

  /** The delivery's ancestors, oldest first, and the delivery itself. */
  ghost function Chain(ds: seq<Delivery>, max: Positive, i: nat): (c: seq<nat>)
    requires Linked(ds, max) && i < |ds| && ds[i].auto
    decreases i
  {
    assert LinkOk(ds, max, i);
    if ds[i].parent.None? then [i] else Chain(ds, max, ds[i].parent.value) + [i]
  }

  ghost function Root(ds: seq<Delivery>, max: Positive, i: nat): (root: nat)
    requires Linked(ds, max) && i < |ds| && ds[i].auto
    ensures root <= i && ds[root].auto && ds[root].parent.None?
    decreases i
  {
    assert LinkOk(ds, max, i);
    if ds[i].parent.None? then i else Root(ds, max, ds[i].parent.value)
  }

  function SumMinDelay(attempts: nat): int {
    if attempts == 0 then 0 else SumMinDelay(attempts - 1) + MinDelay(attempts - 1)
  }

  predicate SamePayload(ds: seq<Delivery>, root: nat, i: nat)
    requires root < |ds| && i < |ds|
  {
    ds[root].data != Absent ==> ds[i].data == ds[root].data
  }

  /**
    Attempt k of an event has exactly k ancestors, numbered k-1 down to 0, all recorded as failed
    for the same webhook, event and (non-null) payload; and it was claimed no sooner than the sum
    of the shortest delays after the first failure was recorded.
   */
  lemma {:induction false} ChainShape(ds: seq<Delivery>, max: Positive, i: nat)
    requires Linked(ds, max) && i < |ds| && ds[i].auto
    ensures var c, root := Chain(ds, max, i), Root(ds, max, i);
            && |c| == ds[i].attempt + 1 && c[0] == root && c[|c| - 1] == i
            && (forall k | 0 <= k < |c| :: c[k] < |ds| && ds[c[k]].auto && ds[c[k]].attempt == k
                                       && ds[c[k]].webhook == ds[i].webhook && ds[c[k]].event == ds[i].event)
            && (forall k | 0 <= k < |c| - 1 :: c[k] < c[k + 1] && ds[c[k + 1]].parent == Some(c[k])
                                           && ds[c[k]].phase.Logged? && !ds[c[k]].phase.ok)
            && SamePayload(ds, root, i)
    decreases i
  {
    assert LinkOk(ds, max, i);
    if ds[i].parent.Some? {
      ChainShape(ds, max, ds[i].parent.value);
    }
  }

  /** Attempt k is claimed no sooner than the k shortest delays after the first failure was recorded. */
  lemma {:induction false} ChainTiming(ds: seq<Delivery>, max: Positive, now: int, i: nat)
    requires Linked(ds, max) && Timed(ds, now) && i < |ds| && ds[i].auto
    ensures ds[i].attempt > 0 ==>
              var root := ds[Root(ds, max, i)];
              root.phase.Logged? && root.phase.at + SumMinDelay(ds[i].attempt) <= ds[i].born
    decreases i
  {
    ChainShape(ds, max, i);
    assert LinkOk(ds, max, i);
    if ds[i].parent.Some? {
      var p := ds[i].parent.value;
      ChainTiming(ds, max, now, p);
      ChainShape(ds, max, p);
      assert TimedOk(ds[p], now);
    }
  }

  /** With five attempts the last one is claimed at least 7464 seconds after the first failure. */
  lemma FinalAttemptDelay(s: State, es: seq<Event>, i: nat)
    requires Initial(s) && s.max == 5
    requires i < |Run(s, es).deliveries|
    requires var d := Run(s, es).deliveries[i]; d.auto && d.attempt == 4
    ensures var ds := Run(s, es).deliveries;
            exists root | 0 <= root < i ::
              && ds[root].auto && ds[root].attempt == 0 && ds[root].webhook == ds[i].webhook
              && ds[root].event == ds[i].event && ds[root].phase.Logged? && !ds[root].phase.ok
              && ds[root].phase.at + 7464 <= ds[i].born
  {
    RunKeepsChains(s, es);
    var s' := Run(s, es);
    RunKeepsMax(s, es);
    var c := Chain(s'.deliveries, s'.max, i);
    ChainShape(s'.deliveries, s'.max, i);
    ChainTiming(s'.deliveries, s'.max, s'.now, i);
    assert SumMinDelay(4) == 7464 by {
      assert SumMinDelay(1) == 24 && SumMinDelay(2) == 264 && SumMinDelay(3) == 1704;
    }
    assert c[0] < c[1] < c[2] < c[3] < c[4] == i;
  }

  lemma {:induction false} RunKeepsMax(s: State, es: seq<Event>)
    ensures Run(s, es).max == s.max
    decreases |es|
  {
    if es != [] {
      RunKeepsMax(Step(s, es[0]), es[1..]);
    }
  }

  // ---- One event, at most MAX_RETRIES deliveries ------------------------------

  lemma {:induction false} SameRootSameAttempt(ds: seq<Delivery>, max: Positive, i: nat, j: nat)
    requires Linked(ds, max) && SingleChild(ds)
    requires i < |ds| && j < |ds| && ds[i].auto && ds[j].auto
    requires Root(ds, max, i) == Root(ds, max, j) && ds[i].attempt == ds[j].attempt
    ensures i == j
    decreases i
  {
    assert LinkOk(ds, max, i) && LinkOk(ds, max, j);
    if ds[i].parent.Some? {
      SameRootSameAttempt(ds, max, ds[i].parent.value, ds[j].parent.value);
    }
  }

  ghost function EventDeliveries(ds: seq<Delivery>, max: Positive, root: nat, below: nat): (r: set<nat>)
    requires Linked(ds, max)
  {
    set i: nat | i < |ds| && ds[i].auto && Root(ds, max, i) == root && ds[i].attempt < below
  }

  lemma {:induction false} EventDeliveriesBound(ds: seq<Delivery>, max: Positive, root: nat, below: nat)
    requires Linked(ds, max) && SingleChild(ds)
    ensures |EventDeliveries(ds, max, root, below)| <= below
  {
    var all := EventDeliveries(ds, max, root, below);
    if below == 0 {
      assert all == {};
    } else {
      var fewer := EventDeliveries(ds, max, root, below - 1);
      EventDeliveriesBound(ds, max, root, below - 1);
      if i :| i in all && ds[i].attempt == below - 1 {
        forall j | j in all && j != i ensures j in fewer {
          if ds[j].attempt == below - 1 {
            SameRootSameAttempt(ds, max, i, j);
          }
        }
        assert all == fewer + {i};
      } else {
        assert all == fewer;
      }
    }
  }

  /** All automatic deliveries that go back to one event at one webhook. */
  ghost function CausedBy(ds: seq<Delivery>, max: Positive, root: nat): (r: set<nat>)
    requires Linked(ds, max)
  {
    set i: nat | i < |ds| && ds[i].auto && Root(ds, max, i) == root
  }

  /** One event causes at most MAX_RETRIES automatic deliveries to a webhook, in any run. */
  lemma AtMostMaxDeliveriesPerEvent(s: State, es: seq<Event>, root: nat)
    requires Initial(s)
    ensures Linked(Run(s, es).deliveries, s.max)
    ensures |CausedBy(Run(s, es).deliveries, s.max, root)| <= s.max
  {
    RunKeepsChains(s, es);
    RunKeepsMax(s, es);
    var ds := Run(s, es).deliveries;
    EventDeliveriesBound(ds, s.max, root, s.max);
    forall i | i in CausedBy(ds, s.max, root) ensures i in EventDeliveries(ds, s.max, root, s.max) {
      AttemptBelow(ds, s.max, i);
    }
    assert CausedBy(ds, s.max, root) == EventDeliveries(ds, s.max, root, s.max);
  }

  /** The fired events: automatic deliveries without a parent. */
  function Fired(ds: seq<Delivery>): set<nat> {
    set i: nat | i < |ds| && ds[i].auto && ds[i].parent.None?
  }

  ghost function CausedByAny(ds: seq<Delivery>, max: Positive, roots: set<nat>): (r: set<nat>)
    requires Linked(ds, max)
  {
    set i: nat | i < |ds| && ds[i].auto && Root(ds, max, i) in roots
  }

  lemma CausedBySplit(ds: seq<Delivery>, max: Positive, roots: set<nat>, root: nat)
    requires Linked(ds, max) && root in roots
    ensures CausedByAny(ds, max, roots) ==
            CausedByAny(ds, max, roots - {root}) + EventDeliveries(ds, max, root, max)
  {
    hide Root, LinkOk;
    forall i: nat | i < |ds| && ds[i].auto ensures ds[i].attempt < max {
      AttemptBelow(ds, max, i);
    }
  }

  lemma AttemptBelow(ds: seq<Delivery>, max: Positive, i: nat)
    requires Linked(ds, max) && i < |ds| && ds[i].auto
    ensures ds[i].attempt < max
  {
    assert LinkOk(ds, max, i);
  }

  lemma CausedByNone(ds: seq<Delivery>, max: Positive)
    requires Linked(ds, max)
    ensures CausedByAny(ds, max, {}) == {}
  {
  }

  lemma Distribute(n: nat, max: int)
    ensures (n + 1) * max == n * max + max
  {
  }

  lemma {:induction false} CausedByAnyBound(ds: seq<Delivery>, max: Positive, roots: set<nat>)
    requires Linked(ds, max) && SingleChild(ds)
    ensures |CausedByAny(ds, max, roots)| <= |roots| * max
    decreases |roots|
  {
    hide Linked, SingleChild, EventDeliveries, CausedByAny;
    if roots == {} {
      CausedByNone(ds, max);
    } else {
      var root :| root in roots;
      var rest := roots - {root};
      CausedByAnyBound(ds, max, rest);
      EventDeliveriesBound(ds, max, root, max);
      CausedBySplit(ds, max, roots, root);
      assert |roots| == |rest| + 1;
      Distribute(|rest|, max);
    }
  }

  /**
    Retrying terminates: in every run the automatic deliveries number at most MAX_RETRIES times
    the events fired at a webhook, so without new events only finitely many more are made.
   */
  lemma RetriesTerminate(s: State, es: seq<Event>)
    requires Initial(s)
    ensures var ds := Run(s, es).deliveries;
            |set i: nat | i < |ds| && ds[i].auto| <= |Fired(ds)| * s.max
  {
    RunKeepsChains(s, es);
    RunKeepsMax(s, es);
    var ds := Run(s, es).deliveries;
    CausedByAnyBound(ds, s.max, Fired(ds));
    assert (set i: nat | i < |ds| && ds[i].auto) == CausedByAny(ds, s.max, Fired(ds));
  }

  // ---- The circuit breaker ----------------------------------------------------

  /** The failed deliveries of a webhook since its last success or circuit reset. */
  function Streak(log: seq<Entry>, webhook: int): seq<nat> {
    if log == [] then []
    else
      var before, last := Streak(log[..|log| - 1], webhook), log[|log| - 1];
      if last.webhook != webhook then before
      else if last.CircuitReset? || last.ok then []
      else before + [last.id]
  }

  /** The results of a webhook's retryable deliveries since its last circuit reset. */
  function Results(log: seq<Entry>, webhook: int): seq<bool> {
    if log == [] then []
    else
      var before, last := Results(log[..|log| - 1], webhook), log[|log| - 1];
      if last.webhook != webhook then before
      else if last.CircuitReset? then []
      else before + [last.ok]
  }

  lemma {:induction false} StreakIsTrailingFailures(log: seq<Entry>, webhook: int)
    ensures var r, n := Results(log, webhook), |Streak(log, webhook)|;
            && n <= |r|
            && (forall i | |r| - n <= i < |r| :: !r[i])
            && (n < |r| ==> r[|r| - n - 1])
  {
    if log != [] {
      StreakIsTrailingFailures(log[..|log| - 1], webhook);
    }
  }

  predicate CountersExact(s: State) {
    forall w | w in s.webhooks :: s.webhooks[w].failures == |Streak(s.log, w)|
  }

  predicate StreakMember(s: State, w: int, id: nat) {
    && id < |s.deliveries| && s.deliveries[id].auto && s.deliveries[id].webhook == w
    && s.deliveries[id].phase.Logged? && !s.deliveries[id].phase.ok
  }

  ghost predicate StreaksRecorded(s: State) {
    forall w :: Distinct(Streak(s.log, w)) && forall id | id in Streak(s.log, w) :: StreakMember(s, w, id)
  }

  /** A failed retry follows its parent's failure, so it is in every streak that contains the parent. */
  predicate FailureFollows(s: State, c: nat)
    requires c < |s.deliveries|
  {
    var d := s.deliveries[c];
    d.auto && d.phase.Logged? && !d.phase.ok && d.parent.Some? && d.parent.value in Streak(s.log, d.webhook) ==>
      c in Streak(s.log, d.webhook)
  }

  predicate StreaksClosed(s: State) {
    forall c | 0 <= c < |s.deliveries| :: FailureFollows(s, c)
  }

  ghost predicate BreakerInv(s: State) {
    ChainInv(s) && CountersExact(s) && StreaksRecorded(s) && StreaksClosed(s)
  }

  lemma StreakAppend(log: seq<Entry>, entry: Entry, w: int)
    ensures Streak(log + [entry], w) ==
            (if entry.webhook != w then Streak(log, w)
             else if entry.CircuitReset? || entry.ok then [] else Streak(log, w) + [entry.id])
  {
    assert (log + [entry])[..|log|] == log;
  }

  lemma FinishKeepsStreaks(s: State, id: nat, ok: bool, now: int, draw: real, drop: set<nat>, w: int)
    requires StreaksRecorded(s) && CanFinish(s, id, ok, now, draw, drop)
    ensures var s' := Step(s, Finish(id, ok, now, draw, drop));
            Distinct(Streak(s'.log, w)) && forall m | m in Streak(s'.log, w) :: StreakMember(s', w, m)
  {
    hide Prunes, Breaker, Streak;
    var d := s.deliveries[id];
    StreakAppend(s.log, Outcome(d.webhook, id, ok), w);
    var before, after := Streak(s.log, w), Streak(Step(s, Finish(id, ok, now, draw, drop)).log, w);
    assert forall m | m in before :: StreakMember(s, w, m);
    assert Distinct(before) && id !in before;
    forall i, j | 0 <= i < j < |after| ensures after[i] != after[j] {
      assert before[i] in before;
    }
  }

  lemma FinishKeepsClosed(s: State, id: nat, ok: bool, now: int, draw: real, drop: set<nat>, c: nat)
    requires Linked(s.deliveries, s.max) && StreaksRecorded(s) && StreaksClosed(s)
    requires CanFinish(s, id, ok, now, draw, drop) && c < |s.deliveries|
    ensures FailureFollows(Step(s, Finish(id, ok, now, draw, drop)), c)
  {
    var d := s.deliveries[id];
    var w := s.deliveries[c].webhook;
    StreakAppend(s.log, Outcome(d.webhook, id, ok), w);
    assert FailureFollows(s, c) && LinkOk(s.deliveries, s.max, c);
    assert c == id || s.deliveries[c].parent != Some(id) || !s.deliveries[c].auto;
  }

  lemma FinishKeepsBreaker(s: State, id: nat, ok: bool, now: int, draw: real, drop: set<nat>)
    requires BreakerInv(s) && CanFinish(s, id, ok, now, draw, drop)
    ensures BreakerInv(Step(s, Finish(id, ok, now, draw, drop)))
  {
    var s' := Step(s, Finish(id, ok, now, draw, drop));
    StepKeepsChains(s, Finish(id, ok, now, draw, drop));
    forall w ensures Distinct(Streak(s'.log, w)) && forall m | m in Streak(s'.log, w) :: StreakMember(s', w, m) {
      FinishKeepsStreaks(s, id, ok, now, draw, drop, w);
    }
    forall c | 0 <= c < |s'.deliveries| ensures FailureFollows(s', c) {
      FinishKeepsClosed(s, id, ok, now, draw, drop, c);
    }
    forall w | w in s'.webhooks ensures s'.webhooks[w].failures == |Streak(s'.log, w)| {
      StreakAppend(s.log, Outcome(s.deliveries[id].webhook, id, ok), w);
    }
  }

  lemma StepKeepsBreaker(s: State, e: Event)
    requires BreakerInv(s)
    ensures BreakerInv(Step(s, e))
  {
    if Enabled(s, e) {
      StepKeepsChains(s, e);
      var s' := Step(s, e);
      if e.Finish? {
        FinishKeepsBreaker(s, e.id, e.ok, e.now, e.draw, e.drop);
      } else {
        assert e.ResetCircuit? ==> s'.log[..|s'.log| - 1] == s.log;
        forall w ensures Distinct(Streak(s'.log, w)) && forall m | m in Streak(s'.log, w) :: StreakMember(s', w, m) {
          assert Distinct(Streak(s.log, w)) && forall m | m in Streak(s.log, w) :: StreakMember(s, w, m);
        }
        forall c | 0 <= c < |s'.deliveries| ensures FailureFollows(s', c) {
          if c < |s.deliveries| {
            assert FailureFollows(s, c);
          }
        }
      }
    }
  }

  lemma {:induction false} RunKeepsBreaker(s: State, es: seq<Event>)
    requires BreakerInv(s)
    ensures BreakerInv(Run(s, es))
    decreases |es|
  {
    if es != [] {
      StepKeepsBreaker(s, es[0]);
      RunKeepsBreaker(Step(s, es[0]), es[1..]);
    }
  }

  /**
    In every run, consecutive_failures is the number of retryable failures at the end of the
    webhook's results: that many results are failures, and the one before them is a success.
   */
  lemma FailureCounterExact(s: State, es: seq<Event>, w: int)
    requires Initial(s) && w in Run(s, es).webhooks
    ensures var s' := Run(s, es); var r, n := Results(s'.log, w), s'.webhooks[w].failures;
            && n <= |r| && (forall i | |r| - n <= i < |r| :: !r[i]) && (n < |r| ==> r[|r| - n - 1])
  {
    RunKeepsBreaker(s, es);
    StreakIsTrailingFailures(Run(s, es).log, w);
  }

  predicate LastAllFailed(results: seq<bool>, n: nat) {
    n <= |results| && forall i | |results| - n <= i < |results| :: !results[i]
  }

  /**
    Recording a result disables an enabled webhook exactly when it is the failure of an automatic
    last attempt and the webhook's last MAX_RETRIES retryable results since a reset all failed.
   */
  lemma TripsExactly(s: State, e: Event)
    requires BreakerInv(s) && e.Finish? && Enabled(s, e)
    requires s.webhooks[s.deliveries[e.id].webhook].enabled
    ensures var d, s' := s.deliveries[e.id], Step(s, e);
            !s'.webhooks[d.webhook].enabled
            <==> (d.auto && !e.ok && d.attempt == s.max - 1 && LastAllFailed(Results(s'.log, d.webhook), s.max))
  {
    hide Prunes, RowsOf, Streak, Results;
    var s', w := Step(s, e), s.deliveries[e.id].webhook;
    StepKeepsBreaker(s, e);
    StreakIsTrailingFailures(s'.log, w);
    if s.deliveries[e.id].auto {
      AttemptBelow(s.deliveries, s.max, e.id);
    }
    var r, n := Results(s'.log, w), |Streak(s'.log, w)|;
    if n < s.max <= |r| {
      assert r[|r| - n - 1];
    }
  }

  lemma {:induction false} ChainInStreak(s: State, i: nat)
    requires BreakerInv(s) && i < |s.deliveries| && s.deliveries[i].auto
    requires s.deliveries[i].phase.Logged? && !s.deliveries[i].phase.ok
    requires Root(s.deliveries, s.max, i) in Streak(s.log, s.deliveries[i].webhook)
    ensures forall k | k in Chain(s.deliveries, s.max, i) :: k in Streak(s.log, s.deliveries[i].webhook)
    decreases i
  {
    assert LinkOk(s.deliveries, s.max, i);
    if s.deliveries[i].parent.Some? {
      ChainInStreak(s, s.deliveries[i].parent.value);
      assert FailureFollows(s, i);
      ChainShape(s.deliveries, s.max, s.deliveries[i].parent.value);
    }
  }

  lemma {:induction false} DistinctContained(a: seq<nat>, b: seq<nat>)
    requires Distinct(a) && forall x | x in a :: x in b
    ensures |a| <= |b|
  {
    if a != [] {
      var last, rest := a[|a| - 1], a[..|a| - 1];
      assert last in a;
      var k :| 0 <= k < |b| && b[k] == last;
      var b' := b[..k] + b[k + 1..];
      forall x | x in rest ensures x in b' {
        var i :| 0 <= i < |rest| && rest[i] == x;
        assert a[i] == x && x in a;
        var j :| 0 <= j < |b| && b[j] == x;
        assert b'[if j < k then j else j - 1] == x;
      }
      DistinctContained(rest, b');
    }
  }

  /** The webhook's failure was recorded, and neither a success nor a reset of it since. */
  predicate NoSuccessSince(log: seq<Entry>, webhook: int, id: nat) {
    exists k :: 0 <= k < |log| && log[k] == Outcome(webhook, id, false)
           && forall j | k < j < |log| && log[j].webhook == webhook :: log[j].Outcome? && !log[j].ok
  }

  lemma {:induction false} NoSuccessInStreak(log: seq<Entry>, webhook: int, id: nat)
    requires NoSuccessSince(log, webhook, id)
    ensures id in Streak(log, webhook)
  {
    var k :| 0 <= k < |log| && log[k] == Outcome(webhook, id, false)
          && forall j | k < j < |log| && log[j].webhook == webhook :: log[j].Outcome? && !log[j].ok;
    var rest := log[..|log| - 1];
    if k < |log| - 1 {
      assert rest[k] == log[k] && forall j | k < j < |rest| :: rest[j] == log[j];
      NoSuccessInStreak(rest, webhook, id);
    }
  }

  /**
    When the last attempt of an event fails and the webhook had neither a success nor a reset
    since the event's first failure, the breaker trips.
   */
  lemma MustTrip(s: State, e: Event)
    requires BreakerInv(s) && e.Finish? && Enabled(s, e) && !e.ok
    requires s.deliveries[e.id].auto && s.deliveries[e.id].attempt == s.max - 1
    requires s.max > 1 ==> NoSuccessSince(s.log, s.deliveries[e.id].webhook, Root(s.deliveries, s.max, e.id))
    ensures !Step(s, e).webhooks[s.deliveries[e.id].webhook].enabled
  {
    var ds, d := s.deliveries, s.deliveries[e.id];
    assert LinkOk(ds, s.max, e.id);
    if s.max > 1 {
      var p := d.parent.value;
      NoSuccessInStreak(s.log, d.webhook, Root(ds, s.max, e.id));
      ChainInStreak(s, p);
      ChainShape(ds, s.max, p);
      var c := Chain(ds, s.max, p);
      forall i, j | 0 <= i < j < |c| ensures c[i] != c[j] {
        assert ds[c[i]].attempt == i && ds[c[j]].attempt == j;
      }
      DistinctContained(c, Streak(s.log, d.webhook));
    }
  }

  predicate Reenables(e: Event, w: int) {
    (e.SetEnabled? && e.webhook == w) || (e.ResetCircuit? && e.webhook == w)
  }

  /** After a trip, until an administrator re-enables the webhook, nothing new is queued for it. */
  lemma {:induction false} DisabledStaysQuiet(s: State, es: seq<Event>, w: int)
    requires w in s.webhooks ==> !s.webhooks[w].enabled
    requires forall e | e in es :: !Reenables(e, w)
    ensures |s.deliveries| <= |Run(s, es).deliveries|
    ensures forall i | |s.deliveries| <= i < |Run(s, es).deliveries| && Run(s, es).deliveries[i].auto ::
              Run(s, es).deliveries[i].webhook != w
    decreases |es|
  {
    if es != [] {
      var s' := Step(s, es[0]);
      assert !Reenables(es[0], w);
      DisabledStaysQuiet(s', es[1..], w);
      QuietStep(s, es[0], w);
      ForeverSame(s', es[1..]);
    }
  }

  lemma QuietStep(s: State, e: Event, w: int)
    requires w in s.webhooks ==> !s.webhooks[w].enabled
    requires !Reenables(e, w)
    ensures var s' := Step(s, e);
            && |s.deliveries| <= |s'.deliveries|
            && (w in s'.webhooks ==> !s'.webhooks[w].enabled)
            && forall i | |s.deliveries| <= i < |s'.deliveries| && s'.deliveries[i].auto ::
                 s'.deliveries[i].webhook != w
  {
    if Enabled(s, e) && e.Claim? {
      forall i | 0 <= i < |e.batch| ensures s.deliveries[e.batch[i]].webhook != w {
        assert Due(s, e.batch[i], e.now);
      }
    }
  }

  lemma StepKeepsKind(s: State, e: Event)
    ensures |s.deliveries| <= |Step(s, e).deliveries|
    ensures forall i | 0 <= i < |s.deliveries| ::
              Step(s, e).deliveries[i].webhook == s.deliveries[i].webhook
              && Step(s, e).deliveries[i].auto == s.deliveries[i].auto
  {
  }

  /** A delivery keeps its webhook and its kind. */
  lemma {:induction false} ForeverSame(s: State, es: seq<Event>)
    ensures |s.deliveries| <= |Run(s, es).deliveries|
    ensures forall i | 0 <= i < |s.deliveries| ::
              Run(s, es).deliveries[i].webhook == s.deliveries[i].webhook
              && Run(s, es).deliveries[i].auto == s.deliveries[i].auto
    decreases |es|
  {
    if es != [] {
      StepKeepsKind(s, es[0]);
      ForeverSame(Step(s, es[0]), es[1..]);
    }
  }

  // ---- Selecting and pruning are never stuck ---------------------------------------------------------------

  lemma {:induction false} SelectDue(s: State, now: int, pool: set<nat>) returns (batch: seq<nat>)
    ensures |batch| <= 50 && Distinct(batch)
    ensures forall i | 0 <= i < |batch| :: batch[i] in pool && Due(s, batch[i], now)
    ensures |batch| < 50 ==> forall id | id in pool && Due(s, id, now) :: id in batch
    decreases |pool|
  {
    if pool == {} {
      batch := [];
    } else {
      var id :| id in pool;
      batch := SelectDue(s, now, pool - {id});
      if |batch| < 50 && Due(s, id, now) {
        batch := batch + [id];
      }
    }
  }

  /** A retry sweep is never stuck: some batch is what its query may return. */
  lemma BatchExists(s: State, now: int)
    ensures exists batch :: Batch(s, batch, now)
  {
    var batch := SelectDue(s, now, s.rows);
    assert Batch(s, batch, now);
  }

  lemma {:induction false} OldestExists(ds: seq<Delivery>, own: set<nat>) returns (o: nat)
    requires own != {}
    ensures o in own && forall k | k in own :: LoggedAt(ds, o) <= LoggedAt(ds, k)
    decreases |own|
  {
    o :| o in own;
    if own != {o} {
      var rest := OldestExists(ds, own - {o});
      if LoggedAt(ds, rest) < LoggedAt(ds, o) {
        o := rest;
      }
    }
  }

  /** Recording a delivery is never stuck: there is always something the pruning may delete. */
  lemma {:induction false} PruneExists(ds: seq<Delivery>, own: set<nat>)
    ensures exists drop :: Prunes(ds, own, drop)
    decreases |own|
  {
    if |own| <= 200 {
      assert own - {} == own;
      assert Prunes(ds, own, {});
    } else {
      var o := OldestExists(ds, own);
      PruneExists(ds, own - {o});
      var drop :| Prunes(ds, own - {o}, drop);
      assert own - (drop + {o}) == own - {o} - drop;
      assert Prunes(ds, own, drop + {o});
    }
  }

  /** Whatever the response, a delivery in flight to an existing webhook can be recorded. */
  lemma ResponseRecordable(s: State, id: nat, ok: bool, now: int, draw: real)
    requires id < |s.deliveries| && s.deliveries[id].phase.Flying? && s.deliveries[id].webhook in s.webhooks
    requires s.now <= now && 0.0 <= draw < 1.0
    ensures exists drop :: Enabled(s, Finish(id, ok, now, draw, drop))
  {
    var ds := s.deliveries[id := Recorded(s, id, ok, now, draw)];
    var own := RowsOf(ds, s.rows + {id}, s.deliveries[id].webhook);
    PruneExists(ds, own);
    var drop :| Prunes(ds, own, drop);
    assert Enabled(s, Finish(id, ok, now, draw, drop));
  }

  lemma StepKeepsRows(s: State, e: Event, w: int)
    requires TableOk(s) && w in Step(s, e).webhooks
    requires !e.Finish? || (Enabled(s, e) && w != s.deliveries[e.id].webhook)
    ensures RowsOf(Step(s, e).deliveries, Step(s, e).rows, w) == RowsOf(s.deliveries, s.rows, w)
  {
  }

  lemma FinishPrunesRows(s: State, e: Event)
    requires TableOk(s) && e.Finish? && Enabled(s, e)
    ensures |RowsOf(Step(s, e).deliveries, Step(s, e).rows, s.deliveries[e.id].webhook)| <= 200
  {
    var s', w := Step(s, e), s.deliveries[e.id].webhook;
    assert RowsOf(s'.deliveries, s'.rows, w) == RowsOf(s'.deliveries, s.rows + {e.id}, w) - e.drop;
  }

  lemma StepKeepsCap(s: State, e: Event)
    requires Capped(s) && TableOk(s)
    ensures Capped(Step(s, e))
  {
    if Enabled(s, e) {
      var s' := Step(s, e);
      forall w | w in s'.webhooks ensures |RowsOf(s'.deliveries, s'.rows, w)| <= 200 {
        if e.Finish? && w == s.deliveries[e.id].webhook {
          FinishPrunesRows(s, e);
        } else {
          StepKeepsRows(s, e, w);
        }
      }
    }
  }

  lemma {:induction false} RunKeepsCap(s: State, es: seq<Event>)
    requires ChainInv(s) && Capped(s)
    ensures Capped(Run(s, es))
    decreases |es|
  {
    if es != [] {
      StepKeepsCap(s, es[0]);
      StepKeepsChains(s, es[0]);
      RunKeepsCap(Step(s, es[0]), es[1..]);
    }
  }

  // ---- Retries do happen ------------------------------------------------------

  /**
    A failed attempt that was not the last is due again within 20% of its base delay, if its row
    survives pruning and the webhook stays enabled; then a sweep that is not full claims it.
   */
  lemma RetryIsClaimed(s: State, e: Event, between: seq<Event>, batch: seq<nat>, t: int)
    requires e.Finish? && Enabled(s, e) && !e.ok
    requires s.deliveries[e.id].auto && s.deliveries[e.id].attempt < s.max - 1
    requires var m := Run(Step(s, e), between);
             && e.id in m.rows && Enabled(m, Claim(batch, t)) && |batch| < 50
             && s.deliveries[e.id].webhook in m.webhooks && m.webhooks[s.deliveries[e.id].webhook].enabled
    requires forall k | 0 <= k < |between| :: !between[k].Claim?
    requires e.now + MaxDelay(s.deliveries[e.id].attempt) <= t
    ensures e.id in batch
    ensures var ds := Step(Run(Step(s, e), between), Claim(batch, t)).deliveries;
            exists c :: 0 <= c < |ds| && ds[c].auto && ds[c].parent == Some(e.id) && ds[c].phase.Waiting?
                   && ds[c].attempt == s.deliveries[e.id].attempt + 1 && ds[c].webhook == s.deliveries[e.id].webhook
  {
    hide Prunes;
    var d := Step(s, e).deliveries[e.id];
    var m := Run(Step(s, e), between);
    DelayWithinJitter(d.attempt, e.draw);
    LoggedStays(Step(s, e), between, e.id);
    assert Due(m, e.id, t);
    var k :| 0 <= k < |batch| && batch[k] == e.id;
    var ds := Step(m, Claim(batch, t)).deliveries;
    assert ds[|m.deliveries| + k] == Child(m.deliveries[e.id], e.id, true, t);
  }

  /** Nothing but a sweep changes a recorded delivery. */
  lemma {:induction false} LoggedStays(s: State, es: seq<Event>, id: nat)
    requires id < |s.deliveries| && s.deliveries[id].phase.Logged?
    requires forall k | 0 <= k < |es| :: !es[k].Claim?
    ensures id < |Run(s, es).deliveries| && Run(s, es).deliveries[id] == s.deliveries[id]
    decreases |es|
  {
    if es != [] {
      LoggedStays(Step(s, es[0]), es[1..], id);
    }
  }

  /** A webhook's results grow by exactly its automatic results, in order, and start anew on a reset. */
  lemma ResultsFollowEvents(s: State, e: Event, w: int)
    requires Enabled(s, e)
    ensures Results(Step(s, e).log, w) ==
            (if e.Finish? && s.deliveries[e.id].auto && s.deliveries[e.id].webhook == w then Results(s.log, w) + [e.ok]
             else if e.ResetCircuit? && e.webhook == w then [] else Results(s.log, w))
  {
    hide Prunes;
    var log := Step(s, e).log;
    assert log != s.log ==> log[..|log| - 1] == s.log;
  }

  /** Every run keeps the chain and breaker invariants, and at most 200 rows per webhook. */
  lemma EveryRun(s: State, es: seq<Event>)
    requires Initial(s)
    ensures BreakerInv(Run(s, es)) && Capped(Run(s, es))
  {
    forall w ensures RowsOf(s.deliveries, s.rows, w) == {} {}
    RunKeepsBreaker(s, es);
    RunKeepsCap(s, es);
  }

  // ---- The tables, updated in place -------------------------------------------

  /** The two tables and the code that changes them, statement by statement. */
  class RetryStore {
    const max: Positive
    var now: int
    var webhooks: map<int, Webhook>
    var deliveries: seq<Delivery>
    var rows: set<nat>
    ghost var log: seq<Entry>

    ghost function Snapshot(): State
      reads this
    {
      State(max, now, webhooks, deliveries, rows, log)
    }

    constructor (max: Positive, webhooks: map<int, Webhook>)
      ensures Snapshot() == State(max, 0, webhooks, [], {}, [])
    {
      this.max, this.webhooks := max, webhooks;
      now, deliveries, rows, log := 0, [], {}, [];
    }

    /** The second half of deliverWebhook: record the result, schedule or trip, prune. */
    method RecordResult(id: nat, ok: bool, time: int, draw: real, drop: set<nat>)
      requires CanFinish(Snapshot(), id, ok, time, draw, drop)
      modifies this
      ensures Snapshot() == Step(old(Snapshot()), Finish(id, ok, time, draw, drop))
    {
      hide Prunes, RowsOf, NextRetryDelay;
      var d := deliveries[id];
      var w := webhooks[d.webhook];
      now := time;
      deliveries := deliveries[id := d.(phase := Logged(ok, time, None))];
      rows := rows + {id};
      if d.auto {
        log := log + [Outcome(d.webhook, id, ok)];
        if ok {
          w := w.(failures := 0);
        } else {
          w := w.(failures := w.failures + 1);
          if d.attempt < max - 1 {
            var nextRetryAt := time + NextRetryDelay(d.attempt, draw);
            deliveries := deliveries[id := d.(phase := Logged(ok, time, Some(nextRetryAt)))];
          } else if w.failures >= max {
            w := w.(enabled := false);
          }
        }
      }
      webhooks := webhooks[d.webhook := w];
      rows := rows - drop;
    }

    /** The first half of processWebhookRetries: clear the selected rows, then queue their retries. */
    method ClaimDue(batch: seq<nat>, time: int)
      requires now <= time && Batch(Snapshot(), batch, time)
      modifies this
      ensures Snapshot() == Step(old(Snapshot()), Claim(batch, time))
    {
      ghost var before := deliveries;
      assert forall i | 0 <= i < |batch| :: Due(Snapshot(), batch[i], time);
      for k := 0 to |batch|
        invariant deliveries == ClearBatch(before, batch[..k])
        invariant now == old(now) && webhooks == old(webhooks) && rows == old(rows) && log == old(log)
      {
        deliveries := deliveries[batch[k] := Cleared(deliveries[batch[k]])];
        assert batch[..k + 1] == batch[..k] + [batch[k]];
      }
      assert batch[..|batch|] == batch;
      var cleared := deliveries;
      for k := 0 to |batch|
        invariant deliveries == cleared + Children(before, batch[..k], time)
        invariant now == old(now) && webhooks == old(webhooks) && rows == old(rows) && log == old(log)
      {
        deliveries := deliveries + [Child(cleared[batch[k]], batch[k], true, time)];
        assert batch[..k + 1] == batch[..k] + [batch[k]];
      }
      now := time;
    }
  }
}
