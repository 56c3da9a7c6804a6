/**
 `Gatekeeper.purge` and `doPurge` (`src/durable-object.ts`) as a protocol: any number of callers,
 the collapser, the account buckets, the upstream fetches, and bucket replacement, interleaved in
 every possible way.

 Bucket objects live in a list that only grows, because a running `doPurge` keeps the object it
 started with while a configuration change replaces the one new calls will use. `log` records the
 upstream fetches; the code has no such record.
 */
module PurgeProtocol {
  import opened Prelude
  import opened TokenBuckets
  import C = RequestCollapse

  datatype PurgeResult =
    PurgeResult(status: int, body: string, collapsed: bool, reachedUpstream: bool,
                remaining: int, secondsUntilRefill: Option<real>, bucketSize: real, rate: real)

  const DEFAULT_RETRY_AFTER_SEC := 5.0

  /** The `Retry-After` header: absent or empty, or a text as `Number(...)` reads it, such as a date. */
  datatype RetryAfter = Missing | Seconds(value: real) | NotANumber

  /** The wait that a 429 from upstream reports; None stands for NaN. */
  function ReportedWait(header: RetryAfter): Option<real> {
    match header
    case Missing => Some(DEFAULT_RETRY_AFTER_SEC)
    case Seconds(sec) => Some(sec)
    case NotANumber => None
  }

  datatype Request = Request(zoneId: string, bodyText: string, rateClass: RateClass, tokens: real)

  function CollapseKey(zoneId: string, bodyText: string): string {
    zoneId + ['\0'] + bodyText
  }

  const REFUSED_BODY := "Rate limit exceeded"
  const FAILED_BODY := "Upstream request failed"

  /** The 429 built here, without asking upstream. */
  function Refusal(b: BucketState, r: ConsumeResult): PurgeResult {
    PurgeResult(429, REFUSED_BODY, false, false, r.remaining, Some(r.retryAfterSec as real), b.bucketSize, b.rate)
  }

  function FetchFailed(b: BucketState, now: int): PurgeResult
    requires b.Valid()
  {
    PurgeResult(502, FAILED_BODY, false, false, Remaining(b, now), Some(SecondsUntilRefill(b, now) as real),
                b.bucketSize, b.rate)
  }

  /** What upstream said, once its body is read. */
  function Upstream(b: BucketState, status: int, body: string, header: RetryAfter, now: int): PurgeResult
    requires b.Valid()
  {
    if status == 429
    then PurgeResult(429, body, false, true, 0, ReportedWait(header), b.bucketSize, b.rate)
    else PurgeResult(status, body, false, true, Remaining(b, now), Some(SecondsUntilRefill(b, now) as real),
                     b.bucketSize, b.rate)
  }

  /** How far the `doPurge` of a flight has come, with the bucket object it holds. */
  datatype Task = Finished | Fetching(bucket: nat) | Reading(bucket: nat, status: int, header: RetryAfter)

  datatype Fetch = Fetch(bucket: nat, rateClass: RateClass, tokens: real, at: int, flight: nat, caller: nat)

  datatype World =
    World(c: C.State<PurgeResult>, requests: seq<Request>, tasks: seq<Task>,
          heap: seq<BucketState>, bulk: nat, single: nat, log: seq<Fetch>)
  {
    function Current(k: RateClass): nat {
      if k.Single? then single else bulk
    }

    /** The promise that `doPurge` returns: already resolved when the account bucket refuses. */
    function Begun(req: Request, now: int): C.Promise<PurgeResult>
      requires Current(req.rateClass) < |heap| && heap[Current(req.rateClass)].Valid()
    {
      var b := heap[Current(req.rateClass)];
      var r := ConsumeOutcome(b, Charge(req.tokens), now);
      if r.allowed then C.Pending else C.Resolved(Refusal(b, r))
    }
  }

  /** `Call` is a purge whose per-key check let it pass. */
  datatype Action =
    | Call(req: Request, flightId: string, now: int)
    | Responds(flight: nat, status: int, header: RetryAfter, now: int)
    | Reads(flight: nat, body: string, now: int)
    | ReadFails(flight: nat, now: int)
    | FetchFails(flight: nat, now: int)
    | Record(flight: nat, now: int)
    | Timer(flight: nat, now: int)
    | Resume(caller: nat, flightId: string, now: int)
    | Rpc(rateClass: RateClass, op: Op, now: int)
    | Rebuild(rateClass: RateClass, rate: real, bucketSize: real, now: int)

  function Init(graceMs: nat, bulk: BucketState, single: BucketState, now: int): World {
    World(C.Init(graceMs, now), [], [], [bulk, single], 0, 1, [])
  }

  /** Buckets are valid and their clocks are not ahead. */
  ghost predicate HeapOk(w: World) {
    && w.bulk < |w.heap| && w.single < |w.heap|
    && (forall b :: 0 <= b < |w.heap| ==> w.heap[b].Valid() && w.heap[b].lastRefill <= w.c.clock)
  }

  /** Each flight has its `doPurge`, which is finished exactly when the flight has settled. */
  ghost predicate TasksOk(w: World) {
    && |w.tasks| == |w.c.table.flights|
    && (forall f :: 0 <= f < |w.tasks| ==>
          && (w.tasks[f].Finished? <==> !w.c.table.flights[f].promise.Pending?)
          && (!w.tasks[f].Finished? ==> w.tasks[f].bucket < |w.heap|))
  }

  ghost predicate RequestsOk(w: World) {
    && |w.requests| == |w.c.callers|
    && (forall c :: 0 <= c < |w.requests| ==>
          w.c.callers[c].key == CollapseKey(w.requests[c].zoneId, w.requests[c].bodyText))
  }

  ghost predicate Shaped(w: World) {
    w.c.table.Valid() && HeapOk(w) && TasksOk(w) && RequestsOk(w)
  }

  /** The collapser step that a step of the whole amounts to. */
  ghost function CollapserStep(w: World, a: Action): C.Action<PurgeResult>
    requires Shaped(w)
  {
    match a
    case Call(req, id, now) => C.Arrive(CollapseKey(req.zoneId, req.bodyText), id, w.Begun(req, now), now)
    case Resume(c, id, now) => C.Resume(c, id, if c < |w.requests| then w.Begun(w.requests[c], now) else C.Pending, now)
    case FetchFails(f, now) =>
      C.Settle(f, if f < |w.tasks| && w.tasks[f].Fetching?
               then C.Resolved(FetchFailed(w.heap[w.tasks[f].bucket], now)) else C.Rejected, now)
    case Reads(f, body, now) =>
      C.Settle(f, if f < |w.tasks| && w.tasks[f].Reading?
                  then C.Resolved(Upstream(w.heap[w.tasks[f].bucket], w.tasks[f].status, body, w.tasks[f].header, now))
                  else C.Rejected, now)
    case ReadFails(f, now) => C.Settle(f, C.Rejected, now)
    case Record(f, now) => C.Record(f, now)
    case Timer(f, now) => C.Timer(f, now)
    case _ => C.Tick(a.now)
  }

  ghost predicate Enabled(w: World, a: Action)
    requires Shaped(w)
  {
    && C.Enabled(w.c, CollapserStep(w, a)) && C.OnTime(w.c, CollapserStep(w, a))
    && match a
       case Responds(f, _, _, _) => f < |w.tasks| && w.tasks[f].Fetching?
       case FetchFails(f, _) => f < |w.tasks| && w.tasks[f].Fetching?
       case Reads(f, _, _) => f < |w.tasks| && w.tasks[f].Reading?
       case ReadFails(f, _) => f < |w.tasks| && w.tasks[f].Reading?
       case Rebuild(_, rate, size, _) => rate > 0.0 && size > 0.0
       case _ => true
  }

  /** The caller that becomes a leader: a lookup that found nothing to share, or a failed follower. */
  ghost function Leader(w: World, a: Action): Option<nat>
    requires Shaped(w) && Enabled(w, a)
  {
    C.Creator(w.c, CollapserStep(w, a))
  }

  ghost function RequestOf(w: World, a: Action): Request
    requires Shaped(w) && Enabled(w, a) && Leader(w, a).Some?
  {
    if a.Call? then a.req else w.requests[a.caller]
  }

  /** What the step does to which bucket object. */
  ghost function BucketOp(w: World, a: Action): Option<(nat, Op)>
    requires Shaped(w) && Enabled(w, a)
  {
    if Leader(w, a).Some? then
      var req := RequestOf(w, a);
      Some((w.Current(req.rateClass), Consume(Charge(req.tokens))))
    else match a
      case Responds(f, status, _, _) => if status == 429 then Some((w.tasks[f].bucket, Drain)) else None
      case Reads(f, _, _) => if w.tasks[f].status == 429 then None else Some((w.tasks[f].bucket, GetRemaining))
      case FetchFails(f, _) => Some((w.tasks[f].bucket, GetRemaining))
      case Rpc(k, op, _) => Some((w.Current(k), op))
      case _ => None
  }

  /** The upstream fetch that the step starts: the account bucket must have granted it. */
  ghost function FetchStarted(w: World, a: Action): Option<Fetch>
    requires Shaped(w) && Enabled(w, a)
  {
    if Leader(w, a).Some? && w.Begun(RequestOf(w, a), a.now).Pending? then
      var req := RequestOf(w, a);
      Some(Fetch(w.Current(req.rateClass), req.rateClass, Charge(req.tokens), a.now, |w.tasks|, Leader(w, a).value))
    else None
  }

  ghost function NextHeap(w: World, a: Action): seq<BucketState>
    requires Shaped(w) && Enabled(w, a)
  {
    if a.Rebuild? then w.heap + [NewBucket(a.rate, a.bucketSize, a.now)]
    else match BucketOp(w, a)
      case Some((b, op)) => w.heap[b := Apply(w.heap[b], Event(op, a.now))]
      case None => w.heap
  }

  ghost function NextTasks(w: World, a: Action): seq<Task>
    requires Shaped(w) && Enabled(w, a)
  {
    if Leader(w, a).Some? then
      w.tasks + [if FetchStarted(w, a).Some? then Fetching(w.Current(RequestOf(w, a).rateClass)) else Finished]
    else match a
      case Responds(f, status, header, _) => w.tasks[f := Reading(w.tasks[f].bucket, status, header)]
      case Reads(f, _, _) => w.tasks[f := Finished]
      case ReadFails(f, _) => w.tasks[f := Finished]
      case FetchFails(f, _) => w.tasks[f := Finished]
      case _ => w.tasks
  }

  ghost function Next(w: World, a: Action): World
    requires Shaped(w) && Enabled(w, a)
  {
    World(
      C.Next(w.c, CollapserStep(w, a)),
      if a.Call? then w.requests + [a.req] else w.requests,
      NextTasks(w, a),
      NextHeap(w, a),
      if a.Rebuild? && a.rateClass.Bulk? then |w.heap| else w.bulk,
      if a.Rebuild? && a.rateClass.Single? then |w.heap| else w.single,
      if FetchStarted(w, a).Some? then w.log + [FetchStarted(w, a).value] else w.log)
  }

  // ---------------------------------------------------------------- what every step keeps

  lemma BucketOpInRange(w: World, a: Action)
    requires Shaped(w) && Enabled(w, a) && BucketOp(w, a).Some?
    ensures BucketOp(w, a).value.0 < |w.heap|
  {
  }

  lemma StepMovesClock(w: World, a: Action)
    requires Shaped(w) && Enabled(w, a)
    ensures w.c.clock <= a.now == Next(w, a).c.clock
  {
    hide C.Next;
    C.StepFlights(w.c, CollapserStep(w, a));
  }

  lemma StepKeepsHeapOk(w: World, a: Action)
    requires Shaped(w) && Enabled(w, a)
    ensures HeapOk(Next(w, a))
  {
    hide C.Next, CollapserStep, TasksOk, RequestsOk;
    StepMovesClock(w, a);
    if BucketOp(w, a).Some? {
      BucketOpInRange(w, a);
      var (b, op) := BucketOp(w, a).value;
      ApplyKeepsValid(w.heap[b], Event(op, a.now));
    }
  }

  lemma StepKeepsTasksOk(w: World, a: Action)
    requires Shaped(w) && Enabled(w, a)
    ensures TasksOk(Next(w, a))
  {
    hide C.Next;
    C.StepFlights(w.c, CollapserStep(w, a));
  }

  lemma StepKeepsRequestsOk(w: World, a: Action)
    requires Shaped(w) && Enabled(w, a)
    ensures RequestsOk(Next(w, a))
  {
    C.StepGrows(w.c, CollapserStep(w, a));
  }

  lemma StepKeepsShaped(w: World, a: Action)
    requires Shaped(w) && Enabled(w, a)
    ensures Shaped(Next(w, a))
  {
    C.StepKeepsValid(w.c, CollapserStep(w, a));
    StepKeepsHeapOk(w, a);
    StepKeepsTasksOk(w, a);
    StepKeepsRequestsOk(w, a);
  }

  // ---------------------------------------------------------------- the rate bound

  /** Tokens of the fetches charged to bucket `b` in [s, e]. */
  function Spent(log: seq<Fetch>, b: nat, s: int, e: int): real {
    if log == [] then 0.0
    else
      var last := log[|log| - 1];
      Spent(log[..|log| - 1], b, s, e) + if last.bucket == b && s <= last.at <= e then last.tokens else 0.0
  }

  lemma SpentAppend(log: seq<Fetch>, x: Fetch, b: nat, s: int, e: int)
    ensures Spent(log + [x], b, s, e) == Spent(log, b, s, e) + if x.bucket == b && s <= x.at <= e then x.tokens else 0.0
  {
    assert (log + [x])[..|log|] == log;
  }

  /** Charges to `b` are no later than `t`. */
  ghost predicate ChargedBy(log: seq<Fetch>, b: nat, t: int) {
    forall x <- log :: x.bucket == b ==> x.at <= t
  }

  lemma {:induction false} SpentBeyond(log: seq<Fetch>, b: nat, s: int, t: int, e: int)
    requires ChargedBy(log, b, t) && t <= e
    ensures Spent(log, b, s, e) == Spent(log, b, s, t)
    ensures t < s ==> Spent(log, b, s, e) == 0.0
  {
    if log != [] {
      assert log[|log| - 1] in log;
      SpentBeyond(log[..|log| - 1], b, s, t, e);
    }
  }

  /** The account of one bucket: what was charged to it since any `s`, and over any window. */
  ghost predicate Ledger(log: seq<Fetch>, b: nat, st: BucketState) {
    && ChargedBy(log, b, st.lastRefill)
    && (forall s :: s <= st.lastRefill ==>
          Spent(log, b, s, st.lastRefill) + st.tokens <= st.bucketSize + Gain(st.rate, st.lastRefill - s))
    && (forall s, e :: s <= e ==> Spent(log, b, s, e) <= st.bucketSize + Gain(st.rate, e - s))
  }

  lemma Since(log: seq<Fetch>, b: nat, st: BucketState, s: int)
    requires Ledger(log, b, st) && s <= st.lastRefill
    ensures Spent(log, b, s, st.lastRefill) + st.tokens <= st.bucketSize + Gain(st.rate, st.lastRefill - s)
  {
  }

  /** Whatever is done to the bucket, what it grants now is covered together with the past. */
  lemma OpCovered(log: seq<Fetch>, b: nat, st: BucketState, e: Event, s: int)
    requires st.Valid() && st.lastRefill <= e.now && Ledger(log, b, st) && s <= Apply(st, e).lastRefill
    ensures var st' := Apply(st, e);
            Spent(log, b, s, st'.lastRefill) + st'.tokens + (if Granted(st, e) then Charge(e.op.count) else 0.0)
            <= st.bucketSize + Gain(st.rate, st'.lastRefill - s)
  {
    var st' := Apply(st, e);
    BudgetStep(st, e);
    SpentBeyond(log, b, s, st.lastRefill, st'.lastRefill);
    if s <= st.lastRefill {
      Since(log, b, st, s);
      GainAdds(st.rate, st.lastRefill - s, st'.lastRefill - st.lastRefill);
    } else {
      RefillKeepsValid(st, e.now);
      GainNonNegative(st.rate, st'.lastRefill - s);
    }
  }

  lemma OpKeepsLedger(log: seq<Fetch>, b: nat, st: BucketState, e: Event)
    requires st.Valid() && st.lastRefill <= e.now && Ledger(log, b, st)
    ensures Ledger(log, b, Apply(st, e))
  {
    var st' := Apply(st, e);
    BudgetStep(st, e);
    ApplyKeepsValid(st, e);
    forall s | s <= st'.lastRefill
      ensures Spent(log, b, s, st'.lastRefill) + st'.tokens <= st'.bucketSize + Gain(st'.rate, st'.lastRefill - s)
    {
      OpCovered(log, b, st, e, s);
    }
  }

  lemma GrantKeepsLedger(log: seq<Fetch>, b: nat, st: BucketState, x: Fetch)
    requires st.Valid() && st.lastRefill <= x.at && Ledger(log, b, st)
    requires x.bucket == b && x.tokens > 0.0 && Granted(st, Event(Consume(x.tokens), x.at))
    ensures Ledger(log + [x], b, Consumed(st, x.tokens, x.at))
  {
    var e := Event(Consume(x.tokens), x.at);
    var st' := Apply(st, e);
    BudgetStep(st, e);
    ApplyKeepsValid(st, e);
    assert st'.lastRefill == x.at;
    forall s | s <= st'.lastRefill
      ensures Spent(log + [x], b, s, st'.lastRefill) + st'.tokens <= st'.bucketSize + Gain(st'.rate, st'.lastRefill - s)
    {
      OpCovered(log, b, st, e, s);
      SpentAppend(log, x, b, s, st'.lastRefill);
    }
    forall s, t | s <= t
      ensures Spent(log + [x], b, s, t) <= st'.bucketSize + Gain(st'.rate, t - s)
    {
      SpentAppend(log, x, b, s, t);
      if s <= x.at <= t {
        OpCovered(log, b, st, e, s);
        SpentBeyond(log, b, s, x.at, t);
        GainMonotone(st.rate, x.at - s, t - s);
      }
    }
  }

  lemma OtherGrantKeepsLedger(log: seq<Fetch>, b: nat, st: BucketState, x: Fetch)
    requires Ledger(log, b, st) && x.bucket != b
    ensures Ledger(log + [x], b, st)
  {
    forall s, e ensures Spent(log + [x], b, s, e) == Spent(log, b, s, e) {
      SpentAppend(log, x, b, s, e);
    }
  }

  lemma {:induction false} NothingSpent(log: seq<Fetch>, b: nat, s: int, e: int)
    requires forall x <- log :: x.bucket != b
    ensures Spent(log, b, s, e) == 0.0
  {
    if log != [] {
      assert log[|log| - 1] in log;
      NothingSpent(log[..|log| - 1], b, s, e);
    }
  }

  lemma FreshLedger(log: seq<Fetch>, b: nat, st: BucketState)
    requires st.Valid() && forall x <- log :: x.bucket != b
    ensures Ledger(log, b, st)
  {
    forall s, e ensures Spent(log, b, s, e) == 0.0 && (s <= e ==> 0.0 <= Gain(st.rate, e - s)) {
      NothingSpent(log, b, s, e);
      if s <= e { GainNonNegative(st.rate, e - s); }
    }
  }

  ghost predicate Ledgers(w: World) {
    && (forall x <- w.log :: x.bucket < |w.heap|)
    && (forall b :: 0 <= b < |w.heap| ==> Ledger(w.log, b, w.heap[b]))
  }

  lemma StepKeepsLedgers(w: World, a: Action)
    requires Shaped(w) && Ledgers(w) && Enabled(w, a)
    ensures Ledgers(Next(w, a))
  {
    var w' := Next(w, a);
    if a.Rebuild? {
      FreshLedger(w.log, |w.heap|, NewBucket(a.rate, a.bucketSize, a.now));
    } else if BucketOp(w, a).Some? {
      var (b, op) := BucketOp(w, a).value;
      OpKeepsLedger(w.log, b, w.heap[b], Event(op, a.now));
      if FetchStarted(w, a).Some? {
        var x := FetchStarted(w, a).value;
        GrantKeepsLedger(w.log, b, w.heap[b], x);
        forall i | 0 <= i < |w'.heap| && i != b ensures Ledger(w'.log, i, w'.heap[i]) {
          OtherGrantKeepsLedger(w.log, i, w.heap[i], x);
        }
      }
    }
  }

  // ---------------------------------------------------------------- runs

  ghost predicate Inv(w: World) {
    C.Inv(w.c) && Shaped(w) && Ledgers(w) && LogOk(w)
  }

  /** The fetch was made when its flight was created, by the flight's creator. */
  ghost predicate Logged(x: Fetch, flights: seq<C.Flight<PurgeResult>>) {
    x.flight < |flights| && flights[x.flight].creator == x.caller && flights[x.flight].createdAt == x.at
      && x.tokens > 0.0
  }

  /** Each fetch belongs to a flight of its own. */
  ghost predicate LogOk(w: World) {
    && (forall i :: 0 <= i < |w.log| ==> Logged(w.log[i], w.c.table.flights))
    && (forall i, j :: 0 <= i < j < |w.log| ==> w.log[i].flight < w.log[j].flight)
  }

  lemma LogStaysOk(w: World, w': World)
    requires LogOk(w) && C.Grown(w.c, w'.c)
    requires w'.log == w.log
      || (exists x :: w'.log == w.log + [x] && Logged(x, w'.c.table.flights) && x.flight == |w.c.table.flights|)
    ensures LogOk(w')
  {
    forall i | 0 <= i < |w.log| ensures Logged(w'.log[i], w'.c.table.flights) {
      assert Logged(w.log[i], w.c.table.flights);
    }
  }

  lemma StepKeepsLogOk(w: World, a: Action)
    requires Shaped(w) && LogOk(w) && Enabled(w, a)
    ensures LogOk(Next(w, a))
  {
    var w' := Next(w, a);
    assert C.Grown(w.c, w'.c) by { C.StepGrows(w.c, CollapserStep(w, a)); }
    if FetchStarted(w, a).Some? {
      var x := FetchStarted(w, a).value;
      assert Logged(x, w'.c.table.flights) && w'.log == w.log + [x] by {
        hide C.Next;
        C.StepFlights(w.c, CollapserStep(w, a));
      }
    }
    hide Shaped, Enabled, C.Next, CollapserStep;
    LogStaysOk(w, w');
  }

  lemma StepKeepsInv(w: World, a: Action)
    requires Inv(w) && Enabled(w, a)
    ensures Inv(Next(w, a))
  {
    C.StepKeepsInv(w.c, CollapserStep(w, a));
    StepKeepsShaped(w, a);
    StepKeepsLedgers(w, a);
    StepKeepsLogOk(w, a);
  }

  lemma InitHasInv(graceMs: nat, bulk: BucketState, single: BucketState, now: int)
    requires bulk.Valid() && single.Valid() && bulk.lastRefill <= now && single.lastRefill <= now
    ensures Inv(Init(graceMs, bulk, single, now))
  {
    FreshLedger([], 0, bulk);
    FreshLedger([], 1, single);
  }

  ghost predicate Runs(w: World, acts: seq<Action>)
    requires Inv(w)
    decreases |acts|
  {
    acts == [] || (Enabled(w, acts[0]) && (StepKeepsInv(w, acts[0]); Runs(Next(w, acts[0]), acts[1..])))
  }

  ghost function End(w: World, acts: seq<Action>): (w': World)
    requires Inv(w) && Runs(w, acts)
    ensures Inv(w')
    decreases |acts|
  {
    if acts == [] then w
    else
      StepKeepsInv(w, acts[0]);
      End(Next(w, acts[0]), acts[1..])
  }

  lemma {:induction false} RunsJoin(w: World, xs: seq<Action>, ys: seq<Action>)
    requires Inv(w) && Runs(w, xs) && Runs(End(w, xs), ys)
    ensures Runs(w, xs + ys) && End(w, xs + ys) == End(End(w, xs), ys)
    decreases |xs|
  {
    hide Inv, Next, Enabled;
    if xs == [] {
      assert xs + ys == ys;
    } else {
      InvIsShaped(w);
      StepKeepsInv(w, xs[0]);
      assert (xs + ys)[1..] == xs[1..] + ys;
      RunsJoin(Next(w, xs[0]), xs[1..], ys);
    }
  }

  lemma {:induction false} RunsSplit(w: World, xs: seq<Action>, ys: seq<Action>)
    requires Inv(w) && Runs(w, xs + ys)
    ensures Runs(w, xs) && Runs(End(w, xs), ys) && End(w, xs + ys) == End(End(w, xs), ys)
    decreases |xs|
  {
    hide Inv, Next, Enabled;
    if xs == [] {
      assert xs + ys == ys;
    } else {
      InvIsShaped(w);
      StepKeepsInv(w, xs[0]);
      assert (xs + ys)[1..] == xs[1..] + ys;
      RunsSplit(Next(w, xs[0]), xs[1..], ys);
    }
  }

  ghost function CollapserSteps(w: World, acts: seq<Action>): seq<C.Action<PurgeResult>>
    requires Inv(w) && Runs(w, acts)
    decreases |acts|
  {
    if acts == [] then []
    else
      StepKeepsInv(w, acts[0]);
      [CollapserStep(w, acts[0])] + CollapserSteps(Next(w, acts[0]), acts[1..])
  }

  /**
   Refinement: the collapser inside the gateway makes a run of the collapser alone, so everything
   proved about those runs holds here.
   */
  lemma {:induction false} GatewayRunsAreCollapserRuns(w: World, acts: seq<Action>)
    requires Inv(w) && Runs(w, acts)
    ensures C.Runs(w.c, CollapserSteps(w, acts)) && C.RunsOnTime(w.c, CollapserSteps(w, acts))
    ensures C.End(w.c, CollapserSteps(w, acts)) == End(w, acts).c
    decreases |acts|
  {
    if acts != [] {
      var a, w1 := acts[0], Next(w, acts[0]);
      StepKeepsInv(w, a);
      GatewayRunsAreCollapserRuns(w1, acts[1..]);
      C.RunsCons(w.c, CollapserStep(w, a), CollapserSteps(w1, acts[1..]));
    }
  }

  lemma StepKeepsParameters(w: World, a: Action, b: nat)
    requires Shaped(w) && Enabled(w, a) && b < |w.heap|
    ensures b < |Next(w, a).heap|
    ensures Next(w, a).heap[b].rate == w.heap[b].rate && Next(w, a).heap[b].bucketSize == w.heap[b].bucketSize
  {
  }

  lemma {:induction false} BucketsKeepTheirParameters(w: World, acts: seq<Action>, b: nat)
    requires Inv(w) && Runs(w, acts) && b < |w.heap|
    ensures b < |End(w, acts).heap|
    ensures End(w, acts).heap[b].rate == w.heap[b].rate && End(w, acts).heap[b].bucketSize == w.heap[b].bucketSize
    decreases |acts|
  {
    if acts != [] {
      StepKeepsInv(w, acts[0]);
      StepKeepsParameters(w, acts[0], b);
      BucketsKeepTheirParameters(Next(w, acts[0]), acts[1..], b);
    }
  }

  /** In every run, what is charged to one bucket object in any window is bounded. */
  lemma BucketObjectBound(w: World, acts: seq<Action>, b: nat, s: int, e: int)
    requires Inv(w) && Runs(w, acts) && b < |w.heap| && s <= e
    ensures Spent(End(w, acts).log, b, s, e) <= w.heap[b].bucketSize + Gain(w.heap[b].rate, e - s)
  {
    BucketsKeepTheirParameters(w, acts, b);
    assert Ledger(End(w, acts).log, b, End(w, acts).heap[b]);
  }

  /** Tokens of the fetches of class `k` in [s, e], leaving out the first `from` entries. */
  function ClassSpent(log: seq<Fetch>, from: nat, k: RateClass, s: int, e: int): real {
    if |log| <= from then 0.0
    else
      var last := log[|log| - 1];
      ClassSpent(log[..|log| - 1], from, k, s, e) + if last.rateClass == k && s <= last.at <= e then last.tokens
        else 0.0
  }

  ghost predicate Replaces(a: Action, k: RateClass) {
    a.Rebuild? && a.rateClass == k
  }

  /** The log only grows, and what class `k` adds is charged to the bucket it started with. */
  ghost predicate Extends(w: World, w': World, k: RateClass) {
    && |w.log| <= |w'.log| && w'.log[..|w.log|] == w.log
    && w'.Current(k) == w.Current(k)
    && (forall i :: |w.log| <= i < |w'.log| && w'.log[i].rateClass == k ==> w'.log[i].bucket == w.Current(k))
  }

  lemma StepExtends(w: World, a: Action, k: RateClass)
    requires Shaped(w) && Enabled(w, a) && !Replaces(a, k)
    ensures Extends(w, Next(w, a), k)
  {
  }

  lemma ExtendsComposes(w: World, w1: World, w2: World, k: RateClass)
    requires Extends(w, w1, k) && Extends(w1, w2, k)
    ensures Extends(w, w2, k)
  {
    forall i | 0 <= i < |w1.log| ensures w2.log[i] == w1.log[i] {
      assert w2.log[..|w1.log|][i] == w1.log[i];
    }
    assert w2.log[..|w.log|] == w2.log[..|w1.log|][..|w.log|];
  }

  lemma {:induction false} RunExtends(w: World, acts: seq<Action>, k: RateClass)
    requires Inv(w) && Runs(w, acts) && forall a <- acts :: !Replaces(a, k)
    ensures Extends(w, End(w, acts), k)
    decreases |acts|
  {
    if acts != [] {
      var w1 := Next(w, acts[0]);
      assert acts[0] in acts;
      StepKeepsInv(w, acts[0]);
      StepExtends(w, acts[0], k);
      RunExtends(w1, acts[1..], k);
      ExtendsComposes(w, w1, End(w, acts), k);
    }
  }

  lemma {:induction false} ClassWithinBucket(log: seq<Fetch>, from: nat, k: RateClass, b: nat, s: int, e: int)
    requires forall i :: from <= i < |log| && log[i].rateClass == k ==> log[i].bucket == b
    requires forall i :: 0 <= i < |log| ==> log[i].tokens > 0.0
    ensures 0.0 <= ClassSpent(log, from, k, s, e) <= Spent(log, b, s, e)
  {
    if log != [] { ClassWithinBucket(log[..|log| - 1], from, k, b, s, e); }
  }

  /**
   End-to-end rate bound. From any reachable state on, while the account bucket of class `k` is not replaced,
   the tokens of all upstream fetches of that class started in [s, e] total at most a full bucket plus the rate
   times the elapsed time, however callers, followers, responses, drains, queries, timers and
   replacements of the other bucket interleave.
   */
  lemma EndToEndRateBound(w: World, acts: seq<Action>, k: RateClass, s: int, e: int)
    requires Inv(w) && Runs(w, acts) && s <= e
    requires forall a <- acts :: !Replaces(a, k)
    ensures var b := w.heap[w.Current(k)];
            ClassSpent(End(w, acts).log, |w.log|, k, s, e) <= b.bucketSize + Gain(b.rate, e - s)
  {
    RunExtends(w, acts, k);
    BucketObjectBound(w, acts, w.Current(k), s, e);
    forall i | 0 <= i < |End(w, acts).log| ensures End(w, acts).log[i].tokens > 0.0 {
      assert Logged(End(w, acts).log[i], End(w, acts).c.table.flights);
    }
    ClassWithinBucket(End(w, acts).log, |w.log|, k, w.Current(k), s, e);
  }

  // ---------------------------------------------------------------- after an upstream 429

  /** All tokens ever charged to bucket `b` for fetches. */
  function Charged(log: seq<Fetch>, b: nat): real {
    if log == [] then 0.0
    else Charged(log[..|log| - 1], b) + if log[|log| - 1].bucket == b then log[|log| - 1].tokens else 0.0
  }

  lemma ChargedAppend(log: seq<Fetch>, x: Fetch, b: nat)
    ensures Charged(log + [x], b) == Charged(log, b) + if x.bucket == b then x.tokens else 0.0
  {
    assert (log + [x])[..|log|] == log;
  }

  /** What was charged to the bucket in between is covered by what it held and what it earned. */
  predicate Covered(log: seq<Fetch>, st: BucketState, log': seq<Fetch>, st': BucketState, b: nat) {
    && st'.rate == st.rate && st.lastRefill <= st'.lastRefill
    && Charged(log', b) + st'.tokens <= Charged(log, b) + st.tokens + Gain(st.rate, st'.lastRefill - st.lastRefill)
  }

  lemma CoveredComposes(log: seq<Fetch>, st: BucketState, log1: seq<Fetch>, st1: BucketState, log2: seq<Fetch>,
                        st2: BucketState, b: nat)
    requires Covered(log, st, log1, st1, b) && Covered(log1, st1, log2, st2, b)
    ensures Covered(log, st, log2, st2, b)
  {
    GainAdds(st.rate, st1.lastRefill - st.lastRefill, st2.lastRefill - st1.lastRefill);
  }

  lemma NothingIsCovered(log: seq<Fetch>, st: BucketState, b: nat)
    ensures Covered(log, st, log, st, b)
  {
    assert Gain(st.rate, 0) == 0.0;
  }

  lemma EventIsCovered(log: seq<Fetch>, st: BucketState, e: Event, b: nat)
    requires st.Valid() && st.lastRefill <= e.now
    ensures Covered(log, st, log, Apply(st, e), b)
  {
    BudgetStep(st, e);
    ApplyKeepsValid(st, e);
  }

  lemma GrantIsCovered(log: seq<Fetch>, st: BucketState, x: Fetch, b: nat)
    requires st.Valid() && st.lastRefill <= x.at && x.bucket == b && x.tokens > 0.0
    requires Granted(st, Event(Consume(x.tokens), x.at))
    ensures Covered(log, st, log + [x], Consumed(st, x.tokens, x.at), b)
  {
    BudgetStep(st, Event(Consume(x.tokens), x.at));
    ApplyKeepsValid(st, Event(Consume(x.tokens), x.at));
    ChargedAppend(log, x, b);
  }

  lemma StepIsCovered(w: World, a: Action, b: nat)
    requires Shaped(w) && Enabled(w, a) && b < |w.heap|
    ensures b < |Next(w, a).heap| && Covered(w.log, w.heap[b], Next(w, a).log, Next(w, a).heap[b], b)
  {
    hide C.Next, Covered, Charged;
    if BucketOp(w, a).Some? && BucketOp(w, a).value.0 == b {
      EventIsCovered(w.log, w.heap[b], Event(BucketOp(w, a).value.1, a.now), b);
      if FetchStarted(w, a).Some? { GrantIsCovered(w.log, w.heap[b], FetchStarted(w, a).value, b); }
    } else {
      NothingIsCovered(w.log, w.heap[b], b);
      if FetchStarted(w, a).Some? { OtherFetchIsCovered(w.log, w.heap[b], FetchStarted(w, a).value, b); }
    }
  }

  lemma OtherFetchIsCovered(log: seq<Fetch>, st: BucketState, x: Fetch, b: nat)
    requires x.bucket != b
    ensures Covered(log, st, log + [x], st, b)
  {
    ChargedAppend(log, x, b);
    NothingIsCovered(log, st, b);
  }

  /** The same over runs. */
  lemma {:induction false} RunIsCovered(w: World, acts: seq<Action>, b: nat)
    requires Inv(w) && Runs(w, acts) && b < |w.heap|
    ensures b < |End(w, acts).heap| && Covered(w.log, w.heap[b], End(w, acts).log, End(w, acts).heap[b], b)
    decreases |acts|
  {
    hide Inv, Next, Enabled, Covered;
    if acts != [] {
      InvIsShaped(w);
      var w1 := Next(w, acts[0]);
      StepKeepsInv(w, acts[0]);
      StepIsCovered(w, acts[0], b);
      RunIsCovered(w1, acts[1..], b);
      CoveredComposes(w.log, w.heap[b], w1.log, w1.heap[b], End(w, acts).log, End(w, acts).heap[b], b);
    } else {
      NothingIsCovered(w.log, w.heap[b], b);
    }
  }

  lemma InvIsShaped(w: World)
    requires Inv(w)
    ensures Shaped(w)
  {
  }

  /** The state right after upstream answered 429 for a flight. */
  ghost predicate After429(w: World, w1: World, flight: nat, header: RetryAfter, t: int) {
    Inv(w) && Enabled(w, Responds(flight, 429, header, t)) && w1 == Next(w, Responds(flight, 429, header, t))
  }

  lemma DrainedBy429(w: World, w1: World, flight: nat, header: RetryAfter, t: int)
    requires After429(w, w1, flight, header, t)
    ensures Inv(w1) && w.tasks[flight].bucket < |w1.heap|
    ensures w1.heap[w.tasks[flight].bucket] == Drained(w.heap[w.tasks[flight].bucket], t)
  {
    StepKeepsInv(w, Responds(flight, 429, header, t));
  }

  /** A task that is still under way holds the bucket it started with. */
  predicate Holds(w: World, w': World, f: nat) {
    && f < |w.tasks| <= |w'.tasks|
    && (w.tasks[f].Finished? ==> w'.tasks[f].Finished?)
    && (!w.tasks[f].Finished? && !w'.tasks[f].Finished? ==> w'.tasks[f].bucket == w.tasks[f].bucket)
  }

  lemma StepHolds(w: World, a: Action, f: nat)
    requires Shaped(w) && Enabled(w, a) && f < |w.tasks|
    ensures Holds(w, Next(w, a), f)
  {
    hide C.Next;
  }

  lemma {:induction false} RunHolds(w: World, acts: seq<Action>, f: nat)
    requires Inv(w) && Runs(w, acts) && f < |w.tasks|
    ensures Holds(w, End(w, acts), f)
    decreases |acts|
  {
    hide Inv, Next, Enabled;
    if acts != [] {
      InvIsShaped(w);
      StepKeepsInv(w, acts[0]);
      StepHolds(w, acts[0], f);
      RunHolds(Next(w, acts[0]), acts[1..], f);
    }
  }

  lemma StepCurrentIff(w: World, a: Action, k: RateClass)
    requires Shaped(w) && Enabled(w, a)
    ensures |w.heap| <= |Next(w, a).heap| && w.Current(k) <= Next(w, a).Current(k)
    ensures Next(w, a).Current(k) == w.Current(k) <==> !Replaces(a, k)
  {
    hide C.Next;
  }

  /** A bucket object that was replaced never comes back. */
  lemma {:induction false} CurrentStaysIff(w: World, acts: seq<Action>, k: RateClass)
    requires Inv(w) && Runs(w, acts)
    ensures w.Current(k) <= End(w, acts).Current(k)
    ensures End(w, acts).Current(k) == w.Current(k) <==> forall a <- acts :: !Replaces(a, k)
    decreases |acts|
  {
    hide Inv, Next, Enabled, Replaces;
    if acts != [] {
      InvIsShaped(w);
      StepKeepsInv(w, acts[0]);
      StepCurrentIff(w, acts[0], k);
      CurrentStaysIff(Next(w, acts[0]), acts[1..], k);
      assert forall a :: a in acts <==> a == acts[0] || a in acts[1..];
    }
  }

  /** `start` began the upstream fetch of flight `flight`, for class `k`. */
  ghost predicate Began(w: World, start: Action, flight: nat, k: RateClass) {
    && Inv(w) && Enabled(w, start) && FetchStarted(w, start).Some?
    && FetchStarted(w, start).value.flight == flight && FetchStarted(w, start).value.rateClass == k
  }

  lemma BeganHoldsCurrent(w: World, start: Action, flight: nat, k: RateClass)
    requires Began(w, start, flight, k)
    ensures var w1 := Next(w, start);
            Inv(w1) && w1.Current(k) == w.Current(k) && flight < |w1.tasks|
              && w1.tasks[flight] == Fetching(w.Current(k))
  {
    StepKeepsInv(w, start);
    hide C.Next, CollapserStep, Inv;
  }

  /**
   Whom a 429 slows down. A call of class k starts its fetch; any run follows; then upstream answers it with
   429. The bucket that new calls of the class use is emptied by that answer exactly if no configuration
   change replaced the bucket of the class since the fetch started; otherwise it is left as it was.
   */
  lemma DrainReachesCurrentBucketIff(w: World, start: Action, acts: seq<Action>, flight: nat, k: RateClass,
                                     header: RetryAfter, t: int)
    requires Began(w, start, flight, k) && Inv(Next(w, start)) && Runs(Next(w, start), acts)
    requires Enabled(End(Next(w, start), acts), Responds(flight, 429, header, t))
    ensures var w2 := End(Next(w, start), acts);
            var w3 := Next(w2, Responds(flight, 429, header, t));
            var b := w2.Current(k);
            b < |w2.heap| == |w3.heap| && w3.Current(k) == b
            && ((forall a <- acts :: !Replaces(a, k)) ==> w3.heap[b] == Drained(w2.heap[b], t))
            && (!(forall a <- acts :: !Replaces(a, k)) ==> w3.heap[b] == w2.heap[b])
  {
    var w1 := Next(w, start);
    BeganHoldsCurrent(w, start, flight, k);
    hide Began, Inv, Next, Replaces, Enabled;
    RunHolds(w1, acts, flight);
    CurrentStaysIff(w1, acts, k);
    assert w1.Current(k) == w1.tasks[flight].bucket;
    InvIsShaped(End(w1, acts));
    ResponseDrains(End(w1, acts), flight, k, header, t);
  }

  lemma ResponseDrains(w: World, flight: nat, k: RateClass, header: RetryAfter, t: int)
    requires Shaped(w) && Enabled(w, Responds(flight, 429, header, t))
    ensures var w' := Next(w, Responds(flight, 429, header, t)); var b := w.Current(k);
            flight < |w.tasks| && w.tasks[flight].Fetching? && b < |w.heap| == |w'.heap| && w'.Current(k) == b
            && w'.heap[b] == if w.tasks[flight].bucket == b then Drained(w.heap[b], t) else w.heap[b]
  {
    hide C.Next;
  }

  /** It happens: a full single bucket is left full by the 429 of a call that started before a configuration change. */
  lemma DrainMissesReplacement(req: Request)
    requires 0.0 < req.tokens <= 10.0 && req.rateClass.Single?
    ensures var acts := [Call(req, "1", 0), Rebuild(Single, 5.0, 20.0, 1), Responds(0, 429, Missing, 2)];
            var w := Init(50, NewBucket(1.0, 10.0, 0), NewBucket(1.0, 10.0, 0), 0);
            Inv(w) && Runs(w, acts) && End(w, acts).heap[End(w, acts).Current(Single)] == NewBucket(5.0, 20.0, 1)
  {
    hide Inv, Next, Enabled, Began;
    var w := Init(50, NewBucket(1.0, 10.0, 0), NewBucket(1.0, 10.0, 0), 0);
    InitHasInv(50, NewBucket(1.0, 10.0, 0), NewBucket(1.0, 10.0, 0), 0);
    FirstCallFetches(w, req);
    InvIsShaped(w);
    var w1 := Next(w, Call(req, "1", 0));
    InvIsShaped(w1);
    ReplacedInFlight(w1);
    var w2 := Next(w1, Rebuild(Single, 5.0, 20.0, 1));
    InvIsShaped(w2);
    ResponseDrains(w2, 0, Single, Missing, 2);
    var a3 := Responds(0, 429, Missing, 2);
    StepKeepsInv(w2, a3);
    hide Init;
    RunsCons(w2, a3, []);
    RunsCons(w1, Rebuild(Single, 5.0, 20.0, 1), [a3] + []);
    RunsCons(w, Call(req, "1", 0), [Rebuild(Single, 5.0, 20.0, 1)] + ([a3] + []));
    assert [Call(req, "1", 0)] + ([Rebuild(Single, 5.0, 20.0, 1)] + ([a3] + []))
           == [Call(req, "1", 0), Rebuild(Single, 5.0, 20.0, 1), Responds(0, 429, Missing, 2)];
  }

  lemma RunsCons(w: World, a: Action, rest: seq<Action>)
    requires Inv(w) && Shaped(w) && Enabled(w, a) && Inv(Next(w, a)) && Runs(Next(w, a), rest)
    ensures Runs(w, [a] + rest) && End(w, [a] + rest) == End(Next(w, a), rest)
  {
    hide Inv, Next, Enabled;
    assert ([a] + rest)[1..] == rest;
  }

  lemma FirstCallFetches(w: World, req: Request)
    requires w == Init(50, NewBucket(1.0, 10.0, 0), NewBucket(1.0, 10.0, 0), 0) && Inv(w)
    requires 0.0 < req.tokens <= 10.0 && req.rateClass.Single?
    ensures Enabled(w, Call(req, "1", 0)) && Inv(Next(w, Call(req, "1", 0)))
    ensures Began(w, Call(req, "1", 0), 0, Single) && |Next(w, Call(req, "1", 0)).heap| == 2
    ensures Next(w, Call(req, "1", 0)).tasks == [Fetching(1)] && Next(w, Call(req, "1", 0)).c.clock == 0
  {
    StepKeepsInv(w, Call(req, "1", 0));
  }

  lemma ReplacedInFlight(w: World)
    requires Inv(w) && w.tasks == [Fetching(1)] && w.c.clock == 0 && |w.heap| == 2
    ensures var a := Rebuild(Single, 5.0, 20.0, 1);
            && Enabled(w, a) && Inv(Next(w, a)) && Enabled(Next(w, a), Responds(0, 429, Missing, 2))
            && Next(w, a).Current(Single) == 2 && |Next(w, a).heap| == 3
              && Next(w, a).heap[2] == NewBucket(5.0, 20.0, 1)
            && Next(w, a).tasks == [Fetching(1)]
  {
    StepKeepsInv(w, Rebuild(Single, 5.0, 20.0, 1));
  }

  /**
   Backing off: once upstream answers 429 at instant t, the bucket that paid for that fetch has no burst
   left. In every run from there it pays for no more than its rate earned since t, however many callers
   are waiting and however full it was.
   */
  lemma NoBurstAfter429(w: World, w1: World, flight: nat, header: RetryAfter, t: int, acts: seq<Action>)
    requires After429(w, w1, flight, header, t) && Inv(w1) && Runs(w1, acts)
    ensures var b := w.tasks[flight].bucket;
            b < |w1.heap| && Charged(End(w1, acts).log, b) - Charged(w1.log, b)
              <= Gain(w1.heap[b].rate, End(w1, acts).c.clock - t)
  {
    hide Next, Inv, Runs, End, RequestsOk;
    var b := w.tasks[flight].bucket;
    hide After429, Enabled, TasksOk;
    DrainedBy429(w, w1, flight, header, t);
    RunIsCovered(w1, acts, b);
    InvIsShaped(End(w1, acts));
    InvIsShaped(w1);
    SpendingAfterDrain(w1.log, w1.heap[b], End(w1, acts).log, End(w1, acts).heap[b], b, End(w1, acts).c.clock);
  }

  lemma SpendingAfterDrain(log: seq<Fetch>, st: BucketState, log': seq<Fetch>, st': BucketState, b: nat, now: int)
    requires Covered(log, st, log', st', b) && st.tokens == 0.0 && st.rate > 0.0 && st'.Valid() && st'.lastRefill <= now
    ensures Charged(log', b) - Charged(log, b) <= Gain(st.rate, now - st.lastRefill)
  {
    hide Charged;
    GainMonotone(st.rate, st'.lastRefill - st.lastRefill, now - st.lastRefill);
  }

  // ---------------------------------------------------------------- collapsed callers

  function IndexOf(s: string, c: char): nat {
    if s == [] || s[0] == c then 0 else 1 + IndexOf(s[1..], c)
  }

  lemma {:induction false} ZoneEndsAtNul(zone: string, body: string)
    requires '\0' !in zone
    ensures IndexOf(CollapseKey(zone, body), '\0') == |zone|
  {
    if zone != [] {
      assert CollapseKey(zone, body)[1..] == CollapseKey(zone[1..], body);
      ZoneEndsAtNul(zone[1..], body);
    }
  }

  /** The NUL between zone and body keeps different requests apart when no zone id contains one. */
  lemma CollapseKeyIsInjective(z1: string, b1: string, z2: string, b2: string)
    requires '\0' !in z1 && '\0' !in z2
    requires CollapseKey(z1, b1) == CollapseKey(z2, b2)
    ensures z1 == z2 && b1 == b2
  {
    ZoneEndsAtNul(z1, b1);
    ZoneEndsAtNul(z2, b2);
    var k := CollapseKey(z1, b1);
    assert z1 == k[..|z1|] && z2 == k[..|z2|];
    assert b1 == k[|z1| + 1..] && b2 == k[|z2| + 1..];
  }

  /**
   A caller that came back collapsed has no upstream fetch of its own in the log, and its result is
   the one of a flight that another caller created for the same zone and body.
   */
  lemma CollapsedCallersNeverPay(w: World, c: nat)
    requires Inv(w) && c < |w.c.callers| && w.c.callers[c].Returned? && w.c.callers[c].collapsed
    requires forall r <- w.requests :: '\0' !in r.zoneId
    ensures forall x <- w.log :: x.caller != c
    ensures w.c.callers[c].flight < |w.c.table.flights|
    ensures var f := w.c.table.flights[w.c.callers[c].flight];
            && f.creator != c && f.creator < |w.requests|
            && w.requests[f.creator].zoneId == w.requests[c].zoneId
            && w.requests[f.creator].bodyText == w.requests[c].bodyText
            && f.promise == C.Resolved(w.c.callers[c].result)
  {
    assert C.CallerOk(w.c, c);
    var r := w.c.callers[c];
    assert C.CreatorOk(w.c, r.flight);
    var f := w.c.table.flights[r.flight];
    assert C.CallerOk(w.c, f.creator);
    CollapseKeyIsInjective(w.requests[f.creator].zoneId, w.requests[f.creator].bodyText,
                           w.requests[c].zoneId, w.requests[c].bodyText);
    forall x | x in w.log ensures x.caller != c {
      var i :| 0 <= i < |w.log| && w.log[i] == x;
      assert C.CreatorOk(w.c, x.flight);
    }
  }

  /** A step in which a caller joins a flight, or returns as a follower, touches no bucket. */
  lemma FollowersTouchNoBucket(w: World, a: Action)
    requires Inv(w) && Enabled(w, a) && (a.Call? || a.Resume?)
    ensures Next(w, a).heap != w.heap || Next(w, a).log != w.log ==>
              |Next(w, a).c.table.flights| == |w.c.table.flights| + 1
    ensures |Next(w, a).c.table.flights| == |w.c.table.flights| + 1 ==>
              var c := if a.Call? then |w.requests| else a.caller; Next(w, a).c.callers[c].Leading?
  {
  }

  /** One flight pays for at most one fetch, so a caller does too. */
  lemma OneFetchPerCaller(w: World, i: nat, j: nat)
    requires Inv(w) && i < |w.log| && j < |w.log| && w.log[i].caller == w.log[j].caller
    ensures i == j
  {
    assert C.CreatorOk(w.c, w.log[i].flight) && C.CreatorOk(w.c, w.log[j].flight);
  }

  // ---------------------------------------------------------------- what a purge answers

  /**
   What a purge under way does to buckets: a 429 empties the one it holds when the response arrives; any other
   answer refills that one when it is built; nothing else it does touches a bucket, and nothing starts a fetch.
   */
  lemma AnswersOnBuckets(w: World, a: Action)
    requires Shaped(w) && Enabled(w, a) && !a.Call? && !a.Resume? && !a.Rpc? && !a.Rebuild?
    ensures Next(w, a).log == w.log && Next(w, a).bulk == w.bulk && Next(w, a).single == w.single
    ensures var heap' := Next(w, a).heap;
            match a
            case Responds(f, status, _, now) =>
              f < |w.tasks| && w.tasks[f].Fetching? && w.tasks[f].bucket < |w.heap|
              && heap' == (if status == 429 then w.heap[w.tasks[f].bucket := Drained(w.heap[w.tasks[f].bucket], now)]
                           else w.heap)
            case Reads(f, _, now) =>
              f < |w.tasks| && w.tasks[f].Reading? && w.tasks[f].bucket < |w.heap|
              && heap' == (if w.tasks[f].status == 429 then w.heap
                           else w.heap[w.tasks[f].bucket := Refilled(w.heap[w.tasks[f].bucket], now)])
            case FetchFails(f, now) =>
              f < |w.tasks| && w.tasks[f].Fetching? && w.tasks[f].bucket < |w.heap|
              && heap' == w.heap[w.tasks[f].bucket := Refilled(w.heap[w.tasks[f].bucket], now)]
            case _ => heap' == w.heap
  {
    hide C.Next, Refilled, Drained;
  }

  /**
   A call of the object on a class reaches the bucket that new purges of the class use, and a replacement puts a
   full bucket there; neither touches any other bucket, a fetch or a purge under way.
   */
  lemma CallsReachTheCurrentBucket(w: World, k: RateClass, op: Op, rate: real, size: real, now: int)
    requires Shaped(w) && Enabled(w, Rpc(k, op, now)) && Enabled(w, Rebuild(k, rate, size, now))
    ensures var i := if k.Single? then w.single else w.bulk;
            var w1, w2 := Next(w, Rpc(k, op, now)), Next(w, Rebuild(k, rate, size, now));
            && i < |w.heap|
            && w1.heap == w.heap[i := Apply(w.heap[i], Event(op, now))]
            && w1.single == w.single && w1.bulk == w.bulk && w1.log == w.log && w1.tasks == w.tasks
            && w2.heap == w.heap + [NewBucket(rate, size, now)]
            && w2.single == (if k.Single? then |w.heap| else w.single)
            && w2.bulk == (if k.Bulk? then |w.heap| else w.bulk) && w2.log == w.log && w2.tasks == w.tasks
  {
  }

  /** What flight `f` has settled to stays, the fetches stay, and new fetches belong to new flights. */
  ghost predicate Keeps(w: World, w': World, f: nat) {
    && f < |w.c.table.flights| <= |w'.c.table.flights|
    && (!w.c.table.flights[f].promise.Pending? ==> w'.c.table.flights[f].promise == w.c.table.flights[f].promise)
    && (forall x :: x in w.log ==> x in w'.log)
    && (forall x :: x in w'.log && x.flight <= f ==> x in w.log)
  }

  lemma StepKeeps(w: World, a: Action, f: nat)
    requires Shaped(w) && Enabled(w, a) && f < |w.c.table.flights|
    ensures Keeps(w, Next(w, a), f)
  {
    C.StepFlights(w.c, CollapserStep(w, a));
    hide C.Next;
  }

  lemma {:induction false} RunKeeps(w: World, acts: seq<Action>, f: nat)
    requires Inv(w) && Runs(w, acts) && f < |w.c.table.flights|
    ensures Keeps(w, End(w, acts), f)
    decreases |acts|
  {
    hide Inv, Next, Enabled;
    if acts != [] {
      InvIsShaped(w);
      StepKeepsInv(w, acts[0]);
      StepKeeps(w, acts[0], f);
      RunKeeps(Next(w, acts[0]), acts[1..], f);
    }
  }

  /** A body that is being read is being read with the same status and header until the read ends. */
  predicate KeepsReading(w: World, w': World, f: nat) {
    f < |w.tasks| <= |w'.tasks| && ((w.tasks[f].Reading? || w.tasks[f].Finished?) ==>
                                      w'.tasks[f] == w.tasks[f] || w'.tasks[f].Finished?)
  }

  lemma StepKeepsReading(w: World, a: Action, f: nat)
    requires Shaped(w) && Enabled(w, a) && f < |w.tasks|
    ensures KeepsReading(w, Next(w, a), f)
  {
    hide C.Next;
  }

  lemma {:induction false} RunKeepsReading(w: World, acts: seq<Action>, f: nat)
    requires Inv(w) && Runs(w, acts) && f < |w.tasks|
    ensures KeepsReading(w, End(w, acts), f)
    decreases |acts|
  {
    hide Inv, Next, Enabled;
    if acts != [] {
      InvIsShaped(w);
      StepKeepsInv(w, acts[0]);
      StepKeepsReading(w, acts[0], f);
      RunKeepsReading(Next(w, acts[0]), acts[1..], f);
    }
  }

  /** `start` creates flight `f`, for a purge of class `k` that costs `cost` tokens of bucket `b`. */
  ghost predicate Leads(w: World, start: Action, f: nat, k: RateClass, cost: real, b: BucketState) {
    && Inv(w) && Shaped(w) && Enabled(w, start) && Leader(w, start).Some? && f == |w.c.table.flights|
    && var req := RequestOf(w, start);
    && k == req.rateClass && cost == (if req.tokens <= 0.0 then 1.0 else req.tokens)
    && b == w.heap[if k.Single? then w.single else w.bulk]
  }

  /** The step itself: a fetch for what the bucket covers, and otherwise the promise has resolved already. */
  lemma LeaderStep(w: World, start: Action, f: nat, k: RateClass, cost: real, b: BucketState)
    requires Leads(w, start, f, k, cost, b)
    ensures var w1 := Next(w, start); var i := if k.Single? then w.single else w.bulk;
            && Inv(w1) && b.Valid() && b.lastRefill <= start.now && f < |w1.c.table.flights| && i < |w1.heap|
            && w1.heap[i] == Consumed(b, cost, start.now)
            && (cost <= Refilled(b, start.now).tokens ==>
                  && w1.c.table.flights[f].promise.Pending?
                  && w1.log == w.log + [Fetch(i, k, cost, start.now, f, Leader(w, start).value)])
            && (cost > Refilled(b, start.now).tokens ==>
                  && w1.log == w.log
                  && w1.c.table.flights[f].promise == C.Resolved(Refusal(b, ConsumeOutcome(b, cost, start.now))))
  {
    StepKeepsInv(w, start);
    C.StepFlights(w.c, CollapserStep(w, start));
    hide C.Next, Inv, Refilled;
  }

  lemma FetchesAreOfFlights(w: World)
    requires Inv(w)
    ensures forall x <- w.log :: x.flight < |w.c.table.flights|
  {
    forall x | x in w.log ensures x.flight < |w.c.table.flights| {
      var i :| 0 <= i < |w.log| && w.log[i] == x;
      assert Logged(w.log[i], w.c.table.flights);
    }
  }

  /**
   Who is sent upstream. Whatever happens after a purge has created its flight: the flight has a fetch exactly if
   the account bucket of the class covered the cost when it was created, and then the fetch is charged to that
   bucket, for the class, with that cost, at that instant.
   */
  lemma FetchIffCovered(w: World, start: Action, f: nat, k: RateClass, cost: real, b: BucketState, acts: seq<Action>)
    requires Leads(w, start, f, k, cost, b) && Inv(Next(w, start)) && Runs(Next(w, start), acts)
    ensures (exists x <- End(Next(w, start), acts).log :: x.flight == f) <==> cost <= Refilled(b, start.now).tokens
    ensures forall x <- End(Next(w, start), acts).log :: x.flight == f ==>
              && x.bucket == (if k.Single? then w.single else w.bulk) && x.rateClass == k && x.tokens == cost
              && x.at == start.now && x.caller == Leader(w, start).value
  {
    LeaderStep(w, start, f, k, cost, b);
    FetchesAreOfFlights(w);
    hide Inv, Next, Refilled, Runs, End;
    RunKeeps(Next(w, start), acts, f);
    if cost <= Refilled(b, start.now).tokens {
      var x := Fetch(if k.Single? then w.single else w.bulk, k, cost, start.now, f, Leader(w, start).value);
      assert x in Next(w, start).log;
    }
  }

  /**
   What a purge without a fetch of its own answers, whatever happens after it has created its flight: 429, not
   sent upstream, nothing left, the rate and size of the bucket that refused, and as wait the least number of
   seconds after which that bucket, left alone, grants the same cost.
   */
  lemma WithoutFetchIs429(w: World, start: Action, f: nat, k: RateClass, cost: real, b: BucketState,
                          acts: seq<Action>, wait: nat)
    requires Leads(w, start, f, k, cost, b) && Inv(Next(w, start)) && Runs(Next(w, start), acts)
    requires forall x <- End(Next(w, start), acts).log :: x.flight != f
    ensures var w1, w' := Next(w, start), End(Next(w, start), acts);
            && f < |w'.c.table.flights| && w'.c.table.flights[f].promise.Resolved?
            && var r := w'.c.table.flights[f].promise.value;
            && r.status == 429 && !r.reachedUpstream && !r.collapsed && r.remaining == 0
            && r.rate == b.rate && r.bucketSize == b.bucketSize && r.secondsUntilRefill.Some?
            && (if k.Single? then w.single else w.bulk) < |w1.heap|
            && var left := w1.heap[if k.Single? then w.single else w.bulk];
            && (Granted(left, Event(Consume(cost), start.now + 1000 * wait))
                <==> cost <= b.bucketSize && r.secondsUntilRefill.value <= wait as real)
  {
    hide *;
    NoFetchMeansUncovered(w, start, f, k, cost, b, acts);
    RefusedForGood(w, start, f, k, cost, b, acts);
    RefusalSays(b, cost, start.now, wait);
  }

  lemma NoFetchMeansUncovered(w: World, start: Action, f: nat, k: RateClass, cost: real, b: BucketState,
                              acts: seq<Action>)
    requires Leads(w, start, f, k, cost, b) && Inv(Next(w, start)) && Runs(Next(w, start), acts)
    requires forall x <- End(Next(w, start), acts).log :: x.flight != f
    ensures cost > 0.0 && cost > Refilled(b, start.now).tokens
  {
    assert cost > 0.0;
    hide *;
    FetchIffCovered(w, start, f, k, cost, b, acts);
  }

  lemma RefusedForGood(w: World, start: Action, f: nat, k: RateClass, cost: real, b: BucketState, acts: seq<Action>)
    requires Leads(w, start, f, k, cost, b) && Inv(Next(w, start)) && Runs(Next(w, start), acts)
    requires cost > Refilled(b, start.now).tokens
    ensures var w1, w' := Next(w, start), End(Next(w, start), acts); var i := if k.Single? then w.single else w.bulk;
            && b.Valid() && b.lastRefill <= start.now && i < |w1.heap| && w1.heap[i] == Consumed(b, cost, start.now)
            && f < |w'.c.table.flights|
            && w'.c.table.flights[f].promise == C.Resolved(Refusal(b, ConsumeOutcome(b, cost, start.now)))
  {
    LeaderStep(w, start, f, k, cost, b);
    hide Inv, Next, Runs, End, Leads, Refusal, ConsumeOutcome, Consumed, Refilled;
    RunKeeps(Next(w, start), acts, f);
  }

  lemma RefusalSays(b: BucketState, cost: real, now: int, wait: nat)
    requires b.Valid() && b.lastRefill <= now && cost > 0.0 && cost > Refilled(b, now).tokens
    ensures var r := Refusal(b, ConsumeOutcome(b, cost, now));
            && r.status == 429 && !r.reachedUpstream && !r.collapsed && r.remaining == 0
            && r.rate == b.rate && r.bucketSize == b.bucketSize && r.secondsUntilRefill.Some?
            && (Granted(Consumed(b, cost, now), Event(Consume(cost), now + 1000 * wait))
                <==> cost <= b.bucketSize && r.secondsUntilRefill.value <= wait as real)
  {
    ConsumeCosts(b, cost, now);
    RetryAfterIsLeast(b, cost, now, wait);
  }

  /** The numbers that an answer reports are those of the bucket `b` at the instant `now`. */
  ghost predicate Reports(r: PurgeResult, b: BucketState, now: int) {
    && r.rate == b.rate && r.bucketSize == b.bucketSize
    && (forall n: int :: n > 0 ==> (GrantsWhole(b, n, now) <==> n <= r.remaining))
    && r.secondsUntilRefill.Some?
    && (forall wait: nat :: Granted(Refilled(b, now), Event(Consume(1.0), now + 1000 * wait))
                            <==> 1.0 <= b.bucketSize && r.secondsUntilRefill.value <= wait as real)
  }

  lemma NumbersAreReported(r: PurgeResult, b: BucketState, now: int)
    requires b.Valid() && b.lastRefill <= now && r.rate == b.rate && r.bucketSize == b.bucketSize
    requires r.remaining == Remaining(b, now) && r.secondsUntilRefill == Some(SecondsUntilRefill(b, now) as real)
    ensures Reports(r, b, now)
  {
    forall n: int | n > 0 ensures GrantsWhole(b, n, now) <==> n <= r.remaining {
      GetRemainingIsLargest(b, now, n);
    }
    forall wait: nat
      ensures Granted(Refilled(b, now), Event(Consume(1.0), now + 1000 * wait))
              <==> 1.0 <= b.bucketSize && r.secondsUntilRefill.value <= wait as real
    {
      SecondsUntilRefillIsLeast(b, now, wait);
    }
  }

  /** A step that settles the flight settles it for good. */
  lemma SettledForGood(w: World, a: Action, f: nat, acts: seq<Action>)
    requires Inv(w) && Shaped(w) && Enabled(w, a) && Inv(Next(w, a)) && Runs(Next(w, a), acts)
    requires f < |w.c.table.flights| && CollapserStep(w, a).Settle? && CollapserStep(w, a).flight == f
    ensures var w' := End(Next(w, a), acts);
            f < |w'.c.table.flights| && w'.c.table.flights[f].promise == CollapserStep(w, a).outcome
  {
    C.StepFlights(w.c, CollapserStep(w, a));
    hide C.Next, Inv, Runs, End;
    RunKeeps(Next(w, a), acts, f);
  }

  /** A fetch that throws answers 502, not sent upstream, with the numbers of the bucket that its flight holds. */
  lemma FailedFetchIs502(w: World, f: nat, now: int, acts: seq<Action>)
    requires Inv(w) && Shaped(w) && Enabled(w, FetchFails(f, now))
    requires Inv(Next(w, FetchFails(f, now))) && Runs(Next(w, FetchFails(f, now)), acts)
    ensures var w' := End(Next(w, FetchFails(f, now)), acts);
            && f < |w'.c.table.flights| && w'.c.table.flights[f].promise.Resolved?
            && var r := w'.c.table.flights[f].promise.value;
            && r.status == 502 && !r.reachedUpstream && !r.collapsed
            && f < |w.tasks| && w.tasks[f].Fetching? && w.tasks[f].bucket < |w.heap|
            && Reports(r, w.heap[w.tasks[f].bucket], now)
  {
    SettledForGood(w, FetchFails(f, now), f, acts);
    var b := w.heap[w.tasks[f].bucket];
    StepMovesClock(w, FetchFails(f, now));
    hide Inv, Next, Runs, End, Remaining, SecondsUntilRefill, Reports;
    NumbersAreReported(FetchFailed(b, now), b, now);
  }

  /** A body that cannot be read rejects. */
  lemma FailedReadRejects(w: World, f: nat, now: int, acts: seq<Action>)
    requires Inv(w) && Shaped(w) && Enabled(w, ReadFails(f, now))
    requires Inv(Next(w, ReadFails(f, now))) && Runs(Next(w, ReadFails(f, now)), acts)
    ensures var w' := End(Next(w, ReadFails(f, now)), acts);
            f < |w'.c.table.flights| && w'.c.table.flights[f].promise.Rejected?
  {
    SettledForGood(w, ReadFails(f, now), f, acts);
  }

  /**
   What upstream says is what the flight answers: the status of its response and the body that was read, however
   much happens in between and afterwards. A 429 reports nothing left and the wait of its header, five seconds
   without one; anything else reports the numbers of the bucket that the flight holds, when the body is read.
   */
  lemma ReadAnswersUpstream(w: World, f: nat, status: int, header: RetryAfter, now: int, between: seq<Action>,
                            w2: World, body: string, later: int, acts: seq<Action>)
    requires Inv(w) && Shaped(w) && Enabled(w, Responds(f, status, header, now))
    requires Inv(Next(w, Responds(f, status, header, now))) && Runs(Next(w, Responds(f, status, header, now)), between)
    requires w2 == End(Next(w, Responds(f, status, header, now)), between) && Shaped(w2)
    requires Enabled(w2, Reads(f, body, later)) && Inv(Next(w2, Reads(f, body, later)))
    requires Runs(Next(w2, Reads(f, body, later)), acts)
    ensures var w' := End(Next(w2, Reads(f, body, later)), acts);
            && f < |w'.c.table.flights| && w'.c.table.flights[f].promise.Resolved?
            && var r := w'.c.table.flights[f].promise.value;
            && r.status == status && r.body == body && r.reachedUpstream && !r.collapsed
            && f < |w.tasks| && w.tasks[f].Fetching? && w.tasks[f].bucket < |w2.heap|
            && var b := w2.heap[w.tasks[f].bucket];
            && (if status == 429 then
                  && r.remaining == 0 && r.rate == b.rate && r.bucketSize == b.bucketSize
                  && r.secondsUntilRefill
                     == match header
                        case Missing => Some(5.0)
                        case Seconds(s) => Some(s)
                        case NotANumber => None
                else Reports(r, b, later))
  {
    var w1 := Next(w, Responds(f, status, header, now));
    assert f < |w1.tasks| && w1.tasks[f] == Reading(w.tasks[f].bucket, status, header) by { hide C.Next, Inv; }
    RunKeepsReading(w1, between, f);
    SettledForGood(w2, Reads(f, body, later), f, acts);
    assert w2.tasks[f] == w1.tasks[f];
    StepMovesClock(w2, Reads(f, body, later));
    assert w2.tasks[f].bucket < |w2.heap|;
    hide Inv, Next, Runs, End, Remaining, SecondsUntilRefill, Reports, Keeps;
    var b := w2.heap[w2.tasks[f].bucket];
    if status != 429 { NumbersAreReported(Upstream(b, status, body, header, later), b, later); }
  }
}
