/**
 Request collapsing: `src/request-collapse.ts`.

 `collapseOrCreate` runs in segments separated by its awaits and by the `finally` and timer
 callbacks. Each segment is atomic; between segments anything else may run. `RequestCollapser`
 holds the segments as methods. `State`, `Enabled` and `Next` arrange them into a step relation
 over any number of concurrent callers, and the theorems are about all runs of that relation. `Date.now()`
 may step back; a theorem that needs it not to says so with `OnTime`.
 */
module RequestCollapse {
  import opened Prelude

  datatype Promise<+T> = Pending | Resolved(value: T) | Rejected

  /**
   A flight object. Objects are kept in a list that only grows, and the position in that list is
   the object's identity. `creator` and `createdAt` are observations for the theorems: the code
   never reads them.
   */
  datatype Flight<+T> =
    Flight(key: string, flightId: string, promise: Promise<T>, settledAt: Option<int>, creator: nat, createdAt: int)

  /** The collapser's fields, together with the flight objects that exist. */
  datatype Table<+T> = Table(graceMs: int, flights: seq<Flight<T>>, inflight: map<string, nat>) {
    predicate Valid() {
      && (forall k <- inflight :: inflight[k] < |flights| && flights[inflight[k]].key == k)
      && (forall f :: 0 <= f < |flights| && flights[f].promise.Pending? ==> flights[f].settledAt.None?)
    }

    /** The flight that `inflight` has for its key. */
    predicate Current(f: nat)
      requires f < |flights|
    {
      flights[f].key in inflight && inflight[flights[f].key] == f
    }

    /** Expired past the grace window; a flight whose settlement is not yet recorded never is. */
    predicate Stale(f: nat, now: int)
      requires f < |flights|
    {
      flights[f].settledAt.Some? && now - flights[f].settledAt.value > graceMs
    }

    /** The flight that a call for `key` would share at `now`. */
    function Shared(key: string, now: int): Option<nat>
      requires Valid()
    {
      if key in inflight && !Stale(inflight[key], now) then Some(inflight[key]) else None
    }

    function Without(key: string): Table<T> {
      this.(inflight := inflight - {key})
    }

    function WithFlight(flight: Flight<T>): Table<T> {
      this.(flights := flights + [flight], inflight := inflight[flight.key := |flights|])
    }

    function WithSettled(f: nat, now: int): Table<T>
      requires f < |flights|
    {
      this.(flights := flights[f := flights[f].(settledAt := Some(now))])
    }

    /** The timer of flight `f`: its own entry goes, any other stays. */
    function Swept(f: nat): Table<T>
      requires f < |flights|
    {
      var key := flights[f].key;
      if key in inflight && inflight[key] == f then Without(key) else this
    }
  }

  class RequestCollapser<T> {
    const graceMs: int
    var flights: seq<Flight<T>>
    var inflight: map<string, nat>

    ghost function Contents(): Table<T>
      reads this
    {
      Table(graceMs, flights, inflight)
    }

    constructor (graceMs: int)
      ensures Contents() == Table(graceMs, [], map[]) && Contents().Valid()
    {
      this.graceMs := graceMs;
      flights := [];
      inflight := map[];
    }

    /** From the call to the first await: look the key up, and evict a stale entry. */
    method Lookup(key: string, now: int) returns (shared: Option<nat>)
      requires Contents().Valid()
      modifies this
      ensures Contents().Valid()
      ensures shared == old(Contents()).Shared(key, now)
      ensures Contents() == if shared.Some? then old(Contents()) else old(Contents()).Without(key)
    {
      if key in inflight {
        var flight := flights[inflight[key]];
        if flight.settledAt.Some? && now - flight.settledAt.value > graceMs {
          inflight := inflight - {key};
        } else {
          return Some(inflight[key]);
        }
      } else {
        assert inflight - {key} == inflight;
      }
      shared := None;
    }

    /** The catch branch of a follower: it deletes whatever entry the key has now. */
    method LeaderFailed(key: string)
      requires Contents().Valid()
      modifies this
      ensures Contents() == old(Contents()).Without(key) && Contents().Valid()
    {
      inflight := inflight - {key};
    }

    /** The leader path up to its await. `start` is the promise as the factory returned it. */
    method Create(key: string, flightId: string, start: Promise<T>, creator: nat, now: int) returns (f: nat)
      requires Contents().Valid()
      modifies this
      ensures f == |old(flights)| && Contents().Valid()
      ensures Contents() == old(Contents()).WithFlight(Flight(key, flightId, start, None, creator, now))
    {
      f := |flights|;
      flights := flights + [Flight(key, flightId, start, None, creator, now)];
      inflight := inflight[key := f];
    }

    /** The `finally` callback. */
    method OnSettled(f: nat, now: int)
      requires Contents().Valid() && f < |flights| && !flights[f].promise.Pending?
      modifies this
      ensures Contents() == old(Contents()).WithSettled(f, now) && Contents().Valid()
    {
      flights := flights[f := flights[f].(settledAt := Some(now))];
    }

    /** The cleanup timer. */
    method OnTimer(f: nat)
      requires Contents().Valid() && f < |flights|
      modifies this
      ensures Contents() == old(Contents()).Swept(f) && Contents().Valid()
      ensures forall k <- old(inflight) :: old(inflight)[k] != f ==> k in inflight && inflight[k] == old(inflight)[k]
    {
      var key := flights[f].key;
      if key in inflight && inflight[key] == f {
        inflight := inflight - {key};
      }
    }
  }

  // ---------------------------------------------------------------- the step relation

  /**
   Where one call of `collapseOrCreate` stands. `joinedAt` is the instant its lookup read, and `seen` the
   settlement instant that the lookup found on the flight, if it had one; the code keeps neither.
   */
  datatype Caller<+T> =
    | Following(key: string, flight: nat, joinedAt: int, seen: Option<int>)
    | Leading(key: string, flight: nat)
    | Returned(key: string, flight: nat, joinedAt: int, seen: Option<int>, result: T, collapsed: bool, flightId: string)
    | Threw(key: string, flight: nat)

  /** `timers` are the flights whose cleanup timer is armed and has not fired. */
  datatype State<+T> =
    State(clock: int, table: Table<T>, timers: set<nat>, callers: seq<Caller<T>>)

  datatype Action<+T> =
    | Arrive(key: string, flightId: string, start: Promise<T>, now: int)
    | Settle(flight: nat, outcome: Promise<T>, now: int)
    | Record(flight: nat, now: int)
    | Timer(flight: nat, now: int)
    | Resume(caller: nat, flightId: string, start: Promise<T>, now: int)
    | Tick(now: int)

  function Init<T>(graceMs: nat, now: int): State<T> {
    State(now, Table(graceMs, [], map[]), {}, [])
  }

  predicate Enabled<T>(s: State<T>, a: Action<T>) {
    match a
    case Arrive(_, _, _, _) => true
    case Tick(_) => true
    case Settle(f, outcome, _) =>
      f < |s.table.flights| && s.table.flights[f].promise.Pending? && !outcome.Pending?
    case Record(f, _) =>
      f < |s.table.flights| && !s.table.flights[f].promise.Pending? && s.table.flights[f].settledAt.None?
    case Timer(f, _) =>
      f < |s.table.flights| && f in s.timers && s.table.flights[f].settledAt.Some?
    case Resume(c, _, _, _) =>
      && c < |s.callers|
      && (s.callers[c].Following? || s.callers[c].Leading?)
      && s.callers[c].flight < |s.table.flights| && !s.table.flights[s.callers[c].flight].promise.Pending?
  }

  /** The clock does not step back, and a timer fires no sooner than its delay. */
  predicate OnTime<T>(s: State<T>, a: Action<T>)
    requires Enabled(s, a)
  {
    && s.clock <= a.now
    && (a.Timer? ==> s.table.flights[a.flight].settledAt.value + s.table.graceMs <= a.now)
  }

  function Start<T>(s: State<T>, c: nat, key: string, flightId: string, start: Promise<T>, now: int): State<T>
    requires c <= |s.callers|
  {
    var t := s.table.Without(key).WithFlight(Flight(key, flightId, start, None, c, now));
    State(now, t, s.timers, s.callers[..c] + [Leading(key, |s.table.flights|)]
          + (if c < |s.callers| then s.callers[c + 1..] else []))
  }

  function Next<T>(s: State<T>, a: Action<T>): State<T>
    requires s.table.Valid() && Enabled(s, a)
  {
    match a
    case Arrive(key, flightId, start, now) =>
      (match s.table.Shared(key, now)
       case Some(f) =>
         s.(clock := now, callers := s.callers + [Following(key, f, now, s.table.flights[f].settledAt)])
       case None => Start(s, |s.callers|, key, flightId, start, now))
    case Tick(now) => s.(clock := now)
    case Settle(f, outcome, now) =>
      s.(clock := now, table := s.table.(flights := s.table.flights[f := s.table.flights[f].(promise := outcome)]))
    case Record(f, now) =>
      s.(clock := now, table := s.table.WithSettled(f, now), timers := s.timers + {f})
    case Timer(f, now) =>
      s.(clock := now, table := s.table.Swept(f), timers := s.timers - {f})
    case Resume(c, flightId, start, now) =>
      var caller := s.callers[c];
      var flight := s.table.flights[caller.flight];
      match caller
      case Following(key, f, joinedAt, seen) =>
        if flight.promise.Resolved?
        then
          var r := Returned(key, f, joinedAt, seen, flight.promise.value, true, flight.flightId);
          s.(clock := now, callers := s.callers[c := r])
        else Start(s, c, key, flightId, start, now)
      case _ =>
        if flight.promise.Resolved?
        then
          var r := Returned(caller.key, caller.flight, flight.createdAt, None, flight.promise.value, false,
                            flight.flightId);
          s.(clock := now, callers := s.callers[c := r])
        else s.(clock := now, callers := s.callers[c := Threw(caller.key, caller.flight)])
  }

  // ---------------------------------------------------------------- what every step keeps

  /** The lookup found the flight unsettled, or settled at most graceMs before by the clock that it read. */
  ghost predicate FreshAtLookup<T>(t: Table<T>, f: nat, joinedAt: int, seen: Option<int>)
    requires f < |t.flights|
  {
    seen.Some? ==> t.flights[f].settledAt == seen && joinedAt - seen.value <= t.graceMs
  }

  ghost predicate CallerOk<T>(s: State<T>, c: nat)
    requires c < |s.callers|
  {
    var caller := s.callers[c];
    && caller.flight < |s.table.flights|
    && var flight := s.table.flights[caller.flight];
    && flight.key == caller.key
    && (caller.Following? ==> FreshAtLookup(s.table, caller.flight, caller.joinedAt, caller.seen))
    && (caller.Leading? ==> flight.creator == c)
    && (caller.Threw? ==> flight.creator == c && flight.promise.Rejected?)
    && (caller.Returned? ==>
          && flight.promise == Resolved(caller.result) && flight.flightId == caller.flightId
          && (if caller.collapsed then FreshAtLookup(s.table, caller.flight, caller.joinedAt, caller.seen)
              else flight.creator == c))
  }

  /** The caller that created `f` leads it, or has finished as its leader. */
  ghost predicate CreatorOk<T>(s: State<T>, f: nat)
    requires f < |s.table.flights|
  {
    var c := s.table.flights[f].creator;
    && c < |s.callers|
    && s.callers[c].flight == f
    && !s.callers[c].Following?
    && (s.callers[c].Returned? ==> !s.callers[c].collapsed)
  }

  ghost predicate Inv<T>(s: State<T>) {
    && s.table.Valid()
    && (forall f :: 0 <= f < |s.table.flights| ==> CreatorOk(s, f))
    && (forall c :: 0 <= c < |s.callers| ==> CallerOk(s, c))
  }

  lemma StartKeepsInv<T>(s: State<T>, c: nat, key: string, flightId: string, start: Promise<T>, now: int)
    requires Inv(s) && c <= |s.callers|
    requires c < |s.callers| ==> s.callers[c].Following?
    ensures Inv(Start(s, c, key, flightId, start, now))
  {
    var s' := Start(s, c, key, flightId, start, now);
    forall f | 0 <= f < |s'.table.flights| ensures CreatorOk(s', f) {
      if f < |s.table.flights| { assert CreatorOk(s, f); }
    }
    forall d | 0 <= d < |s'.callers| ensures CallerOk(s', d) {
      if d != c { assert CallerOk(s, d); }
    }
  }

  lemma StepKeepsFlights<T>(s: State<T>, a: Action<T>)
    requires Inv(s) && Enabled(s, a) && Creator(s, a).None?
    ensures var s' := Next(s, a); forall f :: 0 <= f < |s'.table.flights| ==> CreatorOk(s', f)
  {
    var s' := Next(s, a);
    if a.Resume? {
      assert CallerOk(s, a.caller);
    }
    forall f | 0 <= f < |s'.table.flights| ensures CreatorOk(s', f) {
      assert CreatorOk(s, f);
    }
  }

  lemma StepKeepsCallers<T>(s: State<T>, a: Action<T>)
    requires Inv(s) && Enabled(s, a) && Creator(s, a).None?
    ensures var s' := Next(s, a); forall c :: 0 <= c < |s'.callers| ==> CallerOk(s', c)
  {
    var s' := Next(s, a);
    if a.Arrive? {
      assert CreatorOk(s, s.table.Shared(a.key, a.now).value);
    }
    if a.Resume? {
      assert CallerOk(s, a.caller) && CreatorOk(s, s.callers[a.caller].flight);
    }
    forall c | 0 <= c < |s'.callers| ensures CallerOk(s', c) {
      if c < |s.callers| { assert CallerOk(s, c); }
    }
  }

  lemma StepKeepsInv<T>(s: State<T>, a: Action<T>)
    requires Inv(s) && Enabled(s, a)
    ensures Inv(Next(s, a))
  {
    if Creator(s, a).Some? {
      var key := if a.Arrive? then a.key else s.callers[a.caller].key;
      StartKeepsInv(s, Creator(s, a).value, key, a.flightId, a.start, a.now);
    } else {
      StepKeepsFlights(s, a);
      StepKeepsCallers(s, a);
    }
  }

  /** What no step takes back: callers and flights stay, with their keys, creators and times. */
  ghost predicate Grown<T>(s: State<T>, s': State<T>) {
    && |s.table.flights| <= |s'.table.flights| && |s.callers| <= |s'.callers|
    && (forall f :: 0 <= f < |s.table.flights| ==>
          && s'.table.flights[f].key == s.table.flights[f].key
          && s'.table.flights[f].creator == s.table.flights[f].creator
          && s'.table.flights[f].createdAt == s.table.flights[f].createdAt)
    && (forall c :: 0 <= c < |s.callers| ==> s'.callers[c].key == s.callers[c].key)
  }

  /** The caller that creates a flight in this step, if any. */
  function Creator<T>(s: State<T>, a: Action<T>): Option<nat>
    requires s.table.Valid() && Enabled(s, a)
  {
    if a.Arrive? && s.table.Shared(a.key, a.now).None? then Some(|s.callers|)
    else if Catches(s, a) then Some(a.caller)
    else None
  }

  lemma StepFlights<T>(s: State<T>, a: Action<T>)
    requires s.table.Valid() && Enabled(s, a)
    ensures var fs, fs' := s.table.flights, Next(s, a).table.flights;
            && Next(s, a).clock == a.now
            && |fs'| == |fs| + (if Creator(s, a).Some? then 1 else 0)
            && (forall f :: 0 <= f < |fs| ==>
                  fs'[f].promise == if a.Settle? && a.flight == f then a.outcome else fs[f].promise)
            && (Creator(s, a).Some? ==>
                  fs'[|fs|].creator == Creator(s, a).value && fs'[|fs|].createdAt == a.now
                    && fs'[|fs|].promise == a.start)
  {
  }

  lemma StepKeepsValid<T>(s: State<T>, a: Action<T>)
    requires s.table.Valid() && Enabled(s, a)
    ensures Next(s, a).table.Valid()
  {
  }

  lemma StepGrows<T>(s: State<T>, a: Action<T>)
    requires s.table.Valid() && Enabled(s, a)
    ensures Grown(s, Next(s, a))
  {
  }

  // ---------------------------------------------------------------- runs

  predicate Runs<T>(s: State<T>, acts: seq<Action<T>>)
    requires s.table.Valid()
    decreases |acts|
  {
    acts == [] || (Enabled(s, acts[0]) && Next(s, acts[0]).table.Valid() && Runs(Next(s, acts[0]), acts[1..]))
  }

  function End<T>(s: State<T>, acts: seq<Action<T>>): State<T>
    requires s.table.Valid() && Runs(s, acts)
    decreases |acts|
  {
    if acts == [] then s else End(Next(s, acts[0]), acts[1..])
  }

  lemma {:induction false} RunKeepsInv<T>(s: State<T>, acts: seq<Action<T>>)
    requires Inv(s) && Runs(s, acts)
    ensures Inv(End(s, acts))
    decreases |acts|
  {
    if acts != [] {
      StepKeepsInv(s, acts[0]);
      RunKeepsInv(Next(s, acts[0]), acts[1..]);
    }
  }

  /**
   Collapse fidelity. In every run, on any clock, a call that came back as collapsed carries the value and the
   flight id of a flight created for the same key, which resolved, and which its lookup found unsettled, or
   settled at most graceMs before. It never is a flight of the caller's own, and the caller has created none.
   */
  lemma CollapsedResultsAreFaithful<T>(graceMs: nat, now: int, acts: seq<Action<T>>, c: nat)
    requires Runs(Init(graceMs, now), acts)
    requires var s := End(Init(graceMs, now), acts); c < |s.callers| && s.callers[c].Returned? && s.callers[c].collapsed
    ensures var s := End(Init(graceMs, now), acts); var r := s.callers[c];
            && r.flight < |s.table.flights|
            && var f := s.table.flights[r.flight];
            && f.key == r.key && f.flightId == r.flightId && f.promise == Resolved(r.result)
            && (r.seen.Some? ==> f.settledAt == r.seen && r.joinedAt - r.seen.value <= graceMs)
            && (forall g :: 0 <= g < |s.table.flights| ==> s.table.flights[g].creator != c)
  {
    RunKeepsInv(Init<T>(graceMs, now), acts);
    GraceIsFixed(Init<T>(graceMs, now), acts);
    var s := End(Init(graceMs, now), acts);
    assert CallerOk(s, c);
    forall g | 0 <= g < |s.table.flights| ensures s.table.flights[g].creator != c {
      assert CreatorOk(s, g);
    }
  }

  // ---------------------------------------------------------------- runs on a clock that does not step back

  ghost predicate FlightTimed<T>(s: State<T>, f: nat)
    requires f < |s.table.flights|
  {
    var flight := s.table.flights[f];
    && flight.createdAt <= s.clock
    && (flight.settledAt.Some? ==> flight.createdAt <= flight.settledAt.value <= s.clock)
  }

  /** The flight existed when the caller joined it, and had not been settled for longer than graceMs. */
  ghost predicate CallerTimed<T>(s: State<T>, c: nat)
    requires c < |s.callers|
  {
    var caller := s.callers[c];
    caller.Following? || (caller.Returned? && caller.collapsed) ==>
      && caller.flight < |s.table.flights|
      && var flight := s.table.flights[caller.flight];
      && flight.createdAt <= caller.joinedAt <= s.clock
      && (flight.settledAt.Some? ==> caller.joinedAt - flight.settledAt.value <= s.table.graceMs)
  }

  ghost predicate Timed<T>(s: State<T>) {
    && s.table.graceMs >= 0
    && (forall f :: 0 <= f < |s.table.flights| ==> FlightTimed(s, f))
    && (forall c :: 0 <= c < |s.callers| ==> CallerTimed(s, c))
  }

  lemma StepKeepsFlightsTimed<T>(s: State<T>, a: Action<T>)
    requires s.table.Valid() && Timed(s) && Enabled(s, a) && OnTime(s, a)
    ensures var s' := Next(s, a); forall f :: 0 <= f < |s'.table.flights| ==> FlightTimed(s', f)
  {
    hide CallerTimed;
    var s' := Next(s, a);
    forall f | 0 <= f < |s'.table.flights| ensures FlightTimed(s', f) {
      if f < |s.table.flights| { assert FlightTimed(s, f); }
    }
  }

  lemma StepKeepsTimed<T>(s: State<T>, a: Action<T>)
    requires s.table.Valid() && Timed(s) && Enabled(s, a) && OnTime(s, a)
    ensures Timed(Next(s, a))
  {
    StepKeepsFlightsTimed(s, a);
    var s' := Next(s, a);
    if a.Arrive? && s.table.Shared(a.key, a.now).Some? {
      assert FlightTimed(s, s.table.Shared(a.key, a.now).value);
    }
    hide FlightTimed;
    forall c | 0 <= c < |s'.callers| ensures CallerTimed(s', c) {
      if c < |s.callers| { assert CallerTimed(s, c); }
    }
  }

  predicate RunsOnTime<T>(s: State<T>, acts: seq<Action<T>>)
    requires s.table.Valid() && Runs(s, acts)
    decreases |acts|
  {
    acts == [] || (OnTime(s, acts[0]) && RunsOnTime(Next(s, acts[0]), acts[1..]))
  }

  lemma {:induction false} RunKeepsTimed<T>(s: State<T>, acts: seq<Action<T>>)
    requires Timed(s) && s.table.Valid() && Runs(s, acts) && RunsOnTime(s, acts)
    ensures Timed(End(s, acts))
    decreases |acts|
  {
    if acts != [] {
      StepKeepsTimed(s, acts[0]);
      RunKeepsTimed(Next(s, acts[0]), acts[1..]);
    }
  }

  /**
   Freshness in absolute terms. On a clock that does not step back, a call that came back as collapsed joined
   its flight after the flight was created, and no later than graceMs after it settled, even if that
   settlement was only recorded after the lookup.
   */
  lemma CollapsedResultsAreFresh<T>(graceMs: nat, now: int, acts: seq<Action<T>>, c: nat)
    requires Runs(Init(graceMs, now), acts) && RunsOnTime(Init(graceMs, now), acts)
    requires var s := End(Init(graceMs, now), acts); c < |s.callers| && s.callers[c].Returned? && s.callers[c].collapsed
    ensures var s := End(Init(graceMs, now), acts); var r := s.callers[c];
            && r.flight < |s.table.flights|
            && var f := s.table.flights[r.flight];
            && f.createdAt <= r.joinedAt
            && (f.settledAt.Some? ==> r.joinedAt <= f.settledAt.value + graceMs)
  {
    RunKeepsTimed(Init<T>(graceMs, now), acts);
    GraceIsFixed(Init<T>(graceMs, now), acts);
    assert CallerTimed(End(Init(graceMs, now), acts), c);
  }

  lemma {:induction false} GraceIsFixed<T>(s: State<T>, acts: seq<Action<T>>)
    requires s.table.Valid() && Runs(s, acts)
    ensures End(s, acts).table.graceMs == s.table.graceMs
    decreases |acts|
  {
    if acts != [] { GraceIsFixed(Next(s, acts[0]), acts[1..]); }
  }

  // ---------------------------------------------------------------- who joins, and nothing leaks

  /**
   A call joins the flight that its key has, if that is not settled or was settled at most graceMs before; in
   every other case it creates a flight of its own, which its key has from then on.
   */
  lemma ArrivalJoinsIff<T>(s: State<T>, key: string, flightId: string, start: Promise<T>, now: int)
    requires s.table.Valid()
    ensures var s' := Next(s, Arrive(key, flightId, start, now)); var n, c := |s.table.flights|, |s.callers|;
            && |s'.callers| == c + 1 && s'.callers[..c] == s.callers
            && if key in s.table.inflight
                  && (s.table.flights[s.table.inflight[key]].settledAt.None?
                      || now - s.table.flights[s.table.inflight[key]].settledAt.value <= s.table.graceMs)
               then
                 && s'.table == s.table && s'.callers[c].Following?
                 && s'.callers[c].key == key && s'.callers[c].flight == s.table.inflight[key]
               else
                 && s'.callers[c] == Leading(key, n)
                 && s'.table.flights == s.table.flights + [Flight(key, flightId, start, None, c, now)]
                 && s'.table.inflight == s.table.inflight[key := n]
  {
  }

  /**
   A caller comes back with what its flight resolved to, marked as collapsed exactly if it joined the flight. If
   the flight rejected, its leader throws, and a caller that joined it leads a new flight instead.
   */
  lemma ResumeAnswers<T>(s: State<T>, c: nat, flightId: string, start: Promise<T>, now: int)
    requires s.table.Valid() && Enabled(s, Resume(c, flightId, start, now))
    ensures var s' := Next(s, Resume(c, flightId, start, now)); var caller, n := s.callers[c], |s.table.flights|;
            var flight := s.table.flights[caller.flight];
            && |s'.callers| == |s.callers|
            && (forall d :: 0 <= d < |s.callers| && d != c ==> s'.callers[d] == s.callers[d])
            && (flight.promise.Resolved? ==>
                  && s'.table == s.table && s'.callers[c].Returned?
                  && s'.callers[c].result == flight.promise.value && s'.callers[c].flightId == flight.flightId
                  && (s'.callers[c].collapsed <==> caller.Following?))
            && (flight.promise.Rejected? && caller.Leading? ==> s'.table == s.table && s'.callers[c].Threw?)
            && (flight.promise.Rejected? && caller.Following? ==>
                  && s'.callers[c] == Leading(caller.key, n)
                  && s'.table.flights == s.table.flights + [Flight(caller.key, flightId, start, None, c, now)]
                  && s'.table.inflight == s.table.inflight[caller.key := n])
  {
  }

  /** A settled flight that its key still has will be swept: its timer is armed. */
  ghost predicate Armed<T>(s: State<T>) {
    && (forall k <- s.table.inflight :: s.table.inflight[k] < |s.table.flights|
                                        && (s.table.flights[s.table.inflight[k]].settledAt.Some? ==>
                                              s.table.inflight[k] in s.timers))
  }

  lemma StepKeepsArmed<T>(s: State<T>, a: Action<T>)
    requires s.table.Valid() && Armed(s) && Enabled(s, a)
    ensures Armed(Next(s, a))
  {
  }

  lemma {:induction false} RunKeepsArmed<T>(s: State<T>, acts: seq<Action<T>>)
    requires s.table.Valid() && Armed(s) && Runs(s, acts)
    ensures Armed(End(s, acts))
    decreases |acts|
  {
    if acts != [] {
      StepKeepsArmed(s, acts[0]);
      RunKeepsArmed(Next(s, acts[0]), acts[1..]);
    }
  }

  /** Nothing leaks: when every flight is settled and no timer is left, the map is empty again, after any run. */
  lemma NothingLeaks<T>(graceMs: nat, now: int, acts: seq<Action<T>>)
    requires Runs(Init(graceMs, now), acts)
    requires var s := End(Init(graceMs, now), acts);
             s.timers == {} && forall f :: 0 <= f < |s.table.flights| ==> s.table.flights[f].settledAt.Some?
    ensures End(Init(graceMs, now), acts).table.inflight == map[]
  {
    RunKeepsArmed(Init<T>(graceMs, now), acts);
    var s := End(Init<T>(graceMs, now), acts);
    assert forall k :: k !in s.table.inflight;
  }

  /** A timer takes away the entry of its own flight, and no other: what its key has since then stays. */
  lemma TimerSweepsItsOwn<T>(s: State<T>, f: nat, now: int, k: string)
    requires s.table.Valid() && Enabled(s, Timer(f, now))
    ensures var m := Next(s, Timer(f, now)).table.inflight;
            && (k in m <==> k in s.table.inflight && s.table.inflight[k] != f)
            && (k in m ==> m[k] == s.table.inflight[k])
  {
  }

  // ---------------------------------------------------------------- single flight

  /** Every unsettled flight is the one its key maps to, so no key has two of them. */
  ghost predicate Single<T>(s: State<T>) {
    forall f :: 0 <= f < |s.table.flights| && s.table.flights[f].promise.Pending? ==> s.table.Current(f)
  }

  /** A follower resumes in its catch branch. */
  predicate Catches<T>(s: State<T>, a: Action<T>)
    requires Enabled(s, a)
  {
    a.Resume? && s.callers[a.caller].Following? && s.table.flights[s.callers[a.caller].flight].promise.Rejected?
  }

  /** A follower in its catch branch finds its key taken by a flight that is still unsettled. */
  predicate DropsLive<T>(s: State<T>, a: Action<T>)
    requires s.table.Valid() && Enabled(s, a)
  {
    && Catches(s, a)
    && var key := s.callers[a.caller].key;
    && key in s.table.inflight && s.table.flights[s.table.inflight[key]].promise.Pending?
  }

  lemma StepSingleIff<T>(s: State<T>, a: Action<T>)
    requires Inv(s) && Single(s) && Enabled(s, a)
    ensures Single(Next(s, a)) <==> !DropsLive(s, a)
  {
    var s' := Next(s, a);
    if DropsLive(s, a) {
      var f := s.table.inflight[s.callers[a.caller].key];
      assert s'.table.flights[f] == s.table.flights[f];
      assert s'.table.inflight[s.table.flights[f].key] == |s.table.flights|;
    } else {
      forall f | 0 <= f < |s'.table.flights| && s'.table.flights[f].promise.Pending?
        ensures s'.table.Current(f)
      {
        if f < |s.table.flights| {
          assert s.table.flights[f].promise.Pending?;
          assert s.table.flights[f].key == s'.table.flights[f].key;
        }
      }
    }
  }

  ghost predicate AlwaysSingle<T>(s: State<T>, acts: seq<Action<T>>)
    requires s.table.Valid() && Runs(s, acts)
    decreases |acts|
  {
    Single(s) && (acts == [] || AlwaysSingle(Next(s, acts[0]), acts[1..]))
  }

  predicate NeverDropsLive<T>(s: State<T>, acts: seq<Action<T>>)
    requires s.table.Valid() && Runs(s, acts)
    decreases |acts|
  {
    acts == [] || (!DropsLive(s, acts[0]) && NeverDropsLive(Next(s, acts[0]), acts[1..]))
  }

  /**
   Single flight, exactly: a run keeps at most one unsettled flight per key, the one in `inflight`,
   if and only if no catch branch in it deletes the entry of an unsettled flight.
   */
  lemma {:induction false} SingleFlightIff<T>(s: State<T>, acts: seq<Action<T>>)
    requires Inv(s) && Single(s) && Runs(s, acts)
    ensures AlwaysSingle(s, acts) <==> NeverDropsLive(s, acts)
    decreases |acts|
  {
    if acts != [] {
      StepSingleIff(s, acts[0]);
      StepKeepsInv(s, acts[0]);
      if Single(Next(s, acts[0])) {
        SingleFlightIff(Next(s, acts[0]), acts[1..]);
      }
    }
  }

  /** The promise this step brings, if any, does not reject. */
  predicate Fulfils<T>(a: Action<T>) {
    match a
    case Arrive(_, _, start, _) => !start.Rejected?
    case Resume(_, _, start, _) => !start.Rejected?
    case Settle(_, outcome, _) => !outcome.Rejected?
    case _ => true
  }

  predicate NothingRejects<T>(acts: seq<Action<T>>) {
    acts == [] || (Fulfils(acts[0]) && NothingRejects(acts[1..]))
  }

  ghost predicate NoneRejected<T>(s: State<T>) {
    forall f :: 0 <= f < |s.table.flights| ==> !s.table.flights[f].promise.Rejected?
  }

  /** In every run in which no flight rejects, through eviction, joins and late timers. */
  lemma {:induction false} SingleFlightWithoutRejections<T>(s: State<T>, acts: seq<Action<T>>)
    requires Inv(s) && Single(s) && NoneRejected(s) && Runs(s, acts) && NothingRejects(acts)
    ensures AlwaysSingle(s, acts)
    decreases |acts|
  {
    if acts != [] {
      StepSingleIff(s, acts[0]);
      StepKeepsInv(s, acts[0]);
      SingleFlightWithoutRejections(Next(s, acts[0]), acts[1..]);
    }
  }

  lemma RunsCons<T>(s: State<T>, a: Action<T>, rest: seq<Action<T>>)
    requires s.table.Valid() && Enabled(s, a) && Next(s, a).table.Valid() && Runs(Next(s, a), rest)
    ensures Runs(s, [a] + rest) && End(s, [a] + rest) == End(Next(s, a), rest)
    ensures RunsOnTime(s, [a] + rest) <==> OnTime(s, a) && RunsOnTime(Next(s, a), rest)
  {
    assert ([a] + rest)[1..] == rest;
  }

  /** One leader and two followers of one key, after the leader's flight rejected. */
  function FailedLeader<T>(): State<T> {
    State(0, Table(50, [Flight("k", "1", Rejected, None, 0, 0)], map["k" := 0]), {},
          [Leading("k", 0), Following("k", 0, 0, None), Following("k", 0, 0, None)])
  }

  lemma FailedLeaderIsReachable<T>(rest: seq<Action<T>>)
    requires FailedLeader<T>().table.Valid() && Runs(FailedLeader<T>(), rest)
    ensures var s0 := Init<T>(50, 0);
            var acts := [Arrive("k", "1", Pending, 0)]
              + ([Arrive("k", "2", Pending, 0)] + ([Arrive("k", "3", Pending, 0)] + ([Settle(0, Rejected, 0)] + rest)));
            Runs(s0, acts) && End(s0, acts) == End(FailedLeader<T>(), rest)
  {
    var s0 := Init<T>(50, 0);
    var t1: Table<T> := Table(50, [Flight("k", "1", Pending, None, 0, 0)], map["k" := 0]);
    var s1 := Next(s0, Arrive("k", "1", Pending, 0));
    assert s1 == State(0, t1, {}, [Leading("k", 0)]);
    var s2 := Next(s1, Arrive("k", "2", Pending, 0));
    assert s2 == State(0, t1, {}, [Leading("k", 0), Following("k", 0, 0, None)]);
    var s3 := Next(s2, Arrive("k", "3", Pending, 0));
    assert s3 == State(0, t1, {}, [Leading("k", 0), Following("k", 0, 0, None), Following("k", 0, 0, None)]);
    assert Next(s3, Settle(0, Rejected, 0)) == FailedLeader<T>();
    hide Next, FailedLeader, Init, Runs;
    RunsCons(s3, Settle(0, Rejected, 0), rest);
    RunsCons(s2, Arrive("k", "3", Pending, 0), [Settle(0, Rejected, 0)] + rest);
    RunsCons(s1, Arrive("k", "2", Pending, 0), [Arrive("k", "3", Pending, 0)] + ([Settle(0, Rejected, 0)] + rest));
    RunsCons(s0, Arrive("k", "1", Pending, 0),
             [Arrive("k", "2", Pending, 0)] + ([Arrive("k", "3", Pending, 0)] + ([Settle(0, Rejected, 0)] + rest)));
  }

  lemma BothFollowersLead<T>(first: Action<T>, second: Action<T>)
    requires first == Resume(1, "2", Pending, 0) && second == Resume(2, "3", Pending, 0)
    ensures FailedLeader<T>().table.Valid() && Runs(FailedLeader<T>(), [first, second])
    ensures End(FailedLeader<T>(), [first, second]).table.flights
            == FailedLeader<T>().table.flights
              + [Flight("k", "2", Pending, None, 1, 0), Flight("k", "3", Pending, None, 2, 0)]
  {
    var s4 := FailedLeader<T>();
    var s5 := Next(s4, first);
    assert s5.callers == [Leading("k", 0), Leading("k", 1), Following("k", 0, 0, None)];
    RunsCons(s5, second, []);
    RunsCons(s4, first, [second] + []);
    assert [first] + ([second] + []) == [first, second];
  }

  /**
   With a rejection, two unsettled flights for one key are possible: two followers of a failed
   leader each delete the entry they find, so the second deletes the first one's new flight.
   */
  lemma TwoFollowersOfAFailedLeaderBothLead<T>()
    ensures exists acts: seq<Action<T>> ::
              Runs(Init<T>(50, 0), acts)
              && var t := End(Init<T>(50, 0), acts).table;
              && |t.flights| == 3
              && t.flights[1].key == t.flights[2].key && t.flights[1].promise.Pending? && t.flights[2].promise.Pending?
  {
    hide Next;
    var first: Action<T>, second: Action<T> := Resume(1, "2", Pending, 0), Resume(2, "3", Pending, 0);
    BothFollowersLead(first, second);
    FailedLeaderIsReachable<T>([first, second]);
  }

  // ---------------------------------------------------------------- one flight per grace window

  /** Flight `f` settled, and its grace window is over by `now`. */
  ghost predicate Over<T>(t: Table<T>, f: nat, now: int)
    requires f < |t.flights|
  {
    t.flights[f].settledAt.Some? && t.flights[f].settledAt.value + t.graceMs <= now
  }

  ghost predicate Spaced<T>(s: State<T>) {
    && (forall i, j :: 0 <= i < j < |s.table.flights| && s.table.flights[i].key == s.table.flights[j].key ==>
          Over(s.table, i, s.table.flights[j].createdAt))
    && (forall f :: 0 <= f < |s.table.flights| ==> s.table.Current(f) || Over(s.table, f, s.clock))
  }

  lemma StepKeepsSpaced<T>(s: State<T>, a: Action<T>)
    requires Inv(s) && Timed(s) && Spaced(s) && Enabled(s, a) && OnTime(s, a) && !Catches(s, a)
    ensures Spaced(Next(s, a))
  {
    hide CallerTimed, FlightTimed, CallerOk, CreatorOk;
    var s' := Next(s, a);
    forall f | 0 <= f < |s.table.flights| ensures Over(s.table, f, s.clock) ==> Over(s'.table, f, s'.clock) {}
    forall i, j | 0 <= i < j < |s'.table.flights| && s'.table.flights[i].key == s'.table.flights[j].key
      ensures Over(s'.table, i, s'.table.flights[j].createdAt)
    {
      if j < |s.table.flights| {
        assert Over(s.table, i, s.table.flights[j].createdAt);
      }
    }
  }

  predicate NeverCatches<T>(s: State<T>, acts: seq<Action<T>>)
    requires s.table.Valid() && Runs(s, acts)
    decreases |acts|
  {
    acts == [] || (!Catches(s, acts[0]) && NeverCatches(Next(s, acts[0]), acts[1..]))
  }

  lemma {:induction false} RunKeepsSpaced<T>(s: State<T>, acts: seq<Action<T>>)
    requires Inv(s) && Timed(s) && Spaced(s) && Runs(s, acts) && RunsOnTime(s, acts) && NeverCatches(s, acts)
    ensures Spaced(End(s, acts)) && Timed(End(s, acts))
    decreases |acts|
  {
    if acts != [] {
      StepKeepsInv(s, acts[0]);
      StepKeepsTimed(s, acts[0]);
      StepKeepsSpaced(s, acts[0]);
      RunKeepsSpaced(Next(s, acts[0]), acts[1..]);
    }
  }

  /** The flights for `key` created in [s, e], among the first `n`. */
  function Created<T>(flights: seq<Flight<T>>, key: string, s: int, e: int, n: nat): nat
    requires n <= |flights|
  {
    if n == 0 then 0
    else Created(flights, key, s, e, n - 1)
         + if flights[n - 1].key == key && s <= flights[n - 1].createdAt <= e then 1 else 0
  }

  lemma {:induction false} CreationsAreApart<T>(s: State<T>, key: string, from: int, to: int, n: nat)
    requires Timed(s) && Spaced(s) && n <= |s.table.flights| && from <= to
    ensures var k := Created(s.table.flights, key, from, to, n);
            && (k > 0 ==> (k - 1) * s.table.graceMs <= to - from)
            && (forall j :: n <= j < |s.table.flights| && s.table.flights[j].key == key && k > 0 ==>
                  k * s.table.graceMs <= s.table.flights[j].createdAt - from)
  {
    if n > 0 {
      CreationsAreApart(s, key, from, to, n - 1);
      var k := Created(s.table.flights, key, from, to, n);
      var last := s.table.flights[n - 1];
      if last.key == key && from <= last.createdAt <= to {
        assert FlightTimed(s, n - 1);
        assert (k - 1) * s.table.graceMs <= last.createdAt - from;
        forall j | n <= j < |s.table.flights| && s.table.flights[j].key == key
          ensures k * s.table.graceMs <= s.table.flights[j].createdAt - from
        {
          assert Over(s.table, n - 1, s.table.flights[j].createdAt);
          assert k * s.table.graceMs == (k - 1) * s.table.graceMs + s.table.graceMs;
        }
      }
    }
  }

  /**
   What collapsing buys: in every run on a clock that does not step back whose catch branch is never taken,
     flights for one key are
   created at least a grace window apart, so k of them need an interval of (k - 1) * graceMs.
   */
  lemma OneFlightPerGraceWindow<T>(graceMs: nat, now: int, acts: seq<Action<T>>, key: string, from: int, to: int)
    requires from <= to
    requires Runs(Init(graceMs, now), acts) && RunsOnTime(Init(graceMs, now), acts)
    requires NeverCatches(Init(graceMs, now), acts)
    ensures var flights := End(Init(graceMs, now), acts).table.flights;
            var k := Created(flights, key, from, to, |flights|);
            k > 0 ==> (k - 1) * graceMs <= to - from
  {
    var s := End(Init<T>(graceMs, now), acts);
    RunKeepsSpaced(Init<T>(graceMs, now), acts);
    GraceIsFixed(Init<T>(graceMs, now), acts);
    CreationsAreApart(s, key, from, to, |s.table.flights|);
  }
}
