/**
 * The rate-limit bookkeeping of `ScoreSaberAPI.fetchPage`
 * (src/scoresaber/api/index.ts).
 *
 * The two static fields become a record, and every `setTimeout` that refreshes
 * the quota becomes a pending timer remembered by its due instant. Time is an
 * explicit argument in milliseconds since the Unix epoch. A call runs in two
 * halves split at `await Axios.get`: `Admit` initialises and passes the gate,
 * and `Settle` handles what the request got back. A call that finds the gate
 * closed yields a wait; calling again after that wait is the next turn of the
 * source's loop, because the initialisation step does nothing once the reset
 * time is set. `FetchPage` is a whole call with nothing in between; a `Run`
 * lets the clock move while the request is in flight.
 */
module RateLimit {
  import opened Js

  /** Requests per window, restored by every refresh timer. */
  const FullQuota := 400
  /** No request is made while this many or fewer remain. */
  const Threshold := 10
  /** Reset time before the first request. */
  const Unset := -1
  /** Length of the first window, one second longer than the server's. */
  const FirstWindowSeconds := 61
  /** Extra sleep past the reset instant before the gate is re-checked. */
  const WaitMarginMillis := 1000
  /** Extra delay past a server-reported reset instant before the refresh. */
  const RefreshMarginMillis := 500

  /**
   * `remaining` and `reset` (Unix seconds) mirror the class fields; `timers`
   * holds the due instants (ms) of refreshes that have been scheduled and
   * have not fired yet.
   */
  datatype Limiter = Limiter(remaining: int, reset: int, timers: seq<int>)

  const Initial := Limiter(FullQuota, Unset, [])

  /** The outcome of one call of `fetchPage`, up to completion or the gate's wait. */
  datatype Step =
    | Blocked(state: Limiter, wait: int)      // gate closed: sleep `wait` ms, then try again
    | RequestFailed(state: Limiter)           // the request rejected: the call throws before counting it
    | MissingResetHeader(state: Limiter)      // the response lacked the header: the call throws
    | Completed(state: Limiter)               // the response's data is returned

  /** What the request of a call gets back once the gate lets it through. */
  datatype Response =
    | Rejected                                // the request failed even after its retries
    | Answered(header: Option<string>)        // a response with this `x-ratelimit-reset` header (None: absent)

  /** The first call fixes the first window and schedules its refresh. */
  function Begin(s: Limiter, now: nat): (r: Limiter)
    ensures r.remaining == s.remaining
    ensures s.reset != Unset ==> r == s
    ensures s.reset == Unset ==>
              && now + 60000 < r.reset * 1000 <= now + 61000
              && r.timers == s.timers + [r.reset * 1000]
  {
    if s.reset == Unset then
      var reset := now / 1000 + FirstWindowSeconds;
      s.(reset := reset, timers := s.timers + [reset * 1000])
    else
      s
  }

  /** The first half of a call, up to the request: the gate either waits or lets it through. */
  datatype Admission =
    | Wait(state: Limiter, wait: int)         // gate closed: sleep `wait` ms, then try again
    | Sent(state: Limiter)                    // gate open: the request is in flight

  /** Initialisation and the gate, up to `await Axios.get`. */
  function Admit(s: Limiter, now: nat): (r: Admission)
    ensures r.state == Begin(s, now)
    ensures r.Wait? <==> s.remaining <= Threshold
    ensures r.Wait? ==> now + r.wait == r.state.reset * 1000 + WaitMarginMillis
  {
    var b := Begin(s, now);
    if b.remaining <= Threshold then Wait(b, b.reset * 1000 - now + WaitMarginMillis) else Sent(b)
  }

  /**
   * The value the reset time takes after a response carrying `header`: the
   * parsed header when it is later, the old value otherwise (`NaN` compares
   * false).
   */
  function NewReset(reset: int, header: string): (r: int)
    ensures r >= reset
    ensures r == reset || ParseInt(header) == Some(r)
    ensures ParseInt(header).Some? ==> r >= ParseInt(header).value
  {
    match ParseInt(header)
    case Some(v) => Max(reset, v)
    case None => reset
  }

  /** The part of `fetchPage` after the response arrived. */
  function Respond(s: Limiter, header: Option<string>): (r: Step)
    ensures !r.Blocked?
    ensures r.state.remaining == s.remaining - 1
    ensures r.MissingResetHeader? <==> Falsy(header)
    ensures r.MissingResetHeader? ==> r.state.reset == s.reset && r.state.timers == s.timers
    ensures r.Completed? ==> r.state.reset == NewReset(s.reset, header.value)
    ensures r.Completed? ==>
              r.state.timers == s.timers + (if r.state.reset > s.reset then [r.state.reset * 1000 + RefreshMarginMillis] else [])
  {
    var d := s.(remaining := s.remaining - 1);
    if Falsy(header) then
      MissingResetHeader(d)
    else
      var reset := NewReset(d.reset, header.value);
      if reset > d.reset then Completed(d.(reset := reset, timers := d.timers + [reset * 1000 + RefreshMarginMillis]))
      else Completed(d)
  }

  /** The second half of a call, after `await Axios.get` returned or threw. */
  function Settle(s: Limiter, response: Response): (r: Step)
    ensures !r.Blocked?
    ensures r.RequestFailed? <==> response.Rejected?
    ensures r.RequestFailed? ==> r.state == s
    ensures response.Answered? ==> r.state.remaining == s.remaining - 1
    ensures r.MissingResetHeader? <==> response.Answered? && Falsy(response.header)
  {
    match response
    case Rejected => RequestFailed(s)
    case Answered(header) => Respond(s, header)
  }

  /**
   * One call of `fetchPage` at time `now`, with `response` what its request
   * will get back if the gate lets it through.
   */
  function FetchPage(s: Limiter, now: nat, response: Response): (r: Step)
    ensures r.state.reset >= s.reset
    ensures s.reset == Unset ==> r.state.reset >= now / 1000 + FirstWindowSeconds
    ensures r.Blocked? <==> s.remaining <= Threshold
    ensures r.Blocked? ==> r.state == Begin(s, now) && now + r.wait == r.state.reset * 1000 + WaitMarginMillis
    ensures r.RequestFailed? <==> s.remaining > Threshold && response.Rejected?
    ensures r.RequestFailed? ==> r.state == Begin(s, now)
    ensures r.MissingResetHeader? || r.Completed? ==> r.state.remaining == s.remaining - 1
    ensures r.MissingResetHeader? <==> s.remaining > Threshold && response.Answered? && Falsy(response.header)
    ensures r.MissingResetHeader? ==> r.state.reset == Begin(s, now).reset
    ensures r.Completed? ==> r.state.reset == NewReset(Begin(s, now).reset, response.header.value)
  {
    match Admit(s, now)
    case Wait(b, wait) => Blocked(b, wait)
    case Sent(b) => Settle(b, response)
  }

  /** The timers still pending at `now`, in scheduling order. */
  function Pending(timers: seq<int>, now: int): (p: seq<int>)
    ensures |p| <= |timers|
    ensures forall d :: d in p <==> d in timers && d > now
    ensures |p| == |timers| <==> forall i :: 0 <= i < |timers| ==> timers[i] > now
  {
    if |timers| == 0 then []
    else
      var last := timers[|timers| - 1];
      assert timers == timers[..|timers| - 1] + [last];
      Pending(timers[..|timers| - 1], now) + (if last > now then [last] else [])
  }

  /** The clock reaches `now`: every timer due by then fires and restores the full quota. */
  function Advance(s: Limiter, now: int): (r: Limiter)
    ensures r.reset == s.reset
    ensures forall d :: d in r.timers <==> d in s.timers && d > now
    ensures (exists i :: 0 <= i < |s.timers| && s.timers[i] <= now) ==> r.remaining == FullQuota
    ensures (forall i :: 0 <= i < |s.timers| ==> s.timers[i] > now) ==> r.remaining == s.remaining
  {
    var p := Pending(s.timers, now);
    if |p| < |s.timers| then s.(remaining := FullQuota, timers := p) else s.(timers := p)
  }

  /**
   * The limiter as one sequential caller sees it: `awaiting` says whether its
   * request is in flight, so that a refresh can fire between the gate and the
   * response.
   */
  datatype Session = Session(limiter: Limiter, awaiting: bool)

  const Start := Session(Initial, false)

  /** What can happen in a single-caller run. */
  datatype Event =
    | Call(now: nat)                          // a call (or the next turn of its wait loop) reaches the gate
    | Reply(response: Response)               // the request in flight gets its response
    | Tick(now: nat)                          // the clock reaches `now`

  /** A reply with nothing in flight, or a call while one is, cannot come from one caller and changes nothing. */
  function Apply(s: Session, e: Event): (r: Session)
    ensures r.limiter.reset >= s.limiter.reset
    ensures (e.Call? && s.awaiting) || (e.Reply? && !s.awaiting) ==> r == s
    ensures e.Call? && !s.awaiting ==>
              r.limiter == Begin(s.limiter, e.now) && (r.awaiting <==> s.limiter.remaining > Threshold)
    ensures e.Reply? && s.awaiting ==> !r.awaiting && r.limiter == Settle(s.limiter, e.response).state
    ensures e.Tick? ==> r.awaiting == s.awaiting && r.limiter == Advance(s.limiter, e.now)
  {
    match e
    case Call(now) =>
      if s.awaiting then s
      else (match Admit(s.limiter, now)
            case Wait(b, _) => Session(b, false)
            case Sent(b) => Session(b, true))
    case Reply(response) =>
      if s.awaiting then Session(Settle(s.limiter, response).state, false) else s
    case Tick(now) => s.(limiter := Advance(s.limiter, now))
  }

  function Run(s: Session, es: seq<Event>): Session
    decreases |es|
  {
    if |es| == 0 then s else Apply(Run(s, es[..|es| - 1]), es[|es| - 1])
  }

  /**
   * The invariant of a sequential run: the quota stays in [Threshold, FullQuota],
   * nothing is pending before the first call, the reset time once set is at
   * least the first window's, and no timer is due after the current reset
   * instant plus the refresh margin.
   */
  ghost predicate Valid(s: Limiter) {
    && Threshold <= s.remaining <= FullQuota
    && (s.reset == Unset ==> s.remaining == FullQuota && s.timers == [])
    && (s.reset == Unset || s.reset >= FirstWindowSeconds)
    && forall d :: d in s.timers ==> d <= s.reset * 1000 + RefreshMarginMillis
  }

  /** While a request is in flight, the gate had let it through, so one more can be counted. */
  ghost predicate ValidSession(s: Session) {
    && Valid(s.limiter)
    && (s.awaiting ==> s.limiter.remaining > Threshold && s.limiter.reset != Unset)
  }

  lemma InitialIsValid()
    ensures ValidSession(Start)
  {
  }

  lemma ApplyKeepsValid(s: Session, e: Event)
    requires ValidSession(s)
    ensures ValidSession(Apply(s, e))
    ensures Apply(s, e).limiter.reset >= s.limiter.reset
  {
    match e
    case Call(now) =>
      var b := Begin(s.limiter, now);
      assert Valid(b);
    case Reply(response) =>
    case Tick(now) =>
  }

  /** A call whose response comes before any tick is exactly `FetchPage`. */
  lemma CallThenReplyIsFetchPage(s: Limiter, now: nat, response: Response)
    ensures var c := Apply(Session(s, false), Call(now));
            c.awaiting <==> !FetchPage(s, now, response).Blocked?
    ensures Run(Session(s, false), [Call(now), Reply(response)]).limiter == FetchPage(s, now, response).state
  {
    var es := [Call(now), Reply(response)];
    assert es[..1] == [Call(now)];
    assert Run(Session(s, false), es[..1]) == Apply(Session(s, false), Call(now));
  }

  /** Running two sequences of events one after the other is running their concatenation. */
  lemma {:induction false} RunAppend(s: Session, es: seq<Event>, fs: seq<Event>)
    ensures Run(s, es + fs) == Run(Run(s, es), fs)
    decreases |fs|
  {
    if |fs| == 0 {
      assert es + fs == es;
    } else {
      var front := fs[..|fs| - 1];
      assert (es + fs)[..|es + fs| - 1] == es + front;
      assert (es + fs)[|es + fs| - 1] == fs[|fs| - 1];
      RunAppend(s, es, front);
    }
  }

  /**
   * The first window's refresh can fire while the first request is in flight.
   * A reply after 61 s then finds the full quota: it leaves 400 when the
   * request was rejected and 399 otherwise, and the only refresh that can be
   * pending is the one the reply itself scheduled for a newer reset.
   */
  lemma RefreshDuringFirstRequest(now: nat, response: Response)
    ensures var r := Run(Start, [Call(now), Tick(now + 61000), Reply(response)]);
            && !r.awaiting
            && r.limiter.remaining == (if response.Rejected? then FullQuota else FullQuota - 1)
            && |r.limiter.timers| <= 1
            && (forall d :: d in r.limiter.timers ==> d == r.limiter.reset * 1000 + RefreshMarginMillis)
            && (response.Rejected? || Falsy(response.header) ==> r.limiter.timers == [])
  {
    var es := [Call(now), Tick(now + 61000), Reply(response)];
    assert es[..1] == [Call(now)];
    assert es[..2] == [Call(now), Tick(now + 61000)];
    assert es[..2][..1] == [Call(now)];
    var b := Begin(Initial, now);
    assert Run(Start, es[..1]) == Session(b, true);
    assert Run(Start, es[..2]) == Session(Advance(b, now + 61000), true);
    assert b.timers[0] <= now + 61000;
    var a := Advance(b, now + 61000);
    assert a.timers == [] && a.remaining == FullQuota;
    assert Run(Start, es) == Apply(Session(a, true), Reply(response));
  }

  /** Every sequential run keeps the invariant, and the reset time never moves back. */
  lemma {:induction false} RunKeepsValid(s: Session, es: seq<Event>)
    requires ValidSession(s)
    ensures ValidSession(Run(s, es))
    ensures Run(s, es).limiter.reset >= s.limiter.reset
    decreases |es|
  {
    if |es| > 0 {
      RunKeepsValid(s, es[..|es| - 1]);
      ApplyKeepsValid(Run(s, es[..|es| - 1]), es[|es| - 1]);
    }
  }

  /** Whatever happens, from any state, the reset time never moves back. */
  lemma {:induction false} RunResetNeverDecreases(s: Session, es: seq<Event>)
    ensures Run(s, es).limiter.reset >= s.limiter.reset
    decreases |es|
  {
    if |es| > 0 {
      RunResetNeverDecreases(s, es[..|es| - 1]);
      var before := Run(s, es[..|es| - 1]);
      match es[|es| - 1]
      case Call(now) =>
        assert Begin(before.limiter, now).reset >= before.limiter.reset;
      case Reply(response) =>
      case Tick(now) =>
        assert Advance(before.limiter, now).reset == before.limiter.reset;
    }
  }

  /** From the initial state, the quota stays within [10, 400] whatever happens. */
  lemma ReachableWithinQuota(es: seq<Event>)
    ensures Threshold <= Run(Start, es).limiter.remaining <= FullQuota
  {
    InitialIsValid();
    RunKeepsValid(Start, es);
  }

  /** Once a call has set the reset time, it never returns to the sentinel. */
  lemma {:induction false} ResetNeverUnset(s: Session, es: seq<Event>)
    requires ValidSession(s) && s.limiter.reset != Unset
    ensures Run(s, es).limiter.reset >= FirstWindowSeconds
  {
    RunKeepsValid(s, es);
  }

  /**
   * The wait ends after every refresh scheduled so far: if a refresh is
   * pending when the gate closes, the call made when the wait ends goes ahead.
   */
  lemma WaitReopensGate(s: Limiter, now: nat, response: Response)
    requires Valid(s)
    requires FetchPage(s, now, response).Blocked?
    requires |FetchPage(s, now, response).state.timers| > 0
    ensures var b := FetchPage(s, now, response);
            forall d :: d in b.state.timers ==> d < now + b.wait
    ensures var b := FetchPage(s, now, response);
            var later := now + b.wait;
            later >= 0 && !FetchPage(Advance(b.state, later), later, response).Blocked?
  {
    var b := FetchPage(s, now, response);
    assert Valid(b.state);
    var later := now + b.wait;
    assert b.state.timers[0] in b.state.timers;
    assert b.state.timers[0] <= later;
    var a := Advance(b.state, later);
    assert a.remaining == FullQuota;
  }
}
