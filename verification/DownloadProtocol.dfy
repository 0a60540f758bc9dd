/**
 The download protocol as a transition system: any number of requests, each with an opener thread,
 a cancellable coroutine and a stream, take turns in any order and share one semaphore. The
 counters of opens, closes, acquires and releases are a history: no step looks at them.
 */
module DownloadProtocol {
  import opened Download

  const CHUNK := 65536

  /** The thread that opens the object. */
  datatype Opener = Idle | Reading | Holding | Discarding | Returned | Failed

  /** Where the request coroutine is, and after it the call of the response it returned. */
  datatype Stage =
    | Arriving      // waiting for a permit
    | Authorizing   // has a permit if there are any; authorization and header checks
    | Opening       // waiting, shielded and with a timeout, for the opener
    | Delivered     // the opened body is in the local variable, not yet taken
    | Checking      // taken; size check, lease and response construction
    | Abandoning    // gave up waiting; closes the body it picked up, if any
    | Unwinding     // the final block of a request without a response
    | Returning     // the final block gives the permit back
    | Refused       // the request ended without a response
    | Serving       // the response streams
    | Background    // the background task closes the lease
    | Ending        // the final block of the response's call closes the lease
    | Done

  /** The generator that feeds the response. */
  datatype Stream = Unstarted | Running | Stopping(normally: bool) | Stopped(normally: bool)

  datatype Request = Request(
    stage: Stage,
    acquired: bool,
    opener: Opener,
    pending: Pending,
    salvage: bool,          // the body that giving up picked up
    local: bool,            // the coroutine's own reference to the body
    lease: Lease,
    size: nat,              // authorized
    content: seq<Byte>,     // what the object really holds
    position: nat,
    yielded: seq<Byte>,
    stream: Stream,
    opens: nat,
    closes: nat,
    acquires: nat,
    releases: nat)

  function Arrival(size: nat): Request {
    Request(Arriving, false, Idle, Pending(false, false), false, false, NoLease, size, [], 0, [], Unstarted, 0, 0, 0, 0)
  }

  /** A limited world has a semaphore; an unlimited one never counts permits. */
  datatype World = World(limited: bool, available: int, requests: seq<Request>)

  datatype Event =
    | Acquire | TurnAway | Authorize | AuthorizationFails
    | Spawn | OpenFails | OpenReturns(content: seq<Byte>) | Register | Discard
    | Deliver | GiveUp | Salvage | Take | Reject | Accept | CloseLocal | ReturnPermit
    | Begin | ReadChunk(n: nat) | ReadEnd | Interrupt | StreamStops
    | CallFails | StartBackground | BackgroundEnds | CallEnds
    | EnterClose | LeaveClose

  // ----- the steps of one request -----

  /** May this event happen now? */
  predicate Enabled(d: Request, e: Event, limited: bool, available: int) {
    match e
    case Acquire => d.stage.Arriving? && (limited ==> available > 0)
    case TurnAway => d.stage.Arriving?
    case Authorize => d.stage.Authorizing?
    case AuthorizationFails => d.stage.Authorizing?
    case Spawn => d.stage.Opening? && d.opener.Idle?
    case OpenFails => d.opener.Reading?
    case OpenReturns(_) => d.opener.Reading?
    case Register => d.opener.Holding?
    case Discard => d.opener.Discarding?
    case Deliver => d.stage.Opening? && d.opener.Returned?
    case GiveUp => d.stage.Opening?
    case Salvage => d.stage.Abandoning?
    case Take => d.stage.Delivered?
    case Reject => d.stage.Checking?
    case Accept => d.stage.Checking?
    case CloseLocal => d.stage.Unwinding?
    case ReturnPermit => d.stage.Returning?
    case Begin => Responded(d.stage) && d.stream.Unstarted?
    case ReadChunk(n) => d.stream.Running? && 0 < n <= CHUNK && d.position + n <= |d.content|
    case ReadEnd => d.stream.Running? && d.position == |d.content|
    case Interrupt => d.stream.Running?
    case StreamStops => d.stream.Stopping? && d.lease.Closed?
    case CallFails => d.stage.Serving? || d.stage.Background?
    case StartBackground => d.stage.Serving? && d.stream == Stopped(true)
    case BackgroundEnds => d.stage.Background? && d.lease.Closed?
    case CallEnds => d.stage.Ending? && d.lease.Closed?
    case EnterClose => Closing(d) && (d.lease.Held? || d.lease.Closed?)
    case LeaveClose => d.lease.Releasing?
  }

  predicate Responded(s: Stage) {
    s.Serving? || s.Background? || s.Ending? || s.Done?
  }

  /** Someone is calling the lease's close: the generator, the background task or the call. */
  predicate Closing(d: Request) {
    d.stream.Stopping? || d.stage.Background? || d.stage.Ending?
  }

  /** The request after the event. */
  function After(d: Request, e: Event, limited: bool): Request {
    match e
    case Acquire => d.(stage := Authorizing, acquired := limited, acquires := d.acquires + if limited then 1 else 0)
    case TurnAway => d.(stage := Refused)
    case Authorize => d.(stage := Opening)
    case AuthorizationFails => d.(stage := Unwinding)
    case Spawn => d.(opener := Reading)
    case OpenFails => d.(opener := Failed)
    case OpenReturns(content) => d.(opener := Holding, content := content, opens := d.opens + 1)
    case Register =>
      var (p, late) := Registered(d.pending);
      d.(pending := p, opener := if late then Discarding else Returned)
    case Discard => d.(opener := Returned, closes := d.closes + 1)
    case Deliver => d.(stage := Delivered, local := true)
    case GiveUp =>
      var (p, held) := Abandoned(d.pending);
      d.(stage := Abandoning, pending := p, salvage := held)
    case Salvage => d.(stage := Unwinding, salvage := false, closes := d.closes + if d.salvage then 1 else 0)
    case Take => d.(stage := Checking, pending := Taken(d.pending))
    case Reject => d.(stage := Unwinding)
    case Accept => d.(stage := Serving, lease := Held)
    case CloseLocal => d.(stage := Returning, closes := d.closes + if d.local then 1 else 0)
    case ReturnPermit => d.(stage := Refused, releases := d.releases + if d.acquired then 1 else 0)
    case Begin => d.(stream := Running)
    case ReadChunk(n) =>
      if d.position + n > d.size || d.position + n > |d.content|
        then d.(position := d.position + n, stream := Stopping(false))
      else d.(position := d.position + n, yielded := d.yielded + d.content[d.position..d.position + n])
    case ReadEnd => d.(stream := Stopping(d.position == d.size))
    case Interrupt => d.(stream := Stopping(false))
    case StreamStops => if d.stream.Stopping? then d.(stream := Stopped(d.stream.normally)) else d
    case CallFails => d.(stage := Ending)
    case StartBackground => d.(stage := Background)
    case BackgroundEnds => d.(stage := Ending)
    case CallEnds => d.(stage := Done)
    case EnterClose => if d.lease.Closed? then d else d.(lease := Releasing, closes := d.closes + 1)
    case LeaveClose => d.(lease := Closed, releases := d.releases + if d.acquired then 1 else 0)
  }

  /** What the event does to the semaphore. */
  function Drawn(d: Request, e: Event, limited: bool): int {
    match e
    case Acquire => if limited then 1 else 0
    case ReturnPermit => if d.acquired then -1 else 0
    case LeaveClose => if d.acquired then -1 else 0
    case _ => 0
  }

  // ----- runs -----

  ghost predicate CanStep(w: World, i: nat, e: Event) {
    i < |w.requests| && Enabled(w.requests[i], e, w.limited, w.available)
  }

  function Step(w: World, i: nat, e: Event): World
    requires i < |w.requests|
  {
    var d := w.requests[i];
    w.(available := w.available - Drawn(d, e, w.limited), requests := w.requests[i := After(d, e, w.limited)])
  }

  function Opened(limited: bool, permits: nat, sizes: seq<nat>): World {
    World(limited, permits, seq(|sizes|, i requires 0 <= i < |sizes| => Arrival(sizes[i])))
  }

  /** A run: who moves, and with which event. */
  type Run = seq<(nat, Event)>

  ghost predicate IsRun(w: World, run: Run)
    decreases |run|
  {
    run == [] || (CanStep(w, run[0].0, run[0].1) && IsRun(Step(w, run[0].0, run[0].1), run[1..]))
  }

  function Final(w: World, run: Run): World
    requires IsRun(w, run)
    decreases |run|
  {
    if run == [] then w else Final(Step(w, run[0].0, run[0].1), run[1..])
  }

  // ----- the invariant of one request -----

  /** The body of this request is open and somebody still owes its close. */
  ghost predicate Owed(d: Request) {
    || d.opener.Holding? || d.opener.Discarding?
    || (d.opener.Returned? && (
      || d.stage.Opening? || d.stage.Delivered? || d.stage.Checking?
      || (d.stage.Abandoning? && d.salvage)
      || (d.stage.Unwinding? && d.local)
      || d.lease.Held?))
  }

  /** A setup or an open lease that has drawn a permit. */
  predicate HoldsPermit(d: Request) {
    d.acquired && !d.stage.Arriving? && !d.stage.Refused? && !d.lease.Closed?
  }

  ghost predicate HandOver(d: Request) {
    && (d.stage.Arriving? || d.stage.Authorizing? ==> d.opener.Idle? && d.pending == Pending(false, false) && !d.local)
    && (d.stage.Opening? ==>
          !d.pending.abandoned && !d.local && d.pending.holds == d.opener.Returned? && !d.opener.Discarding?)
    && (d.stage.Delivered? ==> d.opener.Returned? && d.local)
    && (d.stage.Checking? || Responded(d.stage) ==> d.opener.Returned? && d.local && !d.pending.holds)
    && (d.stage.Abandoning? ==> d.pending == Pending(true, false) && !d.local && (d.salvage ==> d.opener.Returned?))
    && (d.stage.Unwinding? || d.stage.Returning? || d.stage.Refused? ==>
          if d.local then d.opener.Returned? else d.pending.abandoned || d.opener.Idle?)
    && (d.opener.Discarding? ==> d.pending.abandoned)
    && (d.pending.abandoned ==> !d.pending.holds)
    && (d.salvage ==> d.stage.Abandoning?)
    && (d.lease.NoLease? <==> !Responded(d.stage))
    && (d.stage.Done? ==> d.lease.Closed?)
    && (!d.stream.Unstarted? ==> Responded(d.stage))
    && (d.stream.Stopped? ==> d.lease.Closed?)
    && (d.stage.Background? ==> d.stream == Stopped(true))
  }

  /** Every count is what the places of the parties say it must be. */
  ghost predicate Accounts(d: Request) {
    && d.opens == (if d.opener.Idle? || d.opener.Reading? || d.opener.Failed? then 0 else 1)
    && d.opens - d.closes == (if Owed(d) then 1 else 0)
    && d.acquires == (if d.acquired then 1 else 0)
    && d.acquires - d.releases == (if HoldsPermit(d) then 1 else 0)
    && (d.stage.Arriving? ==> !d.acquired)
  }

  ghost predicate Streamed(d: Request) {
    && d.yielded <= d.content && |d.yielded| <= d.size
    && (d.stream.Unstarted? || d.stream.Running? ==> |d.yielded| == d.position)
    && ((d.stream == Stopping(true) || d.stream == Stopped(true)) ==> d.yielded == d.content && |d.content| == d.size)
    && (!Responded(d.stage) ==> d.yielded == [])
  }

  ghost predicate Sound(d: Request) {
    HandOver(d) && Accounts(d) && Streamed(d)
  }

  /** What the thread and the coroutine do until there is a response. */
  predicate OpenerEvent(e: Event) {
    e.Spawn? || e.OpenFails? || e.OpenReturns? || e.Register? || e.Discard?
  }

  /** What happens to a response, its stream and its lease. */
  predicate ResponseEvent(e: Event) {
    || e.Begin? || e.ReadChunk? || e.ReadEnd? || e.Interrupt? || e.StreamStops?
    || e.CallFails? || e.StartBackground? || e.BackgroundEnds? || e.CallEnds? || e.EnterClose? || e.LeaveClose?
  }

  /** The semaphore moves by what this request comes to hold. */
  ghost predicate DrawnRight(d: Request, e: Event, limited: bool) {
    Drawn(d, e, limited) ==
    (if HoldsPermit(After(d, e, limited)) then 1 else 0) - if HoldsPermit(d) then 1 else 0
  }

  lemma OpenerKeeps(d: Request, e: Event, limited: bool, available: int)
    requires HandOver(d) && Accounts(d) && Enabled(d, e, limited, available) && OpenerEvent(e)
    ensures HandOver(After(d, e, limited)) && Accounts(After(d, e, limited)) && DrawnRight(d, e, limited)
  {
  }

  lemma ResponseKeepsHandOver(d: Request, e: Event, limited: bool, available: int)
    requires HandOver(d) && Enabled(d, e, limited, available) && ResponseEvent(e)
    ensures HandOver(After(d, e, limited))
  {
  }

  lemma LeaseKeepsAccounts(d: Request, e: Event, limited: bool, available: int)
    requires HandOver(d) && Accounts(d) && Enabled(d, e, limited, available) && (e.EnterClose? || e.LeaveClose?)
    ensures Accounts(After(d, e, limited)) && DrawnRight(d, e, limited)
  {
  }

  /** Neither the stream nor the end of the call opens, closes, draws or releases anything itself. */
  lemma StreamKeepsAccounts(d: Request, e: Event, limited: bool, available: int)
    requires HandOver(d) && Accounts(d) && Enabled(d, e, limited, available)
    requires ResponseEvent(e) && !e.EnterClose? && !e.LeaveClose?
    ensures Accounts(After(d, e, limited)) && DrawnRight(d, e, limited)
  {
    var after := After(d, e, limited);
    assert Responded(d.stage) && Responded(after.stage);
    assert after.opener == d.opener && after.lease == d.lease && after.acquired == d.acquired;
    assert Owed(after) == Owed(d) && HoldsPermit(after) == HoldsPermit(d);
  }

  lemma CoroutineKeepsHandOver(d: Request, e: Event, limited: bool, available: int)
    requires HandOver(d) && Accounts(d) && Enabled(d, e, limited, available) && !OpenerEvent(e) && !ResponseEvent(e)
    ensures HandOver(After(d, e, limited))
  {
  }

  lemma CoroutineKeepsAccounts(d: Request, e: Event, limited: bool, available: int)
    requires HandOver(d) && Accounts(d) && Enabled(d, e, limited, available) && !OpenerEvent(e) && !ResponseEvent(e)
    ensures Accounts(After(d, e, limited)) && DrawnRight(d, e, limited)
  {
  }

  lemma OthersKeepStreamed(d: Request, e: Event, limited: bool, available: int)
    requires HandOver(d) && Streamed(d) && Enabled(d, e, limited, available) && !ResponseEvent(e)
    ensures Streamed(After(d, e, limited))
  {
    assert d.opener.Reading? ==> d.yielded == [];
  }

  lemma ReadKeepsStreamed(d: Request, n: nat, limited: bool, available: int)
    requires HandOver(d) && Streamed(d) && Enabled(d, ReadChunk(n), limited, available)
    ensures Streamed(After(d, ReadChunk(n), limited))
  {
    assert d.yielded == d.content[..d.position];
    assert d.content[..d.position] + d.content[d.position..d.position + n] == d.content[..d.position + n];
  }

  lemma ResponseKeepsStreamed(d: Request, e: Event, limited: bool, available: int)
    requires HandOver(d) && Streamed(d) && Enabled(d, e, limited, available) && ResponseEvent(e) && !e.ReadChunk?
    ensures Streamed(After(d, e, limited))
  {
  }

  /** Every step keeps the invariant and moves the semaphore by the permit it takes or gives. */
  lemma StepKeepsSound(d: Request, e: Event, limited: bool, available: int)
    requires Sound(d) && Enabled(d, e, limited, available)
    ensures Sound(After(d, e, limited)) && DrawnRight(d, e, limited)
  {
    if OpenerEvent(e) {
      OpenerKeeps(d, e, limited, available);
    } else if ResponseEvent(e) {
      ResponseKeepsHandOver(d, e, limited, available);
      if e.EnterClose? || e.LeaveClose? {
        LeaseKeepsAccounts(d, e, limited, available);
      } else {
        StreamKeepsAccounts(d, e, limited, available);
      }
    } else {
      CoroutineKeepsHandOver(d, e, limited, available);
      CoroutineKeepsAccounts(d, e, limited, available);
    }
    if e.ReadChunk? {
      ReadKeepsStreamed(d, e.n, limited, available);
    } else if ResponseEvent(e) {
      ResponseKeepsStreamed(d, e, limited, available);
    } else {
      OthersKeepStreamed(d, e, limited, available);
    }
  }

  // ----- the invariant of the world -----

  function PermitsHeld(rs: seq<Request>): nat {
    if rs == [] then 0
    else PermitsHeld(rs[..|rs| - 1]) + if HoldsPermit(rs[|rs| - 1]) then 1 else 0
  }

  lemma {:induction false} PermitsHeldUpdate(rs: seq<Request>, i: nat, d: Request)
    requires i < |rs|
    ensures PermitsHeld(rs[i := d]) ==
            PermitsHeld(rs) - (if HoldsPermit(rs[i]) then 1 else 0) + if HoldsPermit(d) then 1 else 0
  {
    var front := rs[..|rs| - 1];
    if i < |rs| - 1 {
      PermitsHeldUpdate(front, i, d);
      assert rs[i := d][..|rs| - 1] == front[i := d];
    } else {
      assert rs[i := d][..|rs| - 1] == front;
    }
  }

  lemma {:induction false} NobodyHoldsPermit(rs: seq<Request>)
    requires forall i | 0 <= i < |rs| :: !HoldsPermit(rs[i])
    ensures PermitsHeld(rs) == 0
  {
    if rs != [] {
      NobodyHoldsPermit(rs[..|rs| - 1]);
    }
  }

  /** Permits are conserved: what is not available is held by a setup in flight or an open lease. */
  ghost predicate Conserved(w: World, permits: nat) {
    && (w.limited ==> w.available >= 0 && w.available + PermitsHeld(w.requests) == permits)
    && (forall i | 0 <= i < |w.requests| :: w.requests[i].acquired ==> w.limited)
  }

  ghost predicate AllSound(w: World) {
    forall i | 0 <= i < |w.requests| :: Sound(w.requests[i])
  }

  lemma OpenedIsSound(limited: bool, permits: nat, sizes: seq<nat>)
    ensures AllSound(Opened(limited, permits, sizes)) && Conserved(Opened(limited, permits, sizes), permits)
  {
    NobodyHoldsPermit(Opened(limited, permits, sizes).requests);
  }

  lemma AcquiredOnlyIfLimited(d: Request, e: Event, limited: bool)
    requires d.acquired ==> limited
    ensures After(d, e, limited).acquired ==> limited
    ensures Drawn(d, e, limited) != 0 ==> limited
  {
  }

  lemma StepKeeps(w: World, i: nat, e: Event, permits: nat)
    requires CanStep(w, i, e) && AllSound(w) && Conserved(w, permits)
    ensures AllSound(Step(w, i, e)) && Conserved(Step(w, i, e), permits)
  {
    var d := w.requests[i];
    StepKeepsSound(d, e, w.limited, w.available);
    PermitsHeldUpdate(w.requests, i, After(d, e, w.limited));
    AcquiredOnlyIfLimited(d, e, w.limited);
    DrawnOnlyIfAvailable(d, e, w.limited, w.available);
  }

  lemma DrawnOnlyIfAvailable(d: Request, e: Event, limited: bool, available: int)
    requires Enabled(d, e, limited, available) && (limited ==> available >= 0)
    ensures limited ==> available - Drawn(d, e, limited) >= 0
  {
  }

  lemma {:induction false} RunKeeps(w: World, run: Run, permits: nat)
    requires IsRun(w, run) && AllSound(w) && Conserved(w, permits)
    ensures AllSound(Final(w, run)) && Conserved(Final(w, run), permits)
    ensures Final(w, run).limited == w.limited
    decreases |run|
  {
    if run != [] {
      StepKeeps(w, run[0].0, run[0].1, permits);
      RunKeeps(Step(w, run[0].0, run[0].1), run[1..], permits);
    }
  }

  // ----- what a request can rely on -----

  /** The coroutine, the response and the opener thread of this request have all ended. */
  predicate Settled(d: Request) {
    (d.stage.Refused? || d.stage.Done?) && !d.opener.Reading? && !d.opener.Holding? && !d.opener.Discarding?
  }

  ghost predicate AtMostOnce(d: Request) {
    d.closes <= d.opens <= 1 && d.releases <= d.acquires <= 1
  }

  /**
   In every interleaving: no body is closed twice and no permit released twice; a request that has
   ended closed every body that was opened for it and released every permit it drew; a stream
   never yields more than was authorized, and one that ended normally yielded the whole object,
   whose length was exactly the authorized size. The background task only follows such a stream,
   and neither a stream nor the call ends before the lease is closed.
   */
  lemma EveryRunIsSafe(limited: bool, permits: nat, sizes: seq<nat>, run: Run, i: nat)
    requires IsRun(Opened(limited, permits, sizes), run)
    requires i < |Final(Opened(limited, permits, sizes), run).requests|
    ensures var d := Final(Opened(limited, permits, sizes), run).requests[i];
            && AtMostOnce(d)
            && (Settled(d) ==> d.closes == d.opens && d.releases == d.acquires)
            && |d.yielded| <= d.size && d.yielded <= d.content
            && (d.stream == Stopped(true) ==> d.yielded == d.content && |d.content| == d.size)
            && (d.stage.Background? ==> d.stream == Stopped(true))
            && (d.stage.Done? || d.stream.Stopped? ==> d.lease.Closed?)
  {
    OpenedIsSound(limited, permits, sizes);
    RunKeeps(Opened(limited, permits, sizes), run, permits);
    assert Sound(Final(Opened(limited, permits, sizes), run).requests[i]);
  }

  /** In every interleaving the permits in use are the setups in flight plus the open leases. */
  lemma EveryRunConservesPermits(permits: nat, sizes: seq<nat>, run: Run)
    requires IsRun(Opened(true, permits, sizes), run)
    ensures var w := Final(Opened(true, permits, sizes), run);
            && 0 <= w.available
            && w.available + PermitsHeld(w.requests) == permits
            && ((forall i | 0 <= i < |w.requests| :: Settled(w.requests[i])) ==> w.available == permits)
  {
    OpenedIsSound(true, permits, sizes);
    RunKeeps(Opened(true, permits, sizes), run, permits);
    var w := Final(Opened(true, permits, sizes), run);
    if forall i | 0 <= i < |w.requests| :: Settled(w.requests[i]) {
      forall i | 0 <= i < |w.requests| ensures !HoldsPermit(w.requests[i]) {
        assert Sound(w.requests[i]);
      }
      NobodyHoldsPermit(w.requests);
    }
  }

  // ----- nothing gets stuck -----

  /** The shortest way out: every wait may fail, every response may be cut off. */
  function WayOut(d: Request): Event {
    match d.stage
    case Arriving => TurnAway
    case Authorizing => AuthorizationFails
    case Opening => GiveUp
    case Delivered => Take
    case Checking => Reject
    case Abandoning => Salvage
    case Unwinding => CloseLocal
    case Returning => ReturnPermit
    case Serving => CallFails
    case Background => CallFails
    case Ending => if d.lease.Held? then EnterClose else if d.lease.Releasing? then LeaveClose else CallEnds
    case _ => if d.opener.Reading? then OpenFails else if d.opener.Holding? then Register else Discard
  }

  function StepsLeft(d: Request): nat {
    (match d.stage
     case Arriving => 1
     case Authorizing => 4
     case Opening => 5
     case Delivered => 5
     case Checking => 4
     case Abandoning => 3
     case Unwinding => 2
     case Returning => 1
     case Serving => 2
     case Background => 2
     case Ending => 1
     case _ => 0)
    + (match d.opener case Reading => 3 case Holding => 2 case Discarding => 1 case _ => 0)
    + (match d.lease case Held => 2 case Releasing => 1 case _ => 0)
  }

  lemma WayOutWorks(d: Request, limited: bool, available: int)
    requires Sound(d) && !Settled(d)
    ensures Enabled(d, WayOut(d), limited, available)
    ensures StepsLeft(After(d, WayOut(d), limited)) < StepsLeft(d)
  {
  }

  lemma {:induction false} EveryRequestCanSettle(w: World, i: nat, permits: nat) returns (run: Run)
    requires i < |w.requests| && AllSound(w) && Conserved(w, permits)
    ensures IsRun(w, run) && (forall k | 0 <= k < |run| :: run[k].0 == i)
    ensures |run| <= StepsLeft(w.requests[i])
    ensures var v := Final(w, run); i < |v.requests| && Settled(v.requests[i])
    decreases StepsLeft(w.requests[i])
  {
    var d := w.requests[i];
    if Settled(d) {
      run := [];
    } else {
      assert Sound(d);
      var e := WayOut(d);
      WayOutWorks(d, w.limited, w.available);
      StepKeeps(w, i, e, permits);
      var rest := EveryRequestCanSettle(Step(w, i, e), i, permits);
      run := [(i, e)] + rest;
      assert run[1..] == rest;
    }
  }

  /**
   From every state that a run can reach, any one request can still come to its end by its own
   steps alone, whatever the others do or leave undone, with its body and its permit given back.
   */
  lemma EveryRunCanSettle(limited: bool, permits: nat, sizes: seq<nat>, run: Run, i: nat) returns (more: Run)
    requires IsRun(Opened(limited, permits, sizes), run)
    requires i < |Final(Opened(limited, permits, sizes), run).requests|
    ensures var w := Final(Opened(limited, permits, sizes), run);
            && IsRun(w, more) && (forall k | 0 <= k < |more| :: more[k].0 == i)
            && i < |Final(w, more).requests|
            && var d := Final(w, more).requests[i];
               Settled(d) && d.closes == d.opens && d.releases == d.acquires
  {
    OpenedIsSound(limited, permits, sizes);
    RunKeeps(Opened(limited, permits, sizes), run, permits);
    var w := Final(Opened(limited, permits, sizes), run);
    more := EveryRequestCanSettle(w, i, permits);
    RunKeeps(w, more, permits);
    assert Sound(Final(w, more).requests[i]);
  }

  // ----- a good request is served -----

  /** So far this request, whose object holds the content, has gone as it should. */
  ghost predicate GoingWell(d: Request, content: seq<Byte>, limited: bool) {
    && |content| == d.size && (d.stage.Arriving? || d.acquired == limited)
    && (d.opener.Holding? || d.opener.Returned? ==> d.content == content)
    && match d.stage
       case Arriving | Authorizing => d.opener.Idle?
       case Opening => d.opener.Idle? || d.opener.Reading? || d.opener.Holding? || d.opener.Returned?
       case Delivered | Checking => true
       case Serving => d.stream != Stopping(false) && d.stream != Stopped(false)
                       && (d.stream.Unstarted? || d.stream.Running? ==> d.lease.Held?)
                       && (d.stream.Stopped? ==> d.lease.Closed?)
       case Background | Ending | Done => d.stream == Stopped(true) && d.lease.Closed?
       case _ => false
  }

  /** What happens to it when nothing fails. */
  function NextGood(d: Request, content: seq<Byte>): Event {
    match d.stage
    case Arriving => Acquire
    case Authorizing => Authorize
    case Opening =>
      (match d.opener
       case Idle => Spawn
       case Reading => OpenReturns(content)
       case Holding => Register
       case _ => Deliver)
    case Delivered => Take
    case Checking => Accept
    case Serving =>
      (match d.stream
       case Unstarted => Begin
       case Running =>
         if d.position < |content|
           then ReadChunk(if |content| - d.position < CHUNK then |content| - d.position else CHUNK)
         else ReadEnd
       case Stopping(_) => if d.lease.Held? then EnterClose else if d.lease.Releasing? then LeaveClose else StreamStops
       case Stopped(_) => StartBackground)
    case Background => BackgroundEnds
    case _ => CallEnds
  }

  function StepsToServe(d: Request, content: seq<Byte>): int {
    match d.stage
    case Arriving => |content| + 17
    case Authorizing => |content| + 16
    case Opening =>
      |content| + (match d.opener case Idle => 15 case Reading => 14 case Holding => 13 case _ => 12)
    case Delivered => |content| + 11
    case Checking => |content| + 10
    case Serving =>
      (match d.stream
       case Unstarted => |content| + 9
       case Running => |content| - d.position + 8
       case Stopping(_) => 5 + (if d.lease.Held? then 2 else if d.lease.Releasing? then 1 else 0)
       case Stopped(_) => 4)
    case Background => 3
    case Ending => 2
    case _ => 1
  }

  lemma GoodStep(d: Request, content: seq<Byte>, limited: bool, available: int)
    requires Sound(d) && GoingWell(d, content, limited) && !d.stage.Done?
    requires d.stage.Arriving? && limited ==> available > 0
    ensures Enabled(d, NextGood(d, content), limited, available)
    ensures var after := After(d, NextGood(d, content), limited);
            && !after.stage.Arriving? && GoingWell(after, content, limited)
            && 0 <= StepsToServe(after, content) < StepsToServe(d, content)
  {
    assert d.stage.Serving? ==> d.content == content;
    assert d.stage.Serving? && d.stream.Running? ==> d.position == |d.yielded|;
  }

  /** Done, with the whole object delivered, and body and permit given back, each exactly once. */
  predicate Served(d: Request, content: seq<Byte>, limited: bool) {
    && d.stage.Done? && d.stream == Stopped(true) && d.yielded == content
    && d.opens == 1 && d.closes == 1
    && d.acquires == d.releases == if limited then 1 else 0
  }

  lemma DoneIsServed(d: Request, content: seq<Byte>, limited: bool)
    requires Sound(d) && GoingWell(d, content, limited) && d.stage.Done?
    ensures Served(d, content, limited)
  {
  }

  lemma {:induction false} GoodRun(w: World, i: nat, content: seq<Byte>, permits: nat) returns (run: Run)
    requires i < |w.requests| && AllSound(w) && Conserved(w, permits)
    requires GoingWell(w.requests[i], content, w.limited) && StepsToServe(w.requests[i], content) >= 0
    requires w.requests[i].stage.Arriving? && w.limited ==> w.available > 0
    ensures IsRun(w, run) && (forall k | 0 <= k < |run| :: run[k].0 == i)
    ensures var v := Final(w, run);
            && i < |v.requests| == |w.requests| && Served(v.requests[i], content, w.limited)
            && forall j | 0 <= j < |w.requests| && j != i :: v.requests[j] == w.requests[j]
    decreases StepsToServe(w.requests[i], content)
  {
    var d := w.requests[i];
    assert Sound(d);
    if d.stage.Done? {
      DoneIsServed(d, content, w.limited);
      run := [];
    } else {
      var e := NextGood(d, content);
      GoodStep(d, content, w.limited, w.available);
      StepKeeps(w, i, e, permits);
      var rest := GoodRun(Step(w, i, e), i, content, permits);
      run := [(i, e)] + rest;
      assert run[1..] == rest;
    }
  }

  /**
   In every reachable state a request that has just arrived and finds a permit can be served by its
   own steps alone, whatever the object holds, as long as that has the authorized size: it ends
   with the object streamed in full, opened and closed once, and the permit given back. Nobody else
   is disturbed.
   */
  lemma EveryRequestCanBeServed(limited: bool, permits: nat, sizes: seq<nat>, run: Run, i: nat, content: seq<Byte>)
    returns (more: Run)
    requires IsRun(Opened(limited, permits, sizes), run)
    requires var w := Final(Opened(limited, permits, sizes), run);
             && i < |w.requests| && w.requests[i].stage.Arriving? && w.requests[i].size == |content|
             && (limited ==> w.available > 0)
    ensures var w := Final(Opened(limited, permits, sizes), run);
            && IsRun(w, more) && (forall k | 0 <= k < |more| :: more[k].0 == i)
            && i < |Final(w, more).requests| == |w.requests|
            && Served(Final(w, more).requests[i], content, limited)
            && forall j | 0 <= j < |w.requests| && j != i :: Final(w, more).requests[j] == w.requests[j]
  {
    OpenedIsSound(limited, permits, sizes);
    RunKeeps(Opened(limited, permits, sizes), run, permits);
    var w := Final(Opened(limited, permits, sizes), run);
    assert Sound(w.requests[i]);
    more := GoodRun(w, i, content, permits);
  }

  // ----- a stream can be cut off anywhere -----

  function CutSteps(d: Request): nat {
    if d.stream.Running? then 4
    else (if d.lease.Held? then 2 else if d.lease.Releasing? then 1 else 0) + if d.stream.Stopping? then 1 else 0
  }

  lemma {:induction false} CutRun(w: World, i: nat, permits: nat) returns (run: Run)
    requires i < |w.requests| && AllSound(w) && Conserved(w, permits)
    requires w.requests[i].stream.Running? || w.requests[i].stream == Stopping(false)
    ensures IsRun(w, run) && (forall k | 0 <= k < |run| :: run[k].0 == i)
    ensures var v := Final(w, run);
            i < |v.requests| && v.requests[i].stream == Stopped(false)
            && v.requests[i].yielded == w.requests[i].yielded
    decreases CutSteps(w.requests[i])
  {
    var d := w.requests[i];
    assert Sound(d);
    var e := if d.stream.Running? then Interrupt
             else if d.lease.Held? then EnterClose else if d.lease.Releasing? then LeaveClose else StreamStops;
    StepKeeps(w, i, e, permits);
    if e.StreamStops? {
      run := [(i, e)];
      assert run[1..] == [];
    } else {
      var rest := CutRun(Step(w, i, e), i, permits);
      run := [(i, e)] + rest;
      assert run[1..] == rest;
    }
  }

  /**
   Wherever a stream is, the client may go away or a read may fail there: the stream then ends
   abnormally with exactly what it had yielded, and body and permit have been given back.
   */
  lemma EveryStreamCanBeCut(limited: bool, permits: nat, sizes: seq<nat>, run: Run, i: nat) returns (more: Run)
    requires IsRun(Opened(limited, permits, sizes), run)
    requires var w := Final(Opened(limited, permits, sizes), run);
             i < |w.requests| && w.requests[i].stream.Running?
    ensures var w := Final(Opened(limited, permits, sizes), run);
            && IsRun(w, more) && (forall k | 0 <= k < |more| :: more[k].0 == i)
            && i < |Final(w, more).requests|
            && var d := Final(w, more).requests[i];
               && d.stream == Stopped(false) && d.yielded == w.requests[i].yielded
               && d.opens == d.closes == 1 && d.acquires == d.releases
  {
    OpenedIsSound(limited, permits, sizes);
    RunKeeps(Opened(limited, permits, sizes), run, permits);
    var w := Final(Opened(limited, permits, sizes), run);
    more := CutRun(w, i, permits);
    RunKeeps(w, more, permits);
    assert Sound(Final(w, more).requests[i]);
  }
}
