/**
 The shared, refreshed value (utils/sync/async_retrieve.rs). One mutex holds the state for as long as
 a retrieval takes; other callers wait, and a caller that is dropped gives the lock back.
 */
module AsyncRetrieve {
  import opened Wrappers

  type Error = nat

  datatype Cell<+T> =
    | Idle
    | Loaded(value: T, loadedAt: nat)
    | Failed(lastSuccess: Option<T>, error: Error, loadedAt: nat)
    | RetryRequested(lastSuccess: Option<T>)

  datatype Intervals = Intervals(refresh: nat, minRetry: nat) {
    function Shorter(): nat {
      if refresh <= minRetry then refresh else minRetry
    }
  }

  // ---------- one call ----------

  function AfterSetError<T>(c: Cell<T>, error: Error, now: nat): Cell<T> {
    match c
    case Loaded(v, _) => Failed(Some(v), error, now)
    case Failed(Some(v), _, _) => Failed(Some(v), error, now)
    case _ => Failed(None, error, now)
  }

  function AfterForceRetry<T>(c: Cell<T>): Cell<T> {
    match c
    case Loaded(v, _) => RetryRequested(Some(v))
    case Failed(Some(v), _, _) => RetryRequested(Some(v))
    case _ => RetryRequested(None)
  }

  /** What a caller is given without a retrieval, if it is. */
  function Cached<T>(c: Cell<T>, now: nat, times: Intervals): Option<Result<T, Error>> {
    match c
    case Loaded(v, at) => if now < at + times.refresh then Some(Ok(v)) else None
    case Failed(last, e, at) =>
      if now < at + times.minRetry then Some(if last.Some? then Ok(last.value) else Err(e)) else None
    case _ => None
  }

  /** The answer to the caller whose retrieval ended with `result`, and the cell left behind. */
  function Retrieved<T>(c: Cell<T>, result: Result<T, Error>, now: nat): (Result<T, Error>, Cell<T>) {
    match (c, result)
    case (_, Ok(v)) => (Ok(v), Loaded(v, now))
    case (Loaded(v, _), Err(e)) => (Ok(v), Failed(Some(v), e, now))
    case (Failed(Some(v), _, _), Err(e)) => (Ok(v), Failed(Some(v), e, now))
    case (_, Err(e)) => (Err(e), Failed(None, e, now))
  }

  class SharedAsyncRetrieveState<T> {
    var state: Cell<T>
    const times: Intervals

    constructor (refreshInterval: nat, minRetryInterval: nat)
      ensures state == Idle && times == Intervals(refreshInterval, minRetryInterval)
    {
      state, times := Idle, Intervals(refreshInterval, minRetryInterval);
    }

    method SetError(error: Error, now: nat)
      modifies this
      ensures state == AfterSetError(old(state), error, now)
    {
      var taken := state;
      state := Idle;
      match taken {
        case Loaded(v, _) => state := Failed(Some(v), error, now);
        case Failed(Some(v), _, _) => state := Failed(Some(v), error, now);
        case _ => state := Failed(None, error, now);
      }
    }

    method ForceRetryNext()
      modifies this
      ensures state == AfterForceRetry(old(state))
    {
      var taken := state;
      state := Idle;
      match taken {
        case Loaded(v, _) => state := RetryRequested(Some(v));
        case Failed(Some(v), _, _) => state := RetryRequested(Some(v));
        case _ => state := RetryRequested(None);
      }
    }

    /** `result` is what the retrieval, if one is made, yields, and `done` when. */
    method GetOrRetrieve(now: nat, result: Result<T, Error>, done: nat) returns (r: Result<T, Error>)
      modifies this
      ensures var cached := Cached(old(state), now, times);
              if cached.Some? then r == cached.value && state == old(state)
              else (r, state) == Retrieved(old(state), result, done)
    {
      match state {
        case Loaded(v, at) =>
          if now < at + times.refresh {
            return Ok(v);
          }
        case Failed(last, e, at) =>
          if now < at + times.minRetry {
            return if last.Some? then Ok(last.value) else Err(e);
          }
        case _ =>
      }
      match result {
        case Ok(v) =>
          state := Loaded(v, done);
          r := Ok(v);
        case Err(e) =>
          if state.Loaded? {
            r := Ok(state.value);
            state := Failed(Some(state.value), e, done);
          } else if state.Failed? && state.lastSuccess.Some? {
            r := Ok(state.lastSuccess.value);
            state := Failed(state.lastSuccess, e, done);
          } else {
            r := Err(e);
            state := Failed(None, e, done);
          }
      }
    }
  }

  // ---------- runs ----------

  datatype State<T> = State(
    times: Intervals,
    now: nat,
    cell: Cell<T>,
    retrieving: bool,
    // history
    starts: nat,
    forced: nat,
    cancelled: nat,
    last: Option<T>,  // the value retrieved most recently
    lastError: Option<Error>,  // the error set or met most recently
    dropped: bool)  // a requested retry has failed, or been overruled by an error, since

  /** `Get` is a call answered from the cell; `Begin` one that retrieves, until `Finish` or `Cancel`. */
  datatype Event<T> =
    | Tick(dt: nat)
    | SetError(error: Error)
    | ForceRetry
    | Get
    | Begin
    | Finish(result: Result<T, Error>)
    | Cancel

  predicate Enabled<T>(s: State<T>, e: Event<T>) {
    match e
    case Tick(_) => true
    case SetError(_) => !s.retrieving
    case ForceRetry => !s.retrieving
    case Get => !s.retrieving && Cached(s.cell, s.now, s.times).Some?
    case Begin => !s.retrieving && Cached(s.cell, s.now, s.times).None?
    case Finish(_) => s.retrieving
    case Cancel => s.retrieving
  }

  function Step<T>(s: State<T>, e: Event<T>): State<T>
    requires Enabled(s, e)
  {
    match e
    case Tick(dt) => s.(now := s.now + dt)
    case SetError(error) =>
      s.(cell := AfterSetError(s.cell, error, s.now), lastError := Some(error),
         dropped := s.dropped || s.cell.RetryRequested?)
    case ForceRetry => s.(cell := AfterForceRetry(s.cell), forced := s.forced + 1)
    case Get => s
    case Begin => s.(retrieving := true, starts := s.starts + 1)
    case Finish(result) =>
      s.(cell := Retrieved(s.cell, result, s.now).1, retrieving := false,
         last := if result.Ok? then Some(result.value) else s.last,
         lastError := if result.Err? then Some(result.error) else s.lastError,
         dropped := result.Err? && (s.dropped || s.cell.RetryRequested?))
    case Cancel => s.(retrieving := false, cancelled := s.cancelled + 1)
  }

  function Run<T>(s: State<T>, events: seq<Event<T>>): State<T>
    decreases |events|
  {
    if events == [] then s
    else if Enabled(s, events[0]) then Run(Step(s, events[0]), events[1..])
    else Run(s, events[1..])
  }

  function Initial<T>(times: Intervals): State<T> {
    State(times, 0, Idle, false, 0, 0, 0, None, None, false)
  }

  // ---------- how often it retrieves ----------

  /** The earliest a retrieval can start. */
  function DueAt<T>(s: State<T>): nat {
    var at := match s.cell
      case Loaded(_, at) => at + s.times.refresh
      case Failed(_, _, at) => at + s.times.minRetry
      case _ => 0;
    if at > s.now then at else s.now
  }

  /** Starts since `from` that no forced retry and no cancellation accounts for. */
  function Unforced<T>(from: State<T>, s: State<T>): int {
    (s.starts - from.starts) - (s.forced - from.forced) - (s.cancelled - from.cancelled)
  }

  /** `m` for each such start but one fits into the time that has passed, and for each into the time until the next. */
  ghost predicate Paced<T>(from: State<T>, s: State<T>) {
    var m := s.times.Shorter();
    && s.now >= from.now && s.times == from.times
    && m * Unforced(from, s) - m <= s.now - from.now
    && (!s.retrieving ==> m * Unforced(from, s) <= DueAt(s) - from.now)
  }

  lemma OneMore(m: nat, x: int)
    ensures m * (x + 1) == m * x + m && m * (x - 1) == m * x - m
  {
  }

  lemma StepKeepsPace<T>(from: State<T>, s: State<T>, e: Event<T>)
    requires Paced(from, s) && Enabled(s, e)
    ensures Paced(from, Step(s, e))
  {
    OneMore(s.times.Shorter(), Unforced(from, s));
    var t := Step(s, e);
    var x := Unforced(from, t);
    assert x == Unforced(from, s) || x == Unforced(from, s) + 1 || x == Unforced(from, s) - 1;
  }

  lemma {:induction false} RunKeepsPace<T>(from: State<T>, s: State<T>, events: seq<Event<T>>)
    requires Paced(from, s)
    ensures Paced(from, Run(s, events))
    decreases |events|
  {
    hide Paced, Step, Enabled;
    if events != [] {
      if Enabled(s, events[0]) {
        StepKeepsPace(from, s, events[0]);
        RunKeepsPace(from, Step(s, events[0]), events[1..]);
      } else {
        RunKeepsPace(from, s, events[1..]);
      }
    }
  }

  /**
   In any window of any run, from whatever state it opens in: of the retrievals started in it, all but
   one, but the forced ones and but the cancelled ones are at least the shorter interval apart.
   */
  lemma RetrievalsAreRare<T>(s: State<T>, events: seq<Event<T>>)
    ensures var t := Run(s, events);
            var (n, f, c) := (t.starts - s.starts, t.forced - s.forced, t.cancelled - s.cancelled);
            s.times.Shorter() * (n - 1 - f - c) <= t.now - s.now
  {
    RunKeepsPace(s, s, events);
    var t := Run(s, events);
    OneMore(s.times.Shorter(), Unforced(s, t));
    assert (t.starts - s.starts) - 1 - (t.forced - s.forced) - (t.cancelled - s.cancelled) == Unforced(s, t) - 1;
  }

  /** A retrieval has just ended the way that is retried soonest. */
  predicate JustEnded<T>(s: State<T>, result: Result<T, Error>) {
    !s.retrieving
    && if s.times.refresh <= s.times.minRetry then result.Ok? && s.cell.Loaded? && s.cell.loadedAt == s.now
       else result.Err? && s.cell.Failed? && s.cell.loadedAt == s.now
  }

  function Round<T>(s: State<T>, result: Result<T, Error>): State<T>
    requires JustEnded(s, result)
  {
    Step(Step(Step(s, Tick(s.times.Shorter())), Begin), Finish(result))
  }

  lemma OneRound<T>(s: State<T>, result: Result<T, Error>, rest: seq<Event<T>>)
    requires JustEnded(s, result)
    ensures var m := s.times.Shorter();
            var t := Round(s, result);
            && Run(s, [Tick(m)] + ([Begin] + ([Finish(result)] + rest))) == Run(t, rest)
            && JustEnded(t, result) && t.times == s.times
            && t.now == s.now + m && t.starts == s.starts + 1 && t.forced == s.forced && t.cancelled == s.cancelled
  {
    var m := s.times.Shorter();
    var s1 := Step(s, Tick(m));
    var s2 := Step(s1, Begin);
    assert ([Finish(result)] + rest)[1..] == rest;
    assert ([Begin] + ([Finish(result)] + rest))[1..] == [Finish(result)] + rest;
    assert ([Tick(m)] + ([Begin] + ([Finish(result)] + rest)))[1..] == [Begin] + ([Finish(result)] + rest);
    assert Run(s2, [Finish(result)] + rest) == Run(Step(s2, Finish(result)), rest);
    assert Run(s1, [Begin] + ([Finish(result)] + rest)) == Run(s2, [Finish(result)] + rest);
  }

  lemma NoEvents<T>(s: State<T>)
    ensures Run(s, []) == s
  {
  }

  lemma {:induction false} Rounds<T>(s: State<T>, result: Result<T, Error>, n: nat) returns (events: seq<Event<T>>)
    requires JustEnded(s, result)
    ensures var t := Run(s, events);
            t.now == s.now + s.times.Shorter() * n && t.starts == s.starts + n
            && t.forced == s.forced && t.cancelled == s.cancelled
    decreases n
  {
    hide JustEnded, Round, Run;
    if n == 0 {
      events := [];
      NoEvents(s);
    } else {
      var m := s.times.Shorter();
      OneRound(s, result, []);
      events := Rounds(Round(s, result), result, n - 1);
      OneRound(s, result, events);
      events := [Tick(m)] + ([Begin] + ([Finish(result)] + events));
      OneMore(m, n - 1);
    }
  }

  /** The bound is exact: retrievals can follow each other at the shorter interval for as long as one likes. */
  lemma RetrievalsCanBeThisOften<T>(times: Intervals, value: T, error: Error, n: nat) returns (events: seq<Event<T>>)
    ensures var t := Run(Initial<T>(times), events);
            t.starts == n + 1 && t.now == times.Shorter() * n && t.forced == 0 && t.cancelled == 0
  {
    var result := if times.refresh <= times.minRetry then Ok(value) else Err(error);
    var s1 := Step(Initial<T>(times), Begin);
    var s2 := Step(s1, Finish(result));
    var more := Rounds(s2, result, n);
    assert ([Finish(result)] + more)[1..] == more;
    assert ([Begin] + ([Finish(result)] + more))[1..] == [Finish(result)] + more;
    assert Run(s1, [Finish(result)] + more) == Run(s2, more);
    events := [Begin] + ([Finish(result)] + more);
  }

  // ---------- when it retrieves ----------

  /**
   After a retrieval or a set error, and until something else happens, callers are answered without a
   retrieval for exactly as long as the interval says: the refresh interval after a success, the retry
   interval after a failure.
   */
  lemma CoolsDownExactly<T>(s: State<T>, e: Event<T>, dt: nat)
    requires Enabled(s, e) && (e.Finish? || e.SetError?)
    ensures var t := Step(Step(s, e), Tick(dt));
            var interval := if e.Finish? && e.result.Ok? then s.times.refresh else s.times.minRetry;
            (Enabled(t, Get) <==> dt < interval) && (Enabled(t, Begin) <==> dt >= interval)
  {
  }

  /** A retrieval is asked for, and none has ended and no error been set since. */
  predicate RetryDue<T>(s: State<T>) {
    s.cell.RetryRequested?
  }

  lemma {:induction false} RetryStaysDue<T>(s: State<T>, events: seq<Event<T>>)
    requires RetryDue(s)
    requires forall i :: 0 <= i < |events| ==> !events[i].Finish? && !events[i].SetError?
    ensures RetryDue(Run(s, events))
    decreases |events|
  {
    if events != [] {
      RetryStaysDue(if Enabled(s, events[0]) then Step(s, events[0]) else s, events[1..]);
    }
  }

  /**
   After a forced retry, from whatever state, no caller is answered from the cell, however much time
   passes and whatever is cancelled or forced again, until a retrieval has ended or an error been set:
   the next caller retrieves.
   */
  lemma ForcedRetryIsNext<T>(s: State<T>, events: seq<Event<T>>)
    requires Enabled(s, ForceRetry)
    requires forall i :: 0 <= i < |events| ==> !events[i].Finish? && !events[i].SetError?
    ensures var t := Run(Step(s, ForceRetry), events);
            !Enabled(t, Get) && (t.retrieving || Enabled(t, Begin))
  {
    RetryStaysDue(Step(s, ForceRetry), events);
  }

  // ---------- what it answers ----------

  /** The answer a caller gets at this event, if it is one that answers. */
  function AnswerAt<T>(s: State<T>, e: Event<T>): Option<Result<T, Error>>
    requires Enabled(s, e)
  {
    match e
    case Get => Cached(s.cell, s.now, s.times)
    case Finish(result) => Some(Retrieved(s.cell, result, s.now).0)
    case _ => None
  }

  /** The cell keeps the value retrieved last, until a requested retry fails or is overruled. */
  ghost predicate Keeps<T>(s: State<T>) {
    match s.cell
    case Idle => s.last.None?
    case Loaded(v, _) => s.last == Some(v) && !s.dropped
    case Failed(last, e, _) => last == (if s.dropped then None else s.last) && s.lastError == Some(e)
    case RetryRequested(_) => true
  }

  lemma StepKeeps<T>(s: State<T>, e: Event<T>)
    requires Keeps(s) && Enabled(s, e)
    ensures Keeps(Step(s, e))
  {
  }

  lemma {:induction false} RunKeeps<T>(s: State<T>, events: seq<Event<T>>)
    requires Keeps(s)
    ensures Keeps(Run(s, events))
    decreases |events|
  {
    hide Keeps, Step, Enabled;
    if events != [] {
      if Enabled(s, events[0]) {
        StepKeeps(s, events[0]);
        RunKeeps(Step(s, events[0]), events[1..]);
      } else {
        RunKeeps(s, events[1..]);
      }
    }
  }

  /**
   Every answer of every run: the value retrieved last exactly if there is one and no requested
   retry has failed, or been overruled by `set_error`, since; otherwise the latest error.
   */
  lemma AnswersExactly<T>(times: Intervals, events: seq<Event<T>>, e: Event<T>)
    requires Enabled(Run(Initial<T>(times), events), e)
    ensures var s := Run(Initial<T>(times), events);
            var t, answer := Step(s, e), AnswerAt(s, e);
            answer.Some? ==>
              if t.last.Some? && !t.dropped then answer == Some(Ok(t.last.value))
              else t.lastError.Some? && answer == Some(Err(t.lastError.value))
  {
    RunKeeps(Initial<T>(times), events);
  }

  lemma {:induction false} NothingDropped<T>(s: State<T>, events: seq<Event<T>>)
    requires !s.dropped && !s.cell.RetryRequested?
    requires forall i :: 0 <= i < |events| ==> !events[i].ForceRetry?
    ensures !Run(s, events).dropped && !Run(s, events).cell.RetryRequested?
    decreases |events|
  {
    if events != [] {
      NothingDropped(if Enabled(s, events[0]) then Step(s, events[0]) else s, events[1..]);
    }
  }

  /** Without forced retries, once a retrieval has succeeded every answer is the value retrieved last. */
  lemma StaleFallback<T>(times: Intervals, events: seq<Event<T>>, e: Event<T>)
    requires forall i :: 0 <= i < |events| ==> !events[i].ForceRetry?
    requires Enabled(Run(Initial<T>(times), events), e)
    ensures var s := Run(Initial<T>(times), events);
            AnswerAt(s, e).Some? && Step(s, e).last.Some? ==> AnswerAt(s, e) == Some(Ok(Step(s, e).last.value))
  {
    AnswersExactly(times, events, e);
    NothingDropped(Initial<T>(times), events);
  }

  /** A forced retry that fails answers with the error, although a value had been retrieved. */
  lemma ForcedRetryForgets<T>(times: Intervals, v: T, error: Error)
    ensures var s := Run(Initial<T>(times), [Begin, Finish(Ok(v)), ForceRetry, Begin]);
            Enabled(s, Finish(Err(error))) && s.last == Some(v)
            && AnswerAt(s, Finish(Err(error))) == Some(Err(error))
  {
    var e1: seq<Event<T>> := [Begin];
    var e2: seq<Event<T>> := [ForceRetry, Begin];
    var e3 := [Finish(Ok(v)), ForceRetry, Begin];
    var s1 := Step(Initial<T>(times), Begin);
    var s2 := Step(s1, Finish(Ok(v)));
    var s3 := Step(s2, ForceRetry);
    var s4 := Step(s3, Begin);
    assert [Begin, Finish(Ok(v)), ForceRetry, Begin][1..] == e3 && e3[1..] == e2 && e2[1..] == e1 && e1[1..] == [];
    assert Run(s4, []) == s4;
    assert Run(s3, e1) == s4;
    assert Run(s2, e2) == s4;
    assert Run(s1, e3) == s4;
  }
}
