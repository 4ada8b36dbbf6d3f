/**
 * The connection supervisor: the `while True` loop of `main`, which scans
 * when it holds no device address, connects, monitors the link and retries
 * with a bounded count. The scan, connect and link outcomes of one turn of
 * the loop are given as an event; each turn ends on the delay it sleeps.
 */
module Supervisor {
  import opened Wrappers
  import opened DeviceScan

  /** What one call of `scan_and_connect` gives: the devices it discovered, or an exception. */
  datatype ScanOutcome = Discovered(devices: seq<Advertisement>) | ScanFailed

  /** How the `async with BleakClient(...)` block ends. */
  datatype LinkOutcome =
    | ConnectTimeout        // the connect raises `asyncio.TimeoutError`
    | ConnectError          // the connect raises any other exception
    | ConnectedThenLost     // connected, then `is_connected` turned false
    | ConnectedThenError    // connected, then an exception (e.g. from `start_notify`)

  /**
   * One turn of the loop. `scan` is consulted only when no address is held at
   * the loop head, `link` only when an address is held once the scan is done.
   */
  datatype Event = Interrupt | Iteration(scan: ScanOutcome, link: LinkOutcome)

  /** The configured sleep a turn ends on. */
  datatype Delay = ScanRetryInterval | RetryDelay

  /** The loop's two variables, `device_address` and `retry_count`. */
  datatype State = State(address: Option<string>, retries: nat)

  datatype StepResult = Exit | Continue(next: State, delay: Delay)

  const Initial: State := State(None, 0)

  /** Python truthiness of `device_address`: `None` and the empty string both mean "no device". */
  predicate Known(address: Option<string>) {
    address.Some? && address.value != ""
  }

  /** The retry check after the `try` block: give up on the device once the count reaches `max_retries`. */
  function RetryCheck(address: Option<string>, retries: nat, maxRetries: int): (s: State)
    ensures retries >= maxRetries ==> s == State(None, 0)
    ensures retries < maxRetries ==> s == State(address, retries)
  {
    if retries >= maxRetries then State(None, 0) else State(address, retries)
  }

  /** `retry_count` at the end of the `try` block when an address was held and the connect was tried. */
  function ConnectRetries(retries: nat, link: LinkOutcome): (r: nat)
    ensures link.ConnectTimeout? || link.ConnectError? ==> r == retries + 1
    ensures link.ConnectedThenLost? ==> r == 0
    ensures link.ConnectedThenError? ==> r == 1
  {
    match link
    case ConnectTimeout => retries + 1
    case ConnectError => retries + 1
    case ConnectedThenLost => 0
    case ConnectedThenError => 0 + 1
  }

  /** One turn of the loop from the state at its head. */
  function Step(s: State, maxRetries: int, e: Event): (r: StepResult)
    ensures r.Exit? <==> e.Interrupt?
    ensures r.Continue? && maxRetries >= 1 && s.retries < maxRetries ==> r.next.retries < maxRetries
    ensures r.Continue? && r.delay.RetryDelay? ==> r.next.retries < maxRetries || r.next == State(None, 0)
  {
    match e
    case Interrupt => Exit
    case Iteration(scan, link) =>
      if Known(s.address) then
        Continue(RetryCheck(s.address, ConnectRetries(s.retries, link), maxRetries), RetryDelay)
      else
        match scan
        case ScanFailed =>
          Continue(RetryCheck(s.address, s.retries + 1, maxRetries), RetryDelay)
        case Discovered(devices) =>
          var found := FirstSensorAddress(devices);
          if !Known(found) then Continue(State(found, s.retries), ScanRetryInterval)
          else Continue(RetryCheck(found, ConnectRetries(s.retries, link), maxRetries), RetryDelay)
  }

  /** The loop's variables when it stops, the delays it slept, and whether it was interrupted. */
  datatype Supervision = Supervision(state: State, delays: seq<Delay>, stopped: bool)

  /** The loop run over a finite sequence of events, stopping at the first `Interrupt`. */
  function Run(s: State, maxRetries: int, events: seq<Event>): (r: Supervision)
    decreases |events|
    ensures |r.delays| <= |events|
    ensures !r.stopped ==> |r.delays| == |events|
    ensures r.stopped ==> |r.delays| < |events|
  {
    if events == [] then Supervision(s, [], false)
    else
      match Step(s, maxRetries, events[0])
      case Exit => Supervision(s, [], true)
      case Continue(next, delay) =>
        var rest := Run(next, maxRetries, events[1..]);
        Supervision(rest.state, [delay] + rest.delays, rest.stopped)
  }

  /** `result` with `delays` slept before it. */
  function Prepend(delays: seq<Delay>, result: Supervision): Supervision {
    Supervision(result.state, delays + result.delays, result.stopped)
  }

  /** One more turn of the loop moves its delay from the run still ahead to the delays already slept. */
  lemma Advance(maxRetries: int, events: seq<Event>, i: nat, delays: seq<Delay>, s: State, next: State, delay: Delay)
    requires i < |events|
    requires Run(Initial, maxRetries, events) == Prepend(delays, Run(s, maxRetries, events[i..]))
    requires Step(s, maxRetries, events[i]) == Continue(next, delay)
    ensures Run(Initial, maxRetries, events) == Prepend(delays + [delay], Run(next, maxRetries, events[i + 1..]))
  {
    assert events[i..][0] == events[i] && events[i..][1..] == events[i + 1..];
  }

  /** The loop stops exactly when it is interrupted: no protocol or timeout error ends it. */
  lemma {:induction false} RunStopsIffInterrupt(s: State, maxRetries: int, events: seq<Event>)
    ensures Run(s, maxRetries, events).stopped <==> Interrupt in events
    decreases |events|
  {
    if events != [] && !events[0].Interrupt? {
      var next := Step(s, maxRetries, events[0]).next;
      RunStopsIffInterrupt(next, maxRetries, events[1..]);
      assert Interrupt in events <==> Interrupt in events[1..] by {
        assert events == [events[0]] + events[1..];
      }
    }
  }

  /** With `max_retries` at least 1, the count stays below it at every loop head. */
  lemma {:induction false} RunKeepsRetriesBelowMax(s: State, maxRetries: int, events: seq<Event>)
    requires maxRetries >= 1 && s.retries < maxRetries
    ensures Run(s, maxRetries, events).state.retries < maxRetries
    decreases |events|
  {
    if events != [] && !events[0].Interrupt? {
      RunKeepsRetriesBelowMax(Step(s, maxRetries, events[0]).next, maxRetries, events[1..]);
    }
  }

  /**
   * `main`'s `while True` loop over the events it meets. `continue` after a
   * scan miss skips the retry check; `break` on an interrupt ends the loop.
   */
  method Supervise(maxRetries: int, events: seq<Event>)
    returns (deviceAddress: Option<string>, retryCount: nat, delays: seq<Delay>, stopped: bool)
    ensures Supervision(State(deviceAddress, retryCount), delays, stopped) == Run(Initial, maxRetries, events)
    ensures stopped <==> Interrupt in events
    ensures maxRetries >= 1 ==> retryCount < maxRetries
  {
    deviceAddress, retryCount, delays, stopped := None, 0, [], false;
    var i := 0;
    while i < |events|
      invariant 0 <= i <= |events|
      invariant maxRetries >= 1 ==> retryCount < maxRetries
      invariant Run(Initial, maxRetries, events) == Prepend(delays, Run(State(deviceAddress, retryCount), maxRetries, events[i..]))
    {
      var event := events[i];
      ghost var before := State(deviceAddress, retryCount);
      if event.Interrupt? {
        assert events[i..][0] == event;
        stopped := true;
        break;
      }
      i := i + 1;
      var failed := false;
      if !Known(deviceAddress) {
        match event.scan
        case ScanFailed =>
          failed := true;
        case Discovered(devices) =>
          deviceAddress := SelectDevice(devices);
          if !Known(deviceAddress) {
            Advance(maxRetries, events, i - 1, delays, before, State(deviceAddress, retryCount), ScanRetryInterval);
            delays := delays + [ScanRetryInterval];
            continue;
          }
      }
      if !failed {
        match event.link
        case ConnectTimeout =>
          failed := true;
        case ConnectError =>
          failed := true;
        case ConnectedThenLost =>
          retryCount := 0;
        case ConnectedThenError =>
          retryCount := 0;
          failed := true;
      }
      if failed {
        retryCount := retryCount + 1;
      }
      if retryCount >= maxRetries {
        deviceAddress := None;
        retryCount := 0;
      }
      assert Step(before, maxRetries, event) == Continue(State(deviceAddress, retryCount), RetryDelay);
      Advance(maxRetries, events, i - 1, delays, before, State(deviceAddress, retryCount), RetryDelay);
      delays := delays + [RetryDelay];
    }
    RunStopsIffInterrupt(Initial, maxRetries, events);
  }

  /** A scan miss keeps the count, skips the retry check and sleeps the scan-retry interval. */
  lemma ScanMissSkipsRetryCheck(s: State, maxRetries: int, devices: seq<Advertisement>, link: LinkOutcome)
    requires !Known(s.address) && !Known(FirstSensorAddress(devices))
    ensures Step(s, maxRetries, Iteration(Discovered(devices), link)) ==
      Continue(State(FirstSensorAddress(devices), s.retries), ScanRetryInterval)
  {
  }

  /** A scan that raises counts as one failed attempt, and the retry check follows. */
  lemma ScanErrorCountsOne(s: State, maxRetries: int, link: LinkOutcome)
    requires !Known(s.address)
    ensures Step(s, maxRetries, Iteration(ScanFailed, link)) ==
      Continue(RetryCheck(s.address, s.retries + 1, maxRetries), RetryDelay)
  {
  }

  /** A sensor found by the scan is connected to in the same turn. */
  lemma ScanHitConnects(s: State, maxRetries: int, devices: seq<Advertisement>, link: LinkOutcome)
    requires !Known(s.address) && Known(FirstSensorAddress(devices))
    ensures Step(s, maxRetries, Iteration(Discovered(devices), link)) ==
      Continue(RetryCheck(FirstSensorAddress(devices), ConnectRetries(s.retries, link), maxRetries), RetryDelay)
  {
  }

  /** A connect that times out or raises raises the count by exactly one before the retry check. */
  lemma ConnectFailureCountsOne(s: State, maxRetries: int, scan: ScanOutcome, link: LinkOutcome)
    requires Known(s.address) && (link.ConnectTimeout? || link.ConnectError?)
    ensures Step(s, maxRetries, Iteration(scan, link)) ==
      Continue(RetryCheck(s.address, s.retries + 1, maxRetries), RetryDelay)
  {
  }

  /** A lost link resets the count and, with `max_retries` at least 1, reconnects to the same device. */
  lemma LostLinkKeepsDevice(s: State, maxRetries: int, scan: ScanOutcome)
    requires Known(s.address) && maxRetries >= 1
    ensures Step(s, maxRetries, Iteration(scan, ConnectedThenLost)) == Continue(State(s.address, 0), RetryDelay)
  {
  }

  /** With `max_retries` at most 0 even a link that was up and then lost makes the loop forget the device. */
  lemma LostLinkWithoutRetriesForgetsDevice(s: State, maxRetries: int, scan: ScanOutcome)
    requires Known(s.address) && maxRetries <= 0
    ensures Step(s, maxRetries, Iteration(scan, ConnectedThenLost)) == Continue(Initial, RetryDelay)
  {
  }

  /** An error after a successful connect leaves the count at 1: the reset comes before the increment. */
  lemma ErrorAfterConnectCountsFromZero(s: State, maxRetries: int, scan: ScanOutcome)
    requires Known(s.address)
    ensures Step(s, maxRetries, Iteration(scan, ConnectedThenError)) ==
      Continue(RetryCheck(s.address, 1, maxRetries), RetryDelay)
  {
  }

  /** Running two event sequences one after the other is running the first, then the second from where it left off. */
  lemma {:induction false} RunAppend(s: State, maxRetries: int, first: seq<Event>, second: seq<Event>)
    requires !Run(s, maxRetries, first).stopped
    ensures var mid := Run(s, maxRetries, first);
      Run(s, maxRetries, first + second) == Prepend(mid.delays, Run(mid.state, maxRetries, second))
    decreases |first|
  {
    if first == [] {
      assert first + second == second;
    } else {
      assert (first + second)[0] == first[0] && (first + second)[1..] == first[1..] + second;
      RunAppend(Step(s, maxRetries, first[0]).next, maxRetries, first[1..], second);
    }
  }

  /** A turn in which the scan finds no sensor. */
  predicate IsScanMiss(e: Event) {
    e.Iteration? && e.scan.Discovered? && !Known(FirstSensorAddress(e.scan.devices))
  }

  /** A scanner that never finds a sensor keeps the loop rescanning, at the scan-retry interval, without end. */
  lemma {:induction false} NoSensorRescansForever(s: State, maxRetries: int, events: seq<Event>)
    requires !Known(s.address)
    requires forall i :: 0 <= i < |events| ==> IsScanMiss(events[i])
    ensures var r := Run(s, maxRetries, events);
      && !r.stopped && !Known(r.state.address) && r.state.retries == s.retries
      && |r.delays| == |events| && forall i :: 0 <= i < |r.delays| ==> r.delays[i] == ScanRetryInterval
    decreases |events|
  {
    if events != [] {
      var next := Step(s, maxRetries, events[0]).next;
      assert forall i :: 0 <= i < |events[1..]| ==> events[1..][i] == events[i + 1];
      NoSensorRescansForever(next, maxRetries, events[1..]);
    }
  }

  /** A turn in which the connect to the held device fails. */
  predicate IsConnectFailure(e: Event) {
    e.Iteration? && (e.link.ConnectTimeout? || e.link.ConnectError?)
  }

  /** Failing to connect until the count reaches `max_retries` forgets the device and resets the count. */
  lemma {:induction false} ExhaustedRetriesForgetDevice(s: State, maxRetries: int, events: seq<Event>)
    requires Known(s.address) && s.retries < maxRetries
    requires |events| == maxRetries - s.retries
    requires forall i :: 0 <= i < |events| ==> IsConnectFailure(events[i])
    ensures var r := Run(s, maxRetries, events);
      && !r.stopped && r.state == Initial
      && |r.delays| == |events| && forall i :: 0 <= i < |r.delays| ==> r.delays[i] == RetryDelay
    decreases |events|
  {
    var next := Step(s, maxRetries, events[0]).next;
    if |events| > 1 {
      assert next == State(s.address, s.retries + 1);
      assert forall i :: 0 <= i < |events[1..]| ==> events[1..][i] == events[i + 1];
      ExhaustedRetriesForgetDevice(next, maxRetries, events[1..]);
    }
  }

  /**
   * A link that fails `max_retries` times and then succeeds: the device is
   * forgotten, the next turn scans afresh, and the count reads 0 after the
   * successful connect.
   */
  lemma RescanBeforeSuccessfulConnect(address: string, maxRetries: int, failures: seq<Event>,
                                      devices: seq<Advertisement>)
    requires address != "" && maxRetries >= 1
    requires |failures| == maxRetries && forall i :: 0 <= i < |failures| ==> IsConnectFailure(failures[i])
    requires Known(FirstSensorAddress(devices))
    ensures Run(State(Some(address), 0), maxRetries, failures).state == Initial
    ensures Run(State(Some(address), 0), maxRetries, failures + [Iteration(Discovered(devices), ConnectedThenLost)]).state ==
      State(FirstSensorAddress(devices), 0)
  {
    var s := State(Some(address), 0);
    ExhaustedRetriesForgetDevice(s, maxRetries, failures);
    RunAppend(s, maxRetries, failures, [Iteration(Discovered(devices), ConnectedThenLost)]);
  }
}
