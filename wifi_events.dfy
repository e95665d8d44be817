/**
 * The station's event handler: the retry/latch state machine that reacts to
 * the radio driver's callbacks. The globals it mutates (the retry counter and
 * the two bits of the event group) become the fields of class EventHandler;
 * Step and Run give the same behaviour as pure functions on HandlerState,
 * and the lemmas below are stated about them.
 */
module WifiEvents {
  import opened StationConfig

  /** The driver events that reach the handler. The handler is registered for
      every WIFI_EVENT id, so ids other than start and disconnect arrive as
      OtherWifiEvent and are ignored. */
  datatype WifiEvent = StaStart | StaDisconnected | StaGotIp | OtherWifiEvent

  /** The handler's state: s_retry_num, the CONNECTED and FAIL bits of the
      event group, and how many times esp_wifi_connect has been called. */
  datatype HandlerState = HandlerState(retryNum: int, connectedBit: bool, failBit: bool, connectCalls: nat)

  /** The counter stays within 0..MaximumRetry. */
  predicate Valid(s: HandlerState) {
    0 <= s.retryNum <= MaximumRetry
  }

  /** Before any event: the counter's static initial value, no bit set, no connect issued. */
  function Boot(): (s: HandlerState)
    ensures Valid(s)
  {
    HandlerState(0, false, false, 0)
  }

  /** A freshly created event group: both bits clear, counter and connect count untouched. */
  function ClearBits(s: HandlerState): HandlerState {
    s.(connectedBit := false, failBit := false)
  }

  /** The handler's reaction to one event. */
  function Step(s: HandlerState, e: WifiEvent): HandlerState {
    match e
    case StaStart => s.(connectCalls := s.connectCalls + 1)
    case StaDisconnected =>
      if s.retryNum < MaximumRetry then s.(retryNum := s.retryNum + 1, connectCalls := s.connectCalls + 1)
      else s.(failBit := true, retryNum := 0)
    case StaGotIp => s.(retryNum := 0, connectedBit := true)
    case OtherWifiEvent => s
  }

  /** The state after the events are handled one by one, in order. */
  function Run(s: HandlerState, events: seq<WifiEvent>): HandlerState
    decreases |events|
  {
    if events == [] then s else Step(Run(s, events[..|events| - 1]), events[|events| - 1])
  }

  /** k disconnect events in a row. */
  function Disconnects(k: nat): (es: seq<WifiEvent>)
    ensures |es| == k && forall i :: 0 <= i < k ==> es[i] == StaDisconnected
  {
    seq(k, _ => StaDisconnected)
  }

  /** How many of the events are disconnects. */
  function CountDisconnects(events: seq<WifiEvent>): nat
    decreases |events|
  {
    if events == [] then 0
    else CountDisconnects(events[..|events| - 1]) + (if events[|events| - 1] == StaDisconnected then 1 else 0)
  }

  /** Some bit of the event group is set: a wait on both bits is satisfied. */
  predicate Latched(s: HandlerState) {
    s.connectedBit || s.failBit
  }

  /** Where a wait on both bits returns when it is entered after the first m
      events: at once if a bit is already latched, else just after the first
      later event that latches one (or, if none does, never: |events|). */
  function WakeFrom(s: HandlerState, events: seq<WifiEvent>, m: nat): (n: nat)
    requires m <= |events|
    ensures m <= n <= |events|
    ensures forall k :: m <= k < n ==> !Latched(Run(s, events[..k]))
    ensures n < |events| ==> Latched(Run(s, events[..n]))
    decreases |events| - m
  {
    if m == |events| || Latched(Run(s, events[..m])) then m else WakeFrom(s, events, m + 1)
  }

  /** The counter stays within 0..MaximumRetry under any sequence of events. */
  lemma {:induction false} RunKeepsRetryBound(s: HandlerState, events: seq<WifiEvent>)
    requires Valid(s)
    ensures Valid(Run(s, events))
    decreases |events|
  {
    if events != [] {
      RunKeepsRetryBound(s, events[..|events| - 1]);
    }
  }

  /** The bits are latched: no event clears CONNECTED or FAIL, and the connect count never falls. */
  lemma {:induction false} RunLatchesBits(s: HandlerState, events: seq<WifiEvent>)
    ensures s.connectedBit ==> Run(s, events).connectedBit
    ensures s.failBit ==> Run(s, events).failBit
    ensures s.connectCalls <= Run(s, events).connectCalls
    decreases |events|
  {
    if events != [] {
      RunLatchesBits(s, events[..|events| - 1]);
    }
  }

  /** While the budget lasts, each disconnect issues exactly one reconnect and
      bumps the counter by one, and no bit changes. */
  lemma {:induction false} DisconnectsRetry(s: HandlerState, k: nat)
    requires 0 <= s.retryNum && s.retryNum + k <= MaximumRetry
    ensures Run(s, Disconnects(k)) == s.(retryNum := s.retryNum + k, connectCalls := s.connectCalls + k)
    decreases k
  {
    if k > 0 {
      assert Disconnects(k)[..k - 1] == Disconnects(k - 1);
      DisconnectsRetry(s, k - 1);
    }
  }

  /** From boot, five disconnects give five reconnects and no FAIL; the sixth
      latches FAIL, resets the counter and issues no connect. */
  lemma SixthDisconnectFails()
    ensures Run(Boot(), Disconnects(5)) == HandlerState(5, false, false, 5)
    ensures Run(Boot(), Disconnects(6)) == HandlerState(0, false, true, 5)
  {
    DisconnectsRetry(Boot(), 5);
    assert Disconnects(6)[..5] == Disconnects(5);
  }

  /** One full failed cycle of a fresh pass: the start event's connect plus
      MaximumRetry reconnects, then FAIL with the counter back at 0. */
  lemma FailedCycle(s: HandlerState)
    requires s.retryNum == 0
    ensures Run(s, [StaStart] + Disconnects(6)) == s.(failBit := true, connectCalls := s.connectCalls + 6)
  {
    var es := [StaStart] + Disconnects(6);
    var s1 := Step(s, StaStart);
    assert s1 == s.(connectCalls := s.connectCalls + 1);
    RunFromFront(s, StaStart, Disconnects(6));
    DisconnectsRetry(s1, 5);
    assert Disconnects(6)[..5] == Disconnects(5);
  }

  /** In a failed cycle no bit is latched before the last disconnect: a wait
      entered anywhere in it returns only once FAIL is latched, at its end. */
  lemma FailedCycleLatchesLast(s: HandlerState, m: nat)
    requires s.retryNum == 0 && !Latched(s) && m <= 7
    ensures WakeFrom(s, [StaStart] + Disconnects(6), m) == 7
  {
    var es := [StaStart] + Disconnects(6);
    forall k | m <= k < 7 ensures !Latched(Run(s, es[..k])) {
      if k > 0 {
        assert es[..k] == [StaStart] + Disconnects(k - 1);
        RunFromFront(s, StaStart, Disconnects(k - 1));
        DisconnectsRetry(Step(s, StaStart), k - 1);
      }
    }
    WakeFromIsFirst(s, es, m, 7);
  }

  /** Got-IP gives a fresh budget: after it, MaximumRetry disconnects are all
      retried and latch nothing new, and CONNECTED stays latched. */
  lemma GotIpRefreshesBudget(s: HandlerState)
    ensures Run(s, [StaGotIp] + Disconnects(5)) ==
      s.(retryNum := 5, connectedBit := true, connectCalls := s.connectCalls + 5)
  {
    RunFromFront(s, StaGotIp, Disconnects(5));
    DisconnectsRetry(Step(s, StaGotIp), 5);
  }

  /** Handling one event first and then the rest is the same as handling them all. */
  lemma {:induction false} RunFromFront(s: HandlerState, e: WifiEvent, rest: seq<WifiEvent>)
    ensures Run(s, [e] + rest) == Run(Step(s, e), rest)
    decreases |rest|
  {
    if rest == [] {
      assert ([e] + rest)[..0] == [];
    } else {
      var n := |rest|;
      assert ([e] + rest)[..n] == [e] + rest[..n - 1];
      RunFromFront(s, e, rest[..n - 1]);
    }
  }

  /** FAIL is never latched early: from a valid state without FAIL, it takes
      at least MaximumRetry + 1 - retryNum disconnects to latch it. While FAIL
      stays clear the counter has grown by at most the disconnects seen. */
  lemma {:induction false} FailNeedsDisconnects(s: HandlerState, events: seq<WifiEvent>)
    requires Valid(s) && !s.failBit
    ensures var t := Run(s, events);
      Valid(t) && (!t.failBit ==> t.retryNum <= s.retryNum + CountDisconnects(events))
      && (t.failBit ==> CountDisconnects(events) >= MaximumRetry + 1 - s.retryNum)
    decreases |events|
  {
    if events != [] {
      var init := events[..|events| - 1];
      var e := events[|events| - 1];
      FailNeedsDisconnects(s, init);
      var t := Run(s, init);
      if t.failBit {
        RunLatchesBits(t, [e]);
      }
    }
  }

  /** WakeFrom is the first latched point at or after m (or the end). */
  lemma WakeFromIsFirst(s: HandlerState, events: seq<WifiEvent>, m: nat, n: nat)
    requires m <= n <= |events|
    requires forall k :: m <= k < n ==> !Latched(Run(s, events[..k]))
    requires n < |events| ==> Latched(Run(s, events[..n]))
    ensures WakeFrom(s, events, m) == n
  {
  }

  /** Events that arrive after the wait has returned do not change where it
      returned. */
  lemma WakeFromPrefix(s: HandlerState, a: seq<WifiEvent>, b: seq<WifiEvent>, m: nat)
    requires m <= |a| && Latched(Run(s, a[..WakeFrom(s, a, m)]))
    ensures WakeFrom(s, a + b, m) == WakeFrom(s, a, m)
  {
    var n := WakeFrom(s, a, m);
    forall k | m <= k <= n ensures (a + b)[..k] == a[..k] { }
    WakeFromIsFirst(s, a + b, m, n);
  }

  /** Handles the radio driver's callbacks, mutating the shared connection state. */
  class EventHandler {
    /** s_retry_num: reconnects issued since the last reset. */
    var retryNum: int
    /** WIFI_CONNECTED_BIT of s_wifi_event_group. */
    var connectedBit: bool
    /** WIFI_FAIL_BIT of s_wifi_event_group. */
    var failBit: bool
    /** The number of esp_wifi_connect calls issued so far. */
    ghost var connectCalls: nat

    ghost function State(): HandlerState
      reads this
    {
      HandlerState(retryNum, connectedBit, failBit, connectCalls)
    }

    /** The firmware's state at boot: counter 0, no group bits, nothing issued. */
    constructor ()
      ensures State() == Boot()
    {
      retryNum, connectedBit, failBit := 0, false, false;
      connectCalls := 0;
    }

    /** xEventGroupCreate at the start of each station setup: both bits clear,
        the counter (a separate static) untouched. */
    method NewEventGroup()
      modifies this
      ensures State() == ClearBits(old(State()))
    {
      connectedBit, failBit := false, false;
    }

    /** Station started: issue a connect. */
    method OnStaStart()
      modifies this
      ensures retryNum == old(retryNum) && connectedBit == old(connectedBit) && failBit == old(failBit)
      ensures connectCalls == old(connectCalls) + 1
    {
      connectCalls := connectCalls + 1;
    }

    /** Disconnected: below the maximum, reconnect and count the retry;
        otherwise latch FAIL and reset the counter without reconnecting. */
    method OnStaDisconnected()
      modifies this
      ensures connectedBit == old(connectedBit)
      ensures old(retryNum) < MaximumRetry ==>
        retryNum == old(retryNum) + 1 && connectCalls == old(connectCalls) + 1 && failBit == old(failBit)
      ensures old(retryNum) >= MaximumRetry ==>
        retryNum == 0 && failBit && connectCalls == old(connectCalls)
    {
      if retryNum < MaximumRetry {
        connectCalls := connectCalls + 1;
        retryNum := retryNum + 1;
      } else {
        failBit := true;
        retryNum := 0;
      }
    }

    /** Got an address: reset the counter and latch CONNECTED. */
    method OnGotIp()
      modifies this
      ensures retryNum == 0 && connectedBit
      ensures failBit == old(failBit) && connectCalls == old(connectCalls)
    {
      retryNum := 0;
      connectedBit := true;
    }

    /** xEventGroupWaitBits on both bits, entered after the first m events of
        the pass were handled: it lets the handler take events until a bit is
        latched, and returns how many events were handled by then and the bits
        as they stand at that point. With clearOnExit false the bits stay set. */
    method AwaitLatch(ghost s0: HandlerState, events: seq<WifiEvent>, m: nat) returns (n: nat, connected: bool, fail: bool)
      requires m <= |events| && State() == Run(s0, events[..m])
      modifies this
      ensures n == WakeFrom(s0, events, m)
      ensures State() == Run(s0, events[..n])
      ensures connected == Run(s0, events[..n]).connectedBit && fail == Run(s0, events[..n]).failBit
      ensures n < |events| ==> connected || fail
    {
      n := m;
      while n < |events| && !(connectedBit || failBit)
        invariant m <= n <= |events|
        invariant State() == Run(s0, events[..n])
        invariant forall k :: m <= k < n ==> !Latched(Run(s0, events[..k]))
        decreases |events| - n
      {
        assert events[..n + 1][..n] == events[..n];
        Handle(events[n]);
        n := n + 1;
      }
      WakeFromIsFirst(s0, events, m, n);
      connected, fail := connectedBit, failBit;
    }

    /** event_handler: dispatch on the event. */
    method Handle(e: WifiEvent)
      modifies this
      ensures State() == Step(old(State()), e)
    {
      match e {
        case StaStart => OnStaStart();
        case StaDisconnected => OnStaDisconnected();
        case StaGotIp => OnGotIp();
        case OtherWifiEvent =>
      }
    }

    /** The event loop task handing the events to the handler one at a time. */
    method Deliver(events: seq<WifiEvent>)
      modifies this
      ensures State() == Run(old(State()), events)
    {
      for i := 0 to |events|
        invariant State() == Run(old(State()), events[..i])
      {
        assert events[..i + 1][..i] == events[..i];
        Handle(events[i]);
      }
      assert events[..|events|] == events;
    }
  }
}
