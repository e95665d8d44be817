/**
 * The outer loop of app_main: each pass sets the station up with a fresh
 * event group, waits until CONNECTED or FAIL is latched, and then either
 * leaves the loop (CONNECTED, which wins over FAIL) or stops Wi-Fi, rescans
 * and goes round again, sleeping first when the target was not seen.
 *
 * The loop is infinite; here it consumes a finite script of passes, each
 * giving the driver events that arrive before the wait returns and the
 * driver's answers to the rescan.
 */
module Supervisor {
  import opened StationConfig
  import opened WifiEvents
  import opened ApScan

  /** The two bits the wait returns. */
  datatype EventBits = EventBits(connected: bool, fail: bool)

  /** What one pass decides once the wait has returned. NoBitSet is the
      fall-through of the if/else-if chain: go round again at once, without
      stopping Wi-Fi or scanning. */
  datatype LoopAction = EnterApp | Rescan(outcome: ScanOutcome, delayMs: nat) | NoBitSet

  /** One pass of the environment: the events the driver delivers while the
      pass runs, how many of them arrive before app_main enters the wait, and
      the driver's answers to the rescan. Events after the one that ends the
      wait arrive while the pass is stopping Wi-Fi and scanning. */
  datatype PassInput = PassInput(events: seq<WifiEvent>, waitAt: nat, scan: ScanInput)

  /** How the loop ends: left for the application loop, stuck in a wait that
      no bit will end, or out of script while still retrying. */
  datatype SupervisorExit = EnteredApp | WaitBlocked | ScriptEnded

  datatype SupervisorRun = SupervisorRun(actions: seq<LoopAction>, exit: SupervisorExit, final: HandlerState)

  function BitsOf(s: HandlerState): EventBits {
    EventBits(s.connectedBit, s.failBit)
  }

  /** The decision of one pass after the wait, given the bits it returned and
      the answers the rescan would get. */
  function Decide(bits: EventBits, scan: ScanInput): (a: LoopAction)
    ensures bits.connected ==> a == EnterApp
    ensures !bits.connected && bits.fail ==>
      a.Rescan? && a.outcome == ScanSpec(scan)
      && (a.delayMs == 0 <==> ScanFindsTarget(scan))
      && (a.delayMs == 0 || a.delayMs == TargetAbsentDelayMs)
    ensures !bits.connected && !bits.fail ==> a == NoBitSet
  {
    ScanSpecFindsFirst(scan);
    if bits.connected then EnterApp
    else if bits.fail then
      var o := ScanSpec(scan);
      Rescan(o, if o.FoundTarget? then 0 else TargetAbsentDelayMs)
    else NoBitSet
  }

  /** How many of a pass's events have arrived when app_main enters the wait. */
  function WaitEntry(p: PassInput): (m: nat)
    ensures m <= |p.events|
  {
    if p.waitAt <= |p.events| then p.waitAt else |p.events|
  }

  /** How one pass ends: blocked in a wait that no event ends, or with a
      decision and the handler state once the pass's last event is handled. */
  datatype PassStep = Blocked(at: HandlerState) | Decided(action: LoopAction, after: HandlerState)

  /** One pass from the handler state it starts in. The wait returns with the
      bits as they stand once the first n events are handled; the rest of the
      pass's events are handled afterwards, while Wi-Fi is stopped and
      rescanned. */
  function Pass(s: HandlerState, p: PassInput): (r: PassStep)
    ensures r.Decided? ==> r.action.EnterApp? || r.action.Rescan?
  {
    var s0 := ClearBits(s);
    var n := WakeFrom(s0, p.events, WaitEntry(p));
    var t := Run(s0, p.events[..n]);
    if !Latched(t) then Blocked(t)
    else Decided(Decide(BitsOf(t), p.scan), Run(t, p.events[n..]))
  }

  /** The loop over a script of passes, from the handler state it starts in. */
  function Supervise(s: HandlerState, passes: seq<PassInput>): SupervisorRun
    decreases |passes|
  {
    if passes == [] then SupervisorRun([], ScriptEnded, s)
    else match Pass(s, passes[0])
      case Blocked(t) => SupervisorRun([], WaitBlocked, t)
      case Decided(a, after) =>
        if a.EnterApp? then SupervisorRun([a], EnteredApp, after)
        else
          var rest := Supervise(after, passes[1..]);
          SupervisorRun([a] + rest.actions, rest.exit, rest.final)
  }

  /** The counter bound holds across passes: the group is recreated each pass
      but the counter carries over and stays within 0..MaximumRetry. */
  lemma {:induction false} SuperviseKeepsRetryBound(s: HandlerState, passes: seq<PassInput>)
    requires Valid(s)
    ensures Valid(Supervise(s, passes).final)
    decreases |passes|
  {
    if passes != [] {
      var p := passes[0];
      var n := WakeFrom(ClearBits(s), p.events, WaitEntry(p));
      var t := Run(ClearBits(s), p.events[..n]);
      RunKeepsRetryBound(ClearBits(s), p.events[..n]);
      RunKeepsRetryBound(t, p.events[n..]);
      if Pass(s, p).Decided? {
        SuperviseKeepsRetryBound(Pass(s, p).after, passes[1..]);
      }
    }
  }

  /** The shape of every run: at most one action per pass; every action but
      the last is a rescan; the loop is left exactly when the last action is
      EnterApp; and a rescan sleeps 5000 ms exactly when the target was not
      seen, otherwise not at all. */
  lemma {:induction false} SuperviseShape(s: HandlerState, passes: seq<PassInput>)
    ensures var r := Supervise(s, passes);
      |r.actions| <= |passes|
      && (forall i :: 0 <= i < |r.actions| - 1 ==> r.actions[i].Rescan?)
      && (r.exit == EnteredApp <==> r.actions != [] && r.actions[|r.actions| - 1] == EnterApp)
      && (forall i :: 0 <= i < |r.actions| ==> r.actions[i].EnterApp? || r.actions[i].Rescan?)
      && (forall i :: 0 <= i < |r.actions| && r.actions[i].Rescan? ==>
            (r.actions[i].delayMs == 0 <==> r.actions[i].outcome.FoundTarget?)
            && (r.actions[i].delayMs == 0 || r.actions[i].delayMs == TargetAbsentDelayMs))
    decreases |passes|
  {
    if passes != [] && Pass(s, passes[0]).Decided? && !Pass(s, passes[0]).action.EnterApp? {
      SuperviseShape(Pass(s, passes[0]).after, passes[1..]);
    }
  }

  /** A pass that connects leaves the loop, whatever bits the previous pass
      left and whatever the rescan would have answered. */
  lemma ConnectedWins(s: HandlerState, waitAt: nat, scan: ScanInput, rest: seq<PassInput>)
    ensures var r := Supervise(s.(failBit := true), [PassInput([StaStart, StaGotIp], waitAt, scan)] + rest);
      r.actions == [EnterApp] && r.exit == EnteredApp
  {
  }

  /** A FAIL latched in the previous pass does not carry into the next: the
      group is recreated, so a pass whose events never set a bit, wherever the
      wait is entered, blocks in the wait instead of rescanning, with every
      event of the pass handled. */
  lemma StaleFailDropped(s: HandlerState, p: PassInput, rest: seq<PassInput>)
    requires forall k :: 0 <= k <= |p.events| ==> !Latched(Run(ClearBits(s), p.events[..k]))
    ensures var r := Supervise(s.(failBit := true), [p] + rest);
      r.exit == WaitBlocked && r.actions == [] && r.final == Run(ClearBits(s), p.events)
  {
    assert ClearBits(s.(failBit := true)) == ClearBits(s);
    WakeFromIsFirst(ClearBits(s), p.events, WaitEntry(p), |p.events|);
    assert p.events[..|p.events|] == p.events;
  }

  /** When both bits are latched by the time app_main reaches the wait,
      CONNECTED wins over FAIL: all retries failing and then an address
      arriving before the wait leaves the loop. */
  lemma BothBitsConnectedWins(s: HandlerState, waitAt: nat, scan: ScanInput, rest: seq<PassInput>)
    requires s.retryNum == 0 && waitAt >= 8
    ensures var es := [StaStart] + Disconnects(6) + [StaGotIp];
      var r := Supervise(s, [PassInput(es, waitAt, scan)] + rest);
      r.actions == [EnterApp] && r.exit == EnteredApp
  {
  }

  /** A wait entered before FAIL is latched returns at that event, with FAIL
      alone: the same events as above, with app_main waiting before the
      address arrives, make the pass rescan. */
  lemma WaitWakesAtFail(s: HandlerState, waitAt: nat, scan: ScanInput, rest: seq<PassInput>)
    requires s.retryNum == 0 && waitAt <= 7
    ensures var es := [StaStart] + Disconnects(6) + [StaGotIp];
      var r := Supervise(s, [PassInput(es, waitAt, scan)] + rest);
      r.actions != [] && r.actions[0] == Decide(EventBits(false, true), scan) && r.actions[0].Rescan?
  {
    var es := [StaStart] + Disconnects(6) + [StaGotIp];
    var s0 := ClearBits(s);
    var fs := [StaStart] + Disconnects(6);
    FailedCycle(s0);
    FailedCycleLatchesLast(s0, waitAt);
    assert fs[..7] == fs;
    WakeFromPrefix(s0, fs, [StaGotIp], waitAt);
    assert es[..7] == fs;
  }

  /** A pass that fails the whole retry budget and whose rescan does not see
      the target. */
  predicate AbsentTargetPass(p: PassInput) {
    p.events == [StaStart] + Disconnects(6) && !ScanFindsTarget(p.scan)
  }

  /** When every pass fails and the target is never seen, the loop never
      leaves: each pass rescans and sleeps 5000 ms, and the counter is back at
      0 after each. */
  lemma {:induction false} AbsentTargetNeverConnects(s: HandlerState, passes: seq<PassInput>)
    requires s.retryNum == 0
    requires forall i :: 0 <= i < |passes| ==> AbsentTargetPass(passes[i])
    ensures var r := Supervise(s, passes);
      r.exit == ScriptEnded && |r.actions| == |passes| && r.final.retryNum == 0
      && forall i :: 0 <= i < |passes| ==> r.actions[i] == Rescan(ScanSpec(passes[i].scan), TargetAbsentDelayMs)
    decreases |passes|
  {
    if passes != [] {
      var p := passes[0];
      FailedCycle(ClearBits(s));
      FailedCycleLatchesLast(ClearBits(s), WaitEntry(p));
      var n := WakeFrom(ClearBits(s), p.events, WaitEntry(p));
      assert p.events[..n] == p.events && p.events[n..] == [];
      var t := Run(ClearBits(s), passes[0].events);
      assert t.failBit && !t.connectedBit && t.retryNum == 0;
      AbsentTargetNeverConnects(t, passes[1..]);
      var rest := Supervise(t, passes[1..]);
      forall i | 1 <= i < |passes|
        ensures Supervise(s, passes).actions[i] == Rescan(ScanSpec(passes[i].scan), TargetAbsentDelayMs)
      {
        assert passes[1..][i - 1] == passes[i];
      }
    }
  }

  /** One pass of app_main's loop: recreate the group, let the events before
      the wait arrive, wait, decide, and let the rest of the pass's events
      arrive while Wi-Fi is stopped and rescanned. Reports whether the wait
      would block for good, and otherwise the pass's decision. */
  method RunPass(h: EventHandler, p: PassInput) returns (blocked: bool, a: LoopAction)
    modifies h
    ensures var r := Pass(old(h.State()), p);
      (blocked <==> r.Blocked?)
      && (blocked ==> h.State() == r.at)
      && (!blocked ==> a == r.action && h.State() == r.after)
  {
    h.NewEventGroup();
    ghost var s0 := h.State();
    var m := WaitEntry(p);
    h.Deliver(p.events[..m]);
    assert p.events[..m][..m] == p.events[..m];
    var n, connected, fail := h.AwaitLatch(s0, p.events, m);
    if !connected && !fail {
      // No bit is latched and the pass has no more events: the wait never returns.
      return true, NoBitSet;
    }
    blocked := false;
    if connected {
      a := EnterApp;
    } else {
      var found, outcome := ScanForAp(p.scan);
      a := Rescan(outcome, if found then 0 else TargetAbsentDelayMs);
    }
    h.Deliver(p.events[n..]);
  }

  /** app_main's retry loop. The handler object stands for the globals the
      driver's callbacks mutate; the script drives it pass by pass. */
  method AppMain(h: EventHandler, passes: seq<PassInput>) returns (actions: seq<LoopAction>, exit: SupervisorExit)
    modifies h
    ensures Supervise(old(h.State()), passes) == SupervisorRun(actions, exit, h.State())
  {
    actions, exit := [], ScriptEnded;
    var i := 0;
    while i < |passes|
      invariant 0 <= i <= |passes|
      invariant var r := Supervise(h.State(), passes[i..]);
        Supervise(old(h.State()), passes) == SupervisorRun(actions + r.actions, r.exit, r.final)
    {
      ghost var before := h.State();
      assert passes[i..][0] == passes[i] && passes[i..][1..] == passes[i + 1..];
      var blocked, a := RunPass(h, passes[i]);
      if blocked {
        exit := WaitBlocked;
        return;
      }
      actions := actions + [a];
      if a.EnterApp? {
        exit := EnteredApp;
        return;
      }
      assert actions + Supervise(h.State(), passes[i + 1..]).actions
        == actions[..|actions| - 1] + Supervise(before, passes[i..]).actions;
      i := i + 1;
    }
  }
}
