/**
 * The settings screen over time: the store-change listener is registered on
 * resume and unregistered on pause, and every write that changes a stored
 * value notifies it while registered. `Run` drives the screen through a sequence of events.
 */
module Lifecycle {
  import opened Wrappers
  import opened Preferences
  import opened SettingsFragment

  datatype Event =
    | Resume                                    // the screen becomes visible
    | Pause                                     // the screen is hidden
    | Write(key: string, value: Value)          // any committed write to the store
    | SelectNetworkType(choice: int)            // a network type picked on the screen
    | ClickCheckForUpdates(network: Option<Network>)  // "check for updates" pressed

  /** The store and whether the store-change listener is currently registered. */
  datatype Fragment = Fragment(prefs: Prefs, listening: bool)

  /** Where a run ends and every effect it asked for, in order. */
  datatype Trace = Trace(fragment: Fragment, effects: seq<Effect>)

  /** Writes respect the declared kind of the key they write. */
  predicate Admissible(e: Event) {
    e.Write? ==> Fits(e.key, e.value)
  }

  predicate AllAdmissible(events: seq<Event>) {
    forall i :: 0 <= i < |events| ==> Admissible(events[i])
  }

  /** The event writes the `waiting_for_reboot` flag, which the screen itself never does. */
  predicate TouchesWaitingFlag(e: Event) {
    e.Write? && e.key == KeyWaitingForReboot
  }

  predicate NoneTouchWaitingFlag(events: seq<Event>) {
    forall i :: 0 <= i < |events| ==> !TouchesWaitingFlag(events[i])
  }

  /** The write changes what is stored; the store notifies no listener of a write that does not. */
  predicate Changes(p: Prefs, key: string, v: Value) {
    key !in p || p[key] != v
  }

  /** Reference store transition: the key an event writes, and nothing else. */
  function StoreAfter(p: Prefs, e: Event): Prefs {
    match e
    case Write(key, v) => p[key := v]
    case SelectNetworkType(choice) => p[KeyNetworkType := IntValue(choice)]
    case _ => p
  }

  /** Registration after the event: only resume and pause change it. */
  function ListeningAfter(listening: bool, e: Event): bool {
    if e.Resume? then true else if e.Pause? then false else listening
  }

  /**
   * Reference count of periodic-job submissions an event should cause when no
   * reboot is pending: one per network-type choice, and one per constraint-key
   * write that changes the stored value while the listener is registered.
   */
  function ScheduleTriggers(p: Prefs, listening: bool, e: Event): nat {
    if e.SelectNetworkType?
       || (e.Write? && listening && e.key in ConstraintKeys && Changes(p, e.key, e.value))
    then 1 else 0
  }

  function ExpectedSchedules(p: Prefs, listening: bool, events: seq<Event>): nat
    decreases |events|
  {
    if events == [] then 0
    else ScheduleTriggers(p, listening, events[0])
         + ExpectedSchedules(StoreAfter(p, events[0]), ListeningAfter(listening, events[0]), events[1..])
  }

  /** Delivery of a change notification for `key` to the listener, if registered. */
  function Notify(f: Fragment, d: Defaults, key: string): (r: seq<Effect>)
    requires WellTyped(f.prefs)
    ensures !f.listening ==> r == []
    ensures |r| <= 1
  {
    if f.listening then OnSharedPreferenceChanged(f.prefs, d, key).effects else []
  }

  /** In a list of at most one effect, an effect occurs once if present and never otherwise. */
  lemma CountOfAtMostOne(s: seq<Effect>, e: Effect)
    requires |s| <= 1
    ensures multiset(s)[e] == (if e in s then 1 else 0)
  {
  }

  /**
   * A committed write: the store holds the new value, and the registered
   * listener hears the key only when the stored value actually changed.
   */
  function HandleWrite(f: Fragment, d: Defaults, key: string, v: Value): (r: Trace)
    requires WellTyped(f.prefs) && Fits(key, v)
    ensures WellTyped(r.fragment.prefs)
    ensures r.fragment == Fragment(f.prefs[key := v], f.listening)
    ensures !f.listening || !Changes(f.prefs, key, v) ==> r.effects == []
    ensures f.listening && Changes(f.prefs, key, v) ==>
      r.effects == OnSharedPreferenceChanged(r.fragment.prefs, d, key).effects
    ensures |r.effects| <= 1
  {
    var g := Fragment(Put(f.prefs, key, v), f.listening);
    Trace(g, if Changes(f.prefs, key, v) then Notify(g, d, key) else [])
  }

  /**
   * A network-type choice: the handler's write, the (empty) reaction of the
   * listener to it, then the handler's own effects.
   */
  function HandleNetworkType(f: Fragment, d: Defaults, choice: int): (r: Trace)
    requires WellTyped(f.prefs)
    ensures WellTyped(r.fragment.prefs)
    ensures r.fragment == Fragment(f.prefs[KeyNetworkType := IntValue(choice)], f.listening)
    ensures r.fragment.prefs == OnNetworkTypeChange(f.prefs, choice).step.prefs
    ensures r.effects == OnNetworkTypeChange(f.prefs, choice).step.effects
  {
    var reply := OnNetworkTypeChange(f.prefs, choice);
    var g := Fragment(reply.step.prefs, f.listening);
    // The store notifies synchronously inside the write, so the listener's
    // reaction to `network_type` precedes the handler's own effects.
    var heard := if Changes(f.prefs, KeyNetworkType, IntValue(choice)) then Notify(g, d, KeyNetworkType) else [];
    assert heard == [];
    Trace(g, heard + reply.step.effects)
  }

  /** One event: the store after it, and the effects it asks for in order. */
  function Handle(f: Fragment, d: Defaults, e: Event): (r: Trace)
    requires WellTyped(f.prefs) && Admissible(e)
    ensures WellTyped(r.fragment.prefs)
    ensures r.fragment.listening == ListeningAfter(f.listening, e)
    ensures r.fragment.prefs == StoreAfter(f.prefs, e)
    ensures e.Resume? || e.Pause? ==> r.effects == []
    ensures e.Write? && (!f.listening || !Changes(f.prefs, e.key, e.value)) ==> r.effects == []
    ensures e.Write? && f.listening && Changes(f.prefs, e.key, e.value) ==>
      r.effects == OnSharedPreferenceChanged(r.fragment.prefs, d, e.key).effects
    ensures e.SelectNetworkType? ==>
      && r.fragment.prefs == OnNetworkTypeChange(f.prefs, e.choice).step.prefs
      && r.effects == OnNetworkTypeChange(f.prefs, e.choice).step.effects
    ensures e.ClickCheckForUpdates? ==> r.effects == OnCheckForUpdatesClick(f.prefs, e.network).step.effects
    ensures multiset(r.effects)[Schedule] <= 1
  {
    match e
    case Resume => Trace(Fragment(f.prefs, true), [])
    case Pause => Trace(Fragment(f.prefs, false), [])
    case Write(key, v) =>
      var r := HandleWrite(f, d, key, v);
      CountOfAtMostOne(r.effects, Schedule);
      r
    case SelectNetworkType(v) =>
      var r := HandleNetworkType(f, d, v);
      CountOfAtMostOne(r.effects, Schedule);
      r
    case ClickCheckForUpdates(n) =>
      var reply := OnCheckForUpdatesClick(f.prefs, n);
      assert Schedule !in reply.step.effects;
      Trace(f, reply.step.effects)
  }

  /** An event that does not write `waiting_for_reboot` leaves the flag as it was. */
  lemma HandleKeepsWaitingFlag(f: Fragment, d: Defaults, e: Event)
    requires WellTyped(f.prefs) && Admissible(e) && !TouchesWaitingFlag(e)
    ensures WaitingForReboot(Handle(f, d, e).fragment.prefs) == WaitingForReboot(f.prefs)
  {
    match e
    case Write(key, v) =>
      assert Handle(f, d, e).fragment.prefs == Put(f.prefs, key, v);
    case SelectNetworkType(v) =>
      assert Handle(f, d, e).fragment.prefs == OnNetworkTypeChange(f.prefs, v).step.prefs;
    case _ =>
  }

  /** While a reboot is pending, one event plans or starts no update work. */
  lemma HandleHoldsBackWhileWaiting(f: Fragment, d: Defaults, e: Event)
    requires WellTyped(f.prefs) && Admissible(e) && !TouchesWaitingFlag(e)
    requires WaitingForReboot(f.prefs)
    ensures forall x :: x in Handle(f, d, e).effects ==> !Gated(x)
  {
    match e
    case Write(key, v) =>
      HandleKeepsWaitingFlag(f, d, e);
    case SelectNetworkType(v) =>
      assert Handle(f, d, e).effects == OnNetworkTypeChange(f.prefs, v).step.effects;
    case _ =>
  }

  /**
   * With no reboot pending, one event submits the periodic job exactly as often
   * as the reference trigger count says.
   */
  lemma HandleSchedulesWhenClear(f: Fragment, d: Defaults, e: Event)
    requires WellTyped(f.prefs) && Admissible(e) && !TouchesWaitingFlag(e)
    requires !WaitingForReboot(f.prefs)
    ensures multiset(Handle(f, d, e).effects)[Schedule] == ScheduleTriggers(f.prefs, f.listening, e)
  {
    var r := Handle(f, d, e);
    match e
    case Write(key, v) =>
      HandleKeepsWaitingFlag(f, d, e);
      CountOfAtMostOne(r.effects, Schedule);
    case SelectNetworkType(v) =>
      assert r.effects == OnNetworkTypeChange(f.prefs, v).step.effects;
      CountOfAtMostOne(r.effects, Schedule);
    case ClickCheckForUpdates(n) =>
      assert Schedule !in r.effects;
    case _ =>
  }

  /** Drives the screen through `events` in order, collecting every effect. */
  function Run(f: Fragment, d: Defaults, events: seq<Event>): (r: Trace)
    requires WellTyped(f.prefs) && AllAdmissible(events)
    ensures WellTyped(r.fragment.prefs)
    ensures multiset(r.effects)[Schedule] <= |events|
    decreases |events|
  {
    if events == [] then Trace(f, [])
    else
      var first := Handle(f, d, events[0]);
      var rest := Run(first.fragment, d, events[1..]);
      Trace(rest.fragment, first.effects + rest.effects)
  }

  // Small sequence facts, stated apart so that the run lemmas stay cheap to check.

  lemma AdmissibleConcat(a: seq<Event>, b: seq<Event>)
    requires AllAdmissible(a) && AllAdmissible(b)
    ensures AllAdmissible(a + b)
  {
  }

  lemma AdmissibleTail(events: seq<Event>)
    requires events != [] && AllAdmissible(events)
    ensures Admissible(events[0]) && AllAdmissible(events[1..])
  {
  }

  lemma TailOfConcat<T>(a: seq<T>, b: seq<T>)
    requires a != []
    ensures (a + b)[0] == a[0]
    ensures (a + b)[1..] == a[1..] + b
  {
  }

  lemma AppendAssoc<T>(x: seq<T>, y: seq<T>, z: seq<T>)
    ensures x + (y + z) == (x + y) + z
  {
  }

  /** One step of a non-empty run: the first event, then the rest from where it left off. */
  lemma RunStep(f: Fragment, d: Defaults, events: seq<Event>)
    requires WellTyped(f.prefs) && AllAdmissible(events) && events != []
    ensures Admissible(events[0]) && AllAdmissible(events[1..])
    ensures var first := Handle(f, d, events[0]);
      var rest := Run(first.fragment, d, events[1..]);
      Run(f, d, events) == Trace(rest.fragment, first.effects + rest.effects)
  {
  }

  /** Running two event sequences back to back is running their concatenation. */
  lemma {:induction false} RunConcat(f: Fragment, d: Defaults, a: seq<Event>, b: seq<Event>)
    requires WellTyped(f.prefs) && AllAdmissible(a) && AllAdmissible(b)
    ensures AllAdmissible(a + b)
    ensures var left := Run(f, d, a);
      var right := Run(left.fragment, d, b);
      Run(f, d, a + b) == Trace(right.fragment, left.effects + right.effects)
    decreases |a|
  {
    AdmissibleConcat(a, b);
    if a == [] {
      assert a + b == b;
    } else {
      var ab := a + b;
      AdmissibleTail(a);
      var first := Handle(f, d, a[0]);
      var left := Run(first.fragment, d, a[1..]);
      var right := Run(left.fragment, d, b);
      AdmissibleConcat(a[1..], b);
      TailOfConcat(a, b);
      assert Run(first.fragment, d, a[1..] + b)
          == Trace(right.fragment, left.effects + right.effects) by {
        RunConcat(first.fragment, d, a[1..], b);
      }
      assert Run(f, d, a) == Trace(left.fragment, first.effects + left.effects) by {
        RunStep(f, d, a);
      }
      assert Run(f, d, ab) == Trace(right.fragment, first.effects + (left.effects + right.effects)) by {
        RunStep(f, d, ab);
      }
      AppendAssoc(first.effects, left.effects, right.effects);
    }
  }

  /**
   * While a reboot is pending and nothing clears the flag, no event plans or
   * starts update work: no periodic job, no manual check, no diagnostic.
   */
  lemma {:induction false} PendingRebootHoldsBackUpdates(f: Fragment, d: Defaults, events: seq<Event>)
    requires WellTyped(f.prefs) && AllAdmissible(events)
    requires WaitingForReboot(f.prefs) && NoneTouchWaitingFlag(events)
    ensures WaitingForReboot(Run(f, d, events).fragment.prefs)
    ensures forall x :: x in Run(f, d, events).effects ==> !Gated(x)
    decreases |events|
  {
    if events != [] {
      var first := Handle(f, d, events[0]);
      assert !TouchesWaitingFlag(events[0]);
      HandleKeepsWaitingFlag(f, d, events[0]);
      HandleHoldsBackWhileWaiting(f, d, events[0]);
      AdmissibleTail(events);
      assert NoneTouchWaitingFlag(events[1..]) by {
        forall i | 0 <= i < |events[1..]| ensures !TouchesWaitingFlag(events[1..][i]) {
          assert events[1..][i] == events[i + 1];
        }
      }
      PendingRebootHoldsBackUpdates(first.fragment, d, events[1..]);
    }
  }

  /** While the listener is unregistered, writes to the store cause no effects at all. */
  lemma {:induction false} SilentWhileUnregistered(f: Fragment, d: Defaults, events: seq<Event>)
    requires WellTyped(f.prefs) && AllAdmissible(events)
    requires !f.listening
    requires forall i :: 0 <= i < |events| ==> events[i].Write?
    ensures Run(f, d, events).effects == []
    ensures !Run(f, d, events).fragment.listening
    decreases |events|
  {
    if events != [] {
      var first := Handle(f, d, events[0]);
      AdmissibleTail(events);
      assert forall i :: 0 <= i < |events[1..]| ==> events[1..][i].Write? by {
        forall i | 0 <= i < |events[1..]| ensures events[1..][i].Write? {
          assert events[1..][i] == events[i + 1];
        }
      }
      SilentWhileUnregistered(first.fragment, d, events[1..]);
    }
  }

  /**
   * With no reboot pending, the periodic job is submitted exactly once per
   * network-type choice and once per constraint-key write that changes the
   * stored value while the listener is registered, and at no other time.
   */
  lemma {:induction false} SchedulesMatchTriggers(f: Fragment, d: Defaults, events: seq<Event>)
    requires WellTyped(f.prefs) && AllAdmissible(events)
    requires !WaitingForReboot(f.prefs) && NoneTouchWaitingFlag(events)
    ensures multiset(Run(f, d, events).effects)[Schedule]
         == ExpectedSchedules(f.prefs, f.listening, events)
    decreases |events|
  {
    if events != [] {
      var first := Handle(f, d, events[0]);
      assert !TouchesWaitingFlag(events[0]);
      HandleKeepsWaitingFlag(f, d, events[0]);
      HandleSchedulesWhenClear(f, d, events[0]);
      AdmissibleTail(events);
      assert NoneTouchWaitingFlag(events[1..]) by {
        forall i | 0 <= i < |events[1..]| ensures !TouchesWaitingFlag(events[1..][i]) {
          assert events[1..][i] == events[i + 1];
        }
      }
      SchedulesMatchTriggers(first.fragment, d, events[1..]);
    }
  }

  /**
   * One network-type choice, together with the store notification its own write
   * triggers, submits the periodic job exactly once, or not at all while a
   * reboot is pending, and stores the chosen value.
   */
  lemma NetworkChangeSchedulesOnce(f: Fragment, d: Defaults, value: int)
    requires WellTyped(f.prefs)
    ensures var r := Run(f, d, [SelectNetworkType(value)]);
      && r.effects == (if WaitingForReboot(f.prefs) then [] else [Schedule])
      && GetNetworkType(r.fragment.prefs, d) == Ok(value)
  {
    var e := SelectNetworkType(value);
    assert AllAdmissible([e]);
    RunStep(f, d, [e]);
    assert [e][1..] == [];
    NetworkTypeReadBack(f.prefs, d, value);
  }

  /**
   * Turning idle reboot off while the listener is registered cancels the idle
   * reboot, whether or not a reboot is pending; writing `false` over a stored
   * `false` is not heard and cancels nothing.
   */
  lemma IdleRebootOffCancels(f: Fragment, d: Defaults)
    requires WellTyped(f.prefs) && f.listening
    ensures var r := Run(f, d, [Write(KeyIdleReboot, BoolValue(false))]);
      r.effects == (if Changes(f.prefs, KeyIdleReboot, BoolValue(false)) then [CancelIdleReboot] else [])
  {
    var e := Write(KeyIdleReboot, BoolValue(false));
    assert AllAdmissible([e]);
    RunStep(f, d, [e]);
    assert [e][1..] == [];
    var first := Handle(f, d, e);
    if Changes(f.prefs, KeyIdleReboot, BoolValue(false)) {
      var heard := OnSharedPreferenceChanged(first.fragment.prefs, d, KeyIdleReboot);
      assert !IdleRebootEnabled(first.fragment.prefs, d);
      assert CancelIdleReboot in heard.effects && heard.effects[0] == CancelIdleReboot;
    }
  }
}
