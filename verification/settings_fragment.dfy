/**
 * The three reactions of the settings screen: the "check for updates" click,
 * the network-type change and the store-change dispatcher. Each is a total
 * function of the store (and event) that yields the new store and the ordered
 * effects it asks of its collaborators.
 */
module SettingsFragment {
  import opened Wrappers
  import opened Preferences

  /** An opaque handle on the active network at the time of a request. */
  datatype Network = Network(handle: nat)

  /** What a handler asks of the collaborators outside this screen. */
  datatype Effect =
    | Schedule                   // (re)submit the periodic update-check job
    | CancelIdleReboot           // withdraw any idle-triggered reboot request
    | StartCheck(userInitiated: bool, network: Option<Network>)  // immediate update check
    | LogNoNetwork               // diagnostic: the check will run without a network

  datatype Step = Step(prefs: Prefs, effects: seq<Effect>)

  /** A preference listener's step together with its boolean return value. */
  datatype Reply = Reply(step: Step, accepted: bool)

  /** Keys whose change alters the periodic job's constraints. */
  const ConstraintKeys: set<string> := {KeyChannel, KeyBatteryNotLow, KeyRequiresCharging}

  /** Effects that start or plan update work, and so are held back while a reboot is pending. */
  predicate Gated(e: Effect) {
    e.Schedule? || e.StartCheck? || e.LogNoNetwork?
  }

  /** Click on "check for updates": an immediate user-initiated check unless a reboot is pending. */
  function OnCheckForUpdatesClick(p: Prefs, network: Option<Network>): (r: Reply)
    requires WellTyped(p)
    ensures r.accepted && r.step.prefs == p
    ensures WaitingForReboot(p) ==> r.step.effects == []
    ensures !WaitingForReboot(p) ==>
      && |r.step.effects| > 0
      && r.step.effects[|r.step.effects| - 1] == StartCheck(true, network)
      && forall i :: 0 <= i < |r.step.effects| - 1 ==> r.step.effects[i] == LogNoNetwork
    ensures LogNoNetwork in r.step.effects <==> !WaitingForReboot(p) && network.None?
    ensures |r.step.effects| <= 2
  {
    if IsWaitingForReboot(p).value then
      Reply(Step(p, []), true)
    else
      var diagnostic := if network.None? then [LogNoNetwork] else [];
      Reply(Step(p, diagnostic + [StartCheck(true, network)]), true)
  }

  /**
   * A new network type chosen on the screen: the integer is stored first, and
   * the gate is read from the store after that write.
   */
  function OnNetworkTypeChange(p: Prefs, value: int): (r: Reply)
    requires WellTyped(p)
    ensures r.accepted
    ensures WellTyped(r.step.prefs)
    ensures r.step.prefs.Keys == p.Keys + {KeyNetworkType}
    ensures r.step.prefs[KeyNetworkType] == IntValue(value)
    ensures forall k :: k in p && k != KeyNetworkType ==> r.step.prefs[k] == p[k]
    ensures |r.step.effects| <= 1
    ensures Schedule in r.step.effects <==> !WaitingForReboot(p)
    ensures forall e :: e in r.step.effects ==> e == Schedule
  {
    var written := Put(p, KeyNetworkType, IntValue(value));
    var effects := if IsWaitingForReboot(written).value then [] else [Schedule];
    Reply(Step(written, effects), true)
  }

  /** The store-change listener: reacts to a change of `key` that is already in `p`. */
  function OnSharedPreferenceChanged(p: Prefs, d: Defaults, key: string): (r: Step)
    requires WellTyped(p)
    ensures r.prefs == p
    ensures |r.effects| <= 1
    ensures Schedule in r.effects <==> key in ConstraintKeys && !WaitingForReboot(p)
    ensures CancelIdleReboot in r.effects <==> key == KeyIdleReboot && !IdleRebootEnabled(p, d)
    ensures forall e :: e in r.effects ==> e == Schedule || e == CancelIdleReboot
  {
    if key == KeyChannel || key == KeyBatteryNotLow || key == KeyRequiresCharging then
      Step(p, if IsWaitingForReboot(p).value then [] else [Schedule])
    else if key == KeyIdleReboot then
      Step(p, if !GetIdleReboot(p, d).value then [CancelIdleReboot] else [])
    else
      Step(p, [])
  }

  /** The network type chosen is what the store reports afterwards, whatever the default. */
  lemma NetworkTypeReadBack(p: Prefs, d: Defaults, value: int)
    requires WellTyped(p)
    ensures GetNetworkType(OnNetworkTypeChange(p, value).step.prefs, d) == Ok(value)
    ensures OnNetworkTypeChange(p, value).step.effects == (if WaitingForReboot(p) then [] else [Schedule])
  {
  }

  /** A constraint-key change schedules exactly once when no reboot is pending, else does nothing. */
  lemma ConstraintChangeReschedules(p: Prefs, d: Defaults, key: string)
    requires WellTyped(p) && key in ConstraintKeys
    ensures OnSharedPreferenceChanged(p, d, key).effects
         == (if WaitingForReboot(p) then [] else [Schedule])
  {
  }

  /** Disabling idle reboot cancels it whether or not a reboot is pending. */
  lemma IdleRebootCancelIgnoresWaiting(p: Prefs, d: Defaults, waiting: bool)
    requires WellTyped(p)
    ensures var q := Put(p, KeyWaitingForReboot, BoolValue(waiting));
      OnSharedPreferenceChanged(q, d, KeyIdleReboot).effects
      == OnSharedPreferenceChanged(p, d, KeyIdleReboot).effects
      == (if IdleRebootEnabled(p, d) then [] else [CancelIdleReboot])
  {
  }

  /** Keys outside the constraint keys and `idle_reboot` produce no effects at all. */
  lemma OtherKeysIgnored(p: Prefs, d: Defaults, key: string)
    requires WellTyped(p)
    requires key !in ConstraintKeys && key != KeyIdleReboot
    ensures OnSharedPreferenceChanged(p, d, key) == Step(p, [])
  {
  }

  /**
   * In particular, the keys the screen knows but does not dispatch on are
   * ignored: `network_type` (its own listener reschedules), the
   * `waiting_for_reboot` flag, and the `check_for_updates` button.
   */
  lemma ScreenKeysIgnored(p: Prefs, d: Defaults)
    requires WellTyped(p)
    ensures OnSharedPreferenceChanged(p, d, KeyNetworkType) == Step(p, [])
    ensures OnSharedPreferenceChanged(p, d, KeyWaitingForReboot) == Step(p, [])
    ensures OnSharedPreferenceChanged(p, d, KeyCheckForUpdates) == Step(p, [])
  {
  }
}
