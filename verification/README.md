# Update-policy logic of the Updater settings screen

This project models the decision logic of the seamless-update client's settings
screen (`Settings` and its `SettingsFragment`). What is left once the Android
plumbing is removed is a small event-to-effects state machine. It runs over the
key/value preference store that the periodic update job also reads.

- `wrappers.dfy` (`Wrappers`): `Option` and `Result`.
- `preferences.dfy` (`Preferences`): the preference keys, the store as
  `map<string, Value>`, the typed getters with their configured defaults, and the
  `waiting_for_reboot` gate, whose default is `false`. A getter returns the stored
  value, or the default when the key is absent. A stored value of the wrong kind
  gives `ClassCast`, because the platform's typed getters throw a cast exception
  for it. `WellTyped` says that every known key holds its declared kind.
  `WaitingForReboot` and `IdleRebootEnabled` are reference definitions. The getters
  are proved to agree with them.
- `settings_fragment.dfy` (`SettingsFragment`): the three reactions. Each one is a
  total function from the store (and the event) to the new store plus an ordered
  list of abstract effects: `Schedule`, `CancelIdleReboot`,
  `StartCheck(userInitiated, network)` and `LogNoNetwork`. The reactions are:
  - the "check for updates" click;
  - the network-type change listener;
  - the store-change dispatcher `onSharedPreferenceChanged`.
- `lifecycle.dfy` (`Lifecycle`): the screen over time.
  - `onResume` registers the store-change listener and `onPause` unregisters it.
  - A committed write that changes the stored value notifies the listener while
    it is registered. The store does not notify a write of the value already stored.
  - `Run` drives a sequence of events.
  - Lemmas over whole runs show three things. A pending reboot holds back all
    update work. Unregistered writes cause nothing. The number of job submissions
    equals an independent count of triggering events.

Collaborators are effects, not code. `PeriodicJob.schedule` becomes `Schedule`,
`IdleReboot.cancel` becomes `CancelIdleReboot`, and starting the update service
becomes `StartCheck`. The active network, which comes from a platform service,
is a parameter of the click event. The configured defaults are a `Defaults`
parameter.

Three behaviours of the code that the model keeps as they are:
- A stored value of the wrong kind is not replaced by the default. The typed
  getters fail, as the platform's getters throw a cast exception. The handlers
  require a well-typed store, and every event is proved to keep the store
  well-typed.
- The dispatcher does not react to `network_type` at all. The network-type
  listener itself writes the value and submits the job. Its own write notifies
  the dispatcher, which ignores it, so one choice submits the job once.
- A heard change of `idle_reboot` cancels whenever the new value reads as false.
  The code does not compare with the old value. Overwriting a stored `false` with
  `false` is not heard, because the store does not notify it, so nothing is
  cancelled then. A first write of `false` to an absent key is heard and cancels,
  even when the configured default was already false.

## Model

| member | source | states |
|---|---|---|
| Preferences.Put | src/app/seamlessupdate/client/Settings.java:113 | a committed write sets exactly the written key; every other key keeps its value; a write of the key's declared kind keeps the store well-typed |
| Preferences.GetString | src/app/seamlessupdate/client/Settings.java:36-39 | absent key reads as the given default; a present string is returned as stored; the read fails exactly when the stored value is not a string |
| Preferences.GetInt | src/app/seamlessupdate/client/Settings.java:41-44 | absent key reads as the given default; a present int is returned as stored; the read fails exactly when the stored value is not an int |
| Preferences.GetBoolean | src/app/seamlessupdate/client/Settings.java:46-49 | absent key reads as the given default; a present boolean is returned as stored; the read fails exactly when the stored value is not a boolean |
| Preferences.GetChannel | src/app/seamlessupdate/client/Settings.java:36-39 | `channel` reads as the stored string, or the configured default when absent; never fails on a well-typed store |
| Preferences.GetNetworkType | src/app/seamlessupdate/client/Settings.java:41-44 | `network_type` reads as the stored int, or the configured default when absent; never fails on a well-typed store |
| Preferences.GetBatteryNotLow | src/app/seamlessupdate/client/Settings.java:46-49 | `battery_not_low` reads as the stored boolean, or the configured default when absent; never fails on a well-typed store |
| Preferences.GetRequiresCharging | src/app/seamlessupdate/client/Settings.java:51-54 | `requires_charging` reads as the stored boolean, or the configured default when absent; never fails on a well-typed store |
| Preferences.GetIdleReboot | src/app/seamlessupdate/client/Settings.java:56-59 | on a well-typed store the read equals the reference `IdleRebootEnabled`: stored value if present, configured default otherwise |
| Preferences.IsWaitingForReboot | src/app/seamlessupdate/client/Settings.java:93 | the gate read with default `false`: an absent flag is false, and on a well-typed store the read equals the reference `WaitingForReboot` |
| Preferences.ReadAfterWrite | src/app/seamlessupdate/client/Settings.java:36-59 | each of the six getters reads back exactly the value just written under its key |
| Preferences.WriteLeavesOtherReads | src/app/seamlessupdate/client/Settings.java:113 | a write to one key changes no read of any other key |
| SettingsFragment.OnCheckForUpdatesClick | src/app/seamlessupdate/client/Settings.java:91-105 | never writes the store and always returns true; no effects while a reboot is pending; otherwise exactly one `StartCheck(true, network)` last, preceded only by `LogNoNetwork`, which appears iff the network is absent |
| SettingsFragment.OnNetworkTypeChange | src/app/seamlessupdate/client/Settings.java:111-118 | always returns true; stores the chosen int under `network_type`, keeps every other key and keeps the store well-typed; emits at most one effect, and `Schedule` iff no reboot is pending |
| SettingsFragment.OnSharedPreferenceChanged | src/app/seamlessupdate/client/Settings.java:126-141 | never writes the store; at most one effect; `Schedule` iff the key is `channel`, `battery_not_low` or `requires_charging` and no reboot is pending; `CancelIdleReboot` iff the key is `idle_reboot` and it reads as false; nothing else |
| SettingsFragment.NetworkTypeReadBack | src/app/seamlessupdate/client/Settings.java:111-117 | after the change, `getNetworkType` returns the chosen value whatever the default; effects are `[Schedule]` without a pending reboot and `[]` with one |
| SettingsFragment.ConstraintChangeReschedules | src/app/seamlessupdate/client/Settings.java:128-134 | a constraint-key change yields exactly `[Schedule]` without a pending reboot and `[]` with one |
| SettingsFragment.IdleRebootCancelIgnoresWaiting | src/app/seamlessupdate/client/Settings.java:135-138 | an `idle_reboot` change yields `[CancelIdleReboot]` iff idle reboot reads as false, and the waiting flag's value does not change that |
| SettingsFragment.OtherKeysIgnored | src/app/seamlessupdate/client/Settings.java:127-140 | any key other than the three constraint keys and `idle_reboot` leaves the store as it is and yields no effects |
| SettingsFragment.ScreenKeysIgnored | src/app/seamlessupdate/client/Settings.java:127-140 | changes to `network_type`, `waiting_for_reboot` and `check_for_updates` leave the store as it is and yield no effects |
| Lifecycle.Notify | src/app/seamlessupdate/client/Settings.java:144-155 | an unregistered listener hears nothing; a delivered notification yields at most one effect |
| Lifecycle.HandleWrite | src/app/seamlessupdate/client/Settings.java:126-141 | a committed write stores exactly the written value; the registered listener hears it only when it changes the stored value, and then the effects are the change handler's reaction on the store after the write; otherwise no effects |
| Lifecycle.HandleNetworkType | src/app/seamlessupdate/client/Settings.java:111-117 | a network-type choice leaves the store and effects of the network-type listener: `network_type` set to the choice, nothing else written; the listener's notification about its own write adds nothing |
| Lifecycle.Handle | src/app/seamlessupdate/client/Settings.java:91-155 | resume registers and pause unregisters, with no effect and no write; the store after each event is the reference store transition; a heard write yields the change handler's reaction on the new store; an unheard or unchanged write yields nothing; a network-type choice yields the network-type listener's store and effects; a click yields the click handler's effects; each event submits the job at most once; the store stays well-typed |
| Lifecycle.HandleKeepsWaitingFlag | src/app/seamlessupdate/client/Settings.java:111-117 | no event of the screen, nor a write of another key, changes whether a reboot is pending |
| Lifecycle.HandleHoldsBackWhileWaiting | src/app/seamlessupdate/client/Settings.java:91-141 | while a reboot is pending, one event that leaves the flag alone yields no `Schedule`, `StartCheck` or `LogNoNetwork` |
| Lifecycle.HandleSchedulesWhenClear | src/app/seamlessupdate/client/Settings.java:111-141 | with no reboot pending, one event's job submissions equal the reference trigger count: one per network-type choice, one per constraint-key write that changes the stored value while registered, none otherwise |
| Lifecycle.Run | src/app/seamlessupdate/client/Settings.java:126-155 | a run keeps the store well-typed and submits the periodic job at most once per event |
| Lifecycle.RunConcat | src/app/seamlessupdate/client/Settings.java:126-155 | running two event sequences one after the other is the same as running their concatenation |
| Lifecycle.PendingRebootHoldsBackUpdates | src/app/seamlessupdate/client/Settings.java:91-141 | from a store with a pending reboot, no run that leaves the flag alone ever submits the job, starts a check or logs a missing network, and the reboot stays pending |
| Lifecycle.SilentWhileUnregistered | src/app/seamlessupdate/client/Settings.java:144-155 | from an unregistered screen, any sequence of store writes produces no effects and the listener stays unregistered |
| Lifecycle.SchedulesMatchTriggers | src/app/seamlessupdate/client/Settings.java:111-141 | without a pending reboot, the job is submitted exactly once per network-type choice and once per constraint-key write that changes the stored value while registered, as counted by the independent `ExpectedSchedules` |
| Lifecycle.NetworkChangeSchedulesOnce | src/app/seamlessupdate/client/Settings.java:111-140 | one network-type choice, with the notification its own write triggers, yields `[Schedule]`, or `[]` while a reboot is pending, and the chosen value is what the store reports |
| Lifecycle.IdleRebootOffCancels | src/app/seamlessupdate/client/Settings.java:135-138 | with the listener registered, a write of `idle_reboot := false` yields exactly `[CancelIdleReboot]` when it changes the stored value, whatever the waiting flag says, and `[]` when `false` was already stored |

## Left out

- Activity lifecycle and presentation are not modelled, because they are UI code: `onCreate` with its system-user check, `onOptionsItemSelected`, `setPreferencesFromResource`, the `findPreference` null checks, and the `ListPreference.setValue` refresh in `onResume`.
- Device-protected storage contexts, `PreferenceManager`, `ConnectivityManager`, intent construction and `startForegroundService` are platform calls. They appear only as the abstract effects and as the network parameter.
- The internals of `PeriodicJob.schedule` and `IdleReboot.cancel` are not part of this model. Neither are the job descriptor, replace-not-duplicate scheduling, or the code that sets `waiting_for_reboot` when an update is applied. Runs treat a write of that flag as an outside event, and the whole-run lemmas exclude it.
- `Integer.parseInt` on the chosen string is not modelled. It is a library call, so the network-type handler takes the parsed integer. Java's 32-bit `int` range is not enforced on that integer.
- The configured defaults are taken as already-typed values. The parsing of the resource strings with `Integer.parseInt` and `Boolean.parseBoolean` is not modelled.
- A notification with no key, which the platform sends after clearing the store, is not modelled. The screen never clears the store.
- What the platform persists on its own after the network-type listener returns true depends on the preference resources. Those resources are not part of this model.
- The asynchronous commit of `apply()` and visibility across threads or processes are not modelled, because of concurrency. A write takes effect before the next read. The listener runs synchronously within the write, as it does on the main thread.
