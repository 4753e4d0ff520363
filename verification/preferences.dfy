/**
 * The updater's key/value preference store and the typed getters that read it,
 * falling back to a configured default when a key has never been written.
 */
module Preferences {
  import opened Wrappers

  // The preference keys of the settings screen.
  const KeyChannel: string := "channel"
  const KeyNetworkType: string := "network_type"
  const KeyBatteryNotLow: string := "battery_not_low"
  const KeyRequiresCharging: string := "requires_charging"
  const KeyIdleReboot: string := "idle_reboot"
  const KeyCheckForUpdates: string := "check_for_updates"
  const KeyWaitingForReboot: string := "waiting_for_reboot"

  /** A stored preference value, of one of the kinds this screen writes and reads. */
  datatype Value = StrValue(s: string) | IntValue(i: int) | BoolValue(b: bool)

  datatype Kind = StrKind | IntKind | BoolKind

  /** The store: a key absent from the map has never been written. */
  type Prefs = map<string, Value>

  /** Reading a key through a getter of the wrong kind fails with a cast error. */
  datatype ReadError = ClassCast(key: string)

  /** The configured defaults used when a key is absent. */
  datatype Defaults = Defaults(
    channel: string,
    networkType: int,
    batteryNotLow: bool,
    requiresCharging: bool,
    idleReboot: bool)

  function KindOf(v: Value): Kind {
    match v
    case StrValue(_) => StrKind
    case IntValue(_) => IntKind
    case BoolValue(_) => BoolKind
  }

  /** The kind each known key is written and read with; other keys are unconstrained. */
  function DeclaredKind(key: string): Option<Kind> {
    if key == KeyChannel then Some(StrKind)
    else if key == KeyNetworkType then Some(IntKind)
    else if key == KeyBatteryNotLow || key == KeyRequiresCharging
         || key == KeyIdleReboot || key == KeyWaitingForReboot then Some(BoolKind)
    else None
  }

  /** Writing `v` under `key` respects the key's declared kind. */
  predicate Fits(key: string, v: Value) {
    DeclaredKind(key).Some? ==> KindOf(v) == DeclaredKind(key).value
  }

  /** Every known key that is present holds a value of its declared kind. */
  predicate WellTyped(p: Prefs) {
    forall key :: key in p ==> Fits(key, p[key])
  }

  /** Writes one value and commits it; every other key keeps its value. */
  function Put(p: Prefs, key: string, v: Value): (r: Prefs)
    ensures r.Keys == p.Keys + {key}
    ensures r[key] == v
    ensures forall k :: k in p && k != key ==> r[k] == p[k]
    ensures WellTyped(p) && Fits(key, v) ==> WellTyped(r)
  {
    p[key := v]
  }

  function GetString(p: Prefs, key: string, default: string): (r: Result<string, ReadError>)
    ensures key !in p ==> r == Ok(default)
    ensures r.Ok? && key in p ==> p[key] == StrValue(r.value)
    ensures r.Err? <==> key in p && KindOf(p[key]) != StrKind
  {
    if key !in p then Ok(default)
    else match p[key]
      case StrValue(s) => Ok(s)
      case _ => Err(ClassCast(key))
  }

  function GetInt(p: Prefs, key: string, default: int): (r: Result<int, ReadError>)
    ensures key !in p ==> r == Ok(default)
    ensures r.Ok? && key in p ==> p[key] == IntValue(r.value)
    ensures r.Err? <==> key in p && KindOf(p[key]) != IntKind
  {
    if key !in p then Ok(default)
    else match p[key]
      case IntValue(i) => Ok(i)
      case _ => Err(ClassCast(key))
  }

  function GetBoolean(p: Prefs, key: string, default: bool): (r: Result<bool, ReadError>)
    ensures key !in p ==> r == Ok(default)
    ensures r.Ok? && key in p ==> p[key] == BoolValue(r.value)
    ensures r.Err? <==> key in p && KindOf(p[key]) != BoolKind
  {
    if key !in p then Ok(default)
    else match p[key]
      case BoolValue(b) => Ok(b)
      case _ => Err(ClassCast(key))
  }

  function GetChannel(p: Prefs, d: Defaults): (r: Result<string, ReadError>)
    ensures WellTyped(p) ==> r.Ok?
    ensures KeyChannel !in p ==> r == Ok(d.channel)
    ensures r.Ok? && KeyChannel in p ==> p[KeyChannel] == StrValue(r.value)
  {
    GetString(p, KeyChannel, d.channel)
  }

  function GetNetworkType(p: Prefs, d: Defaults): (r: Result<int, ReadError>)
    ensures WellTyped(p) ==> r.Ok?
    ensures KeyNetworkType !in p ==> r == Ok(d.networkType)
    ensures r.Ok? && KeyNetworkType in p ==> p[KeyNetworkType] == IntValue(r.value)
  {
    GetInt(p, KeyNetworkType, d.networkType)
  }

  function GetBatteryNotLow(p: Prefs, d: Defaults): (r: Result<bool, ReadError>)
    ensures WellTyped(p) ==> r.Ok?
    ensures KeyBatteryNotLow !in p ==> r == Ok(d.batteryNotLow)
    ensures r.Ok? && KeyBatteryNotLow in p ==> p[KeyBatteryNotLow] == BoolValue(r.value)
  {
    GetBoolean(p, KeyBatteryNotLow, d.batteryNotLow)
  }

  function GetRequiresCharging(p: Prefs, d: Defaults): (r: Result<bool, ReadError>)
    ensures WellTyped(p) ==> r.Ok?
    ensures KeyRequiresCharging !in p ==> r == Ok(d.requiresCharging)
    ensures r.Ok? && KeyRequiresCharging in p ==> p[KeyRequiresCharging] == BoolValue(r.value)
  {
    GetBoolean(p, KeyRequiresCharging, d.requiresCharging)
  }

  /** Whether an update may wait for the device to be idle before rebooting. */
  predicate IdleRebootEnabled(p: Prefs, d: Defaults) {
    if KeyIdleReboot in p then p[KeyIdleReboot] == BoolValue(true) else d.idleReboot
  }

  function GetIdleReboot(p: Prefs, d: Defaults): (r: Result<bool, ReadError>)
    ensures WellTyped(p) ==> r == Ok(IdleRebootEnabled(p, d))
    ensures KeyIdleReboot !in p ==> r == Ok(d.idleReboot)
  {
    GetBoolean(p, KeyIdleReboot, d.idleReboot)
  }

  /** An applied update is waiting for a reboot; a flag never written counts as false. */
  predicate WaitingForReboot(p: Prefs) {
    KeyWaitingForReboot in p && p[KeyWaitingForReboot] == BoolValue(true)
  }

  /** The gate every handler reads, with the fixed default `false`. */
  function IsWaitingForReboot(p: Prefs): (r: Result<bool, ReadError>)
    ensures WellTyped(p) ==> r == Ok(WaitingForReboot(p))
    ensures KeyWaitingForReboot !in p ==> r == Ok(false)
  {
    GetBoolean(p, KeyWaitingForReboot, false)
  }

  /** Reading back a key right after writing it yields the written value, for each getter. */
  lemma ReadAfterWrite(p: Prefs, d: Defaults, s: string, i: int, b: bool)
    ensures GetChannel(Put(p, KeyChannel, StrValue(s)), d) == Ok(s)
    ensures GetNetworkType(Put(p, KeyNetworkType, IntValue(i)), d) == Ok(i)
    ensures GetBatteryNotLow(Put(p, KeyBatteryNotLow, BoolValue(b)), d) == Ok(b)
    ensures GetRequiresCharging(Put(p, KeyRequiresCharging, BoolValue(b)), d) == Ok(b)
    ensures GetIdleReboot(Put(p, KeyIdleReboot, BoolValue(b)), d) == Ok(b)
    ensures IsWaitingForReboot(Put(p, KeyWaitingForReboot, BoolValue(b))) == Ok(b)
  {
  }

  /** A write to one key leaves every read of a different key unchanged. */
  lemma WriteLeavesOtherReads(p: Prefs, key: string, v: Value, other: string, d: Defaults)
    requires key != other
    ensures GetString(Put(p, key, v), other, d.channel) == GetString(p, other, d.channel)
    ensures GetInt(Put(p, key, v), other, d.networkType) == GetInt(p, other, d.networkType)
    ensures GetBoolean(Put(p, key, v), other, d.idleReboot) == GetBoolean(p, other, d.idleReboot)
  {
  }
}
