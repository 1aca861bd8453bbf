/**
 * The device half of the UWP main page: the text callback handed to the
 * stream client, and the two persisted flags `KeepDeviceListening` and
 * `AutoStartDevice`, whose setters upsert a bool into the local settings
 * container.
 */
module MainPageDevice {
  import opened Basics
  import DeviceStreamClient

  /** A value stored in the settings container; it may hold something other than a bool. */
  datatype Value = BoolValue(b: bool) | IntValue(i: int) | StringValue(s: string)

  /** `ApplicationData.Current.LocalSettings.Values`, held in memory. */
  type Settings = map<string, Value>

  const KeepDeviceListeningKey: string := "KeepDeviceListening"
  const AutoStartDeviceKey: string := "AutoStartDevice"

  /** `Values.Add`: throws (here `None`) when the key is already present. */
  function AddSetting(m: Settings, key: string, v: Value): (r: Option<Settings>)
    ensures r.Some? <==> key !in m
    ensures r.Some? ==> r.value.Keys == m.Keys + {key} && r.value[key] == v
    ensures r.Some? ==> forall k :: k in m ==> r.value[k] == m[k]
  {
    if key in m then None else Some(m[key := v])
  }

  /**
   * The first half of a setter: a stored bool is overwritten with the new
   * value, any other stored value is removed.
   */
  function ClearStale(m: Settings, key: string, v: bool): (r: Settings)
    ensures key in r <==> key in m && m[key].BoolValue?
    ensures key in r ==> r[key] == BoolValue(v)
    ensures r - {key} == m - {key}
  {
    if key in m then
      if m[key].BoolValue? then m[key := BoolValue(v)] else m - {key}
    else m
  }

  /**
   * The whole upsert: clear a stale entry, then add the key if it is absent.
   * The add never meets an existing key, and the result is the container with
   * `key` bound to the bool and everything else as it was.
   */
  function StoreBool(m: Settings, key: string, v: bool): (r: Option<Settings>)
    ensures r == Some(m[key := BoolValue(v)])
  {
    var cleared := ClearStale(m, key, v);
    assert cleared[key := BoolValue(v)] == m[key := BoolValue(v)] by {
      assert (cleared - {key})[key := BoolValue(v)] == cleared[key := BoolValue(v)];
      assert (m - {key})[key := BoolValue(v)] == m[key := BoolValue(v)];
    }
    if key !in cleared then AddSetting(cleared, key, BoolValue(v)) else Some(cleared)
  }

  /** A key holding something other than a bool is removed and then added back as the bool. */
  lemma NonBoolIsReplaced(m: Settings, key: string, v: bool)
    requires key in m && !m[key].BoolValue?
    ensures key !in ClearStale(m, key, v)
    ensures AddSetting(ClearStale(m, key, v), key, BoolValue(v)) == Some(m[key := BoolValue(v)])
  {
    var cleared := ClearStale(m, key, v);
    assert cleared[key := BoolValue(v)] == m[key := BoolValue(v)];
  }

  /** Storing the same bool twice leaves the container as storing it once. */
  lemma StoreBoolIdempotent(m: Settings, key: string, v: bool)
    ensures StoreBool(StoreBool(m, key, v).value, key, v) == StoreBool(m, key, v)
  {
    assert m[key := BoolValue(v)][key := BoolValue(v)] == m[key := BoolValue(v)];
  }

  /** The page's state: the two backing fields and the settings container. */
  datatype MainPage = MainPage(keepDeviceListening: bool, autoStartDevice: bool, localSettings: Settings)

  function GetKeepDeviceListening(p: MainPage): bool
  {
    p.keepDeviceListening
  }

  function GetAutoStartDevice(p: MainPage): bool
  {
    p.autoStartDevice
  }

  /** The `KeepDeviceListening` setter: store the field, then upsert the setting. */
  function SetKeepDeviceListening(p: MainPage, v: bool): (q: MainPage)
    ensures GetKeepDeviceListening(q) == v
    ensures GetAutoStartDevice(q) == GetAutoStartDevice(p)
    ensures KeepDeviceListeningKey in q.localSettings && q.localSettings[KeepDeviceListeningKey] == BoolValue(v)
    ensures q.localSettings.Keys == p.localSettings.Keys + {KeepDeviceListeningKey}
    ensures forall k :: k in p.localSettings && k != KeepDeviceListeningKey ==> q.localSettings[k] == p.localSettings[k]
  {
    var p' := p.(keepDeviceListening := v);
    p'.(localSettings := StoreBool(p'.localSettings, KeepDeviceListeningKey, p'.keepDeviceListening).value)
  }

  /** The `AutoStartDevice` setter: the same upsert on its own key. */
  function SetAutoStartDevice(p: MainPage, v: bool): (q: MainPage)
    ensures GetAutoStartDevice(q) == v
    ensures GetKeepDeviceListening(q) == GetKeepDeviceListening(p)
    ensures AutoStartDeviceKey in q.localSettings && q.localSettings[AutoStartDeviceKey] == BoolValue(v)
    ensures q.localSettings.Keys == p.localSettings.Keys + {AutoStartDeviceKey}
    ensures forall k :: k in p.localSettings && k != AutoStartDeviceKey ==> q.localSettings[k] == p.localSettings[k]
  {
    p.(autoStartDevice := v, localSettings := StoreBool(p.localSettings, AutoStartDeviceKey, v).value)
  }

  /** Setting the same flag value twice gives the same page as setting it once. */
  lemma SettersIdempotent(p: MainPage, v: bool)
    ensures SetKeepDeviceListening(SetKeepDeviceListening(p, v), v) == SetKeepDeviceListening(p, v)
    ensures SetAutoStartDevice(SetAutoStartDevice(p, v), v) == SetAutoStartDevice(p, v)
  {
    StoreBoolIdempotent(p.localSettings, KeepDeviceListeningKey, v);
    StoreBoolIdempotent(p.localSettings, AutoStartDeviceKey, v);
  }

  /** Setting `AutoStartDevice` leaves the stored `KeepDeviceListening` entry alone, and vice versa. */
  lemma SettersIndependent(p: MainPage, v: bool)
    ensures var q := SetAutoStartDevice(p, v);
            (KeepDeviceListeningKey in q.localSettings <==> KeepDeviceListeningKey in p.localSettings)
            && (KeepDeviceListeningKey in p.localSettings ==>
                  q.localSettings[KeepDeviceListeningKey] == p.localSettings[KeepDeviceListeningKey])
    ensures var q := SetKeepDeviceListening(p, v);
            (AutoStartDeviceKey in q.localSettings <==> AutoStartDeviceKey in p.localSettings)
            && (AutoStartDeviceKey in p.localSettings ==>
                  q.localSettings[AutoStartDeviceKey] == p.localSettings[AutoStartDeviceKey])
  {
  }

  // ---------------------------------------------------------------------------
  // The text callback

  predicate IsAsciiLower(c: char)
  {
    'a' <= c <= 'z'
  }

  /** Upper-casing of one character, restricted to ASCII letters. */
  function UpperChar(c: char): char
  {
    if IsAsciiLower(c) then (c as int - 32) as char else c
  }

  /**
   * `string.ToUpper`, restricted to ASCII: lower-case letters become their
   * capitals, every other character is kept.
   */
  function ToUpper(s: string): (r: string)
    ensures |r| == |s|
    ensures forall i :: 0 <= i < |s| ==> !IsAsciiLower(r[i])
    ensures forall i :: 0 <= i < |s| && !IsAsciiLower(s[i]) ==> r[i] == s[i]
    ensures forall i :: 0 <= i < |s| && IsAsciiLower(s[i]) ==> r[i] as int == s[i] as int - 32
  {
    if s == [] then [] else [UpperChar(s[0])] + ToUpper(s[1..])
  }

  /** `OnDeviceRecvText`: the answer sent back is the received text upper-cased. */
  function OnDeviceRecvText(msgIn: string): (msgOut: string)
    ensures |msgOut| == |msgIn|
    ensures forall i :: 0 <= i < |msgOut| ==> !IsAsciiLower(msgOut[i])
    ensures forall i :: 0 <= i < |msgIn| && !IsAsciiLower(msgIn[i]) ==> msgOut[i] == msgIn[i]
    ensures forall i :: 0 <= i < |msgIn| && IsAsciiLower(msgIn[i]) ==> msgOut[i] as int == msgIn[i] as int - 32
  {
    ToUpper(msgIn)
  }

  /** Upper-casing twice is upper-casing once. */
  lemma {:induction false} ToUpperIdempotent(s: string)
    ensures ToUpper(ToUpper(s)) == ToUpper(s)
  {
    var u := ToUpper(s);
    var uu := ToUpper(u);
    assert |uu| == |u|;
    forall i | 0 <= i < |u|
      ensures uu[i] == u[i]
    {
    }
  }

  /**
   * The page's callback wired into the client: for a received "hello" the
   * client sends back the encoding of "HELLO".
   */
  lemma HelloIsAnsweredUpperCased(codec: DeviceStreamClient.Codec, s: DeviceStreamClient.Script)
    requires s.tokenSource.Ok? && s.wait.Ok? && s.wait.value.Some?
    requires s.accept.Ok? && s.openSocket.Ok?
    requires s.receive == DeviceStreamClient.Ok(codec.encode("hello"))
    requires |codec.encode("hello")| <= DeviceStreamClient.BufferSize
    requires codec.decode(codec.encode("hello")) == "hello"
    ensures DeviceStreamClient.Send(codec.encode("HELLO"))
            in DeviceStreamClient.RunClientAsync(true, Some(OnDeviceRecvText), codec, s).trace
  {
    var hello := "hello";
    var u := OnDeviceRecvText(hello);
    assert |u| == 5;
    assert IsAsciiLower(hello[0]) && IsAsciiLower(hello[1]) && IsAsciiLower(hello[2])
        && IsAsciiLower(hello[3]) && IsAsciiLower(hello[4]);
    assert u[0] == 'H' && u[1] == 'E' && u[2] == 'L' && u[3] == 'L' && u[4] == 'O';
    assert u == "HELLO";
  }
}
