/** `DevicesGet`'s flat reply, and its regrouping into devices (cups-pk-client's device.rs). */
module Devices {
  import opened Wrappers
  import opened Texts

  datatype Device = Device(uri: string, deviceClass: string, info: string, makeAndModel: string,
                           deviceId: string, location: string)

  const BLANK := Device("", "", "", "", "", "")

  datatype Field = Uri | DeviceClass | Info | MakeAndModel | DeviceId | Location

  function NameOf(f: Field): string {
    match f
    case Uri => "device-uri"
    case DeviceClass => "device-class"
    case Info => "device-info"
    case MakeAndModel => "device-make-and-model"
    case DeviceId => "device-id"
    case Location => "device-location"
  }

  function FieldNamed(name: string): Option<Field> {
    if name == "device-uri" then Some(Uri)
    else if name == "device-class" then Some(DeviceClass)
    else if name == "device-info" then Some(Info)
    else if name == "device-make-and-model" then Some(MakeAndModel)
    else if name == "device-id" then Some(DeviceId)
    else if name == "device-location" then Some(Location)
    else None
  }

  function Get(d: Device, f: Field): string {
    match f
    case Uri => d.uri
    case DeviceClass => d.deviceClass
    case Info => d.info
    case MakeAndModel => d.makeAndModel
    case DeviceId => d.deviceId
    case Location => d.location
  }

  function Set(d: Device, f: Field, value: string): Device {
    match f
    case Uri => d.(uri := value)
    case DeviceClass => d.(deviceClass := value)
    case Info => d.(info := value)
    case MakeAndModel => d.(makeAndModel := value)
    case DeviceId => d.(deviceId := value)
    case Location => d.(location := value)
  }

  /** A key's field name and index: around its last colon, with a u32 behind it. */
  function ParseKey(key: string): Option<(string, nat)> {
    match RSplitOnce(key, ':')
    case None => None
    case Some((name, suffix)) =>
      match ParseU32(suffix)
      case None => None
      case Some(index) => Some((name, index))
  }

  // ---- The map kept in index order ----

  type ByIndex = map<nat, Device>

  lemma {:induction false} LeastOf(s: set<nat>) returns (k: nat)
    requires s != {}
    ensures k in s && forall j | j in s :: k <= j
  {
    var x :| x in s;
    k := x;
    assert forall j | j in s :: j == x || j in s - {x};
    if s - {x} != {} {
      var y := LeastOf(s - {x});
      k := if x < y then x else y;
    }
  }

  lemma HasLeast(s: set<nat>)
    requires s != {}
    ensures exists k :: k in s && forall j | j in s :: k <= j
  {
    var k := LeastOf(s);
  }

  function Least(s: set<nat>): (k: nat)
    requires s != {}
    ensures k in s && forall j | j in s :: k <= j
  {
    HasLeast(s);
    var k :| k in s && forall j | j in s :: k <= j;
    k
  }

  /** The indices in the order a BTreeMap visits them. */
  function Ascending(s: set<nat>): seq<nat> {
    if s == {} then [] else [Least(s)] + Ascending(s - {Least(s)})
  }

  /** The devices at these indices, less those without a uri. */
  function Listed(m: ByIndex, indices: seq<nat>): seq<Device> {
    if indices == [] then []
    else
      var rest := Listed(m, indices[1..]);
      if indices[0] in m && m[indices[0]].uri != "" then [m[indices[0]]] + rest else rest
  }

  function DeviceList(m: ByIndex): seq<Device> {
    Listed(m, Ascending(m.Keys))
  }

  // ---- Regrouping ----

  function Put(m: ByIndex, key: string, value: string): ByIndex {
    match ParseKey(key)
    case None => m
    case Some((name, index)) =>
      var device := if index in m then m[index] else BLANK;
      match FieldNamed(name)
      case None => m[index := device]
      case Some(f) => m[index := Set(device, f, value)]
  }

  predicate Known(raw: map<string, string>, order: seq<string>) {
    forall k | k in order :: k in raw
  }

  /** The map after visiting these keys of the reply, in this order. */
  function Regroup(raw: map<string, string>, order: seq<string>): ByIndex
    requires Known(raw, order)
  {
    if order == [] then map[]
    else
      var key := order[|order| - 1];
      Put(Regroup(raw, order[..|order| - 1]), key, raw[key])
  }

  /** Some order in which a hash map may yield its keys: each exactly once. */
  ghost predicate Enumerates(order: seq<string>, raw: map<string, string>) {
    && (forall k :: k in order <==> k in raw)
    && (forall i, j | 0 <= i < j < |order| :: order[i] != order[j])
  }

  /** `decode_devices`, with the hash map's iteration order made explicit. */
  method DecodeDevices(raw: map<string, string>, order: seq<string>) returns (devices: seq<Device>)
    requires Enumerates(order, raw)
    ensures devices == DeviceList(Regroup(raw, order))
  {
    hide RSplitOnce, ParseU32;
    var byIndex: ByIndex := map[];
    for i := 0 to |order|
      invariant byIndex == Regroup(raw, order[..i])
    {
      var key, value := order[i], raw[order[i]];
      assert order[..i + 1][..i] == order[..i];
      var split := RSplitOnce(key, ':');
      if split.None? {
        continue;
      }
      var parsed := ParseU32(split.value.1);
      if parsed.None? {
        continue;
      }
      var index := parsed.value;
      if index !in byIndex {
        byIndex := byIndex[index := BLANK];
      }
      var field := FieldNamed(split.value.0);
      if field.Some? {
        byIndex := byIndex[index := Set(byIndex[index], field.value, value)];
      }
    }
    assert order[..|order|] == order;
    devices := DeviceList(byIndex);
  }
}
