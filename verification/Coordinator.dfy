/** What a semantic change re-projects, and how the publisher turns that into one commit. */
module Coordinator {
  import opened Wrappers
  import opened Bus
  import opened TopicStore

  datatype Topic =
    | Discovery
    | Device(id: string)
    | Devices
    | Profiles
    | Cooling
    | Lighting
    | Lcd
    | Gui
    | Health
    | ProcessIcons
    | Plugins
    | ConfigDir

  datatype Change =
    | Bootstrap
    | DiscoveryTopology
    | DeviceChange(id: string)
    | DevicesChange(ids: seq<string>)
    | SensorTelemetry(ids: seq<string>)
    | LightingChange
    | LightingDevice(id: string)
    | LightingCatalog
    | LightingTopology
    | Canvas
    | CanvasDevice(id: string)
    | CoolingChange
    | CoolingDevice(id: string)
    | LcdChange
    | LcdDevice(id: string)
    | LcdCatalog
    | GuiChange
    | ProfilesChange
    | AppRules
    | ProfileSwitch
    | PluginTopology
    | PluginData
    | PluginDeviceStatus(id: string)

  function DeviceTopics(ids: seq<string>): seq<Topic> {
    seq(|ids|, i requires 0 <= i < |ids| => Topic.Device(ids[i]))
  }

  const ALL_TOPICS: seq<Topic> :=
    [Topic.Discovery, Devices, Topic.Profiles, Topic.Cooling, Topic.Lighting, Topic.Lcd, Topic.Gui, Topic.Health,
     Topic.ProcessIcons, Topic.Plugins, Topic.ConfigDir]

  function Topics(change: Change): seq<Topic> {
    match change
    case Bootstrap => ALL_TOPICS
    case DiscoveryTopology =>
      [Topic.Discovery, Devices, Topic.Cooling, Topic.Lighting, Topic.Lcd, Topic.Plugins]
    case DeviceChange(id) => [Topic.Device(id), Topic.Profiles]
    case DevicesChange(ids) => DeviceTopics(ids) + [Topic.Profiles]
    case SensorTelemetry(ids) => DeviceTopics(ids)
    case LightingChange => [Topic.Lighting, Topic.Profiles]
    case LightingDevice(id) => [Topic.Lighting, Topic.Device(id), Topic.Profiles]
    case LightingCatalog => [Topic.Lighting]
    case LightingTopology => [Topic.Lighting, Devices]
    case Canvas => [Topic.Lighting, Topic.Profiles]
    case CanvasDevice(id) => [Topic.Lighting, Topic.Device(id), Topic.Profiles]
    case CoolingChange => [Topic.Cooling]
    case CoolingDevice(id) => [Topic.Cooling, Topic.Device(id), Topic.Profiles]
    case LcdChange => [Topic.Lcd]
    case LcdDevice(id) => [Topic.Lcd, Topic.Device(id), Topic.Profiles]
    case LcdCatalog => [Topic.Lcd]
    case GuiChange => [Topic.Gui]
    case ProfilesChange => [Topic.Profiles]
    case AppRules => [Topic.Profiles, Topic.ProcessIcons]
    case ProfileSwitch => [Topic.Profiles, Devices, Topic.Cooling, Topic.Lighting, Topic.Lcd]
    case PluginTopology => [Topic.Plugins, Devices]
    case PluginData => [Topic.Plugins]
    case PluginDeviceStatus(id) => [Topic.Plugins, Topic.Device(id)]
  }

  /** What the projections would read off the daemon at one moment. */
  datatype World = World(
    devices: seq<WireDevice>,
    discovery: Payload,
    profiles: Payload,
    cooling: (CoolingConfig, Payload),
    lighting: (FpsConfig, Payload),
    lcd: (FpsConfig, Payload),
    gui: Payload,
    health: Payload,
    processIcons: Payload,
    plugins: Payload,
    configDir: Payload)

  predicate NeedsAllDevices(topic: Topic) {
    || topic == Devices || topic == Topic.Cooling || topic == Topic.Lighting
    || topic == Topic.Lcd || topic == Topic.Plugins
  }

  /** The devices with one of `ids`, in registry order. */
  function Chosen(devices: seq<WireDevice>, ids: set<string>): (r: seq<WireDevice>)
    ensures forall d :: d in r <==> d in devices && d.id in ids
  {
    if devices == [] then []
    else
      assert devices == devices[..|devices| - 1] + [devices[|devices| - 1]];
      Chosen(devices[..|devices| - 1], ids)
        + if devices[|devices| - 1].id in ids then [devices[|devices| - 1]] else []
  }

  /** The device snapshot one production takes. */
  function Snapshotted(w: World, topics: seq<Topic>): seq<WireDevice> {
    if exists t <- topics :: NeedsAllDevices(t) then w.devices
    else Chosen(w.devices, set t | t in topics && t.Device? :: t.id)
  }

  function DeviceRecords(devices: seq<WireDevice>): seq<(string, BusValue)> {
    seq(|devices|, i requires 0 <= i < |devices| => (DeviceKey(devices[i].id), BusValue.Device(devices[i])))
  }

  function Project(w: World, devices: seq<WireDevice>, topic: Topic): seq<(string, BusValue)> {
    match topic
    case Discovery => [(DISCOVERY, BusValue.Discovery(w.discovery))]
    case Device(id) => DeviceRecords(Chosen(devices, {id}))
    case Devices => DeviceRecords(devices)
    case Profiles => [(PROFILES, BusValue.Profiles(w.profiles))]
    case Cooling => [(COOLING, BusValue.Cooling(w.cooling.0, w.cooling.1))]
    case Lighting => [(LIGHTING, BusValue.Lighting(w.lighting.0, w.lighting.1))]
    case Lcd => [(LCD, BusValue.Lcd(w.lcd.0, w.lcd.1))]
    case Gui => [(GUI, BusValue.Gui(w.gui))]
    case Health => [(HEALTH, BusValue.Health(w.health))]
    case ProcessIcons => [(PROCESS_ICONS, BusValue.ProcessIcons(w.processIcons))]
    case Plugins => [(PLUGINS, BusValue.Plugins(w.plugins))]
    case ConfigDir => [(CONFIG_DIR, BusValue.ConfigDir(w.configDir))]
  }

  function ProjectAll(w: World, devices: seq<WireDevice>, topics: seq<Topic>): seq<(string, BusValue)> {
    if topics == [] then []
    else ProjectAll(w, devices, topics[..|topics| - 1]) + Project(w, devices, topics[|topics| - 1])
  }

  function Produce(w: World, topics: seq<Topic>): seq<(string, BusValue)> {
    ProjectAll(w, Snapshotted(w, topics), topics)
  }

  // ------------------------------ the commit ------------------------------

  predicate Differs(m: map<string, BusValue>, u: (string, BusValue)) {
    u.0 !in m || m[u.0] != u.1
  }

  /** The unchanged-record filter. */
  function Changed(m: map<string, BusValue>, produced: seq<(string, BusValue)>): seq<(string, BusValue)> {
    if produced == [] then []
    else
      var n := |produced| - 1;
      Changed(m, produced[..n]) + if Differs(m, produced[n]) then [produced[n]] else []
  }

  function KeysOf(produced: seq<(string, BusValue)>): set<string> {
    set i | 0 <= i < |produced| :: produced[i].0
  }

  /** The device records a full device projection no longer produces. */
  function Stale(m: map<string, BusValue>, topics: seq<Topic>, produced: seq<(string, BusValue)>): set<string> {
    if Devices in topics then set key | key in m && DEVICE_PREFIX <= key && key !in KeysOf(produced) else {}
  }

  /** One pass of the publisher, from map and counter to map and counter. */
  ghost predicate Publishes(before: Version, topics: seq<Topic>, produced: seq<(string, BusValue)>,
                            tx: Option<Transaction>, after: Version)
  {
    var changed := Changed(before.values, produced);
    var stale := Stale(before.values, topics, produced);
    if changed == [] && stale == {} then tx.None? && after == before
    else
      && tx.Some? && after.revision == NextRevision(before.revision) == tx.value.revision
      && tx.value.upserts == Wire(changed, after.revision)
      && (forall key :: key in tx.value.tombstones <==> key in stale)
      && after.values == After(before.values, tx.value)
  }

  const OWNER := "host.state"

  class EffectiveStatePublisher {
    const bus: DataBus

    constructor (bus: DataBus)
      ensures this.bus == bus
    {
      this.bus := bus;
    }

    /** The publisher is the bus's only producer. */
    ghost predicate Valid()
      reads bus
    {
      forall key <- bus.records :: bus.records[key].owner == OWNER
    }

    ghost function Now(): Version
      reads bus
    {
      Version(Values(bus.Inner()), bus.revision)
    }

    method Record(w: World, change: Change) returns (tx: Option<Transaction>)
      requires Valid()
      modifies bus
      ensures Valid() && Publishes(old(Now()), Topics(change), Produce(w, Topics(change)), tx, Now())
      ensures bus.sent == old(bus.sent) + if tx.Some? then [tx.value] else []
    {
      var topics := Topics(change);
      ProducedKeys(w, topics);
      tx := Commit(topics, Produce(w, topics));
    }

    method Commit(topics: seq<Topic>, produced: seq<(string, BusValue)>) returns (tx: Option<Transaction>)
      requires Valid()
      requires forall i :: 0 <= i < |produced| ==> produced[i].0 == KeyOf(produced[i].1)
      modifies bus
      ensures Valid() && Publishes(old(Now()), topics, produced, tx, Now())
      ensures bus.sent == old(bus.sent) + if tx.Some? then [tx.value] else []
    {
      var m := Values(bus.Inner());
      var tombstones := Tombstones(topics, produced);
      var upserts := Changed(m, produced);
      if upserts == [] && tombstones == [] {
        assert forall key :: key !in Stale(m, topics, produced);
        return None;
      }
      assert tombstones != [] ==> tombstones[0] in Stale(m, topics, produced);
      ChangedIsProduced(m, produced);
      forall i | 0 <= i < |upserts| ensures upserts[i].0 != "" {
        assert upserts[i] in produced;
        KeyIsNonEmpty(upserts[i].1);
      }
      CommitIsItsTransaction(bus.Inner(), OWNER, upserts, tombstones);
      InsertedOwner(bus.records, OWNER, NextRevision(bus.revision), upserts);
      var r := bus.CommitState(OWNER, upserts, tombstones);
      return Some(r.value);
    }

    method Tombstones(topics: seq<Topic>, produced: seq<(string, BusValue)>) returns (tombstones: seq<string>)
      ensures forall key :: key in tombstones <==> key in Stale(Values(bus.Inner()), topics, produced)
    {
      tombstones := [];
      if Devices !in topics {
        return;
      }
      var newKeys := KeysOf(produced);
      var _, snapshot := bus.StateSnapshot(DEVICE_PREFIX);
      for i := 0 to |snapshot|
        invariant forall key :: key in tombstones <==> key !in newKeys && Lists(snapshot[..i], key)
      {
        var key := snapshot[i].key;
        assert snapshot[..i + 1] == snapshot[..i] + [snapshot[i]];
        AppendLists(snapshot[..i], snapshot[i]);
        assert forall k :: Lists(snapshot[..i + 1], k) ==> k == key || Lists(snapshot[..i], k) by {
          forall k | Lists(snapshot[..i + 1], k) && k != key ensures Lists(snapshot[..i], k) {
            var j :| 0 <= j < i + 1 && snapshot[..i + 1][j].key == k;
            assert snapshot[..i][j].key == k;
          }
        }
        if key !in newKeys {
          tombstones := tombstones + [key];
        }
      }
      assert snapshot[..|snapshot|] == snapshot;
      ghost var m := Values(bus.Inner());
      assert forall key :: key in Under(m, DEVICE_PREFIX) <==> Lists(snapshot, key);
    }
  }

  lemma KeyIsNonEmpty(v: BusValue)
    ensures KeyOf(v) != ""
  {
    if !v.Device? { TopicTellsKind(Kind(v)); }
    KeysSeparateValues(v, v);
  }

  lemma {:induction false} InsertedOwner(records: map<string, StateRecord>, owner: string, revision: nat,
                                         upserts: seq<(string, BusValue)>)
    requires forall key <- records :: records[key].owner == owner
    ensures forall key <- Inserted(records, owner, revision, upserts) ::
      Inserted(records, owner, revision, upserts)[key].owner == owner
    decreases |upserts|
  {
    if upserts != [] {
      InsertedOwner(records, owner, revision, upserts[..|upserts| - 1]);
    }
  }

  lemma {:induction false} ChangedIsProduced(m: map<string, BusValue>, produced: seq<(string, BusValue)>)
    ensures forall u :: u in Changed(m, produced) <==> u in produced && Differs(m, u)
    decreases |produced|
  {
    if produced != [] {
      var n := |produced| - 1;
      ChangedIsProduced(m, produced[..n]);
      assert produced == produced[..n] + [produced[n]];
    }
  }

  lemma {:induction false} ProjectedRecords(w: World, devices: seq<WireDevice>, topics: seq<Topic>)
    ensures forall u :: u in ProjectAll(w, devices, topics) <==>
      exists t :: t in topics && u in Project(w, devices, t)
    decreases |topics|
  {
    if topics != [] {
      var n := |topics| - 1;
      ProjectedRecords(w, devices, topics[..n]);
      assert topics == topics[..n] + [topics[n]];
    }
  }

  lemma DeviceRecordsAre(devices: seq<WireDevice>, u: (string, BusValue))
    ensures u in DeviceRecords(devices) <==> u.1.Device? && u.0 == DeviceKey(u.1.device.id) && u.1.device in devices
  {
    if u.1.Device? && u.1.device in devices {
      var i :| 0 <= i < |devices| && devices[i] == u.1.device;
      assert DeviceRecords(devices)[i] == (DeviceKey(u.1.device.id), u.1);
    }
  }

  lemma ProjectedKey(w: World, devices: seq<WireDevice>, t: Topic, u: (string, BusValue))
    requires u in Project(w, devices, t)
    ensures u.0 == KeyOf(u.1)
  {
    if t.Device? {
      DeviceRecordsAre(Chosen(devices, {t.id}), u);
    } else if t.Devices? {
      DeviceRecordsAre(devices, u);
    } else {
      assert u == Project(w, devices, t)[0];
    }
  }

  /** Every record is produced under its own topic. */
  lemma ProducedKeys(w: World, topics: seq<Topic>)
    ensures forall u <- Produce(w, topics) :: u.0 == KeyOf(u.1)
  {
    var devices := Snapshotted(w, topics);
    ProjectedRecords(w, devices, topics);
    forall u | u in Produce(w, topics) ensures u.0 == KeyOf(u.1) {
      var t :| t in topics && u in Project(w, devices, t);
      ProjectedKey(w, devices, t, u);
    }
  }

  /** What the daemon has for a kind with one topic. */
  ghost function WorldValue(w: World, kind: nat): BusValue {
    match kind
    case 0 => BusValue.Discovery(w.discovery)
    case 2 => BusValue.Profiles(w.profiles)
    case 3 => BusValue.Cooling(w.cooling.0, w.cooling.1)
    case 4 => BusValue.Lighting(w.lighting.0, w.lighting.1)
    case 5 => BusValue.Lcd(w.lcd.0, w.lcd.1)
    case 6 => BusValue.Gui(w.gui)
    case 7 => BusValue.Health(w.health)
    case 8 => BusValue.ProcessIcons(w.processIcons)
    case 9 => BusValue.Plugins(w.plugins)
    case _ => BusValue.ConfigDir(w.configDir)
  }

  /** Every record shows the world: a registered device, or the one value of its kind. */
  lemma ProducedShowsWorld(w: World, topics: seq<Topic>, u: (string, BusValue))
    requires u in Produce(w, topics)
    ensures u.0 == KeyOf(u.1)
    ensures if u.1.Device? then u.1.device in w.devices else u.1 == WorldValue(w, Kind(u.1))
  {
    var devices := Snapshotted(w, topics);
    ProjectedRecords(w, devices, topics);
    var t :| t in topics && u in Project(w, devices, t);
    ProjectedKey(w, devices, t, u);
    if t.Device? {
      DeviceRecordsAre(Chosen(devices, {t.id}), u);
    } else if t.Devices? {
      DeviceRecordsAre(devices, u);
    } else {
      assert u == Project(w, devices, t)[0];
    }
  }

  ghost predicate Consistent(produced: seq<(string, BusValue)>) {
    && (forall u <- produced :: u.0 == KeyOf(u.1))
    && (forall u, v :: u in produced && v in produced && u.0 == v.0 ==> u.1 == v.1)
  }

  /** Entries of one id are equal, as they are when each id is registered once. */
  ghost predicate OneEntryPerId(devices: seq<WireDevice>) {
    forall a, b :: a in devices && b in devices && a.id == b.id ==> a == b
  }

  lemma WorldSaysOne(w: World, u: BusValue, v: BusValue)
    requires OneEntryPerId(w.devices) && KeyOf(u) == KeyOf(v)
    requires if u.Device? then u.device in w.devices else u == WorldValue(w, Kind(u))
    requires if v.Device? then v.device in w.devices else v == WorldValue(w, Kind(v))
    ensures u == v
  {
    KeysSeparateValues(u, v);
  }

  /** With one registry entry per device id, one production never says two things of one key. */
  lemma ProducedIsConsistent(w: World, topics: seq<Topic>)
    requires OneEntryPerId(w.devices)
    ensures Consistent(Produce(w, topics))
  {
    ProducedKeys(w, topics);
    forall u, v | u in Produce(w, topics) && v in Produce(w, topics) && u.0 == v.0 ensures u.1 == v.1 {
      ProducedShowsWorld(w, topics, u);
      ProducedShowsWorld(w, topics, v);
      WorldSaysOne(w, u.1, v.1);
    }
  }

  // ------------------ the filter leaves the same map ------------------

  ghost function Unfiltered(m: map<string, BusValue>, produced: seq<(string, BusValue)>): map<string, BusValue> {
    Upserted(m, Wire(produced, 0))
  }

  lemma {:induction false} WireRevisionIsImmaterial(m: map<string, BusValue>, produced: seq<(string, BusValue)>,
                                                    a: nat, b: nat)
    ensures Upserted(m, Wire(produced, a)) == Upserted(m, Wire(produced, b))
    decreases |produced|
  {
    if produced != [] {
      var n := |produced| - 1;
      WireRevisionIsImmaterial(m, produced[..n], a, b);
      assert Wire(produced, a)[..n] == Wire(produced[..n], a);
      assert Wire(produced, b)[..n] == Wire(produced[..n], b);
    }
  }

  ghost predicate DiffersAt(m: map<string, BusValue>, produced: seq<(string, BusValue)>, key: string) {
    exists i :: 0 <= i < |produced| && produced[i].0 == key && Differs(m, produced[i])
  }

  /** The last thing said of a key is what the map already has. */
  ghost predicate EndsUnchanged(m: map<string, BusValue>, produced: seq<(string, BusValue)>, key: string) {
    key in m && key in Unfiltered(m, produced) && Unfiltered(m, produced)[key] == m[key]
  }

  /** What the filtered commit leaves under one key. */
  lemma {:induction false} FilteredAt(m: map<string, BusValue>, produced: seq<(string, BusValue)>, key: string)
    ensures var f := Unfiltered(m, Changed(m, produced));
            && (!DiffersAt(m, produced, key) ==> (key in f <==> key in m) && (key in m ==> f[key] == m[key]))
            && (DiffersAt(m, produced, key) ==> key in f && (key in m ==> f[key] != m[key]))
            && (!EndsUnchanged(m, produced, key) && DiffersAt(m, produced, key) ==>
                  key in Unfiltered(m, produced) && f[key] == Unfiltered(m, produced)[key])
    ensures !DiffersAt(m, produced, key) ==>
      (key in Unfiltered(m, produced) <==> key in m) && (key in m ==> Unfiltered(m, produced)[key] == m[key])
    decreases |produced|
  {
    if produced != [] {
      var n := |produced| - 1;
      var front := produced[..n];
      FilteredAt(m, front, key);
      DiffersOneMore(m, produced, key);
      UnfilteredOneMore(m, produced);
    }
  }

  lemma DiffersOneMore(m: map<string, BusValue>, produced: seq<(string, BusValue)>, key: string)
    requires produced != []
    ensures var n := |produced| - 1;
            DiffersAt(m, produced, key) <==>
              DiffersAt(m, produced[..n], key) || (produced[n].0 == key && Differs(m, produced[n]))
  {
    var n := |produced| - 1;
    if DiffersAt(m, produced[..n], key) {
      var i :| 0 <= i < n && produced[..n][i].0 == key && Differs(m, produced[..n][i]);
      assert produced[i].0 == key;
    }
  }

  lemma UnfilteredOneMore(m: map<string, BusValue>, produced: seq<(string, BusValue)>)
    requires produced != []
    ensures var (front, last) := (produced[..|produced| - 1], produced[|produced| - 1]);
            && Unfiltered(m, produced) == Unfiltered(m, front)[last.0 := last.1]
            && Unfiltered(m, Changed(m, produced)) ==
                 if Differs(m, last) then Unfiltered(m, Changed(m, front))[last.0 := last.1]
                 else Unfiltered(m, Changed(m, front))
  {
    var n := |produced| - 1;
    assert Wire(produced, 0)[..n] == Wire(produced[..n], 0);
    if Differs(m, produced[n]) {
      var changed := Changed(m, produced);
      assert changed == Changed(m, produced[..n]) + [produced[n]];
      assert Wire(changed, 0)[..|changed| - 1] == Wire(Changed(m, produced[..n]), 0);
    } else {
      assert Changed(m, produced) == Changed(m, produced[..n]);
    }
  }

  /** Dropping unchanged records is lossless exactly when no key that ends up unchanged was also
      given a different value along the way. */
  lemma FilterIsLossless(m: map<string, BusValue>, produced: seq<(string, BusValue)>)
    ensures Unfiltered(m, Changed(m, produced)) == Unfiltered(m, produced) <==>
      forall key :: EndsUnchanged(m, produced, key) ==> !DiffersAt(m, produced, key)
  {
    var f := Unfiltered(m, Changed(m, produced));
    var g := Unfiltered(m, produced);
    if forall key :: EndsUnchanged(m, produced, key) ==> !DiffersAt(m, produced, key) {
      forall key ensures (key in f <==> key in g) && (key in f ==> f[key] == g[key]) {
        FilteredAt(m, produced, key);
      }
      assert f == g;
    } else {
      var key :| EndsUnchanged(m, produced, key) && DiffersAt(m, produced, key);
      FilteredAt(m, produced, key);
      assert f[key] != g[key];
    }
  }

  /** A consistent production meets that condition; the values it leaves are the produced ones. */
  lemma ConsistentFilter(m: map<string, BusValue>, produced: seq<(string, BusValue)>)
    requires Consistent(produced)
    ensures Unfiltered(m, Changed(m, produced)) == Unfiltered(m, produced)
    ensures forall u <- produced :: u.0 in Unfiltered(m, produced) && Unfiltered(m, produced)[u.0] == u.1
    ensures forall key :: key !in KeysOf(produced) ==>
      (key in Unfiltered(m, produced) <==> key in m) && (key in m ==> Unfiltered(m, produced)[key] == m[key])
  {
    var wire := Wire(produced, 0);
    forall u | u in produced ensures u.0 in Unfiltered(m, produced) && Unfiltered(m, produced)[u.0] == u.1 {
      var i :| 0 <= i < |produced| && produced[i] == u;
      forall j | 0 <= j < |wire| && wire[j].key == wire[i].key ensures wire[j].value == wire[i].value {
        assert produced[j] in produced;
      }
      UpsertedHit(m, wire, i);
    }
    forall key | key !in KeysOf(produced)
      ensures (key in Unfiltered(m, produced) <==> key in m) && (key in m ==> Unfiltered(m, produced)[key] == m[key])
    {
      forall i | 0 <= i < |wire| ensures wire[i].key != key {
        assert produced[i].0 in KeysOf(produced);
      }
      UpsertedMiss(m, wire, key);
    }
    assert forall i :: 0 <= i < |produced| ==>
      produced[i] in produced && Unfiltered(m, produced)[produced[i].0] == produced[i].1;
    FilterIsLossless(m, produced);
  }

  ghost predicate Lossless(m: map<string, BusValue>, produced: seq<(string, BusValue)>) {
    Unfiltered(m, Changed(m, produced)) == Unfiltered(m, produced)
  }

  lemma LastOf(produced: seq<(string, BusValue)>, u: (string, BusValue)) returns (i: nat)
    requires u in produced
    ensures i < |produced| && produced[i].0 == u.0 && forall j :: i < j < |produced| ==> produced[j].0 != u.0
  {
    i := |produced| - 1;
    while produced[i].0 != u.0
      invariant i < |produced| && forall j :: i < j < |produced| ==> produced[j].0 != u.0
      invariant u in produced[..i + 1]
      decreases i
    {
      assert produced[..i + 1] == produced[..i] + [produced[i]];
      i := i - 1;
    }
  }

  lemma DevicesAlone(w: World)
    ensures Produce(w, [Devices]) == DeviceRecords(w.devices)
  {
    var topics := [Devices];
    assert topics[0] in topics && NeedsAllDevices(topics[0]);
    assert topics[..0] == [];
    assert ProjectAll(w, w.devices, topics[..0]) == [];
  }

  /** Two different entries of one id: on a bus that has the last of them, the other one wins. */
  lemma TwoEntriesAreLossy(w: World, a: WireDevice, b: WireDevice) returns (m: map<string, BusValue>)
    requires a in w.devices && b in w.devices && a.id == b.id && a != b
    ensures !Lossless(m, Produce(w, [Devices]))
  {
    var produced := Produce(w, [Devices]);
    var key := DeviceKey(a.id);
    DevicesAlone(w);
    DeviceRecordsAre(w.devices, (key, BusValue.Device(a)));
    DeviceRecordsAre(w.devices, (key, BusValue.Device(b)));
    var i := LastOf(produced, (key, BusValue.Device(a)));
    m := map[key := produced[i].1];
    UpsertedHit(m, Wire(produced, 0), i);
    assert EndsUnchanged(m, produced, key);
    var other := if produced[i].1 == BusValue.Device(a) then b else a;
    assert Differs(m, (key, BusValue.Device(other)));
    assert DiffersAt(m, produced, key);
    FilterIsLossless(m, produced);
  }

  /** The filter never loses a record of anything the daemon can produce, on any bus and for any
      topics, exactly when the registry holds no two different devices under one id. */
  lemma ProductionsFilterLosslesslyIff(w: World)
    ensures (forall m, topics :: Lossless(m, Produce(w, topics))) <==> OneEntryPerId(w.devices)
  {
    if OneEntryPerId(w.devices) {
      forall m, topics ensures Lossless(m, Produce(w, topics)) {
        ProducedIsConsistent(w, topics);
        ConsistentFilter(m, Produce(w, topics));
      }
    } else {
      var a, b :| a in w.devices && b in w.devices && a.id == b.id && a != b;
      var m := TwoEntriesAreLossy(w, a, b);
    }
  }

  // ------------------ what one commit leaves on the bus ------------------

  /** The unfiltered production, minus the stale devices. */
  ghost function Exact(m: map<string, BusValue>, topics: seq<Topic>, produced: seq<(string, BusValue)>)
    : map<string, BusValue>
  {
    map key | key in Unfiltered(m, produced) && key !in Stale(m, topics, produced) :: Unfiltered(m, produced)[key]
  }

  lemma CommitLeavesExact(before: Version, topics: seq<Topic>, produced: seq<(string, BusValue)>,
                          tx: Option<Transaction>, after: Version)
    requires Publishes(before, topics, produced, tx, after) && Consistent(produced)
    ensures after.values == Exact(before.values, topics, produced)
  {
    var changed := Changed(before.values, produced);
    ConsistentFilter(before.values, produced);
    if tx.Some? {
      WireRevisionIsImmaterial(before.values, changed, after.revision, 0);
    } else {
      assert Wire(changed, 0) == [];
    }
  }

  /** A commit leaves exactly the unfiltered production minus the stale devices, and publishes
      if and only if that changes the map; what it publishes is well formed. */
  lemma CommitIsExact(before: Version, topics: seq<Topic>, produced: seq<(string, BusValue)>,
                      tx: Option<Transaction>, after: Version)
    requires Publishes(before, topics, produced, tx, after) && Consistent(produced)
    ensures after.values == Exact(before.values, topics, produced)
    ensures tx.Some? <==> after.values != before.values
    ensures tx.Some? ==> WellFormed(tx.value)
  {
    var m := before.values;
    var changed := Changed(m, produced);
    CommitLeavesExact(before, topics, produced, tx, after);
    if tx.Some? {
      PublishedIsWellFormed(m, topics, produced, tx.value);
      if changed != [] {
        var u := changed[0];
        ChangedIsProduced(m, produced);
        assert u in changed;
        ConsistentFilter(m, produced);
        assert u.0 in KeysOf(produced);
        assert u.0 in after.values && after.values[u.0] == u.1;
      } else {
        var key :| key in Stale(m, topics, produced);
        assert key !in after.values;
      }
    }
  }

  lemma PublishedIsWellFormed(m: map<string, BusValue>, topics: seq<Topic>, produced: seq<(string, BusValue)>,
                              tx: Transaction)
    requires Consistent(produced)
    requires tx.upserts == Wire(Changed(m, produced), tx.revision)
    requires forall key :: key in tx.tombstones <==> key in Stale(m, topics, produced)
    ensures WellFormed(tx)
  {
    var changed := Changed(m, produced);
    ChangedIsProduced(m, produced);
    assert forall i :: 0 <= i < |changed| ==> changed[i] in produced;
    forall i | 0 <= i < |tx.tombstones| ensures tx.tombstones[i] in Stale(m, topics, produced) {
      assert tx.tombstones[i] in tx.tombstones;
    }
    forall i, j | 0 <= i < |tx.upserts| && 0 <= j < |tx.tombstones| ensures tx.upserts[i].key != tx.tombstones[j] {
      var k :| 0 <= k < |produced| && produced[k] == changed[i];
      assert changed[i].0 in KeysOf(produced);
    }
  }

  /** After a commit every produced record is on the bus as produced, and a full device
      projection leaves exactly the registry's devices. */
  lemma CommitShowsWorld(before: Version, w: World, topics: seq<Topic>, tx: Option<Transaction>, after: Version)
    requires DistinctIds(w.devices) && Publishes(before, topics, Produce(w, topics), tx, after)
    requires Keyed(before.values)
    ensures forall u <- Produce(w, topics) :: u.0 in after.values && after.values[u.0] == u.1
    ensures Devices in topics ==> forall d ::
      d in w.devices <==> DeviceKey(d.id) in after.values && after.values[DeviceKey(d.id)] == BusValue.Device(d)
  {
    var produced := Produce(w, topics);
    ProducedIsConsistent(w, topics);
    CommitIsExact(before, topics, produced, tx, after);
    ConsistentFilter(before.values, produced);
    forall u | u in produced ensures u.0 in after.values {
      var i :| 0 <= i < |produced| && produced[i] == u;
      assert u.0 in KeysOf(produced);
    }
    if Devices in topics {
      forall d: WireDevice
        ensures d in w.devices <==>
                  DeviceKey(d.id) in after.values && after.values[DeviceKey(d.id)] == BusValue.Device(d)
      {
        var u := (DeviceKey(d.id), BusValue.Device(d));
        DevicesAreProduced(w, topics, u);
        if DeviceKey(d.id) in after.values && u !in produced {
          assert DeviceKey(d.id) !in Stale(before.values, topics, produced);
          assert DeviceKey(d.id) in KeysOf(produced);
          var i :| 0 <= i < |produced| && produced[i].0 == DeviceKey(d.id);
          assert produced[i] in produced;
        }
      }
    }
  }

  lemma DevicesAreProduced(w: World, topics: seq<Topic>, u: (string, BusValue))
    requires Devices in topics && u.1.Device? && u.0 == DeviceKey(u.1.device.id)
    ensures u in Produce(w, topics) <==> u.1.device in w.devices
  {
    assert NeedsAllDevices(Devices);
    ProjectedRecords(w, w.devices, topics);
    DeviceRecordsAre(w.devices, u);
    if u in Produce(w, topics) {
      ProducedShowsWorld(w, topics, u);
    }
  }

  // ------------------ what a change brings up to date ------------------

  ghost function SingletonTopic(kind: nat): Topic {
    match kind
    case 0 => Topic.Discovery
    case 2 => Topic.Profiles
    case 3 => Topic.Cooling
    case 4 => Topic.Lighting
    case 5 => Topic.Lcd
    case 6 => Topic.Gui
    case 7 => Topic.Health
    case 8 => Topic.ProcessIcons
    case 9 => Topic.Plugins
    case _ => Topic.ConfigDir
  }

  /** After which changes the record of a kind is read afresh. */
  ghost predicate Refreshes(change: Change, kind: nat) {
    change.Bootstrap? ||
    match kind
    case 0 => change.DiscoveryTopology?
    case 2 =>
      || change.DeviceChange? || change.DevicesChange? || change.LightingChange? || change.LightingDevice?
      || change.Canvas? || change.CanvasDevice? || change.CoolingDevice? || change.LcdDevice?
      || change.ProfilesChange? || change.AppRules? || change.ProfileSwitch?
    case 3 =>
      change.DiscoveryTopology? || change.CoolingChange? || change.CoolingDevice? || change.ProfileSwitch?
    case 4 =>
      || change.DiscoveryTopology? || change.LightingChange? || change.LightingDevice? || change.LightingCatalog?
      || change.LightingTopology? || change.Canvas? || change.CanvasDevice? || change.ProfileSwitch?
    case 5 =>
      || change.DiscoveryTopology? || change.LcdChange? || change.LcdDevice? || change.LcdCatalog?
      || change.ProfileSwitch?
    case 6 => change.GuiChange?
    case 8 => change.AppRules?
    case 9 =>
      || change.DiscoveryTopology? || change.PluginTopology? || change.PluginData? || change.PluginDeviceStatus?
    case _ => false
  }

  ghost predicate RefreshesAllDevices(change: Change) {
    || change.Bootstrap? || change.DiscoveryTopology? || change.LightingTopology? || change.ProfileSwitch?
    || change.PluginTopology?
  }

  ghost predicate RefreshesDevice(change: Change, id: string) {
    || (change.DeviceChange? && change.id == id)
    || (change.DevicesChange? && id in change.ids)
    || (change.SensorTelemetry? && id in change.ids)
    || (change.LightingDevice? && change.id == id)
    || (change.CanvasDevice? && change.id == id)
    || (change.CoolingDevice? && change.id == id)
    || (change.LcdDevice? && change.id == id)
    || (change.PluginDeviceStatus? && change.id == id)
  }

  lemma DeviceTopicsAre(ids: seq<string>, t: Topic)
    ensures t in DeviceTopics(ids) <==> t.Device? && t.id in ids
  {
    if t.Device? && t.id in ids {
      var i :| 0 <= i < |ids| && ids[i] == t.id;
      assert DeviceTopics(ids)[i] == t;
    }
  }

  lemma TopicOfKind(change: Change, kind: nat)
    requires IsSingleton(kind)
    ensures SingletonTopic(kind) in Topics(change) <==> Refreshes(change, kind)
  {
    if Names(change) { NamingTopicOfKind(change, kind); } else { OtherTopicOfKind(change, kind); }
  }

  /** A change of devices it names. */
  predicate Names(change: Change) {
    || change.DeviceChange? || change.DevicesChange? || change.SensorTelemetry? || change.LightingDevice?
    || change.CanvasDevice? || change.CoolingDevice? || change.LcdDevice? || change.PluginDeviceStatus?
  }

  lemma NamingTopicOfKind(change: Change, kind: nat)
    requires IsSingleton(kind) && Names(change)
    ensures SingletonTopic(kind) in Topics(change) <==> Refreshes(change, kind)
  {
    if change.DevicesChange? || change.SensorTelemetry? { DeviceTopicsAre(change.ids, SingletonTopic(kind)); }
  }

  lemma OtherTopicOfKind(change: Change, kind: nat)
    requires IsSingleton(kind) && !Names(change)
    ensures SingletonTopic(kind) in Topics(change) <==> Refreshes(change, kind)
  {
  }

  lemma TopicOfDevices(change: Change)
    ensures Devices in Topics(change) <==> RefreshesAllDevices(change)
  {
    if change.DevicesChange? || change.SensorTelemetry? { DeviceTopicsAre(change.ids, Devices); }
  }

  lemma TopicOfDevice(change: Change, id: string)
    ensures Topic.Device(id) in Topics(change) <==> RefreshesDevice(change, id)
  {
    if change.DevicesChange? || change.SensorTelemetry? { DeviceTopicsAre(change.ids, Topic.Device(id)); }
  }

  lemma WorldValueKind(w: World, kind: nat)
    requires IsSingleton(kind)
    ensures Kind(WorldValue(w, kind)) == kind && !WorldValue(w, kind).Device?
    ensures KeyOf(WorldValue(w, kind)) == TopicOf(kind)
  {
  }

  lemma ProjectsOneKind(w: World, devices: seq<WireDevice>, t: Topic, u: (string, BusValue), kind: nat)
    requires IsSingleton(kind)
    ensures u in Project(w, devices, t) && u.0 == TopicOf(kind) ==> t == SingletonTopic(kind)
    ensures (TopicOf(kind), WorldValue(w, kind)) in Project(w, devices, SingletonTopic(kind))
  {
    WorldValueKind(w, kind);
    if u in Project(w, devices, t) && u.0 == TopicOf(kind) {
      ProjectedKey(w, devices, t, u);
      KeysSeparateValues(u.1, WorldValue(w, kind));
      if t.Device? {
        DeviceRecordsAre(Chosen(devices, {t.id}), u);
      } else if t.Devices? {
        DeviceRecordsAre(devices, u);
      } else {
        assert u == Project(w, devices, t)[0];
      }
    }
  }

  /** The record of a kind is produced exactly when its topic is asked for. */
  lemma ProducedOfKind(w: World, topics: seq<Topic>, kind: nat)
    requires IsSingleton(kind)
    ensures TopicOf(kind) in KeysOf(Produce(w, topics)) <==> SingletonTopic(kind) in topics
    ensures SingletonTopic(kind) in topics ==> (TopicOf(kind), WorldValue(w, kind)) in Produce(w, topics)
  {
    var devices, produced := Snapshotted(w, topics), Produce(w, topics);
    ProjectedRecords(w, devices, topics);
    if TopicOf(kind) in KeysOf(produced) {
      var i :| 0 <= i < |produced| && produced[i].0 == TopicOf(kind);
      assert produced[i] in produced;
      var t :| t in topics && produced[i] in Project(w, devices, t);
      ProjectsOneKind(w, devices, t, produced[i], kind);
    }
    if SingletonTopic(kind) in topics {
      var u := (TopicOf(kind), WorldValue(w, kind));
      ProjectsOneKind(w, devices, SingletonTopic(kind), u, kind);
      assert u in produced;
      var i :| 0 <= i < |produced| && produced[i] == u;
    }
  }

  lemma DeviceKeyIs(a: string, b: string)
    ensures DeviceKey(a) == DeviceKey(b) <==> a == b
  {
    assert DeviceKey(a)[|DEVICE_PREFIX|..] == a && DeviceKey(b)[|DEVICE_PREFIX|..] == b;
  }

  /** Of single devices exactly those asked for and registered are produced. */
  lemma ProducedOfDevice(w: World, topics: seq<Topic>, id: string)
    requires Devices !in topics
    ensures DeviceKey(id) in KeysOf(Produce(w, topics)) ==>
              Topic.Device(id) in topics && exists d :: d in w.devices && d.id == id
    ensures forall d :: d in w.devices && d.id == id && Topic.Device(id) in topics ==>
              (DeviceKey(id), BusValue.Device(d)) in Produce(w, topics)
  {
    var devices, produced := Snapshotted(w, topics), Produce(w, topics);
    ProjectedRecords(w, devices, topics);
    if DeviceKey(id) in KeysOf(produced) {
      var i :| 0 <= i < |produced| && produced[i].0 == DeviceKey(id);
      assert produced[i] in produced;
      var t :| t in topics && produced[i] in Project(w, devices, t);
      DeviceAsked(w, devices, t, produced[i], id);
      ProducedShowsWorld(w, topics, produced[i]);
    }
    forall d | d in w.devices && d.id == id && Topic.Device(id) in topics
      ensures (DeviceKey(id), BusValue.Device(d)) in produced
    {
      DeviceRecordsAre(Chosen(devices, {id}), (DeviceKey(id), BusValue.Device(d)));
      assert (DeviceKey(id), BusValue.Device(d)) in Project(w, devices, Topic.Device(id));
    }
  }

  lemma DeviceAsked(w: World, devices: seq<WireDevice>, t: Topic, u: (string, BusValue), id: string)
    requires u in Project(w, devices, t) && u.0 == DeviceKey(id) && t != Devices
    ensures t == Topic.Device(id) && u.1.Device? && u.1.device.id == id
  {
    if t.Device? {
      DeviceRecordsAre(Chosen(devices, {t.id}), u);
      DeviceKeyIs(u.1.device.id, id);
    } else {
      assert u == Project(w, devices, t)[0];
      KeysSeparateValues(u.1, BusValue.Device(WireDevice(id, "")));
      assert false;
    }
  }

  /** Nothing under this key changed. */
  ghost predicate Same(before: map<string, BusValue>, after: map<string, BusValue>, key: string) {
    (key in after <==> key in before) && (key in before ==> after[key] == before[key])
  }

  lemma Untouched(before: Version, topics: seq<Topic>, produced: seq<(string, BusValue)>,
                  tx: Option<Transaction>, after: Version, key: string)
    requires Publishes(before, topics, produced, tx, after) && Consistent(produced)
    requires key !in KeysOf(produced) && key !in Stale(before.values, topics, produced)
    ensures Same(before.values, after.values, key)
  {
    CommitIsExact(before, topics, produced, tx, after);
    ConsistentFilter(before.values, produced);
  }

  /** A change brings exactly its records up to date: the record of each kind it concerns shows the daemon,
      and so do the devices it concerns; every other record stays as it was. */
  lemma ChangeRefreshesExactly(before: Version, change: Change, w: World, tx: Option<Transaction>, after: Version)
    requires DistinctIds(w.devices) && Keyed(before.values)
    requires Publishes(before, Topics(change), Produce(w, Topics(change)), tx, after)
    ensures forall kind: nat :: IsSingleton(kind) ==>
              if Refreshes(change, kind) then
                TopicOf(kind) in after.values && after.values[TopicOf(kind)] == WorldValue(w, kind)
              else Same(before.values, after.values, TopicOf(kind))
    ensures RefreshesAllDevices(change) ==> forall d ::
              d in w.devices <==> DeviceKey(d.id) in after.values && after.values[DeviceKey(d.id)] == BusValue.Device(d)
    ensures !RefreshesAllDevices(change) ==> forall id ::
              if RefreshesDevice(change, id) && exists d :: d in w.devices && d.id == id then
                DeviceKey(id) in after.values && after.values[DeviceKey(id)].Device?
                && after.values[DeviceKey(id)].device in w.devices && after.values[DeviceKey(id)].device.id == id
              else Same(before.values, after.values, DeviceKey(id))
  {
    TopicOfDevices(change);
    CommitShowsWorld(before, w, Topics(change), tx, after);
    forall kind: nat | IsSingleton(kind)
      ensures if Refreshes(change, kind) then
                TopicOf(kind) in after.values && after.values[TopicOf(kind)] == WorldValue(w, kind)
              else Same(before.values, after.values, TopicOf(kind))
    {
      KindRefreshes(before, change, w, tx, after, kind);
    }
    if !RefreshesAllDevices(change) {
      forall id
        ensures if RefreshesDevice(change, id) && exists d :: d in w.devices && d.id == id then
                  DeviceKey(id) in after.values && after.values[DeviceKey(id)].Device?
                  && after.values[DeviceKey(id)].device in w.devices && after.values[DeviceKey(id)].device.id == id
                else Same(before.values, after.values, DeviceKey(id))
      {
        DeviceRefreshes(before, change, w, tx, after, id);
      }
    }
  }

  lemma KindRefreshes(before: Version, change: Change, w: World, tx: Option<Transaction>, after: Version, kind: nat)
    requires DistinctIds(w.devices) && Keyed(before.values) && IsSingleton(kind)
    requires Publishes(before, Topics(change), Produce(w, Topics(change)), tx, after)
    ensures if Refreshes(change, kind) then
              TopicOf(kind) in after.values && after.values[TopicOf(kind)] == WorldValue(w, kind)
            else Same(before.values, after.values, TopicOf(kind))
  {
    var topics := Topics(change);
    TopicOfKind(change, kind);
    ProducedOfKind(w, topics, kind);
    if Refreshes(change, kind) {
      CommitShowsWorld(before, w, topics, tx, after);
      assert (TopicOf(kind), WorldValue(w, kind)) in Produce(w, topics);
    } else {
      ProducedIsConsistent(w, topics);
      TopicTellsKind(kind);
      Untouched(before, topics, Produce(w, topics), tx, after, TopicOf(kind));
    }
  }

  lemma DeviceRefreshes(before: Version, change: Change, w: World, tx: Option<Transaction>, after: Version, id: string)
    requires DistinctIds(w.devices) && Keyed(before.values) && !RefreshesAllDevices(change)
    requires Publishes(before, Topics(change), Produce(w, Topics(change)), tx, after)
    ensures if RefreshesDevice(change, id) && exists d :: d in w.devices && d.id == id then
              DeviceKey(id) in after.values && after.values[DeviceKey(id)].Device?
              && after.values[DeviceKey(id)].device in w.devices && after.values[DeviceKey(id)].device.id == id
            else Same(before.values, after.values, DeviceKey(id))
  {
    var topics := Topics(change);
    TopicOfDevices(change);
    TopicOfDevice(change, id);
    ProducedOfDevice(w, topics, id);
    if RefreshesDevice(change, id) && exists d :: d in w.devices && d.id == id {
      var d :| d in w.devices && d.id == id;
      CommitShowsWorld(before, w, topics, tx, after);
      assert (DeviceKey(id), BusValue.Device(d)) in Produce(w, topics);
    } else {
      ProducedIsConsistent(w, topics);
      Untouched(before, topics, Produce(w, topics), tx, after, DeviceKey(id));
    }
  }

  // ------------------------------ whole runs ------------------------------

  /** A semantic change, or a publication that only advances the shared counter. */
  datatype Event = Record(change: Change, w: World) | OtherPublication

  ghost predicate Happens(before: Version, e: Event, tx: Option<Transaction>, after: Version) {
    match e
    case Record(change, w) =>
      DistinctIds(w.devices) && Publishes(before, Topics(change), Produce(w, Topics(change)), tx, after)
    case OtherPublication => tx.None? && after == before.(revision := NextRevision(before.revision))
  }

  ghost predicate IsDaemonRun(events: seq<Event>, h: History) {
    && |h.versions| == |h.txs| + 1 == |events| + 1
    && h.versions[0] == Version(map[], 0)
    && forall i :: 0 <= i < |events| ==> Happens(h.versions[i], events[i], h.txs[i], h.versions[i + 1])
  }

  lemma {:induction false} RunRevisions(events: seq<Event>, h: History, i: nat)
    requires IsDaemonRun(events, h) && i <= |events| < U64_MAX
    ensures h.versions[i].revision <= i
  {
    if i > 0 {
      RunRevisions(events, h, i - 1);
      assert Happens(h.versions[i - 1], events[i - 1], h.txs[i - 1], h.versions[i]);
    }
  }

  lemma HappeningFollows(before: Version, e: Event, tx: Option<Transaction>, after: Version)
    requires Happens(before, e, tx, after) && before.revision < U64_MAX
    ensures Follows(before, tx, after)
  {
    if e.Record? {
      ProducedIsConsistent(e.w, Topics(e.change));
      CommitIsExact(before, Topics(e.change), Produce(e.w, Topics(e.change)), tx, after);
    }
  }

  /** Until its counter wraps, the daemon publishes a well-formed, strictly increasing stream. */
  lemma DaemonRunIsHistory(events: seq<Event>, h: History)
    requires IsDaemonRun(events, h) && |events| < U64_MAX
    ensures IsHistory(h)
  {
    forall i | 0 <= i < |h.txs| ensures Follows(h.versions[i], h.txs[i], h.versions[i + 1]) {
      RunRevisions(events, h, i);
      assert Happens(h.versions[i], events[i], h.txs[i], h.versions[i + 1]);
      HappeningFollows(h.versions[i], events[i], h.txs[i], h.versions[i + 1]);
    }
  }

  lemma MirrorListsTheRegistry(s: Store, before: Version, e: Event, tx: Option<Transaction>, after: Version)
    requires e.Record? && Devices in Topics(e.change) && Happens(before, e, tx, after)
    requires Mirrors(s, after.values) && Keyed(before.values)
    ensures s.devices == SortedById(e.w.devices) && ListsById(s.devices, e.w.devices)
  {
    CommitShowsWorld(before, e.w, Topics(e.change), tx, after);
    SortByIdKeeps(e.w.devices);
    SortedIsUnique(s.devices, SortedById(e.w.devices));
  }

  /** End to end: a client that has caught up with a full device projection lists exactly the
      registered devices, sorted by id, whatever it was sent before. */
  lemma ClientListsTheRegistry(events: seq<Event>, h: History, stores: seq<Store>, at: seq<nat>,
                               deliveries: seq<Delivery>, i: nat)
    requires IsDaemonRun(events, h) && |events| < U64_MAX
    requires IsClientRun(h, stores, at, deliveries) && deliveries != [] && deliveries[0].Snapshot? && 1 <= i < |stores|
    requires 1 <= at[i] <= |events| && events[at[i] - 1].Record? && Devices in Topics(events[at[i] - 1].change)
    ensures stores[i].devices == SortedById(events[at[i] - 1].w.devices)
    ensures ListsById(stores[i].devices, events[at[i] - 1].w.devices)
  {
    var k := at[i] - 1;
    assert Mirrors(stores[i], h.versions[k + 1].values) by {
      DaemonRunIsHistory(events, h);
      ClientMirrors(h, stores, at, deliveries, i);
    }
    assert Keyed(h.versions[k].values) by {
      DaemonRunIsHistory(events, h);
      VersionIsKeyed(h, k);
    }
    assert Happens(h.versions[k], events[k], h.txs[k], h.versions[k + 1]);
    MirrorListsTheRegistry(stores[i], h.versions[k], events[k], h.txs[k], h.versions[k + 1]);
  }
}
