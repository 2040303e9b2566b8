/** The GUI's typed mirror of the state bus. */
module TopicStore {
  import opened Wrappers
  import opened Bus
  import opened Order

  predicate ById(a: WireDevice, b: WireDevice) {
    Less(a.id, b.id)
  }

  /** What `sort_by` on the ids returns. */
  function SortedById(devices: seq<WireDevice>): seq<WireDevice> {
    Order.Sorted(devices, ById)
  }

  /** Each id comes before the next in dictionary order. */
  ghost predicate StrictlySorted(devices: seq<WireDevice>) {
    forall i, j :: 0 <= i < j < |devices| ==> Before(devices[i].id, devices[j].id)
  }

  ghost predicate DistinctIds(devices: seq<WireDevice>) {
    forall i, j :: 0 <= i < j < |devices| ==> devices[i].id != devices[j].id
  }

  lemma ByIdIsAnOrder()
    ensures Transitive(ById) && Asymmetric(ById)
  {
    forall a, b, c | ById(a, b) && ById(b, c) ensures ById(a, c) {
      LessIsTransitive(a.id, b.id, c.id);
    }
    forall a, b | ById(a, b) ensures !ById(b, a) {
      LessIsTotal(a.id, b.id);
    }
  }

  /** Sorting distinct ids lists the same devices in dictionary order. */
  lemma SortByIdKeeps(devices: seq<WireDevice>)
    requires DistinctIds(devices)
    ensures StrictlySorted(SortedById(devices))
    ensures forall x :: x in SortedById(devices) <==> x in devices
  {
    ByIdIsAnOrder();
    forall i, j | 0 <= i < |devices| && 0 <= j < |devices| && i != j
      ensures ById(devices[i], devices[j]) != ById(devices[j], devices[i])
    {
      LessIsTotal(devices[i].id, devices[j].id);
    }
    SortKeeps(devices, ById);
    var sorted := SortedById(devices);
    forall i, j | 0 <= i < j < |sorted| ensures Before(sorted[i].id, sorted[j].id) {
      assert ById(sorted[i], sorted[j]);
      LessIff(sorted[i].id, sorted[j].id);
    }
  }

  /** Exactly these devices, by id. */
  ghost predicate ListsById(listed: seq<WireDevice>, devices: seq<WireDevice>) {
    StrictlySorted(listed) && forall d :: d in listed <==> d in devices
  }

  lemma SortedIsIncreasing(devices: seq<WireDevice>)
    requires StrictlySorted(devices)
    ensures Increasing(devices, ById)
  {
    forall i, j | 0 <= i < j < |devices| ensures ById(devices[i], devices[j]) {
      LessIff(devices[i].id, devices[j].id);
    }
  }

  /** A strictly increasing list is determined by its elements. */
  lemma SortedIsUnique(a: seq<WireDevice>, b: seq<WireDevice>)
    requires StrictlySorted(a) && StrictlySorted(b) && forall x :: x in a <==> x in b
    ensures a == b
  {
    ByIdIsAnOrder();
    SortedIsIncreasing(a);
    SortedIsIncreasing(b);
    IncreasingIsUnique(a, b, ById);
  }

  const DEFAULT_COOLING := CoolingConfig(true, 2000, 75)
  const DEFAULT_FPS := FpsConfig(true, 20)

  /** The mirror's fields; a payload it has not received is empty. */
  datatype Store = Store(
    revision: nat,
    guiPresent: bool,
    discovery: Payload,
    devices: seq<WireDevice>,
    profiles: Payload,
    cooling: (CoolingConfig, Payload),
    lighting: (FpsConfig, Payload),
    lcd: (FpsConfig, Payload),
    gui: Payload,
    configDir: Payload,
    health: Payload,
    processIcons: Payload,
    plugins: Payload)

  const DEFAULT_STORE :=
    Store(0, false, "", [], "", (DEFAULT_COOLING, ""), (DEFAULT_FPS, ""), (DEFAULT_FPS, ""), "", "", "", "", "")

  function Without(devices: seq<WireDevice>, id: string): (r: seq<WireDevice>)
    ensures forall x :: x in r <==> x in devices && x.id != id
    ensures DistinctIds(devices) ==> DistinctIds(r)
  {
    if devices == [] then []
    else
      var rest := Without(devices[..|devices| - 1], id);
      var d := devices[|devices| - 1];
      assert devices == devices[..|devices| - 1] + [d];
      if d.id == id then rest else rest + [d]
  }

  /** Overwrites the first device with this id, or appends. */
  function Placed(devices: seq<WireDevice>, d: WireDevice): seq<WireDevice> {
    if devices == [] then [d]
    else if devices[0].id == d.id then [d] + devices[1..]
    else [devices[0]] + Placed(devices[1..], d)
  }

  lemma {:induction false} PlacedAt(devices: seq<WireDevice>, d: WireDevice, i: nat)
    requires i <= |devices| && (i < |devices| ==> devices[i].id == d.id)
    requires forall j :: 0 <= j < i ==> devices[j].id != d.id
    ensures Placed(devices, d) == if i < |devices| then devices[i := d] else devices + [d]
  {
    if i > 0 {
      PlacedAt(devices[1..], d, i - 1);
    }
  }

  function Recorded(s: Store, value: BusValue): Store {
    match value
    case Discovery(p) => s.(discovery := p)
    case Device(d) => s.(devices := Placed(s.devices, d))
    case Profiles(p) => s.(profiles := p)
    case Cooling(c, p) => s.(cooling := (c, p))
    case Lighting(c, p) => s.(lighting := (c, p))
    case Lcd(c, p) => s.(lcd := (c, p))
    case Gui(p) => s.(gui := p, guiPresent := true)
    case Health(p) => s.(health := p)
    case ProcessIcons(p) => s.(processIcons := p)
    case Plugins(p) => s.(plugins := p)
    case ConfigDir(p) => s.(configDir := p)
  }

  function RecordedAll(s: Store, records: seq<BusRecord>): Store {
    if records == [] then s
    else Recorded(RecordedAll(s, records[..|records| - 1]), records[|records| - 1].value)
  }

  function Buried(s: Store, tombstones: seq<string>): Store {
    if tombstones == [] then s
    else
      var before := Buried(s, tombstones[..|tombstones| - 1]);
      var id := StripDevice(tombstones[|tombstones| - 1]);
      if id.Some? then before.(devices := Without(before.devices, id.value)) else before
  }

  function Sorted(s: Store): Store {
    s.(devices := SortedById(s.devices))
  }

  function Replaced(revision: nat, records: seq<BusRecord>): Store {
    Sorted(RecordedAll(DEFAULT_STORE.(revision := revision), records))
  }

  function Applied(s: Store, tx: Transaction): Store {
    if tx.revision <= s.revision then s
    else Sorted(RecordedAll(Buried(s, tx.tombstones), tx.upserts).(revision := tx.revision))
  }

  class TopicStore {
    var revision: nat
    var guiPresent: bool
    var discovery: Payload
    var devices: seq<WireDevice>
    var profiles: Payload
    var cooling: (CoolingConfig, Payload)
    var lighting: (FpsConfig, Payload)
    var lcd: (FpsConfig, Payload)
    var gui: Payload
    var configDir: Payload
    var health: Payload
    var processIcons: Payload
    var plugins: Payload

    constructor ()
      ensures View() == DEFAULT_STORE
    {
      var d := DEFAULT_STORE;
      revision, guiPresent, discovery, devices := d.revision, d.guiPresent, d.discovery, d.devices;
      profiles := d.profiles;
      cooling, lighting, lcd := d.cooling, d.lighting, d.lcd;
      gui, configDir, health, processIcons, plugins := d.gui, d.configDir, d.health, d.processIcons, d.plugins;
    }

    function View(): Store
      reads this
    {
      Store(revision, guiPresent, discovery, devices, profiles, cooling, lighting, lcd, gui, configDir,
            health, processIcons, plugins)
    }

    method Reset()
      modifies this
      ensures View() == DEFAULT_STORE
    {
      revision, guiPresent, discovery, devices, profiles := 0, false, "", [], "";
      ResetRest();
    }

    method ResetRest()
      modifies `cooling, `lighting, `lcd, `gui, `configDir, `health, `processIcons, `plugins
      ensures cooling == (DEFAULT_COOLING, "") && lighting == lcd == (DEFAULT_FPS, "")
      ensures gui == configDir == health == processIcons == plugins == ""
    {
      cooling, lighting, lcd := (DEFAULT_COOLING, ""), (DEFAULT_FPS, ""), (DEFAULT_FPS, "");
      gui, configDir, health, processIcons, plugins := "", "", "", "", "";
    }

    method ReplaceSnapshot(snapshot: nat, records: seq<BusRecord>)
      modifies this
      ensures View() == Replaced(snapshot, records)
    {
      Reset();
      revision := snapshot;
      for i := 0 to |records|
        invariant View() == RecordedAll(DEFAULT_STORE.(revision := snapshot), records[..i])
      {
        assert records[..i + 1][..i] == records[..i];
        ApplyRecord(records[i]);
      }
      assert records[..|records|] == records;
      devices := SortedById(devices);
    }

    method ApplyTransaction(tx: Transaction)
      modifies this
      ensures View() == Applied(old(View()), tx)
    {
      if tx.revision <= revision {
        return;
      }
      for i := 0 to |tx.tombstones|
        invariant View() == Buried(old(View()), tx.tombstones[..i])
      {
        assert tx.tombstones[..i + 1][..i] == tx.tombstones[..i];
        var id := StripDevice(tx.tombstones[i]);
        if id.Some? {
          devices := Without(devices, id.value);
        }
      }
      assert tx.tombstones[..|tx.tombstones|] == tx.tombstones;
      ghost var buried := View();
      for i := 0 to |tx.upserts|
        invariant View() == RecordedAll(buried, tx.upserts[..i])
      {
        assert tx.upserts[..i + 1][..i] == tx.upserts[..i];
        ApplyRecord(tx.upserts[i]);
      }
      assert tx.upserts[..|tx.upserts|] == tx.upserts;
      revision := tx.revision;
      devices := SortedById(devices);
    }

    method ApplyRecord(record: BusRecord)
      modifies this
      ensures View() == Recorded(old(View()), record.value)
    {
      match record.value
      case Discovery(p) => discovery := p;
      case Device(d) => PlaceDevice(d);
      case Profiles(p) => profiles := p;
      case Cooling(c, p) => cooling := (c, p);
      case Lighting(c, p) => lighting := (c, p);
      case Lcd(c, p) => lcd := (c, p);
      case Gui(p) => gui := p; guiPresent := true;
      case Health(p) => health := p;
      case ProcessIcons(p) => processIcons := p;
      case Plugins(p) => plugins := p;
      case ConfigDir(p) => configDir := p;
    }

    method PlaceDevice(d: WireDevice)
      modifies this`devices
      ensures devices == Placed(old(devices), d)
    {
      var i := 0;
      while i < |devices| && devices[i].id != d.id
        invariant 0 <= i <= |devices|
        invariant forall j :: 0 <= j < i ==> devices[j].id != d.id
      {
        i := i + 1;
      }
      PlacedAt(devices, d, i);
      devices := if i < |devices| then devices[i := d] else devices + [d];
    }
  }

  // ------------------------- the mirror relation -------------------------

  /** What the mirror shows of a kind that has one topic. */
  ghost function Shown(s: Store, kind: nat): BusValue {
    match kind
    case 0 => Discovery(s.discovery)
    case 2 => Profiles(s.profiles)
    case 3 => Cooling(s.cooling.0, s.cooling.1)
    case 4 => Lighting(s.lighting.0, s.lighting.1)
    case 5 => Lcd(s.lcd.0, s.lcd.1)
    case 6 => Gui(s.gui)
    case 7 => Health(s.health)
    case 8 => ProcessIcons(s.processIcons)
    case 9 => Plugins(s.plugins)
    case _ => ConfigDir(s.configDir)
  }

  ghost predicate ShowsSingletons(s: Store, m: map<string, BusValue>) {
    && s.guiPresent == (GUI in m)
    && forall kind :: 0 <= kind && IsSingleton(kind) ==>
         Shown(s, kind) == if TopicOf(kind) in m then m[TopicOf(kind)] else Shown(DEFAULT_STORE, kind)
  }

  ghost predicate ShowsDevices(devices: seq<WireDevice>, m: map<string, BusValue>) {
    forall d :: d in devices <==> DeviceKey(d.id) in m && m[DeviceKey(d.id)] == Device(d)
  }

  /** Before the sort: the right contents, each device once, in any order. */
  ghost predicate Holds(s: Store, m: map<string, BusValue>) {
    ShowsSingletons(s, m) && ShowsDevices(s.devices, m) && DistinctIds(s.devices)
  }

  /** The mirror: the right contents, and the devices strictly increasing by id. */
  ghost predicate Mirrors(s: Store, m: map<string, BusValue>) {
    ShowsSingletons(s, m) && ShowsDevices(s.devices, m) && StrictlySorted(s.devices)
  }

  /** A map and a revision leave no freedom in the mirror. */
  lemma MirrorIsUnique(a: Store, b: Store, m: map<string, BusValue>)
    requires Mirrors(a, m) && Mirrors(b, m) && a.revision == b.revision
    ensures a == b
  {
    SortedIsUnique(a.devices, b.devices);
    forall kind | 0 <= kind && IsSingleton(kind) ensures Shown(a, kind) == Shown(b, kind) {
    }
    assert Shown(a, 0) == Shown(b, 0) && Shown(a, 2) == Shown(b, 2) && Shown(a, 3) == Shown(b, 3)
        && Shown(a, 4) == Shown(b, 4) && Shown(a, 5) == Shown(b, 5) && Shown(a, 6) == Shown(b, 6)
        && Shown(a, 7) == Shown(b, 7) && Shown(a, 8) == Shown(b, 8) && Shown(a, 9) == Shown(b, 9)
        && Shown(a, 10) == Shown(b, 10);
  }

  lemma SortMirrors(s: Store, m: map<string, BusValue>)
    requires Holds(s, m)
    ensures Mirrors(Sorted(s), m)
  {
    SortByIdKeeps(s.devices);
  }

  lemma {:induction false} PlacedKeeps(devices: seq<WireDevice>, d: WireDevice)
    requires DistinctIds(devices)
    ensures DistinctIds(Placed(devices, d))
    ensures forall x :: x in Placed(devices, d) <==> x == d || (x in devices && x.id != d.id)
  {
    if devices != [] {
      assert devices == [devices[0]] + devices[1..];
      if devices[0].id == d.id {
        assert forall x :: x in devices[1..] ==> x.id != d.id;
      } else {
        PlacedKeeps(devices[1..], d);
        var rest := Placed(devices[1..], d);
        forall i | 0 <= i < |rest| ensures rest[i].id != devices[0].id {
          assert rest[i] in rest;
        }
      }
    }
  }

  /** Applying one record is updating one key. */
  lemma RecordHolds(s: Store, m: map<string, BusValue>, v: BusValue)
    requires Holds(s, m)
    ensures Holds(Recorded(s, v), m[KeyOf(v) := v])
  {
    var s' := Recorded(s, v);
    var m' := m[KeyOf(v) := v];
    forall kind | 0 <= kind && IsSingleton(kind)
      ensures Shown(s', kind) == if TopicOf(kind) in m' then m'[TopicOf(kind)] else Shown(DEFAULT_STORE, kind)
    {
      TopicTellsKind(kind);
      KeyOfKind(v);
      assert Shown(s', kind) == if kind == Kind(v) then v else Shown(s, kind);
    }
    KeyOfKind(v);
    TopicTellsKind(6);
    if v.Device? {
      PlacedKeeps(s.devices, v.device);
    }
    forall d: WireDevice
      ensures d in s'.devices <==> DeviceKey(d.id) in m' && m'[DeviceKey(d.id)] == Device(d)
    {
      KeysSeparateValues(v, Device(d));
    }
  }

  lemma KeyOfKind(v: BusValue)
    ensures KindOfKey(KeyOf(v)) == Kind(v)
  {
    if !v.Device? { TopicTellsKind(Kind(v)); }
  }

  /** Whatever one record keeps, any number of records keep. */
  lemma {:induction false} RecordsKeep(
      inv: Relation, s: Store, m: map<string, BusValue>, records: seq<BusRecord>)
    requires inv(s, m)
    requires forall t, n, v: BusValue :: inv(t, n) ==> inv(Recorded(t, v), n[KeyOf(v) := v])
    requires forall i :: 0 <= i < |records| ==> records[i].key == KeyOf(records[i].value)
    ensures inv(RecordedAll(s, records), Upserted(m, records))
    decreases |records|
  {
    if records != [] {
      RecordsKeep(inv, s, m, records[..|records| - 1]);
    }
  }

  lemma RecordsHold(s: Store, m: map<string, BusValue>, records: seq<BusRecord>)
    requires Holds(s, m)
    requires forall i :: 0 <= i < |records| ==> records[i].key == KeyOf(records[i].value)
    ensures Holds(RecordedAll(s, records), Upserted(m, records))
  {
    forall t, n, v: BusValue | Holds(t, n) ensures Holds(Recorded(t, v), n[KeyOf(v) := v]) {
      RecordHolds(t, n, v);
    }
    RecordsKeep(Holds, s, m, records);
  }

  lemma {:induction false} RevisionStays(s: Store, tombstones: seq<string>, records: seq<BusRecord>)
    ensures Buried(s, tombstones).revision == s.revision
    ensures RecordedAll(s, records).revision == s.revision
    decreases |tombstones| + |records|
  {
    if tombstones != [] {
      RevisionStays(s, tombstones[..|tombstones| - 1], records);
    }
    if records != [] {
      RevisionStays(s, tombstones, records[..|records| - 1]);
    }
  }

  /** Burying one device tombstone is removing its key. */
  lemma TombstoneHolds(s: Store, m: map<string, BusValue>, id: string)
    requires Holds(s, m)
    ensures Holds(s.(devices := Without(s.devices, id)), m - {DeviceKey(id)})
  {
    var s' := s.(devices := Without(s.devices, id));
    var m' := m - {DeviceKey(id)};
    assert DEVICE_PREFIX <= DeviceKey(id);
    forall kind | 0 <= kind && IsSingleton(kind)
      ensures Shown(s', kind) == if TopicOf(kind) in m' then m'[TopicOf(kind)] else Shown(DEFAULT_STORE, kind)
    {
      TopicTellsKind(kind);
      assert Shown(s', kind) == Shown(s, kind);
    }
    TopicTellsKind(6);
    forall d: WireDevice
      ensures d in s'.devices <==> DeviceKey(d.id) in m' && m'[DeviceKey(d.id)] == Device(d)
    {
      assert DeviceKey(d.id)[|DEVICE_PREFIX|..] == d.id;
      assert DeviceKey(id)[|DEVICE_PREFIX|..] == id;
    }
  }

  ghost function Spared(m: map<string, BusValue>, tombstones: seq<string>): map<string, BusValue> {
    map key | key in m && key !in tombstones :: m[key]
  }

  lemma SparedOnceMore(m: map<string, BusValue>, front: seq<string>, gone: string)
    ensures Spared(m, front + [gone]) == Spared(m, front) - {gone}
  {
  }

  lemma BuriedOnceMore(s: Store, front: seq<string>, gone: string) returns (id: string)
    requires DEVICE_PREFIX <= gone
    ensures gone == DeviceKey(id)
    ensures Buried(s, front + [gone]) == Buried(s, front).(devices := Without(Buried(s, front).devices, id))
  {
    id := gone[|DEVICE_PREFIX|..];
    assert (front + [gone])[..|front|] == front;
  }

  type Relation = (Store, map<string, BusValue>) -> bool

  /** The relation survives one more tombstone. */
  ghost predicate BuriesOne(inv: Relation, s: Store, m: map<string, BusValue>, front: seq<string>, gone: string) {
    inv(Buried(s, front), Spared(m, front)) ==> inv(Buried(s, front + [gone]), Spared(m, front + [gone]))
  }

  lemma TombstoneBuries(s: Store, m: map<string, BusValue>, front: seq<string>, gone: string)
    requires DEVICE_PREFIX <= gone
    ensures BuriesOne(Holds, s, m, front, gone)
  {
    SparedOnceMore(m, front, gone);
    var id := BuriedOnceMore(s, front, gone);
    if Holds(Buried(s, front), Spared(m, front)) {
      TombstoneHolds(Buried(s, front), Spared(m, front), id);
    }
  }

  lemma NothingSpared(s: Store, m: map<string, BusValue>)
    ensures Buried(s, []) == s && Spared(m, []) == m
  {
  }

  lemma {:induction false} TombstonesKeep(inv: Relation, s: Store, m: map<string, BusValue>, tombstones: seq<string>,
                                          n: nat)
    requires inv(s, m) && n <= |tombstones|
    requires forall i :: 0 <= i < |tombstones| ==> BuriesOne(inv, s, m, tombstones[..i], tombstones[i])
    ensures inv(Buried(s, tombstones[..n]), Spared(m, tombstones[..n]))
  {
    if n == 0 {
      NothingSpared(s, m);
    } else {
      TombstonesKeep(inv, s, m, tombstones, n - 1);
      assert BuriesOne(inv, s, m, tombstones[..n - 1], tombstones[n - 1]);
      assert tombstones[..n] == tombstones[..n - 1] + [tombstones[n - 1]];
    }
  }

  lemma TombstonesHold(s: Store, m: map<string, BusValue>, tombstones: seq<string>)
    requires Holds(s, m)
    requires forall i :: 0 <= i < |tombstones| ==> DEVICE_PREFIX <= tombstones[i]
    ensures Holds(Buried(s, tombstones), Spared(m, tombstones))
  {
    forall i | 0 <= i < |tombstones| ensures BuriesOne(Holds, s, m, tombstones[..i], tombstones[i]) {
      TombstoneBuries(s, m, tombstones[..i], tombstones[i]);
    }
    TombstonesKeep(Holds, s, m, tombstones, |tombstones|);
    assert tombstones[..|tombstones|] == tombstones;
  }

  /** Taking a snapshot, in whatever order its records come, shows exactly that snapshot. */
  lemma SnapshotMirrors(revision: nat, records: seq<BusRecord>, m: map<string, BusValue>)
    requires Keyed(m) && Enumerates(records, m)
    ensures Mirrors(Replaced(revision, records), m) && Replaced(revision, records).revision == revision
  {
    var start := DEFAULT_STORE.(revision := revision);
    RecordsHold(start, map[], records);
    RevisionStays(start, [], records);
    EnumeratedMap(records, m);
    SortMirrors(RecordedAll(start, records), m);
  }

  lemma EnumeratedMap(records: seq<BusRecord>, m: map<string, BusValue>)
    requires Enumerates(records, m)
    ensures Upserted(map[], records) == m
  {
    forall key ensures key in Upserted(map[], records) <==> key in m
    {
      if key in m {
        var i :| 0 <= i < |records| && records[i].key == key;
        UpsertedHit(map[], records, i);
      } else {
        UpsertedMiss(map[], records, key);
      }
    }
    forall key | key in m ensures Upserted(map[], records)[key] == m[key] {
      var i :| 0 <= i < |records| && records[i].key == key;
      UpsertedHit(map[], records, i);
    }
  }

  /** A newer transaction carries the mirror along with the map. The mirror drops tombstones
      before it upserts and the daemon after; no key being both is what makes that agree. */
  lemma TransactionMirrors(s: Store, m: map<string, BusValue>, tx: Transaction)
    requires Mirrors(s, m) && Keyed(m) && WellFormed(tx) && tx.revision > s.revision
    ensures Mirrors(Applied(s, tx), After(m, tx)) && Applied(s, tx).revision == tx.revision
  {
    SortedIsDistinct(s.devices);
    TombstonesHold(s, m, tx.tombstones);
    RecordsHold(Buried(s, tx.tombstones), Spared(m, tx.tombstones), tx.upserts);
    OrderIsImmaterial(m, tx);
    var all := RecordedAll(Buried(s, tx.tombstones), tx.upserts);
    RevisionIsNotShown(all, tx.revision, After(m, tx));
    SortMirrors(all.(revision := tx.revision), After(m, tx));
  }

  lemma RevisionIsNotShown(s: Store, revision: nat, m: map<string, BusValue>)
    requires Holds(s, m)
    ensures Holds(s.(revision := revision), m)
  {
    assert forall kind :: 0 <= kind && IsSingleton(kind) ==> Shown(s.(revision := revision), kind) == Shown(s, kind);
  }

  lemma SortedIsDistinct(devices: seq<WireDevice>)
    requires StrictlySorted(devices)
    ensures DistinctIds(devices)
  {
    forall i, j | 0 <= i < j < |devices| ensures devices[i].id != devices[j].id {
      LessIff(devices[i].id, devices[j].id);
      LessIsTotal(devices[i].id, devices[j].id);
    }
  }

  lemma OrderIsImmaterial(m: map<string, BusValue>, tx: Transaction)
    requires WellFormed(tx)
    ensures Upserted(Spared(m, tx.tombstones), tx.upserts) == After(m, tx)
  {
    var left := Spared(m, tx.tombstones);
    var l := Upserted(left, tx.upserts);
    forall key ensures key in l <==> key in After(m, tx)
               ensures key in l ==> l[key] == After(m, tx)[key]
    {
      if i :| 0 <= i < |tx.upserts| && tx.upserts[i].key == key {
        UpsertedHit(left, tx.upserts, i);
        UpsertedHit(m, tx.upserts, i);
      } else {
        UpsertedMiss(left, tx.upserts, key);
        UpsertedMiss(m, tx.upserts, key);
      }
    }
  }

  /** Keyed maps stay keyed. */
  lemma AfterIsKeyed(m: map<string, BusValue>, tx: Transaction)
    requires Keyed(m) && WellFormed(tx)
    ensures Keyed(After(m, tx))
  {
    forall key | key in After(m, tx) ensures key == KeyOf(After(m, tx)[key]) {
      if i :| 0 <= i < |tx.upserts| && tx.upserts[i].key == key {
        UpsertedHit(m, tx.upserts, i);
      } else {
        UpsertedMiss(m, tx.upserts, key);
      }
    }
  }

  // ------------------------- replication over whole runs -------------------------

  /** The daemon's map and counter after each event; an event that publishes nothing, or only
      advances the counter, has no transaction. */
  datatype Version = Version(values: map<string, BusValue>, revision: nat)

  datatype History = History(versions: seq<Version>, txs: seq<Option<Transaction>>)

  ghost predicate IsHistory(h: History) {
    && |h.versions| == |h.txs| + 1
    && Keyed(h.versions[0].values)
    && forall i :: 0 <= i < |h.txs| ==> Follows(h.versions[i], h.txs[i], h.versions[i + 1])
  }

  ghost predicate Follows(before: Version, tx: Option<Transaction>, after: Version) {
    match tx
    case None => after.values == before.values && after.revision >= before.revision
    case Some(t) =>
      && WellFormed(t) && after.values == After(before.values, t)
      && before.revision < after.revision == t.revision
  }

  /** What reaches the client: a snapshot of some version, or the transaction of some event. */
  datatype Delivery = Snapshot(version: nat, records: seq<BusRecord>) | Tx(event: nat)

  /** The version the client has caught up with. */
  ghost function Caught(h: History, at: nat, d: Delivery): nat {
    match d
    case Snapshot(i, _) => i
    case Tx(j) => if j < at then at else j + 1
  }

  /** A delivery may be any snapshot, any transaction already covered, or the next one. */
  ghost predicate Deliverable(h: History, at: nat, d: Delivery) {
    match d
    case Snapshot(i, records) => i < |h.versions| && Enumerates(records, h.versions[i].values)
    case Tx(j) => j < |h.txs| && h.txs[j].Some? && forall i :: at <= i < j ==> h.txs[i].None?
  }

  ghost function Delivered(h: History, s: Store, d: Delivery): Store
    requires d.Snapshot? ==> d.version < |h.versions|
    requires d.Tx? ==> d.event < |h.txs| && h.txs[d.event].Some?
  {
    match d
    case Snapshot(i, records) => Replaced(h.versions[i].revision, records)
    case Tx(j) => Applied(s, h.txs[j].value)
  }

  /** The client's run: stores, the versions they have caught up with, and the deliveries between. */
  ghost predicate IsClientRun(h: History, stores: seq<Store>, at: seq<nat>, deliveries: seq<Delivery>) {
    && |stores| == |at| == |deliveries| + 1
    && stores[0] == DEFAULT_STORE && at[0] == 0
    && forall i :: 0 <= i < |deliveries| ==>
         && at[i] < |h.versions| && Deliverable(h, at[i], deliveries[i])
         && stores[i + 1] == Delivered(h, stores[i], deliveries[i])
         && at[i + 1] == Caught(h, at[i], deliveries[i])
  }

  lemma FollowsKeepsKeyed(before: Version, tx: Option<Transaction>, after: Version)
    requires Follows(before, tx, after) && Keyed(before.values)
    ensures Keyed(after.values)
  {
    if tx.Some? { AfterIsKeyed(before.values, tx.value); }
  }

  lemma {:induction false} VersionsKeep(inv: map<string, BusValue> -> bool, versions: seq<Version>, i: nat)
    requires i < |versions| && inv(versions[0].values)
    requires forall j :: 0 <= j < |versions| - 1 && inv(versions[j].values) ==> inv(versions[j + 1].values)
    ensures inv(versions[i].values)
  {
    if i > 0 { VersionsKeep(inv, versions, i - 1); }
  }

  lemma VersionIsKeyed(h: History, i: nat)
    requires IsHistory(h) && i < |h.versions|
    ensures Keyed(h.versions[i].values)
  {
    forall j | 0 <= j < |h.txs| && Keyed(h.versions[j].values) ensures Keyed(h.versions[j + 1].values) {
      FollowsKeepsKeyed(h.versions[j], h.txs[j], h.versions[j + 1]);
    }
    VersionsKeep(Keyed, h.versions, i);
  }

  lemma {:induction false} HistoryGrows(h: History, i: nat, j: nat)
    requires IsHistory(h) && i <= j < |h.versions|
    ensures h.versions[i].revision <= h.versions[j].revision
    ensures (forall k :: i <= k < j ==> h.txs[k].None?) ==> h.versions[j].values == h.versions[i].values
    ensures i < j && h.txs[i].Some? ==> h.txs[i].value.revision <= h.versions[j].revision
  {
    if i < j {
      HistoryGrows(h, i, j - 1);
      assert Follows(h.versions[j - 1], h.txs[j - 1], h.versions[j]);
    }
  }

  /** Once the client has taken any snapshot, every delivery leaves it equal to the daemon's map
      at the version it has caught up with: devices strictly sorted, nothing missing or stale. */
  lemma {:induction false} ClientMirrors(h: History, stores: seq<Store>, at: seq<nat>,
                                         deliveries: seq<Delivery>, i: nat)
    requires IsHistory(h) && IsClientRun(h, stores, at, deliveries)
    requires deliveries != [] && deliveries[0].Snapshot? && 1 <= i < |stores|
    ensures at[i] < |h.versions| && Mirrors(stores[i], h.versions[at[i]].values)
    ensures stores[i].revision == h.versions[at[i]].revision
  {
    var d := deliveries[i - 1];
    if i > 1 { ClientMirrors(h, stores, at, deliveries, i - 1); }
    match d
    case Snapshot(v, records) =>
      VersionIsKeyed(h, v);
      SnapshotMirrors(h.versions[v].revision, records, h.versions[v].values);
    case Tx(j) =>
      if j < at[i - 1] {
        HistoryGrows(h, j, at[i - 1]);
      } else {
        HistoryGrows(h, at[i - 1], j);
        VersionIsKeyed(h, j);
        assert Follows(h.versions[j], h.txs[j], h.versions[j + 1]);
        TransactionMirrors(stores[i - 1], h.versions[j].values, h.txs[j].value);
      }
  }

  /** The client equals the daemon once no published transaction is left to deliver. */
  lemma {:induction false} CaughtUpClientEqualsDaemon(h: History, stores: seq<Store>, at: seq<nat>,
                                                      deliveries: seq<Delivery>)
    requires IsHistory(h) && IsClientRun(h, stores, at, deliveries)
    requires deliveries != [] && deliveries[0].Snapshot?
    requires forall k :: at[|deliveries|] <= k < |h.txs| ==> h.txs[k].None?
    ensures Mirrors(stores[|deliveries|], h.versions[|h.txs|].values)
  {
    ClientMirrors(h, stores, at, deliveries, |deliveries|);
    HistoryGrows(h, at[|deliveries|], |h.txs|);
  }

  // ------------------------- when the counter wraps -------------------------

  /** The revision after `n` publications of one daemon, and how often the counter has wrapped. */
  function RevisionAt(n: nat): nat {
    if n == 0 then 0 else 1 + (n - 1) % U64_MAX
  }

  function Lap(n: nat): nat {
    if n == 0 then 0 else (n - 1) / U64_MAX
  }

  lemma RevisionSteps(n: nat)
    ensures RevisionAt(n + 1) == NextRevision(RevisionAt(n)) && RevisionAt(n) <= U64_MAX
  {
    if n > 0 {
      var q, r := Lap(n), RevisionAt(n);
      assert n == q * U64_MAX + r;
    }
  }

  /** Over one lap of the counter, a later publication has a higher revision exactly when the counter
      has not wrapped in between. */
  lemma LaterRevision(n: nat, later: nat)
    requires n < later <= n + U64_MAX
    ensures RevisionAt(later) > RevisionAt(n) <==> Lap(later) == Lap(n)
    ensures Lap(n) <= Lap(later) <= Lap(n) + 1
  {
  }

  /** A client that holds the revision of the daemon's publication `since` is sent transactions, and
      nothing else, over at most one lap of the counter. */
  ghost predicate Listens(since: nat, counts: seq<nat>, txs: seq<Transaction>, stores: seq<Store>) {
    && |stores| == |txs| + 1 && |counts| == |txs| && stores[0].revision == RevisionAt(since)
    && (forall i :: 0 <= i < |txs| ==> since < counts[i] <= since + U64_MAX)
    && (forall i, j :: 0 <= i < j < |txs| ==> counts[i] < counts[j])
    && forall i :: 0 <= i < |txs| ==>
         txs[i].revision == RevisionAt(counts[i]) && stores[i + 1] == Applied(stores[i], txs[i])
  }

  /** The last publication heard of the first `i` before the counter wrapped. */
  ghost function LastHeard(since: nat, counts: seq<nat>, i: nat): nat
    requires i <= |counts|
  {
    if i == 0 then since
    else if Lap(counts[i - 1]) == Lap(since) then counts[i - 1]
    else LastHeard(since, counts, i - 1)
  }

  lemma {:induction false} HoldsLastHeard(since: nat, counts: seq<nat>, txs: seq<Transaction>,
                                          stores: seq<Store>, i: nat)
    requires Listens(since, counts, txs, stores) && i <= |txs|
    ensures var last := LastHeard(since, counts, i);
            && since <= last <= since + U64_MAX && Lap(last) == Lap(since) && stores[i].revision == RevisionAt(last)
            && forall j :: i <= j < |txs| ==> last < counts[j]
  {
    if i > 0 {
      HoldsLastHeard(since, counts, txs, stores, i - 1);
      LaterRevision(LastHeard(since, counts, i - 1), counts[i - 1]);
    }
  }

  /** Over any run of commits a client takes in exactly those before the counter wraps, each of which
      changes what it holds; to all after that it is deaf, and keeps the store it had. */
  lemma {:induction false} HeardUntilTheCounterWraps(since: nat, counts: seq<nat>, txs: seq<Transaction>,
                                                     stores: seq<Store>, i: nat)
    requires Listens(since, counts, txs, stores) && i < |txs|
    ensures stores[i + 1] != stores[i] <==> txs[i].revision > stores[i].revision
    ensures stores[i + 1] != stores[i] <==> Lap(counts[i]) == Lap(since)
    ensures Lap(counts[i]) != Lap(since) ==> forall j :: i <= j < |stores| ==> stores[j] == stores[i]
    decreases |txs| - i
  {
    var last := LastHeard(since, counts, i);
    HoldsLastHeard(since, counts, txs, stores, i);
    LaterRevision(last, counts[i]);
    if Lap(counts[i]) != Lap(since) && i + 1 < |txs| {
      LaterLap(since, counts[i], counts[i + 1]);
      HeardUntilTheCounterWraps(since, counts, txs, stores, i + 1);
    }
  }

  lemma LaterLap(since: nat, n: nat, later: nat)
    requires since < n < later && Lap(n) != Lap(since)
    ensures Lap(later) != Lap(since)
  {
  }

  /** The maps the commits of a run leave, from `m` on. */
  ghost function MapAfter(m: map<string, BusValue>, txs: seq<Transaction>, i: nat): map<string, BusValue>
    requires i <= |txs|
  {
    if i == 0 then m else After(MapAfter(m, txs, i - 1), txs[i - 1])
  }

  lemma HearsOne(s: Store, m: map<string, BusValue>, tx: Transaction)
    requires Mirrors(s, m) && Keyed(m) && WellFormed(tx) && Applied(s, tx) != s
    ensures Mirrors(Applied(s, tx), After(m, tx)) && Keyed(After(m, tx))
  {
    AfterIsKeyed(m, tx);
    TransactionMirrors(s, m, tx);
  }

  ghost predicate Mirroring(s: Store, m: map<string, BusValue>) {
    Mirrors(s, m) && Keyed(m)
  }

  lemma {:induction false} HearsAll(inv: Relation, m: map<string, BusValue>,
                                    txs: seq<Transaction>, stores: seq<Store>, i: nat)
    requires i <= |txs| && |stores| == |txs| + 1 && inv(stores[0], m)
    requires forall j, n :: 0 <= j < i && inv(stores[j], n) ==> inv(stores[j + 1], After(n, txs[j]))
    ensures inv(stores[i], MapAfter(m, txs, i))
  {
    if i > 0 {
      HearsAll(inv, m, txs, stores, i - 1);
    }
  }

  /** What it takes in, it takes in whole: until the wrap the client mirrors the daemon's map. */
  lemma MirrorsUntilTheCounterWraps(since: nat, counts: seq<nat>, txs: seq<Transaction>, stores: seq<Store>,
                                    m: map<string, BusValue>, i: nat)
    requires Listens(since, counts, txs, stores) && i <= |txs| && Mirrors(stores[0], m) && Keyed(m)
    requires forall j :: 0 <= j < i ==> WellFormed(txs[j]) && Lap(counts[j]) == Lap(since)
    ensures Mirrors(stores[i], MapAfter(m, txs, i)) && Keyed(MapAfter(m, txs, i))
  {
    forall j, n | 0 <= j < i && Mirroring(stores[j], n) ensures Mirroring(stores[j + 1], After(n, txs[j])) {
      HeardUntilTheCounterWraps(since, counts, txs, stores, j);
      HearsOne(stores[j], n, txs[j]);
    }
    HearsAll(Mirroring, m, txs, stores, i);
  }
}
