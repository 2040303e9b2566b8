/** The state-bus wire contract and the daemon's authoritative record map. */
module Bus {
  import opened Wrappers
  import Order

  const U64_MAX: nat := 0xFFFF_FFFF_FFFF_FFFF

  const DISCOVERY := "runtime.discovery"
  const PROFILES := "effective.profiles"
  const COOLING := "effective.cooling"
  const LIGHTING := "effective.lighting"
  const LCD := "effective.lcd"
  const GUI := "config.gui"
  const HEALTH := "runtime.health"
  const PROCESS_ICONS := "runtime.process_icons"
  const PLUGINS := "runtime.plugins"
  const CONFIG_DIR := "runtime.config_dir"
  const DEVICE_PREFIX := "runtime.devices."

  function DeviceKey(id: string): string {
    DEVICE_PREFIX + id
  }

  /** What `strip_prefix(DEVICE_PREFIX)` returns. */
  function StripDevice(key: string): Option<string> {
    if DEVICE_PREFIX <= key then Some(key[|DEVICE_PREFIX|..]) else None
  }

  /** The parts of a record this model never looks into, as their serialised text. */
  type Payload = string

  datatype WireDevice = WireDevice(id: string, body: Payload)

  datatype CoolingConfig = CoolingConfig(enabled: bool, tickMs: nat, failsafeDuty: nat)

  /** Both frame-rate configs: the canvas engine's and the LCD engine's. */
  datatype FpsConfig = FpsConfig(enabled: bool, fps: nat)

  datatype BusValue =
    | Discovery(payload: Payload)
    | Device(device: WireDevice)
    | Profiles(payload: Payload)
    | Cooling(cooling: CoolingConfig, payload: Payload)
    | Lighting(fps: FpsConfig, payload: Payload)
    | Lcd(fps: FpsConfig, payload: Payload)
    | Gui(payload: Payload)
    | Health(payload: Payload)
    | ProcessIcons(payload: Payload)
    | Plugins(payload: Payload)
    | ConfigDir(payload: Payload)

  /** The kinds of value, numbered in declaration order. */
  function Kind(value: BusValue): nat {
    match value
    case Discovery(_) => 0
    case Device(_) => 1
    case Profiles(_) => 2
    case Cooling(_, _) => 3
    case Lighting(_, _) => 4
    case Lcd(_, _) => 5
    case Gui(_) => 6
    case Health(_) => 7
    case ProcessIcons(_) => 8
    case Plugins(_) => 9
    case ConfigDir(_) => 10
  }

  /** The topic of a kind that has only one. */
  function TopicOf(kind: nat): string {
    match kind
    case 0 => DISCOVERY
    case 2 => PROFILES
    case 3 => COOLING
    case 4 => LIGHTING
    case 5 => LCD
    case 6 => GUI
    case 7 => HEALTH
    case 8 => PROCESS_ICONS
    case 9 => PLUGINS
    case _ => CONFIG_DIR
  }

  /** The topic a value is published under. */
  function KeyOf(value: BusValue): string {
    if value.Device? then DeviceKey(value.device.id) else TopicOf(Kind(value))
  }

  /** Reads the kind of a value back from its topic. */
  ghost function KindOfKey(key: string): nat {
    if DEVICE_PREFIX <= key then 1
    else if |key| == 10 then 6
    else if |key| == 13 then 5
    else if |key| == 14 then 7
    else if |key| == 15 then 9
    else if |key| == 17 then if key[0] == 'r' then 0 else 3
    else if |key| == 18 then if key[10] == 'p' then 2 else if key[10] == 'l' then 4 else 10
    else 8
  }

  ghost predicate IsSingleton(kind: nat) {
    kind <= 10 && kind != 1
  }

  lemma TopicTellsKind(kind: nat)
    requires IsSingleton(kind)
    ensures KindOfKey(TopicOf(kind)) == kind && !(DEVICE_PREFIX <= TopicOf(kind))
  {
    assert DEVICE_PREFIX[0] == 'r' && DEVICE_PREFIX[8] == 'd' && DEVICE_PREFIX[9] == 'e';
    assert DISCOVERY[9] == 'i' && HEALTH[8] == 'h' && PROCESS_ICONS[8] == 'p';
    assert PLUGINS[8] == 'p' && CONFIG_DIR[8] == 'c';
    assert DISCOVERY[0] == 'r' && COOLING[0] == 'e';
    assert PROFILES[10] == 'p' && LIGHTING[10] == 'l' && CONFIG_DIR[10] == 'n';
  }

  /** Topics separate the kinds, and device topics separate the devices. */
  lemma KeysSeparateValues(v: BusValue, w: BusValue)
    ensures KeyOf(v) == KeyOf(w) <==> Kind(v) == Kind(w) && (v.Device? ==> v.device.id == w.device.id)
    ensures StripDevice(KeyOf(v)) == if v.Device? then Some(v.device.id) else None
  {
    if v.Device? {
      assert DeviceKey(v.device.id)[|DEVICE_PREFIX|..] == v.device.id;
    }
    if w.Device? {
      assert DeviceKey(w.device.id)[|DEVICE_PREFIX|..] == w.device.id;
    }
    if !v.Device? { TopicTellsKind(Kind(v)); }
    if !w.Device? { TopicTellsKind(Kind(w)); }
  }

  /** The topics as they go over the wire. */
  lemma TopicNames(p: Payload, d: WireDevice, c: CoolingConfig, f: FpsConfig)
    ensures KeyOf(Discovery(p)) == "runtime.discovery" && KeyOf(Device(d)) == "runtime.devices." + d.id
    ensures KeyOf(Profiles(p)) == "effective.profiles" && KeyOf(Cooling(c, p)) == "effective.cooling"
    ensures KeyOf(Lighting(f, p)) == "effective.lighting" && KeyOf(Lcd(f, p)) == "effective.lcd"
    ensures KeyOf(Gui(p)) == "config.gui" && KeyOf(Health(p)) == "runtime.health"
    ensures KeyOf(ProcessIcons(p)) == "runtime.process_icons" && KeyOf(Plugins(p)) == "runtime.plugins"
    ensures KeyOf(ConfigDir(p)) == "runtime.config_dir"
  {
  }

  datatype BusRecord = BusRecord(key: string, value: BusValue, revision: nat)

  datatype Transaction = Transaction(revision: nat, upserts: seq<BusRecord>, tombstones: seq<string>)

  datatype StateRecord = StateRecord(owner: string, value: BusValue, revision: nat)

  /** The retained records and the revision counter, which other publications advance too. */
  datatype State = State(records: map<string, StateRecord>, revision: nat)

  /** One `u64` step that skips zero when it wraps. */
  function NextRevision(revision: nat): nat {
    if revision >= U64_MAX then 1 else revision + 1
  }

  predicate OwnedBy(records: map<string, StateRecord>, key: string, owner: string) {
    key in records ==> records[key].owner == owner
  }

  predicate Accepts(s: State, owner: string, upserts: seq<(string, BusValue)>, tombstones: seq<string>) {
    && (forall i :: 0 <= i < |upserts| ==> upserts[i].0 != "" && OwnedBy(s.records, upserts[i].0, owner))
    && (forall i :: 0 <= i < |tombstones| ==> OwnedBy(s.records, tombstones[i], owner))
  }

  function Inserted(records: map<string, StateRecord>, owner: string, revision: nat, upserts: seq<(string, BusValue)>)
    : map<string, StateRecord>
  {
    if upserts == [] then records
    else
      var i := |upserts| - 1;
      Inserted(records, owner, revision, upserts[..i])
        [upserts[i].0 := StateRecord(owner, upserts[i].1, revision)]
  }

  function Wire(upserts: seq<(string, BusValue)>, revision: nat): (r: seq<BusRecord>)
    ensures |r| == |upserts|
  {
    seq(|upserts|, i requires 0 <= i < |upserts| => BusRecord(upserts[i].0, upserts[i].1, revision))
  }

  function Removed(records: map<string, StateRecord>, tombstones: seq<string>): map<string, StateRecord> {
    map key | key in records && key !in tombstones :: records[key]
  }

  /** Upserts first, tombstones second. */
  function Committed(s: State, owner: string, upserts: seq<(string, BusValue)>, tombstones: seq<string>): State {
    var revision := NextRevision(s.revision);
    State(Removed(Inserted(s.records, owner, revision, upserts), tombstones), revision)
  }

  /** The record map; `sent` is what the broadcast channel has been given, in order. */
  class DataBus {
    var records: map<string, StateRecord>
    var revision: nat
    var sent: seq<Transaction>

    constructor ()
      ensures Inner() == State(map[], 0) && sent == []
    {
      records, revision, sent := map[], 0, [];
    }

    function Inner(): State
      reads this
    {
      State(records, revision)
    }

    /** The first reason to refuse a commit. */
    method Objection(owner: string, upserts: seq<(string, BusValue)>, tombstones: seq<string>)
      returns (r: Option<string>)
      ensures r.None? <==> Accepts(Inner(), owner, upserts, tombstones)
    {
      for i := 0 to |upserts|
        invariant forall j :: 0 <= j < i ==> upserts[j].0 != "" && OwnedBy(records, upserts[j].0, owner)
      {
        var key := upserts[i].0;
        if key == "" {
          return Some("state topic is empty");
        }
        if key in records && records[key].owner != owner {
          return Some("state topic is owned by another producer");
        }
      }
      for i := 0 to |tombstones|
        invariant forall j :: 0 <= j < i ==> OwnedBy(records, tombstones[j], owner)
      {
        var key := tombstones[i];
        if key in records && records[key].owner != owner {
          return Some("state topic is owned by another producer");
        }
      }
      return None;
    }

    /** The retained records whose key starts with `prefix`, each once, by key, and the revision. */
    method StateSnapshot(prefix: string) returns (current: nat, records: seq<BusRecord>)
      ensures current == revision && Enumerates(records, Under(Values(Inner()), prefix))
      ensures AreOf(records, this.records) && InKeyOrder(records)
    {
      var found: seq<BusRecord> := [];
      var left := this.records;
      while left != map[]
        invariant left.Keys <= this.records.Keys && Gathered(found, this.records, left.Keys, prefix)
        decreases |left|
      {
        var key :| key in left;
        GatherOne(found, this.records, left.Keys, prefix, key);
        left := left - {key};
        if prefix <= key {
          found := found + [WireRecord(this.records, key)];
        }
      }
      SnapshotIsSorted(found);
      GatheredAll(found, this.records, prefix);
      return revision, SortedByKey(found);
    }

    /** Either the whole commit or, for a foreign or empty topic, nothing at all. */
    method CommitState(owner: string, upserts: seq<(string, BusValue)>, tombstones: seq<string>)
      returns (r: Result<Transaction, string>)
      modifies this
      ensures r.Ok? <==> Accepts(old(Inner()), owner, upserts, tombstones)
      ensures r.Ok? ==>
        && Inner() == Committed(old(Inner()), owner, upserts, tombstones)
        && r.value == Transaction(revision, Wire(upserts, revision), tombstones)
        && sent == old(sent) + [r.value]
      ensures r.Err? ==> Inner() == old(Inner()) && sent == old(sent)
    {
      var objection := Objection(owner, upserts, tombstones);
      if objection.Some? {
        return Err(objection.value);
      }
      revision := NextRevision(revision);
      var wire := [];
      for i := 0 to |upserts|
        invariant revision == NextRevision(old(revision)) && sent == old(sent)
        invariant records == Inserted(old(records), owner, revision, upserts[..i])
        invariant wire == Wire(upserts[..i], revision)
      {
        var (key, value) := upserts[i];
        assert upserts[..i + 1][..i] == upserts[..i];
        records := records[key := StateRecord(owner, value, revision)];
        wire := wire + [BusRecord(key, value, revision)];
      }
      assert upserts[..|upserts|] == upserts;
      ghost var inserted := records;
      for i := 0 to |tombstones|
        invariant revision == NextRevision(old(revision)) && sent == old(sent)
        invariant records == Removed(inserted, tombstones[..i])
      {
        records := records - {tombstones[i]};
      }
      assert tombstones[..|tombstones|] == tombstones;
      var transaction := Transaction(revision, wire, tombstones);
      sent := sent + [transaction];
      return Ok(transaction);
    }
  }

  // --------------------- what a snapshot lists ---------------------

  function WireRecord(records: map<string, StateRecord>, key: string): BusRecord
    requires key in records
  {
    BusRecord(key, records[key].value, records[key].revision)
  }

  /** Each is the retained record of its key. */
  ghost predicate AreOf(listed: seq<BusRecord>, records: map<string, StateRecord>) {
    forall i :: 0 <= i < |listed| ==> listed[i].key in records && listed[i] == WireRecord(records, listed[i].key)
  }

  predicate ByKey(a: BusRecord, b: BusRecord) {
    Order.Less(a.key, b.key)
  }

  function SortedByKey(records: seq<BusRecord>): seq<BusRecord> {
    Order.Sorted(records, ByKey)
  }

  /** Each key comes before the next in dictionary order. */
  ghost predicate InKeyOrder(records: seq<BusRecord>) {
    forall i, j :: 0 <= i < j < |records| ==> Order.Before(records[i].key, records[j].key)
  }

  ghost predicate OneEach(records: seq<BusRecord>) {
    forall i, j :: 0 <= i < j < |records| ==> records[i].key != records[j].key
  }

  /** Sorting records of distinct keys lists the same ones in dictionary order. */
  lemma SnapshotIsSorted(records: seq<BusRecord>)
    requires OneEach(records)
    ensures InKeyOrder(SortedByKey(records)) && forall r :: r in SortedByKey(records) <==> r in records
  {
    forall a, b, c | ByKey(a, b) && ByKey(b, c) ensures ByKey(a, c) {
      Order.LessIsTransitive(a.key, b.key, c.key);
    }
    forall i, j | 0 <= i < |records| && 0 <= j < |records| && i != j
      ensures ByKey(records[i], records[j]) != ByKey(records[j], records[i])
    {
      Order.LessIsTotal(records[i].key, records[j].key);
    }
    Order.SortKeeps(records, ByKey);
    var sorted := SortedByKey(records);
    forall i, j | 0 <= i < j < |sorted| ensures Order.Before(sorted[i].key, sorted[j].key) {
      assert ByKey(sorted[i], sorted[j]);
      Order.LessIff(sorted[i].key, sorted[j].key);
    }
  }

  /** The records found so far: those under the prefix that are not left, each once. */
  ghost predicate Gathered(
      found: seq<BusRecord>, records: map<string, StateRecord>, left: set<string>, prefix: string)
  {
    && AreOf(found, records) && OneEach(found)
    && (forall i :: 0 <= i < |found| ==> prefix <= found[i].key && found[i].key !in left)
    && (forall key :: key in records && key !in left && prefix <= key ==> Lists(found, key))
  }

  lemma GatherOne(found: seq<BusRecord>, records: map<string, StateRecord>, left: set<string>, prefix: string,
                  key: string)
    requires Gathered(found, records, left, prefix) && key in left && key in records
    ensures Gathered(if prefix <= key then found + [WireRecord(records, key)] else found, records, left - {key}, prefix)
  {
    if prefix <= key { AppendLists(found, WireRecord(records, key)); }
  }

  lemma GatheredAll(found: seq<BusRecord>, records: map<string, StateRecord>, prefix: string)
    requires Gathered(found, records, {}, prefix) && forall r :: r in SortedByKey(found) <==> r in found
    ensures AreOf(SortedByKey(found), records)
    ensures Enumerates(SortedByKey(found), Under(map key | key in records :: records[key].value, prefix))
  {
    var sorted := SortedByKey(found);
    forall i | 0 <= i < |sorted|
      ensures sorted[i].key in records && sorted[i] == WireRecord(records, sorted[i].key) && prefix <= sorted[i].key
    {
      assert sorted[i] in found;
    }
    forall key | key in records && prefix <= key ensures Lists(sorted, key) {
      assert Lists(found, key);
      var i :| 0 <= i < |found| && found[i].key == key;
      assert found[i] in sorted;
      var j :| 0 <= j < |sorted| && sorted[j] == found[i];
    }
  }

  // --------------------- what a commit means for the values ---------------------

  function Values(s: State): map<string, BusValue> {
    map key | key in s.records :: s.records[key].value
  }

  function Under(values: map<string, BusValue>, prefix: string): map<string, BusValue> {
    map key | key in values && prefix <= key :: values[key]
  }

  ghost predicate Lists(records: seq<BusRecord>, key: string) {
    exists i :: 0 <= i < |records| && records[i].key == key
  }

  lemma AppendLists(records: seq<BusRecord>, record: BusRecord)
    ensures Lists(records + [record], record.key)
    ensures forall key :: Lists(records, key) ==> Lists(records + [record], key)
  {
    assert (records + [record])[|records|] == record;
    forall key | Lists(records, key) ensures Lists(records + [record], key) {
      var i :| 0 <= i < |records| && records[i].key == key;
      assert (records + [record])[i] == records[i];
    }
  }

  /** The records of a snapshot: each key of the map, with its value. */
  ghost predicate Enumerates(records: seq<BusRecord>, m: map<string, BusValue>) {
    && (forall i :: 0 <= i < |records| ==> records[i].key in m && m[records[i].key] == records[i].value)
    && (forall key <- m :: Lists(records, key))
  }

  /** The last upsert of a key wins. */
  function Upserted(values: map<string, BusValue>, upserts: seq<BusRecord>): map<string, BusValue> {
    if upserts == [] then values
    else
      var i := |upserts| - 1;
      Upserted(values, upserts[..i])[upserts[i].key := upserts[i].value]
  }

  /** The values after a transaction, as the daemon applies it. */
  function After(values: map<string, BusValue>, tx: Transaction): map<string, BusValue> {
    var all := Upserted(values, tx.upserts);
    map key | key in all && key !in tx.tombstones :: all[key]
  }

  lemma {:induction false} InsertedValues(records: map<string, StateRecord>, owner: string, revision: nat,
                                          upserts: seq<(string, BusValue)>)
    ensures var after := Inserted(records, owner, revision, upserts);
            (map key | key in after :: after[key].value)
              == Upserted(map key | key in records :: records[key].value, Wire(upserts, revision))
    decreases |upserts|
  {
    if upserts != [] {
      var i := |upserts| - 1;
      InsertedValues(records, owner, revision, upserts[..i]);
      assert Wire(upserts, revision)[..i] == Wire(upserts[..i], revision);
    }
  }

  /** The transaction on the wire says exactly what the commit did to the map. */
  lemma CommitIsItsTransaction(s: State, owner: string, upserts: seq<(string, BusValue)>, tombstones: seq<string>)
    ensures var s' := Committed(s, owner, upserts, tombstones);
            Values(s') == After(Values(s), Transaction(s'.revision, Wire(upserts, s'.revision), tombstones))
  {
    var revision := NextRevision(s.revision);
    InsertedValues(s.records, owner, revision, upserts);
    var all := Upserted(Values(s), Wire(upserts, revision));
    assert forall key :: key in all <==> key in Inserted(s.records, owner, revision, upserts);
  }

  lemma {:induction false} InsertedAt(records: map<string, StateRecord>, owner: string, revision: nat,
                                      upserts: seq<(string, BusValue)>, key: string)
    ensures var r := Inserted(records, owner, revision, upserts);
            if exists i :: 0 <= i < |upserts| && upserts[i].0 == key then
              key in r && r[key].owner == owner && r[key].revision == revision
            else (key in r <==> key in records) && (key in r ==> r[key] == records[key])
    decreases |upserts|
  {
    if upserts != [] {
      var n := |upserts| - 1;
      InsertedAt(records, owner, revision, upserts[..n], key);
      if i :| 0 <= i < n && upserts[i].0 == key {
        assert upserts[..n][i].0 == key;
      }
    }
  }

  /** No producer can touch a record of another, or put one under the empty topic; what it writes carries its
      name and the new revision, and only an attempt at either is refused. */
  lemma CommitRespectsOwners(s: State, owner: string, upserts: seq<(string, BusValue)>, tombstones: seq<string>,
                             key: string)
    ensures var named := (exists i :: 0 <= i < |upserts| && upserts[i].0 == key) || key in tombstones;
            && (key in s.records && s.records[key].owner != owner && named ==> !Accepts(s, owner, upserts, tombstones))
            && (key == "" && (exists i :: 0 <= i < |upserts| && upserts[i].0 == key) ==>
                  !Accepts(s, owner, upserts, tombstones))
            && (!named ==> var s' := Committed(s, owner, upserts, tombstones);
                           (key in s'.records <==> key in s.records)
                           && (key in s.records ==> s'.records[key] == s.records[key]))
            && (named ==> var s' := Committed(s, owner, upserts, tombstones);
                          (key in s'.records <==> key !in tombstones)
                          && (key in s'.records ==>
                                s'.records[key].owner == owner && s'.records[key].revision == s'.revision))
    ensures !Accepts(s, owner, upserts, tombstones) ==>
              || (exists i :: 0 <= i < |upserts| &&
                    (upserts[i].0 == "" || (upserts[i].0 in s.records && s.records[upserts[i].0].owner != owner)))
              || (exists k :: k in tombstones && k in s.records && s.records[k].owner != owner)
    ensures Committed(s, owner, upserts, tombstones).revision ==
              if s.revision < 0xFFFF_FFFF_FFFF_FFFF then s.revision + 1 else 1
  {
    InsertedAt(s.records, owner, NextRevision(s.revision), upserts, key);
    assert forall i :: 0 <= i < |tombstones| ==> tombstones[i] in tombstones;
  }

  /** Every value sits under its own topic. */
  ghost predicate Keyed(values: map<string, BusValue>) {
    forall key <- values :: key == KeyOf(values[key])
  }

  /** What the daemon's only producer puts on the wire: keyed records, one value per key,
      tombstones for devices only, and none for a key it also upserts. */
  ghost predicate WellFormed(tx: Transaction) {
    && (forall i :: 0 <= i < |tx.upserts| ==> tx.upserts[i].key == KeyOf(tx.upserts[i].value))
    && (forall i, j :: 0 <= i < |tx.upserts| && 0 <= j < |tx.upserts| && tx.upserts[i].key == tx.upserts[j].key ==>
          tx.upserts[i].value == tx.upserts[j].value)
    && (forall i :: 0 <= i < |tx.tombstones| ==> DEVICE_PREFIX <= tx.tombstones[i])
    && (forall i, j :: 0 <= i < |tx.upserts| && 0 <= j < |tx.tombstones| ==> tx.upserts[i].key != tx.tombstones[j])
  }

  /** A key no record names keeps what it had. */
  lemma {:induction false} UpsertedMiss(values: map<string, BusValue>, upserts: seq<BusRecord>, key: string)
    requires forall i :: 0 <= i < |upserts| ==> upserts[i].key != key
    ensures key in Upserted(values, upserts) <==> key in values
    ensures key in values ==> Upserted(values, upserts)[key] == values[key]
    decreases |upserts|
  {
    if upserts != [] {
      UpsertedMiss(values, upserts[..|upserts| - 1], key);
    }
  }

  /** A key whose records agree takes their value. */
  lemma {:induction false} UpsertedHit(values: map<string, BusValue>, upserts: seq<BusRecord>, i: nat)
    requires i < |upserts|
    requires forall j :: i <= j < |upserts| && upserts[j].key == upserts[i].key ==> upserts[j].value == upserts[i].value
    ensures upserts[i].key in Upserted(values, upserts)
    ensures Upserted(values, upserts)[upserts[i].key] == upserts[i].value
    decreases |upserts|
  {
    var n := |upserts| - 1;
    if i < n {
      UpsertedHit(values, upserts[..n], i);
    }
  }
}
