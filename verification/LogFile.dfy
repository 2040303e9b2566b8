/** The broker's size-rotated log file. */
module LogFile {
  const MAX_LOG_BYTES: nat := 5 * 1024 * 1024
  const MAX_ROTATED: nat := 3

  /** Files by rotation index: 0 is the live one, `i` the one with suffix `.i`. A character is a byte. */
  type Disk = map<nat, string>

  datatype Level = Error | Warn | Info | Debug | Trace

  datatype Record = Record(level: Level, args: string)

  predicate Enabled(level: Level) {
    !level.Trace?
  }

  function LevelName(level: Level): string {
    match level
    case Error => "ERROR"
    case Warn => "WARN"
    case Info => "INFO"
    case Debug => "DEBUG"
    case Trace => "TRACE"
  }

  function Line(record: Record): (line: string)
    ensures |line| > 0
  {
    "[" + LevelName(record.level) + "] " + record.args + "\n"
  }

  // ------------------------------ rotation ------------------------------

  /** A rename of a file that is not there fails and changes nothing. */
  function Renamed(disk: Disk, a: nat, b: nat): Disk
    requires a != b
  {
    if a in disk then (disk - {a})[b := disk[a]] else disk
  }

  /** Whether a file stands at `i` once every file up to `keep` is one place older. */
  predicate ShiftsTo(disk: Disk, keep: nat, i: nat) {
    i > 0 && if i <= keep then i - 1 in disk else i in disk
  }

  function Successors(s: set<nat>): set<nat> {
    set j | j in s :: j + 1
  }

  /** Every file up to `keep` one place older, the one at `keep` dropped, and no live file left. */
  ghost function Shifted(disk: Disk, keep: nat): Disk {
    map i | i in disk.Keys + Successors(disk.Keys) && ShiftsTo(disk, keep, i) ::
      if i <= keep then disk[i - 1] else disk[i]
  }

  lemma ShiftedAt(disk: Disk, keep: nat, i: nat)
    ensures i in Shifted(disk, keep) <==> i > 0 && if i <= keep then i - 1 in disk else i in disk
    ensures i in Shifted(disk, keep) ==> Shifted(disk, keep)[i] == if i <= keep then disk[i - 1] else disk[i]
  {
    if 0 < i <= keep && i - 1 in disk {
      assert (i - 1) + 1 in Successors(disk.Keys);
    }
  }

  /** The same said of one index at a time. */
  ghost predicate ShiftedTo(disk: Disk, keep: nat, r: Disk, i: nat) {
    (i in r <==> ShiftsTo(disk, keep, i)) && (i in r ==> r[i] == if i <= keep then disk[i - 1] else disk[i])
  }

  lemma IsShifted(disk: Disk, keep: nat, r: Disk)
    requires forall i: nat :: ShiftedTo(disk, keep, r, i)
    ensures r == Shifted(disk, keep)
  {
    forall i: nat
      ensures i in r <==> i in Shifted(disk, keep)
      ensures i in r ==> r[i] == Shifted(disk, keep)[i]
    {
      assert ShiftedTo(disk, keep, r, i);
      ShiftedAt(disk, keep, i);
    }
  }

  method ShiftRotations(disk: Disk, keep: nat) returns (r: Disk)
    requires keep >= 1
    ensures r == Shifted(disk, keep)
  {
    r := disk - {keep};
    var index := keep - 1;
    while index >= 1
      invariant 0 <= index < keep
      invariant forall i: nat :: i <= index || i > keep ==> (i in r <==> i in disk) && (i in r ==> r[i] == disk[i])
      invariant index + 1 !in r
      invariant forall i: nat :: index + 1 < i <= keep ==> ShiftedTo(disk, keep, r, i)
    {
      ghost var before := r;
      r := Renamed(r, index, index + 1);
      forall i: nat | index < i <= keep ensures ShiftedTo(disk, keep, r, i) {
        if i > index + 1 { assert ShiftedTo(disk, keep, before, i); }
      }
      index := index - 1;
    }
    ghost var before := r;
    r := Renamed(r, 0, 1);
    forall i: nat ensures ShiftedTo(disk, keep, r, i) {
      if 1 < i <= keep { assert ShiftedTo(disk, keep, before, i); }
    }
    IsShifted(disk, keep, r);
  }

  /** Opening creates the live file when it is missing. */
  function Opened(disk: Disk): (d: Disk)
    ensures 0 in d
  {
    if 0 in disk then disk else disk[0 := ""]
  }

  // ------------------------------ the logger ------------------------------

  datatype State = State(disk: Disk, written: nat)

  function Live(disk: Disk): string {
    if 0 in disk then disk[0] else ""
  }

  ghost function Started(disk: Disk): State {
    State(Opened(disk), |Live(Opened(disk))|)
  }

  ghost function Appended(s: State, line: string): State {
    State(s.disk[0 := Live(s.disk) + line], s.written + |line|)
  }

  ghost function Logged(s: State, record: Record): State {
    if !Enabled(record.level) then s
    else
      var t := Appended(s, Line(record));
      if t.written >= MAX_LOG_BYTES then Started(Shifted(t.disk, MAX_ROTATED)) else t
  }

  class FileLogger {
    var disk: Disk
    var written: nat

    constructor (found: Disk)
      ensures View() == Started(found)
    {
      disk := Opened(found);
      written := |Live(Opened(found))|;
    }

    ghost function View(): State
      reads this
    {
      State(disk, written)
    }

    method Rotate()
      modifies this
      ensures View() == Started(Shifted(old(disk), MAX_ROTATED))
    {
      var shifted := ShiftRotations(disk, MAX_ROTATED);
      disk := Opened(shifted);
      written := |Live(disk)|;
    }

    method Log(record: Record)
      modifies this
      ensures View() == Logged(old(View()), record)
    {
      if !Enabled(record.level) {
        return;
      }
      var line := Line(record);
      disk := disk[0 := Live(disk) + line];
      written := written + |line|;
      if written >= MAX_LOG_BYTES {
        Rotate();
      }
    }
  }

  // ------------------------------ what is kept ------------------------------

  function At(disk: Disk, i: nat): string {
    if i in disk then disk[i] else ""
  }

  /** Everything still on disk, oldest first. */
  function Kept(disk: Disk): string {
    At(disk, 3) + At(disk, 2) + At(disk, 1) + At(disk, 0)
  }

  /** The records that are logged at all, as text. */
  function Text(records: seq<Record>): string {
    if records == [] then ""
    else
      var last := records[|records| - 1];
      Text(records[..|records| - 1]) + if Enabled(last.level) then Line(last) else ""
  }

  /** The line a record is written as, if it is written. */
  lemma TextOfOne(records: seq<Record>, record: Record)
    ensures Text(records + [record]) == Text(records) +
            match record.level
            case Error => "[ERROR] " + record.args + "\n"
            case Warn => "[WARN] " + record.args + "\n"
            case Info => "[INFO] " + record.args + "\n"
            case Debug => "[DEBUG] " + record.args + "\n"
            case Trace => ""
  {
    assert (records + [record])[..|records|] == records;
    LineIs(record);
  }

  lemma LineIs(record: Record)
    ensures Enabled(record.level) <==> record.level != Trace
    ensures record.level == Error ==> Line(record) == "[ERROR] " + record.args + "\n"
    ensures record.level == Warn ==> Line(record) == "[WARN] " + record.args + "\n"
    ensures record.level == Info ==> Line(record) == "[INFO] " + record.args + "\n"
    ensures record.level == Debug ==> Line(record) == "[DEBUG] " + record.args + "\n"
  {
    assert "[" + "ERROR" + "] " == "[ERROR] ";
    assert "[" + "WARN" + "] " == "[WARN] ";
    assert "[" + "INFO" + "] " == "[INFO] ";
    assert "[" + "DEBUG" + "] " == "[DEBUG] ";
  }

  ghost function After(found: Disk, records: seq<Record>): State {
    if records == [] then Started(found)
    else Logged(After(found, records[..|records| - 1]), records[|records| - 1])
  }

  /** What one record makes the logger drop: the oldest file, when it rotates. */
  ghost function Dropped(s: State, record: Record): string {
    if Enabled(record.level) && s.written + |Line(record)| >= MAX_LOG_BYTES then At(s.disk, 3) else ""
  }

  ghost function AllDropped(found: Disk, records: seq<Record>): string {
    if records == [] then ""
    else
      var front := records[..|records| - 1];
      AllDropped(found, front) + Dropped(After(found, front), records[|records| - 1])
  }

  /** One record: what was kept, then the line, is what is dropped, then what is kept now. */
  lemma LogKeepsOrder(s: State, record: Record)
    requires 0 in s.disk && s.written == |s.disk[0]|
    ensures var t := Logged(s, record);
            && 0 in t.disk && t.written == |t.disk[0]|
            && Kept(s.disk) + (if Enabled(record.level) then Line(record) else "")
                 == Dropped(s, record) + Kept(t.disk)
  {
    if Enabled(record.level) {
      var line := Line(record);
      var a := Appended(s, line);
      assert Kept(a.disk) == Kept(s.disk) + line;
      if a.written >= MAX_LOG_BYTES {
        RotationKeepsOrder(a.disk);
      } else {
        assert "" + Kept(a.disk) == Kept(a.disk);
      }
    } else {
      assert Kept(s.disk) + "" == "" + Kept(s.disk);
    }
  }

  lemma RotationKeepsOrder(disk: Disk)
    requires 0 in disk
    ensures Kept(disk) == At(disk, 3) + Kept(Opened(Shifted(disk, MAX_ROTATED)))
    ensures Opened(Shifted(disk, MAX_ROTATED))[0] == "" && At(Shifted(disk, MAX_ROTATED), 1) == disk[0]
  {
    var shifted := Shifted(disk, MAX_ROTATED);
    ShiftedAt(disk, MAX_ROTATED, 0);
    ShiftedAt(disk, MAX_ROTATED, 1);
    ShiftedAt(disk, MAX_ROTATED, 2);
    ShiftedAt(disk, MAX_ROTATED, 3);
    OneOlder(disk, shifted);
  }

  lemma OneOlder(disk: Disk, shifted: Disk)
    requires 0 !in shifted && At(shifted, 3) == At(disk, 2)
    requires At(shifted, 2) == At(disk, 1) && At(shifted, 1) == At(disk, 0)
    ensures Kept(disk) == At(disk, 3) + Kept(Opened(shifted))
  {
    var now := Opened(shifted);
    assert At(now, 3) == At(disk, 2) && At(now, 2) == At(disk, 1) && At(now, 1) == At(disk, 0) && At(now, 0) == "";
  }

  /** The files, oldest to newest, are always a suffix of everything ever logged, in order and with
      no line lost but those of whole files dropped from the old end; and `written` is the length
      of the live file. */
  lemma {:induction false} DiskIsASuffix(found: Disk, records: seq<Record>)
    ensures var s := After(found, records);
            && 0 in s.disk && s.written == |s.disk[0]|
            && Kept(found) + Text(records) == AllDropped(found, records) + Kept(s.disk)
  {
    if records == [] {
      assert Kept(Opened(found)) == Kept(found);
      assert Kept(found) + "" == "" + Kept(found);
    } else {
      var n := |records| - 1;
      var front := records[..n];
      DiskIsASuffix(found, front);
      var s := After(found, front);
      LogKeepsOrder(s, records[n]);
      var line := if Enabled(records[n].level) then Line(records[n]) else "";
      Chain(Kept(found), Text(front), line, AllDropped(found, front), Dropped(s, records[n]),
            Kept(s.disk), Kept(After(found, records).disk));
    }
  }

  lemma Chain(start: string, text: string, line: string, gone: string, dropped: string, before: string, now: string)
    requires start + text == gone + before && before + line == dropped + now
    ensures start + (text + line) == (gone + dropped) + now
  {
    assert start + (text + line) == (start + text) + line;
    assert (gone + before) + line == gone + (before + line);
    assert gone + (dropped + now) == (gone + dropped) + now;
  }

  /** Sizes that hold while no line is longer than `longest`: the live file is under the cap, and
      every rotated file under the cap and one line. */
  ghost predicate Bounded(disk: Disk, longest: nat) {
    && |At(disk, 0)| < 5_242_880
    && (forall i: nat :: 1 <= i <= 3 ==> |At(disk, i)| < 5_242_880 + longest)
  }

  lemma LogStaysBounded(s: State, record: Record, longest: nat)
    requires 0 in s.disk && s.written == |s.disk[0]| && Bounded(s.disk, longest)
    requires Enabled(record.level) ==> |Line(record)| <= longest
    ensures Bounded(Logged(s, record).disk, longest)
  {
    if Enabled(record.level) {
      var a := Appended(s, Line(record));
      if a.written >= MAX_LOG_BYTES {
        RotationKeepsOrder(a.disk);
        forall i: nat | 1 <= i <= MAX_ROTATED
          ensures |At(Opened(Shifted(a.disk, MAX_ROTATED)), i)| < MAX_LOG_BYTES + longest
        {
          ShiftedAt(a.disk, MAX_ROTATED, i);
          assert i > 1 ==> At(a.disk, i - 1) == At(s.disk, i - 1);
        }
      } else {
        assert forall i: nat :: i > 0 ==> At(a.disk, i) == At(s.disk, i);
      }
    }
  }

  /** From a log below the cap, whatever is logged, the log never takes more than the four caps and
      three of the longest lines. */
  lemma {:induction false} DiskStaysBounded(found: Disk, records: seq<Record>, longest: nat)
    requires Bounded(found, longest)
    requires forall i :: 0 <= i < |records| && Enabled(records[i].level) ==> |Line(records[i])| <= longest
    ensures Bounded(After(found, records).disk, longest)
    ensures |Kept(After(found, records).disk)| <= 4 * 5_242_880 + 3 * longest
  {
    if records == [] {
      assert forall i: nat :: At(Opened(found), i) == At(found, i);
    } else {
      var front := records[..|records| - 1];
      DiskStaysBounded(found, front, longest);
      DiskIsASuffix(found, front);
      LogStaysBounded(After(found, front), records[|records| - 1], longest);
    }
    var disk := After(found, records).disk;
    assert |At(disk, 1)| < MAX_LOG_BYTES + longest && |At(disk, 2)| < MAX_LOG_BYTES + longest
        && |At(disk, 3)| < MAX_LOG_BYTES + longest;
  }

  /** On any run a line that leaves the live file below five mebibytes is only appended; one that does not
      ends it: every file becomes one older, the oldest is dropped, and the live file starts empty. */
  lemma RotatesExactlyAtTheCap(found: Disk, records: seq<Record>, record: Record)
    requires record.level != Trace
    ensures var (a, b) := (After(found, records).disk, After(found, records + [record]).disk);
            if |At(a, 0)| + |Line(record)| < 5_242_880 then
              b == a[0 := At(a, 0) + Line(record)]
            else
              && At(b, 0) == "" && At(b, 1) == At(a, 0) + Line(record)
              && At(b, 2) == At(a, 1) && At(b, 3) == At(a, 2)
              && forall i: nat :: i > 3 ==> (i in b <==> i in a) && At(b, i) == At(a, i)
  {
    DiskIsASuffix(found, records);
    assert (records + [record])[..|records|] == records;
    LineIs(record);
    AllOlder(Appended(After(found, records), Line(record)).disk);
  }

  lemma AllOlder(disk: Disk)
    ensures var r := Started(Shifted(disk, 3)).disk;
            && At(r, 0) == "" && At(r, 1) == At(disk, 0) && At(r, 2) == At(disk, 1) && At(r, 3) == At(disk, 2)
            && forall i: nat :: i > 3 ==> (i in r <==> i in disk) && At(r, i) == At(disk, i)
  {
    var r := Started(Shifted(disk, 3)).disk;
    ShiftedAt(disk, 3, 0);
    ShiftedAt(disk, 3, 1);
    ShiftedAt(disk, 3, 2);
    ShiftedAt(disk, 3, 3);
    forall i: nat | i > 3 ensures (i in r <==> i in disk) && At(r, i) == At(disk, i) {
      ShiftedAt(disk, 3, i);
    }
  }
}
