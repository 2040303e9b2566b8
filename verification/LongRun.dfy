/** Daemon runs of any length: how the revision counter goes round, and what becomes of a client that
    hears of nothing but the transactions. */
module LongRun {
  import opened Wrappers
  import opened Bus
  import opened TopicStore
  import opened Coordinator

  /** How many of the first `n` events advanced the counter. */
  ghost function Publications(events: seq<Event>, h: History, n: nat): nat
    requires IsDaemonRun(events, h) && n <= |events|
  {
    if n == 0 then 0
    else Publications(events, h, n - 1) + if events[n - 1].OtherPublication? || h.txs[n - 1].Some? then 1 else 0
  }

  /** What is known of one event, given how many publications came before and after it. */
  ghost predicate Steps(before: Version, tx: Option<Transaction>, after: Version, count: nat, next: nat) {
    match tx
    case None =>
      && after.values == before.values && count <= next <= count + 1
      && after.revision == if next == count then before.revision else NextRevision(before.revision)
    case Some(t) =>
      && WellFormed(t) && after.values == After(before.values, t) && next == count + 1
      && t.revision == after.revision == NextRevision(before.revision)
  }

  /** A history whose versions are numbered by the publications before them. */
  ghost predicate Numbered(h: History, counts: seq<nat>) {
    && |h.versions| == |h.txs| + 1 == |counts|
    && h.versions[0] == Version(map[], 0) && counts[0] == 0
    && forall i :: 0 <= i < |h.txs| ==> Steps(h.versions[i], h.txs[i], h.versions[i + 1], counts[i], counts[i + 1])
  }

  lemma HappeningSteps(before: Version, e: Event, tx: Option<Transaction>, after: Version, count: nat)
    requires Happens(before, e, tx, after)
    ensures Steps(before, tx, after, count, count + if e.OtherPublication? || tx.Some? then 1 else 0)
  {
    if e.Record? {
      ProducedIsConsistent(e.w, Topics(e.change));
      CommitIsExact(before, Topics(e.change), Produce(e.w, Topics(e.change)), tx, after);
    }
  }

  ghost function Counts(events: seq<Event>, h: History): seq<nat>
    requires IsDaemonRun(events, h)
  {
    seq(|events| + 1, i requires 0 <= i <= |events| => Publications(events, h, i))
  }

  lemma RunIsNumbered(events: seq<Event>, h: History)
    requires IsDaemonRun(events, h)
    ensures Numbered(h, Counts(events, h))
  {
    var counts := Counts(events, h);
    forall i | 0 <= i < |h.txs|
      ensures Steps(h.versions[i], h.txs[i], h.versions[i + 1], counts[i], counts[i + 1])
    {
      assert Happens(h.versions[i], events[i], h.txs[i], h.versions[i + 1]);
      HappeningSteps(h.versions[i], events[i], h.txs[i], h.versions[i + 1], counts[i]);
    }
  }

  lemma {:induction false} NumberedRevision(h: History, counts: seq<nat>, n: nat)
    requires Numbered(h, counts) && n < |counts|
    ensures h.versions[n].revision == RevisionAt(counts[n])
  {
    if n > 0 {
      NumberedRevision(h, counts, n - 1);
      RevisionSteps(counts[n - 1]);
      assert Steps(h.versions[n - 1], h.txs[n - 1], h.versions[n], counts[n - 1], counts[n]);
    }
  }

  /** Over a run of any length the revision is that of the number of publications so far. */
  lemma RevisionOfRun(events: seq<Event>, h: History, n: nat)
    requires IsDaemonRun(events, h) && n <= |events|
    ensures h.versions[n].revision == RevisionAt(Publications(events, h, n))
  {
    RunIsNumbered(events, h);
    NumberedRevision(h, Counts(events, h), n);
  }

  // ------------------------- a client that only listens -------------------------

  /** The transactions of the events from `a` up to `b`, and the publications they are. */
  ghost function Heard(h: History, counts: seq<nat>, a: nat, b: nat): seq<(nat, Transaction)>
    requires |h.txs| + 1 == |counts| && a <= b <= |h.txs|
    decreases b - a
  {
    if a == b then []
    else Heard(h, counts, a, b - 1) + if h.txs[b - 1].Some? then [(counts[b], h.txs[b - 1].value)] else []
  }

  ghost function Firsts(s: seq<(nat, Transaction)>): seq<nat> {
    seq(|s|, i requires 0 <= i < |s| => s[i].0)
  }

  ghost function Seconds(s: seq<(nat, Transaction)>): seq<Transaction> {
    seq(|s|, i requires 0 <= i < |s| => s[i].1)
  }

  lemma {:induction false} HeardIsNumbered(h: History, counts: seq<nat>, a: nat, b: nat)
    requires Numbered(h, counts) && a <= b <= |h.txs|
    ensures counts[a] <= counts[b]
    ensures forall i :: 0 <= i < |Heard(h, counts, a, b)| ==>
              var (count, tx) := Heard(h, counts, a, b)[i];
              counts[a] < count <= counts[b] && tx.revision == RevisionAt(count) && WellFormed(tx)
    ensures forall i, j :: 0 <= i < j < |Heard(h, counts, a, b)| ==>
              Heard(h, counts, a, b)[i].0 < Heard(h, counts, a, b)[j].0
    decreases b - a
  {
    if a < b {
      HeardIsNumbered(h, counts, a, b - 1);
      NumberedRevision(h, counts, b);
      assert Steps(h.versions[b - 1], h.txs[b - 1], h.versions[b], counts[b - 1], counts[b]);
    }
  }

  /** A client that holds some revision of the run and is sent the run's transactions from there on, over
      at most one lap of the counter, is one that listens. */
  lemma RunIsListenedTo(events: seq<Event>, h: History, a: nat, b: nat, stores: seq<Store>)
    requires IsDaemonRun(events, h) && a <= b <= |events|
    requires Publications(events, h, b) <= Publications(events, h, a) + U64_MAX
    requires stores != [] && stores[0].revision == h.versions[a].revision
    requires var heard := Heard(h, Counts(events, h), a, b);
             && |stores| == |heard| + 1
             && forall i :: 0 <= i < |heard| ==> stores[i + 1] == Applied(stores[i], heard[i].1)
    ensures var heard := Heard(h, Counts(events, h), a, b);
            Listens(Publications(events, h, a), Firsts(heard), Seconds(heard), stores)
  {
    var counts := Counts(events, h);
    RunIsNumbered(events, h);
    NumberedRevision(h, counts, a);
    HeardIsNumbered(h, counts, a, b);
  }

  // ------------------------- what becomes of it -------------------------

  /** The client once it has been sent the transactions of the events from `a` up to `b`. */
  ghost function StoreAfter(s: Store, h: History, a: nat, b: nat): Store
    requires a <= b <= |h.txs|
    decreases b - a
  {
    if a == b then s
    else
      var before := StoreAfter(s, h, a, b - 1);
      if h.txs[b - 1].Some? then Applied(before, h.txs[b - 1].value) else before
  }

  /** The last version up to `b` before the counter wrapped. */
  ghost function BeforeWrap(counts: seq<nat>, a: nat, b: nat): (c: nat)
    requires a <= b < |counts|
    ensures a <= c <= b
    decreases b - a
  {
    if a == b || Lap(counts[b]) == Lap(counts[a]) then b else BeforeWrap(counts, a, b - 1)
  }

  lemma LapsRise(n: nat, later: nat)
    requires n <= later
    ensures Lap(n) <= Lap(later)
  {
  }

  lemma {:induction false} BeforeWrapIs(counts: seq<nat>, a: nat, b: nat)
    requires a <= b < |counts|
    ensures Lap(counts[BeforeWrap(counts, a, b)]) == Lap(counts[a])
    ensures forall i :: BeforeWrap(counts, a, b) < i <= b ==> Lap(counts[i]) != Lap(counts[a])
    decreases b - a
  {
    if a < b && Lap(counts[b]) != Lap(counts[a]) {
      BeforeWrapIs(counts, a, b - 1);
    }
  }

  /** What is known of the client: it mirrors the version `c` of its lap, and its revision is that of a
      publication not after it. */
  ghost predicate Frozen(s: Store, h: History, counts: seq<nat>, a: nat, c: nat, last: nat)
    requires a < |counts| && c < |counts| == |h.versions|
  {
    && Mirrors(s, h.versions[c].values) && s.revision == RevisionAt(last)
    && counts[a] <= last <= counts[c] && Lap(last) == Lap(counts[a])
  }

  lemma FrozenStep(s: Store, h: History, counts: seq<nat>, a: nat, b: nat, last: nat) returns (now: nat)
    requires Numbered(h, counts) && a < b < |counts| && counts[a] <= counts[b - 1] && counts[b] <= counts[a] + U64_MAX
    requires Lap(counts[b - 1]) == Lap(counts[a]) == Lap(counts[b]) && Keyed(h.versions[b - 1].values)
    requires Frozen(s, h, counts, a, b - 1, last)
    ensures Frozen(if h.txs[b - 1].Some? then Applied(s, h.txs[b - 1].value) else s, h, counts, a, b, now)
  {
    assert Steps(h.versions[b - 1], h.txs[b - 1], h.versions[b], counts[b - 1], counts[b]);
    now := last;
    if h.txs[b - 1].Some? {
      now := counts[b];
      NumberedRevision(h, counts, b);
      LaterRevision(last, counts[b]);
      TransactionMirrors(s, h.versions[b - 1].values, h.txs[b - 1].value);
    }
  }

  lemma DeafStep(s: Store, h: History, counts: seq<nat>, a: nat, b: nat, c: nat, last: nat)
    requires Numbered(h, counts) && a <= c < b < |counts| && counts[b] <= counts[a] + U64_MAX && counts[c] <= counts[b]
    requires Lap(counts[b]) != Lap(counts[a]) && Frozen(s, h, counts, a, c, last)
    ensures h.txs[b - 1].Some? ==> Applied(s, h.txs[b - 1].value) == s
  {
    assert Steps(h.versions[b - 1], h.txs[b - 1], h.versions[b], counts[b - 1], counts[b]);
    if h.txs[b - 1].Some? {
      NumberedRevision(h, counts, b);
      LaterRevision(last, counts[b]);
    }
  }

  lemma StepsKeepKeyed(before: Version, tx: Option<Transaction>, after: Version, count: nat, next: nat)
    requires Steps(before, tx, after, count, next) && Keyed(before.values)
    ensures Keyed(after.values)
  {
    if tx.Some? { AfterIsKeyed(before.values, tx.value); }
  }

  lemma NumberedIsKeyed(h: History, counts: seq<nat>, n: nat)
    requires Numbered(h, counts) && n < |h.versions|
    ensures Keyed(h.versions[n].values)
  {
    forall j | 0 <= j < |h.versions| - 1 && Keyed(h.versions[j].values) ensures Keyed(h.versions[j + 1].values) {
      StepsKeepKeyed(h.versions[j], h.txs[j], h.versions[j + 1], counts[j], counts[j + 1]);
    }
    VersionsKeep(Keyed, h.versions, n);
  }

  lemma ListenerStep(s: Store, h: History, counts: seq<nat>, a: nat, b: nat, last: nat) returns (now: nat)
    requires Numbered(h, counts) && a < b < |counts| && counts[b] <= counts[a] + U64_MAX
    requires Frozen(s, h, counts, a, BeforeWrap(counts, a, b - 1), last)
    ensures Frozen(if h.txs[b - 1].Some? then Applied(s, h.txs[b - 1].value) else s, h, counts, a,
                   BeforeWrap(counts, a, b), now)
  {
    var c := BeforeWrap(counts, a, b - 1);
    HeardIsNumbered(h, counts, a, b - 1);
    HeardIsNumbered(h, counts, b - 1, b);
    LapsRise(counts[a], counts[b - 1]);
    LapsRise(counts[b - 1], counts[b]);
    if Lap(counts[b]) == Lap(counts[a]) {
      NumberedIsKeyed(h, counts, b - 1);
      now := FrozenStep(s, h, counts, a, b, last);
    } else {
      now := last;
      HeardIsNumbered(h, counts, c, b);
      DeafStep(s, h, counts, a, b, c, last);
    }
  }

  lemma {:induction false} ListenerFreezes(s: Store, h: History, counts: seq<nat>, a: nat, b: nat) returns (last: nat)
    requires Numbered(h, counts) && a <= b < |counts| && counts[b] <= counts[a] + U64_MAX
    requires Mirrors(s, h.versions[a].values) && s.revision == h.versions[a].revision
    ensures Frozen(StoreAfter(s, h, a, b), h, counts, a, BeforeWrap(counts, a, b), last)
    decreases b - a
  {
    if a == b {
      NumberedRevision(h, counts, a);
      last := counts[a];
    } else {
      HeardIsNumbered(h, counts, b - 1, b);
      last := ListenerFreezes(s, h, counts, a, b - 1);
      last := ListenerStep(StoreAfter(s, h, a, b - 1), h, counts, a, b, last);
    }
  }

  /** End to end, over runs of any length: a client that took a snapshot at version `a` and is then sent
      every transaction, over at most one lap of the counter, mirrors the last version before the counter
      wrapped, the newest while it has not, and stays there. */
  lemma ListenerStopsAtTheWrap(events: seq<Event>, h: History, a: nat, b: nat, records: seq<BusRecord>)
    requires IsDaemonRun(events, h) && a <= b <= |events|
    requires Publications(events, h, b) <= Publications(events, h, a) + U64_MAX
    requires Enumerates(records, h.versions[a].values)
    ensures var c := BeforeWrap(Counts(events, h), a, b);
            && a <= c <= b
            && (c == b <==> Lap(Publications(events, h, b)) == Lap(Publications(events, h, a)))
            && Mirrors(StoreAfter(Replaced(h.versions[a].revision, records), h, a, b), h.versions[c].values)
  {
    var counts := Counts(events, h);
    RunIsNumbered(events, h);
    NumberedIsKeyed(h, counts, a);
    SnapshotMirrors(h.versions[a].revision, records, h.versions[a].values);
    var last := ListenerFreezes(Replaced(h.versions[a].revision, records), h, counts, a, b);
    BeforeWrapIs(counts, a, b);
  }
}
