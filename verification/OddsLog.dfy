// Change-only persistence of odds observations, and the bounded last-seen cache
// that decides what counts as a change.

module OddsLog {
  import opened Common

  // Three days, in seconds.
  const ODDS_SEEN_TTL := 259200

  const ODDS_SEEN_MAX := 100000

  datatype Snap = Snap(event: string, book: string, market: string, detail: Option<string>,
                       selection: string, odds: real, capturedAt: int)

  // The market component is line-qualified.
  datatype Key = Key(event: string, book: string, market: string, selection: string)

  datatype Entry = Entry(odds: real, seen: int)

  function KeyOf(s: Snap): Key {
    Key(s.event, s.book, if s.detail.Some? && s.detail.value != "" then s.detail.value else s.market, s.selection)
  }

  // A dictionary: its entries, and its keys in insertion order.
  datatype Cache = Cache(entries: map<Key, Entry>, order: seq<Key>) {
    ghost predicate Valid() { Distinct(order) && forall k :: k in order <==> k in entries }

    function Put(k: Key, e: Entry): Cache {
      Cache(entries[k := e], if k in entries then order else order + [k])
    }

    function Drop(gone: set<Key>): Cache { Cache(entries - gone, Without(order, gone)) }
  }

  const COLD := Cache(map[], [])

  // ----- the sweep -------------------------------------------------------

  function SeenOf(c: Cache, k: Key): int { if k in c.entries then c.entries[k].seen else 0 }

  function Stale(c: Cache, now: int): set<Key> {
    set k | k in c.entries && c.entries[k].seen < now - ODDS_SEEN_TTL
  }

  function BySeen(c: Cache): seq<Key> { StableSort(c.order, (a, b) => SeenOf(c, a) < SeenOf(c, b)) }

  function Overflow(c: Cache, maxSize: nat): seq<Key> {
    if |c.order| <= maxSize then [] else FirstN(BySeen(c), |c.order| - maxSize)
  }

  function Keys(ks: seq<Key>): set<Key> { set k | k in ks }

  function Swept(c: Cache, now: int, maxSize: nat): Cache {
    if |c.order| <= maxSize then c
    else
      var live := c.Drop(Stale(c, now));
      live.Drop(Keys(Overflow(live, maxSize)))
  }

  lemma DropValid(c: Cache, gone: set<Key>)
    requires c.Valid()
    ensures c.Drop(gone).Valid()
  {
    WithoutContents(c.order, gone);
  }

  // What the overflow step evicts, and that nothing it keeps is older.
  lemma OverflowIsOldest(c: Cache, maxSize: nat)
    requires c.Valid() && |c.order| > maxSize
    ensures |Keys(Overflow(c, maxSize))| == |c.order| - maxSize
    ensures forall k :: k in Overflow(c, maxSize) ==> k in c.order
    ensures forall kept, evicted :: kept in c.order && kept !in Overflow(c, maxSize) && evicted in Overflow(c, maxSize)
              ==> SeenOf(c, kept) >= SeenOf(c, evicted)
  {
    var lt := (a, b) => SeenOf(c, a) < SeenOf(c, b);
    var sorted := StableSort(c.order, lt);
    assert sorted == BySeen(c);
    StableSortIsSort(c.order, lt);
    DistinctSorted(c.order, lt);
    var n := |c.order| - maxSize;
    var evict := sorted[..n];
    assert evict == Overflow(c, maxSize);
    assert Distinct(evict);
    DistinctCard(evict);
    forall k | k in evict ensures k in c.order { InSorted(c.order, lt, k); }
    forall kept, evicted | kept in c.order && kept !in evict && evicted in evict
      ensures SeenOf(c, kept) >= SeenOf(c, evicted)
    {
      InSorted(c.order, lt, kept);
      SplitOrder(sorted, n, lt, kept, evicted);
    }
  }

  // A no-op under the cap. Above it: the result is at or under the cap, only
  // drops entries, and everything kept was seen at least as recently as
  // everything evicted. It evicts no more than it must: beyond the stale
  // entries, just enough to reach the cap.
  lemma SweepBounds(c: Cache, now: int, maxSize: nat)
    requires c.Valid()
    ensures var s := Swept(c, now, maxSize);
            && s.Valid()
            && (|c.order| > maxSize ==> |s.order| <= maxSize)
            && (|c.order| <= maxSize ==> s == c)
            && (forall k :: k in s.entries ==> k in c.entries && s.entries[k] == c.entries[k])
            && (forall kept, evicted :: kept in s.entries && evicted in c.entries && evicted !in s.entries
                  ==> c.entries[kept].seen >= c.entries[evicted].seen)
            && (|c.order| > maxSize ==> forall k :: k in s.entries ==> c.entries[k].seen >= now - 3 * 24 * 3600)
            && (|s.order| < maxSize && |c.order| > maxSize ==>
                  forall k :: k in c.entries && k !in s.entries ==> c.entries[k].seen < now - 3 * 24 * 3600)
  {
    if |c.order| > maxSize {
      var live := c.Drop(Stale(c, now));
      DropValid(c, Stale(c, now));
      var s := Swept(c, now, maxSize);
      DropValid(live, Keys(Overflow(live, maxSize)));
      if |live.order| > maxSize {
        OverflowIsOldest(live, maxSize);
        WithoutLength(live.order, Keys(Overflow(live, maxSize)));
        forall kept, evicted | kept in s.entries && evicted in c.entries && evicted !in s.entries
          ensures c.entries[kept].seen >= c.entries[evicted].seen
        {
          if evicted in live.entries {
            assert kept in live.order && evicted in live.order;
            assert SeenOf(live, kept) >= SeenOf(live, evicted);
          }
        }
      } else {
        WithoutNothing(live.order);
        assert Overflow(live, maxSize) == [];
        assert Keys([]) == {};
        assert s == live;
      }
    }
  }

  // ----- one cycle --------------------------------------------------------

  datatype Row = Row(key: Key, odds: real, capturedAt: int)

  // The table's unique observation key is taken: the insert does nothing.
  predicate Conflicts(rows: seq<Row>, s: Snap) {
    exists r :: r in rows && r.key == KeyOf(s) && r.capturedAt == s.capturedAt
  }

  function InsertRow(rows: seq<Row>, s: Snap): seq<Row> {
    if Conflicts(rows, s) then rows else rows + [Row(KeyOf(s), s.odds, s.capturedAt)]
  }

  function InsertRows(rows: seq<Row>, ss: seq<Snap>): seq<Row> {
    if ss == [] then rows else InsertRow(InsertRows(rows, ss[..|ss| - 1]), ss[|ss| - 1])
  }

  // The rows to write, and the cache updates in dictionary order.
  datatype Scan = Scan(toWrite: seq<Snap>, updates: Cache)

  // The price the cycle compares with: this cycle's update, else the cache.
  function Known(updates: map<Key, Entry>, cache: map<Key, Entry>, k: Key): Option<real> {
    if k in updates then Some(updates[k].odds) else if k in cache then Some(cache[k].odds) else None
  }

  function ScanOf(snaps: seq<Snap>, resolvable: set<string>, cache: map<Key, Entry>, now: int): Scan {
    if snaps == [] then Scan([], COLD)
    else
      var sc := ScanOf(snaps[..|snaps| - 1], resolvable, cache, now);
      ScanStep(sc, snaps[|snaps| - 1], resolvable, cache, now)
  }

  function ScanStep(sc: Scan, s: Snap, resolvable: set<string>, cache: map<Key, Entry>, now: int): Scan {
    if s.event !in resolvable then sc
    else
      var updates := sc.updates.Put(KeyOf(s), Entry(s.odds, now));
      Scan(if Known(sc.updates.entries, cache, KeyOf(s)) == Some(s.odds) then sc.toWrite else sc.toWrite + [s],
           updates)
  }

  // What the batch write reports: it raised, or these events were written.
  datatype Batch = Raised | Wrote(successful: set<string>)

  predicate Attempted(sc: Scan, event: string) {
    exists i :: 0 <= i < |sc.toWrite| && sc.toWrite[i].event == event
  }

  predicate Accepted(sc: Scan, successful: set<string>, event: string) {
    !Attempted(sc, event) || event in successful
  }

  function OfEvents(ss: seq<Snap>, events: set<string>): seq<Snap> {
    if ss == [] then []
    else
      var init := OfEvents(ss[..|ss| - 1], events);
      if ss[|ss| - 1].event in events then init + [ss[|ss| - 1]] else init
  }

  // dict.update with the accepted keys: known keys keep their place.
  function Merged(cache: Cache, updates: Cache, keep: set<string>): Cache {
    Cache(cache.entries + (map k | k in updates.entries && k.event in keep :: updates.entries[k]),
          cache.order + Without(updates.order, NotAppended(cache, updates, keep)))
  }

  // The updated keys that get no new place: rejected ones and known ones.
  function NotAppended(cache: Cache, updates: Cache, keep: set<string>): set<Key> {
    set k | k in updates.entries && (k.event !in keep || k in cache.entries)
  }

  datatype Store = Store(cache: Cache, rows: seq<Row>)

  // The events whose updates the cycle keeps.
  function AcceptedEvents(sc: Scan, successful: set<string>): set<string> {
    set k | k in sc.updates.entries && Accepted(sc, successful, k.event) :: k.event
  }

  function CycleStore(st: Store, snaps: seq<Snap>, resolvable: set<string>, now: int, batch: Batch,
                      maxSize: nat): Store {
    var sc := ScanOf(snaps, resolvable, st.cache.entries, now);
    if batch.Raised? && sc.toWrite != [] then st
    else
      var successful := if batch.Wrote? && sc.toWrite != [] then batch.successful else {};
      Store(Swept(Merged(st.cache, sc.updates, AcceptedEvents(sc, successful)), now, maxSize),
            InsertRows(st.rows, OfEvents(sc.toWrite, successful)))
  }

  // ----- the log against the observations ---------------------------------

  // The prices a table, or a list of observations, holds for a key.
  function Prices(rows: seq<Row>, k: Key): seq<real> {
    if rows == [] then []
    else
      var init := Prices(rows[..|rows| - 1], k);
      if rows[|rows| - 1].key == k then init + [rows[|rows| - 1].odds] else init
  }

  // Runs of equal prices collapsed to one.
  function Destutter(xs: seq<real>): (d: seq<real>)
    ensures xs == [] <==> d == []
    ensures xs != [] ==> d[|d| - 1] == xs[|xs| - 1]
  {
    if xs == [] then []
    else
      var d := Destutter(xs[..|xs| - 1]);
      if d != [] && d[|d| - 1] == xs[|xs| - 1] then d else d + [xs[|xs| - 1]]
  }

  function ObservationOf(s: Snap): Row { Row(KeyOf(s), s.odds, s.capturedAt) }

  // The resolvable observations of the events a cycle accepts.
  function Observed(snaps: seq<Snap>, resolvable: set<string>, accept: set<string>): seq<Row> {
    if snaps == [] then []
    else
      var init := Observed(snaps[..|snaps| - 1], resolvable, accept);
      var s := snaps[|snaps| - 1];
      if s.event in resolvable && s.event in accept then init + [ObservationOf(s)] else init
  }

  // The log and the accepted observations tell the same price history, and
  // every cached price is the last one observed.
  ghost predicate Faithful(cache: map<Key, Entry>, rows: seq<Row>, observed: seq<Row>) {
    && (forall k :: Destutter(Prices(rows, k)) == Destutter(Prices(observed, k)))
    && (forall k :: k in cache ==>
          Prices(observed, k) != [] && Last(Prices(observed, k)) == cache[k].odds)
  }

  function Last(xs: seq<real>): real
    requires xs != []
  {
    xs[|xs| - 1]
  }

  // The write is dropped although the log's last price is another one.
  predicate Loses(rows: seq<Row>, s: Snap) {
    Conflicts(rows, s) && (Prices(rows, KeyOf(s)) == [] || Last(Prices(rows, KeyOf(s))) != s.odds)
  }

  predicate LosesKey(rows: seq<Row>, ss: seq<Snap>, k: Key) {
    if ss == [] then false
    else LosesKey(rows, ss[..|ss| - 1], k)
         || (KeyOf(ss[|ss| - 1]) == k && Loses(InsertRows(rows, ss[..|ss| - 1]), ss[|ss| - 1]))
  }

  lemma PricesAppend(rows: seq<Row>, r: Row, k: Key)
    ensures Prices(rows + [r], k) == if r.key == k then Prices(rows, k) + [r.odds] else Prices(rows, k)
  {
    assert (rows + [r])[..|rows|] == rows;
  }

  lemma DestutterAppend(xs: seq<real>, x: real)
    ensures Destutter(xs + [x]) == if xs != [] && Last(xs) == x then Destutter(xs) else Destutter(xs) + [x]
  {
    assert (xs + [x])[..|xs|] == xs;
  }

  lemma OfEventsAppend(ss: seq<Snap>, s: Snap, events: set<string>)
    ensures OfEvents(ss + [s], events) == OfEvents(ss, events) + (if s.event in events then [s] else [])
  {
    assert (ss + [s])[..|ss|] == ss;
  }

  // A key's state after some snapshots of a cycle: `log` and `seen` are its
  // price lists, `known` the price the scan would compare with, `lost` whether
  // one of its writes was lost.
  ghost predicate InStep(log: seq<real>, seen: seq<real>, known: Option<real>, lost: bool) {
    && (known.Some? ==> seen != [] && Last(seen) == known.value)
    && (!lost ==> Destutter(log) == Destutter(seen))
    && (lost ==> |Destutter(log)| < |Destutter(seen)| && known.Some?)
  }

  // One more observation of the key, accepted and compared with `known`.
  lemma ObserveKeepsStep(log: seq<real>, seen: seq<real>, known: Option<real>, lost: bool,
                         x: real, inserted: bool, loses: bool)
    requires InStep(log, seen, known, lost)
    requires known == Some(x) ==> !inserted && !loses
    requires known != Some(x) && !inserted ==> (loses <==> log == [] || Last(log) != x)
    requires inserted ==> !loses
    ensures InStep(if inserted then log + [x] else log, seen + [x], Some(x), lost || loses)
  {
    DestutterAppend(log, x);
    DestutterAppend(seen, x);
  }

  // What a partial scan owes a key: `w` are its accepted writes, `seen` the
  // accepted observations so far.
  ghost predicate Tracks(cache: map<Key, Entry>, rows: seq<Row>, updates: map<Key, Entry>,
                         w: seq<Snap>, seen: seq<Row>, k: Key)
  {
    && InStep(Prices(InsertRows(rows, w), k), Prices(seen, k), Known(updates, cache, k), LosesKey(rows, w, k))
    && (k !in updates ==> !LosesKey(rows, w, k))
  }

  lemma WriteTracks(cache: map<Key, Entry>, rows: seq<Row>, updates: map<Key, Entry>, w: seq<Snap>,
                    seen: seq<Row>, k: Key, s: Snap, e: Entry)
    requires Tracks(cache, rows, updates, w, seen, k)
    requires e.odds == s.odds && Known(updates, cache, KeyOf(s)) != Some(s.odds)
    ensures Tracks(cache, rows, updates[KeyOf(s) := e], w + [s], seen + [ObservationOf(s)], k)
  {
    var r := InsertRows(rows, w);
    assert (w + [s])[..|w|] == w;
    PricesAppend(seen, ObservationOf(s), k);
    PricesAppend(r, ObservationOf(s), k);
    if KeyOf(s) == k {
      ObserveKeepsStep(Prices(r, k), Prices(seen, k), Known(updates, cache, k), LosesKey(rows, w, k), s.odds,
                       !Conflicts(r, s), Loses(r, s));
    }
  }

  lemma RefreshTracks(cache: map<Key, Entry>, rows: seq<Row>, updates: map<Key, Entry>, w: seq<Snap>,
                      seen: seq<Row>, k: Key, s: Snap, e: Entry)
    requires Tracks(cache, rows, updates, w, seen, k)
    requires e.odds == s.odds && Known(updates, cache, KeyOf(s)) == Some(s.odds)
    ensures Tracks(cache, rows, updates[KeyOf(s) := e], w, seen + [ObservationOf(s)], k)
  {
    PricesAppend(seen, ObservationOf(s), k);
    if KeyOf(s) == k {
      ObserveKeepsStep(Prices(InsertRows(rows, w), k), Prices(seen, k), Known(updates, cache, k),
                       LosesKey(rows, w, k), s.odds, false, false);
    }
  }

  // Scanning any snapshots keeps every accepted key in step; the updates of a
  // rejected event change nothing that is written or observed.
  lemma {:induction false} ScanTracks(cache: map<Key, Entry>, rows: seq<Row>, observed: seq<Row>, snaps: seq<Snap>,
                                      resolvable: set<string>, now: int, accept: set<string>, k: Key)
    requires Faithful(cache, rows, observed) && k.event in accept
    ensures var sc := ScanOf(snaps, resolvable, cache, now);
            Tracks(cache, rows, sc.updates.entries, OfEvents(sc.toWrite, accept),
                   observed + Observed(snaps, resolvable, accept), k)
  {
    if snaps == [] {
      assert observed + [] == observed;
    } else {
      var init, s := snaps[..|snaps| - 1], snaps[|snaps| - 1];
      ScanTracks(cache, rows, observed, init, resolvable, now, accept, k);
      var sc := ScanOf(init, resolvable, cache, now);
      var w := OfEvents(sc.toWrite, accept);
      var h := observed + Observed(init, resolvable, accept);
      if s.event in resolvable {
        OfEventsAppend(sc.toWrite, s, accept);
        if s.event in accept {
          assert observed + Observed(snaps, resolvable, accept) == h + [ObservationOf(s)];
          if Known(sc.updates.entries, cache, KeyOf(s)) == Some(s.odds) {
            RefreshTracks(cache, rows, sc.updates.entries, w, h, k, s, Entry(s.odds, now));
          } else {
            WriteTracks(cache, rows, sc.updates.entries, w, h, k, s, Entry(s.odds, now));
          }
        }
      }
    }
  }

  // A write for another key changes nothing at this one.
  lemma OtherKeyUntouched(rows: seq<Row>, w: seq<Snap>, s: Snap, k: Key)
    requires KeyOf(s) != k
    ensures Prices(InsertRows(rows, w + [s]), k) == Prices(InsertRows(rows, w), k)
    ensures LosesKey(rows, w + [s], k) <==> LosesKey(rows, w, k)
  {
    assert (w + [s])[..|w|] == w;
    PricesAppend(InsertRows(rows, w), ObservationOf(s), k);
  }

  lemma {:induction false} RejectedUntouched(rows: seq<Row>, ss: seq<Snap>, accept: set<string>, k: Key)
    requires k.event !in accept
    ensures Prices(InsertRows(rows, OfEvents(ss, accept)), k) == Prices(rows, k)
    ensures !LosesKey(rows, OfEvents(ss, accept), k)
  {
    if ss != [] {
      var init, s := ss[..|ss| - 1], ss[|ss| - 1];
      RejectedUntouched(rows, init, accept, k);
      assert ss == init + [s];
      OfEventsAppend(init, s, accept);
      if s.event in accept { OtherKeyUntouched(rows, OfEvents(init, accept), s, k); }
    }
  }

  lemma {:induction false} RejectedUnseen(observed: seq<Row>, snaps: seq<Snap>, resolvable: set<string>,
                                          accept: set<string>, k: Key)
    requires k.event !in accept
    ensures Prices(observed + Observed(snaps, resolvable, accept), k) == Prices(observed, k)
  {
    if snaps == [] {
      assert observed + [] == observed;
    } else {
      var init, s := snaps[..|snaps| - 1], snaps[|snaps| - 1];
      RejectedUnseen(observed, init, resolvable, accept, k);
      var o := Observed(init, resolvable, accept);
      if s.event in resolvable && s.event in accept {
        assert observed + (o + [ObservationOf(s)]) == (observed + o) + [ObservationOf(s)];
        PricesAppend(observed + o, ObservationOf(s), k);
      }
    }
  }

  // ----- one cycle is faithful exactly when no write is lost ---------------

  // Some accepted write meets its observation key already taken while the
  // log's last price for it is another one.
  predicate BatchLoses(rows: seq<Row>, ss: seq<Snap>) {
    if ss == [] then false
    else BatchLoses(rows, ss[..|ss| - 1]) || Loses(InsertRows(rows, ss[..|ss| - 1]), ss[|ss| - 1])
  }

  lemma {:induction false} BatchLosesSomeKey(rows: seq<Row>, ss: seq<Snap>) returns (k: Key)
    requires BatchLoses(rows, ss)
    ensures LosesKey(rows, ss, k)
  {
    var n := |ss| - 1;
    if BatchLoses(rows, ss[..n]) {
      k := BatchLosesSomeKey(rows, ss[..n]);
    } else {
      k := KeyOf(ss[n]);
    }
  }

  lemma {:induction false} KeyLossIsBatchLoss(rows: seq<Row>, ss: seq<Snap>, k: Key)
    requires LosesKey(rows, ss, k)
    ensures BatchLoses(rows, ss)
  {
    if LosesKey(rows, ss[..|ss| - 1], k) { KeyLossIsBatchLoss(rows, ss[..|ss| - 1], k); }
  }

  lemma {:induction false} ScanFacts(snaps: seq<Snap>, resolvable: set<string>, cache: map<Key, Entry>, now: int)
    ensures var sc := ScanOf(snaps, resolvable, cache, now);
            && sc.updates.Valid()
            && (forall s :: s in sc.toWrite ==> KeyOf(s) in sc.updates.entries)
  {
    if snaps != [] { ScanFacts(snaps[..|snaps| - 1], resolvable, cache, now); }
  }

  lemma {:induction false} OfEventsSame(ss: seq<Snap>, a: set<string>, b: set<string>)
    requires forall s :: s in ss ==> (s.event in a <==> s.event in b)
    ensures OfEvents(ss, a) == OfEvents(ss, b)
  {
    if ss != [] {
      assert ss[|ss| - 1] in ss;
      OfEventsSame(ss[..|ss| - 1], a, b);
    }
  }

  lemma MergedValid(cache: Cache, updates: Cache, keep: set<string>)
    requires cache.Valid() && updates.Valid()
    ensures Merged(cache, updates, keep).Valid()
  {
    var gone := NotAppended(cache, updates, keep);
    WithoutContents(updates.order, gone);
    var added := Without(updates.order, gone);
    var m := Merged(cache, updates, keep);
    forall i, j | 0 <= i < j < |m.order| ensures m.order[i] != m.order[j] {
      if i < |cache.order| <= j {
        assert m.order[i] in cache.entries && m.order[j] in added;
      }
    }
  }

  // The events whose writes and refreshes a cycle keeps.
  function Kept(st: Store, snaps: seq<Snap>, resolvable: set<string>, now: int, batch: Batch): set<string> {
    var sc := ScanOf(snaps, resolvable, st.cache.entries, now);
    if batch.Raised? && sc.toWrite != [] then {}
    else AcceptedEvents(sc, if batch.Wrote? && sc.toWrite != [] then batch.successful else {})
  }

  // The writes a cycle sends that are not rolled back.
  function Written(st: Store, snaps: seq<Snap>, resolvable: set<string>, now: int, batch: Batch): seq<Snap> {
    OfEvents(ScanOf(snaps, resolvable, st.cache.entries, now).toWrite, Kept(st, snaps, resolvable, now, batch))
  }

  lemma {:induction false} OfNoEvents(ss: seq<Snap>)
    ensures OfEvents(ss, {}) == []
  {
    if ss != [] { OfNoEvents(ss[..|ss| - 1]); }
  }

  lemma {:induction false} ObservedNothing(snaps: seq<Snap>, resolvable: set<string>)
    ensures Observed(snaps, resolvable, {}) == []
  {
    if snaps != [] { ObservedNothing(snaps[..|snaps| - 1], resolvable); }
  }

  lemma CycleWrites(st: Store, snaps: seq<Snap>, resolvable: set<string>, now: int, batch: Batch, maxSize: nat)
    ensures CycleStore(st, snaps, resolvable, now, batch, maxSize).rows
         == InsertRows(st.rows, Written(st, snaps, resolvable, now, batch))
  {
    var sc := ScanOf(snaps, resolvable, st.cache.entries, now);
    ScanFacts(snaps, resolvable, st.cache.entries, now);
    if batch.Raised? && sc.toWrite != [] {
      OfNoEvents(sc.toWrite);
    } else {
      var successful := if batch.Wrote? && sc.toWrite != [] then batch.successful else {};
      forall s | s in sc.toWrite
        ensures s.event in successful <==> s.event in Kept(st, snaps, resolvable, now, batch)
      {
        assert KeyOf(s) in sc.updates.entries && Attempted(sc, s.event);
      }
      OfEventsSame(sc.toWrite, successful, Kept(st, snaps, resolvable, now, batch));
    }
  }

  // Every key after a cycle: prices in step exactly when none of its writes
  // was lost, and any known price the last one observed.
  lemma CycleKey(st: Store, observed: seq<Row>, snaps: seq<Snap>, resolvable: set<string>, now: int,
                 accept: set<string>, k: Key)
    requires Faithful(st.cache.entries, st.rows, observed)
    ensures var sc := ScanOf(snaps, resolvable, st.cache.entries, now);
            var w := OfEvents(sc.toWrite, accept);
            var seen := Prices(observed + Observed(snaps, resolvable, accept), k);
            && (Destutter(Prices(InsertRows(st.rows, w), k)) == Destutter(seen) <==> !LosesKey(st.rows, w, k))
            && (k in sc.updates.entries && k.event in accept ==> seen != [] && Last(seen) == sc.updates.entries[k].odds)
            && (k in st.cache.entries && (k !in sc.updates.entries || k.event !in accept) ==>
                  seen != [] && Last(seen) == st.cache.entries[k].odds)
  {
    if k.event in accept {
      ScanTracks(st.cache.entries, st.rows, observed, snaps, resolvable, now, accept, k);
    } else {
      RejectedUntouched(st.rows, ScanOf(snaps, resolvable, st.cache.entries, now).toWrite, accept, k);
      RejectedUnseen(observed, snaps, resolvable, accept, k);
    }
  }

  // One cycle, with any mix of unresolved events, a failed batch, per-event
  // failures and evictions: the log stays the accepted price history, and the
  // cache its last prices, exactly when no accepted write was lost.
  lemma CycleFaithfulIff(st: Store, observed: seq<Row>, snaps: seq<Snap>, resolvable: set<string>, now: int,
                         batch: Batch, maxSize: nat)
    requires st.cache.Valid() && Faithful(st.cache.entries, st.rows, observed)
    ensures var after := CycleStore(st, snaps, resolvable, now, batch, maxSize);
            && after.cache.Valid()
            && (Faithful(after.cache.entries, after.rows,
                         observed + Observed(snaps, resolvable, Kept(st, snaps, resolvable, now, batch)))
                <==> !BatchLoses(st.rows, Written(st, snaps, resolvable, now, batch)))
  {
    var sc := ScanOf(snaps, resolvable, st.cache.entries, now);
    var accept := Kept(st, snaps, resolvable, now, batch);
    var after := CycleStore(st, snaps, resolvable, now, batch, maxSize);
    var seen := observed + Observed(snaps, resolvable, accept);
    CycleWrites(st, snaps, resolvable, now, batch, maxSize);
    CycleCache(st, snaps, resolvable, now, batch, maxSize);
    var w := Written(st, snaps, resolvable, now, batch);
    assert forall k :: Destutter(Prices(after.rows, k)) == Destutter(Prices(seen, k)) <==> !LosesKey(st.rows, w, k) by {
      forall k ensures Destutter(Prices(after.rows, k)) == Destutter(Prices(seen, k)) <==> !LosesKey(st.rows, w, k) {
        CycleKey(st, observed, snaps, resolvable, now, accept, k);
      }
    }
    CycleCachedPrices(st, observed, snaps, resolvable, now, batch, maxSize);
    if BatchLoses(st.rows, w) {
      var k := BatchLosesSomeKey(st.rows, w);
      assert Destutter(Prices(after.rows, k)) != Destutter(Prices(seen, k));
    } else {
      forall k ensures !LosesKey(st.rows, w, k) {
        if LosesKey(st.rows, w, k) { KeyLossIsBatchLoss(st.rows, w, k); }
      }
    }
  }

  lemma CycleCachedPrices(st: Store, observed: seq<Row>, snaps: seq<Snap>, resolvable: set<string>, now: int,
                          batch: Batch, maxSize: nat)
    requires st.cache.Valid() && Faithful(st.cache.entries, st.rows, observed)
    ensures var after := CycleStore(st, snaps, resolvable, now, batch, maxSize).cache.entries;
            var seen := observed + Observed(snaps, resolvable, Kept(st, snaps, resolvable, now, batch));
            forall k :: k in after ==> Prices(seen, k) != [] && Last(Prices(seen, k)) == after[k].odds
  {
    var after := CycleStore(st, snaps, resolvable, now, batch, maxSize).cache.entries;
    var accept := Kept(st, snaps, resolvable, now, batch);
    var seen := observed + Observed(snaps, resolvable, accept);
    CycleCache(st, snaps, resolvable, now, batch, maxSize);
    forall k | k in after ensures Prices(seen, k) != [] && Last(Prices(seen, k)) == after[k].odds {
      CycleKey(st, observed, snaps, resolvable, now, accept, k);
    }
  }

  // Where a cached entry comes from after a cycle.
  lemma CycleCache(st: Store, snaps: seq<Snap>, resolvable: set<string>, now: int, batch: Batch, maxSize: nat)
    requires st.cache.Valid()
    ensures var after := CycleStore(st, snaps, resolvable, now, batch, maxSize);
            var sc := ScanOf(snaps, resolvable, st.cache.entries, now);
            var accept := Kept(st, snaps, resolvable, now, batch);
            && after.cache.Valid()
            && forall k :: k in after.cache.entries ==>
                 if k in sc.updates.entries && k.event in accept
                 then after.cache.entries[k] == sc.updates.entries[k]
                 else k in st.cache.entries && after.cache.entries[k] == st.cache.entries[k]
  {
    var sc := ScanOf(snaps, resolvable, st.cache.entries, now);
    ScanFacts(snaps, resolvable, st.cache.entries, now);
    if !(batch.Raised? && sc.toWrite != []) {
      var accept := Kept(st, snaps, resolvable, now, batch);
      MergedValid(st.cache, sc.updates, accept);
      SweepBounds(Merged(st.cache, sc.updates, accept), now, maxSize);
    }
  }

  // While the log is faithful, each cached price is the last logged one.
  lemma CachedIsLastLogged(cache: map<Key, Entry>, rows: seq<Row>, observed: seq<Row>, k: Key)
    requires Faithful(cache, rows, observed) && k in cache
    ensures Prices(rows, k) != [] && Last(Prices(rows, k)) == cache[k].odds
  {
    assert Destutter(Prices(rows, k)) == Destutter(Prices(observed, k));
  }

  // Of two quotes of a key the second is newer, or repeats the first.
  predicate Follows(r: Row, q: Row) {
    r.key == q.key ==> r.capturedAt < q.capturedAt || (r.capturedAt == q.capturedAt && r.odds == q.odds)
  }

  ghost predicate Steady(ss: seq<Snap>) {
    forall i, j :: 0 <= i < j < |ss| ==> Follows(ObservationOf(ss[i]), ObservationOf(ss[j]))
  }

  ghost predicate SteadyRows(rows: seq<Row>) { forall i, j :: 0 <= i < j < |rows| ==> Follows(rows[i], rows[j]) }

  // The last row of a key that has one.
  lemma {:induction false} LastRow(rows: seq<Row>, k: Key) returns (i: nat)
    requires exists r :: r in rows && r.key == k
    ensures i < |rows| && rows[i].key == k && Prices(rows, k) != [] && Last(Prices(rows, k)) == rows[i].odds
    ensures forall j :: i < j < |rows| ==> rows[j].key != k
  {
    var n := |rows| - 1;
    if rows[n].key == k {
      i := n;
    } else {
      var r :| r in rows && r.key == k;
      assert r in rows[..n];
      i := LastRow(rows[..n], k);
    }
  }

  lemma SteadyWrite(rows: seq<Row>, s: Snap)
    requires SteadyRows(rows) && forall r :: r in rows ==> Follows(r, ObservationOf(s))
    ensures !Loses(rows, s) && SteadyRows(InsertRow(rows, s))
  {
    if Conflicts(rows, s) {
      var j :| 0 <= j < |rows| && rows[j].key == KeyOf(s) && rows[j].capturedAt == s.capturedAt;
      var i := LastRow(rows, KeyOf(s));
      assert rows[i] in rows && rows[j] in rows && (j == i || Follows(rows[j], rows[i]));
    }
  }

  // Quotes that follow every row of the table and each other lose nothing: a
  // provider may repeat a quote under its timestamp, but not correct it.
  lemma {:induction false} SteadyTimesLoseNothing(rows: seq<Row>, ss: seq<Snap>)
    requires SteadyRows(rows) && Steady(ss) && forall r, s :: r in rows && s in ss ==> Follows(r, ObservationOf(s))
    ensures !BatchLoses(rows, ss) && SteadyRows(InsertRows(rows, ss))
  {
    if ss != [] {
      var n := |ss| - 1;
      assert forall s :: s in ss[..n] ==> s in ss;
      SteadyTimesLoseNothing(rows, ss[..n]);
      assert ss[n] in ss;
      forall r | r in InsertRows(rows, ss[..n]) ensures Follows(r, ObservationOf(ss[n])) {
        InsertedFrom(rows, ss[..n], r);
      }
      SteadyWrite(InsertRows(rows, ss[..n]), ss[n]);
    }
  }

  lemma {:induction false} InsertedFrom(rows: seq<Row>, ss: seq<Snap>, r: Row)
    requires r in InsertRows(rows, ss)
    ensures r in rows || exists i :: 0 <= i < |ss| && r == ObservationOf(ss[i])
  {
    if ss != [] {
      var n := |ss| - 1;
      if r in InsertRows(rows, ss[..n]) {
        InsertedFrom(rows, ss[..n], r);
        if r !in rows {
          var i :| 0 <= i < n && r == ObservationOf(ss[..n][i]);
          assert ss[i] == ss[..n][i];
        }
      } else {
        assert r == ObservationOf(ss[n]);
      }
    }
  }

  // The pieces of the run below: its scan, its sweep, its merge.
  lemma CorrectedScan(k: Key, snap: Snap)
    requires KeyOf(snap) == k && snap.odds == 2.1
    ensures ScanOf([snap], {k.event}, map[k := Entry(1.9, 10)], 20)
            == Scan([snap], Cache(map[k := Entry(2.1, 20)], [k]))
  {
    assert [snap][..0] == [] && ScanOf([], {k.event}, map[k := Entry(1.9, 10)], 20) == Scan([], COLD);
  }

  lemma SweepKeepsSmall(c: Cache, now: int)
    requires |c.order| <= 2
    ensures Swept(c, now, ODDS_SEEN_MAX) == c
  {
  }

  lemma CorrectedMerge(k: Key, cache: Cache, updates: Cache)
    requires cache == Cache(map[k := Entry(1.9, 10)], [k]) && updates == Cache(map[k := Entry(2.1, 20)], [k])
    ensures Merged(cache, updates, {k.event}).entries == map[k := Entry(2.1, 20)]
    ensures |Merged(cache, updates, {k.event}).order| <= 2
  {
    assert Without([k], {k}) == [] by { assert [k][..0] == []; }
    assert NotAppended(cache, updates, {k.event}) == {k};
  }

  lemma CorrectedLog(k: Key)
    ensures Faithful(map[k := Entry(1.9, 10)], [Row(k, 1.9, 5)], [Row(k, 1.9, 5)])
  {
    PricesAppend([], Row(k, 1.9, 5), k);
    assert [] + [Row(k, 1.9, 5)] == [Row(k, 1.9, 5)];
  }

  lemma CorrectedInsert(k: Key, snap: Snap)
    requires KeyOf(snap) == k && snap.capturedAt == 5
    ensures InsertRows([Row(k, 1.9, 5)], [snap]) == [Row(k, 1.9, 5)]
    ensures OfEvents([snap], {k.event}) == [snap]
  {
    var rows := [Row(k, 1.9, 5)];
    assert [snap][..0] == [] && InsertRows(rows, []) == rows;
    assert rows[0] in rows && Conflicts(rows, snap);
    OfEventsAppend([], snap, {k.event});
    assert [] + [snap] == [snap];
  }

  // A corrected price under an unchanged provider timestamp is cached but never
  // logged.
  lemma CorrectedPriceIsLost(k: Key, snap: Snap)
    requires KeyOf(snap) == k && snap.odds == 2.1 && snap.capturedAt == 5
    ensures var st := Store(Cache(map[k := Entry(1.9, 10)], [k]), [Row(k, 1.9, 5)]);
            var after := CycleStore(st, [snap], {k.event}, 20, Wrote({k.event}), ODDS_SEEN_MAX);
            && Faithful(st.cache.entries, st.rows, st.rows)
            && after.rows == st.rows && after.cache.entries == map[k := Entry(2.1, 20)]
  {
    var cache := Cache(map[k := Entry(1.9, 10)], [k]);
    var sc := ScanOf([snap], {k.event}, cache.entries, 20);
    CorrectedLog(k);
    CorrectedScan(k, snap);
    CorrectedInsert(k, snap);
    assert AcceptedEvents(sc, {k.event}) == {k.event} by {
      assert k in sc.updates.entries && Accepted(sc, {k.event}, k.event);
    }
    CorrectedMerge(k, cache, sc.updates);
    SweepKeepsSmall(Merged(cache, sc.updates, {k.event}), 20);
  }

  // ----- whole runs ---------------------------------------------------------

  datatype Step = Poll(snaps: seq<Snap>, resolvable: set<string>, now: int, batch: Batch, maxSize: nat) | Restart

  function RunStore(steps: seq<Step>): Store {
    if steps == [] then Store(COLD, [])
    else
      var st := RunStore(steps[..|steps| - 1]);
      match steps[|steps| - 1]
      case Poll(snaps, resolvable, now, batch, maxSize) => CycleStore(st, snaps, resolvable, now, batch, maxSize)
      case Restart => st.(cache := COLD)
  }

  function RunObserved(steps: seq<Step>): seq<Row> {
    if steps == [] then []
    else
      var observed := RunObserved(steps[..|steps| - 1]);
      match steps[|steps| - 1]
      case Poll(snaps, resolvable, now, batch, _) =>
        observed + Observed(snaps, resolvable, Kept(RunStore(steps[..|steps| - 1]), snaps, resolvable, now, batch))
      case Restart => observed
  }

  predicate StepLoses(st: Store, step: Step) {
    step.Poll? && BatchLoses(st.rows, Written(st, step.snaps, step.resolvable, step.now, step.batch))
  }

  // Over every run of polls and restarts that loses no write, the compressed
  // log carries exactly the accepted price history of every key.
  lemma {:induction false} RunIsFaithful(steps: seq<Step>)
    requires forall n :: 0 <= n < |steps| ==> !StepLoses(RunStore(steps[..n]), steps[n])
    ensures RunStore(steps).cache.Valid()
    ensures Faithful(RunStore(steps).cache.entries, RunStore(steps).rows, RunObserved(steps))
  {
    if steps != [] {
      var n := |steps| - 1;
      forall m | 0 <= m < n ensures !StepLoses(RunStore(steps[..n][..m]), steps[..n][m]) {
        assert steps[..n][..m] == steps[..m];
      }
      RunIsFaithful(steps[..n]);
      var s := steps[n];
      if s.Poll? {
        CycleFaithfulIff(RunStore(steps[..n]), RunObserved(steps[..n]), s.snaps, s.resolvable, s.now, s.batch,
                         s.maxSize);
      }
    }
  }

  // Everything the polls of a run brought, in order.
  function Polled(steps: seq<Step>): seq<Snap> {
    if steps == [] then []
    else Polled(steps[..|steps| - 1]) + if steps[|steps| - 1].Poll? then steps[|steps| - 1].snaps else []
  }

  lemma {:induction false} ScanWritesSome(snaps: seq<Snap>, resolvable: set<string>, cache: map<Key, Entry>, now: int)
    requires Steady(snaps)
    ensures var w := ScanOf(snaps, resolvable, cache, now).toWrite;
            Steady(w) && forall s :: s in w ==> s in snaps
  {
    if snaps != [] {
      var n := |snaps| - 1;
      var before := ScanOf(snaps[..n], resolvable, cache, now).toWrite;
      ScanWritesSome(snaps[..n], resolvable, cache, now);
      forall s | s in before ensures Follows(ObservationOf(s), ObservationOf(snaps[n])) { assert s in snaps[..n]; }
      SteadyAppend(before, snaps[n]);
    }
  }

  lemma SteadyAppend(ss: seq<Snap>, s: Snap)
    requires Steady(ss) && forall q :: q in ss ==> Follows(ObservationOf(q), ObservationOf(s))
    ensures Steady(ss + [s])
  {
  }

  lemma {:induction false} OfEventsSome(ss: seq<Snap>, events: set<string>)
    requires Steady(ss)
    ensures Steady(OfEvents(ss, events)) && forall s :: s in OfEvents(ss, events) ==> s in ss
  {
    if ss != [] {
      var n := |ss| - 1;
      var before := OfEvents(ss[..n], events);
      OfEventsSome(ss[..n], events);
      forall s | s in before ensures Follows(ObservationOf(s), ObservationOf(ss[n])) { assert s in ss[..n]; }
      SteadyAppend(before, ss[n]);
    }
  }

  lemma WrittenArePolled(st: Store, snaps: seq<Snap>, resolvable: set<string>, now: int, batch: Batch)
    requires Steady(snaps)
    ensures var w := Written(st, snaps, resolvable, now, batch);
            Steady(w) && forall s :: s in w ==> s in snaps
  {
    ScanWritesSome(snaps, resolvable, st.cache.entries, now);
    OfEventsSome(ScanOf(snaps, resolvable, st.cache.entries, now).toWrite, Kept(st, snaps, resolvable, now, batch));
  }

  lemma SteadyParts(a: seq<Snap>, b: seq<Snap>)
    requires Steady(a + b)
    ensures Steady(a) && Steady(b)
    ensures forall s, t :: s in a && t in b ==> Follows(ObservationOf(s), ObservationOf(t))
  {
    var all := a + b;
    assert forall i :: 0 <= i < |a| ==> all[i] == a[i];
    assert forall j :: 0 <= j < |b| ==> all[|a| + j] == b[j];
    forall i, j | 0 <= i < |a| && 0 <= j < |b| ensures Follows(ObservationOf(a[i]), ObservationOf(b[j])) {
      assert Follows(ObservationOf(all[i]), ObservationOf(all[|a| + j]));
    }
    forall i, j | 0 <= i < j < |b| ensures Follows(ObservationOf(b[i]), ObservationOf(b[j])) {
      assert Follows(ObservationOf(all[|a| + i]), ObservationOf(all[|a| + j]));
    }
  }

  // The rows of a run are steady and come from the polls.
  ghost predicate SteadyStore(st: Store, polled: seq<Snap>) {
    SteadyRows(st.rows) && forall r :: r in st.rows ==> exists s :: s in polled && r == ObservationOf(s)
  }

  lemma SteadyPoll(st: Store, step: Step, polled: seq<Snap>)
    requires step.Poll? && Steady(polled + step.snaps) && SteadyStore(st, polled)
    ensures !StepLoses(st, step)
    ensures SteadyStore(CycleStore(st, step.snaps, step.resolvable, step.now, step.batch, step.maxSize),
                        polled + step.snaps)
  {
    var w := Written(st, step.snaps, step.resolvable, step.now, step.batch);
    SteadyParts(polled, step.snaps);
    WrittenArePolled(st, step.snaps, step.resolvable, step.now, step.batch);
    SteadyTimesLoseNothing(st.rows, w);
    CycleWrites(st, step.snaps, step.resolvable, step.now, step.batch, step.maxSize);
    forall r | r in InsertRows(st.rows, w) ensures exists s :: s in polled + step.snaps && r == ObservationOf(s) {
      InsertedFrom(st.rows, w, r);
    }
  }

  lemma PrefixLoses(steps: seq<Step>, n: nat, m: nat)
    requires m < n <= |steps|
    ensures StepLoses(RunStore(steps[..m]), steps[m]) <==> StepLoses(RunStore(steps[..n][..m]), steps[..n][m])
  {
    assert steps[..n][..m] == steps[..m];
  }

  lemma {:induction false} SteadyRunLosesNothing(steps: seq<Step>)
    requires Steady(Polled(steps))
    ensures forall n :: 0 <= n < |steps| ==> !StepLoses(RunStore(steps[..n]), steps[n])
    ensures SteadyStore(RunStore(steps), Polled(steps))
  {
    if steps != [] {
      var n := |steps| - 1;
      var init, last := steps[..n], steps[n];
      SteadyParts(Polled(init), if last.Poll? then last.snaps else []);
      SteadyRunLosesNothing(init);
      if last.Poll? { SteadyPoll(RunStore(init), last, Polled(init)); }
      forall m | 0 <= m < |steps| ensures !StepLoses(RunStore(steps[..m]), steps[m]) {
        if m < n { PrefixLoses(steps, n, m); }
      }
    }
  }

  // So every run is faithful whose polls bring each key's quotes in order of capture
  // time and never two prices under one time, whatever fails, is evicted or restarts.
  lemma SteadyRunIsFaithful(steps: seq<Step>)
    requires Steady(Polled(steps))
    ensures Faithful(RunStore(steps).cache.entries, RunStore(steps).rows, RunObserved(steps))
  {
    SteadyRunLosesNothing(steps);
    RunIsFaithful(steps);
  }
}
