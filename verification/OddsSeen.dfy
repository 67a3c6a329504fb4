// The cache object and the table, as one polling cycle updates them in place.

module OddsSeen {
  import opened Common
  import opened OddsLog

  class SnapshotTable {
    var rows: seq<Row>

    constructor ()
      ensures rows == []
    {
      rows := [];
    }
  }

  class OddsSeenCache {
    var entries: map<Key, Entry>
    var order: seq<Key>

    constructor ()
      ensures State() == COLD && State().Valid()
    {
      entries, order := map[], [];
    }

    ghost function State(): Cache
      reads this
    {
      Cache(entries, order)
    }

    // `del` for each key in turn.
    method Delete(gone: seq<Key>)
      modifies this
      ensures State() == old(State()).Drop(Keys(gone))
    {
      var i := 0;
      WithoutNothing(order);
      assert Keys(gone[..0]) == {} && entries - {} == entries;
      while i < |gone|
        invariant 0 <= i <= |gone|
        invariant State() == old(State()).Drop(Keys(gone[..i]))
      {
        ghost var before := Keys(gone[..i]);
        WithoutTwice(old(order), before, {gone[i]});
        entries, order := entries - {gone[i]}, Without(order, {gone[i]});
        assert gone[..i + 1] == gone[..i] + [gone[i]];
        assert Keys(gone[..i + 1]) == before + {gone[i]};
        i := i + 1;
      }
      assert gone[..i] == gone;
    }

    method StaleKeys(now: int) returns (stale: seq<Key>)
      requires State().Valid()
      ensures Keys(stale) == Stale(State(), now)
    {
      stale := [];
      var i := 0;
      while i < |order|
        invariant 0 <= i <= |order|
        invariant forall k :: k in stale <==> k in order[..i] && entries[k].seen < now - ODDS_SEEN_TTL
      {
        var k := order[i];
        assert k in order;
        if entries[k].seen < now - ODDS_SEEN_TTL { stale := stale + [k]; }
        i := i + 1;
      }
      assert order[..i] == order;
      assert forall k :: k in Stale(State(), now) <==> k in stale;
    }

    method Sweep(now: int, maxSize: nat)
      requires State().Valid()
      modifies this
      ensures State() == Swept(old(State()), now, maxSize)
    {
      if |order| <= maxSize { return; }
      var stale := StaleKeys(now);
      Delete(stale);
      var live := Cache(entries, order);
      assert live == old(State()).Drop(Stale(old(State()), now));
      var overflow := Overflow(live, maxSize);
      Delete(overflow);
    }

    // The comparison loop: what to write, and what to remember about it.
    method CompareAll(snaps: seq<Snap>, resolvable: set<string>, now: int) returns (toWrite: seq<Snap>, updates: Cache)
      ensures OddsLog.Scan(toWrite, updates) == ScanOf(snaps, resolvable, entries, now)
    {
      toWrite, updates := [], COLD;
      var i := 0;
      while i < |snaps|
        invariant 0 <= i <= |snaps|
        invariant OddsLog.Scan(toWrite, updates) == ScanOf(snaps[..i], resolvable, entries, now)
      {
        var s := snaps[i];
        assert snaps[..i + 1][..i] == snaps[..i];
        i := i + 1;
        if s.event !in resolvable { continue; }
        var last := Known(updates.entries, entries, KeyOf(s));
        if last != Some(s.odds) { toWrite := toWrite + [s]; }
        updates := updates.Put(KeyOf(s), Entry(s.odds, now));
      }
      assert snaps[..i] == snaps;
    }

    // dict.update with the accepted updates, then the sweep.
    method Absorb(updates: Cache, accept: set<string>, now: int)
      requires State().Valid() && updates.Valid()
      modifies this
      ensures State() == Swept(Merged(old(State()), updates, accept), now, ODDS_SEEN_MAX)
      ensures State().Valid() && |order| <= 100000
    {
      MergedValid(State(), updates, accept);
      var merged := Merged(Cache(entries, order), updates, accept);
      SweepBounds(merged, now, ODDS_SEEN_MAX);
      entries, order := merged.entries, merged.order;
      Sweep(now, ODDS_SEEN_MAX);
    }

    // One cycle's change-only append; returns the rows written, None when the
    // write failed.
    method PersistSnapshots(table: SnapshotTable, snaps: seq<Snap>, resolvable: set<string>, now: int, batch: Batch)
      returns (written: Option<int>)
      requires State().Valid()
      modifies this, table
      ensures Store(State(), table.rows)
           == CycleStore(Store(old(State()), old(table.rows)), snaps, resolvable, now, batch, ODDS_SEEN_MAX)
      ensures written.Some? ==> |order| <= 100000
      ensures written.Some? ==> written.value == |table.rows| - |old(table.rows)|
      ensures written.None? <==> batch.Raised? && ScanOf(snaps, resolvable, old(entries), now).toWrite != []
    {
      ScanFacts(snaps, resolvable, entries, now);
      var toWrite, updates := CompareAll(snaps, resolvable, now);
      if toWrite != [] && batch.Raised? { return None; }
      var successful := if toWrite != [] then batch.successful else {};
      var count := |table.rows|;
      table.rows := InsertRows(table.rows, OfEvents(toWrite, successful));
      Absorb(updates, AcceptedEvents(OddsLog.Scan(toWrite, updates), successful), now);
      return Some(|table.rows| - count);
    }
  }
}
