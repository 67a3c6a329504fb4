// The change-only odds log told per line: which snapshots a cycle writes, and the price
// history it keeps for every event, book, line and selection.

module OddsLines {
  import opened Common
  import opened OddsLog

  // The line a snapshot is about: its detail when it has one, else its bare market.
  function LineOf(s: Snap): string {
    match s.detail
    case Some(d) => if d == "" then s.market else d
    case None => s.market
  }

  // The same outcome of the same line at the same book.
  predicate SameOutcome(s: Snap, t: Snap) {
    s.event == t.event && s.book == t.book && s.selection == t.selection && LineOf(s) == LineOf(t)
  }

  // Two snapshots share a key exactly when they quote the same outcome; in particular
  // two labelled lines never do.
  lemma KeysTellLines(s: Snap, t: Snap)
    ensures KeyOf(s) == Key(s.event, s.book, LineOf(s), s.selection)
    ensures KeyOf(s) == KeyOf(t) <==> SameOutcome(s, t)
    ensures s.detail.Some? && t.detail.Some? && s.detail.value != "" && t.detail.value != "" && s.detail != t.detail ==>
              KeyOf(s) != KeyOf(t)
  {
  }

  // ----- which snapshots a cycle writes -------------------------------------------

  // The last of the first n snapshots that resolves and quotes the outcome of `s`.
  function LastBefore(snaps: seq<Snap>, resolvable: set<string>, n: nat, s: Snap): (last: Option<nat>)
    requires n <= |snaps|
    ensures last.Some? ==> last.value < n && snaps[last.value].event in resolvable && SameOutcome(snaps[last.value], s)
    ensures forall j :: (if last.Some? then last.value + 1 else 0) <= j < n ==>
              !(snaps[j].event in resolvable && SameOutcome(snaps[j], s))
  {
    if n == 0 then None
    else if snaps[n - 1].event in resolvable && SameOutcome(snaps[n - 1], s) then Some(n - 1)
    else LastBefore(snaps, resolvable, n - 1, s)
  }

  lemma {:induction false} UpdatesAreLast(snaps: seq<Snap>, resolvable: set<string>, cache: map<Key, Entry>, now: int,
                                          n: nat, s: Snap)
    requires n <= |snaps|
    ensures var updates := ScanOf(snaps[..n], resolvable, cache, now).updates.entries;
            var last := LastBefore(snaps, resolvable, n, s);
            && (KeyOf(s) in updates <==> last.Some?)
            && (last.Some? ==> updates[KeyOf(s)] == Entry(snaps[last.value].odds, now))
  {
    if n != 0 {
      assert snaps[..n][..n - 1] == snaps[..n - 1];
      UpdatesAreLast(snaps, resolvable, cache, now, n - 1, s);
      KeysTellLines(snaps[n - 1], s);
    }
  }

  // The price of the i-th snapshot is known already: the last one of its outcome before
  // it in the batch carries it or, when there is none, the cache does.
  predicate PriceKnown(snaps: seq<Snap>, resolvable: set<string>, cache: map<Key, Entry>, i: nat)
    requires i < |snaps|
  {
    var s := snaps[i];
    match LastBefore(snaps, resolvable, i, s)
    case Some(j) => snaps[j].odds == s.odds
    case None =>
      var k := Key(s.event, s.book, LineOf(s), s.selection);
      k in cache && cache[k].odds == s.odds
  }

  // A snapshot is written exactly when its event resolves and its price is not known.
  lemma WrittenIff(snaps: seq<Snap>, resolvable: set<string>, cache: map<Key, Entry>, now: int, i: nat)
    requires i < |snaps|
    ensures ScanOf(snaps[..i + 1], resolvable, cache, now).toWrite
            == ScanOf(snaps[..i], resolvable, cache, now).toWrite
               + (if snaps[i].event in resolvable && !PriceKnown(snaps, resolvable, cache, i) then [snaps[i]] else [])
  {
    assert snaps[..i + 1][..i] == snaps[..i];
    UpdatesAreLast(snaps, resolvable, cache, now, i, snaps[i]);
    KeysTellLines(snaps[i], snaps[i]);
  }

  // Two labelled lines at one price, seen for the first time, are both written.
  lemma BothLinesWritten(s: Snap, t: Snap, now: int)
    requires s.detail.Some? && t.detail.Some? && s.detail.value != "" && t.detail.value != "" && s.detail != t.detail
    ensures ScanOf([s, t], {s.event, t.event}, map[], now).toWrite == [s, t]
  {
    var both, events := [s, t], {s.event, t.event};
    WrittenIff(both, events, map[], now, 0);
    WrittenIff(both, events, map[], now, 1);
    assert both[..0] == [] && both[..1] == [s] && both[..2] == both;
    assert LastBefore(both, events, 1, t) == None;
  }

  // ----- the history of one line ------------------------------------------------------

  predicate Quotes(s: Snap, event: string, book: string, line: string, selection: string) {
    s.event == event && s.book == book && s.selection == selection && LineOf(s) == line
  }

  // The accepted prices of one outcome, in order.
  function PricesSeen(snaps: seq<Snap>, resolvable: set<string>, accept: set<string>, event: string, book: string,
                      line: string, selection: string): seq<real>
  {
    if snaps == [] then []
    else
      var init, s := snaps[..|snaps| - 1], snaps[|snaps| - 1];
      PricesSeen(init, resolvable, accept, event, book, line, selection)
      + if s.event in resolvable && s.event in accept && Quotes(s, event, book, line, selection) then [s.odds] else []
  }

  lemma {:induction false} ObservedArePrices(snaps: seq<Snap>, resolvable: set<string>, accept: set<string>,
                                             event: string, book: string, line: string, selection: string)
    ensures Prices(Observed(snaps, resolvable, accept), Key(event, book, line, selection))
            == PricesSeen(snaps, resolvable, accept, event, book, line, selection)
  {
    if snaps != [] {
      var init, s := snaps[..|snaps| - 1], snaps[|snaps| - 1];
      ObservedArePrices(init, resolvable, accept, event, book, line, selection);
      KeysTellLines(s, s);
      PricesAppend(Observed(init, resolvable, accept), ObservationOf(s), Key(event, book, line, selection));
    }
  }

  lemma {:induction false} PricesConcat(a: seq<Row>, b: seq<Row>, k: Key)
    ensures Prices(a + b, k) == Prices(a, k) + Prices(b, k)
  {
    if b == [] {
      assert a + b == a;
    } else {
      var init, r := b[..|b| - 1], b[|b| - 1];
      assert a + b == (a + init) + [r];
      PricesConcat(a, init, k);
      PricesAppend(a + init, r, k);
      PricesAppend(init, r, k);
      assert init + [r] == b;
    }
  }

  // What a whole run accepted for one outcome.
  function RunPrices(steps: seq<Step>, event: string, book: string, line: string, selection: string): seq<real> {
    if steps == [] then []
    else
      var init, last := steps[..|steps| - 1], steps[|steps| - 1];
      RunPrices(init, event, book, line, selection)
      + match last
        case Restart => []
        case Poll(snaps, resolvable, now, batch, _) =>
          PricesSeen(snaps, resolvable, Kept(RunStore(init), snaps, resolvable, now, batch), event, book, line,
                     selection)
  }

  lemma {:induction false} RunObservedArePrices(steps: seq<Step>, event: string, book: string, line: string,
                                                selection: string)
    ensures Prices(RunObserved(steps), Key(event, book, line, selection))
            == RunPrices(steps, event, book, line, selection)
  {
    if steps != [] {
      var init, last := steps[..|steps| - 1], steps[|steps| - 1];
      RunObservedArePrices(init, event, book, line, selection);
      if last.Poll? {
        var accept := Kept(RunStore(init), last.snaps, last.resolvable, last.now, last.batch);
        ObservedArePrices(last.snaps, last.resolvable, accept, event, book, line, selection);
        PricesConcat(RunObserved(init), Observed(last.snaps, last.resolvable, accept),
                     Key(event, book, line, selection));
      }
    }
  }

  // Every run whose polls bring the quotes of each outcome in order of capture time, and
  // never two prices of it under one time, logs for every event, book, line and selection
  // exactly the compressed price history it accepted.
  lemma EveryLineKeepsItsHistory(steps: seq<Step>, event: string, book: string, line: string, selection: string)
    requires forall i, j :: 0 <= i < j < |Polled(steps)| && SameOutcome(Polled(steps)[i], Polled(steps)[j]) ==>
               var s, t := Polled(steps)[i], Polled(steps)[j];
               s.capturedAt < t.capturedAt || (s.capturedAt == t.capturedAt && s.odds == t.odds)
    ensures Destutter(Prices(RunStore(steps).rows, Key(event, book, line, selection)))
            == Destutter(RunPrices(steps, event, book, line, selection))
  {
    var all := Polled(steps);
    forall i, j | 0 <= i < j < |all| ensures Follows(ObservationOf(all[i]), ObservationOf(all[j])) {
      KeysTellLines(all[i], all[j]);
    }
    SteadyRunIsFaithful(steps);
    RunObservedArePrices(steps, event, book, line, selection);
  }
}
