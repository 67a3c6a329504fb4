// One newest quote per outcome, and the three views built from the winners.

module Coalesce {
  import opened Common

  datatype Quote = Quote(event: string, market: string, detail: Option<string>, selection: string, book: string,
                         odds: real, liquidity: Option<real>, capturedAt: int, ingestedAt: int)

  datatype Group = Group(event: string, market: string, detail: Option<string>)

  // The dictionary key of an outcome.
  datatype Outcome = Outcome(group: Group, selection: string, book: string)

  function OutcomeOf(q: Quote): Outcome { Outcome(Group(q.event, q.market, q.detail), q.selection, q.book) }

  // Tuple comparison on capture time, ingestion time, lower odds, known
  // liquidity, lower liquidity.
  predicate Outranks(a: Quote, b: Quote) {
    var la, lb := a.liquidity.GetOr(0.0), b.liquidity.GetOr(0.0);
    if a.capturedAt != b.capturedAt then a.capturedAt > b.capturedAt
    else if a.ingestedAt != b.ingestedAt then a.ingestedAt > b.ingestedAt
    else if a.odds != b.odds then a.odds < b.odds
    else if a.liquidity.Some? != b.liquidity.Some? then a.liquidity.Some?
    else la < lb
  }

  // Position of the outcome in the dictionary; its size when absent.
  function Slot(newest: seq<Quote>, o: Outcome): (i: nat)
    ensures i <= |newest|
    ensures i < |newest| ==> OutcomeOf(newest[i]) == o
    ensures forall j :: 0 <= j < i ==> OutcomeOf(newest[j]) != o
  {
    SlotFrom(newest, o, 0)
  }

  function SlotFrom(newest: seq<Quote>, o: Outcome, from: nat): (i: nat)
    requires from <= |newest|
    ensures from <= i <= |newest|
    ensures i < |newest| ==> OutcomeOf(newest[i]) == o
    ensures forall j :: from <= j < i ==> OutcomeOf(newest[j]) != o
    decreases |newest| - from
  {
    if from == |newest| || OutcomeOf(newest[from]) == o then from else SlotFrom(newest, o, from + 1)
  }

  function Absorb(newest: seq<Quote>, q: Quote): seq<Quote> {
    var i := Slot(newest, OutcomeOf(q));
    if i == |newest| then newest + [q]
    else if Outranks(q, newest[i]) then newest[i := q]
    else newest
  }

  // The dictionary after the quotes, as the list of its values in key order.
  function Fold(newest: seq<Quote>, qs: seq<Quote>): seq<Quote> {
    if qs == [] then newest else Absorb(Fold(newest, qs[..|qs| - 1]), qs[|qs| - 1])
  }

  function Coalesced(qs: seq<Quote>): seq<Quote> { Fold([], qs) }

  method CoalesceMarketSnapshots(qs: seq<Quote>) returns (newest: seq<Quote>)
    ensures newest == Coalesced(qs)
  {
    newest := [];
    for n := 0 to |qs|
      invariant newest == Coalesced(qs[..n])
    {
      var q := qs[n];
      var i := Slot(newest, OutcomeOf(q));
      assert qs[..n + 1][..n] == qs[..n];
      if i == |newest| {
        newest := newest + [q];
      } else if Outranks(q, newest[i]) {
        newest := newest[i := q];
      }
    }
    assert qs[..|qs|] == qs;
  }

  // ----- incremental coalescing ------------------------------------------

  ghost predicate OnePerOutcome(qs: seq<Quote>) {
    forall i, j :: 0 <= i < j < |qs| ==> OutcomeOf(qs[i]) != OutcomeOf(qs[j])
  }

  lemma {:induction false} FoldAppend(newest: seq<Quote>, a: seq<Quote>, b: seq<Quote>)
    ensures Fold(newest, a + b) == Fold(Fold(newest, a), b)
  {
    if b == [] {
      assert a + b == a;
    } else {
      assert (a + b)[..|a + b| - 1] == a + b[..|b| - 1];
      FoldAppend(newest, a, b[..|b| - 1]);
    }
  }

  lemma {:induction false} FoldKeepsOnePerOutcome(newest: seq<Quote>, qs: seq<Quote>)
    requires OnePerOutcome(newest)
    ensures OnePerOutcome(Fold(newest, qs))
  {
    if qs != [] {
      FoldKeepsOnePerOutcome(newest, qs[..|qs| - 1]);
      var m, q := Fold(newest, qs[..|qs| - 1]), qs[|qs| - 1];
      var i := Slot(m, OutcomeOf(q));
      forall a, b | 0 <= a < b < |Absorb(m, q)|
        ensures OutcomeOf(Absorb(m, q)[a]) != OutcomeOf(Absorb(m, q)[b])
      {
        if b < |m| { assert OutcomeOf(m[a]) != OutcomeOf(m[b]); }
      }
    }
  }

  lemma {:induction false} FoldDistinctIsIdentity(qs: seq<Quote>)
    requires OnePerOutcome(qs)
    ensures Coalesced(qs) == qs
  {
    if qs != [] {
      var init := qs[..|qs| - 1];
      FoldDistinctIsIdentity(init);
      assert qs == init + [qs[|qs| - 1]];
    }
  }

  // Coalescing a prefix first changes nothing, not even the order: batches can
  // be merged as they arrive.
  lemma CoalesceIncremental(a: seq<Quote>, b: seq<Quote>)
    ensures Coalesced(a + b) == Coalesced(Coalesced(a) + b)
  {
    FoldAppend([], a, b);
    FoldKeepsOnePerOutcome([], a);
    FoldDistinctIsIdentity(Coalesced(a));
    FoldAppend([], Coalesced(a), b);
  }

  // ----- the winner of an outcome -----------------------------------------

  // `q` is a quote of its outcome in `qs` that no other quote of it outranks.
  ghost predicate Wins(qs: seq<Quote>, q: Quote) {
    q in qs && forall p :: p in qs && OutcomeOf(p) == OutcomeOf(q) ==> !Outranks(p, q)
  }

  // Ranks tell quotes of one outcome apart, so the winner is unique.
  lemma WinnerUnique(qs: seq<Quote>, a: Quote, b: Quote)
    requires Wins(qs, a) && Wins(qs, b) && OutcomeOf(a) == OutcomeOf(b)
    ensures a == b
  {
  }

  // The running winner of one outcome.
  function Best(qs: seq<Quote>, o: Outcome): Option<Quote> {
    if qs == [] then None
    else Better(Best(qs[..|qs| - 1], o), qs[|qs| - 1], o)
  }

  function Better(best: Option<Quote>, q: Quote, o: Outcome): Option<Quote> {
    if OutcomeOf(q) != o then best
    else if best.None? || Outranks(q, best.value) then Some(q)
    else best
  }

  lemma {:induction false} BestWins(qs: seq<Quote>, o: Outcome)
    ensures Best(qs, o).Some? ==> Wins(qs, Best(qs, o).value) && OutcomeOf(Best(qs, o).value) == o
    ensures Best(qs, o).None? ==> forall p :: p in qs ==> OutcomeOf(p) != o
  {
    if qs != [] {
      var init, x := qs[..|qs| - 1], qs[|qs| - 1];
      BestWins(init, o);
      assert qs == init + [x];
      if OutcomeOf(x) == o && Best(init, o).Some? {
        var b := Best(init, o).value;
        forall p | p in qs && OutcomeOf(p) == o ensures !Outranks(p, Best(qs, o).value) {
          if p in init { assert !Outranks(p, b); }
        }
      }
    }
  }

  function Lookup(newest: seq<Quote>, o: Outcome): Option<Quote> {
    var i := Slot(newest, o);
    if i < |newest| then Some(newest[i]) else None
  }

  lemma SlotIs(newest: seq<Quote>, o: Outcome, i: nat)
    requires i < |newest| && OutcomeOf(newest[i]) == o
    requires forall j :: 0 <= j < i ==> OutcomeOf(newest[j]) != o
    ensures Slot(newest, o) == i
  {
  }

  lemma AbsorbLookup(newest: seq<Quote>, q: Quote, o: Outcome)
    ensures Lookup(Absorb(newest, q), o) == Better(Lookup(newest, o), q, o)
  {
    var r := Absorb(newest, q);
    var i := Slot(newest, o);
    if i < |newest| {
      assert OutcomeOf(r[i]) == o;
      SlotIs(r, o, i);
    } else if OutcomeOf(q) == o {
      SlotIs(r, o, |newest|);
    } else {
      assert forall j :: 0 <= j < |r| ==> OutcomeOf(r[j]) != o;
    }
  }

  lemma {:induction false} FoldLookup(qs: seq<Quote>, o: Outcome)
    ensures Lookup(Coalesced(qs), o) == Best(qs, o)
  {
    if qs != [] {
      FoldLookup(qs[..|qs| - 1], o);
      AbsorbLookup(Coalesced(qs[..|qs| - 1]), qs[|qs| - 1], o);
    }
  }

  lemma InByLookup(newest: seq<Quote>, q: Quote)
    requires OnePerOutcome(newest)
    ensures q in newest <==> Lookup(newest, OutcomeOf(q)) == Some(q)
  {
    if q in newest {
      var i :| 0 <= i < |newest| && newest[i] == q;
      SlotIs(newest, OutcomeOf(q), i);
    }
  }

  // A quote is kept exactly when it wins, and every outcome keeps one.
  lemma CoalescedAreWinners(qs: seq<Quote>, q: Quote)
    ensures q in Coalesced(qs) <==> Wins(qs, q)
    ensures q in qs ==> exists w :: w in Coalesced(qs) && OutcomeOf(w) == OutcomeOf(q)
  {
    var o := OutcomeOf(q);
    FoldKeepsOnePerOutcome([], qs);
    FoldLookup(qs, o);
    BestWins(qs, o);
    InByLookup(Coalesced(qs), q);
    if Wins(qs, q) { WinnerUnique(qs, q, Best(qs, o).value); }
    if q in qs { InByLookup(Coalesced(qs), Best(qs, o).value); }
  }

  // The winner depends only on which quotes there are, not on their order.
  lemma BestOrderFree(a: seq<Quote>, b: seq<Quote>, o: Outcome)
    requires multiset(a) == multiset(b)
    ensures Best(a, o) == Best(b, o)
  {
    BestWins(a, o);
    BestWins(b, o);
    assert forall p :: p in a <==> p in multiset(a);
    assert forall p :: p in b <==> p in multiset(b);
    if Best(a, o).Some? { WinnerUnique(a, Best(a, o).value, Best(b, o).value); }
  }

  // ----- the views ------------------------------------------------------------

  // group -> selection -> book -> price or liquidity
  type Nested = map<Group, map<string, map<string, real>>>

  // group -> (selection, book) -> timestamp
  type Stamps = map<Group, map<(string, string), int>>

  function Read(m: Nested, o: Outcome): Option<real> {
    if o.group in m && o.selection in m[o.group] && o.book in m[o.group][o.selection]
    then Some(m[o.group][o.selection][o.book]) else None
  }

  function ReadStamp(m: Stamps, o: Outcome): Option<int> {
    if o.group in m && (o.selection, o.book) in m[o.group] then Some(m[o.group][(o.selection, o.book)]) else None
  }

  // setdefault twice, then assign.
  function Put(m: Nested, o: Outcome, v: real): Nested {
    var bySelection := if o.group in m then m[o.group] else map[];
    var byBook := if o.selection in bySelection then bySelection[o.selection] else map[];
    m[o.group := bySelection[o.selection := byBook[o.book := v]]]
  }

  function PutStamp(m: Stamps, o: Outcome, t: int): Stamps {
    m[o.group := (if o.group in m then m[o.group] else map[])[(o.selection, o.book) := t]]
  }

  ghost predicate NoEmpty(m: Nested) {
    forall g :: g in m ==> m[g] != map[] && forall s :: s in m[g] ==> m[g][s] != map[]
  }

  ghost predicate NoEmptyStamps(m: Stamps) { forall g :: g in m ==> m[g] != map[] }

  lemma PutReads(m: Nested, o: Outcome, v: real, p: Outcome)
    ensures Read(Put(m, o, v), p) == if p == o then Some(v) else Read(m, p)
  {
  }

  lemma PutNoEmpty(m: Nested, o: Outcome, v: real)
    requires NoEmpty(m)
    ensures NoEmpty(Put(m, o, v))
  {
    var n := Put(m, o, v);
    assert o.book in n[o.group][o.selection];
    assert o.selection in n[o.group];
  }

  lemma PutStampReads(m: Stamps, o: Outcome, t: int, p: Outcome)
    ensures ReadStamp(PutStamp(m, o, t), p) == if p == o then Some(t) else ReadStamp(m, p)
    ensures NoEmptyStamps(m) ==> NoEmptyStamps(PutStamp(m, o, t))
  {
    assert (o.selection, o.book) in PutStamp(m, o, t)[o.group];
  }

  lemma InnerSame(m: Nested, n: Nested, g: Group)
    requires NoEmpty(m) && NoEmpty(n) && forall o :: Read(m, o) == Read(n, o)
    requires g in m
    ensures g in n && forall s :: s in m[g] ==> s in n[g] && m[g][s] == n[g][s]
  {
    forall s | s in m[g] ensures g in n && s in n[g] && m[g][s] == n[g][s] {
      var b :| b in m[g][s];
      assert Read(m, Outcome(g, s, b)).Some?;
      assert Read(n, Outcome(g, s, b)).Some?;
      forall x ensures x in m[g][s] <==> x in n[g][s]
        ensures x in m[g][s] ==> m[g][s][x] == n[g][s][x] {
        assert Read(m, Outcome(g, s, x)) == Read(n, Outcome(g, s, x));
      }
    }
    var s :| s in m[g];
  }

  // A nested map without empty levels is determined by what can be read from it.
  lemma SameReadsSameMap(m: Nested, n: Nested)
    requires NoEmpty(m) && NoEmpty(n) && forall o :: Read(m, o) == Read(n, o)
    ensures m == n
  {
    forall g | g in m ensures g in n && m[g] == n[g] {
      InnerSame(m, n, g);
      InnerSame(n, m, g);
    }
    forall g | g in n ensures g in m { InnerSame(n, m, g); }
  }

  lemma InnerSameStamps(m: Stamps, n: Stamps, g: Group)
    requires NoEmptyStamps(m) && forall o :: ReadStamp(m, o) == ReadStamp(n, o)
    requires g in m
    ensures g in n && m[g] == n[g]
  {
    var k :| k in m[g];
    assert ReadStamp(m, Outcome(g, k.0, k.1)).Some?;
    forall x ensures x in m[g] <==> x in n[g] ensures x in m[g] ==> m[g][x] == n[g][x] {
      assert ReadStamp(m, Outcome(g, x.0, x.1)) == ReadStamp(n, Outcome(g, x.0, x.1));
    }
  }

  lemma SameReadsSameStamps(m: Stamps, n: Stamps)
    requires NoEmptyStamps(m) && NoEmptyStamps(n) && forall o :: ReadStamp(m, o) == ReadStamp(n, o)
    ensures m == n
  {
    forall g | g in m ensures g in n && m[g] == n[g] { InnerSameStamps(m, n, g); }
    forall g | g in n ensures g in m { InnerSameStamps(n, m, g); }
  }

  // ----- what each view answers -------------------------------------------

  datatype Basis = Observation | Provider

  function FreshnessTime(q: Quote, basis: Basis): int { if basis.Observation? then q.ingestedAt else q.capturedAt }

  ghost predicate PricesOf(qs: seq<Quote>, m: Nested) {
    NoEmpty(m) && forall o :: Read(m, o) == match Best(qs, o) case Some(q) => Some(q.odds) case None => None
  }

  ghost predicate LiquidityOf(qs: seq<Quote>, m: Nested) {
    NoEmpty(m) && forall o :: Read(m, o) == match Best(qs, o) case Some(q) => q.liquidity case None => None
  }

  ghost predicate StampsOf(qs: seq<Quote>, m: Stamps, basis: Basis) {
    NoEmptyStamps(m)
    && forall o :: ReadStamp(m, o) == match Best(qs, o) case Some(q) => Some(FreshnessTime(q, basis)) case None => None
  }

  lemma LookupPrefix(kept: seq<Quote>, n: nat, o: Outcome)
    requires n < |kept| && OnePerOutcome(kept)
    ensures Lookup(kept[..n + 1], o) == if OutcomeOf(kept[n]) == o then Some(kept[n]) else Lookup(kept[..n], o)
  {
    var i := Slot(kept[..n], o);
    if i < n { SlotIs(kept[..n + 1], o, i); }
    else if OutcomeOf(kept[n]) == o { SlotIs(kept[..n + 1], o, n); }
    else {
      var longer := kept[..n + 1];
      assert forall j :: 0 <= j < |longer| ==> OutcomeOf(longer[j]) != o;
    }
  }

  // Before its turn an outcome of the kept list is not found.
  lemma LookupPrefixNone(kept: seq<Quote>, n: nat)
    requires n < |kept| && OnePerOutcome(kept)
    ensures Lookup(kept[..n], OutcomeOf(kept[n])) == None
  {
    var shorter := kept[..n];
    assert forall j :: 0 <= j < |shorter| ==> OutcomeOf(shorter[j]) != OutcomeOf(kept[n]);
  }

  // What a view of the first n kept quotes answers.
  ghost predicate PricesSoFar(m: Nested, kept: seq<Quote>, n: nat)
    requires n <= |kept|
  {
    NoEmpty(m) && forall o :: Read(m, o) == match Lookup(kept[..n], o) case Some(q) => Some(q.odds) case None => None
  }

  ghost predicate StampsSoFar(m: Stamps, kept: seq<Quote>, n: nat, basis: Basis)
    requires n <= |kept|
  {
    NoEmptyStamps(m)
    && forall o :: ReadStamp(m, o) ==
                   match Lookup(kept[..n], o) case Some(q) => Some(FreshnessTime(q, basis)) case None => None
  }

  ghost predicate LiquiditySoFar(m: Nested, kept: seq<Quote>, n: nat)
    requires n <= |kept|
  {
    NoEmpty(m) && forall o :: Read(m, o) == match Lookup(kept[..n], o) case Some(q) => q.liquidity case None => None
  }

  lemma PricesNext(m: Nested, kept: seq<Quote>, n: nat)
    requires n < |kept| && OnePerOutcome(kept) && PricesSoFar(m, kept, n)
    ensures PricesSoFar(Put(m, OutcomeOf(kept[n]), kept[n].odds), kept, n + 1)
  {
    var next := Put(m, OutcomeOf(kept[n]), kept[n].odds);
    PutNoEmpty(m, OutcomeOf(kept[n]), kept[n].odds);
    forall o ensures Read(next, o) == match Lookup(kept[..n + 1], o) case Some(q) => Some(q.odds) case None => None {
      LookupPrefix(kept, n, o);
      PutReads(m, OutcomeOf(kept[n]), kept[n].odds, o);
    }
  }

  lemma StampsNext(m: Stamps, kept: seq<Quote>, n: nat, basis: Basis)
    requires n < |kept| && OnePerOutcome(kept) && StampsSoFar(m, kept, n, basis)
    ensures StampsSoFar(PutStamp(m, OutcomeOf(kept[n]), FreshnessTime(kept[n], basis)), kept, n + 1, basis)
  {
    var t := FreshnessTime(kept[n], basis);
    var next := PutStamp(m, OutcomeOf(kept[n]), t);
    PutStampReads(m, OutcomeOf(kept[n]), t, OutcomeOf(kept[n]));
    forall o ensures ReadStamp(next, o) ==
                     match Lookup(kept[..n + 1], o) case Some(q) => Some(FreshnessTime(q, basis)) case None => None {
      LookupPrefix(kept, n, o);
      PutStampReads(m, OutcomeOf(kept[n]), t, o);
    }
  }

  lemma LiquidityNext(m: Nested, kept: seq<Quote>, n: nat)
    requires n < |kept| && OnePerOutcome(kept) && LiquiditySoFar(m, kept, n)
    ensures var l := kept[n].liquidity;
            LiquiditySoFar(if l.Some? then Put(m, OutcomeOf(kept[n]), l.value) else m, kept, n + 1)
  {
    var l := kept[n].liquidity;
    var next := if l.Some? then Put(m, OutcomeOf(kept[n]), l.value) else m;
    if l.Some? { PutNoEmpty(m, OutcomeOf(kept[n]), l.value); }
    LookupPrefixNone(kept, n);
    forall o ensures Read(next, o) == match Lookup(kept[..n + 1], o) case Some(q) => q.liquidity case None => None {
      LookupPrefix(kept, n, o);
      if l.Some? { PutReads(m, OutcomeOf(kept[n]), l.value, o); }
    }
  }

  method GroupMarketPrices(qs: seq<Quote>) returns (prices: Nested, captured: Stamps)
    ensures PricesOf(qs, prices) && StampsOf(qs, captured, Provider)
  {
    var kept := CoalesceMarketSnapshots(qs);
    FoldKeepsOnePerOutcome([], qs);
    prices, captured := map[], map[];
    for n := 0 to |kept|
      invariant PricesSoFar(prices, kept, n) && StampsSoFar(captured, kept, n, Provider)
    {
      PricesNext(prices, kept, n);
      StampsNext(captured, kept, n, Provider);
      prices := Put(prices, OutcomeOf(kept[n]), kept[n].odds);
      captured := PutStamp(captured, OutcomeOf(kept[n]), kept[n].capturedAt);
    }
    PricesAtEnd(qs, prices);
    StampsAtEnd(qs, captured, Provider);
  }

  lemma PricesAtEnd(qs: seq<Quote>, m: Nested)
    requires PricesSoFar(m, Coalesced(qs), |Coalesced(qs)|)
    ensures PricesOf(qs, m)
  {
    assert Coalesced(qs)[..|Coalesced(qs)|] == Coalesced(qs);
    forall o { FoldLookup(qs, o); }
  }

  lemma StampsAtEnd(qs: seq<Quote>, m: Stamps, basis: Basis)
    requires StampsSoFar(m, Coalesced(qs), |Coalesced(qs)|, basis)
    ensures StampsOf(qs, m, basis)
  {
    assert Coalesced(qs)[..|Coalesced(qs)|] == Coalesced(qs);
    forall o { FoldLookup(qs, o); }
  }

  method GroupMarketFreshnessTimes(qs: seq<Quote>, basis: Basis) returns (times: Stamps)
    ensures StampsOf(qs, times, basis)
  {
    var kept := CoalesceMarketSnapshots(qs);
    FoldKeepsOnePerOutcome([], qs);
    times := map[];
    for n := 0 to |kept|
      invariant StampsSoFar(times, kept, n, basis)
    {
      StampsNext(times, kept, n, basis);
      times := PutStamp(times, OutcomeOf(kept[n]), FreshnessTime(kept[n], basis));
    }
    StampsAtEnd(qs, times, basis);
  }

  method GroupMarketLiquidity(qs: seq<Quote>) returns (liquidity: Nested)
    ensures LiquidityOf(qs, liquidity)
  {
    var kept := CoalesceMarketSnapshots(qs);
    FoldKeepsOnePerOutcome([], qs);
    liquidity := map[];
    for n := 0 to |kept|
      invariant LiquiditySoFar(liquidity, kept, n)
    {
      var q := kept[n];
      LiquidityNext(liquidity, kept, n);
      if q.liquidity.None? { continue; }
      liquidity := Put(liquidity, OutcomeOf(q), q.liquidity.value);
    }
    assert kept[..|kept|] == kept;
    forall o { FoldLookup(qs, o); }
  }

  // For every permutation of the input each view is the same map.
  lemma ViewsOrderFree(a: seq<Quote>, b: seq<Quote>, prices: Nested, prices': Nested,
                       liquidity: Nested, liquidity': Nested, times: Stamps, times': Stamps, basis: Basis)
    requires multiset(a) == multiset(b)
    requires PricesOf(a, prices) && PricesOf(b, prices')
    requires LiquidityOf(a, liquidity) && LiquidityOf(b, liquidity')
    requires StampsOf(a, times, basis) && StampsOf(b, times', basis)
    ensures prices == prices' && liquidity == liquidity' && times == times'
  {
    forall o { BestOrderFree(a, b, o); }
    SameReadsSameMap(prices, prices');
    SameReadsSameMap(liquidity, liquidity');
    SameReadsSameStamps(times, times');
  }

  // The kept quote of an outcome is its newest: latest capture time, then latest
  // ingestion; at one instant the lower odds, then a known liquidity, then the lower one.
  lemma KeptIsNewest(qs: seq<Quote>, q: Quote)
    ensures q in Coalesced(qs) <==>
              q in qs && forall p :: p in qs && SameOutcome(p, q) ==> NotNewer(p, q)
  {
    CoalescedAreWinners(qs, q);
  }

  predicate SameOutcome(p: Quote, q: Quote) {
    && p.event == q.event && p.market == q.market && p.detail == q.detail
    && p.selection == q.selection && p.book == q.book
  }

  predicate NotNewer(p: Quote, q: Quote) {
    && p.capturedAt <= q.capturedAt
    && (p.capturedAt == q.capturedAt ==> p.ingestedAt <= q.ingestedAt)
    && (p.capturedAt == q.capturedAt && p.ingestedAt == q.ingestedAt ==> p.odds >= q.odds)
    && (p.capturedAt == q.capturedAt && p.ingestedAt == q.ingestedAt && p.odds == q.odds ==>
          (q.liquidity.None? ==> p.liquidity.None?)
          && (q.liquidity.Some? && p.liquidity.Some? ==> p.liquidity.value >= q.liquidity.value))
  }

  // The views of one outcome in the fields of that quote: its odds, its own capture time,
  // the time the basis asks for, and its liquidity.
  lemma ViewsReadFields(qs: seq<Quote>, prices: Nested, captured: Stamps, liquidity: Nested, times: Stamps,
                        basis: Basis, q: Quote)
    requires PricesOf(qs, prices) && StampsOf(qs, captured, Provider)
    requires LiquidityOf(qs, liquidity) && StampsOf(qs, times, basis) && q in Coalesced(qs)
    ensures var g := Group(q.event, q.market, q.detail);
            && g in prices && q.selection in prices[g] && q.book in prices[g][q.selection]
            && prices[g][q.selection][q.book] == q.odds
            && g in captured && (q.selection, q.book) in captured[g]
            && captured[g][(q.selection, q.book)] == q.capturedAt
            && g in times && (q.selection, q.book) in times[g]
            && times[g][(q.selection, q.book)] == (if basis == Provider then q.capturedAt else q.ingestedAt)
            && (q.liquidity.Some? <==>
                  g in liquidity && q.selection in liquidity[g] && q.book in liquidity[g][q.selection])
            && (q.liquidity.Some? ==> liquidity[g][q.selection][q.book] == q.liquidity.value)
  {
    var o := OutcomeOf(q);
    CoalescedAreWinners(qs, q);
    BestWins(qs, o);
    WinnerUnique(qs, q, Best(qs, o).value);
    assert Read(prices, o) == Some(q.odds) && ReadStamp(captured, o) == Some(q.capturedAt);
    assert Read(liquidity, o) == q.liquidity && ReadStamp(times, o) == Some(FreshnessTime(q, basis));
  }

  // For each outcome all views read one and the same snapshot, and it is the
  // one no other quote of the outcome outranks.
  lemma ViewsReadOneSnapshot(qs: seq<Quote>, prices: Nested, liquidity: Nested, times: Stamps, basis: Basis, o: Outcome)
    requires PricesOf(qs, prices) && LiquidityOf(qs, liquidity) && StampsOf(qs, times, basis)
    ensures Read(prices, o).Some? <==> exists q :: q in qs && OutcomeOf(q) == o
    ensures Read(prices, o).Some? ==>
              exists q :: Wins(qs, q) && OutcomeOf(q) == o
                       && Read(prices, o) == Some(q.odds) && Read(liquidity, o) == q.liquidity
                       && ReadStamp(times, o) == Some(FreshnessTime(q, basis))
  {
    BestWins(qs, o);
  }
}
