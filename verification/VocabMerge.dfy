// Merging market groups whose labels canonicalise to the same line: the prices
// with their capture times, and why no pair of the two is ever torn apart.

module VocabMerge {
  import opened Common
  import opened FoldDetails

  datatype GroupKey = GroupKey(event: string, market: string, detail: Option<string>)

  type Books = map<string, real>

  type Times = map<(string, string), Option<int>>

  // selection -> book -> odds, and (selection, book) -> capture time
  datatype Priced = Priced(prices: map<string, Books>, captured: Times)

  type Groups = map<GroupKey, Priced>

  function Canonical(g: GroupKey): GroupKey { g.(detail := CanonicalDetail(g.detail)) }

  // dict.get
  function At(times: Times, sel: string, book: string): Option<int> {
    if (sel, book) in times then times[(sel, book)] else None
  }

  // `time` is at least as recent as `prev`; unknown loses to known.
  predicate Fresher(time: Option<int>, prev: Option<int>) { time.Some? && (prev.None? || time.value >= prev.value) }

  // ----- merging one group into another -------------------------------------

  function MergedBooks(sel: string, dst: Books, books: Books, dstTimes: Times, times: Times): Books {
    map b | b in dst.Keys + books.Keys ::
      if b in books && (b !in dst || Fresher(At(times, sel, b), At(dstTimes, sel, b))) then books[b] else dst[b]
  }

  function MergedTimes(dst: Times, src: Times): Times {
    map k | k in dst.Keys + src.Keys ::
      if k in src && (k !in dst || dst[k].None? || Fresher(src[k], dst[k])) then src[k] else dst[k]
  }

  function BooksAt(prices: map<string, Books>, sel: string): Books { if sel in prices then prices[sel] else map[] }

  function MergedAt(dst: Priced, src: Priced, sel: string): Books {
    MergedBooks(sel, BooksAt(dst.prices, sel), BooksAt(src.prices, sel), dst.captured, src.captured)
  }

  function Merged(dst: Priced, src: Priced): Priced {
    Priced(map sel | sel in dst.prices.Keys + src.prices.Keys :: MergedAt(dst, src, sel),
           MergedTimes(dst.captured, src.captured))
  }

  method MergeBooks(sel: string, dst: Books, books: Books, dstTimes: Times, times: Times) returns (merged: Books)
    ensures merged == MergedBooks(sel, dst, books, dstTimes, times)
  {
    merged := dst;
    var todo := books.Keys;
    while todo != {}
      invariant todo <= books.Keys
      invariant merged.Keys == dst.Keys + (books.Keys - todo)
      invariant forall b :: b in merged ==>
        merged[b] == if b in todo then dst[b] else MergedBooks(sel, dst, books, dstTimes, times)[b]
    {
      var book :| book in todo;
      var prev, latest := At(dstTimes, sel, book), At(times, sel, book);
      if book !in merged || (latest.Some? && (prev.None? || latest.value >= prev.value)) {
        merged := merged[book := books[book]];
      }
      todo := todo - {book};
    }
  }

  method MergeTimes(dst: Times, src: Times) returns (merged: Times)
    ensures merged == MergedTimes(dst, src)
  {
    merged := dst;
    var todo := src.Keys;
    while todo != {}
      invariant todo <= src.Keys
      invariant merged.Keys == dst.Keys + (src.Keys - todo)
      invariant forall k :: k in merged ==> merged[k] == if k in todo then dst[k] else MergedTimes(dst, src)[k]
    {
      var k :| k in todo;
      var prev := if k in merged then merged[k] else None;
      if prev.None? || (src[k].Some? && src[k].value >= prev.value) {
        merged := merged[k := src[k]];
      }
      todo := todo - {k};
    }
  }

  method MergePrices(dst: Priced, src: Priced) returns (prices: map<string, Books>)
    ensures prices == Merged(dst, src).prices
  {
    prices := dst.prices;
    var todo := src.prices.Keys;
    while todo != {}
      invariant todo <= src.prices.Keys
      invariant prices.Keys == dst.prices.Keys + (src.prices.Keys - todo)
      invariant forall sel :: sel in prices ==>
        prices[sel] == if sel in src.prices && sel !in todo then MergedAt(dst, src, sel) else BooksAt(dst.prices, sel)
    {
      var sel :| sel in todo;
      var books := MergeBooks(sel, BooksAt(dst.prices, sel), src.prices[sel], dst.captured, src.captured);
      assert books == MergedAt(dst, src, sel);
      prices := prices[sel := books];
      todo := todo - {sel};
    }
    forall sel | sel in dst.prices && sel !in src.prices ensures MergedAt(dst, src, sel) == dst.prices[sel] {
      NothingToMerge(dst, src, sel);
    }
  }

  lemma NothingToMerge(dst: Priced, src: Priced, sel: string)
    requires sel !in src.prices
    ensures MergedAt(dst, src, sel) == BooksAt(dst.prices, sel)
  {
  }

  method MergeInto(dst: Priced, src: Priced) returns (merged: Priced)
    ensures merged == Merged(dst, src)
  {
    var prices := MergePrices(dst, src);
    var times := MergeTimes(dst.captured, src.captured);
    merged := Priced(prices, times);
  }

  // ----- merging all groups -----------------------------------------------------

  // The group a canonical key accumulates from the listed source groups.
  function Accumulated(groups: Groups, order: seq<GroupKey>, c: GroupKey): Option<Priced>
    requires forall g :: g in order ==> g in groups
  {
    if order == [] then None
    else
      var g := order[|order| - 1];
      var sofar := Accumulated(groups, order[..|order| - 1], c);
      if Canonical(g) != c then sofar
      else if sofar.None? then Some(groups[g])
      else Some(Merged(sofar.value, groups[g]))
  }

  ghost predicate Enumerates<K(!new), V>(order: seq<K>, m: map<K, V>) {
    Distinct(order) && forall k :: k in order <==> k in m
  }

  method MergeVocabularyGroups(groups: Groups, order: seq<GroupKey>) returns (out: Groups)
    requires Enumerates(order, groups)
    ensures forall c :: (if c in out then Some(out[c]) else None) == Accumulated(groups, order, c)
  {
    out := map[];
    for n := 0 to |order|
      invariant forall c :: (if c in out then Some(out[c]) else None) == Accumulated(groups, order[..n], c)
    {
      var g := order[n];
      var key := Canonical(g);
      assert order[..n + 1][..n] == order[..n];
      if key !in out {
        out := out[key := groups[g]];
      } else {
        var merged := MergeInto(out[key], groups[g]);
        out := out[key := merged];
      }
    }
    assert order[..|order|] == order;
  }

  // ----- what a merged pair is ---------------------------------------------------

  // Capture keys are exactly the priced outcomes: what grouping snapshots gives.
  ghost predicate Matched(p: Priced) {
    forall sel, book :: (sel, book) in p.captured <==> sel in p.prices && book in p.prices[sel]
  }

  ghost predicate AllMatched(groups: Groups) { forall g :: g in groups ==> Matched(groups[g]) }

  datatype Pair = Pair(odds: real, time: Option<int>)

  function Read(p: Priced, sel: string, book: string): Option<Pair> {
    if sel in p.prices && book in p.prices[sel] then Some(Pair(p.prices[sel][book], At(p.captured, sel, book)))
    else None
  }

  function NewerPair(a: Option<Pair>, b: Option<Pair>): Option<Pair> {
    if b.None? then a else if a.None? || Fresher(b.value.time, a.value.time) then b else a
  }

  lemma MergedRead(dst: Priced, src: Priced, sel: string, book: string)
    requires Matched(dst) && Matched(src)
    ensures Read(Merged(dst, src), sel, book) == NewerPair(Read(dst, sel, book), Read(src, sel, book))
  {
  }

  lemma MergedMatched(dst: Priced, src: Priced)
    requires Matched(dst) && Matched(src)
    ensures Matched(Merged(dst, src))
  {
  }

  // The pair `p` of one source group that canonicalises to `c`.
  ghost predicate From(groups: Groups, order: seq<GroupKey>, c: GroupKey, sel: string, book: string, p: Pair) {
    exists g :: g in order && g in groups && Canonical(g) == c && Read(groups[g], sel, book) == Some(p)
  }

  ghost predicate Latest(groups: Groups, order: seq<GroupKey>, c: GroupKey, sel: string, book: string, p: Pair) {
    && From(groups, order, c, sel, book, p)
    && forall q :: From(groups, order, c, sel, book, q) ==> NotLater(q.time, p.time)
  }

  predicate NotLater(t: Option<int>, u: Option<int>) { t.None? || (u.Some? && t.value <= u.value) }

  lemma FromNext(groups: Groups, order: seq<GroupKey>, c: GroupKey, sel: string, book: string, p: Pair)
    requires order != [] && order[|order| - 1] in groups
    ensures var g := order[|order| - 1];
            From(groups, order, c, sel, book, p) <==>
              From(groups, order[..|order| - 1], c, sel, book, p)
              || (Canonical(g) == c && Read(groups[g], sel, book) == Some(p))
  {
    var init, g := order[..|order| - 1], order[|order| - 1];
    assert order == init + [g];
    if From(groups, init, c, sel, book, p) {
      var w :| w in init && w in groups && Canonical(w) == c && Read(groups[w], sel, book) == Some(p);
      assert w in order;
    }
    assert g in order;
  }

  lemma {:induction false} AccumulatedMatched(groups: Groups, order: seq<GroupKey>, c: GroupKey)
    requires AllMatched(groups) && forall g :: g in order ==> g in groups
    ensures Accumulated(groups, order, c).Some? ==> Matched(Accumulated(groups, order, c).value)
  {
    if order != [] {
      var init, g := order[..|order| - 1], order[|order| - 1];
      AccumulatedMatched(groups, init, c);
      if Canonical(g) == c && Accumulated(groups, init, c).Some? {
        MergedMatched(Accumulated(groups, init, c).value, groups[g]);
      }
    }
  }

  function PairAt(groups: Groups, order: seq<GroupKey>, c: GroupKey, sel: string, book: string): Option<Pair>
    requires forall g :: g in order ==> g in groups
  {
    match Accumulated(groups, order, c) case Some(p) => Read(p, sel, book) case None => None
  }

  lemma PairNext(groups: Groups, order: seq<GroupKey>, c: GroupKey, sel: string, book: string)
    requires AllMatched(groups) && forall g :: g in order ==> g in groups
    requires order != []
    ensures var init, g := order[..|order| - 1], order[|order| - 1];
            PairAt(groups, order, c, sel, book) ==
              if Canonical(g) == c then NewerPair(PairAt(groups, init, c, sel, book), Read(groups[g], sel, book))
              else PairAt(groups, init, c, sel, book)
  {
    var init, g := order[..|order| - 1], order[|order| - 1];
    AccumulatedMatched(groups, init, c);
    if Canonical(g) == c && Accumulated(groups, init, c).Some? {
      MergedRead(Accumulated(groups, init, c).value, groups[g], sel, book);
    }
  }

  // The pair to be found under a canonical key: the latest one, or none at all.
  ghost predicate Told(groups: Groups, order: seq<GroupKey>, c: GroupKey, sel: string, book: string,
                       found: Option<Pair>) {
    match found
    case Some(p) => Latest(groups, order, c, sel, book, p)
    case None => forall p :: !From(groups, order, c, sel, book, p)
  }

  lemma ToldNext(groups: Groups, order: seq<GroupKey>, c: GroupKey, sel: string, book: string, found: Option<Pair>)
    requires order != [] && order[|order| - 1] in groups
    requires Told(groups, order[..|order| - 1], c, sel, book, found)
    ensures var g := order[|order| - 1];
            Told(groups, order, c, sel, book,
                 if Canonical(g) == c then NewerPair(found, Read(groups[g], sel, book)) else found)
  {
    forall p { FromNext(groups, order, c, sel, book, p); }
  }

  // Every merged pair is an untorn pair of one source group with the latest
  // capture time, and nothing any source prices is lost.
  lemma {:induction false} PairsUntorn(groups: Groups, order: seq<GroupKey>, c: GroupKey, sel: string, book: string)
    requires AllMatched(groups) && forall g :: g in order ==> g in groups
    ensures match PairAt(groups, order, c, sel, book)
            case Some(p) => Latest(groups, order, c, sel, book, p)
            case None => forall p :: !From(groups, order, c, sel, book, p)
  {
    if order != [] {
      var init := order[..|order| - 1];
      PairsUntorn(groups, init, c, sel, book);
      PairNext(groups, order, c, sel, book);
      ToldNext(groups, order, c, sel, book, PairAt(groups, init, c, sel, book));
    }
  }

  // The same in the fields of the groups. A merged group prices an outcome exactly when a
  // source group of its event, market and canonical label does; its odds and its capture
  // time are those of one and the same source, and no source was captured later.
  lemma MergedFields(groups: Groups, order: seq<GroupKey>, c: GroupKey, sel: string, book: string)
    returns (g: GroupKey)
    requires AllMatched(groups) && Enumerates(order, groups) && Accumulated(groups, order, c).Some?
    ensures var m := Accumulated(groups, order, c).value;
            && (Quotes(m, sel, book) <==> exists h :: h in groups && Folds(h, c) && Quotes(groups[h], sel, book))
            && (Quotes(m, sel, book) ==>
                  && g in groups && Folds(g, c) && Quotes(groups[g], sel, book)
                  && m.prices[sel][book] == groups[g].prices[sel][book]
                  && (sel, book) in m.captured && (sel, book) in groups[g].captured
                  && m.captured[(sel, book)] == groups[g].captured[(sel, book)])
            && forall h, t :: Quotes(m, sel, book) && h in groups && Folds(h, c) && Quotes(groups[h], sel, book)
                              && (sel, book) in groups[h].captured && groups[h].captured[(sel, book)] == Some(t) ==>
                 m.captured[(sel, book)].Some? && t <= m.captured[(sel, book)].value
  {
    PairsUntorn(groups, order, c, sel, book);
    AccumulatedMatched(groups, order, c);
    var m := Accumulated(groups, order, c).value;
    forall h | h in groups && Folds(h, c) && Quotes(groups[h], sel, book)
      ensures From(groups, order, c, sel, book, Pair(groups[h].prices[sel][book], groups[h].captured[(sel, book)]))
    {
      assert Read(groups[h], sel, book) == Some(Pair(groups[h].prices[sel][book], groups[h].captured[(sel, book)]));
    }
    g := c;
    if Quotes(m, sel, book) {
      g :| g in order && g in groups && Canonical(g) == c
           && Read(groups[g], sel, book) == Some(Pair(m.prices[sel][book], m.captured[(sel, book)]));
    }
  }

  predicate Quotes(p: Priced, sel: string, book: string) { sel in p.prices && book in p.prices[sel] }

  predicate Folds(g: GroupKey, c: GroupKey) {
    g.event == c.event && g.market == c.market && CanonicalDetail(g.detail) == c.detail
  }

  // A canonical key exists in the result exactly when some source group has it.
  lemma {:induction false} KeysUnion(groups: Groups, order: seq<GroupKey>, c: GroupKey)
    requires forall g :: g in order ==> g in groups
    ensures Accumulated(groups, order, c).Some? <==> exists g :: g in order && Canonical(g) == c
  {
    if order != [] {
      KeysUnion(groups, order[..|order| - 1], c);
      KeyNext(groups, order, c);
    }
  }

  lemma KeyNext(groups: Groups, order: seq<GroupKey>, c: GroupKey)
    requires order != []
    ensures (exists g :: g in order && Canonical(g) == c) <==>
              (exists g :: g in order[..|order| - 1] && Canonical(g) == c) || Canonical(order[|order| - 1]) == c
  {
    var init, last := order[..|order| - 1], order[|order| - 1];
    assert order == init + [last];
    if g :| g in init && Canonical(g) == c { assert g in order; }
    assert last in order;
  }

  // ----- order and idempotence --------------------------------------------------

  lemma LatestMoves(groups: Groups, a: seq<GroupKey>, b: seq<GroupKey>, c: GroupKey, sel: string, book: string, p: Pair)
    requires forall g :: g in a <==> g in b
    requires Latest(groups, a, c, sel, book, p)
    ensures Latest(groups, b, c, sel, book, p)
  {
    forall q ensures From(groups, a, c, sel, book, q) <==> From(groups, b, c, sel, book, q) {}
  }

  // When the latest sources agree on the odds, the order in which the groups are
  // visited does not matter.
  lemma MergeOrderFree(groups: Groups, a: seq<GroupKey>, b: seq<GroupKey>, c: GroupKey, sel: string, book: string)
    requires AllMatched(groups) && Enumerates(a, groups) && Enumerates(b, groups)
    requires forall p, q :: Latest(groups, a, c, sel, book, p) && Latest(groups, a, c, sel, book, q) ==> p == q
    ensures PairAt(groups, a, c, sel, book) == PairAt(groups, b, c, sel, book)
  {
    PairsUntorn(groups, a, c, sel, book);
    PairsUntorn(groups, b, c, sel, book);
    var x, y := PairAt(groups, a, c, sel, book), PairAt(groups, b, c, sel, book);
    if y.Some? { LatestMoves(groups, b, a, c, sel, book, y.value); }
    if x.Some? { LatestMoves(groups, a, b, c, sel, book, x.value); }
  }

  // A latest pair is what some order of the groups ends with: a dated one when its
  // group comes last, an undated one when it comes first.
  lemma SomeOrderGives(groups: Groups, a: seq<GroupKey>, c: GroupKey, sel: string, book: string, p: Pair)
    returns (order: seq<GroupKey>)
    requires AllMatched(groups) && Enumerates(a, groups) && Latest(groups, a, c, sel, book, p)
    ensures Enumerates(order, groups) && PairAt(groups, order, c, sel, book) == Some(p)
  {
    var g :| g in a && g in groups && Canonical(g) == c && Read(groups[g], sel, book) == Some(p);
    var rest := Without(a, {g});
    WithoutContents(a, {g});
    if p.time.Some? {
      order := rest + [g];
      LastWins(groups, a, g, rest, c, sel, book, p);
    } else {
      order := [g] + rest;
      forall q | From(groups, a, c, sel, book, q) ensures q.time.None? { assert NotLater(q.time, p.time); }
      FirstStays(groups, a, g, rest, c, sel, book, p);
    }
  }

  lemma LastWins(groups: Groups, a: seq<GroupKey>, g: GroupKey, rest: seq<GroupKey>, c: GroupKey, sel: string,
                 book: string, p: Pair)
    requires AllMatched(groups) && g in groups && Canonical(g) == c && Read(groups[g], sel, book) == Some(p)
    requires forall k :: k in rest ==> k in groups && k in a
    requires Latest(groups, a, c, sel, book, p) && p.time.Some?
    ensures PairAt(groups, rest + [g], c, sel, book) == Some(p)
  {
    var order := rest + [g];
    assert order[..|order| - 1] == rest;
    PairNext(groups, order, c, sel, book);
    PairsUntorn(groups, rest, c, sel, book);
    var x := PairAt(groups, rest, c, sel, book);
    if x.Some? { FromMore(groups, rest, a, c, sel, book, x.value); }
  }

  lemma FromMore(groups: Groups, some: seq<GroupKey>, all: seq<GroupKey>, c: GroupKey, sel: string, book: string,
                 p: Pair)
    requires From(groups, some, c, sel, book, p) && forall g :: g in some ==> g in all
    ensures From(groups, all, c, sel, book, p)
  {
  }

  lemma {:induction false} FirstStays(groups: Groups, a: seq<GroupKey>, g: GroupKey, rest: seq<GroupKey>, c: GroupKey,
                                      sel: string, book: string, p: Pair)
    requires AllMatched(groups) && g in groups && Canonical(g) == c && Read(groups[g], sel, book) == Some(p)
    requires forall k :: k in rest ==> k in groups && k in a
    requires forall q :: From(groups, a, c, sel, book, q) ==> q.time.None?
    ensures PairAt(groups, [g] + rest, c, sel, book) == Some(p)
  {
    var order := [g] + rest;
    if rest == [] {
      assert order[..|order| - 1] == [] && order[|order| - 1] == g;
      PairNext(groups, order, c, sel, book);
    } else {
      var init, k := rest[..|rest| - 1], rest[|rest| - 1];
      assert order[..|order| - 1] == [g] + init && order[|order| - 1] == k && k in rest;
      FirstStays(groups, a, g, init, c, sel, book, p);
      PairNext(groups, order, c, sel, book);
      if Canonical(k) == c && Read(groups[k], sel, book).Some? {
        assert From(groups, a, c, sel, book, Read(groups[k], sel, book).value);
      }
    }
  }

  // So the order matters exactly when two latest sources disagree on the odds.
  lemma MergeOrderFreeIff(groups: Groups, a: seq<GroupKey>, c: GroupKey, sel: string, book: string)
    requires AllMatched(groups) && Enumerates(a, groups)
    ensures (forall b :: Enumerates(b, groups) ==> PairAt(groups, b, c, sel, book) == PairAt(groups, a, c, sel, book))
       <==> (forall p, q :: Latest(groups, a, c, sel, book, p) && Latest(groups, a, c, sel, book, q) ==>
               p.odds == q.odds)
  {
    var agree := forall p, q :: Latest(groups, a, c, sel, book, p) && Latest(groups, a, c, sel, book, q) ==>
        p.odds == q.odds;
    if agree {
      forall b | Enumerates(b, groups) ensures PairAt(groups, b, c, sel, book) == PairAt(groups, a, c, sel, book) {
        LatestTogether(groups, a, c, sel, book);
        MergeOrderFree(groups, a, b, c, sel, book);
      }
    } else {
      var p, q :| Latest(groups, a, c, sel, book, p) && Latest(groups, a, c, sel, book, q) && p.odds != q.odds;
      var x := SomeOrderGives(groups, a, c, sel, book, p);
      var y := SomeOrderGives(groups, a, c, sel, book, q);
      assert PairAt(groups, x, c, sel, book) != PairAt(groups, y, c, sel, book);
    }
  }

  lemma LatestTogether(groups: Groups, a: seq<GroupKey>, c: GroupKey, sel: string, book: string)
    ensures forall p, q :: Latest(groups, a, c, sel, book, p) && Latest(groups, a, c, sel, book, q) ==> p.time == q.time
  {
    forall p, q | Latest(groups, a, c, sel, book, p) && Latest(groups, a, c, sel, book, q) ensures p.time == q.time {
      assert NotLater(p.time, q.time) && NotLater(q.time, p.time);
    }
  }

  lemma {:induction false} AccumulatedOnce(groups: Groups, order: seq<GroupKey>, c: GroupKey)
    requires Distinct(order) && forall g :: g in order ==> g in groups
    requires forall g :: g in order ==> Canonical(g) == g
    ensures Accumulated(groups, order, c) == if c in order then Some(groups[c]) else None
  {
    if order != [] {
      var init, g := order[..|order| - 1], order[|order| - 1];
      assert order == init + [g];
      AccumulatedOnce(groups, init, c);
    }
  }

  // Merging the merged groups again, in any order, changes nothing.
  lemma MergeIdempotent(groups: Groups, order: seq<GroupKey>, out: Groups, again: seq<GroupKey>, c: GroupKey)
    requires Enumerates(order, groups)
    requires forall k :: (if k in out then Some(out[k]) else None) == Accumulated(groups, order, k)
    requires Enumerates(again, out)
    ensures Accumulated(out, again, c) == if c in out then Some(out[c]) else None
  {
    forall k | k in again ensures Canonical(k) == k {
      assert k in out;
      AccumulatedIsCanonical(groups, order, k);
    }
    AccumulatedOnce(out, again, c);
  }

  lemma {:induction false} AccumulatedIsCanonical(groups: Groups, order: seq<GroupKey>, c: GroupKey)
    requires forall g :: g in order ==> g in groups
    requires Accumulated(groups, order, c).Some?
    ensures Canonical(c) == c
  {
    var g := order[|order| - 1];
    if Canonical(g) == c {
      CanonicalIdempotent(g.detail);
    } else {
      AccumulatedIsCanonical(groups, order[..|order| - 1], c);
    }
  }
}
