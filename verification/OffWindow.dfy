// Which match pages an off-window pass scrapes: the capped priority round-robin
// over open picks, and how long a page can be kept waiting.

module OffWindow {
  import opened Common

  // Sixty minutes, in seconds.
  const CLOSE_BOOST_WINDOW := 3600

  // One open pick: its event's page, its tier, when the page was last
  // attempted, and the kickoff.
  datatype PickRow = PickRow(ref: string, premium: bool, attempted: Option<int>, startsAt: Option<int>)

  datatype SortKey = SortKey(premium: bool, imminent: bool, stamp: Option<int>)

  predicate Imminent(row: PickRow, now: Option<int>) {
    now.Some? && row.startsAt.Some? && 0 <= row.startsAt.value - now.value <= CLOSE_BOOST_WINDOW
  }

  function Earlier(a: Option<int>, b: Option<int>): Option<int> {
    if a.None? then b else if b.None? || a.value <= b.value then a else b
  }

  // ----- the aggregate of one page -----------------------------------------

  function Aggregate(k: SortKey, row: PickRow, now: Option<int>, ref: string): SortKey {
    if row.ref != ref then k
    else SortKey(k.premium || row.premium, k.imminent || Imminent(row, now), Earlier(k.stamp, row.attempted))
  }

  function KeyOf(rows: seq<PickRow>, now: Option<int>, ref: string): SortKey {
    if rows == [] then SortKey(false, false, None)
    else Aggregate(KeyOf(rows[..|rows| - 1], now, ref), rows[|rows| - 1], now, ref)
  }

  ghost predicate HasPremium(rows: seq<PickRow>, ref: string) {
    exists row :: row in rows && row.ref == ref && row.premium
  }

  ghost predicate HasImminent(rows: seq<PickRow>, now: Option<int>, ref: string) {
    exists row :: row in rows && row.ref == ref && row.startsAt.Some? && now.Some?
               && now.value <= row.startsAt.value <= now.value + 60 * 60
  }

  ghost predicate IsStamp(rows: seq<PickRow>, ref: string, stamp: Option<int>) {
    && (stamp.Some? ==> exists row :: row in rows && row.ref == ref && row.attempted == stamp)
    && (forall row :: row in rows && row.ref == ref && row.attempted.Some? ==>
          stamp.Some? && stamp.value <= row.attempted.value)
  }

  lemma {:induction false} KeyFlags(rows: seq<PickRow>, now: Option<int>, ref: string)
    ensures KeyOf(rows, now, ref).premium <==> HasPremium(rows, ref)
    ensures KeyOf(rows, now, ref).imminent <==> HasImminent(rows, now, ref)
  {
    if rows != [] {
      var init, row := rows[..|rows| - 1], rows[|rows| - 1];
      KeyFlags(init, now, ref);
      assert rows == init + [row];
      assert HasPremium(rows, ref) <==> HasPremium(init, ref) || (row.ref == ref && row.premium);
      assert HasImminent(rows, now, ref) <==> HasImminent(init, now, ref) || (row.ref == ref && Imminent(row, now));
    }
  }

  lemma {:induction false} KeyStamp(rows: seq<PickRow>, now: Option<int>, ref: string)
    ensures IsStamp(rows, ref, KeyOf(rows, now, ref).stamp)
  {
    if rows != [] {
      var init, row := rows[..|rows| - 1], rows[|rows| - 1];
      KeyStamp(init, now, ref);
      assert rows == init + [row];
      var stamp, stamp0 := KeyOf(rows, now, ref).stamp, KeyOf(init, now, ref).stamp;
      if stamp.Some? && stamp == stamp0 {
        var w :| w in init && w.ref == ref && w.attempted == stamp0;
        assert w in rows;
      }
    }
  }

  // A page is premium or imminent when one of its picks is, unattempted only
  // when none of its picks carries a stamp, and otherwise as stale as its oldest.
  lemma KeyMeaning(rows: seq<PickRow>, now: Option<int>, ref: string)
    ensures var k := KeyOf(rows, now, ref);
            && (k.premium <==> HasPremium(rows, ref))
            && (k.imminent <==> HasImminent(rows, now, ref))
            && IsStamp(rows, ref, k.stamp)
  {
    KeyFlags(rows, now, ref);
    KeyStamp(rows, now, ref);
  }

  // The order in which the database returns the picks does not matter.
  lemma KeyOrderFree(a: seq<PickRow>, b: seq<PickRow>, now: Option<int>, ref: string)
    requires forall row :: row in a <==> row in b
    ensures KeyOf(a, now, ref) == KeyOf(b, now, ref)
  {
    KeyMeaning(a, now, ref);
    KeyMeaning(b, now, ref);
  }

  // ----- the order ----------------------------------------------------------

  // Tuple comparison on (not premium, not imminent, attempted, oldest attempt).
  predicate Before(a: SortKey, b: SortKey) {
    if a.premium != b.premium then a.premium
    else if a.imminent != b.imminent then a.imminent
    else StaleBefore(a.stamp, b.stamp)
  }

  predicate StaleBefore(a: Option<int>, b: Option<int>) { b.Some? && (a.None? || a.value < b.value) }

  // Dictionary keys, in order of first appearance.
  function RefsOf(rows: seq<PickRow>): seq<string> {
    if rows == [] then []
    else
      var refs := RefsOf(rows[..|rows| - 1]);
      if rows[|rows| - 1].ref in refs then refs else refs + [rows[|rows| - 1].ref]
  }

  function KeyAt(keys: map<string, SortKey>, ref: string): SortKey {
    if ref in keys then keys[ref] else SortKey(false, false, None)
  }

  function ByKey(keys: map<string, SortKey>): (string, string) -> bool {
    (a, b) => Before(KeyAt(keys, a), KeyAt(keys, b))
  }

  function SortRefs(refs: seq<string>, keys: map<string, SortKey>): seq<string> { StableSort(refs, ByKey(keys)) }

  function KeysOf(rows: seq<PickRow>, now: Option<int>): map<string, SortKey> {
    map ref | ref in RefsOf(rows) :: KeyOf(rows, now, ref)
  }

  function Ordered(rows: seq<PickRow>, now: Option<int>): seq<string> { SortRefs(RefsOf(rows), KeysOf(rows, now)) }

  function MinStamp(stamps: seq<int>): Option<int> {
    if stamps == [] then None else Earlier(MinStamp(stamps[..|stamps| - 1]), Some(stamps[|stamps| - 1]))
  }

  ghost predicate Lists(refs: seq<string>, keys: set<string>) { forall r :: r in refs <==> r in keys }

  // The loop's dictionaries, one entry per page seen so far.
  ghost predicate Collected(rows: seq<PickRow>, now: Option<int>, refs: seq<string>, hasPremium: map<string, bool>,
                            imminent: map<string, bool>, attempts: map<string, seq<int>>) {
    && Lists(refs, hasPremium.Keys) && imminent.Keys == hasPremium.Keys == attempts.Keys
    && forall r :: KeyOf(rows, now, r) == Entry(r, hasPremium, imminent, attempts)
  }

  function Entry(r: string, hasPremium: map<string, bool>, imminent: map<string, bool>,
                 attempts: map<string, seq<int>>): SortKey {
    SortKey(r in hasPremium && hasPremium[r], r in imminent && imminent[r],
            MinStamp(if r in attempts then attempts[r] else []))
  }

  method OrderOffwindowRefs(rows: seq<PickRow>, now: Option<int>) returns (order: seq<string>)
    ensures order == Ordered(rows, now)
  {
    var refs: seq<string> := [];
    var hasPremium: map<string, bool>, imminent: map<string, bool> := map[], map[];
    var attempts: map<string, seq<int>> := map[];
    for n := 0 to |rows|
      invariant refs == RefsOf(rows[..n])
      invariant Collected(rows[..n], now, refs, hasPremium, imminent, attempts)
    {
      var row := rows[n];
      var ref := row.ref;
      var premium := (ref in hasPremium && hasPremium[ref]) || row.premium;
      var soon := (ref in imminent && imminent[ref]) || Imminent(row, now);
      var stamps := if ref in attempts then attempts[ref] else [];
      MinNext(stamps, row.attempted);
      if row.attempted.Some? { stamps := stamps + [row.attempted.value]; }
      Collect(rows[..n], row, now, refs, hasPremium, imminent, attempts, premium, soon, stamps);
      assert rows[..n + 1] == rows[..n] + [row];
      hasPremium, imminent, attempts := hasPremium[ref := premium], imminent[ref := soon], attempts[ref := stamps];
      if ref !in refs { refs := refs + [ref]; }
    }
    assert rows[..|rows|] == rows;
    CollectedKeys(rows, now, refs, hasPremium, imminent, attempts);
    order := SortRefs(refs, SortKeys(hasPremium, imminent, attempts));
  }

  function SortKeys(hasPremium: map<string, bool>, imminent: map<string, bool>,
                    attempts: map<string, seq<int>>): map<string, SortKey>
    requires imminent.Keys == hasPremium.Keys == attempts.Keys
  {
    map ref | ref in hasPremium :: SortKey(hasPremium[ref], imminent[ref], MinStamp(attempts[ref]))
  }

  lemma CollectedKeys(rows: seq<PickRow>, now: Option<int>, refs: seq<string>, hasPremium: map<string, bool>,
                      imminent: map<string, bool>, attempts: map<string, seq<int>>)
    requires refs == RefsOf(rows) && Collected(rows, now, refs, hasPremium, imminent, attempts)
    ensures SortKeys(hasPremium, imminent, attempts) == KeysOf(rows, now)
  {
    forall ref | ref in hasPremium
      ensures SortKey(hasPremium[ref], imminent[ref], MinStamp(attempts[ref])) == KeyOf(rows, now, ref)
    {
      assert KeyOf(rows, now, ref) == Entry(ref, hasPremium, imminent, attempts);
    }
  }

  lemma KeyNext(rows: seq<PickRow>, row: PickRow, now: Option<int>, ref: string)
    ensures KeyOf(rows + [row], now, ref) == Aggregate(KeyOf(rows, now, ref), row, now, ref)
  {
    assert (rows + [row])[..|rows|] == rows;
  }

  lemma RefsNext(rows: seq<PickRow>, row: PickRow)
    ensures RefsOf(rows + [row]) == if row.ref in RefsOf(rows) then RefsOf(rows) else RefsOf(rows) + [row.ref]
  {
    assert (rows + [row])[..|rows|] == rows;
  }

  lemma MinNext(stamps: seq<int>, attempted: Option<int>)
    ensures MinStamp(if attempted.Some? then stamps + [attempted.value] else stamps)
            == Earlier(MinStamp(stamps), attempted)
  {
    if attempted.Some? { assert (stamps + [attempted.value])[..|stamps|] == stamps; }
  }

  lemma ListsNext(refs: seq<string>, keys: set<string>, ref: string)
    requires Lists(refs, keys)
    ensures Lists(if ref in refs then refs else refs + [ref], keys + {ref})
  {
  }

  lemma KeysNext<T>(m: map<string, T>, ref: string, value: T)
    ensures m[ref := value].Keys == m.Keys + {ref}
  {
  }

  lemma CollectOne(rows: seq<PickRow>, row: PickRow, now: Option<int>, r: string, hasPremium: map<string, bool>,
                   imminent: map<string, bool>, attempts: map<string, seq<int>>, premium: bool, soon: bool,
                   stamps: seq<int>)
    requires KeyOf(rows, now, r) == Entry(r, hasPremium, imminent, attempts)
    requires premium == (Entry(row.ref, hasPremium, imminent, attempts).premium || row.premium)
    requires soon == (Entry(row.ref, hasPremium, imminent, attempts).imminent || Imminent(row, now))
    requires MinStamp(stamps) == Earlier(Entry(row.ref, hasPremium, imminent, attempts).stamp, row.attempted)
    ensures KeyOf(rows + [row], now, r) ==
            Entry(r, hasPremium[row.ref := premium], imminent[row.ref := soon], attempts[row.ref := stamps])
  {
    KeyNext(rows, row, now, r);
    if r != row.ref {
      assert Entry(r, hasPremium[row.ref := premium], imminent[row.ref := soon], attempts[row.ref := stamps])
          == Entry(r, hasPremium, imminent, attempts);
    }
  }

  lemma Collect(rows: seq<PickRow>, row: PickRow, now: Option<int>, refs: seq<string>, hasPremium: map<string, bool>,
                imminent: map<string, bool>, attempts: map<string, seq<int>>, premium: bool, soon: bool,
                stamps: seq<int>)
    requires refs == RefsOf(rows) && Collected(rows, now, refs, hasPremium, imminent, attempts)
    requires premium == (Entry(row.ref, hasPremium, imminent, attempts).premium || row.premium)
    requires soon == (Entry(row.ref, hasPremium, imminent, attempts).imminent || Imminent(row, now))
    requires MinStamp(stamps) == Earlier(Entry(row.ref, hasPremium, imminent, attempts).stamp, row.attempted)
    ensures var refs' := if row.ref in refs then refs else refs + [row.ref];
            && refs' == RefsOf(rows + [row])
            && Collected(rows + [row], now, refs', hasPremium[row.ref := premium], imminent[row.ref := soon],
                         attempts[row.ref := stamps])
  {
    RefsNext(rows, row);
    ListsNext(refs, hasPremium.Keys, row.ref);
    KeysNext(hasPremium, row.ref, premium);
    KeysNext(imminent, row.ref, soon);
    KeysNext(attempts, row.ref, stamps);
    forall r ensures KeyOf(rows + [row], now, r) ==
            Entry(r, hasPremium[row.ref := premium], imminent[row.ref := soon], attempts[row.ref := stamps])
    {
      CollectOne(rows, row, now, r, hasPremium, imminent, attempts, premium, soon, stamps);
    }
  }

  lemma {:induction false} RefsContents(rows: seq<PickRow>)
    ensures Distinct(RefsOf(rows))
    ensures forall ref :: ref in RefsOf(rows) <==> exists row :: row in rows && row.ref == ref
  {
    if rows != [] {
      var init, row := rows[..|rows| - 1], rows[|rows| - 1];
      RefsContents(init);
      assert rows == init + [row];
      forall ref ensures ref in RefsOf(rows) <==> exists w :: w in rows && w.ref == ref {
        if ref in RefsOf(init) { var w :| w in init && w.ref == ref; assert w in rows; }
        if ref == row.ref { assert row in rows; }
      }
    }
  }

  lemma ByKeyIsOrder(keys: map<string, SortKey>)
    ensures WeakOrder(ByKey(keys))
  {
  }

  // Every page once, and no page behind one that should come later.
  lemma OrderedIsFair(rows: seq<PickRow>, now: Option<int>)
    ensures Distinct(Ordered(rows, now))
    ensures forall ref :: ref in Ordered(rows, now) <==> ref in RefsOf(rows)
    ensures Sorted(Ordered(rows, now), ByKey(KeysOf(rows, now)))
  {
    var lt := ByKey(KeysOf(rows, now));
    ByKeyIsOrder(KeysOf(rows, now));
    RefsContents(rows);
    StableSortIsSort(RefsOf(rows), lt);
    DistinctSorted(RefsOf(rows), lt);
    forall ref ensures ref in Ordered(rows, now) <==> ref in RefsOf(rows) { InSorted(RefsOf(rows), lt, ref); }
  }

  // ----- choosing the links ---------------------------------------------------

  // The URL allowlist is a parameter.
  datatype Scope = Scope(allowed: string -> bool, segment: Option<string>, covered: set<string>) {
    predicate Open(ref: string) { allowed(ref) && ref !in covered }

    predicate InSegment(ref: string) {
      segment.Some? && segment.value != "" ==> Contains(ref, "/" + segment.value + "/")
    }

    predicate Eligible(ref: string) { Open(ref) && InSegment(ref) }
  }

  function Fits(scope: Scope): string -> bool { ref => scope.Eligible(ref) }

  function SelectLinks(refs: seq<string>, scope: Scope, cap: nat): seq<string> {
    var links := Filter(ref => scope.Open(ref), refs);
    var inside := Filter(ref => scope.InSegment(ref), links);
    FirstN(if scope.segment.Some? && scope.segment.value != "" then inside else links, cap)
  }

  lemma {:induction false} FilterAll<T>(p: T -> bool, xs: seq<T>)
    requires forall x :: x in xs ==> p(x)
    ensures Filter(p, xs) == xs
  {
    if xs != [] {
      FilterAll(p, xs[..|xs| - 1]);
      assert xs == xs[..|xs| - 1] + [xs[|xs| - 1]];
    }
  }

  lemma SelectIsFilter(refs: seq<string>, scope: Scope, cap: nat)
    ensures SelectLinks(refs, scope, cap) == FirstN(Filter(Fits(scope), refs), cap)
  {
    var open, inside := ref => scope.Open(ref), ref => scope.InSegment(ref);
    FilterTwice(open, inside, Fits(scope), refs);
    if !(scope.segment.Some? && scope.segment.value != "") { FilterAll(inside, Filter(open, refs)); }
  }

  // Covered, foreign and disallowed pages never use a slot: the cap is spent on
  // eligible pages only, and removing all others changes nothing.
  lemma IneligibleUseNoSlot(refs: seq<string>, scope: Scope, cap: nat)
    ensures var eligible := Filter(Fits(scope), refs);
            var links := SelectLinks(refs, scope, cap);
            && links == SelectLinks(eligible, scope, cap)
            && links <= eligible && |links| == (if |eligible| <= cap then |eligible| else cap)
            && (forall ref :: ref in links ==> scope.Eligible(ref))
            && forall ref :: ref in eligible <==>
                 ref in refs && scope.allowed(ref) && ref !in scope.covered
                 && (scope.segment == None || scope.segment == Some("")
                     || exists a, b :: ref == a + ("/" + scope.segment.value + "/") + b)
  {
    var eligible := Filter(Fits(scope), refs);
    SelectIsFilter(refs, scope, cap);
    SelectIsFilter(eligible, scope, cap);
    forall ref ensures ref in eligible <==> ref in refs && scope.Eligible(ref) { FilterIn(Fits(scope), refs, ref); }
    if scope.segment.Some? { forall ref: string { ContainsIff(ref, "/" + scope.segment.value + "/"); } }
    FilterAll(Fits(scope), eligible);
  }

  // An eligible page that is left out was beaten by a full cap of pages, none of
  // which it should have preceded.
  lemma LeftOutMeansFull(rows: seq<PickRow>, now: Option<int>, scope: Scope, cap: nat, r: string)
    requires r in RefsOf(rows) && scope.Eligible(r)
    requires r !in SelectLinks(Ordered(rows, now), scope, cap)
    ensures var links := SelectLinks(Ordered(rows, now), scope, cap);
            && Distinct(links) && |links| == cap
            && (forall q :: q in links ==> q in RefsOf(rows) && scope.Eligible(q))
            && (forall q :: q in links ==> !Before(KeyOf(rows, now, r), KeyOf(rows, now, q)))
  {
    var refs, keys, fits := Ordered(rows, now), KeysOf(rows, now), Fits(scope);
    var lt := ByKey(keys);
    OrderedIsFair(rows, now);
    SelectIsFilter(refs, scope, cap);
    FilterKeepsOrder(fits, refs, lt);
    FilterKeepsDistinct(fits, refs);
    var eligible := Filter(fits, refs);
    FilterIn(fits, refs, r);
    forall q | q in eligible[..cap] ensures q in RefsOf(rows) && scope.Eligible(q) && !lt(r, q) {
      FilterIn(fits, refs, q);
      SplitOrder(eligible, cap, lt, r, q);
    }
  }

  // ----- stamping -------------------------------------------------------------

  // Every open pick of an attempted page gets the stamp, priced or not.
  function Stamped(table: seq<PickRow>, links: set<string>, t: int): seq<PickRow> {
    seq(|table|, i requires 0 <= i < |table| =>
      if table[i].ref in links then table[i].(attempted := Some(t)) else table[i])
  }

  function StampOf(table: seq<PickRow>, ref: string): Option<int> { KeyOf(table, None, ref).stamp }

  lemma {:induction false} StampedIs(table: seq<PickRow>, links: set<string>, t: int, ref: string)
    ensures RefsOf(Stamped(table, links, t)) == RefsOf(table)
    ensures ref !in links ==> StampOf(Stamped(table, links, t), ref) == StampOf(table, ref)
    ensures ref in links && ref in RefsOf(table) ==> StampOf(Stamped(table, links, t), ref) == Some(t)
    ensures ref !in RefsOf(table) ==> StampOf(table, ref) == None && StampOf(Stamped(table, links, t), ref) == None
  {
    if table != [] {
      var init := table[..|table| - 1];
      var after := Stamped(table, links, t);
      assert after[..|after| - 1] == Stamped(init, links, t);
      StampedIs(init, links, t, ref);
    }
  }

  lemma {:induction false} StampAnyNow(table: seq<PickRow>, now: Option<int>, ref: string)
    ensures KeyOf(table, now, ref).stamp == StampOf(table, ref)
  {
    if table != [] { StampAnyNow(table[..|table| - 1], now, ref); }
  }

  // ----- whole runs -----------------------------------------------------------

  // One pass: the picks in whatever order the query returned them, the clock,
  // what the regular cycle already covered, and the attempt stamp.
  datatype Pass = Pass(rows: seq<PickRow>, now: Option<int>, scope: Scope, stamp: int)

  function LinksOf(pass: Pass, cap: nat): seq<string> { SelectLinks(Ordered(pass.rows, pass.now), pass.scope, cap) }

  function Linked(pass: Pass, cap: nat): set<string> { set ref | ref in LinksOf(pass, cap) }

  function After(table: seq<PickRow>, pass: Pass, cap: nat): seq<PickRow> {
    Stamped(table, Linked(pass, cap), pass.stamp)
  }

  // A page is in a higher band when it is premium or imminent where `r` is not.
  predicate HigherBand(a: SortKey, b: SortKey) {
    if a.premium != b.premium then a.premium else a.imminent && !b.imminent
  }

  // The pass reads this table, stamps later than anything in it, may choose `r`,
  // and the pages that compete with `r` are in `high` or `own`.
  ghost predicate Contest(table: seq<PickRow>, pass: Pass, r: string, high: set<string>, own: set<string>) {
    && (forall row :: row in pass.rows <==> row in table)
    && (forall row :: row in table && row.attempted.Some? ==> row.attempted.value < pass.stamp)
    && pass.scope.Eligible(r)
    && forall q :: q in RefsOf(table) && pass.scope.Eligible(q) ==>
         var a, b := KeyOf(table, pass.now, q), KeyOf(table, pass.now, r);
         && (HigherBand(a, b) ==> q in high)
         && (a.premium == b.premium && a.imminent == b.imminent ==> q in own)
  }

  ghost predicate Contested(table: seq<PickRow>, passes: seq<Pass>, cap: nat, r: string, high: set<string>,
                            own: set<string>)
    decreases |passes|
  {
    passes == [] || (Contest(table, passes[0], r, high, own)
                     && Contested(After(table, passes[0], cap), passes[1..], cap, r, high, own))
  }

  // The pages of `own` that may still be taken ahead of `r`.
  function Rivals(table: seq<PickRow>, own: set<string>, r: string): set<string> {
    set q | q in own && q != r && !StaleBefore(StampOf(table, r), StampOf(table, q))
  }

  // Every pass that leaves `r` out uses up cap - |high| of its rivals for good.
  lemma MissCostsRivals(table: seq<PickRow>, pass: Pass, cap: nat, r: string, high: set<string>, own: set<string>)
    requires Contest(table, pass, r, high, own) && r in RefsOf(table) && r !in LinksOf(pass, cap)
    ensures |Rivals(After(table, pass, cap), own, r)| + cap <= |Rivals(table, own, r)| + |high|
  {
    var links, after := LinksOf(pass, cap), After(table, pass, cap);
    SameRefs(pass.rows, table);
    LeftOutMeansFull(pass.rows, pass.now, pass.scope, cap, r);
    DistinctCard(links);
    assert Linked(pass, cap) == set q | q in links;
    var taken := Linked(pass, cap) - high;
    assert Linked(pass, cap) <= taken + high;
    SubsetCard(Linked(pass, cap), taken + high);
    assert |taken + high| <= |taken| + |high|;
    forall q | q in taken ensures q in Rivals(table, own, r) && q !in Rivals(after, own, r) {
      TakenIsRival(table, pass, cap, r, high, own, q);
    }
    forall q | q in Rivals(after, own, r) ensures q in Rivals(table, own, r) {
      StampedIs(table, Linked(pass, cap), pass.stamp, r);
      StampedIs(table, Linked(pass, cap), pass.stamp, q);
      StampIsBelow(table, r, pass.stamp);
      RivalStays(table, pass, cap, own, r, q);
    }
    assert taken !! Rivals(after, own, r);
    assert taken + Rivals(after, own, r) <= Rivals(table, own, r);
    SubsetCard(taken + Rivals(after, own, r), Rivals(table, own, r));
  }

  lemma SubsetCard<T>(a: set<T>, b: set<T>)
    requires a <= b
    ensures |a| <= |b|
  {
    assert b == a + (b - a);
  }

  lemma SameRefs(a: seq<PickRow>, b: seq<PickRow>)
    requires forall row :: row in a <==> row in b
    ensures forall ref :: ref in RefsOf(a) <==> ref in RefsOf(b)
  {
    RefsContents(a);
    RefsContents(b);
  }

  lemma StampIsBelow(table: seq<PickRow>, ref: string, t: int)
    requires forall row :: row in table && row.attempted.Some? ==> row.attempted.value < t
    ensures StampOf(table, ref).Some? ==> StampOf(table, ref).value < t
  {
    KeyMeaning(table, None, ref);
  }

  lemma TakenIsRival(table: seq<PickRow>, pass: Pass, cap: nat, r: string, high: set<string>, own: set<string>,
                     q: string)
    requires Contest(table, pass, r, high, own) && r in RefsOf(table) && r !in LinksOf(pass, cap)
    requires q in LinksOf(pass, cap) && q !in high
    ensures q in Rivals(table, own, r) && q !in Rivals(After(table, pass, cap), own, r)
  {
    SameRefs(pass.rows, table);
    LeftOutMeansFull(pass.rows, pass.now, pass.scope, cap, r);
    KeyOrderFree(pass.rows, table, pass.now, q);
    KeyOrderFree(pass.rows, table, pass.now, r);
    StampAnyNow(table, pass.now, q);
    StampAnyNow(table, pass.now, r);
    StampedIs(table, Linked(pass, cap), pass.stamp, q);
    StampedIs(table, Linked(pass, cap), pass.stamp, r);
    StampIsBelow(table, r, pass.stamp);
  }

  lemma RivalStays(table: seq<PickRow>, pass: Pass, cap: nat, own: set<string>, r: string, q: string)
    requires r !in Linked(pass, cap)
    requires StampOf(table, r).Some? ==> StampOf(table, r).value < pass.stamp
    requires q in Rivals(After(table, pass, cap), own, r)
    ensures q in Rivals(table, own, r)
  {
    StampedIs(table, Linked(pass, cap), pass.stamp, r);
    StampedIs(table, Linked(pass, cap), pass.stamp, q);
  }

  // The passes, in order, that choose `r`.
  ghost predicate ChosenIn(passes: seq<Pass>, cap: nat, r: string) {
    exists i :: 0 <= i < |passes| && r in LinksOf(passes[i], cap)
  }

  lemma {:induction false} MissesAreFew(table: seq<PickRow>, passes: seq<Pass>, cap: nat, r: string,
                                        high: set<string>, own: set<string>)
    requires Contested(table, passes, cap, r, high, own) && r in RefsOf(table)
    requires |high| < cap && !ChosenIn(passes, cap, r)
    ensures |passes| * (cap - |high|) <= |Rivals(table, own, r)|
    decreases |passes|
  {
    if passes != [] {
      assert r !in LinksOf(passes[0], cap);
      MissCostsRivals(table, passes[0], cap, r, high, own);
      var after := After(table, passes[0], cap);
      StampedIs(table, Linked(passes[0], cap), passes[0].stamp, r);
      NotChosenLater(passes, cap, r);
      MissesAreFew(after, passes[1..], cap, r, high, own);
      OneMore(|passes|, cap - |high|);
    }
  }

  lemma NotChosenLater(passes: seq<Pass>, cap: nat, r: string)
    requires passes != [] && !ChosenIn(passes, cap, r)
    ensures !ChosenIn(passes[1..], cap, r)
  {
    assert forall i :: 0 <= i < |passes| - 1 ==> passes[1..][i] == passes[i + 1];
  }

  lemma OneMore(n: int, k: int)
    ensures n * k == (n - 1) * k + k
  {
  }

  // Bounded waiting: a page whose higher bands hold h < cap pages and whose own
  // band holds m is attempted within ceil(m / (cap - h)) passes, whatever the
  // fetches return, however the query orders the picks and whenever the others
  // become imminent.
  lemma BoundedWaiting(table: seq<PickRow>, passes: seq<Pass>, cap: nat, r: string, high: set<string>, own: set<string>)
    requires Contested(table, passes, cap, r, high, own) && r in RefsOf(table) && r in own
    requires |high| < cap
    requires |passes| * (cap - |high|) >= |own|
    ensures ChosenIn(passes, cap, r)
  {
    if !ChosenIn(passes, cap, r) {
      MissesAreFew(table, passes, cap, r, high, own);
      assert Rivals(table, own, r) <= own - {r};
      SubsetCard(Rivals(table, own, r), own - {r});
      assert false;
    }
  }

  // The threshold is exact: while cap eligible pages sit in higher bands the
  // page is not attempted.
  lemma StarvedBelowFullBand(pass: Pass, cap: nat, r: string, high: set<string>)
    requires |high| >= cap
    requires forall q :: q in high ==> q in RefsOf(pass.rows) && pass.scope.Eligible(q)
    requires forall q :: q in high ==> HigherBand(KeyOf(pass.rows, pass.now, q), KeyOf(pass.rows, pass.now, r))
    ensures r !in LinksOf(pass, cap)
  {
    if r in LinksOf(pass, cap) {
      var refs, keys, fits := Ordered(pass.rows, pass.now), KeysOf(pass.rows, pass.now), Fits(pass.scope);
      OrderedIsFair(pass.rows, pass.now);
      SelectIsFilter(refs, pass.scope, cap);
      FilterKeepsOrder(fits, refs, ByKey(keys));
      var eligible := Filter(fits, refs);
      FilterIn(fits, refs, r);
      forall q | q in high ensures q in eligible && ByKey(keys)(q, r) { FilterIn(fits, refs, q); }
      AheadIsShort(eligible, ByKey(keys), cap, r, high);
    }
  }

  // At most n - 1 elements can precede a member of the first n.
  lemma AheadIsShort<T(!new)>(s: seq<T>, lt: (T, T) -> bool, n: nat, r: T, high: set<T>)
    requires Sorted(s, lt) && r in FirstN(s, n)
    requires forall q :: q in high ==> q in s && q != r && lt(q, r)
    ensures |high| < n
  {
    var i :| 0 <= i < |FirstN(s, n)| && FirstN(s, n)[i] == r;
    forall q | q in high ensures q in s[..i] {
      var j :| 0 <= j < |s| && s[j] == q;
      NotAfter(s, lt, i, j);
      assert s[..i][j] == q;
    }
    FewIn(high, s[..i]);
  }

  lemma NotAfter<T>(s: seq<T>, lt: (T, T) -> bool, i: nat, j: nat)
    requires Sorted(s, lt) && i < |s| && j < |s| && lt(s[j], s[i])
    ensures j <= i
  {
  }

  lemma {:induction false} FewIn<T>(a: set<T>, xs: seq<T>)
    requires forall x :: x in a ==> x in xs
    ensures |a| <= |xs|
  {
    if xs == [] {
      assert a == {};
    } else {
      var x := xs[|xs| - 1];
      FewIn(a - {x}, xs[..|xs| - 1]);
    }
  }
}
