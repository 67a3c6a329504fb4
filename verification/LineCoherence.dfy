// Which market group a re-priced pick reads: the lookup maps built from the
// anchored fairs and the grouped prices, and why every value a pick receives
// comes from one and the same line.

module LineCoherence {
  import opened Common
  import opened VocabMerge

  // The devigged fair of one group: its anchor book, the fair probability per
  // selection, and whether the devig fell back.
  datatype Fair = Fair(book: string, probability: map<string, real>, fellBack: bool)

  type Fairs = map<GroupKey, Fair>

  // Line-blind: (event, market, selection).
  datatype PickKey = PickKey(event: string, market: string, selection: string)

  datatype ExactKey = ExactKey(key: PickKey, detail: string)

  datatype Anchored = Anchored(fair: real, anchor: string, fellBack: bool)

  datatype Quoted = Quoted(books: Books, captured: Times)

  const NOTHING := Quoted(map[], map[])

  // The dictionaries the pass fills.
  datatype Maps = Maps(detailByKey: map<PickKey, Option<string>>, ambiguous: set<PickKey>,
                       fairByKey: map<PickKey, Anchored>, fairByExact: map<ExactKey, Anchored>,
                       quoteByKey: map<PickKey, Quoted>, quoteByExact: map<ExactKey, Quoted>)

  const EMPTY := Maps(map[], {}, map[], map[], map[], map[])

  // A selection of a group.
  datatype Entry = Entry(group: GroupKey, selection: string)

  function KeyOf(e: Entry): PickKey { PickKey(e.group.event, e.group.market, e.selection) }

  function AnchoredOf(fairs: Fairs, e: Entry): Anchored
    requires e.group in fairs && e.selection in fairs[e.group].probability
  {
    Anchored(fairs[e.group].probability[e.selection], fairs[e.group].book, fairs[e.group].fellBack)
  }

  function QuotedOf(groups: Groups, e: Entry): Quoted {
    if e.group in groups && e.selection in groups[e.group].prices
    then Quoted(groups[e.group].prices[e.selection], groups[e.group].captured) else NOTHING
  }

  // ----- one step of each loop -------------------------------------------------

  function AnchorStep(m: Maps, fairs: Fairs, e: Entry): Maps
    requires e.group in fairs && e.selection in fairs[e.group].probability
  {
    var k, a := KeyOf(e), AnchoredOf(fairs, e);
    m.(fairByExact := match e.group.detail
                      case Some(d) => m.fairByExact[ExactKey(k, d) := a]
                      case None => m.fairByExact,
       ambiguous := if k in m.detailByKey && m.detailByKey[k] != e.group.detail then m.ambiguous + {k} else m.ambiguous,
       detailByKey := m.detailByKey[k := e.group.detail],
       fairByKey := m.fairByKey[k := a])
  }

  function CollectStep(m: Maps, groups: Groups, anchored: set<PickKey>, e: Entry): Maps
    requires e.group in groups && e.selection in groups[e.group].prices
  {
    var k := KeyOf(e);
    if k in m.detailByKey && m.detailByKey[k] != e.group.detail then
      if k in anchored then m else m.(ambiguous := m.ambiguous + {k})
    else
      m.(detailByKey := m.detailByKey[k := e.group.detail], quoteByKey := m.quoteByKey[k := QuotedOf(groups, e)])
  }

  function ExactStep(m: Maps, groups: Groups, e: Entry): Maps
    requires e.group in groups && e.selection in groups[e.group].prices
  {
    match e.group.detail
    case Some(d) => m.(quoteByExact := m.quoteByExact[ExactKey(KeyOf(e), d) := QuotedOf(groups, e)])
    case None => m
  }

  // ----- what the anchored loop leaves behind -----------------------------------

  predicate Anchors(fairs: Fairs, e: Entry) { e.group in fairs && e.selection in fairs[e.group].probability }

  function EntryAt(k: PickKey, detail: Option<string>): Entry {
    Entry(GroupKey(k.event, k.market, detail), k.selection)
  }

  // The labels under which the processed entries carry a key.
  function Details(done: set<Entry>, k: PickKey): set<Option<string>> {
    set e | e in done && KeyOf(e) == k :: e.group.detail
  }

  lemma DetailsIs(done: set<Entry>, k: PickKey, d: Option<string>)
    ensures d in Details(done, k) <==> EntryAt(k, d) in done
  {
    if EntryAt(k, d) in done { assert KeyOf(EntryAt(k, d)) == k; }
    if d in Details(done, k) {
      var e :| e in done && KeyOf(e) == k && e.group.detail == d;
      assert e == EntryAt(k, d);
    }
  }

  lemma DetailsNext(done: set<Entry>, e: Entry, k: PickKey)
    ensures Details(done + {e}, k) == Details(done, k) + (if KeyOf(e) == k then {e.group.detail} else {})
  {
    forall d ensures d in Details(done + {e}, k) <==> d in Details(done, k) || (KeyOf(e) == k && d == e.group.detail) {
      DetailsIs(done, k, d);
      DetailsIs(done + {e}, k, d);
    }
  }

  // The entries processed so far, whatever their order, decide the maps at a key:
  // the key is there when an entry is, one of the entries gave the value, and the
  // key is ambiguous exactly when another label carries it too.
  ghost predicate KeySettled(m: Maps, fairs: Fairs, done: set<Entry>, k: PickKey) {
    if k in m.detailByKey then
      && m.detailByKey[k] in Details(done, k)
      && Anchors(fairs, EntryAt(k, m.detailByKey[k]))
      && k in m.fairByKey && m.fairByKey[k] == AnchoredOf(fairs, EntryAt(k, m.detailByKey[k]))
      && (k in m.ambiguous <==> Details(done, k) != {m.detailByKey[k]})
    else
      Details(done, k) == {} && k !in m.fairByKey && k !in m.ambiguous
  }

  ghost predicate ExactSettled(m: Maps, fairs: Fairs, done: set<Entry>, x: ExactKey) {
    if x in m.fairByExact
    then ExactEntry(x) in done && Anchors(fairs, ExactEntry(x)) && m.fairByExact[x] == AnchoredOf(fairs, ExactEntry(x))
    else ExactEntry(x) !in done
  }

  function ExactEntry(x: ExactKey): Entry { EntryAt(x.key, Some(x.detail)) }

  ghost predicate AnchoredSoFar(m: Maps, fairs: Fairs, done: set<Entry>) {
    && (forall k :: KeySettled(m, fairs, done, k))
    && (forall x :: ExactSettled(m, fairs, done, x))
  }

  lemma AnchorKeepsKey(m: Maps, fairs: Fairs, done: set<Entry>, e: Entry, k: PickKey)
    requires KeySettled(m, fairs, done, k) && Anchors(fairs, e)
    ensures KeySettled(AnchorStep(m, fairs, e), fairs, done + {e}, k)
  {
    DetailsNext(done, e, k);
    if KeyOf(e) == k {
      assert EntryAt(k, e.group.detail) == e;
    }
  }

  lemma AnchorKeepsExact(m: Maps, fairs: Fairs, done: set<Entry>, e: Entry, x: ExactKey)
    requires ExactSettled(m, fairs, done, x) && Anchors(fairs, e)
    ensures ExactSettled(AnchorStep(m, fairs, e), fairs, done + {e}, x)
  {
    if ExactEntry(x) == e {
      assert x == ExactKey(KeyOf(e), x.detail);
    } else {
      assert e.group.detail.Some? ==> ExactEntry(ExactKey(KeyOf(e), e.group.detail.value)) == e;
    }
  }

  lemma AnchorKeeps(m: Maps, fairs: Fairs, done: set<Entry>, e: Entry)
    requires AnchoredSoFar(m, fairs, done) && Anchors(fairs, e)
    ensures AnchoredSoFar(AnchorStep(m, fairs, e), fairs, done + {e})
  {
    forall k { AnchorKeepsKey(m, fairs, done, e, k); }
    forall x { AnchorKeepsExact(m, fairs, done, e, x); }
  }

  // All entries of the anchored groups.
  ghost predicate AllAnchored(fairs: Fairs, done: set<Entry>) { forall e :: e in done <==> Anchors(fairs, e) }

  method AnchorGroups(fairs: Fairs, order: seq<GroupKey>) returns (m: Maps, ghost done: set<Entry>)
    requires Enumerates(order, fairs)
    ensures AnchoredSoFar(m, fairs, done) && AllAnchored(fairs, done)
    ensures m.quoteByKey == map[] && m.quoteByExact == map[]
  {
    m, done := EMPTY, {};
    for n := 0 to |order|
      invariant AnchoredSoFar(m, fairs, done) && m.quoteByKey == map[] && m.quoteByExact == map[]
      invariant forall e :: e in done <==> e.group in order[..n] && Anchors(fairs, e)
    {
      var g := order[n];
      var todo := fairs[g].probability.Keys;
      while todo != {}
        invariant todo <= fairs[g].probability.Keys
        invariant AnchoredSoFar(m, fairs, done) && m.quoteByKey == map[] && m.quoteByExact == map[]
        invariant forall e :: e in done <==>
          (e.group in order[..n] && Anchors(fairs, e)) || (e.group == g && Anchors(fairs, e) && e.selection !in todo)
      {
        var sel :| sel in todo;
        AnchorKeeps(m, fairs, done, Entry(g, sel));
        m, done, todo := AnchorStep(m, fairs, Entry(g, sel)), done + {Entry(g, sel)}, todo - {sel};
      }
      assert order[..n + 1] == order[..n] + [g];
    }
    assert order[..|order|] == order;
  }

  // ----- what the price loops leave behind ------------------------------------

  predicate Quotes(groups: Groups, e: Entry) { e.group in groups && e.selection in groups[e.group].prices }

  // For an anchored key, only the anchored line's own prices are collected.
  ghost predicate KeyCollected(m: Maps, m0: Maps, groups: Groups, done: set<Entry>, k: PickKey) {
    k in m0.detailByKey ==>
      && k in m.detailByKey && m.detailByKey[k] == m0.detailByKey[k]
      && (k in m.ambiguous <==> k in m0.ambiguous)
      && var e := EntryAt(k, m0.detailByKey[k]);
         if e in done then k in m.quoteByKey && m.quoteByKey[k] == QuotedOf(groups, e) else k !in m.quoteByKey
  }

  // Of a key without an anchor the first line is kept, and a second one makes it
  // ambiguous.
  ghost predicate LooseCollected(m: Maps, m0: Maps, groups: Groups, done: set<Entry>, k: PickKey) {
    k !in m0.detailByKey && k !in m0.ambiguous ==>
      if k in m.detailByKey then
        && m.detailByKey[k] in Details(done, k)
        && k in m.quoteByKey && m.quoteByKey[k] == QuotedOf(groups, EntryAt(k, m.detailByKey[k]))
        && (k in m.ambiguous <==> Details(done, k) != {m.detailByKey[k]})
      else Details(done, k) == {} && k !in m.quoteByKey && k !in m.ambiguous
  }

  lemma CollectKeepsLoose(m: Maps, m0: Maps, groups: Groups, done: set<Entry>, e: Entry, k: PickKey)
    requires LooseCollected(m, m0, groups, done, k) && Quotes(groups, e)
    ensures LooseCollected(CollectStep(m, groups, m0.detailByKey.Keys, e), m0, groups, done + {e}, k)
  {
    if KeyOf(e) == k {
      CollectKeepsOwn(m, m0, groups, done, e);
    } else {
      DetailsNext(done, e, k);
      assert Details(done + {e}, k) == Details(done, k);
    }
  }

  lemma CollectKeepsOwn(m: Maps, m0: Maps, groups: Groups, done: set<Entry>, e: Entry)
    requires LooseCollected(m, m0, groups, done, KeyOf(e)) && Quotes(groups, e)
    ensures LooseCollected(CollectStep(m, groups, m0.detailByKey.Keys, e), m0, groups, done + {e}, KeyOf(e))
  {
    var k := KeyOf(e);
    if k !in m0.detailByKey {
      DetailsNext(done, e, k);
      CollectLooseHere(m, groups, m0.detailByKey.Keys, e);
    }
  }

  lemma CollectLooseHere(m: Maps, groups: Groups, anchored: set<PickKey>, e: Entry)
    requires Quotes(groups, e) && KeyOf(e) !in anchored
    ensures var k, next := KeyOf(e), CollectStep(m, groups, anchored, e);
            if k in m.detailByKey && m.detailByKey[k] != e.group.detail
            then next == m.(ambiguous := m.ambiguous + {k})
            else next == m.(detailByKey := m.detailByKey[k := e.group.detail],
                            quoteByKey := m.quoteByKey[k := QuotedOf(groups, EntryAt(k, e.group.detail))])
  {
    assert EntryAt(KeyOf(e), e.group.detail) == e;
  }

  lemma CollectKeepsKey(m: Maps, m0: Maps, groups: Groups, done: set<Entry>, e: Entry, k: PickKey)
    requires KeyCollected(m, m0, groups, done, k) && Quotes(groups, e)
    ensures KeyCollected(CollectStep(m, groups, m0.detailByKey.Keys, e), m0, groups, done + {e}, k)
  {
    if KeyOf(e) == k && k in m0.detailByKey {
      assert EntryAt(k, e.group.detail) == e;
    }
  }

  ghost predicate CollectedSoFar(m: Maps, m0: Maps, groups: Groups, done: set<Entry>) {
    && (forall k :: KeyCollected(m, m0, groups, done, k))
    && (forall k :: LooseCollected(m, m0, groups, done, k))
  }

  lemma CollectKeeps(m: Maps, m0: Maps, groups: Groups, done: set<Entry>, e: Entry)
    requires CollectedSoFar(m, m0, groups, done) && Quotes(groups, e)
    ensures CollectedSoFar(CollectStep(m, groups, m0.detailByKey.Keys, e), m0, groups, done + {e})
  {
    forall k { CollectKeepsKey(m, m0, groups, done, e, k); }
    forall k { CollectKeepsLoose(m, m0, groups, done, e, k); }
  }

  method CollectGroupPrices(groups: Groups, order: seq<GroupKey>, m0: Maps) returns (m: Maps, ghost done: set<Entry>)
    requires Enumerates(order, groups) && m0.quoteByKey == map[]
    ensures m.fairByKey == m0.fairByKey && m.fairByExact == m0.fairByExact && m.quoteByExact == m0.quoteByExact
    ensures forall e :: e in done <==> Quotes(groups, e)
    ensures forall k :: KeyCollected(m, m0, groups, done, k) && LooseCollected(m, m0, groups, done, k)
    ensures forall k: PickKey :: k in m0.detailByKey ==>
              OfGroup(groups, GroupKey(k.event, k.market, m0.detailByKey[k]), k.selection, QuoteAt(m.quoteByKey, k))
  {
    m, done := m0, {};
    for n := 0 to |order|
      invariant m.fairByKey == m0.fairByKey && m.fairByExact == m0.fairByExact && m.quoteByExact == m0.quoteByExact
      invariant CollectedSoFar(m, m0, groups, done)
      invariant forall e :: e in done <==> e.group in order[..n] && Quotes(groups, e)
    {
      var g := order[n];
      var todo := groups[g].prices.Keys;
      while todo != {}
        invariant todo <= groups[g].prices.Keys
        invariant m.fairByKey == m0.fairByKey && m.fairByExact == m0.fairByExact && m.quoteByExact == m0.quoteByExact
        invariant CollectedSoFar(m, m0, groups, done)
        invariant forall e :: e in done <==>
          (e.group in order[..n] && Quotes(groups, e)) || (e.group == g && Quotes(groups, e) && e.selection !in todo)
      {
        var sel :| sel in todo;
        CollectKeeps(m, m0, groups, done, Entry(g, sel));
        m := CollectStep(m, groups, m0.detailByKey.Keys, Entry(g, sel));
        done, todo := done + {Entry(g, sel)}, todo - {sel};
      }
      assert order[..n + 1] == order[..n] + [g];
    }
    assert order[..|order|] == order;
    forall k | k in m0.detailByKey
      ensures OfGroup(groups, GroupKey(k.event, k.market, m0.detailByKey[k]), k.selection, QuoteAt(m.quoteByKey, k))
    {
      assert KeyCollected(m, m0, groups, done, k);
    }
  }

  // The books of a selection with the capture times of the same group, or neither.
  ghost predicate OfGroup(groups: Groups, g: GroupKey, selection: string, q: Quoted) {
    if g in groups && selection in groups[g].prices
    then q.books == groups[g].prices[selection] && q.captured == groups[g].captured
    else q.books == map[] && q.captured == map[]
  }

  function QuoteAt<K>(quotes: map<K, Quoted>, k: K): Quoted { if k in quotes then quotes[k] else NOTHING }

  method CollectExact(groups: Groups, order: seq<GroupKey>, m0: Maps) returns (m: Maps)
    requires Enumerates(order, groups) && m0.quoteByExact == map[]
    ensures m == m0.(quoteByExact := m.quoteByExact)
    ensures forall x :: QuoteAt(m.quoteByExact, x) == QuotedOf(groups, ExactEntry(x))
    ensures forall x: ExactKey :: OfGroup(groups, GroupKey(x.key.event, x.key.market, Some(x.detail)), x.key.selection,
                                QuoteAt(m.quoteByExact, x))
  {
    m := m0;
    for n := 0 to |order|
      invariant m == m0.(quoteByExact := m.quoteByExact)
      invariant forall x :: QuoteAt(m.quoteByExact, x) ==
                  if ExactEntry(x).group in order[..n] then QuotedOf(groups, ExactEntry(x)) else NOTHING
    {
      var g := order[n];
      var todo := if g.detail.Some? then groups[g].prices.Keys else {};
      while todo != {}
        invariant todo <= groups[g].prices.Keys && (g.detail.None? ==> todo == {})
        invariant m == m0.(quoteByExact := m.quoteByExact)
        invariant forall x :: QuoteAt(m.quoteByExact, x) ==
                    if ExactEntry(x).group in order[..n] || (ExactEntry(x).group == g && x.key.selection !in todo)
                    then QuotedOf(groups, ExactEntry(x)) else NOTHING
      {
        var sel :| sel in todo;
        m := ExactStep(m, groups, Entry(g, sel));
        todo := todo - {sel};
      }
      assert order[..n + 1] == order[..n] + [g];
    }
    assert order[..|order|] == order;
  }

  // ----- the lookup of one pick --------------------------------------------------

  datatype Reading = Reading(anchored: Anchored, quoted: Quoted)

  // `detail` is the label stamped on the pick at mint; a legacy pick has none.
  function Lookup(m: Maps, k: PickKey, detail: Option<string>): Option<Reading> {
    match detail
    case Some(d) =>
      var x := ExactKey(k, d);
      if x in m.fairByExact then Some(Reading(m.fairByExact[x], QuoteAt(m.quoteByExact, x))) else None
    case None =>
      if k !in m.ambiguous && k in m.fairByKey then Some(Reading(m.fairByKey[k], QuoteAt(m.quoteByKey, k))) else None
  }

  // The anchored line `d` is the only anchored line of the key.
  ghost predicate SoleAnchor(fairs: Fairs, k: PickKey, d: Option<string>) {
    Anchors(fairs, EntryAt(k, d)) && forall c :: Anchors(fairs, EntryAt(k, c)) ==> c == d
  }

  // The line a pick is re-priced from.
  ghost predicate ReadsLine(fairs: Fairs, k: PickKey, detail: Option<string>, d: Option<string>) {
    if detail.Some? then d == detail && Anchors(fairs, EntryAt(k, d)) else SoleAnchor(fairs, k, d)
  }

  // What a pick of this key and stamp should read, with no reference to any loop.
  ghost predicate CoherentAt(m: Maps, groups: Groups, fairs: Fairs, k: PickKey, detail: Option<string>) {
    match Lookup(m, k, detail)
    case None => forall d :: !ReadsLine(fairs, k, detail, d)
    case Some(r) => exists d :: ReadsLine(fairs, k, detail, d) && IsReading(groups, fairs, k, d, r)
  }

  ghost predicate IsReading(groups: Groups, fairs: Fairs, k: PickKey, d: Option<string>, r: Reading) {
    Anchors(fairs, EntryAt(k, d)) && r == Reading(AnchoredOf(fairs, EntryAt(k, d)), QuotedOf(groups, EntryAt(k, d)))
  }

  // A pick is re-priced exactly when it has a line to read, and then fair, anchor,
  // fallback flag, books and capture times are all those of that one line.
  ghost predicate Coherent(m: Maps, groups: Groups, fairs: Fairs) {
    forall k, detail :: CoherentAt(m, groups, fairs, k, detail)
  }

  lemma LegacyCoherent(m: Maps, m0: Maps, groups: Groups, fairs: Fairs, anchored: set<Entry>, quoted: set<Entry>,
                       k: PickKey)
    requires KeySettled(m0, fairs, anchored, k) && AllAnchored(fairs, anchored)
    requires KeyCollected(m, m0, groups, quoted, k) && forall e :: e in quoted <==> Quotes(groups, e)
    requires m.fairByKey == m0.fairByKey
    ensures CoherentAt(m, groups, fairs, k, None)
  {
    forall d ensures d in Details(anchored, k) <==> Anchors(fairs, EntryAt(k, d)) { DetailsIs(anchored, k, d); }
    if k in m0.detailByKey {
      var d := m0.detailByKey[k];
      if k in m0.ambiguous {
        var c :| c in Details(anchored, k) && c != d;
      } else {
        assert SoleAnchor(fairs, k, d);
        assert ReadsLine(fairs, k, None, d);
      }
    }
  }

  lemma StampedCoherent(m: Maps, m0: Maps, groups: Groups, fairs: Fairs, anchored: set<Entry>, k: PickKey, d: string)
    requires ExactSettled(m0, fairs, anchored, ExactKey(k, d)) && AllAnchored(fairs, anchored)
    requires m.fairByExact == m0.fairByExact
    requires QuoteAt(m.quoteByExact, ExactKey(k, d)) == QuotedOf(groups, EntryAt(k, Some(d)))
    ensures CoherentAt(m, groups, fairs, k, Some(d))
  {
    assert ExactEntry(ExactKey(k, d)) == EntryAt(k, Some(d));
    if Anchors(fairs, EntryAt(k, Some(d))) { assert ReadsLine(fairs, k, Some(d), Some(d)); }
  }

  // The same on the fields of the two dictionaries. A stamped pick is answered exactly
  // when its own line is anchored, a legacy one exactly when a single line of its key is;
  // the fair, its anchor book and the fallback flag are those of that group, and so are
  // the books with their capture times, or neither when the group does not price it.
  lemma ReadOffOneLine(m: Maps, groups: Groups, fairs: Fairs, k: PickKey, detail: Option<string>)
    returns (d: Option<string>)
    requires Coherent(m, groups, fairs)
    ensures detail.Some? ==>
              (Lookup(m, k, detail).Some? <==>
                 GroupKey(k.event, k.market, detail) in fairs
                 && k.selection in fairs[GroupKey(k.event, k.market, detail)].probability)
    ensures detail.None? ==>
              (Lookup(m, k, detail).Some? <==> exists c :: IsOnlyLine(fairs, k, c))
    ensures var g := GroupKey(k.event, k.market, d);
            match Lookup(m, k, detail)
            case None => true
            case Some(r) =>
              && (if detail.Some? then d == detail else IsOnlyLine(fairs, k, d))
              && ReadFrom(groups, fairs, k, g, r)
  {
    assert CoherentAt(m, groups, fairs, k, detail);
    d := detail;
    forall c ensures IsOnlyLine(fairs, k, c) <==> SoleAnchor(fairs, k, c) { OnlyIsSole(fairs, k, c); }
    match Lookup(m, k, detail)
    case Some(r) =>
      d :| ReadsLine(fairs, k, detail, d) && IsReading(groups, fairs, k, d, r);
    case None =>
      assert !ReadsLine(fairs, k, detail, detail);
      forall c | SoleAnchor(fairs, k, c) && detail.None? ensures ReadsLine(fairs, k, detail, c) {}
  }

  // Of all lines of the key, the group labelled `d` alone carries a fair for it.
  ghost predicate IsOnlyLine(fairs: Fairs, k: PickKey, d: Option<string>) {
    && GroupKey(k.event, k.market, d) in fairs && k.selection in fairs[GroupKey(k.event, k.market, d)].probability
    && forall g :: g in fairs && g.event == k.event && g.market == k.market && k.selection in fairs[g].probability ==>
         g.detail == d
  }

  lemma OnlyIsSole(fairs: Fairs, k: PickKey, d: Option<string>)
    ensures IsOnlyLine(fairs, k, d) <==> SoleAnchor(fairs, k, d)
  {
    if SoleAnchor(fairs, k, d) {
      forall g | g in fairs && g.event == k.event && g.market == k.market && k.selection in fairs[g].probability
        ensures g.detail == d
      {
        assert Anchors(fairs, EntryAt(k, g.detail)) by { assert g == GroupKey(k.event, k.market, g.detail); }
      }
    }
  }

  method BuildLookup(groups: Groups, fairs: Fairs, fairOrder: seq<GroupKey>, groupOrder: seq<GroupKey>)
    returns (m: Maps)
    requires Enumerates(fairOrder, fairs) && Enumerates(groupOrder, groups)
    ensures Coherent(m, groups, fairs)
    ensures forall k, detail :: Lookup(m, k, detail).Some? ==>
              exists d :: (detail.Some? ==> d == detail) && (detail.None? ==> IsOnlyLine(fairs, k, d))
                       && ReadFrom(groups, fairs, k, GroupKey(k.event, k.market, d), Lookup(m, k, detail).value)
  {
    var m0, anchored := AnchorGroups(fairs, fairOrder);
    var m1, quoted := CollectGroupPrices(groups, groupOrder, m0);
    m := CollectExact(groups, groupOrder, m1);
    forall k, detail ensures CoherentAt(m, groups, fairs, k, detail) {
      match detail
      case None =>
        assert KeySettled(m0, fairs, anchored, k);
        assert KeyCollected(m1, m0, groups, quoted, k);
        LegacyCoherent(m, m0, groups, fairs, anchored, quoted, k);
      case Some(d) =>
        assert ExactEntry(ExactKey(k, d)) == EntryAt(k, Some(d));
        StampedCoherent(m, m0, groups, fairs, anchored, k, d);
    }
    forall k, detail | Lookup(m, k, detail).Some?
      ensures exists d :: (detail.Some? ==> d == detail) && (detail.None? ==> IsOnlyLine(fairs, k, d))
                       && ReadFrom(groups, fairs, k, GroupKey(k.event, k.market, d), Lookup(m, k, detail).value)
    {
      var d := ReadOffOneLine(m, groups, fairs, k, detail);
      assert ReadFrom(groups, fairs, k, GroupKey(k.event, k.market, d), Lookup(m, k, detail).value);
    }
  }

  // Every value of the reading is that of one group.
  ghost predicate ReadFrom(groups: Groups, fairs: Fairs, k: PickKey, g: GroupKey, r: Reading) {
    && g in fairs && k.selection in fairs[g].probability
    && r.anchored.fair == fairs[g].probability[k.selection]
    && r.anchored.anchor == fairs[g].book && r.anchored.fellBack == fairs[g].fellBack
    && OfGroup(groups, g, k.selection, r.quoted)
  }

  // The decision and every value are the same for every order in which the
  // anchored groups and the priced groups are visited.
  lemma LookupOrderFree(m: Maps, m': Maps, groups: Groups, fairs: Fairs, k: PickKey, detail: Option<string>)
    requires Coherent(m, groups, fairs) && Coherent(m', groups, fairs)
    ensures Lookup(m, k, detail) == Lookup(m', k, detail)
  {
    assert CoherentAt(m, groups, fairs, k, detail) && CoherentAt(m', groups, fairs, k, detail);
  }

  // A legacy pick is re-priced only when exactly one line of its key is anchored;
  // a stamped pick only from its own line, however many others collide with it.
  lemma LegacyNeedsOneLine(m: Maps, groups: Groups, fairs: Fairs, k: PickKey, c: Option<string>, d: Option<string>)
    requires Coherent(m, groups, fairs) && c != d
    requires Anchors(fairs, EntryAt(k, c)) && Anchors(fairs, EntryAt(k, d))
    ensures Lookup(m, k, None) == None
    ensures d.Some? ==>
              Lookup(m, k, d) == Some(Reading(AnchoredOf(fairs, EntryAt(k, d)), QuotedOf(groups, EntryAt(k, d))))
  {
    assert CoherentAt(m, groups, fairs, k, None) && CoherentAt(m, groups, fairs, k, d);
    if d.Some? { assert ReadsLine(fairs, k, d, d); }
  }
}
