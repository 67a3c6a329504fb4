// What the restating run makes of every row, spelled out in labels and dates: which
// rows move to which label, and what the audit entries about them say.

module RelabelRules {
  import opened Relabel

  // Two rows of one observation, up to the bookmaker.
  predicate SameObservation(a: Row, b: Row) {
    a.event == b.event && a.market == b.market && a.selection == b.selection && a.capturedAt == b.capturedAt
  }

  // An illiquid exchange row that is 10bet's: captured after the cutover of 2026-07-05
  // 13:18:39 and before the fix, or in the window from 2026-07-01 on in a market none of
  // the scraped books quotes, with a sportsbook row of its event on the same day. It does
  // not move onto a 10bet row of the same observation.
  ghost predicate IsTenbets(rows: seq<Row>, fix: int, r: Row) {
    && r.book == "Betfair Exchange" && !r.liquid
    && (forall q :: q in rows && SameObservation(q, r) ==> q.book != "10bet")
    && (1783257519 < r.capturedAt < fix
        || (1782864000 <= r.capturedAt <= 1783257519
            && (forall q :: q in rows && q.market == r.market ==>
                  q.book != "Betano.uk" && q.book != "Unibetuk" && q.book != "BetUK")
            && exists q :: q in rows && q.event == r.event && q.book == "Betfair Sportsbook"
                        && q.capturedAt / 86400 == r.capturedAt / 86400))
  }

  // A bare row of the window that moves to the exchange: no exchange row of its
  // observation stays there.
  ghost predicate BareMoves(rows: seq<Row>, fix: int, r: Row) {
    && r.book == "Betfair" && 1782864000 <= r.capturedAt < fix
    && forall q :: q in rows && SameObservation(q, r) && q.book == "Betfair Exchange" ==> IsTenbets(rows, fix, q)
  }

  // A sportsbook row from before the fix that moves to the exchange: neither an exchange
  // row nor a bare one of its observation is there in the end.
  ghost predicate SportsbookMoves(rows: seq<Row>, fix: int, r: Row) {
    && r.book == "Betfair Sportsbook" && r.capturedAt < fix
    && forall q :: q in rows && SameObservation(q, r) ==>
         (q.book == "Betfair Exchange" ==> IsTenbets(rows, fix, q)) && !BareMoves(rows, fix, q)
  }

  function RunContext(rows: seq<Row>, fix: int): Context { Context(OpVocab(rows), fix) }

  lemma TwinIff(rows: seq<Row>, r: Row, book: string)
    ensures HasTwin(rows, r, book) <==> exists q :: q in rows && SameObservation(q, r) && q.book == book
  {
    if HasTwin(rows, r, book) {
      var i :| 0 <= i < |rows| && SameKey(rows[i], r) && rows[i].book == book;
      assert rows[i] in rows && SameObservation(rows[i], r);
    }
    if q :| q in rows && SameObservation(q, r) && q.book == book {
      var i :| 0 <= i < |rows| && rows[i] == q;
      assert SameKey(rows[i], r);
    }
  }

  lemma VocabIff(rows: seq<Row>, market: string)
    ensures market in OpVocab(rows) <==>
              exists q :: q in rows && q.market == market
                && (q.book == "Betano.uk" || q.book == "Unibetuk" || q.book == "BetUK")
  {
  }

  lemma SiblingIff(rows: seq<Row>, r: Row)
    ensures HasSibling(rows, r) <==>
              exists q :: q in rows && q.event == r.event && q.book == "Betfair Sportsbook"
                       && q.capturedAt / 86400 == r.capturedAt / 86400
  {
    if HasSibling(rows, r) {
      var i :| 0 <= i < |rows| && rows[i].event == r.event && rows[i].book == SPORTSBOOK
               && rows[i].capturedAt / DAY == r.capturedAt / DAY;
      assert rows[i] in rows;
    }
    if q :| q in rows && q.event == r.event && q.book == "Betfair Sportsbook"
            && q.capturedAt / 86400 == r.capturedAt / 86400
    {
      var i :| 0 <= i < |rows| && rows[i] == q;
    }
  }

  lemma TenbetIff(rows: seq<Row>, fix: int, r: Row)
    ensures ToTenbet(RunContext(rows, fix), rows, r) <==> IsTenbets(rows, fix, r)
  {
    TwinIff(rows, r, TENBET);
    VocabIff(rows, r.market);
    SiblingIff(rows, r);
  }

  lemma BareIff(rows: seq<Row>, fix: int, r: Row)
    ensures BareToExchange(RunContext(rows, fix), rows, r) <==> BareMoves(rows, fix, r)
  {
    forall q { TenbetIff(rows, fix, q); }
    if BareMoves(rows, fix, r) {
      forall i | 0 <= i < |rows| && SameKey(rows[i], r) ensures !StaysExchange(RunContext(rows, fix), rows, rows[i]) {
        assert rows[i] in rows && SameObservation(rows[i], r);
      }
    }
    if BareToExchange(RunContext(rows, fix), rows, r) {
      forall q | q in rows && SameObservation(q, r) && q.book == "Betfair Exchange" ensures IsTenbets(rows, fix, q) {
        var i :| 0 <= i < |rows| && rows[i] == q;
        assert SameKey(rows[i], r);
      }
    }
  }

  lemma SportsbookIff(rows: seq<Row>, fix: int, r: Row)
    ensures SportsbookToExchange(RunContext(rows, fix), rows, r) <==> SportsbookMoves(rows, fix, r)
  {
    var c := RunContext(rows, fix);
    forall q { TenbetIff(rows, fix, q); }
    forall q { BareIff(rows, fix, q); }
    if SportsbookMoves(rows, fix, r) {
      forall i | 0 <= i < |rows| && SameKey(rows[i], r)
        ensures !StaysExchange(c, rows, rows[i]) && !BareToExchange(c, rows, rows[i])
      {
        assert rows[i] in rows && SameObservation(rows[i], r);
      }
    }
    if SportsbookToExchange(c, rows, r) {
      forall q | q in rows && SameObservation(q, r)
        ensures q.book == "Betfair Exchange" ==> IsTenbets(rows, fix, q)
        ensures !BareMoves(rows, fix, q)
      {
        var i :| 0 <= i < |rows| && rows[i] == q;
        assert SameKey(rows[i], r);
      }
    }
  }

  // The label every row ends with, and that nothing else of it changes.
  lemma FinalLabel(rows: seq<Row>, fix: int, i: nat)
    requires i < |rows|
    ensures var r, after := rows[i], Stage4(RunContext(rows, fix), rows);
            && |after| == |rows|
            && after[i] == r.(book := if IsTenbets(rows, fix, r) then "10bet"
                                      else if BareMoves(rows, fix, r) then "Betfair Exchange"
                                      else if SportsbookMoves(rows, fix, r) then "Betfair Exchange"
                                      else r.book)
  {
    OrderedIsSimultaneous(RunContext(rows, fix), rows, i);
    TenbetIff(rows, fix, rows[i]);
    BareIff(rows, fix, rows[i]);
    SportsbookIff(rows, fix, rows[i]);
  }

  // What the entries say.
  lemma EntriesSay(r: Row)
    ensures AppliedEntry(Bulk, r) == Entry(r.id, "Betfair Exchange", "10bet", "book_mislabel_oe_recycle", true)
    ensures AppliedEntry(Overlap, r)
            == Entry(r.id, "Betfair Exchange", "10bet", "book_mislabel_oe_recycle_overlap", true)
    ensures AppliedEntry(BareBook, r) == Entry(r.id, "Betfair", "Betfair Exchange", "book_mislabel_bf_bare", true)
    ensures AppliedEntry(Sportsbook, r)
            == Entry(r.id, "Betfair Sportsbook", "Betfair Exchange", "book_mislabel_bf_recycle", true)
    ensures ConflictEntry(Bulk, r)
            == Entry(r.id, "Betfair Exchange", "10bet", "book_mislabel_conflict_not_restated", false)
    ensures ConflictEntry(Sportsbook, r)
            == Entry(r.id, "Betfair Sportsbook", "Betfair Exchange", "book_mislabel_conflict_not_restated", false)
    ensures AmbiguousEntry(r) == Entry(r.id, "Betfair Exchange", "10bet", "ambiguous_overlap_not_restated", false)
  {
  }

  // ----- the audit trail ------------------------------------------------------------

  // An illiquid exchange row after the cutover,
  predicate AfterCutover(fix: int, r: Row) {
    r.book == "Betfair Exchange" && !r.liquid && 1783257519 < r.capturedAt < fix
  }

  // or in the overlap window, in a market none of the scraped books quotes.
  ghost predicate BeforeCutover(rows: seq<Row>, r: Row) {
    && r.book == "Betfair Exchange" && !r.liquid && 1782864000 <= r.capturedAt <= 1783257519
    && forall q :: q in rows && q.market == r.market ==>
         q.book != "Betano.uk" && q.book != "Unibetuk" && q.book != "BetUK"
  }

  lemma WindowIff(rows: seq<Row>, fix: int, r: Row)
    ensures Targeted(Bulk, RunContext(rows, fix), rows, r) <==> AfterCutover(fix, r)
    ensures r.book == EXCHANGE && InOverlap(RunContext(rows, fix), r) <==> BeforeCutover(rows, r)
  {
    VocabIff(rows, r.market);
  }

  // An entry of a statement about a row of the table it reads: exactly when that row is
  // selected.
  lemma AppliedHere(st: Statement, c: Context, rows: seq<Row>, i: nat)
    requires DistinctIds(rows) && i < |rows|
    ensures AppliedEntry(st, rows[i]) in Applied(st, c, rows) <==> Selected(st, c, rows, rows[i])
  {
    AppliedIs(st, c, rows, |rows|, AppliedEntry(st, rows[i]));
    if AppliedEntry(st, rows[i]) in Applied(st, c, rows) {
      AppliedAbout(st, c, rows, AppliedEntry(st, rows[i]), i);
    }
  }

  // The entries about the rows that move: one for each of them, and for no other.
  lemma MovedIff(rows: seq<Row>, fix: int, i: nat)
    requires DistinctIds(rows) && i < |rows|
    ensures var r, audit := rows[i], RunAudit([], RunContext(rows, fix), rows);
            && (Entry(r.id, "Betfair Exchange", "10bet", "book_mislabel_oe_recycle", true) in audit
                <==> AfterCutover(fix, r) && IsTenbets(rows, fix, r))
            && (Entry(r.id, "Betfair Exchange", "10bet", "book_mislabel_oe_recycle_overlap", true) in audit
                <==> BeforeCutover(rows, r) && IsTenbets(rows, fix, r))
            && (Entry(r.id, "Betfair", "Betfair Exchange", "book_mislabel_bf_bare", true) in audit
                <==> BareMoves(rows, fix, r))
            && (Entry(r.id, "Betfair Sportsbook", "Betfair Exchange", "book_mislabel_bf_recycle", true) in audit
                <==> SportsbookMoves(rows, fix, r))
  {
    var c, r := RunContext(rows, fix), rows[i];
    EntriesSay(r);
    AllStageIds(c, rows, i);
    TenbetEntries(c, rows, i);
    ExchangeEntries(c, rows, i);
    TenbetIff(rows, fix, r);
    BareIff(rows, fix, r);
    SportsbookIff(rows, fix, r);
    WindowIff(rows, fix, r);
  }

  lemma TenbetEntries(c: Context, rows: seq<Row>, i: nat)
    requires DistinctIds(rows) && i < |rows|
    ensures AppliedEntry(Bulk, rows[i]) in RunAudit([], c, rows) <==> Selected(Bulk, c, rows, rows[i])
    ensures AppliedEntry(Overlap, rows[i]) in RunAudit([], c, rows) <==> Selected(Overlap, c, rows, rows[i])
  {
    AllStageIds(c, rows, i);
    AppliedOnlyIn(Bulk, c, rows, rows[i]);
    AppliedOnlyIn(Overlap, c, rows, rows[i]);
    AppliedHere(Bulk, c, rows, i);
    AppliedHere(Overlap, c, Stage1(c, rows), i);
    OverlapSeesOriginal(c, rows, i);
  }

  lemma ExchangeEntries(c: Context, rows: seq<Row>, i: nat)
    requires DistinctIds(rows) && i < |rows|
    ensures AppliedEntry(BareBook, rows[i]) in RunAudit([], c, rows) <==> BareToExchange(c, rows, rows[i])
    ensures AppliedEntry(Sportsbook, rows[i]) in RunAudit([], c, rows) <==> SportsbookToExchange(c, rows, rows[i])
  {
    AllStageIds(c, rows, i);
    AppliedOnlyIn(BareBook, c, rows, rows[i]);
    AppliedOnlyIn(Sportsbook, c, rows, rows[i]);
    AppliedHere(BareBook, c, Stage2(c, rows), i);
    AppliedHere(Sportsbook, c, Stage3(c, rows), i);
    BareSeesStays(c, rows, i);
    SportsbookSeesBoth(c, rows, i);
  }

  // The entries about rows left as they are: exchange rows after the cutover and
  // sportsbook rows that do not move, and the exchange rows of the overlap window that no
  // sportsbook row of their event and day vouches for.
  lemma LeftIff(rows: seq<Row>, fix: int, i: nat)
    requires DistinctIds(rows) && i < |rows|
    ensures var r, audit := rows[i], RunAudit([], RunContext(rows, fix), rows);
            && (Entry(r.id, "Betfair Exchange", "10bet", "book_mislabel_conflict_not_restated", false) in audit
                <==> AfterCutover(fix, r) && !IsTenbets(rows, fix, r))
            && (Entry(r.id, "Betfair Sportsbook", "Betfair Exchange", "book_mislabel_conflict_not_restated", false)
                  in audit
                <==> r.book == "Betfair Sportsbook" && r.capturedAt < fix && !SportsbookMoves(rows, fix, r))
            && (Entry(r.id, "Betfair Exchange", "10bet", "ambiguous_overlap_not_restated", false) in audit
                <==> BeforeCutover(rows, r)
                     && forall q :: q in rows && q.event == r.event && q.capturedAt / 86400 == r.capturedAt / 86400 ==>
                          q.book != "Betfair Sportsbook")
  {
    var c, r := RunContext(rows, fix), rows[i];
    EntriesSay(r);
    ConflictEntriesIff(c, rows, i);
    AmbiguousIff(c, rows, i);
    TenbetIff(rows, fix, r);
    SportsbookIff(rows, fix, r);
    WindowIff(rows, fix, r);
    SiblingIff(rows, r);
  }

  lemma ConflictEntriesIff(c: Context, rows: seq<Row>, i: nat)
    requires DistinctIds(rows) && i < |rows|
    ensures ConflictEntry(Bulk, rows[i]) in RunAudit([], c, rows) <==>
              Targeted(Bulk, c, rows, rows[i]) && !Selected(Bulk, c, rows, rows[i])
    ensures ConflictEntry(Sportsbook, rows[i]) in RunAudit([], c, rows) <==>
              Targeted(Sportsbook, c, rows, rows[i]) && !SportsbookToExchange(c, rows, rows[i])
  {
    TenbetEntries(c, rows, i);
    ExchangeEntries(c, rows, i);
    if Targeted(Bulk, c, rows, rows[i]) {
      RelabelledXorLogged(Bulk, c, rows, i);
    } else {
      LoggedIsTargeted(Bulk, c, rows, i);
    }
    if Targeted(Sportsbook, c, rows, rows[i]) {
      RelabelledXorLogged(Sportsbook, c, rows, i);
    } else {
      LoggedIsTargeted(Sportsbook, c, rows, i);
    }
  }

  lemma LoggedIsTargeted(st: Statement, c: Context, rows: seq<Row>, i: nat)
    requires st.Bulk? || st.Sportsbook?
    requires DistinctIds(rows) && i < |rows| && !Targeted(st, c, rows, rows[i])
    ensures ConflictEntry(st, rows[i]) !in RunAudit([], c, rows)
  {
    var e := ConflictEntry(st, rows[i]);
    AllStageIds(c, rows, i);
    LoggedOnlyIn(st, c, rows, rows[i]);
    OrderedIsSimultaneous(c, rows, i);
    assert |SPORTSBOOK| == 18 && |EXCHANGE| == 16 && |BARE| == 7 && |TENBET| == 5;
    if st.Bulk? && e in Logged(Bulk, c, Stage1(c, rows)) { LoggedAbout(Bulk, c, Stage1(c, rows), e, i); }
    if st.Sportsbook? && e in Logged(Sportsbook, c, Stage4(c, rows)) {
      LoggedAbout(Sportsbook, c, Stage4(c, rows), e, i);
    }
  }

  lemma AmbiguousIff(c: Context, rows: seq<Row>, i: nat)
    requires DistinctIds(rows) && i < |rows|
    ensures AmbiguousEntry(rows[i]) in RunAudit([], c, rows) <==>
              rows[i].book == EXCHANGE && InOverlap(c, rows[i]) && !HasSibling(rows, rows[i])
  {
    var e := AmbiguousEntry(rows[i]);
    AllStageIds(c, rows, i);
    SiblingsStay(c, rows, i);
    Stage2Is(c, rows, i);
    AmbiguousOnlyIn(c, rows, rows[i]);
    AmbiguousIs(c, Stage2(c, rows), |rows|, e);
    if e in RunAudit([], c, rows) { AmbiguousAbout(c, Stage2(c, rows), e, i); }
    assert |SPORTSBOOK| == 18 && |EXCHANGE| == 16 && |BARE| == 7 && |TENBET| == 5;
  }

  lemma AmbiguousOnlyIn(c: Context, rows: seq<Row>, r: Row)
    ensures AmbiguousEntry(r) in RunAudit([], c, rows)
            <==> AmbiguousEntry(r) in AmbiguousEntries(c, Stage2(c, rows), |Stage2(c, rows)|)
  {
    var e := AmbiguousEntry(r);
    InRunAudit(c, rows, e);
    AppliedIs(Bulk, c, rows, |rows|, e);
    AppliedIs(Overlap, c, Stage1(c, rows), |rows|, e);
    AppliedIs(BareBook, c, Stage2(c, rows), |rows|, e);
    AppliedIs(Sportsbook, c, Stage3(c, rows), |rows|, e);
    LoggedIs(Bulk, c, Stage1(c, rows), |rows|, e);
    LoggedIs(Sportsbook, c, Stage4(c, rows), |rows|, e);
    assert e.reason[0] == 'a' && ConflictEntry(Bulk, r).reason[0] == 'b';
  }

  predicate SameIds(s: seq<Row>, rows: seq<Row>) {
    |s| == |rows| && forall j :: 0 <= j < |rows| ==> s[j].id == rows[j].id
  }

  lemma StagesKeepIds(c: Context, rows: seq<Row>)
    requires DistinctIds(rows)
    ensures SameIds(Stage1(c, rows), rows) && SameIds(Stage2(c, rows), rows)
    ensures SameIds(Stage3(c, rows), rows) && SameIds(Stage4(c, rows), rows)
  {
    forall j | 0 <= j < |rows|
      ensures Stage1(c, rows)[j].id == Stage2(c, rows)[j].id == rows[j].id
      ensures Stage3(c, rows)[j].id == Stage4(c, rows)[j].id == rows[j].id
    {
      AllStageIds(c, rows, j);
    }
  }

  // One of the seven kinds of entries, about that row.
  predicate IsEntryOf(e: Entry, r: Row) {
    || e == AppliedEntry(Bulk, r) || e == AppliedEntry(Overlap, r) || e == AppliedEntry(BareBook, r)
    || e == AppliedEntry(Sportsbook, r) || e == ConflictEntry(Bulk, r) || e == ConflictEntry(Sportsbook, r)
    || e == AmbiguousEntry(r)
  }

  lemma AppliedFrom(st: Statement, c: Context, s: seq<Row>, rows: seq<Row>, e: Entry)
    requires SameIds(s, rows) && e in Applied(st, c, s)
    ensures exists i :: 0 <= i < |rows| && IsEntryOf(e, rows[i])
  {
    AppliedIs(st, c, s, |s|, e);
    var i :| 0 <= i < |s| && e == AppliedEntry(st, s[i]);
    assert e == AppliedEntry(st, rows[i]);
    assert IsEntryOf(e, rows[i]);
  }

  lemma LoggedFrom(st: Statement, c: Context, s: seq<Row>, rows: seq<Row>, e: Entry)
    requires st.Bulk? || st.Sportsbook?
    requires SameIds(s, rows) && e in Logged(st, c, s)
    ensures exists i :: 0 <= i < |rows| && IsEntryOf(e, rows[i])
  {
    LoggedIs(st, c, s, |s|, e);
    var i :| 0 <= i < |s| && e == ConflictEntry(st, s[i]);
    assert e == ConflictEntry(st, rows[i]);
    assert IsEntryOf(e, rows[i]);
  }

  lemma AmbiguousFrom(c: Context, s: seq<Row>, rows: seq<Row>, e: Entry)
    requires SameIds(s, rows) && e in AmbiguousEntries(c, s, |s|)
    ensures exists i :: 0 <= i < |rows| && IsEntryOf(e, rows[i])
  {
    AmbiguousIs(c, s, |s|, e);
    var i :| 0 <= i < |s| && e == AmbiguousEntry(s[i]);
    assert IsEntryOf(e, rows[i]);
  }

  // And the trail holds nothing else.
  lemma NothingElseLogged(rows: seq<Row>, fix: int, e: Entry)
    requires DistinctIds(rows) && e in RunAudit([], RunContext(rows, fix), rows)
    ensures exists i :: 0 <= i < |rows| && IsEntryOf(e, rows[i])
  {
    var c := RunContext(rows, fix);
    InRunAudit(c, rows, e);
    StagesKeepIds(c, rows);
    if e in Applied(Bulk, c, rows) { AppliedFrom(Bulk, c, rows, rows, e); }
    else if e in Logged(Bulk, c, Stage1(c, rows)) { LoggedFrom(Bulk, c, Stage1(c, rows), rows, e); }
    else if e in Applied(Overlap, c, Stage1(c, rows)) { AppliedFrom(Overlap, c, Stage1(c, rows), rows, e); }
    else if e in Applied(BareBook, c, Stage2(c, rows)) { AppliedFrom(BareBook, c, Stage2(c, rows), rows, e); }
    else if e in Applied(Sportsbook, c, Stage3(c, rows)) { AppliedFrom(Sportsbook, c, Stage3(c, rows), rows, e); }
    else if e in Logged(Sportsbook, c, Stage4(c, rows)) { LoggedFrom(Sportsbook, c, Stage4(c, rows), rows, e); }
    else { AmbiguousFrom(c, Stage2(c, rows), rows, e); }
  }
}
