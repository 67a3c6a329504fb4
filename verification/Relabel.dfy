// Restating recycled bookmaker labels: ordered, conflict-guarded rewrites of the
// odds table, with an audit trail that undoes them.

module Relabel {
  const EXCHANGE := "Betfair Exchange"
  const SPORTSBOOK := "Betfair Sportsbook"
  const BARE := "Betfair"
  const TENBET := "10bet"

  // Seconds since the epoch: 2026-07-01 00:00:00 and 2026-07-05 13:18:39.
  const WINDOW_START := 1782864000
  const CUTOVER := 1783257519

  const DAY := 86400

  datatype Row = Row(id: int, event: int, book: string, market: string, selection: string, capturedAt: int,
                     liquid: bool)

  predicate SameKey(a: Row, b: Row) {
    a.event == b.event && a.market == b.market && a.selection == b.selection && a.capturedAt == b.capturedAt
  }

  // The uniqueness constraint on observations.
  ghost predicate Unique(rows: seq<Row>) {
    forall i, j :: 0 <= i < j < |rows| && SameKey(rows[i], rows[j]) ==> rows[i].book != rows[j].book
  }

  ghost predicate DistinctIds(rows: seq<Row>) { forall i, j :: 0 <= i < j < |rows| ==> rows[i].id != rows[j].id }

  predicate HasTwin(rows: seq<Row>, r: Row, book: string) {
    exists i :: 0 <= i < |rows| && SameKey(rows[i], r) && rows[i].book == book
  }

  function OpVocab(rows: seq<Row>): set<string> {
    set r | r in rows && r.book in {"Betano.uk", "Unibetuk", "BetUK"} :: r.market
  }

  // A sportsbook row of the same event on the same day.
  predicate HasSibling(rows: seq<Row>, r: Row) {
    exists i :: 0 <= i < |rows| && rows[i].event == r.event && rows[i].book == SPORTSBOOK
             && rows[i].capturedAt / DAY == r.capturedAt / DAY
  }

  // ----- the four statements --------------------------------------------------

  datatype Statement = Bulk | Overlap | BareBook | Sportsbook

  function OldLabel(st: Statement): string {
    match st case Bulk => EXCHANGE case Overlap => EXCHANGE case BareBook => BARE case Sportsbook => SPORTSBOOK
  }

  function NewLabel(st: Statement): string { if st.Bulk? || st.Overlap? then TENBET else EXCHANGE }

  datatype Context = Context(vocab: set<string>, fix: int)

  predicate InOverlap(c: Context, r: Row) {
    !r.liquid && WINDOW_START <= r.capturedAt <= CUTOVER && r.market !in c.vocab
  }

  predicate InScope(st: Statement, c: Context, rows: seq<Row>, r: Row) {
    match st
    case Bulk => !r.liquid && CUTOVER < r.capturedAt < c.fix
    case Overlap => InOverlap(c, r) && HasSibling(rows, r)
    case BareBook => WINDOW_START <= r.capturedAt < c.fix
    case Sportsbook => r.capturedAt < c.fix
  }

  predicate Targeted(st: Statement, c: Context, rows: seq<Row>, r: Row) {
    r.book == OldLabel(st) && InScope(st, c, rows, r)
  }

  // A targeted row is rewritten unless its new label is already taken at its key.
  predicate Selected(st: Statement, c: Context, rows: seq<Row>, r: Row) {
    Targeted(st, c, rows, r) && !HasTwin(rows, r, NewLabel(st))
  }

  predicate Conflicting(st: Statement, c: Context, rows: seq<Row>, r: Row) {
    Targeted(st, c, rows, r) && HasTwin(rows, r, NewLabel(st))
  }

  datatype Entry = Entry(id: int, oldLabel: string, newLabel: string, reason: string, applied: bool)

  function Reason(st: Statement): string {
    match st
    case Bulk => "book_mislabel_oe_recycle"
    case Overlap => "book_mislabel_oe_recycle_overlap"
    case BareBook => "book_mislabel_bf_bare"
    case Sportsbook => "book_mislabel_bf_recycle"
  }

  function AppliedEntry(st: Statement, r: Row): Entry { Entry(r.id, OldLabel(st), NewLabel(st), Reason(st), true) }

  function ConflictEntry(st: Statement, r: Row): Entry {
    Entry(r.id, OldLabel(st), NewLabel(st), "book_mislabel_conflict_not_restated", false)
  }

  function AmbiguousEntry(r: Row): Entry { Entry(r.id, EXCHANGE, TENBET, "ambiguous_overlap_not_restated", false) }

  function RewrittenRow(st: Statement, c: Context, rows: seq<Row>, r: Row): Row {
    if Selected(st, c, rows, r) then r.(book := NewLabel(st)) else r
  }

  // The table with the first n rows rewritten.
  function Partly(st: Statement, c: Context, rows: seq<Row>, n: nat): (t: seq<Row>)
    requires n <= |rows|
    ensures |t| == |rows|
  {
    seq(|rows|, i requires 0 <= i < |rows| => if i < n then RewrittenRow(st, c, rows, rows[i]) else rows[i])
  }

  function Rewritten(st: Statement, c: Context, rows: seq<Row>): seq<Row> { Partly(st, c, rows, |rows|) }

  lemma PartlyNext(st: Statement, c: Context, rows: seq<Row>, i: nat)
    requires i < |rows|
    ensures Partly(st, c, rows, i)[i] == rows[i]
    ensures Partly(st, c, rows, i + 1) == Partly(st, c, rows, i)[i := RewrittenRow(st, c, rows, rows[i])]
  {
  }

  lemma PartlySkips(st: Statement, c: Context, rows: seq<Row>, i: nat)
    requires i < |rows| && !Selected(st, c, rows, rows[i])
    ensures Partly(st, c, rows, i + 1) == Partly(st, c, rows, i)
  {
    var s, t := Partly(st, c, rows, i), Partly(st, c, rows, i + 1);
    forall k | 0 <= k < |rows| ensures t[k] == s[k] {
      if k == i { assert RewrittenRow(st, c, rows, rows[k]) == rows[k]; }
    }
  }

  lemma PartlyStarts(st: Statement, c: Context, rows: seq<Row>)
    ensures Partly(st, c, rows, 0) == rows
  {
  }

  // The entries for the first n rows of a table.
  function AppliedEntries(st: Statement, c: Context, rows: seq<Row>, n: nat): seq<Entry>
    requires n <= |rows|
  {
    if n == 0 then []
    else AppliedEntries(st, c, rows, n - 1)
         + if Selected(st, c, rows, rows[n - 1]) then [AppliedEntry(st, rows[n - 1])] else []
  }

  function ConflictEntries(st: Statement, c: Context, rows: seq<Row>, n: nat): seq<Entry>
    requires n <= |rows|
  {
    if n == 0 then []
    else ConflictEntries(st, c, rows, n - 1)
         + if Conflicting(st, c, rows, rows[n - 1]) then [ConflictEntry(st, rows[n - 1])] else []
  }

  predicate Ambiguous(c: Context, rows: seq<Row>, r: Row) {
    r.book == EXCHANGE && InOverlap(c, r) && !HasSibling(rows, r)
  }

  function AmbiguousEntries(c: Context, rows: seq<Row>, n: nat): seq<Entry>
    requires n <= |rows|
  {
    if n == 0 then []
    else AmbiguousEntries(c, rows, n - 1)
         + if Ambiguous(c, rows, rows[n - 1]) then [AmbiguousEntry(rows[n - 1])] else []
  }

  // ----- the run ----------------------------------------------------------------

  function Stage1(c: Context, rows: seq<Row>): seq<Row> { Rewritten(Bulk, c, rows) }
  function Stage2(c: Context, rows: seq<Row>): seq<Row> { Rewritten(Overlap, c, Stage1(c, rows)) }
  function Stage3(c: Context, rows: seq<Row>): seq<Row> { Rewritten(BareBook, c, Stage2(c, rows)) }
  function Stage4(c: Context, rows: seq<Row>): seq<Row> { Rewritten(Sportsbook, c, Stage3(c, rows)) }

  function Logged(st: Statement, c: Context, rows: seq<Row>): seq<Entry> { ConflictEntries(st, c, rows, |rows|) }
  function Applied(st: Statement, c: Context, rows: seq<Row>): seq<Entry> { AppliedEntries(st, c, rows, |rows|) }

  function RunAudit(before: seq<Entry>, c: Context, rows: seq<Row>): seq<Entry> {
    before + Applied(Bulk, c, rows) + Logged(Bulk, c, Stage1(c, rows))
    + Applied(Overlap, c, Stage1(c, rows)) + AmbiguousEntries(c, Stage2(c, rows), |Stage2(c, rows)|)
    + Applied(BareBook, c, Stage2(c, rows))
    + Applied(Sportsbook, c, Stage3(c, rows)) + Logged(Sportsbook, c, Stage4(c, rows))
  }

  class OddsTable {
    var rows: seq<Row>
    var audit: seq<Entry>

    constructor (rows: seq<Row>)
      ensures this.rows == rows && audit == []
    {
      this.rows, audit := rows, [];
    }

    // One UPDATE with its audit insert; the guard reads the table as it was when
    // the statement began.
    method Relabel(st: Statement, c: Context)
      modifies this
      ensures rows == Rewritten(st, c, old(rows))
      ensures audit == old(audit) + Applied(st, c, old(rows))
    {
      var before := rows;
      PartlyStarts(st, c, before);
      for i := 0 to |before|
        invariant rows == Partly(st, c, before, i)
        invariant audit == old(audit) + AppliedEntries(st, c, before, i)
      {
        var r := before[i];
        PartlyNext(st, c, before, i);
        if r.book == OldLabel(st) && InScope(st, c, before, r) && !HasTwin(before, r, NewLabel(st)) {
          rows := rows[i := r.(book := NewLabel(st))];
          audit := audit + [AppliedEntry(st, r)];
        }
      }
    }

    method LogConflicts(st: Statement, c: Context)
      modifies this`audit
      ensures audit == old(audit) + Logged(st, c, rows)
    {
      for i := 0 to |rows|
        invariant audit == old(audit) + ConflictEntries(st, c, rows, i)
      {
        var r := rows[i];
        if r.book == OldLabel(st) && InScope(st, c, rows, r) && HasTwin(rows, r, NewLabel(st)) {
          audit := audit + [ConflictEntry(st, r)];
        }
      }
    }

    method LogAmbiguous(c: Context)
      modifies this`audit
      ensures audit == old(audit) + AmbiguousEntries(c, rows, |rows|)
    {
      for i := 0 to |rows|
        invariant audit == old(audit) + AmbiguousEntries(c, rows, i)
      {
        if Ambiguous(c, rows, rows[i]) { audit := audit + [AmbiguousEntry(rows[i])]; }
      }
    }

    method Restate(fix: int)
      modifies this
      ensures var c := Context(OpVocab(old(rows)), fix);
              rows == Stage4(c, old(rows)) && audit == RunAudit(old(audit), c, old(rows))
    {
      var c := Context(OpVocab(rows), fix);
      ghost var t := rows;
      Relabel(Bulk, c);
      assert rows == Stage1(c, t);
      LogConflicts(Bulk, c);
      Relabel(Overlap, c);
      assert rows == Stage2(c, t);
      LogAmbiguous(c);
      Relabel(BareBook, c);
      assert rows == Stage3(c, t);
      Relabel(Sportsbook, c);
      assert rows == Stage4(c, t);
      LogConflicts(Sportsbook, c);
    }
  }

  // ----- one simultaneous substitution -----------------------------------------

  // Which rows move, told from the original table alone.
  predicate ToTenbet(c: Context, rows: seq<Row>, r: Row) {
    Selected(Bulk, c, rows, r) || Selected(Overlap, c, rows, r)
  }

  predicate StaysExchange(c: Context, rows: seq<Row>, r: Row) { r.book == EXCHANGE && !ToTenbet(c, rows, r) }

  predicate BareToExchange(c: Context, rows: seq<Row>, r: Row) {
    Targeted(BareBook, c, rows, r)
    && !exists i :: 0 <= i < |rows| && SameKey(rows[i], r) && StaysExchange(c, rows, rows[i])
  }

  predicate SportsbookToExchange(c: Context, rows: seq<Row>, r: Row) {
    Targeted(Sportsbook, c, rows, r)
    && !exists i :: 0 <= i < |rows| && SameKey(rows[i], r)
                 && (StaysExchange(c, rows, rows[i]) || BareToExchange(c, rows, rows[i]))
  }

  function Substituted(c: Context, rows: seq<Row>, r: Row): string {
    if ToTenbet(c, rows, r) then TENBET
    else if BareToExchange(c, rows, r) || SportsbookToExchange(c, rows, r) then EXCHANGE
    else r.book
  }

  // Exchange rows on either side of the cutover do not get in each other's way.
  lemma OverlapSeesOriginal(c: Context, rows: seq<Row>, i: nat)
    requires i < |rows|
    ensures Selected(Overlap, c, Stage1(c, rows), Stage1(c, rows)[i]) <==> Selected(Overlap, c, rows, rows[i])
  {
    var s, r := Stage1(c, rows), rows[i];
    assert HasSibling(s, s[i]) <==> HasSibling(rows, r) by {
      if HasSibling(rows, r) {
        var j :| 0 <= j < |rows| && rows[j].event == r.event && rows[j].book == SPORTSBOOK
              && rows[j].capturedAt / DAY == r.capturedAt / DAY;
        assert s[j] == rows[j];
      }
      if HasSibling(s, s[i]) {
        var j :| 0 <= j < |s| && s[j].event == r.event && s[j].book == SPORTSBOOK
              && s[j].capturedAt / DAY == r.capturedAt / DAY;
        assert s[j] == rows[j];
      }
    }
    if r.capturedAt <= CUTOVER {
      assert s[i] == r;
      if HasTwin(rows, r, TENBET) {
        var j :| 0 <= j < |rows| && SameKey(rows[j], r) && rows[j].book == TENBET;
        assert s[j] == rows[j];
      }
      if HasTwin(s, r, TENBET) {
        var j :| 0 <= j < |s| && SameKey(s[j], r) && s[j].book == TENBET;
        assert s[j] == rows[j];
      }
    }
  }

  lemma Stage2Is(c: Context, rows: seq<Row>, i: nat)
    requires i < |rows|
    ensures Stage2(c, rows)[i] == rows[i].(book := if ToTenbet(c, rows, rows[i]) then TENBET else rows[i].book)
  {
    OverlapSeesOriginal(c, rows, i);
  }

  lemma BareSeesStays(c: Context, rows: seq<Row>, i: nat)
    requires i < |rows|
    ensures Selected(BareBook, c, Stage2(c, rows), Stage2(c, rows)[i]) <==> BareToExchange(c, rows, rows[i])
  {
    var s := Stage2(c, rows);
    forall j | 0 <= j < |rows|
      ensures s[j] == rows[j].(book := s[j].book) && (s[j].book == EXCHANGE <==> StaysExchange(c, rows, rows[j]))
      ensures s[j].book == BARE <==> rows[j].book == BARE
    {
      Stage2Is(c, rows, j);
    }
  }

  lemma Stage3Is(c: Context, rows: seq<Row>, i: nat)
    requires i < |rows|
    ensures Stage3(c, rows)[i] == rows[i].(book := if ToTenbet(c, rows, rows[i]) then TENBET
                                                   else if BareToExchange(c, rows, rows[i]) then EXCHANGE
                                                   else rows[i].book)
  {
    Stage2Is(c, rows, i);
    BareSeesStays(c, rows, i);
  }

  lemma SportsbookSeesBoth(c: Context, rows: seq<Row>, i: nat)
    requires i < |rows|
    ensures Selected(Sportsbook, c, Stage3(c, rows), Stage3(c, rows)[i]) <==> SportsbookToExchange(c, rows, rows[i])
  {
    var s := Stage3(c, rows);
    forall j | 0 <= j < |rows|
      ensures s[j] == rows[j].(book := s[j].book)
      ensures s[j].book == EXCHANGE <==> StaysExchange(c, rows, rows[j]) || BareToExchange(c, rows, rows[j])
      ensures s[j].book == SPORTSBOOK <==> rows[j].book == SPORTSBOOK
    {
      Stage3Is(c, rows, j);
    }
  }

  // The ordered statements are one substitution: every row moves at most once, to
  // a label that depends on the original table only.
  lemma OrderedIsSimultaneous(c: Context, rows: seq<Row>, i: nat)
    requires i < |rows|
    ensures |Stage4(c, rows)| == |rows|
    ensures Stage4(c, rows)[i] == rows[i].(book := Substituted(c, rows, rows[i]))
  {
    Stage3Is(c, rows, i);
    SportsbookSeesBoth(c, rows, i);
  }

  // ----- the uniqueness key ---------------------------------------------------------

  lemma RewriteKeepsUnique(st: Statement, c: Context, rows: seq<Row>)
    requires Unique(rows)
    ensures Unique(Rewritten(st, c, rows))
  {
    var s := Rewritten(st, c, rows);
    forall i, j | 0 <= i < j < |s| && SameKey(s[i], s[j]) ensures s[i].book != s[j].book {
      assert SameKey(rows[i], rows[j]) && SameKey(rows[j], rows[i]);
    }
  }

  lemma RunKeepsUnique(c: Context, rows: seq<Row>)
    requires Unique(rows)
    ensures Unique(Stage4(c, rows))
  {
    RewriteKeepsUnique(Bulk, c, rows);
    RewriteKeepsUnique(Overlap, c, Stage1(c, rows));
    RewriteKeepsUnique(BareBook, c, Stage2(c, rows));
    RewriteKeepsUnique(Sportsbook, c, Stage3(c, rows));
  }

  // ----- relabelled or logged, never both ---------------------------------------------

  lemma {:induction false} AppliedIs(st: Statement, c: Context, rows: seq<Row>, n: nat, e: Entry)
    requires n <= |rows|
    ensures e in AppliedEntries(st, c, rows, n) <==>
              exists i :: 0 <= i < n && e == AppliedEntry(st, rows[i]) && Selected(st, c, rows, rows[i])
  {
    if n != 0 { AppliedIs(st, c, rows, n - 1, e); }
  }

  lemma {:induction false} LoggedIs(st: Statement, c: Context, rows: seq<Row>, n: nat, e: Entry)
    requires n <= |rows|
    ensures e in ConflictEntries(st, c, rows, n) <==>
              exists i :: 0 <= i < n && e == ConflictEntry(st, rows[i]) && Conflicting(st, c, rows, rows[i])
  {
    if n != 0 { LoggedIs(st, c, rows, n - 1, e); }
  }

  lemma {:induction false} AmbiguousIs(c: Context, rows: seq<Row>, n: nat, e: Entry)
    requires n <= |rows|
    ensures e in AmbiguousEntries(c, rows, n) <==>
              exists i :: 0 <= i < n && e == AmbiguousEntry(rows[i]) && Ambiguous(c, rows, rows[i])
  {
    if n != 0 { AmbiguousIs(c, rows, n - 1, e); }
  }

  // A statement and its own conflict log: a targeted row is in exactly one of the
  // two, and keeps its label exactly when it is in the log.
  lemma StatementXorLog(st: Statement, c: Context, rows: seq<Row>, i: nat)
    requires st.Bulk? || st.Sportsbook?
    requires DistinctIds(rows) && i < |rows| && Targeted(st, c, rows, rows[i])
    ensures var applied := AppliedEntry(st, rows[i]) in Applied(st, c, rows);
            var logged := ConflictEntry(st, rows[i]) in Logged(st, c, Rewritten(st, c, rows));
            && (applied <==> !logged)
            && (applied <==> Selected(st, c, rows, rows[i]))
  {
    var s, r := Rewritten(st, c, rows), rows[i];
    AppliedIs(st, c, rows, |rows|, AppliedEntry(st, r));
    LoggedIs(st, c, s, |s|, ConflictEntry(st, r));
    assert forall j :: 0 <= j < |rows| && rows[j].id == r.id ==> j == i;
    assert forall j :: 0 <= j < |s| ==> s[j].id == rows[j].id;
    if HasTwin(rows, r, NewLabel(st)) {
      var j :| 0 <= j < |rows| && SameKey(rows[j], r) && rows[j].book == NewLabel(st);
      assert s[j] == rows[j];
      assert Conflicting(st, c, s, s[i]);
    } else {
      assert Selected(st, c, rows, r);
      assert !Conflicting(st, c, s, s[i]);
    }
  }

  lemma InRunAudit(c: Context, rows: seq<Row>, e: Entry)
    ensures e in RunAudit([], c, rows) <==>
              || e in Applied(Bulk, c, rows) || e in Logged(Bulk, c, Stage1(c, rows))
              || e in Applied(Overlap, c, Stage1(c, rows))
              || e in AmbiguousEntries(c, Stage2(c, rows), |Stage2(c, rows)|)
              || e in Applied(BareBook, c, Stage2(c, rows))
              || e in Applied(Sportsbook, c, Stage3(c, rows)) || e in Logged(Sportsbook, c, Stage4(c, rows))
  {
  }

  // Reasons and labels tell the segments of the audit trail apart.
  lemma AppliedOnlyIn(st: Statement, c: Context, rows: seq<Row>, r: Row)
    ensures AppliedEntry(st, r) in RunAudit([], c, rows) <==>
              match st
              case Bulk => AppliedEntry(st, r) in Applied(Bulk, c, rows)
              case Overlap => AppliedEntry(st, r) in Applied(Overlap, c, Stage1(c, rows))
              case BareBook => AppliedEntry(st, r) in Applied(BareBook, c, Stage2(c, rows))
              case Sportsbook => AppliedEntry(st, r) in Applied(Sportsbook, c, Stage3(c, rows))
  {
    var e := AppliedEntry(st, r);
    InRunAudit(c, rows, e);
    AppliedIs(Bulk, c, rows, |rows|, e);
    AppliedIs(Overlap, c, Stage1(c, rows), |rows|, e);
    AppliedIs(BareBook, c, Stage2(c, rows), |rows|, e);
    AppliedIs(Sportsbook, c, Stage3(c, rows), |rows|, e);
    LoggedIs(Bulk, c, Stage1(c, rows), |rows|, e);
    LoggedIs(Sportsbook, c, Stage4(c, rows), |rows|, e);
    AmbiguousIs(c, Stage2(c, rows), |rows|, e);
    assert |Reason(Bulk)| == 24 && |Reason(Overlap)| == 32 && |Reason(BareBook)| == 21;
    assert |OldLabel(Sportsbook)| == 18 && |OldLabel(Bulk)| == 16 && |OldLabel(BareBook)| == 7;
  }

  lemma LoggedOnlyIn(st: Statement, c: Context, rows: seq<Row>, r: Row)
    requires st.Bulk? || st.Sportsbook?
    ensures ConflictEntry(st, r) in RunAudit([], c, rows) <==>
              if st.Bulk? then ConflictEntry(st, r) in Logged(Bulk, c, Stage1(c, rows))
              else ConflictEntry(st, r) in Logged(Sportsbook, c, Stage4(c, rows))
  {
    var e := ConflictEntry(st, r);
    InRunAudit(c, rows, e);
    AppliedIs(Bulk, c, rows, |rows|, e);
    AppliedIs(Overlap, c, Stage1(c, rows), |rows|, e);
    AppliedIs(BareBook, c, Stage2(c, rows), |rows|, e);
    AppliedIs(Sportsbook, c, Stage3(c, rows), |rows|, e);
    LoggedIs(Bulk, c, Stage1(c, rows), |rows|, e);
    LoggedIs(Sportsbook, c, Stage4(c, rows), |rows|, e);
    AmbiguousIs(c, Stage2(c, rows), |rows|, e);
    assert e.reason[0] == 'b' && AmbiguousEntry(r).reason[0] == 'a';
    assert |OldLabel(Sportsbook)| == 18 && |OldLabel(Bulk)| == 16;
  }

  // Over the whole run, every in-scope row of the two logged classes is relabelled
  // with an audit entry or left alone with a conflict entry, never both.
  lemma RelabelledXorLogged(st: Statement, c: Context, rows: seq<Row>, i: nat)
    requires st.Bulk? || st.Sportsbook?
    requires DistinctIds(rows) && i < |rows| && Targeted(st, c, rows, rows[i])
    ensures var applied := AppliedEntry(st, rows[i]) in RunAudit([], c, rows);
            var logged := ConflictEntry(st, rows[i]) in RunAudit([], c, rows);
            && (applied <==> !logged)
            && Stage4(c, rows)[i].book == (if applied then NewLabel(st) else OldLabel(st))
  {
    AppliedOnlyIn(st, c, rows, rows[i]);
    LoggedOnlyIn(st, c, rows, rows[i]);
    OrderedIsSimultaneous(c, rows, i);
    if st.Bulk? {
      StatementXorLog(Bulk, c, rows, i);
    } else {
      Stage3Is(c, rows, i);
      SportsbookSeesBoth(c, rows, i);
      StageIds(c, rows);
      StatementXorLog(Sportsbook, c, Stage3(c, rows), i);
      assert |SPORTSBOOK| == 18 && |EXCHANGE| == 16 && |BARE| == 7 && |TENBET| == 5;
    }
  }

  lemma StageIds(c: Context, rows: seq<Row>)
    requires DistinctIds(rows)
    ensures DistinctIds(Stage3(c, rows))
  {
    var s := Stage3(c, rows);
    forall i | 0 <= i < |rows| ensures s[i].id == rows[i].id { Stage3Is(c, rows, i); }
  }

  // Entries about a bare label are those of the bare statement's own rewrites.
  lemma BareEntriesAreApplied(c: Context, rows: seq<Row>, e: Entry)
    requires e in RunAudit([], c, rows) && e.oldLabel == BARE
    ensures exists j :: 0 <= j < |rows| && e == AppliedEntry(BareBook, Stage2(c, rows)[j])
                     && Selected(BareBook, c, Stage2(c, rows), Stage2(c, rows)[j])
  {
    InRunAudit(c, rows, e);
    AppliedIs(Bulk, c, rows, |rows|, e);
    AppliedIs(Overlap, c, Stage1(c, rows), |rows|, e);
    AppliedIs(BareBook, c, Stage2(c, rows), |rows|, e);
    AppliedIs(Sportsbook, c, Stage3(c, rows), |rows|, e);
    LoggedIs(Bulk, c, Stage1(c, rows), |rows|, e);
    LoggedIs(Sportsbook, c, Stage4(c, rows), |rows|, e);
    AmbiguousIs(c, Stage2(c, rows), |rows|, e);
    assert |SPORTSBOOK| == 18 && |EXCHANGE| == 16 && |BARE| == 7;
  }

  // The bare class is different: an in-scope bare row has an entry exactly when it
  // is relabelled. One whose exchange label is taken stays as it is, and nothing in
  // the trail says so.
  lemma BareLoggedIff(c: Context, rows: seq<Row>, i: nat)
    requires DistinctIds(rows) && i < |rows| && Targeted(BareBook, c, rows, rows[i])
    ensures (exists e :: e in RunAudit([], c, rows) && e.id == rows[i].id && e.oldLabel == BARE)
            <==> BareToExchange(c, rows, rows[i])
    ensures Stage4(c, rows)[i].book == (if BareToExchange(c, rows, rows[i]) then EXCHANGE else BARE)
  {
    var s, r := Stage2(c, rows), rows[i];
    OrderedIsSimultaneous(c, rows, i);
    BareSeesStays(c, rows, i);
    Stage2Is(c, rows, i);
    assert |SPORTSBOOK| == 18 && |EXCHANGE| == 16 && |BARE| == 7 && |TENBET| == 5;
    if e :| e in RunAudit([], c, rows) && e.id == r.id && e.oldLabel == BARE {
      BareEntriesAreApplied(c, rows, e);
      var j :| 0 <= j < |rows| && e == AppliedEntry(BareBook, s[j]) && Selected(BareBook, c, s, s[j]);
      Stage2Is(c, rows, j);
      assert j == i;
    }
    if BareToExchange(c, rows, r) {
      var e := AppliedEntry(BareBook, s[i]);
      AppliedIs(BareBook, c, s, |s|, e);
      InRunAudit(c, rows, e);
      assert e.id == r.id && e.oldLabel == BARE;
    }
  }

  // Such a table: a bare row beside a genuine exchange row of the same key.
  lemma BareConflictLeavesNoTrace(c: Context)
    requires WINDOW_START < c.fix
    ensures var rows := [Row(1, 1, BARE, "h2h", "Home", WINDOW_START, false),
                         Row(2, 1, EXCHANGE, "h2h", "Home", WINDOW_START, true)];
            && Unique(rows) && Targeted(BareBook, c, rows, rows[0])
            && Stage4(c, rows)[0] == rows[0]
            && !exists e :: e in RunAudit([], c, rows) && e.id == 1 && e.oldLabel == BARE
  {
    var rows := [Row(1, 1, BARE, "h2h", "Home", WINDOW_START, false),
                 Row(2, 1, EXCHANGE, "h2h", "Home", WINDOW_START, true)];
    assert |EXCHANGE| == 16 && |BARE| == 7;
    assert SameKey(rows[1], rows[0]) && StaysExchange(c, rows, rows[1]);
    BareLoggedIff(c, rows, 0);
    OrderedIsSimultaneous(c, rows, 0);
  }

  // ----- the overlap class ------------------------------------------------------------

  // Entries about a row come from that row, in whichever statement.
  lemma AppliedAbout(st: Statement, c: Context, rows: seq<Row>, e: Entry, i: nat)
    requires DistinctIds(rows) && i < |rows| && e in Applied(st, c, rows) && e.id == rows[i].id
    ensures Selected(st, c, rows, rows[i])
  {
    AppliedIs(st, c, rows, |rows|, e);
  }

  lemma LoggedAbout(st: Statement, c: Context, rows: seq<Row>, e: Entry, i: nat)
    requires DistinctIds(rows) && i < |rows| && e in Logged(st, c, rows) && e.id == rows[i].id
    ensures Conflicting(st, c, rows, rows[i])
  {
    LoggedIs(st, c, rows, |rows|, e);
  }

  lemma AmbiguousAbout(c: Context, rows: seq<Row>, e: Entry, i: nat)
    requires DistinctIds(rows) && i < |rows| && e in AmbiguousEntries(c, rows, |rows|) && e.id == rows[i].id
    ensures Ambiguous(c, rows, rows[i])
  {
    AmbiguousIs(c, rows, |rows|, e);
  }

  lemma AllStageIds(c: Context, rows: seq<Row>, i: nat)
    requires DistinctIds(rows) && i < |rows|
    ensures DistinctIds(Stage1(c, rows)) && DistinctIds(Stage2(c, rows))
    ensures DistinctIds(Stage3(c, rows)) && DistinctIds(Stage4(c, rows))
    ensures Stage1(c, rows)[i].id == Stage2(c, rows)[i].id == rows[i].id
    ensures Stage3(c, rows)[i].id == Stage4(c, rows)[i].id == rows[i].id
  {
    RewriteKeepsIds(Bulk, c, rows);
    RewriteKeepsIds(Overlap, c, Stage1(c, rows));
    RewriteKeepsIds(BareBook, c, Stage2(c, rows));
    RewriteKeepsIds(Sportsbook, c, Stage3(c, rows));
  }

  lemma SiblingsStay(c: Context, rows: seq<Row>, i: nat)
    requires i < |rows|
    ensures HasSibling(Stage2(c, rows), Stage2(c, rows)[i]) <==> HasSibling(rows, rows[i])
  {
    var s := Stage2(c, rows);
    assert |SPORTSBOOK| == 18 && |EXCHANGE| == 16 && |TENBET| == 5;
    forall j | 0 <= j < |rows|
      ensures s[j] == rows[j].(book := s[j].book) && (s[j].book == SPORTSBOOK <==> rows[j].book == SPORTSBOOK)
    {
      Stage2Is(c, rows, j);
    }
    if HasSibling(rows, rows[i]) {
      var j :| 0 <= j < |rows| && rows[j].event == rows[i].event && rows[j].book == SPORTSBOOK
            && rows[j].capturedAt / DAY == rows[i].capturedAt / DAY;
      assert s[j].book == SPORTSBOOK;
    }
  }

  // What the run does to an exchange row of the overlap window.
  lemma OverlapRow(c: Context, rows: seq<Row>, i: nat)
    requires i < |rows| && rows[i].book == EXCHANGE && InOverlap(c, rows[i])
    ensures var moves, r := Selected(Overlap, c, rows, rows[i]), rows[i];
            && (moves <==> HasSibling(rows, r) && !HasTwin(rows, r, TENBET))
            && Stage1(c, rows)[i] == r
            && Stage2(c, rows)[i] == Stage3(c, rows)[i] == Stage4(c, rows)[i]
              == (if moves then r.(book := TENBET) else r)
  {
    assert |SPORTSBOOK| == 18 && |EXCHANGE| == 16 && |BARE| == 7 && |TENBET| == 5;
    Stage2Is(c, rows, i);
    Stage3Is(c, rows, i);
    OrderedIsSimultaneous(c, rows, i);
    assert !Selected(Bulk, c, rows, rows[i]);
  }

  lemma OverlapEntry(c: Context, rows: seq<Row>, i: nat, e: Entry)
    requires DistinctIds(rows) && i < |rows| && rows[i].book == EXCHANGE && InOverlap(c, rows[i])
    requires e in RunAudit([], c, rows) && e.id == rows[i].id
    ensures !HasSibling(rows, rows[i]) || !HasTwin(rows, rows[i], TENBET)
  {
    InRunAudit(c, rows, e);
    AllStageIds(c, rows, i);
    OverlapRow(c, rows, i);
    SiblingsStay(c, rows, i);
    OverlapSeesOriginal(c, rows, i);
    assert |SPORTSBOOK| == 18 && |EXCHANGE| == 16 && |BARE| == 7 && |TENBET| == 5;
    if e in Applied(Bulk, c, rows) { AppliedAbout(Bulk, c, rows, e, i); }
    else if e in Logged(Bulk, c, Stage1(c, rows)) { LoggedAbout(Bulk, c, Stage1(c, rows), e, i); }
    else if e in Applied(Overlap, c, Stage1(c, rows)) { AppliedAbout(Overlap, c, Stage1(c, rows), e, i); }
    else if e in AmbiguousEntries(c, Stage2(c, rows), |Stage2(c, rows)|) { AmbiguousAbout(c, Stage2(c, rows), e, i); }
    else if e in Applied(BareBook, c, Stage2(c, rows)) { AppliedAbout(BareBook, c, Stage2(c, rows), e, i); }
    else if e in Applied(Sportsbook, c, Stage3(c, rows)) { AppliedAbout(Sportsbook, c, Stage3(c, rows), e, i); }
    else { LoggedAbout(Sportsbook, c, Stage4(c, rows), e, i); }
  }

  // The overlap class is no better: of its rows those without a sibling are logged and
  // those with one and a free 10bet label are relabelled. One with a sibling whose 10bet
  // label is taken stays as it is, and no entry of any kind is about it.
  lemma OverlapLoggedIff(c: Context, rows: seq<Row>, i: nat)
    requires DistinctIds(rows) && i < |rows| && rows[i].book == EXCHANGE && InOverlap(c, rows[i])
    ensures (exists e :: e in RunAudit([], c, rows) && e.id == rows[i].id)
            <==> !(HasSibling(rows, rows[i]) && HasTwin(rows, rows[i], TENBET))
    ensures Stage4(c, rows)[i].book == (if Selected(Overlap, c, rows, rows[i]) then TENBET else EXCHANGE)
  {
    OverlapRow(c, rows, i);
    if e :| e in RunAudit([], c, rows) && e.id == rows[i].id { OverlapEntry(c, rows, i, e); }
    if HasSibling(rows, rows[i]) {
      if !HasTwin(rows, rows[i], TENBET) {
        var e := AppliedEntry(Overlap, rows[i]);
        OverlapSeesOriginal(c, rows, i);
        AppliedIs(Overlap, c, Stage1(c, rows), |rows|, e);
        InRunAudit(c, rows, e);
      }
    } else {
      var e := AmbiguousEntry(rows[i]);
      SiblingsStay(c, rows, i);
      AmbiguousIs(c, Stage2(c, rows), |rows|, e);
      InRunAudit(c, rows, e);
    }
  }

  // Such a table: an exchange row with a sportsbook sibling, beside a 10bet row of the
  // same key.
  lemma OverlapConflictLeavesNoTrace(c: Context)
    requires "h2h" !in c.vocab
    ensures var rows := OverlapTable();
            && Unique(rows) && Targeted(Overlap, c, rows, rows[0]) && Stage4(c, rows)[0] == rows[0]
            && !exists e :: e in RunAudit([], c, rows) && e.id == 1
  {
    var rows := OverlapTable();
    assert |SPORTSBOOK| == 18 && |EXCHANGE| == 16 && |TENBET| == 5;
    assert rows[2].book == SPORTSBOOK && SameKey(rows[1], rows[0]);
    assert HasSibling(rows, rows[0]) && HasTwin(rows, rows[0], TENBET);
    OverlapLoggedIff(c, rows, 0);
    OverlapRow(c, rows, 0);
  }

  function OverlapTable(): seq<Row> {
    [Row(1, 1, EXCHANGE, "h2h", "Home", WINDOW_START, false), Row(2, 1, TENBET, "h2h", "Home", WINDOW_START, true),
     Row(3, 1, SPORTSBOOK, "h2h", "Home", WINDOW_START, true)]
  }

  // ----- undo ---------------------------------------------------------------------------

  function UndoOne(rows: seq<Row>, e: Entry): seq<Row> {
    seq(|rows|, i requires 0 <= i < |rows| =>
      if e.applied && rows[i].id == e.id then rows[i].(book := e.oldLabel) else rows[i])
  }

  // Applied entries undone latest first.
  function Undo(rows: seq<Row>, audit: seq<Entry>): seq<Row>
    decreases |audit|
  {
    if audit == [] then rows else Undo(UndoOne(rows, audit[|audit| - 1]), audit[..|audit| - 1])
  }

  lemma {:induction false} UndoAppend(rows: seq<Row>, a: seq<Entry>, b: seq<Entry>)
    ensures Undo(rows, a + b) == Undo(Undo(rows, b), a)
    decreases |b|
  {
    if b == [] {
      assert a + b == a;
    } else {
      assert (a + b)[..|a + b| - 1] == a + b[..|b| - 1];
      UndoAppend(UndoOne(rows, b[|b| - 1]), a, b[..|b| - 1]);
    }
  }

  lemma {:induction false} UndoNotApplied(rows: seq<Row>, audit: seq<Entry>)
    requires forall e :: e in audit ==> !e.applied
    ensures Undo(rows, audit) == rows
  {
    if audit != [] {
      assert audit[|audit| - 1] in audit;
      assert UndoOne(rows, audit[|audit| - 1]) == rows;
      UndoNotApplied(rows, audit[..|audit| - 1]);
    }
  }

  lemma UndoLast(st: Statement, c: Context, rows: seq<Row>, n: nat)
    requires DistinctIds(rows) && n < |rows| && Selected(st, c, rows, rows[n])
    ensures UndoOne(Partly(st, c, rows, n + 1), AppliedEntry(st, rows[n])) == Partly(st, c, rows, n)
  {
    var now, before := Partly(st, c, rows, n + 1), Partly(st, c, rows, n);
    var undone := UndoOne(now, AppliedEntry(st, rows[n]));
    forall i | 0 <= i < |rows| ensures undone[i] == before[i] {
      assert now[i].id == rows[i].id;
      if i != n { assert now[i] == before[i] && rows[i].id != rows[n].id; }
    }
  }

  lemma {:induction false} UndoStatement(st: Statement, c: Context, rows: seq<Row>, n: nat)
    requires DistinctIds(rows) && n <= |rows|
    ensures Undo(Partly(st, c, rows, n), AppliedEntries(st, c, rows, n)) == rows
  {
    if n == 0 {
      PartlyStarts(st, c, rows);
    } else {
      UndoStatement(st, c, rows, n - 1);
      var entries := AppliedEntries(st, c, rows, n);
      if Selected(st, c, rows, rows[n - 1]) {
        UndoLast(st, c, rows, n - 1);
        assert entries[..|entries| - 1] == AppliedEntries(st, c, rows, n - 1);
      } else {
        PartlySkips(st, c, rows, n - 1);
        assert entries == AppliedEntries(st, c, rows, n - 1);
      }
    }
  }

  lemma RewriteKeepsIds(st: Statement, c: Context, rows: seq<Row>)
    requires DistinctIds(rows)
    ensures DistinctIds(Rewritten(st, c, rows))
  {
    var s := Rewritten(st, c, rows);
    assert forall i :: 0 <= i < |rows| ==> s[i].id == rows[i].id;
  }

  lemma UndoWhole(st: Statement, c: Context, rows: seq<Row>)
    requires DistinctIds(rows)
    ensures Undo(Rewritten(st, c, rows), Applied(st, c, rows)) == rows && DistinctIds(Rewritten(st, c, rows))
  {
    UndoStatement(st, c, rows, |rows|);
    RewriteKeepsIds(st, c, rows);
  }

  lemma UndoLog(st: Statement, c: Context, rows: seq<Row>, log: seq<Row>)
    ensures Undo(rows, Logged(st, c, log)) == rows
  {
    forall e | e in Logged(st, c, log) ensures !e.applied { LoggedIs(st, c, log, |log|, e); }
    UndoNotApplied(rows, Logged(st, c, log));
  }

  // Undoing the applied audit entries, latest first, restores the original table.
  lemma UndoRestores(c: Context, rows: seq<Row>)
    requires DistinctIds(rows)
    ensures Undo(Stage4(c, rows), RunAudit([], c, rows)) == rows
  {
    var s1, s2, s3, s4 := Stage1(c, rows), Stage2(c, rows), Stage3(c, rows), Stage4(c, rows);
    var a1, l1 := [] + Applied(Bulk, c, rows), Logged(Bulk, c, s1);
    var a2, m2 := Applied(Overlap, c, s1), AmbiguousEntries(c, s2, |s2|);
    var a3, a4, l4 := Applied(BareBook, c, s2), Applied(Sportsbook, c, s3), Logged(Sportsbook, c, s4);
    UndoWhole(Bulk, c, rows);
    UndoWhole(Overlap, c, s1);
    UndoWhole(BareBook, c, s2);
    UndoWhole(Sportsbook, c, s3);
    UndoLog(Bulk, c, s1, s1);
    UndoLog(Sportsbook, c, s4, s4);
    forall e | e in m2 ensures !e.applied { AmbiguousIs(c, s2, |s2|, e); }
    UndoNotApplied(s2, m2);
    UndoAppend(s4, a1 + l1 + a2 + m2 + a3 + a4, l4);
    UndoAppend(s4, a1 + l1 + a2 + m2 + a3, a4);
    UndoAppend(s3, a1 + l1 + a2 + m2, a3);
    UndoAppend(s2, a1 + l1 + a2, m2);
    UndoAppend(s2, a1 + l1, a2);
    UndoAppend(s1, a1, l1);
    assert a1 == Applied(Bulk, c, rows);
  }
}
