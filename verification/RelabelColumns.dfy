// The same restatement over the label columns of picks, candidate evaluations and
// manual bets, and the withdrawal of closes that were anchored on the wrong book.

module RelabelColumns {
  import opened Common
  import R = Relabel

  // A row of any of the three tables: its clock column and its label columns, a
  // NULL column being absent.
  datatype Row = Row(id: int, at: int, labels: map<string, string>)

  datatype Mapping = Mapping(column: string, oldLabel: string, newLabel: string, start: int)

  const PICKS: seq<Mapping> := [
    Mapping("bookmaker", R.EXCHANGE, R.TENBET, R.CUTOVER),
    Mapping("bookmaker", R.SPORTSBOOK, R.EXCHANGE, R.WINDOW_START),
    Mapping("bookmaker", R.BARE, R.EXCHANGE, R.WINDOW_START),
    Mapping("current_bookmaker", R.EXCHANGE, R.TENBET, R.CUTOVER),
    Mapping("current_bookmaker", R.SPORTSBOOK, R.EXCHANGE, R.WINDOW_START),
    Mapping("current_bookmaker", R.BARE, R.EXCHANGE, R.WINDOW_START),
    Mapping("settlement_basis_bookmaker", R.EXCHANGE, R.TENBET, R.CUTOVER),
    Mapping("settlement_basis_bookmaker", R.SPORTSBOOK, R.EXCHANGE, R.WINDOW_START),
    Mapping("settlement_basis_bookmaker", R.BARE, R.EXCHANGE, R.WINDOW_START),
    Mapping("anchor_book", R.EXCHANGE, R.TENBET, R.CUTOVER),
    Mapping("anchor_book", R.SPORTSBOOK, R.EXCHANGE, R.WINDOW_START)]

  const EVALUATIONS: seq<Mapping> := [
    Mapping("anchor_book", R.EXCHANGE, R.TENBET, R.CUTOVER),
    Mapping("anchor_book", R.SPORTSBOOK, R.EXCHANGE, R.WINDOW_START),
    Mapping("best_book", R.EXCHANGE, R.TENBET, R.CUTOVER),
    Mapping("best_book", R.SPORTSBOOK, R.EXCHANGE, R.WINDOW_START),
    Mapping("best_book", R.BARE, R.EXCHANGE, R.WINDOW_START)]

  const BETS: seq<Mapping> := [
    Mapping("bookmaker_used", R.EXCHANGE, R.TENBET, R.CUTOVER),
    Mapping("bookmaker_used", R.SPORTSBOOK, R.EXCHANGE, R.WINDOW_START)]

  predicate Matches(m: Mapping, fix: int, r: Row) {
    m.column in r.labels && r.labels[m.column] == m.oldLabel && m.start <= r.at < fix
  }

  function Mapped(m: Mapping, fix: int, r: Row): Row {
    if Matches(m, fix, r) then r.(labels := r.labels[m.column := m.newLabel]) else r
  }

  function MappedAll(ms: seq<Mapping>, fix: int, r: Row): Row {
    if ms == [] then r else Mapped(ms[|ms| - 1], fix, MappedAll(ms[..|ms| - 1], fix, r))
  }

  datatype Entry = Entry(id: int, column: string, oldLabel: string, newLabel: string)

  function EntryOf(m: Mapping, r: Row): Entry { Entry(r.id, m.column, m.oldLabel, m.newLabel) }

  function Entries(m: Mapping, fix: int, rows: seq<Row>): seq<Entry> {
    if rows == [] then []
    else Entries(m, fix, rows[..|rows| - 1])
         + if Matches(m, fix, rows[|rows| - 1]) then [EntryOf(m, rows[|rows| - 1])] else []
  }

  function TableAfter(ms: seq<Mapping>, fix: int, rows: seq<Row>): seq<Row> {
    seq(|rows|, i requires 0 <= i < |rows| => MappedAll(ms, fix, rows[i]))
  }

  function Trail(ms: seq<Mapping>, fix: int, rows: seq<Row>): seq<Entry> {
    if ms == [] then []
    else Trail(ms[..|ms| - 1], fix, rows) + Entries(ms[|ms| - 1], fix, TableAfter(ms[..|ms| - 1], fix, rows))
  }

  // ----- the statements -------------------------------------------------------

  class LabelTable {
    var rows: seq<Row>
    var audit: seq<Entry>

    constructor (rows: seq<Row>)
      ensures this.rows == rows && audit == []
    {
      this.rows, audit := rows, [];
    }

    method Rewrite(m: Mapping, fix: int)
      modifies this
      ensures |rows| == |old(rows)| && forall i :: 0 <= i < |rows| ==> rows[i] == Mapped(m, fix, old(rows)[i])
      ensures audit == old(audit) + Entries(m, fix, old(rows))
    {
      var before := rows;
      for i := 0 to |before|
        invariant |rows| == |before|
        invariant forall k :: 0 <= k < i ==> rows[k] == Mapped(m, fix, before[k])
        invariant forall k :: i <= k < |rows| ==> rows[k] == before[k]
        invariant audit == old(audit) + Entries(m, fix, before[..i])
      {
        assert before[..i + 1][..i] == before[..i];
        if Matches(m, fix, before[i]) {
          rows := rows[i := before[i].(labels := before[i].labels[m.column := m.newLabel])];
          audit := audit + [EntryOf(m, before[i])];
        }
      }
      assert before[..|before|] == before;
    }

    method RewriteAll(ms: seq<Mapping>, fix: int)
      modifies this
      ensures rows == TableAfter(ms, fix, old(rows))
      ensures audit == old(audit) + Trail(ms, fix, old(rows))
    {
      ghost var before := rows;
      for n := 0 to |ms|
        invariant rows == TableAfter(ms[..n], fix, before)
        invariant audit == old(audit) + Trail(ms[..n], fix, before)
      {
        assert ms[..n + 1][..n] == ms[..n];
        Rewrite(ms[n], fix);
        assert rows == TableAfter(ms[..n + 1], fix, before);
      }
      assert ms[..|ms|] == ms;
    }
  }

  // ----- one substitution -----------------------------------------------------------

  // No mapping produces a label that a later mapping of the same column consumes.
  ghost predicate SafeOrder(ms: seq<Mapping>) {
    forall i, j :: 0 <= i < j < |ms| && ms[i].column == ms[j].column ==> ms[i].newLabel != ms[j].oldLabel
  }

  // The new label of the first mapping that matches the row as it was.
  function Substitute(ms: seq<Mapping>, fix: int, r: Row, column: string): Option<string> {
    if ms == [] then None
    else
      var init, m := ms[..|ms| - 1], ms[|ms| - 1];
      var s := Substitute(init, fix, r, column);
      if s.Some? then s else if m.column == column && Matches(m, fix, r) then Some(m.newLabel) else None
  }

  lemma {:induction false} SubstituteIsSome(ms: seq<Mapping>, fix: int, r: Row, column: string)
    ensures match Substitute(ms, fix, r, column)
            case Some(l) =>
              exists i :: 0 <= i < |ms| && ms[i].column == column && Matches(ms[i], fix, r) && l == ms[i].newLabel
            case None => forall i :: 0 <= i < |ms| && ms[i].column == column ==> !Matches(ms[i], fix, r)
  {
    if ms != [] { SubstituteIsSome(ms[..|ms| - 1], fix, r, column); }
  }

  // In a safe order the statements, run one after another, are one simultaneous
  // substitution: each column is decided by the row as it was.
  lemma {:induction false} OrderedIsSimultaneous(ms: seq<Mapping>, fix: int, r: Row, column: string)
    requires SafeOrder(ms)
    ensures var after := MappedAll(ms, fix, r);
            && after.labels.Keys == r.labels.Keys && after.at == r.at && after.id == r.id
            && (column in r.labels ==> after.labels[column] == Substitute(ms, fix, r, column).GetOr(r.labels[column]))
  {
    if ms != [] {
      var init, m := ms[..|ms| - 1], ms[|ms| - 1];
      OrderedIsSimultaneous(init, fix, r, column);
      OrderedIsSimultaneous(init, fix, r, m.column);
      SubstituteIsSome(init, fix, r, column);
    }
  }

  lemma LabelsDiffer()
    ensures R.EXCHANGE != R.SPORTSBOOK && R.EXCHANGE != R.BARE && R.EXCHANGE != R.TENBET
    ensures R.SPORTSBOOK != R.BARE && R.SPORTSBOOK != R.TENBET && R.BARE != R.TENBET
  {
    assert |R.EXCHANGE| == 16 && |R.SPORTSBOOK| == 18 && |R.BARE| == 7 && |R.TENBET| == 5;
  }

  // The three mapping lists of the script are in a safe order.
  lemma ScriptOrderIsSafe()
    ensures SafeOrder(PICKS) && SafeOrder(EVALUATIONS) && SafeOrder(BETS)
  {
    LabelsDiffer();
    forall i | 0 <= i < |PICKS| ensures PICKS[i].newLabel == R.TENBET || PICKS[i].newLabel == R.EXCHANGE {}
    assert forall i :: 0 <= i < |PICKS| && PICKS[i].oldLabel == R.EXCHANGE ==> i in {0, 3, 6, 9};
    assert |PICKS[0].column| == 9 && |PICKS[3].column| == 17 && |PICKS[6].column| == 26 && |PICKS[9].column| == 11;
    assert forall i :: 0 <= i < |PICKS| ==>
        |PICKS[i].column| == (if i < 3 then 9 else if i < 6 then 17 else if i < 9 then 26 else 11);
    assert |EVALUATIONS[0].column| == 11 && |EVALUATIONS[2].column| == 9;
  }

  // Run the other way round, a sportsbook label of the late window hops twice.
  lemma SwappedOrderHops(fix: int)
    requires R.CUTOVER < fix
    ensures var r := Row(1, R.CUTOVER, map["bookmaker_used" := R.SPORTSBOOK]);
            MappedAll([BETS[1], BETS[0]], fix, r) == r.(labels := map["bookmaker_used" := R.TENBET])
            && MappedAll(BETS, fix, r) == r.(labels := map["bookmaker_used" := R.EXCHANGE])
  {
    LabelsDiffer();
    var r := Row(1, R.CUTOVER, map["bookmaker_used" := R.SPORTSBOOK]);
    var swapped := [BETS[1], BETS[0]];
    assert swapped[..1] == [BETS[1]] && [BETS[1]][..0] == [];
    assert MappedAll([BETS[1]], fix, r) == Mapped(BETS[1], fix, r);
    assert BETS[..1] == [BETS[0]] && [BETS[0]][..0] == [];
    assert MappedAll([BETS[0]], fix, r) == Mapped(BETS[0], fix, r);
  }

  // ----- in labels and dates ----------------------------------------------------------

  // What a label of a row dated `at` becomes: exchange from the cutover of 2026-07-05
  // 13:18:39 on was 10bet; sportsbook, and the bare name in some columns, from 2026-07-01
  // on was the exchange.
  function TrueLabel(was: string, at: int, fix: int, bare: bool): string {
    if was == "Betfair Exchange" && 1783257519 <= at < fix then "10bet"
    else if (was == "Betfair Sportsbook" || (bare && was == "Betfair")) && 1782864000 <= at < fix
    then "Betfair Exchange"
    else was
  }

  // The mappings of one column: two, or with the bare name three.
  ghost predicate IsColumn(ms: seq<Mapping>, column: string, bare: bool) {
    var late, early := Mapping(column, "Betfair Exchange", "10bet", 1783257519),
                       Mapping(column, "Betfair Sportsbook", "Betfair Exchange", 1782864000);
    var plain := Mapping(column, "Betfair", "Betfair Exchange", 1782864000);
    && late in ms && early in ms && (bare ==> plain in ms)
    && forall i :: 0 <= i < |ms| && ms[i].column == column ==>
         ms[i] == late || ms[i] == early || (bare && ms[i] == plain)
  }

  lemma ListedLabel(ms: seq<Mapping>, fix: int, r: Row, column: string, bare: bool)
    requires column in r.labels && IsColumn(ms, column, bare)
    ensures Substitute(ms, fix, r, column).GetOr(r.labels[column]) == TrueLabel(r.labels[column], r.at, fix, bare)
  {
    SubstituteIsSome(ms, fix, r, column);
    LabelsDiffer();
    var was := r.labels[column];
    var late, early := Mapping(column, "Betfair Exchange", "10bet", 1783257519),
                       Mapping(column, "Betfair Sportsbook", "Betfair Exchange", 1782864000);
    var plain := Mapping(column, "Betfair", "Betfair Exchange", 1782864000);
    if Matches(late, fix, r) { assert late in ms; }
    if Matches(early, fix, r) { assert early in ms; }
    if bare && Matches(plain, fix, r) { assert plain in ms; }
  }

  lemma UnlistedLabel(ms: seq<Mapping>, fix: int, r: Row, column: string)
    requires forall m :: m in ms ==> m.column != column
    ensures Substitute(ms, fix, r, column) == None
  {
    SubstituteIsSome(ms, fix, r, column);
  }

  // Such mappings in a row, when no other name of a column is as long.
  lemma ColumnAt(ms: seq<Mapping>, column: string, from: nat, bare: bool)
    requires from + (if bare then 3 else 2) <= |ms|
    requires ms[from] == Mapping(column, "Betfair Exchange", "10bet", 1783257519)
    requires ms[from + 1] == Mapping(column, "Betfair Sportsbook", "Betfair Exchange", 1782864000)
    requires bare ==> ms[from + 2] == Mapping(column, "Betfair", "Betfair Exchange", 1782864000)
    requires forall i :: 0 <= i < |ms| && |ms[i].column| == |column| ==> from <= i < from + if bare then 3 else 2
    ensures IsColumn(ms, column, bare)
  {
    assert ms[from] in ms && ms[from + 1] in ms && (bare ==> ms[from + 2] in ms);
  }

  lemma PickWidths()
    ensures |PICKS| == 11 && forall i :: 0 <= i < 11 ==>
              |PICKS[i].column| == (if i < 3 then 9 else if i < 6 then 17 else if i < 9 then 26 else 11)
  {
  }

  lemma MiddleColumns()
    ensures IsColumn(PICKS, "current_bookmaker", true) && IsColumn(PICKS, "settlement_basis_bookmaker", true)
  {
    PickWidths();
    assert |"current_bookmaker"| == 17 && |"settlement_basis_bookmaker"| == 26;
    ColumnAt(PICKS, "current_bookmaker", 3, true);
    ColumnAt(PICKS, "settlement_basis_bookmaker", 6, true);
  }

  lemma OuterColumns()
    ensures IsColumn(PICKS, "bookmaker", true) && IsColumn(PICKS, "anchor_book", false)
  {
    PickWidths();
    assert |"bookmaker"| == 9 && |"anchor_book"| == 11;
    ColumnAt(PICKS, "bookmaker", 0, true);
    ColumnAt(PICKS, "anchor_book", 9, false);
  }

  lemma PickNames(m: Mapping)
    requires m in PICKS
    ensures m.column in {"bookmaker", "current_bookmaker", "settlement_basis_bookmaker", "anchor_book"}
  {
  }

  // What the run makes of every label column of a pick,
  lemma PickLabels(fix: int, r: Row, column: string)
    requires column in r.labels
    ensures var after, was := MappedAll(PICKS, fix, r), r.labels[column];
            && after.labels.Keys == r.labels.Keys && after.at == r.at && after.id == r.id
            && after.labels[column] ==
               if column in {"bookmaker", "current_bookmaker", "settlement_basis_bookmaker"}
               then TrueLabel(was, r.at, fix, true)
               else if column == "anchor_book" then TrueLabel(was, r.at, fix, false)
               else was
  {
    ScriptOrderIsSafe();
    OrderedIsSimultaneous(PICKS, fix, r, column);
    MiddleColumns();
    OuterColumns();
    if column in {"bookmaker", "current_bookmaker", "settlement_basis_bookmaker"} {
      ListedLabel(PICKS, fix, r, column, true);
    } else if column == "anchor_book" {
      ListedLabel(PICKS, fix, r, column, false);
    } else {
      forall m | m in PICKS ensures m.column != column { PickNames(m); }
      UnlistedLabel(PICKS, fix, r, column);
    }
  }

  lemma EvaluationColumns()
    ensures IsColumn(EVALUATIONS, "best_book", true) && IsColumn(EVALUATIONS, "anchor_book", false)
    ensures forall m :: m in EVALUATIONS ==> m.column in {"best_book", "anchor_book"}
  {
    assert forall i :: 0 <= i < |EVALUATIONS| ==> |EVALUATIONS[i].column| == (if i < 2 then 11 else 9);
    assert |"anchor_book"| == 11 && |"best_book"| == 9;
    ColumnAt(EVALUATIONS, "anchor_book", 0, false);
    ColumnAt(EVALUATIONS, "best_book", 2, true);
  }

  // of an evaluated candidate,
  lemma EvaluationLabels(fix: int, r: Row, column: string)
    requires column in r.labels
    ensures var after, was := MappedAll(EVALUATIONS, fix, r), r.labels[column];
            && after.labels.Keys == r.labels.Keys && after.at == r.at && after.id == r.id
            && after.labels[column] ==
               if column == "best_book" then TrueLabel(was, r.at, fix, true)
               else if column == "anchor_book" then TrueLabel(was, r.at, fix, false)
               else was
  {
    ScriptOrderIsSafe();
    OrderedIsSimultaneous(EVALUATIONS, fix, r, column);
    EvaluationColumns();
    if column == "best_book" {
      ListedLabel(EVALUATIONS, fix, r, column, true);
    } else if column == "anchor_book" {
      ListedLabel(EVALUATIONS, fix, r, column, false);
    } else {
      UnlistedLabel(EVALUATIONS, fix, r, column);
    }
  }

  // and of a bet.
  lemma BetLabels(fix: int, r: Row, column: string)
    requires column in r.labels
    ensures var after, was := MappedAll(BETS, fix, r), r.labels[column];
            && after.labels.Keys == r.labels.Keys && after.at == r.at && after.id == r.id
            && after.labels[column] == if column == "bookmaker_used" then TrueLabel(was, r.at, fix, false) else was
  {
    ScriptOrderIsSafe();
    OrderedIsSimultaneous(BETS, fix, r, column);
    if column == "bookmaker_used" {
      ColumnAt(BETS, "bookmaker_used", 0, false);
      ListedLabel(BETS, fix, r, column, false);
    } else {
      UnlistedLabel(BETS, fix, r, column);
    }
  }

  // ----- undo ----------------------------------------------------------------------

  function UndoEntry(r: Row, e: Entry): Row {
    if r.id == e.id then r.(labels := r.labels[e.column := e.oldLabel]) else r
  }

  // The audit entries of a row undone latest first.
  function UndoRow(r: Row, trail: seq<Entry>): Row
    decreases |trail|
  {
    if trail == [] then r else UndoRow(UndoEntry(r, trail[|trail| - 1]), trail[..|trail| - 1])
  }

  lemma {:induction false} UndoAppend(r: Row, a: seq<Entry>, b: seq<Entry>)
    ensures UndoRow(r, a + b) == UndoRow(UndoRow(r, b), a)
    decreases |b|
  {
    if b == [] {
      assert a + b == a;
    } else {
      assert (a + b)[..|a + b| - 1] == a + b[..|b| - 1];
      UndoAppend(UndoEntry(r, b[|b| - 1]), a, b[..|b| - 1]);
    }
  }

  lemma {:induction false} UndoForeign(r: Row, m: Mapping, fix: int, rows: seq<Row>)
    requires forall s :: s in rows ==> s.id != r.id
    ensures UndoRow(r, Entries(m, fix, rows)) == r
  {
    if rows != [] {
      var init, s := rows[..|rows| - 1], rows[|rows| - 1];
      assert s in rows;
      UndoForeign(r, m, fix, init);
      var tail := if Matches(m, fix, s) then [EntryOf(m, s)] else [];
      UndoAppend(r, Entries(m, fix, init), tail);
      assert tail != [] ==> tail[..0] == [];
      assert UndoRow(r, tail) == r;
    }
  }

  lemma UndoMatched(r: Row, m: Mapping, fix: int)
    requires Matches(m, fix, r)
    ensures UndoEntry(Mapped(m, fix, r), EntryOf(m, r)) == r
  {
    assert r.labels[m.column := m.newLabel][m.column := m.oldLabel] == r.labels;
  }

  lemma {:induction false} UndoOne(m: Mapping, fix: int, rows: seq<Row>, i: nat)
    requires i < |rows| && forall j, k :: 0 <= j < k < |rows| ==> rows[j].id != rows[k].id
    ensures UndoRow(Mapped(m, fix, rows[i]), Entries(m, fix, rows)) == rows[i]
  {
    var init, s, r := rows[..|rows| - 1], rows[|rows| - 1], rows[i];
    var after, tail := Mapped(m, fix, r), if Matches(m, fix, s) then [EntryOf(m, s)] else [];
    UndoAppend(after, Entries(m, fix, init), tail);
    assert tail != [] ==> tail[..0] == [];
    if i < |init| {
      assert UndoRow(after, tail) == after;
      UndoOne(m, fix, init, i);
    } else {
      if Matches(m, fix, s) { UndoMatched(r, m, fix); }
      assert UndoRow(after, tail) == r;
      UndoForeign(r, m, fix, init);
    }
  }

  // Undoing the trail gives back every row of the original table.
  lemma {:induction false} UndoRestores(ms: seq<Mapping>, fix: int, rows: seq<Row>, i: nat)
    requires i < |rows| && forall j, k :: 0 <= j < k < |rows| ==> rows[j].id != rows[k].id
    ensures UndoRow(TableAfter(ms, fix, rows)[i], Trail(ms, fix, rows)) == rows[i]
  {
    if ms != [] {
      var init, m := ms[..|ms| - 1], ms[|ms| - 1];
      var before := TableAfter(init, fix, rows);
      forall j | 0 <= j < |rows| ensures before[j].id == rows[j].id { MappedKeepsId(init, fix, rows[j]); }
      UndoOne(m, fix, before, i);
      UndoAppend(TableAfter(ms, fix, rows)[i], Trail(init, fix, rows), Entries(m, fix, before));
      UndoRestores(init, fix, rows, i);
    }
  }

  lemma {:induction false} MappedKeepsId(ms: seq<Mapping>, fix: int, r: Row)
    ensures MappedAll(ms, fix, r).id == r.id
  {
    if ms != [] { MappedKeepsId(ms[..|ms| - 1], fix, r); }
  }

  // ----- withdrawing closes -----------------------------------------------------------

  datatype Close = Close(odds: Option<real>, fair: Option<real>, clv: Option<real>, beat: Option<bool>,
                         anchorType: Option<string>, anchorBook: Option<string>, capturedAt: Option<int>,
                         hasSnapshot: Option<bool>, independent: Option<bool>, reason: Option<string>)

  // `rest` stands for the columns the statement does not touch.
  datatype Pick<P> = Pick(id: int, close: Close, rest: P)

  datatype Withdrawal = Withdrawal(id: int, details: Close)

  const WITHDRAWN := Close(None, None, None, None, None, None, None, None, None, Some("book_mislabel"))

  predicate Contaminated(fix: int, c: Close) {
    c.anchorBook == Some(R.EXCHANGE) && c.capturedAt.Some? && R.CUTOVER <= c.capturedAt.value < fix
  }

  method WithdrawCloses<P>(picks: seq<Pick<P>>, fix: int) returns (after: seq<Pick<P>>, audit: seq<Withdrawal>)
    ensures |after| == |picks|
    ensures forall i :: 0 <= i < |picks| ==>
              after[i] == if Contaminated(fix, picks[i].close) then picks[i].(close := WITHDRAWN) else picks[i]
    ensures forall w :: w in audit <==>
              exists i :: 0 <= i < |picks| && Contaminated(fix, picks[i].close)
                && w == Withdrawal(picks[i].id, picks[i].close)
  {
    after, audit := [], [];
    for n := 0 to |picks|
      invariant |after| == n
      invariant forall i :: 0 <= i < n ==>
        after[i] == if Contaminated(fix, picks[i].close) then picks[i].(close := WITHDRAWN) else picks[i]
      invariant forall w :: w in audit <==>
        exists i :: 0 <= i < n && Contaminated(fix, picks[i].close) && w == Withdrawal(picks[i].id, picks[i].close)
    {
      var c := picks[n].close;
      if Contaminated(fix, c) {
        audit := audit + [Withdrawal(picks[n].id, c)];
        after := after + [picks[n].(close := WITHDRAWN)];
      } else {
        after := after + [picks[n]];
      }
    }
  }

  // A close is contaminated exactly when it is anchored on the exchange and was captured
  // from the cutover on and before the fix; a withdrawn one names the reason and nothing
  // else.
  lemma ContaminatedIff(fix: int, c: Close)
    ensures Contaminated(fix, c) <==>
              c.anchorBook == Some("Betfair Exchange")
              && exists at :: c.capturedAt == Some(at) && 1783257519 <= at < fix
    ensures WITHDRAWN == Close(None, None, None, None, None, None, None, None, None, Some("book_mislabel"))
  {
  }

  // The details of the audit rows suffice to restore every withdrawn close, and a
  // pick without an audit row was not touched.
  lemma WithdrawalsRestore<P>(picks: seq<Pick<P>>, after: seq<Pick<P>>, audit: seq<Withdrawal>, fix: int, i: nat)
    requires |after| == |picks| && i < |picks|
    requires forall j, k :: 0 <= j < k < |picks| ==> picks[j].id != picks[k].id
    requires forall j :: 0 <= j < |picks| ==>
               after[j] == if Contaminated(fix, picks[j].close) then picks[j].(close := WITHDRAWN) else picks[j]
    requires forall w :: w in audit <==>
               exists j :: 0 <= j < |picks| && Contaminated(fix, picks[j].close)
                 && w == Withdrawal(picks[j].id, picks[j].close)
    ensures forall w :: w in audit && w.id == after[i].id ==> after[i].(close := w.details) == picks[i]
    ensures (forall w :: w in audit ==> w.id != after[i].id) ==> after[i] == picks[i]
    ensures !Contaminated(fix, after[i].close)
  {
    if Contaminated(fix, picks[i].close) { assert Withdrawal(picks[i].id, picks[i].close) in audit; }
  }
}
