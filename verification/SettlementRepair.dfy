// The repair scripts over settled picks, what every run of them keeps, and what their
// audit trails record.

module SettlementRepair {
  import opened Common
  import opened SettlementTables

  import R = ResultIndex

  // ----- the scripts ------------------------------------------------------------------

  class Store {
    var db: Db

    constructor (db: Db)
      ensures this.db == db
    {
      this.db := db;
    }

    // The selection is materialised once; audit, delete and re-open act on it.
    method Restate(ids: seq<int>)
      requires Selects(db, ids)
      modifies this
      ensures db == Restated(old(db), ids)
      ensures old(Consistent(db)) ==> Consistent(db)
    {
      var before := db;
      for n := 0 to |ids|
        invariant db == before.(audit := before.audit + RestatementTrail(before, ids[..n]))
      {
        assert ids[n] in ids && ids[..n + 1][..n] == ids[..n];
        var rows := RestatementRows(ids[n], before.picks[ids[n]], before.results[ids[n]]);
        db := db.(audit := db.audit + rows);
      }
      assert ids[..|ids|] == ids;
      assert db.audit == Restated(before, ids).audit;
      db := db.(results := map id | id in db.results && id !in ids :: db.results[id]);
      assert db.results == Restated(before, ids).results;
      db := db.(picks := map id | id in db.picks ::
                  if id in ids && db.picks[id].status == Settled then db.picks[id].(status := Alerted)
                  else db.picks[id]);
      forall id | id in before.picks ensures db.picks[id] == Restated(before, ids).picks[id] {
        assert id in ids ==> Restatable(before, id);
      }
      if Consistent(before) { RestateKeeps(before, ids); }
    }

    // An empty book is a provider outage and aborts. Otherwise the gap is collected
    // first and then expired, before the carve-out is reverted and audited.
    method ExpireBacklog(book: Book, now: int, expireAfter: Option<int>, queried: seq<int>, standing: seq<int>)
      returns (ok: bool)
      requires Answers(queried, IsQueried(db, now))
      modifies this
      ensures ok <==> book.size > 0
      ensures !ok ==> db == old(db)
      ensures ok ==> forall id :: id in Filter(IsDue(old(db), book, now, expireAfter), queried) ==> id in old(db).picks
      ensures ok ==> db == Expired(old(db), Filter(IsDue(old(db), book, now, expireAfter), queried), now, standing)
    {
      if book.size == 0 { return false; }
      ok := true;
      var before := db;
      ghost var due := Filter(IsDue(before, book, now, expireAfter), queried);
      DueArePicks(before, book, now, expireAfter, queried);
      var gap := CollectGap(book, now, queried);
      if expireAfter.None? {
        NothingDue(before, book, now, queried);
      } else {
        DueIsGapPast(before, book, now, expireAfter.value, queried);
        ExpireGap(gap, now, expireAfter.value);
      }
      db := Reverted(db, now);
      AuditVoids(now, standing);
    }

    method CollectGap(book: Book, now: int, queried: seq<int>) returns (gap: seq<int>)
      requires forall id :: id in queried ==> Queried(db, now, id)
      ensures gap == Filter(IsGap(db, book, now), queried)
    {
      gap := [];
      for n := 0 to |queried|
        invariant gap == Filter(IsGap(db, book, now), queried[..n])
      {
        assert queried[..n + 1][..n] == queried[..n];
        assert Queried(db, now, queried[n]);
        var p := db.picks[queried[n]];
        if p.starts.value > now - SettleDelay(p.bet.sport) { continue; }
        if book.holds(p.home, p.away, p.starts.value) { continue; }
        gap := gap + [queried[n]];
      }
      assert queried[..|queried|] == queried;
    }

    // The rows of the gap were fetched before the first of them expires.
    method ExpireGap(gap: seq<int>, now: int, after: int)
      requires forall id :: id in gap ==> id in db.picks && db.picks[id].starts.Some?
      modifies this
      ensures forall id :: id in Filter(IsPast(old(db), now, after), gap) ==> id in old(db).picks
      ensures db == Pass(old(db), Filter(IsPast(old(db), now, after), gap), VoidOffer(old(db), now))
    {
      var before := db;
      ghost var past := IsPast(before, now, after);
      for n := 0 to |gap|
        invariant forall id :: id in Filter(past, gap[..n]) ==> id in before.picks
        invariant db == Pass(before, Filter(past, gap[..n]), VoidOffer(before, now))
      {
        var id := gap[n];
        var p := before.picks[id];
        assert gap[..n + 1][..n] == gap[..n];
        if p.starts.value >= now - after { continue; }
        PassNext(before, Filter(past, gap[..n]), id, VoidOffer(before, now));
        ExpireOne(id, p, now);
      }
      assert gap[..|gap|] == gap;
    }

    // One pick past the bound, as it was fetched.
    method ExpireOne(id: int, p: Pick, now: int)
      requires id in db.picks
      modifies this
      ensures db == Settle(old(db), id, Give(VoidResult(p, now)))
    {
      if HasSettledTwin(db, id) {
        db := SetStatus(db, id, Superseded);
      } else if id !in db.results {
        db := db.(results := db.results[id := VoidResult(p, now)]);
        db := SetStatus(db, id, Settled);
      }
    }

    method AuditVoids(now: int, standing: seq<int>)
      modifies this
      ensures db == old(db).(audit := old(db).audit + ExpiryTrail(old(db), now, standing))
    {
      var after := db;
      for n := 0 to |standing|
        invariant db == after.(audit := after.audit + ExpiryTrail(after, now, standing[..n]))
      {
        var id := standing[n];
        assert standing[..n + 1][..n] == standing[..n];
        if id in after.results && VoidedAt(after.results[id], now) {
          db := db.(audit := db.audit + ExpiryRows(id));
        }
      }
      assert standing[..|standing|] == standing;
    }

    // The loop over the targets, whose rows were fetched beforehand.
    method Regrade(canon: string -> string, grade: (Pick, int, int) -> Option<Outcome>, rows: seq<MatchRow>,
                   ids: seq<int>, now: int)
      requires Answers(ids, Targets(db))
      modifies this
      ensures AllOpen(old(db), ids)
      ensures db == Regraded(old(db), ids, GradeOffer(canon, grade, rows, old(db), now))
    {
      TargetsAreOpen(db, ids);
      var before := db;
      ghost var offer := GradeOffer(canon, grade, rows, before, now);
      var index := R.BuildResultIndex(canon, rows);
      for n := 0 to |ids|
        invariant db == Regraded(before, ids[..n], offer)
      {
        var id := ids[n];
        var p := before.picks[id];
        assert ids[..n + 1] == ids[..n] + [id];
        RegradedNext(before, ids[..n], id, offer);
        SearchFinds(canon, rows, index, p);
        RegradeOne(canon, grade, index, id, p, now);
      }
      assert ids[..|ids|] == ids;
    }

    // One iteration, for the pick `p` as it was fetched.
    method RegradeOne(canon: string -> string, grade: (Pick, int, int) -> Option<Outcome>, index: R.Index<string>,
                      id: int, p: Pick,
                      now: int)
      requires id in db.picks
      modifies this
      ensures var o := Graded(canon, grade, Search(canon, index, p), p, now);
              db == Settle(old(db), id, o).(audit := old(db).audit + SettledRows(old(db), id, o))
    {
      if p.starts.None? { return; }
      var answer := R.ResolveMatch(canon, index, p.home, p.away, p.starts.value / DAY);
      if answer.row.None? { return; }
      var completion := Classify(answer.row.value);
      if completion.None? { return; }
      var games := R.Games(canon, answer.row.value, p.home);
      if completion.value.Retired? && (games.0.None? || games.1.None?) { return; }
      if HasSettledTwin(db, id) {
        db := SetStatus(db, id, Superseded);
        return;
      }
      var final := Final(completion.value, games.0, games.1);
      var outcome := OutcomeOf(grade, p, final);
      if outcome.None? || id in db.results { return; }
      var result := GradedResult(outcome.value, p, final, now, None);
      db := SetStatus(db.(results := db.results[id := result]), id, Settled);
      result := result.(note := Some(REGRADE_NOTE));
      db := db.(results := db.results[id := result]);
      db := db.(audit := db.audit + RegradedRows(id, result));
    }
  }

  // The row the index gives for a pick.
  function Search(canon: string -> string, index: R.Index<string>, p: Pick): Option<MatchRow> {
    if p.starts.None? then None else R.ResolveMatch(canon, index, p.home, p.away, p.starts.value / DAY).row
  }

  lemma SearchFinds(canon: string -> string, rows: seq<MatchRow>, index: R.Index<string>, p: Pick)
    requires R.Indexes(canon, rows, index)
    ensures Search(canon, index, p) == Found(canon, rows, p)
  {
    if p.starts.Some? { R.AnswerIsScan(canon, rows, index, p.home, p.away, p.starts.value / DAY); }
  }

  lemma TargetsAreOpen(db: Db, ids: seq<int>)
    requires Answers(ids, Targets(db))
    ensures AllOpen(db, ids)
  {
    forall id | id in ids ensures IsTarget(db, id) { assert Targets(db)(id); }
  }

  lemma DueArePicks(db: Db, book: Book, now: int, expireAfter: Option<int>, queried: seq<int>)
    requires forall id :: id in queried <==> IsQueried(db, now)(id)
    ensures forall id :: id in Filter(IsDue(db, book, now, expireAfter), queried) <==>
              Due(db, book, now, expireAfter, id)
  {
    forall id
      ensures id in Filter(IsDue(db, book, now, expireAfter), queried) <==> Due(db, book, now, expireAfter, id)
    {
      FilterIn(IsDue(db, book, now, expireAfter), queried, id);
    }
  }

  lemma NothingDue(db: Db, book: Book, now: int, queried: seq<int>)
    ensures Filter(IsDue(db, book, now, None), queried) == []
  {
    FilterNone(IsDue(db, book, now, None), queried);
  }

  lemma DueIsGapPast(db: Db, book: Book, now: int, after: int, queried: seq<int>)
    ensures Filter(IsPast(db, now, after), Filter(IsGap(db, book, now), queried))
            == Filter(IsDue(db, book, now, Some(after)), queried)
    ensures forall id :: id in Filter(IsGap(db, book, now), queried) ==> InGap(db, book, now, id)
  {
    FilterTwice(IsGap(db, book, now), IsPast(db, now, after), IsDue(db, book, now, Some(after)), queried);
    forall id | id in Filter(IsGap(db, book, now), queried) ensures InGap(db, book, now, id) {
      FilterIn(IsGap(db, book, now), queried, id);
    }
  }

  lemma SettleSkipsAudit(db: Db, audit: seq<AuditRow>, id: int, offer: Offer)
    requires id in db.picks
    ensures Settle(db.(audit := audit), id, offer) == Settle(db, id, offer).(audit := audit)
    ensures SettledRows(db.(audit := audit), id, offer) == SettledRows(db, id, offer)
  {
    assert HasSettledTwin(db.(audit := audit), id) <==> HasSettledTwin(db, id);
  }

  lemma RegradedNext(db: Db, ids: seq<int>, id: int, offer: int -> Offer)
    requires id in db.picks && forall i :: i in ids ==> i in db.picks
    ensures var b := Regraded(db, ids, offer);
            Regraded(db, ids + [id], offer)
              == Settle(b, id, offer(id)).(audit := b.audit + SettledRows(b, id, offer(id)))
  {
    var pass, rows := Pass(db, ids, offer), RegradeTrail(db, ids, offer);
    PassNext(db, ids, id, offer);
    SettleSkipsAudit(pass, db.audit + rows, id, offer(id));
    assert db.audit + (rows + SettledRows(pass, id, offer(id))) == (db.audit + rows) + SettledRows(pass, id, offer(id));
  }

  lemma PassNext(db: Db, ids: seq<int>, id: int, offer: int -> Offer)
    requires id in db.picks && forall i :: i in ids ==> i in db.picks
    ensures Pass(db, ids + [id], offer) == Settle(Pass(db, ids, offer), id, offer(id))
    ensures RegradeTrail(db, ids + [id], offer)
            == RegradeTrail(db, ids, offer) + SettledRows(Pass(db, ids, offer), id, offer(id))
  {
    assert (ids + [id])[..|ids|] == ids;
  }

  // ----- what every run keeps --------------------------------------------------------

  ghost predicate Sound(db: Db) { Consistent(db) && Exclusive(db) }

  lemma RestateKeeps(db: Db, ids: seq<int>)
    requires Consistent(db) && Selects(db, ids)
    ensures Consistent(Restated(db, ids))
  {
  }

  lemma RestateExclusive(db: Db, ids: seq<int>)
    requires Exclusive(db) && Selects(db, ids)
    ensures Exclusive(Restated(db, ids))
  {
    var out := Restated(db, ids);
    forall a, b | a in out.results && b in out.results && a in out.picks && b in out.picks
      ensures !Siblings(out.picks[a], out.picks[b])
    {
      assert !Siblings(db.picks[a], db.picks[b]);
    }
  }

  lemma SettleKeeps(db: Db, id: int, offer: Offer)
    requires Sound(db) && id in db.picks
    ensures Sound(Settle(db, id, offer))
  {
    var out := Settle(db, id, offer);
    forall a, b | a in out.results && b in out.results && a in out.picks && b in out.picks
      ensures !Siblings(out.picks[a], out.picks[b])
    {
      assert Siblings(out.picks[a], out.picks[b]) <==> Siblings(db.picks[a], db.picks[b]);
      assert Siblings(db.picks[a], db.picks[b]) ==> Siblings(db.picks[b], db.picks[a]);
    }
  }

  lemma {:induction false} PassKeeps(db: Db, ids: seq<int>, offer: int -> Offer)
    requires Sound(db) && forall id :: id in ids ==> id in db.picks
    ensures Sound(Pass(db, ids, offer))
  {
    if ids != [] {
      var init := ids[..|ids| - 1];
      PassKeeps(db, init, offer);
      assert ids[|ids| - 1] in ids;
      SettleKeeps(Pass(db, init, offer), ids[|ids| - 1], offer(ids[|ids| - 1]));
    }
  }

  lemma RevertKeeps(db: Db, now: int)
    requires Consistent(db)
    ensures Consistent(Reverted(db, now))
  {
  }

  lemma RevertExclusive(db: Db, now: int)
    requires Exclusive(db)
    ensures Exclusive(Reverted(db, now))
  {
    var out := Reverted(db, now);
    forall a, b | a in out.results && b in out.results && a in out.picks && b in out.picks
      ensures !Siblings(out.picks[a], out.picks[b])
    {
      assert !Siblings(db.picks[a], db.picks[b]);
    }
  }

  datatype Step = RestateStep(ids: seq<int>)
                | ExpireStep(book: Book, expireAfter: Option<int>, now: int, queried: seq<int>, standing: seq<int>)
                | RegradeStep(canon: string -> string, grade: (Pick, int, int) -> Option<Outcome>,
                              rows: seq<MatchRow>, ids: seq<int>, now: int)

  ghost predicate Enabled(db: Db, s: Step) {
    match s
    case RestateStep(ids) => Selects(db, ids)
    case ExpireStep(book, _, now, queried, _) => book.size > 0 && Answers(queried, IsQueried(db, now))
    case RegradeStep(_, _, _, ids, _) => Answers(ids, Targets(db))
  }

  // One script run; see the methods above.
  ghost predicate Ran(db: Db, s: Step, out: Db)
    requires Enabled(db, s)
  {
    match s
    case RestateStep(ids) => out == Restated(db, ids)
    case ExpireStep(book, expireAfter, now, queried, standing) =>
      var due := Filter(IsDue(db, book, now, expireAfter), queried);
      (forall id :: id in due ==> id in db.picks) && out == Expired(db, due, now, standing)
    case RegradeStep(canon, grade, rows, ids, now) =>
      AllOpen(db, ids) && out == Regraded(db, ids, GradeOffer(canon, grade, rows, db, now))
  }

  // States of a run, one script after the other.
  ghost predicate IsRun(states: seq<Db>, steps: seq<Step>) {
    |states| == |steps| + 1 && forall i :: 0 <= i < |steps| ==>
        Enabled(states[i], steps[i]) && Ran(states[i], steps[i], states[i + 1])
  }

  lemma StepKeeps(db: Db, s: Step, out: Db)
    requires Sound(db) && Enabled(db, s) && Ran(db, s, out)
    ensures Sound(out)
  {
    match s {
      case RestateStep(ids) =>
        RestateKeeps(db, ids);
        RestateExclusive(db, ids);
      case ExpireStep(book, expireAfter, now, queried, standing) =>
        var due := Filter(IsDue(db, book, now, expireAfter), queried);
        var mid := Pass(db, due, VoidOffer(db, now));
        PassKeeps(db, due, VoidOffer(db, now));
        RevertKeeps(mid, now);
        RevertExclusive(mid, now);
      case RegradeStep(canon, grade, rows, ids, now) =>
        PassKeeps(db, ids, GradeOffer(canon, grade, rows, db, now));
    }
  }

  // Any sequence of restate, expire and re-grade runs keeps alerted picks without a
  // result and settled picks with one, and never counts a real bet twice.
  lemma {:induction false} RunsKeep(states: seq<Db>, steps: seq<Step>, n: nat)
    requires IsRun(states, steps) && n < |states| && Consistent(states[0]) && Exclusive(states[0])
    ensures Consistent(states[n]) && Exclusive(states[n])
  {
    if n != 0 {
      RunsKeep(states, steps, n - 1);
      StepKeeps(states[n - 1], steps[n - 1], states[n]);
    }
  }

  // ----- rebuilding what a restatement deleted --------------------------------------

  // The old value an audit trail records for a column of a pick.
  ghost predicate Records(trail: seq<AuditRow>, id: int, c: Column, v: Value) {
    (exists a :: a in trail && a.pick == id && a.column == c && a.oldValue == v)
    && forall a :: a in trail && a.pick == id && a.column == c ==> a.oldValue == v
  }

  function Position(c: Column): (i: nat)
    requires !c.StatusColumn?
    ensures i < 9 && RESULT_COLUMNS[i] == c
  {
    match c
    case OutcomeColumn => 0 case PnlColumn => 1 case RoiColumn => 2 case StakeColumn => 3 case OddsColumn => 4
    case HomeColumn => 5 case AwayColumn => 6 case NoteColumn => 7 case SettledAtColumn => 8
  }

  function OldValue(p: Pick, r: Result, c: Column): Value {
    if c.StatusColumn? then StatusText(p.status) else ColumnText(r, c)
  }

  lemma RowsAre(id: int, p: Pick, r: Result, a: AuditRow)
    ensures a in RestatementRows(id, p, r) ==> a.pick == id && a.oldValue == OldValue(p, r, a.column)
  {
  }

  lemma RowsHave(id: int, p: Pick, r: Result, c: Column)
    ensures exists a :: a in RestatementRows(id, p, r) && a.pick == id && a.column == c
  {
    var rows := RestatementRows(id, p, r);
    if c.StatusColumn? { assert rows[9] in rows; } else { assert rows[Position(c)] in rows; }
  }

  lemma {:induction false} TrailRecords(db: Db, ids: seq<int>, id: int, c: Column)
    requires Distinct(ids) && forall i :: i in ids ==> Restatable(db, i)
    ensures id in ids ==> Records(RestatementTrail(db, ids), id, c, OldValue(db.picks[id], db.results[id], c))
    ensures id !in ids ==> forall a :: a in RestatementTrail(db, ids) ==> a.pick != id
  {
    if ids != [] {
      var init, last := ids[..|ids| - 1], ids[|ids| - 1];
      assert ids == init + [last];
      TrailRecords(db, init, id, c);
      assert Restatable(db, last);
      forall a { RowsAre(last, db.picks[last], db.results[last], a); }
      RowsHave(last, db.picks[last], db.results[last], c);
    }
  }

  // A status and result that agree with every recorded old value of a pick.
  ghost predicate Rebuilt(trail: seq<AuditRow>, id: int, p: Pick, r: Result) {
    forall c :: Records(trail, id, c, OldValue(p, r, c))
  }

  // The audit rows of a restatement suffice: for each re-opened pick exactly one
  // status and result fit them, the ones it had.
  lemma RestatementRebuilds(db: Db, ids: seq<int>, id: int)
    requires Selects(db, ids) && id in ids
    ensures Rebuilt(RestatementTrail(db, ids), id, db.picks[id], db.results[id])
    ensures forall p, r :: Rebuilt(RestatementTrail(db, ids), id, p, r) ==>
              p.status == db.picks[id].status && r == db.results[id]
    ensures Restated(db, ids).picks[id].status == Alerted && id !in Restated(db, ids).results
  {
    var trail := RestatementTrail(db, ids);
    forall c ensures Records(trail, id, c, OldValue(db.picks[id], db.results[id], c)) { TrailRecords(db, ids, id, c); }
    forall p, r | Rebuilt(trail, id, p, r) ensures p.status == db.picks[id].status && r == db.results[id] {
      forall c ensures OldValue(p, r, c) == OldValue(db.picks[id], db.results[id], c) {
        assert Records(trail, id, c, OldValue(p, r, c));
      }
      SameColumns(p, r, db.picks[id], db.results[id]);
    }
  }

  lemma SameColumns(p: Pick, r: Result, p': Pick, r': Result)
    requires forall c :: OldValue(p, r, c) == OldValue(p', r', c)
    ensures p.status == p'.status && r == r'
  {
    assert OldValue(p, r, StatusColumn) == OldValue(p', r', StatusColumn);
    assert OldValue(p, r, OutcomeColumn) == OldValue(p', r', OutcomeColumn);
    assert OldValue(p, r, PnlColumn) == OldValue(p', r', PnlColumn);
    assert OldValue(p, r, RoiColumn) == OldValue(p', r', RoiColumn);
    assert OldValue(p, r, StakeColumn) == OldValue(p', r', StakeColumn);
    assert OldValue(p, r, OddsColumn) == OldValue(p', r', OddsColumn);
    assert OldValue(p, r, HomeColumn) == OldValue(p', r', HomeColumn);
    assert OldValue(p, r, AwayColumn) == OldValue(p', r', AwayColumn);
    assert OldValue(p, r, NoteColumn) == OldValue(p', r', NoteColumn);
    assert OldValue(p, r, SettledAtColumn) == OldValue(p', r', SettledAtColumn);
  }

  // Everything else is left as it was.
  lemma RestatementFrame(db: Db, ids: seq<int>, id: int)
    requires Selects(db, ids) && !Restatable(db, id) && id in db.picks
    ensures Restated(db, ids).picks[id] == db.picks[id]
    ensures (id in Restated(db, ids).results <==> id in db.results)
    ensures id in db.results ==> Restated(db, ids).results[id] == db.results[id]
  {
  }

  // ----- what the other audit trails record ----------------------------------------

  // The new value an audit trail records for a column of a pick.
  ghost predicate RecordsNew(trail: seq<AuditRow>, id: int, c: Column, v: Value) {
    (exists a :: a in trail && a.pick == id && a.column == c && a.newValue == v)
    && forall a :: a in trail && a.pick == id && a.column == c ==> a.newValue == v
  }

  function NewValue(r: Result, c: Column): Value { if c.StatusColumn? then StatusText(Settled) else ColumnText(r, c) }

  lemma RegradedRowsRecord(id: int, r: Result, c: Column)
    ensures RecordsNew(RegradedRows(id, r), id, c, NewValue(r, c))
    ensures forall a :: a in RegradedRows(id, r) ==> a.pick == id && a.newValue == NewValue(r, a.column)
  {
    var rows := RegradedRows(id, r);
    if c.StatusColumn? { assert rows[0] in rows; } else { assert rows[1 + Position(c)] in rows; }
  }

  lemma {:induction false} PassUntouched(db: Db, ids: seq<int>, offer: int -> Offer, id: int)
    requires (forall j :: j in ids ==> j in db.picks) && id in db.picks && id !in ids
    ensures var e := Pass(db, ids, offer);
            e.picks[id] == db.picks[id] && (id in e.results <==> id in db.results)
            && (id in db.results ==> e.results[id] == db.results[id])
  {
    if ids != [] { PassUntouched(db, ids[..|ids| - 1], offer, id); }
  }

  // What the trail says of one pick: everything about a result it gained, or nothing.
  ghost predicate TrailTells(trail: seq<AuditRow>, after: Db, id: int, c: Column) {
    if id in after.results && id in after.picks then
      && after.picks[id].status == Settled && after.results[id].note == Some(REGRADE_NOTE)
      && RecordsNew(trail, id, c, NewValue(after.results[id], c))
    else forall a :: a in trail ==> a.pick != id
  }

  lemma TargetTells(db: Db, id: int, offer: Offer, c: Column)
    requires id in db.picks && id !in db.results && (offer.Give? ==> offer.result.note == Some(REGRADE_NOTE))
    ensures TrailTells(SettledRows(db, id, offer), Settle(db, id, offer), id, c)
  {
    if offer.Give? { RegradedRowsRecord(id, offer.result, c); }
  }

  lemma OthersUntold(db: Db, other: int, offer: Offer, trail: seq<AuditRow>, id: int, c: Column)
    requires other in db.picks && other != id && TrailTells(trail, db, id, c)
    ensures TrailTells(trail + SettledRows(db, other, offer), Settle(db, other, offer), id, c)
  {
    var rows := SettledRows(db, other, offer);
    if offer.Give? { RegradedRowsRecord(other, offer.result, c); }
    assert forall a :: a in rows ==> a.pick != id;
    assert forall a :: a in trail + rows <==> a in trail || a in rows;
  }

  lemma {:induction false} TrailSilent(db: Db, ids: seq<int>, offer: int -> Offer, id: int)
    requires (forall j :: j in ids ==> j in db.picks) && id !in ids
    ensures forall a :: a in RegradeTrail(db, ids, offer) ==> a.pick != id
  {
    if ids != [] {
      var last := ids[|ids| - 1];
      TrailSilent(db, ids[..|ids| - 1], offer, id);
      assert last in ids;
      if offer(last).Give? { RegradedRowsRecord(last, offer(last).result, StatusColumn); }
    }
  }

  lemma {:induction false} TrailOfPass(db: Db, ids: seq<int>, offer: int -> Offer, id: int, c: Column)
    requires Distinct(ids) && (forall j :: j in ids ==> j in db.picks) && id in db.picks && id !in db.results
    requires forall j :: j in ids && offer(j).Give? ==> offer(j).result.note == Some(REGRADE_NOTE)
    ensures TrailTells(RegradeTrail(db, ids, offer), Pass(db, ids, offer), id, c)
  {
    if ids != [] {
      var init, last := ids[..|ids| - 1], ids[|ids| - 1];
      assert last in ids;
      var m, trail := Pass(db, init, offer), RegradeTrail(db, init, offer);
      if last == id {
        assert id !in init;
        PassUntouched(db, init, offer, id);
        TrailSilent(db, init, offer, id);
        TargetTells(m, id, offer(id), c);
        assert forall a :: a in trail + SettledRows(m, id, offer(id)) && a.pick == id ==>
            a in SettledRows(m, id, offer(id));
      } else {
        TrailOfPass(db, init, offer, id, c);
        OthersUntold(m, last, offer(last), trail, id, c);
      }
    }
  }

  // The mirror image of a restatement: for each pick the run settles, the appended
  // audit rows spell out its new status and every column of its new result, and
  // picks it does not settle get no row.
  lemma RegradeRecords(canon: string -> string, grade: (Pick, int, int) -> Option<Outcome>, rows: seq<MatchRow>, db: Db,
                       ids: seq<int>, now: int, id: int, c: Column)
    requires Consistent(db) && Answers(ids, Targets(db)) && id in db.picks && id !in db.results
    ensures AllOpen(db, ids)
    ensures var out := Regraded(db, ids, GradeOffer(canon, grade, rows, db, now));
            db.audit <= out.audit && TrailTells(out.audit[|db.audit|..], out, id, c)
  {
    var offer := GradeOffer(canon, grade, rows, db, now);
    TargetsAreOpen(db, ids);
    TrailOfPass(db, ids, offer, id, c);
    var trail := RegradeTrail(db, ids, offer);
    assert (db.audit + trail)[|db.audit|..] == trail;
    assert Regraded(db, ids, offer).results == Pass(db, ids, offer).results;
  }

  // The expiry audit names exactly the voids that stand after the revert.
  lemma {:induction false} ExpiryAudits(db: Db, now: int, ids: seq<int>, id: int)
    ensures (exists a :: a in ExpiryTrail(db, now, ids) && a.pick == id) <==>
              id in ids && id in db.results && VoidedAt(db.results[id], now)
  {
    if ids != [] {
      var init, last := ids[..|ids| - 1], ids[|ids| - 1];
      ExpiryAudits(db, now, init, id);
      assert ids == init + [last];
      var tail := if last in db.results && VoidedAt(db.results[last], now) then ExpiryRows(last) else [];
      assert ExpiryTrail(db, now, ids) == ExpiryTrail(db, now, init) + tail;
      if tail != [] { assert tail[0] in tail && tail[0].pick == last; }
    }
  }
}
