// Which pick gets which result in a re-grade or an expiry run, and whether the
// carve-out family comes through an expiry run untouched.

module RepairOutcomes {
  import opened Common
  import opened SettlementTables
  import opened SettlementRepair

  import F = FoldDetails
  import R = ResultIndex

  // ----- what a settling pass does to each pick ------------------------------------

  // Only the status of a pick ever changes.
  lemma {:induction false} PassStatic(db: Db, ids: seq<int>, offer: int -> Offer, id: int)
    requires id in db.picks && forall j :: j in ids ==> j in db.picks
    ensures Pass(db, ids, offer).picks[id].(status := Alerted) == db.picks[id].(status := Alerted)
  {
    if ids != [] { PassStatic(db, ids[..|ids| - 1], offer, id); }
  }

  lemma {:induction false} ResultsGrow(db: Db, ids: seq<int>, offer: int -> Offer, n: nat, id: int)
    requires n <= |ids| && forall j :: j in ids ==> j in db.picks
    ensures id in Pass(db, ids[..n], offer).results ==> id in Pass(db, ids, offer).results
    decreases |ids|
  {
    if n == |ids| {
      assert ids[..n] == ids;
    } else {
      var init := ids[..|ids| - 1];
      assert init[..n] == ids[..n];
      ResultsGrow(db, init, offer, n, id);
    }
  }

  lemma {:induction false} ResultsFrom(db: Db, ids: seq<int>, offer: int -> Offer, id: int)
    requires forall j :: j in ids ==> j in db.picks
    ensures id in Pass(db, ids, offer).results ==> id in db.results || id in ids
  {
    if ids != [] {
      ResultsFrom(db, ids[..|ids| - 1], offer, id);
      assert ids[|ids| - 1] in ids;
    }
  }

  // Once a pick had its turn, the rest of the pass leaves it alone.
  lemma {:induction false} AtTurn(db: Db, ids: seq<int>, offer: int -> Offer, i: nat)
    requires Distinct(ids) && i < |ids| && forall j :: j in ids ==> j in db.picks
    ensures var e, t := Pass(db, ids, offer), Settle(Pass(db, ids[..i], offer), ids[i], offer(ids[i]));
            e.picks[ids[i]] == t.picks[ids[i]] && (ids[i] in e.results <==> ids[i] in t.results)
            && (ids[i] in t.results ==> e.results[ids[i]] == t.results[ids[i]])
  {
    var init := ids[..|ids| - 1];
    if i < |init| {
      assert init[..i] == ids[..i] && ids[i] != ids[|ids| - 1];
      AtTurn(db, init, offer, i);
    } else {
      assert init == ids[..i];
    }
  }

  // What became of an open pick: it got the result, was superseded, or stays open.
  ghost predicate Took(db: Db, out: Db, id: int, r: Result)
    requires id in db.picks
  {
    id in out.picks && out.picks[id] == db.picks[id].(status := Settled) && id in out.results && out.results[id] == r
  }

  ghost predicate GaveWay(db: Db, out: Db, id: int)
    requires id in db.picks
  {
    id in out.picks && out.picks[id] == db.picks[id].(status := Superseded) && id !in out.results
  }

  ghost predicate Stayed(db: Db, out: Db, id: int)
    requires id in db.picks
  {
    id in out.picks && out.picks[id] == db.picks[id] && id !in out.results
  }

  lemma TurnOf(db: Db, ids: seq<int>, offer: int -> Offer, i: nat)
    requires Consistent(db) && AllOpen(db, ids) && i < |ids| && ids[i] in db.picks
    ensures (forall j :: j in ids[..i] ==> j in db.picks)
    ensures var e, id, before := Pass(db, ids, offer), ids[i], Pass(db, ids[..i], offer);
            if offer(id).Leave? then Stayed(db, e, id)
            else if HasSettledTwin(before, id) then GaveWay(db, e, id)
            else if offer(id).Refuse? then Stayed(db, e, id)
            else Took(db, e, id, offer(id).result)
  {
    assert ids[i] in ids && ids[i] !in ids[..i];
    PassUntouched(db, ids[..i], offer, ids[i]);
    AtTurn(db, ids, offer, i);
  }

  lemma SiblingsStay(db: Db, ids: seq<int>, offer: int -> Offer, a: int, b: int)
    requires a in db.picks && b in db.picks && forall j :: j in ids ==> j in db.picks
    ensures var e := Pass(db, ids, offer); Siblings(e.picks[a], e.picks[b]) <==> Siblings(db.picks[a], db.picks[b])
  {
    PassStatic(db, ids, offer, a);
    PassStatic(db, ids, offer, b);
  }

  lemma TwinStays(db: Db, ids: seq<int>, offer: int -> Offer, i: nat, id: int)
    requires i <= |ids| && id in db.picks && forall j :: j in ids ==> j in db.picks
    ensures (forall j :: j in ids[..i] ==> j in db.picks)
    ensures HasSettledTwin(Pass(db, ids[..i], offer), id) ==> HasSettledTwin(Pass(db, ids, offer), id)
  {
    var before, e := Pass(db, ids[..i], offer), Pass(db, ids, offer);
    if HasSettledTwin(before, id) {
      var t :| t in before.results && t in before.picks && Siblings(before.picks[id], before.picks[t]);
      ResultsGrow(db, ids, offer, i, t);
      SiblingsStay(db, ids[..i], offer, id, t);
      SiblingsStay(db, ids, offer, id, t);
    }
  }

  // Told by the final table alone: a pick with a result to give gives way exactly
  // when some sibling has one in the end.
  lemma PassMeans(db: Db, ids: seq<int>, offer: int -> Offer, id: int)
    requires Sound(db) && AllOpen(db, ids) && id in db.picks && id in ids
    ensures var e := Pass(db, ids, offer);
            match offer(id)
            case Leave => Stayed(db, e, id)
            case Refuse => Stayed(db, e, id) || (GaveWay(db, e, id) && HasSettledTwin(e, id))
            case Give(r) => if HasSettledTwin(e, id) then GaveWay(db, e, id) else Took(db, e, id, r)
  {
    var i :| 0 <= i < |ids| && ids[i] == id;
    TurnOf(db, ids, offer, i);
    TwinStays(db, ids, offer, i, id);
    PassKeeps(db, ids, offer);
  }

  // ----- who gets which result ------------------------------------------------------

  // A played-out match always passes the set-score guard.
  lemma GuardNeverRefuses(canon: string -> string, grade: (Pick, int, int) -> Option<Outcome>, row: MatchRow, p: Pick)
    requires FinalOf(canon, row, p.home).Some? && FinalOf(canon, row, p.home).value.completion.Full?
    ensures var f := FinalOf(canon, row, p.home).value;
            f.home.Some? && f.away.Some? && OutcomeOf(grade, p, f) == grade(p, f.home.value, f.away.value)
  {
  }

  // A target of the re-grade stays open when no single row of the source is its
  // fixture or the row does not classify. One the row grades is settled with that
  // grade, unless in the end a sibling has the result; and a refused one has no result.
  lemma RegradeMeans(canon: string -> string, grade: (Pick, int, int) -> Option<Outcome>, rows: seq<MatchRow>, db: Db,
                     ids: seq<int>, now: int, id: int)
    requires Sound(db) && Answers(ids, Targets(db)) && id in ids
    ensures AllOpen(db, ids)
    ensures var out, p := Regraded(db, ids, GradeOffer(canon, grade, rows, db, now)), db.picks[id];
            match Graded(canon, grade, Found(canon, rows, p), p, now)
            case Leave => Stayed(db, out, id)
            case Refuse => Stayed(db, out, id) || (GaveWay(db, out, id) && HasSettledTwin(out, id))
            case Give(r) => if HasSettledTwin(out, id) then GaveWay(db, out, id) else Took(db, out, id, r)
  {
    var offer := GradeOffer(canon, grade, rows, db, now);
    TargetsAreOpen(db, ids);
    PassMeans(db, ids, offer, id);
    var out, e := Regraded(db, ids, offer), Pass(db, ids, offer);
    assert out.picks == e.picks && out.results == e.results;
    assert offer(id) == Graded(canon, grade, Found(canon, rows, db.picks[id]), db.picks[id], now);
  }

  // What is stored for a pick that the re-grade settles, in the fields of the one row of
  // its fixture. A played-out match is graded on the games of the pick's own sides, told
  // by canonical name, and stores them; after a walkover or a retirement the pick is
  // void, without scores or with the games played.
  lemma RegradedScores(canon: string -> string, grade: (Pick, int, int) -> Option<Outcome>, rows: seq<MatchRow>,
                       db: Db, ids: seq<int>, now: int, id: int) returns (row: MatchRow)
    requires Sound(db) && Answers(ids, Targets(db)) && id in ids
    requires id in Regraded(db, ids, GradeOffer(canon, grade, rows, db, now)).results
    ensures AllOpen(db, ids) && id in db.picks && db.picks[id].starts.Some?
    ensures var p, r := db.picks[id], Regraded(db, ids, GradeOffer(canon, grade, rows, db, now)).results[id];
            var homeWon := canon(row.winner) == canon(p.home);
            var home, away := if homeWon then row.winnerGames else row.loserGames,
                              if homeWon then row.loserGames else row.winnerGames;
            && R.Scanned(canon, rows, p.home, p.away, p.starts.value / 86400, row)
            && (row.completed ==>
                  home.Some? && away.Some? && home.value + away.value >= 12
                  && grade(p, home.value, away.value) == Some(r.outcome) && r.home == home && r.away == away)
            && (!row.completed ==> r.outcome == Void && r.pnl == Some(0.0))
            && (!row.completed && Contains(F.Lower(row.comment), "walkover") ==> r.home == None && r.away == None)
            && (!row.completed && !Contains(F.Lower(row.comment), "walkover") ==>
                  row.comment != "" && home.Some? && away.Some? && r.home == home && r.away == away)
            && r.stake == Some(p.stake) && r.odds == Some(p.odds) && r.settledAt == now
            && r.note == Some("games_level_regrade:tennis_data")
  {
    RegradeMeans(canon, grade, rows, db, ids, now, id);
    row := Found(canon, rows, db.picks[id]).value;
  }

  // And it is settled whenever that row is complete and consistent, the grade accepts the
  // games of the pick's own sides, and in the end no sibling has a result.
  lemma RegradeSettles(canon: string -> string, grade: (Pick, int, int) -> Option<Outcome>, rows: seq<MatchRow>,
                       db: Db, ids: seq<int>, now: int, id: int, row: MatchRow)
    requires Sound(db) && Answers(ids, Targets(db)) && id in ids && id in db.picks && db.picks[id].starts.Some?
    requires R.Scanned(canon, rows, db.picks[id].home, db.picks[id].away, db.picks[id].starts.value / 86400, row)
    requires row.completed && row.winnerGames.Some? && row.loserGames.Some?
    requires row.winnerGames.value + row.loserGames.value >= 12
    requires row.winnerSets.Some? && row.loserSets.Some? ==> row.winnerSets.value > row.loserSets.value
    requires var homeWon := canon(row.winner) == canon(db.picks[id].home);
             grade(db.picks[id], if homeWon then row.winnerGames.value else row.loserGames.value,
                   if homeWon then row.loserGames.value else row.winnerGames.value).Some?
    ensures AllOpen(db, ids)
    ensures var out := Regraded(db, ids, GradeOffer(canon, grade, rows, db, now));
            id in out.picks && (id in out.results <==> !HasSettledTwin(out, id))
  {
    var p := db.picks[id];
    RegradeMeans(canon, grade, rows, db, ids, now, id);
    R.ScanIsUnique(canon, rows, p.home, p.away, p.starts.value / DAY, row);
    assert Found(canon, rows, p) == Some(row);
  }

  // The money of a result: a win pays the stake times the odds above one, a loss costs
  // the stake, the half outcomes half of it, and a push or a void returns it.
  lemma PaidAs(o: Outcome, stake: real, odds: real)
    requires stake > 0.0 && odds > 1.0
    ensures PickPnl(Won, stake, odds) == stake * odds - stake && PickPnl(Lost, stake, odds) == 0.0 - stake
    ensures 2.0 * PickPnl(HalfWon, stake, odds) == PickPnl(Won, stake, odds)
    ensures 2.0 * PickPnl(HalfLost, stake, odds) == PickPnl(Lost, stake, odds)
    ensures PickPnl(o, stake, odds) == 0.0 <==> o in {Push, Void}
    ensures PickPnl(o, stake, odds) > 0.0 <==> o in {Won, HalfWon}
    ensures PickRoi(PickPnl(o, stake, odds), stake).Some?
            && PickRoi(PickPnl(o, stake, odds), stake).value * stake == PickPnl(o, stake, odds)
  {
    Positive(stake, odds - 1.0);
    Positive(stake / 2.0, odds - 1.0);
    match o
    case Won =>
    case Lost =>
    case HalfWon =>
    case HalfLost =>
    case Push =>
    case Void =>
  }

  lemma Positive(a: real, b: real)
    requires a > 0.0 && b > 0.0
    ensures a * b > 0.0
  {
  }

  lemma DueAreOpen(db: Db, book: Book, now: int, expireAfter: Option<int>, queried: seq<int>)
    requires Answers(queried, IsQueried(db, now))
    ensures AllOpen(db, Filter(IsDue(db, book, now, expireAfter), queried))
    ensures forall id :: id in Filter(IsDue(db, book, now, expireAfter), queried) <==>
              Due(db, book, now, expireAfter, id)
  {
    DueArePicks(db, book, now, expireAfter, queried);
    FilterKeepsDistinct(IsDue(db, book, now, expireAfter), queried);
  }

  lemma RevertOutside(db: Db, now: int, id: int)
    requires id in db.picks && !Family(db.picks[id].bet)
    ensures var out := Reverted(db, now);
            && id in out.picks && out.picks[id] == db.picks[id]
            && (id in out.results <==> id in db.results) && (id in db.results ==> out.results[id] == db.results[id])
            && (HasSettledTwin(out, id) <==> HasSettledTwin(db, id))
  {
    var out := Reverted(db, now);
    forall t | t in db.results && t in db.picks && Siblings(db.picks[id], db.picks[t])
      ensures t in out.results && out.picks[t] == db.picks[t]
    {
      assert !CarvedOut(db, t, now);
    }
    forall t | t in out.results && t in out.picks && Siblings(out.picks[id], out.picks[t])
      ensures t in db.results && Siblings(db.picks[id], db.picks[t])
    {
    }
  }

  // Outside the carve-out family, exactly the due picks expire: each is voided, or
  // gives way when in the end a sibling has a result. All others are untouched.
  lemma ExpiryMeans(db: Db, book: Book, now: int, expireAfter: Option<int>, queried: seq<int>, standing: seq<int>,
                    id: int)
    requires Sound(db) && Answers(queried, IsQueried(db, now)) && id in db.picks && !Family(db.picks[id].bet)
    ensures var due := Filter(IsDue(db, book, now, expireAfter), queried);
            (forall j :: j in due ==> j in db.picks)
            && var out := Expired(db, due, now, standing);
               if Due(db, book, now, expireAfter, id) then
                 id in out.picks
                 && (if HasSettledTwin(out, id) then GaveWay(db, out, id)
                     else Took(db, out, id, VoidResult(db.picks[id], now)))
               else
                 id in out.picks && out.picks[id] == db.picks[id] && (id in out.results <==> id in db.results)
                 && (id in db.results ==> out.results[id] == db.results[id])
  {
    var due, offer := Filter(IsDue(db, book, now, expireAfter), queried), VoidOffer(db, now);
    DueAreOpen(db, book, now, expireAfter, queried);
    var e, out := Pass(db, due, offer), Expired(db, due, now, standing);
    PassStatic(db, due, offer, id);
    RevertOutside(e, now, id);
    assert HasSettledTwin(out, id) <==> HasSettledTwin(Reverted(e, now), id);
    if Due(db, book, now, expireAfter, id) {
      PassMeans(db, due, offer, id);
    } else {
      PassUntouched(db, due, offer, id);
    }
  }

  // ----- the carve-out -----------------------------------------------------------------

  // The carve-out family: statuses and results alike.
  ghost predicate FamilySame(a: Db, b: Db) {
    forall id :: id in a.picks && Family(a.picks[id].bet) ==> Unchanged(a, b, id)
  }

  ghost predicate Unchanged(a: Db, b: Db, id: int)
    requires id in a.picks
  {
    && id in b.picks && b.picks[id] == a.picks[id] && (id in a.results <==> id in b.results)
    && (id in a.results ==> b.results[id] == a.results[id])
  }

  // Two things an operator can check before the run. A due family pick has a sibling
  // that carries a result, or is due as well;
  ghost predicate TwinnedDue(db: Db, book: Book, now: int, expireAfter: Option<int>) {
    exists a, t :: TwinIsDue(db, book, now, expireAfter, a, t)
  }

  ghost predicate TwinIsDue(db: Db, book: Book, now: int, expireAfter: Option<int>, a: int, t: int) {
    && Due(db, book, now, expireAfter, a) && Family(db.picks[a].bet)
    && t in db.picks && Siblings(db.picks[a], db.picks[t]) && (t in db.results || Due(db, book, now, expireAfter, t))
  }

  // or a family result already carries this note and this very timestamp.
  ghost predicate StampTaken(db: Db, now: int) { exists id :: CarvedOut(db, id, now) }

  // The later of two sibling picks gives way.
  lemma LaterGivesWay(db: Db, ids: seq<int>, offer: int -> Offer, i: nat, t: int)
    requires Consistent(db) && AllOpen(db, ids) && i < |ids| && t in db.picks && ids[i] in db.picks
    requires Siblings(db.picks[ids[i]], db.picks[t]) && (t in db.results || t in ids[..i])
    requires forall j :: j in ids ==> offer(j).Give?
    ensures GaveWay(db, Pass(db, ids, offer), ids[i]) || GaveWay(db, Pass(db, ids, offer), t)
  {
    var before := Pass(db, ids[..i], offer);
    assert ids[i] in ids;
    TurnOf(db, ids, offer, i);
    SiblingsStay(db, ids[..i], offer, ids[i], t);
    if t in before.results {
      assert HasSettledTwin(before, ids[i]);
    } else {
      ResultsGrow(db, ids[..i], offer, 0, t);
      EarlierGaveWay(db, ids, offer, i, t);
    }
  }

  // One that had its turn and has no result gave way for good.
  lemma EarlierGaveWay(db: Db, ids: seq<int>, offer: int -> Offer, i: nat, t: int)
    requires Consistent(db) && AllOpen(db, ids) && i < |ids| && t in ids[..i] && t in db.picks && offer(t).Give?
    requires (forall j :: j in ids[..i] ==> j in db.picks) && t !in Pass(db, ids[..i], offer).results
    ensures GaveWay(db, Pass(db, ids, offer), t)
  {
    var sofar := ids[..i];
    var k :| 0 <= k < i && sofar[k] == t;
    assert ids[k] == t && sofar[..k] == ids[..k];
    TurnOf(db, sofar, offer, k);
    TurnOf(db, ids, offer, k);
  }

  lemma TwinnedMeansSuperseded(db: Db, ids: seq<int>, offer: int -> Offer, a: int, t: int) returns (id: int)
    requires Consistent(db) && AllOpen(db, ids) && a in ids && t in db.picks && a in db.picks
    requires Siblings(db.picks[a], db.picks[t]) && (t in db.results || t in ids)
    requires forall j :: j in ids ==> offer(j).Give?
    ensures (id == a || id == t) && id in db.picks && GaveWay(db, Pass(db, ids, offer), id)
  {
    var i :| 0 <= i < |ids| && ids[i] == a;
    if t in db.results || t in ids[..i] {
      LaterGivesWay(db, ids, offer, i, t);
    } else {
      var k :| 0 <= k < |ids| && ids[k] == t;
      assert a != t && i < k && ids[..k][i] == a;
      LaterGivesWay(db, ids, offer, k, a);
    }
    id := if GaveWay(db, Pass(db, ids, offer), a) then a else t;
  }

  lemma UntwinnedIsVoided(db: Db, ids: seq<int>, offer: int -> Offer, id: int)
    requires Consistent(db) && AllOpen(db, ids) && id in ids && id in db.picks && offer(id).Give?
    requires forall t :: t in db.picks && Siblings(db.picks[id], db.picks[t]) ==> t !in db.results && t !in ids
    ensures Took(db, Pass(db, ids, offer), id, offer(id).result)
  {
    var i :| 0 <= i < |ids| && ids[i] == id;
    var before := Pass(db, ids[..i], offer);
    TurnOf(db, ids, offer, i);
    forall t | t in before.results && t in before.picks ensures !Siblings(before.picks[id], before.picks[t]) {
      SiblingsStay(db, ids[..i], offer, id, t);
      ResultsFrom(db, ids[..i], offer, t);
      assert t in ids[..i] ==> t in ids;
    }
  }

  // A family pick that the loop voided or left alone comes out as it went in.
  lemma RevertRestores(db: Db, e: Db, now: int, id: int)
    requires id in db.picks && Family(db.picks[id].bet) && !CarvedOut(db, id, now)
    requires Unchanged(db, e, id)
             || (db.picks[id].status == Alerted && id !in db.results && Took(db, e, id, VoidResult(db.picks[id], now)))
    ensures Unchanged(db, Reverted(e, now), id)
  {
  }

  // A superseded pick stays so.
  lemma RevertMisses(db: Db, e: Db, now: int, id: int)
    requires id in db.picks && db.picks[id].status == Alerted && GaveWay(db, e, id)
    ensures !Unchanged(db, Reverted(e, now), id)
  {
  }

  lemma FamilyPickSame(db: Db, book: Book, now: int, expireAfter: Option<int>, queried: seq<int>, id: int)
    requires Consistent(db) && Answers(queried, IsQueried(db, now)) && id in db.picks && Family(db.picks[id].bet)
    requires !TwinnedDue(db, book, now, expireAfter) && !StampTaken(db, now)
    ensures var due := Filter(IsDue(db, book, now, expireAfter), queried);
            (forall j :: j in due ==> j in db.picks)
            && Unchanged(db, Reverted(Pass(db, due, VoidOffer(db, now)), now), id)
  {
    var due, offer := Filter(IsDue(db, book, now, expireAfter), queried), VoidOffer(db, now);
    DueAreOpen(db, book, now, expireAfter, queried);
    assert !CarvedOut(db, id, now);
    if id in due {
      forall t | t in db.picks && Siblings(db.picks[id], db.picks[t]) ensures t !in db.results && t !in due {
        assert !TwinIsDue(db, book, now, expireAfter, id, t);
      }
      UntwinnedIsVoided(db, due, offer, id);
    } else {
      PassUntouched(db, due, offer, id);
    }
    RevertRestores(db, Pass(db, due, offer), now, id);
  }

  lemma FamilyPickDiffers(db: Db, book: Book, now: int, expireAfter: Option<int>, queried: seq<int>) returns (id: int)
    requires Consistent(db) && Answers(queried, IsQueried(db, now))
    requires TwinnedDue(db, book, now, expireAfter) && !StampTaken(db, now)
    ensures id in db.picks && Family(db.picks[id].bet)
    ensures var due := Filter(IsDue(db, book, now, expireAfter), queried);
            (forall j :: j in due ==> j in db.picks)
            && !Unchanged(db, Reverted(Pass(db, due, VoidOffer(db, now)), now), id)
  {
    var due, offer := Filter(IsDue(db, book, now, expireAfter), queried), VoidOffer(db, now);
    DueAreOpen(db, book, now, expireAfter, queried);
    var a, t :| TwinIsDue(db, book, now, expireAfter, a, t);
    id := TwinnedMeansSuperseded(db, due, offer, a, t);
    assert id !in Pass(db, due, offer).results;
    ResultsGrow(db, due, offer, 0, id);
    if id in due { RevertMisses(db, Pass(db, due, offer), now, id); } else { PassUntouched(db, due, offer, id); }
  }

  // The run leaves the carve-out family as it was exactly when neither happens.
  lemma CarveOutHoldsIff(db: Db, book: Book, now: int, expireAfter: Option<int>, queried: seq<int>, standing: seq<int>)
    requires Consistent(db) && Answers(queried, IsQueried(db, now))
    ensures var due := Filter(IsDue(db, book, now, expireAfter), queried);
            (forall j :: j in due ==> j in db.picks)
            && (FamilySame(db, Expired(db, due, now, standing)) <==>
                  !TwinnedDue(db, book, now, expireAfter) && !StampTaken(db, now))
  {
    var due := Filter(IsDue(db, book, now, expireAfter), queried);
    DueAreOpen(db, book, now, expireAfter, queried);
    var reverted := Reverted(Pass(db, due, VoidOffer(db, now)), now);
    assert FamilySame(db, Expired(db, due, now, standing)) <==> FamilySame(db, reverted);
    if StampTaken(db, now) {
      var id :| CarvedOut(db, id, now);
      StampIsLost(db, due, VoidOffer(db, now), now, id);
    } else if TwinnedDue(db, book, now, expireAfter) {
      var id := FamilyPickDiffers(db, book, now, expireAfter, queried);
    } else {
      forall id | id in db.picks && Family(db.picks[id].bet) ensures Unchanged(db, reverted, id) {
        FamilyPickSame(db, book, now, expireAfter, queried, id);
      }
    }
  }

  // A result with this run's stamp from before the run is deleted with the others.
  lemma StampIsLost(db: Db, ids: seq<int>, offer: int -> Offer, now: int, id: int)
    requires Consistent(db) && AllOpen(db, ids) && CarvedOut(db, id, now)
    ensures !Unchanged(db, Reverted(Pass(db, ids, offer), now), id)
  {
    PassUntouched(db, ids, offer, id);
  }

  // Such a table: two due tennis spreads on two events of one fixture.
  function TwinTable(): Db {
    var bet := Instrument("tennis", "spreads", None, "a", 1);
    var p := Pick(Alerted, 1, Some(0), "a", "b", Some({"a", "b"}), bet, 1.0, 2.0);
    Db(map[1 := p, 2 := p.(event := 2)], map[], [])
  }

  lemma TwinsAreDue(now: int, book: Book)
    requires !book.holds("a", "b", 0) && now > 30 * DAY
    ensures Answers([1, 2], IsQueried(TwinTable(), now))
    ensures Filter(IsDue(TwinTable(), book, now, Some(21 * DAY)), [1, 2]) == [1, 2]
  {
    var keep := IsDue(TwinTable(), book, now, Some(21 * DAY));
    assert keep(1) && keep(2);
    assert [1, 2][..1] == [1] && [1][..0] == [];
    assert Filter(keep, [1]) == [1];
  }

  // The first of two siblings takes the result and the second gives way.
  lemma FirstTakes(db: Db, a: int, b: int, offer: int -> Offer)
    requires Consistent(db) && AllOpen(db, [a, b]) && db.results == map[] && a in db.picks && b in db.picks
    requires Siblings(db.picks[b], db.picks[a]) && offer(a).Give? && offer(b).Give?
    ensures (forall j :: j in [a, b] ==> j in db.picks)
    ensures var e := Pass(db, [a, b], offer);
            Took(db, e, a, offer(a).result) && GaveWay(db, e, b) && forall t :: t in e.results ==> t == a || t == b
  {
    assert [a, b][..0] == [] && [a, b][..1] == [a] && [a][..0] == [];
    TurnOf(db, [a, b], offer, 0);
    TurnOf(db, [a], offer, 0);
    SiblingsStay(db, [a], offer, b, a);
    TurnOf(db, [a, b], offer, 1);
    forall t | t in Pass(db, [a, b], offer).results ensures t == a || t == b { ResultsFrom(db, [a, b], offer, t); }
  }

  lemma TwinReverts(db: Db, e: Db, a: int, b: int, now: int)
    requires a in db.picks && b in db.picks && db.picks[a].status == Alerted && Family(db.picks[a].bet)
    requires Took(db, e, a, VoidResult(db.picks[a], now)) && GaveWay(db, e, b)
    requires forall t :: t in e.results ==> t == a || t == b
    ensures var out := Reverted(e, now);
            a in out.picks && b in out.picks
            && out.picks[a] == db.picks[a] && out.picks[b].status == Superseded && out.results == map[]
  {
    assert CarvedOut(e, a, now);
  }

  // The first is voided and re-opened; the second gave way to it and stays so.
  lemma TwinStaysSuperseded(now: int, book: Book)
    requires !book.holds("a", "b", 0) && now > 30 * DAY
    ensures Consistent(TwinTable()) && Answers([1, 2], IsQueried(TwinTable(), now))
    ensures Filter(IsDue(TwinTable(), book, now, Some(21 * DAY)), [1, 2]) == [1, 2]
    ensures (forall j :: j in [1, 2] ==> j in TwinTable().picks)
    ensures var out := Expired(TwinTable(), [1, 2], now, []);
            1 in out.picks && 2 in out.picks
            && out.picks[1] == TwinTable().picks[1] && out.picks[2].status == Superseded && out.results == map[]
  {
    TwinsAreDue(now, book);
    TwinsAreSiblings();
    FirstTakes(TwinTable(), 1, 2, VoidOffer(TwinTable(), now));
    TwinReverts(TwinTable(), Pass(TwinTable(), [1, 2], VoidOffer(TwinTable(), now)), 1, 2, now);
  }

  lemma TwinsAreSiblings()
    ensures var db := TwinTable();
            AllOpen(db, [1, 2]) && Consistent(db) && db.results == map[] && 1 in db.picks && 2 in db.picks
            && Siblings(db.picks[2], db.picks[1]) && Family(db.picks[1].bet) && db.picks[1].status == Alerted
  {
  }
}
