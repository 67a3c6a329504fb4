// The selection rules of the settlement repair scripts spelled out in columns and
// figures: which results are restated, which picks expire, which bets are twins, and
// which rows of the games-level source leave a pick open.

module RepairRules {
  import opened Common
  import opened SettlementTables
  import opened SettlementRepair
  import opened RepairOutcomes

  import F = FoldDetails
  import R = ResultIndex

  // ----- the carve-out family --------------------------------------------------------

  // A label of the sets axis, in any case: spreads_sets..., or asian_handicap..._sets.
  ghost predicate NamesSets(detail: string) {
    (exists rest :: F.Lower(detail) == "spreads_sets" + rest)
    || exists mid :: F.Lower(detail) == "asian_handicap" + mid + "_sets"
  }

  lemma StartsIff(text: string, part: string)
    ensures StartsAt(text, part, 0) <==> exists rest :: text == part + rest
  {
    if StartsAt(text, part, 0) { assert text == part + text[|part|..]; }
  }

  lemma HandicapSetsIff(text: string)
    ensures StartsAt(text, "asian_handicap", 0) && EndsWith(text, "_sets") <==>
              exists mid :: text == "asian_handicap" + mid + "_sets"
  {
    if StartsAt(text, "asian_handicap", 0) && EndsWith(text, "_sets") {
      forall j | |text| - 5 <= j < |text| ensures text[j] != 'p' {
        assert text[|text| - 5..][j - (|text| - 5)] == text[j];
      }
      assert text[..14][13] == text[13];
      assert text == "asian_handicap" + text[14..|text| - 5] + "_sets";
    }
    if mid :| text == "asian_handicap" + mid + "_sets" {
      assert text[..14] == "asian_handicap" && text[|text| - 5..] == "_sets";
    }
  }

  lemma FamilyIff(bet: Instrument)
    ensures Family(bet) <==>
              bet.sport == "tennis" && bet.market == "spreads" && (bet.detail.Some? ==> !NamesSets(bet.detail.value))
  {
    if bet.detail.Some? {
      StartsIff(F.Lower(bet.detail.value), "spreads_sets");
      HandicapSetsIff(F.Lower(bet.detail.value));
    }
  }

  // A restatement re-opens exactly the settled tennis spreads off the sets axis that were
  // decided on a score of at most five, and deletes their results.
  lemma RestatedIff(db: Db, ids: seq<int>, id: int)
    requires Selects(db, ids) && id in db.picks && id in db.results && db.picks[id].status == Settled
    ensures var p, r := db.picks[id], db.results[id];
            var misgraded := p.bet.sport == "tennis" && p.bet.market == "spreads"
                             && (p.bet.detail.Some? ==> !NamesSets(p.bet.detail.value))
                             && (r.outcome == Won || r.outcome == Lost || r.outcome == HalfWon || r.outcome == HalfLost)
                             && r.home.Some? && r.away.Some? && r.home.value + r.away.value <= 5;
            && (id !in Restated(db, ids).results <==> misgraded)
            && (Restated(db, ids).picks[id].status == Alerted <==> misgraded)
  {
    FamilyIff(db.picks[id].bet);
  }

  // ----- twins -----------------------------------------------------------------------

  // Two picks are one real bet when they bet the same on two events of the same pair of
  // teams that start within two hours of each other, or six in tennis.
  lemma SiblingsIff(p: Pick, q: Pick)
    ensures Siblings(p, q) <==>
              && p.event != q.event && p.pair.Some? && q.pair.Some? && p.pair.value == q.pair.value
              && p.bet.sport == q.bet.sport && p.bet.market == q.bet.market && p.bet.detail == q.bet.detail
              && p.bet.selection == q.bet.selection && p.bet.model == q.bet.model
              && p.starts.Some? && q.starts.Some?
              && var apart, limit := q.starts.value - p.starts.value, if p.bet.sport == "tennis" then 21600 else 7200;
                 0 - limit <= apart <= limit
    ensures Siblings(p, q) <==> Siblings(q, p)
  {
  }

  // ----- the due picks ------------------------------------------------------------------

  // Hours a fixture of a sport must be past its kickoff: four in basketball, four and a
  // half in American football, six in tennis, two elsewhere.
  lemma DueIff(db: Db, book: Book, now: int, expireAfter: Option<int>, id: int)
    ensures Due(db, book, now, expireAfter, id) <==>
              && id in db.picks && db.picks[id].status == Alerted && db.picks[id].starts.Some? && expireAfter.Some?
              && var p, kickoff := db.picks[id], db.picks[id].starts.value;
                 && !book.holds(p.home, p.away, kickoff)
                 && kickoff + 7200 <= now
                 && (p.bet.sport == "basketball" ==> kickoff + 14400 <= now)
                 && (p.bet.sport == "american_football" ==> kickoff + 16200 <= now)
                 && (p.bet.sport == "tennis" ==> kickoff + 21600 <= now)
                 && kickoff + expireAfter.value < now
  {
    assert |"basketball"| == 10 && |"american_football"| == 17 && |"tennis"| == 6;
  }

  // The columns of the result a due pick gets.
  lemma VoidedAs(db: Db, book: Book, now: int, expireAfter: Option<int>, queried: seq<int>, standing: seq<int>, id: int)
    requires Sound(db) && Answers(queried, IsQueried(db, now)) && id in db.picks && !Family(db.picks[id].bet)
    requires Due(db, book, now, expireAfter, id)
    ensures var due := Filter(IsDue(db, book, now, expireAfter), queried);
            (forall j :: j in due ==> j in db.picks)
            && var out := Expired(db, due, now, standing);
               id in out.results ==>
                 var p, r := db.picks[id], out.results[id];
                 && r.outcome == Void && r.pnl == Some(0.0) && r.home == None && r.away == None
                 && r.stake == Some(p.stake) && r.odds == Some(p.odds) && r.settledAt == now
                 && r.note == Some("expired_no_result_source")
                 && (p.stake > 0.0 ==> r.roi == Some(0.0)) && (p.stake == 0.0 ==> r.roi == None)
  {
    ExpiryMeans(db, book, now, expireAfter, queried, standing, id);
    VoidColumns(db.picks[id], now);
    var due := Filter(IsDue(db, book, now, expireAfter), queried);
    assert id in Expired(db, due, now, standing).results ==>
        Expired(db, due, now, standing).results[id] == VoidResult(db.picks[id], now);
  }

  lemma VoidColumns(p: Pick, now: int)
    ensures var r := VoidResult(p, now);
            && r.outcome == Void && r.pnl == Some(0.0) && r.home == None && r.away == None
            && r.stake == Some(p.stake) && r.odds == Some(p.odds) && r.settledAt == now
            && r.note == Some("expired_no_result_source")
            && (p.stake > 0.0 ==> r.roi == Some(0.0)) && (p.stake == 0.0 ==> r.roi == None)
  {
    if p.stake > 0.0 { assert 0.0 / p.stake == 0.0; }
  }

  // A result of the carve-out family from before the run is deleted, and its pick
  // re-opened, exactly when it carries the note and the very timestamp of the run; every
  // other one stays as it is.
  lemma FamilyResultStays(db: Db, book: Book, now: int, expireAfter: Option<int>, queried: seq<int>,
                          standing: seq<int>, id: int)
    requires Sound(db) && Answers(queried, IsQueried(db, now))
    requires id in db.picks && id in db.results && Family(db.picks[id].bet)
    ensures var due := Filter(IsDue(db, book, now, expireAfter), queried);
            (forall j :: j in due ==> j in db.picks)
            && var out, r := Expired(db, due, now, standing), db.results[id];
               var stamped := r.note == Some("expired_no_result_source") && r.settledAt == now;
               && (id in out.results <==> !stamped) && (!stamped ==> out.results[id] == r)
               && id in out.picks && (!stamped ==> out.picks[id] == db.picks[id])
               && (stamped && db.picks[id].status == Settled ==> out.picks[id] == db.picks[id].(status := Alerted))
  {
    DueAreOpen(db, book, now, expireAfter, queried);
    PassUntouched(db, Filter(IsDue(db, book, now, expireAfter), queried), VoidOffer(db, now), id);
  }

  // The rows an expiry run appends about a pick: three for a void of the run that stands.
  lemma ExpiryRecords(db: Db, due: seq<int>, now: int, standing: seq<int>, a: AuditRow)
    requires forall id :: id in due ==> id in db.picks
    ensures var out := Expired(db, due, now, standing);
            && db.audit <= out.audit
            && (a in out.audit[|db.audit|..] <==>
                  && a.pick in standing && a.pick in out.results && out.results[a.pick].settledAt == now
                  && out.results[a.pick].note == Some("expired_no_result_source")
                  && (a == AuditRow(a.pick, StatusColumn, StatusText(Alerted), StatusText(Settled), Expiry)
                      || a == AuditRow(a.pick, OutcomeColumn, Null, OutcomeText(Void), Expiry)
                      || a == AuditRow(a.pick, NoteColumn, Null, Text("expired_no_result_source"), Expiry)))
  {
    var after := Reverted(Pass(db, due, VoidOffer(db, now)), now);
    TrailHolds(after, now, standing, a);
    assert (db.audit + ExpiryTrail(after, now, standing))[|db.audit|..] == ExpiryTrail(after, now, standing);
  }

  lemma {:induction false} TrailHolds(db: Db, now: int, ids: seq<int>, a: AuditRow)
    ensures a in ExpiryTrail(db, now, ids) <==>
              a.pick in ids && a.pick in db.results && VoidedAt(db.results[a.pick], now) && a in ExpiryRows(a.pick)
  {
    if ids != [] {
      var init, last := ids[..|ids| - 1], ids[|ids| - 1];
      TrailHolds(db, now, init, a);
      assert ids == init + [last];
      assert a in ExpiryRows(last) ==> a.pick == last;
    }
  }

  // ----- rows that leave a target open ----------------------------------------------------

  // A target stays as it is when its row is complete but lacks games, contradicts itself
  // or counts fewer than twelve of them, or when it is incomplete without saying why or
  // without the games played before a retirement.
  lemma RegradeLeaves(canon: string -> string, grade: (Pick, int, int) -> Option<Outcome>, rows: seq<MatchRow>,
                      db: Db, ids: seq<int>, now: int, id: int, row: MatchRow)
    requires Sound(db) && Answers(ids, Targets(db)) && id in ids && id in db.picks && db.picks[id].starts.Some?
    requires R.Scanned(canon, rows, db.picks[id].home, db.picks[id].away, db.picks[id].starts.value / 86400, row)
    requires var unknown := row.winnerGames.None? || row.loserGames.None?;
             if row.completed then
               unknown
               || (row.winnerSets.Some? && row.loserSets.Some? && row.winnerSets.value <= row.loserSets.value)
               || row.winnerGames.value + row.loserGames.value < 12
             else row.comment == "" || (unknown && !Contains(F.Lower(row.comment), "walkover"))
    ensures AllOpen(db, ids)
    ensures Stayed(db, Regraded(db, ids, GradeOffer(canon, grade, rows, db, now)), id)
  {
    var p := db.picks[id];
    RegradeMeans(canon, grade, rows, db, ids, now, id);
    R.ScanIsUnique(canon, rows, p.home, p.away, p.starts.value / DAY, row);
    assert Found(canon, rows, p) == Some(row);
    if row.comment == "" { NothingInside("walkover"); }
  }

  lemma NothingInside(part: string)
    requires part != ""
    ensures !Contains(F.Lower(""), part)
  {
  }

  // The targets are the open picks of the family that some restatement re-opened.
  lemma TargetIff(db: Db, id: int)
    ensures IsTarget(db, id) <==>
              && id in db.picks && db.picks[id].status == Alerted
              && db.picks[id].bet.sport == "tennis" && db.picks[id].bet.market == "spreads"
              && (db.picks[id].bet.detail.Some? ==> !NamesSets(db.picks[id].bet.detail.value))
              && exists i :: 0 <= i < |db.audit| && db.audit[i].pick == id && db.audit[i].reason == Restatement
  {
    if id in db.picks { FamilyIff(db.picks[id].bet); }
    if IsTarget(db, id) { var a :| a in db.audit && a.pick == id && a.reason == Restatement; }
    if i :| 0 <= i < |db.audit| && db.audit[i].pick == id && db.audit[i].reason == Restatement {
      assert db.audit[i] in db.audit;
    }
  }
}
