// The tables of the settlement repair scripts, and what each script makes of them:
// restating mis-graded results, re-grading them from a games-level source, and
// expiring the unresolvable backlog.

module SettlementTables {
  import opened Common

  import F = FoldDetails
  import R = ResultIndex

  datatype Outcome = Won | Lost | HalfWon | HalfLost | Push | Void

  datatype Status = Alerted | Settled | Superseded

  // A result row, by its audited columns.
  datatype Result = Result(outcome: Outcome, pnl: Option<real>, roi: Option<real>, stake: Option<real>,
                           odds: Option<real>,
                           home: Option<int>, away: Option<int>, note: Option<string>, settledAt: int)

  // What is bet on; `selection` is the spelling-insensitive key of the selection.
  datatype Instrument = Instrument(sport: string, market: string, detail: Option<string>, selection: string, model: int)

  // A pick with the columns of its event: times count seconds, and `pair` is the
  // unordered key of the two team names.
  datatype Pick = Pick(status: Status, event: int, starts: Option<int>, home: string, away: string,
                       pair: Option<set<string>>, bet: Instrument, stake: real, odds: real)

  datatype Column = StatusColumn | OutcomeColumn | PnlColumn | RoiColumn | StakeColumn | OddsColumn
                  | HomeColumn | AwayColumn | NoteColumn | SettledAtColumn

  // A column value as text; NULL and the typed texts.
  datatype Value = Null | StatusText(s: Status) | OutcomeText(o: Outcome) | Number(r: real) | Whole(i: int)
                 | Text(t: string)

  datatype Reason = Restatement | Regrading | Expiry

  datatype AuditRow = AuditRow(pick: int, column: Column, oldValue: Value, newValue: Value, reason: Reason)

  // Results are keyed by their unique pick.
  datatype Db = Db(picks: map<int, Pick>, results: map<int, Result>, audit: seq<AuditRow>)

  const EXPIRED_NOTE := "expired_no_result_source"

  const REGRADE_NOTE := "games_level_regrade:tennis_data"

  // Alerted means no result row, settled means exactly one.
  ghost predicate Consistent(db: Db) {
    && (forall id :: id in db.results ==> id in db.picks)
    && (forall id :: id in db.picks && db.picks[id].status == Alerted ==> id !in db.results)
    && (forall id :: id in db.picks && db.picks[id].status == Settled ==> id in db.results)
  }

  function SetStatus(db: Db, id: int, s: Status): Db
    requires id in db.picks
  {
    db.(picks := db.picks[id := db.picks[id].(status := s)])
  }

  const HOUR := 3600

  // Tennis markets named after the sets axis.
  predicate SetsDetail(detail: Option<string>) {
    detail.Some?
    && var text := F.Lower(detail.value);
       StartsAt(text, "spreads_sets", 0) || (StartsAt(text, "asian_handicap", 0) && EndsWith(text, "_sets"))
  }

  // Tennis spreads that are not on the sets axis.
  predicate Family(bet: Instrument) { bet.sport == "tennis" && bet.market == "spreads" && !SetsDetail(bet.detail) }

  // ----- restating set-score grades ------------------------------------------

  predicate Misgraded(r: Result) {
    r.outcome in {Won, Lost, HalfWon, HalfLost} && r.home.Some? && r.away.Some? && r.home.value + r.away.value <= 5
  }

  predicate Restatable(db: Db, id: int) {
    id in db.picks && id in db.results && Family(db.picks[id].bet) && Misgraded(db.results[id])
      && db.picks[id].status == Settled
  }

  function RealText(r: Option<real>): Value { if r.Some? then Number(r.value) else Null }

  function IntText(i: Option<int>): Value { if i.Some? then Whole(i.value) else Null }

  function NoteText(n: Option<string>): Value { if n.Some? then Text(n.value) else Null }

  function ColumnText(r: Result, c: Column): Value {
    match c
    case StatusColumn => Null
    case OutcomeColumn => OutcomeText(r.outcome)
    case PnlColumn => RealText(r.pnl)
    case RoiColumn => RealText(r.roi)
    case StakeColumn => RealText(r.stake)
    case OddsColumn => RealText(r.odds)
    case HomeColumn => IntText(r.home)
    case AwayColumn => IntText(r.away)
    case NoteColumn => NoteText(r.note)
    case SettledAtColumn => Whole(r.settledAt)
  }

  const RESULT_COLUMNS: seq<Column> :=
    [OutcomeColumn, PnlColumn, RoiColumn, StakeColumn, OddsColumn, HomeColumn, AwayColumn, NoteColumn, SettledAtColumn]

  // Nine rows for the deleted result and one for the status.
  function RestatementRows(id: int, p: Pick, r: Result): seq<AuditRow> {
    seq(9, i requires 0 <= i < 9 =>
          AuditRow(id, RESULT_COLUMNS[i], ColumnText(r, RESULT_COLUMNS[i]), Null, Restatement))
    + [AuditRow(id, StatusColumn, StatusText(p.status), StatusText(Alerted), Restatement)]
  }

  function RestatementTrail(db: Db, ids: seq<int>): seq<AuditRow>
    requires forall id :: id in ids ==> Restatable(db, id)
  {
    if ids == [] then []
    else
      var id := ids[|ids| - 1];
      assert id in ids && Restatable(db, id);
      RestatementTrail(db, ids[..|ids| - 1]) + RestatementRows(id, db.picks[id], db.results[id])
  }

  ghost predicate Selects(db: Db, ids: seq<int>) { Distinct(ids) && forall id :: id in ids <==> Restatable(db, id) }

  function Restated(db: Db, ids: seq<int>): Db
    requires forall id :: id in ids ==> Restatable(db, id)
  {
    Db(map id | id in db.picks :: if id in ids then db.picks[id].(status := Alerted) else db.picks[id],
       map id | id in db.results && id !in ids :: db.results[id],
       db.audit + RestatementTrail(db, ids))
  }

  // ----- one result per real bet --------------------------------------------------

  function Tolerance(sport: string): int { if sport == "tennis" then 6 * HOUR else 2 * HOUR }

  // The same bet on another event of the same real fixture.
  predicate Siblings(p: Pick, q: Pick) {
    && p.event != q.event && p.bet == q.bet && p.pair.Some? && p.pair == q.pair && p.starts.Some? && q.starts.Some?
    && p.starts.value - Tolerance(p.bet.sport) <= q.starts.value <= p.starts.value + Tolerance(p.bet.sport)
  }

  predicate HasSettledTwin(db: Db, id: int)
    requires id in db.picks
  {
    exists t :: t in db.results && t in db.picks && Siblings(db.picks[id], db.picks[t])
  }

  // No real bet is counted twice.
  ghost predicate Exclusive(db: Db) {
    forall a, b :: a in db.results && b in db.results && a in db.picks && b in db.picks ==>
        !Siblings(db.picks[a], db.picks[b])
  }

  // What a settling loop has for a pick: nothing, a grade it refuses, or a result.
  datatype Offer = Leave | Refuse | Give(result: Result)

  function Settle(db: Db, id: int, offer: Offer): (out: Db)
    requires id in db.picks
    ensures out.picks.Keys == db.picks.Keys && out.audit == db.audit
  {
    if offer.Leave? then db
    else if HasSettledTwin(db, id) then SetStatus(db, id, Superseded)
    else if offer.Refuse? || id in db.results then db
    else SetStatus(db.(results := db.results[id := offer.result]), id, Settled)
  }

  // The picks one after the other.
  function Pass(db: Db, ids: seq<int>, offer: int -> Offer): (out: Db)
    requires forall id :: id in ids ==> id in db.picks
    ensures out.picks.Keys == db.picks.Keys && out.audit == db.audit
  {
    if ids == [] then db else Settle(Pass(db, ids[..|ids| - 1], offer), ids[|ids| - 1], offer(ids[|ids| - 1]))
  }

  function PickRoi(pnl: real, stake: real): Option<real> { if stake == 0.0 then None else Some(pnl / stake) }

  // ----- expiring the backlog ----------------------------------------------------

  // The union of all result sources, and whether it holds a score for a fixture.
  datatype Book = Book(size: nat, holds: (string, string, int) -> bool)

  const SETTLE_DELAY := 2 * HOUR

  function SettleDelay(sport: string): int {
    if sport == "basketball" then 4 * HOUR
    else if sport == "american_football" then 4 * HOUR + HOUR / 2
    else if sport == "tennis" then 6 * HOUR
    else SETTLE_DELAY
  }

  predicate Queried(db: Db, now: int, id: int) {
    id in db.picks && db.picks[id].status == Alerted && db.picks[id].starts.Some?
      && db.picks[id].starts.value <= now - SETTLE_DELAY
  }

  // Past the delay of its sport, and no source has a score.
  predicate InGap(db: Db, book: Book, now: int, id: int) {
    Queried(db, now, id)
    && var p := db.picks[id];
       p.starts.value <= now - SettleDelay(p.bet.sport) && !book.holds(p.home, p.away, p.starts.value)
  }

  predicate PastBound(db: Db, now: int, after: int, id: int) {
    id in db.picks && db.picks[id].starts.Some? && db.picks[id].starts.value < now - after
  }

  predicate Due(db: Db, book: Book, now: int, expireAfter: Option<int>, id: int) {
    expireAfter.Some? && InGap(db, book, now, id) && PastBound(db, now, expireAfter.value, id)
  }

  function IsQueried(db: Db, now: int): int -> bool { id => Queried(db, now, id) }

  function IsGap(db: Db, book: Book, now: int): int -> bool { id => InGap(db, book, now, id) }

  function IsPast(db: Db, now: int, after: int): int -> bool { id => PastBound(db, now, after, id) }

  function IsDue(db: Db, book: Book, now: int, expireAfter: Option<int>): int -> bool {
    id => Due(db, book, now, expireAfter, id)
  }

  // A query's answer: each row that satisfies it once, in some order.
  ghost predicate Answers(ids: seq<int>, p: int -> bool) { Distinct(ids) && forall id :: id in ids <==> p(id) }

  ghost predicate AllOpen(db: Db, ids: seq<int>) {
    Distinct(ids) && forall j :: j in ids ==> j in db.picks && db.picks[j].status == Alerted
  }

  function VoidResult(p: Pick, now: int): Result {
    Result(Void, Some(0.0), PickRoi(0.0, p.stake), Some(p.stake), Some(p.odds), None, None, Some(EXPIRED_NOTE), now)
  }

  function VoidOffer(db: Db, now: int): int -> Offer {
    id => if id in db.picks then Give(VoidResult(db.picks[id], now)) else Leave
  }

  predicate VoidedAt(r: Result, now: int) { r.note == Some(EXPIRED_NOTE) && r.settledAt == now }

  predicate CarvedOut(db: Db, id: int, now: int) {
    id in db.picks && id in db.results && Family(db.picks[id].bet) && VoidedAt(db.results[id], now)
  }

  function Reverted(db: Db, now: int): Db {
    Db(map id | id in db.picks ::
         if CarvedOut(db, id, now) && db.picks[id].status == Settled then db.picks[id].(status := Alerted)
         else db.picks[id],
       map id | id in db.results && !CarvedOut(db, id, now) :: db.results[id],
       db.audit)
  }

  function ExpiryRows(id: int): seq<AuditRow> {
    [AuditRow(id, StatusColumn, StatusText(Alerted), StatusText(Settled), Expiry),
     AuditRow(id, OutcomeColumn, Null, OutcomeText(Void), Expiry),
     AuditRow(id, NoteColumn, Null, Text(EXPIRED_NOTE), Expiry)]
  }

  function ExpiryTrail(db: Db, now: int, ids: seq<int>): seq<AuditRow> {
    if ids == [] then []
    else
      var id := ids[|ids| - 1];
      var stands := id in db.results && VoidedAt(db.results[id], now);
      ExpiryTrail(db, now, ids[..|ids| - 1]) + if stands then ExpiryRows(id) else []
  }

  // `due` are the picks to expire in query order, `standing` enumerates the result
  // rows for the audit insert.
  function Expired(db: Db, due: seq<int>, now: int, standing: seq<int>): Db
    requires forall id :: id in due ==> id in db.picks
  {
    var after := Reverted(Pass(db, due, VoidOffer(db, now)), now);
    after.(audit := after.audit + ExpiryTrail(after, now, standing))
  }

  // ----- re-grading ----------------------------------------------------------------

  type MatchRow = R.Row<string>

  const DAY := 24 * HOUR

  const MIN_COMPLETED_GAMES := 12

  const MAX_SET_SUM := 5

  datatype Completion = Full | Retired | Walkover

  // None when the row says too little, or contradicts itself.
  function Classify(row: MatchRow): Option<Completion> {
    if row.completed then
      if row.winnerGames.None? || row.loserGames.None? then None
      else if row.winnerSets.Some? && row.loserSets.Some? && row.winnerSets.value <= row.loserSets.value then None
      else if row.winnerGames.value + row.loserGames.value < MIN_COMPLETED_GAMES then None
      else Some(Full)
    else if Contains(F.Lower(row.comment), "walkover") then Some(Walkover)
    else if row.comment != "" then Some(Retired)
    else None
  }

  // How a match ended, with the games on the pick's own axis.
  datatype Final = Final(completion: Completion, home: Option<int>, away: Option<int>)

  function FinalOf(canon: string -> string, row: MatchRow, home: string): Option<Final> {
    var c, games := Classify(row), R.Games(canon, row, home);
    if c.None? || (c.value.Retired? && (games.0.None? || games.1.None?)) then None
    else Some(Final(c.value, games.0, games.1))
  }

  // A spread is void unless the match was played out. The set-score guard comes
  // first, and `grade` may refuse the selection.
  function OutcomeOf(grade: (Pick, int, int) -> Option<Outcome>, p: Pick, f: Final): Option<Outcome> {
    if !f.completion.Full? then Some(Void)
    else if f.home.None? || f.away.None? || f.home.value + f.away.value <= MAX_SET_SUM then None
    else grade(p, f.home.value, f.away.value)
  }

  function PickPnl(o: Outcome, stake: real, odds: real): real {
    match o
    case Won => stake * (odds - 1.0)
    case Lost => -stake
    case HalfWon => stake / 2.0 * (odds - 1.0)
    case HalfLost => -stake / 2.0
    case Push => 0.0
    case Void => 0.0
  }

  // A walkover leaves the scores empty.
  function GradedResult(o: Outcome, p: Pick, f: Final, now: int, note: Option<string>): Result {
    var pnl, shown := PickPnl(o, p.stake, p.odds), !f.completion.Walkover?;
    Result(o, Some(pnl), PickRoi(pnl, p.stake), Some(p.stake), Some(p.odds),
           if shown then f.home else None, if shown then f.away else None, note, now)
  }

  function Graded(canon: string -> string, grade: (Pick, int, int) -> Option<Outcome>, row: Option<MatchRow>, p: Pick,
                  now: int): Offer {
    if row.None? then Leave
    else
      match FinalOf(canon, row.value, p.home)
      case None => Leave
      case Some(f) =>
        match OutcomeOf(grade, p, f)
        case None => Refuse
        case Some(o) => Give(GradedResult(o, p, f, now, Some(REGRADE_NOTE)))
  }

  // The one row a scan of the source finds for the pick's fixture.
  ghost function Found(canon: string -> string, rows: seq<MatchRow>, p: Pick): Option<MatchRow> {
    if p.starts.None? then None else R.ScanResult(canon, rows, p.home, p.away, p.starts.value / DAY)
  }

  ghost function GradeOffer(canon: string -> string, grade: (Pick, int, int) -> Option<Outcome>, rows: seq<MatchRow>,
                            db: Db, now: int): int -> Offer
  {
    id => if id in db.picks then Graded(canon, grade, Found(canon, rows, db.picks[id]), db.picks[id], now) else Leave
  }

  function RegradedRows(id: int, r: Result): seq<AuditRow> {
    [AuditRow(id, StatusColumn, StatusText(Alerted), StatusText(Settled), Regrading)]
    + seq(9, i requires 0 <= i < 9 =>
            AuditRow(id, RESULT_COLUMNS[i], Null, ColumnText(r, RESULT_COLUMNS[i]), Regrading))
  }

  // The audit rows of one pick, and of the whole pass.
  function SettledRows(db: Db, id: int, offer: Offer): seq<AuditRow>
    requires id in db.picks
  {
    if offer.Give? && !HasSettledTwin(db, id) && id !in db.results then RegradedRows(id, offer.result) else []
  }

  function RegradeTrail(db: Db, ids: seq<int>, offer: int -> Offer): seq<AuditRow>
    requires forall id :: id in ids ==> id in db.picks
  {
    if ids == [] then []
    else
      var init, last := ids[..|ids| - 1], ids[|ids| - 1];
      RegradeTrail(db, init, offer) + SettledRows(Pass(db, init, offer), last, offer(last))
  }

  function Regraded(db: Db, ids: seq<int>, offer: int -> Offer): Db
    requires forall id :: id in ids ==> id in db.picks
  {
    Pass(db, ids, offer).(audit := db.audit + RegradeTrail(db, ids, offer))
  }

  // Open picks of the family that a restatement re-opened.
  predicate IsTarget(db: Db, id: int) {
    id in db.picks && db.picks[id].status == Alerted && Family(db.picks[id].bet)
    && exists a :: a in db.audit && a.pick == id && a.reason == Restatement
  }

  function Targets(db: Db): int -> bool { id => IsTarget(db, id) }
}
