// The life of one open pick under re-pricing: the implausible-close streak with
// its terminal state, and the value-lost hysteresis with its alerts.

module Revalidation {
  import opened Common

  const IMPLAUSIBLE_CLOSE_EDGE := 0.20

  const IMPLAUSIBLE_SKIP_LIMIT := 5

  datatype Reason = Fabricated | Other(name: string)

  datatype Pick = Pick(premium: bool, close: Option<real>, reason: Option<Reason>,
                       edge: Option<real>, valueLostAt: Option<int>, revalidatedAt: Option<int>)

  // Effective odds are positive.
  type Odds = r: real | r > 0.0 witness 1.0

  // What a pass finds for the pick: the fair of its line, its effective fill odds,
  // whether the fair names an anchor and how that close would be classified, the
  // edge at the current price, and the clock.
  datatype Finding = Finding(fair: Option<real>, fillEff: Odds, anchored: bool, reason: Reason, edge: Option<real>,
                             now: int)

  // ----- the re-price step ---------------------------------------------------

  // The implausible-close guard already gave up on the pick.
  predicate Terminal(p: Pick) { p.reason == Some(Fabricated) && p.close.None? }

  predicate Usable(f: Finding) { f.fair.Some? && 0.0 < f.fair.value < 1.0 }

  predicate Implausible(f: Finding) { Usable(f) && f.fair.value - 1.0 / f.fillEff > IMPLAUSIBLE_CLOSE_EDGE }

  predicate Plausible(f: Finding) { Usable(f) && !Implausible(f) }

  function ValueLostTransition(premium: bool, edge: Option<real>, floor: Option<real>, prior: Option<int>, now: int)
    : (Option<int>, bool)
  {
    if !premium || floor.None? || edge.None? then (prior, false)
    else if edge.value < floor.value then (if prior.None? then Some(now) else prior, prior.None?)
    else (None, false)
  }

  datatype Live = Live(pick: Pick, streak: nat)

  // The pick and its streak after one pass, and whether an alert is raised.
  function Reprice(s: Live, f: Finding, floor: Option<real>): (Live, bool) {
    if Terminal(s.pick) || !Usable(f) then (s, false)
    else if Implausible(f) then
      if s.streak + 1 >= IMPLAUSIBLE_SKIP_LIMIT && s.pick.close.None?
      then (Live(s.pick.(reason := Some(Fabricated)), 0), false)
      else (Live(s.pick, s.streak + 1), false)
    else
      var (lostAt, alert) := ValueLostTransition(s.pick.premium, f.edge, floor, s.pick.valueLostAt, f.now);
      (Live(Pick(s.pick.premium, f.fair, if f.anchored then Some(f.reason) else s.pick.reason,
                 f.edge, lostAt, Some(f.now)), 0), alert)
  }

  // ----- one pass over the open picks ------------------------------------------

  datatype Row = Row(id: int, finding: Finding)

  class OpenPicks {
    var picks: map<int, Pick>
    // Process-local.
    var streaks: map<int, nat>

    constructor (picks: map<int, Pick>)
      ensures this.picks == picks && streaks == map[]
    {
      this.picks, streaks := picks, map[];
    }

    function LiveAt(id: int): Live
      requires id in picks
      reads this
    {
      Live(picks[id], if id in streaks then streaks[id] else 0)
    }

    method RepriceOne(id: int, f: Finding, floor: Option<real>) returns (alert: bool)
      requires id in picks
      modifies this
      ensures picks.Keys == old(picks.Keys)
      ensures (LiveAt(id), alert) == Reprice(old(LiveAt(id)), f, floor)
      ensures forall j :: j in picks && j != id ==> LiveAt(j) == old(LiveAt(j))
    {
      alert := false;
      var pick := picks[id];
      if pick.reason == Some(Fabricated) && pick.close.None? { return; }
      if !Usable(f) { return; }
      if f.fair.value - 1.0 / f.fillEff > IMPLAUSIBLE_CLOSE_EDGE {
        var streak := (if id in streaks then streaks[id] else 0) + 1;
        if streak >= IMPLAUSIBLE_SKIP_LIMIT && pick.close.None? {
          streaks := streaks - {id};
          picks := picks[id := pick.(reason := Some(Fabricated))];
          return;
        }
        streaks := streaks[id := streak];
        return;
      }
      streaks := streaks - {id};
      pick := pick.(close := f.fair);
      if f.anchored { pick := pick.(reason := Some(f.reason)); }
      pick := pick.(edge := f.edge);
      var (lostAt, transitioned) := ValueLostTransition(pick.premium, pick.edge, floor, pick.valueLostAt, f.now);
      picks := picks[id := pick.(valueLostAt := lostAt, revalidatedAt := Some(f.now))];
      alert := transitioned;
    }

    // One pass in its transaction. `abort` counts the rows reached before the loop
    // raised, or all of them when only the commit failed: the picks are rolled back and
    // nobody is told, but the streaks of the rows reached have moved. Otherwise each
    // pick moves by its own finding alone, and after the commit the alerts go out in
    // row order, up to a cancellation after `cut` of them.
    method RevalidateOpenPicks(rows: seq<Row>, floor: Option<real>, abort: Option<nat>, cut: Option<nat>)
      returns (mentioned: seq<int>)
      requires forall r :: r in rows ==> r.id in picks
      requires forall i, j :: 0 <= i < j < |rows| ==> rows[i].id != rows[j].id
      requires abort.Some? ==> abort.value <= |rows|
      modifies this
      ensures picks.Keys == old(picks.Keys)
      ensures abort.Some? ==> picks == old(picks)
      ensures forall i :: 0 <= i < |rows| ==>
                LiveAt(rows[i].id) ==
                if abort.Some? && abort.value <= i then old(LiveAt(rows[i].id))
                else Step(old(LiveAt(rows[i].id)),
                          Pass(rows[i].finding, if abort.Some? then RolledBack else Mentioned), floor).0
      ensures forall j :: j in picks && (forall r :: r in rows ==> r.id != j) ==> LiveAt(j) == old(LiveAt(j))
      ensures mentioned == if abort.Some? then []
                           else FirstN(Alerts(old(picks), old(streaks), rows, floor), cut.GetOr(|rows|))
    {
      var stored := picks;
      var alerts := RepriceRows(rows, abort.GetOr(|rows|), floor);
      if abort.Some? {
        picks := stored;
        return [];
      }
      AlertsAreFew(stored, old(streaks), rows, floor);
      assert rows[..|rows|] == rows;
      return FirstN(alerts, cut.GetOr(|rows|));
    }

    // The loop over the first rows.
    method RepriceRows(rows: seq<Row>, reached: nat, floor: Option<real>) returns (alerts: seq<int>)
      requires reached <= |rows| && forall r :: r in rows ==> r.id in picks
      requires forall i, j :: 0 <= i < j < |rows| ==> rows[i].id != rows[j].id
      modifies this
      ensures picks.Keys == old(picks.Keys)
      ensures forall i :: 0 <= i < |rows| ==>
                LiveAt(rows[i].id) ==
                if i < reached then Reprice(old(LiveAt(rows[i].id)), rows[i].finding, floor).0
                else old(LiveAt(rows[i].id))
      ensures forall j :: j in picks && (forall r :: r in rows ==> r.id != j) ==> LiveAt(j) == old(LiveAt(j))
      ensures alerts == Alerts(old(picks), old(streaks), rows[..reached], floor)
    {
      alerts := [];
      for n := 0 to reached
        invariant picks.Keys == old(picks.Keys)
        invariant forall i :: 0 <= i < n ==>
            LiveAt(rows[i].id) == Reprice(old(LiveAt(rows[i].id)), rows[i].finding, floor).0
        invariant forall i :: n <= i < |rows| ==> LiveAt(rows[i].id) == old(LiveAt(rows[i].id))
        invariant forall j :: j in picks && (forall r :: r in rows ==> r.id != j) ==> LiveAt(j) == old(LiveAt(j))
        invariant alerts == Alerts(old(picks), old(streaks), rows[..n], floor)
      {
        assert rows[n] in rows;
        var alert := RepriceOne(rows[n].id, rows[n].finding, floor);
        assert rows[..n + 1][..n] == rows[..n];
        if alert { alerts := alerts + [rows[n].id]; }
      }
    }
  }

  function Alerts(picks: map<int, Pick>, streaks: map<int, nat>, rows: seq<Row>, floor: Option<real>): seq<int> {
    if rows == [] then []
    else
      var row, before := rows[|rows| - 1], Alerts(picks, streaks, rows[..|rows| - 1], floor);
      if row.id in picks
         && Reprice(Live(picks[row.id], if row.id in streaks then streaks[row.id] else 0), row.finding, floor).1
      then before + [row.id] else before
  }

  lemma {:induction false} AlertsAreFew(picks: map<int, Pick>, streaks: map<int, nat>, rows: seq<Row>,
                                        floor: Option<real>)
    ensures |Alerts(picks, streaks, rows, floor)| <= |rows|
  {
    if rows != [] { AlertsAreFew(picks, streaks, rows[..|rows| - 1], floor); }
  }

  // ----- traces of one pick ------------------------------------------------------

  // How a pass that reached the pick ends: committed, with the alert it built handed
  // out; committed, but cancelled before that; or rolled back, by a failing commit or by
  // another pick that raised.
  datatype PassEnd = Mentioned | Unmentioned | RolledBack

  // A re-price pass; a process restart, which forgets the streak; and the two ways
  // a new detection rewrites the open pick.
  datatype Event = Pass(finding: Finding, end: PassEnd) | Restart | Repriced | Upgraded

  predicate Committed(e: Event) { e.Pass? && !e.end.RolledBack? }

  predicate MintSide(e: Event) { e.Repriced? || e.Upgraded? }

  function Wiped(p: Pick): Pick { p.(close := None, reason := None, edge := None, revalidatedAt := None) }

  // The pick and its streak after an event, and whether an alert is handed out. A pass
  // that is rolled back leaves its mark on the streak, which is not in the database.
  function Step(s: Live, e: Event, floor: Option<real>): (Live, bool) {
    match e
    case Pass(f, end) =>
      var (next, crossed) := Reprice(s, f, floor);
      if end.RolledBack? then (Live(s.pick, next.streak), false) else (next, crossed && end.Mentioned?)
    case Restart => (s.(streak := 0), false)
    case Repriced => (s.(pick := Wiped(s.pick)), false)
    case Upgraded => (s.(pick := Wiped(s.pick).(premium := true)), false)
  }

  function Fresh(premium: bool): Live { Live(Pick(premium, None, None, None, None, None), 0) }

  function Run(premium: bool, events: seq<Event>, floor: Option<real>): Live {
    if events == [] then Fresh(premium)
    else Step(Run(premium, events[..|events| - 1], floor), events[|events| - 1], floor).0
  }

  predicate IsImplausible(e: Event) { e.Pass? && Implausible(e.finding) }

  predicate Resets(e: Event) { e.Restart? || (e.Pass? && Plausible(e.finding)) }

  function Implausibles(events: seq<Event>): nat {
    if events == [] then 0
    else Implausibles(events[..|events| - 1]) + if IsImplausible(events[|events| - 1]) then 1 else 0
  }

  predicate NoReset(events: seq<Event>) { forall e :: e in events ==> !Resets(e) }

  lemma {:induction false} SuffixNext(events: seq<Event>, from: nat)
    requires from < |events|
    ensures Implausibles(events[from..]) ==
            Implausibles(events[..|events| - 1][from..]) + if IsImplausible(events[|events| - 1]) then 1 else 0
    ensures NoReset(events[from..]) <==> NoReset(events[..|events| - 1][from..]) && !Resets(events[|events| - 1])
  {
    var s := events[from..];
    assert s[..|s| - 1] == events[..|events| - 1][from..];
    assert s == s[..|s| - 1] + [events[|events| - 1]];
  }

  lemma {:induction false} TerminalHasNoStreak(premium: bool, events: seq<Event>, floor: Option<real>)
    ensures Terminal(Run(premium, events, floor).pick) ==> Run(premium, events, floor).streak == 0
  {
    if events != [] { TerminalHasNoStreak(premium, events[..|events| - 1], floor); }
  }

  // The streak counts passes since the last reset: there is a stretch ending now
  // with no plausible pass and no restart, and at least that many implausible ones.
  lemma {:induction false} StreakIsRecent(premium: bool, events: seq<Event>, floor: Option<real>) returns (from: nat)
    ensures from <= |events|
    ensures NoReset(events[from..]) && Implausibles(events[from..]) >= Run(premium, events, floor).streak
  {
    if events == [] || Run(premium, events, floor).streak == 0 {
      from := |events|;
      assert events[from..] == [];
    } else {
      var init, e := events[..|events| - 1], events[|events| - 1];
      from := StreakIsRecent(premium, init, floor);
      TerminalHasNoStreak(premium, init, floor);
      SuffixNext(events, from);
    }
  }

  // A pick becomes terminal only in a committed pass, the fifth implausible one of a
  // stretch without a plausible one or a restart, and only while it has no stored close.
  lemma BecomesTerminal(premium: bool, events: seq<Event>, floor: Option<real>) returns (from: nat)
    requires events != []
    requires Terminal(Run(premium, events, floor).pick)
    requires !Terminal(Run(premium, events[..|events| - 1], floor).pick)
    ensures from <= |events|
    ensures forall e :: e in events[from..] ==> !e.Restart? && !(e.Pass? && Plausible(e.finding))
    ensures Implausibles(events[from..]) >= 5
    ensures var e := events[|events| - 1];
            && e.Pass? && e.end != RolledBack && e.finding.fair.Some?
            && 0.0 < e.finding.fair.value < 1.0 && e.finding.fair.value - 1.0 / e.finding.fillEff > 0.20
    ensures Run(premium, events[..|events| - 1], floor).pick.close == None
  {
    from := StreakIsRecent(premium, events[..|events| - 1], floor);
    SuffixNext(events, from);
  }

  // ----- five in a row ------------------------------------------------------------

  function After(s: Live, events: seq<Event>, floor: Option<real>): Live {
    if events == [] then s else Step(After(s, events[..|events| - 1], floor), events[|events| - 1], floor).0
  }

  // From a streak of `streak`, the (i + 1)st implausible pass in a row is one that
  // reaches the limit: a limit pass that is rolled back starts the count again.
  predicate AtLimit(streak: nat, i: nat) { (OneShort(streak) + i + 1) % IMPLAUSIBLE_SKIP_LIMIT == 0 }

  // A streak at the limit or beyond acts like one that is one short of it.
  function OneShort(streak: nat): nat {
    if streak >= IMPLAUSIBLE_SKIP_LIMIT then IMPLAUSIBLE_SKIP_LIMIT - 1 else streak
  }

  // An unbroken row of implausible passes ends a pick without a stored close exactly
  // when one that reaches the limit commits.
  lemma FiveInARow(s: Live, events: seq<Event>, floor: Option<real>)
    requires s.pick.close.None? && forall e :: e in events ==> IsImplausible(e)
    ensures Terminal(After(s, events, floor).pick) <==>
              Terminal(s.pick) || exists i :: 0 <= i < |events| && AtLimit(s.streak, i) && Committed(events[i])
  {
    if Terminal(s.pick) { StaysGivenUp(s, events, floor); } else { StreakCycles(s, events, floor); }
  }

  lemma {:induction false} StaysGivenUp(s: Live, events: seq<Event>, floor: Option<real>)
    requires Terminal(s.pick) && forall e :: e in events ==> !MintSide(e)
    ensures After(s, events, floor).pick == s.pick
  {
    if events != [] {
      assert events[|events| - 1] in events;
      StaysGivenUp(s, events[..|events| - 1], floor);
    }
  }

  lemma {:induction false} StreakCycles(s: Live, events: seq<Event>, floor: Option<real>)
    requires s.pick.close.None? && !Terminal(s.pick) && forall e :: e in events ==> IsImplausible(e)
    ensures var t := After(s, events, floor);
            if exists i :: 0 <= i < |events| && AtLimit(s.streak, i) && Committed(events[i]) then Terminal(t.pick)
            else t.pick == s.pick && t.streak == CountFrom(s.streak, |events|)
  {
    if events != [] {
      var init, e := events[..|events| - 1], events[|events| - 1];
      assert forall x :: x in init ==> x in events;
      StreakCycles(s, init, floor);
      CountNext(s.streak, |init|);
      assert e in events;
      if i :| 0 <= i < |init| && AtLimit(s.streak, i) && Committed(init[i]) { assert Committed(events[i]); }
    }
  }

  // The streak after n passes none of which committed at the limit.
  function CountFrom(streak: nat, n: nat): nat {
    if n == 0 then streak else (OneShort(streak) + n) % IMPLAUSIBLE_SKIP_LIMIT
  }

  lemma CountNext(streak: nat, n: nat)
    ensures AtLimit(streak, n) <==> CountFrom(streak, n) + 1 >= IMPLAUSIBLE_SKIP_LIMIT
    ensures CountFrom(streak, n + 1) == if AtLimit(streak, n) then 0 else CountFrom(streak, n) + 1
  {
  }

  // So five in a row that all commit suffice,
  lemma FiveCommittedEndIt(s: Live, events: seq<Event>, floor: Option<real>)
    requires s.pick.close.None? && events != [] && |events| + s.streak >= IMPLAUSIBLE_SKIP_LIMIT
    requires forall e :: e in events ==> IsImplausible(e) && Committed(e)
    ensures Terminal(After(s, events, floor).pick)
  {
    FiveInARow(s, events, floor);
    var i := if s.streak >= IMPLAUSIBLE_SKIP_LIMIT then 0 else IMPLAUSIBLE_SKIP_LIMIT - 1 - s.streak;
    assert AtLimit(s.streak, i) && events[i] in events;
  }

  // and five of which the last is rolled back do not: the reason is lost, and with the
  // streak back at zero the next four committed ones do not end the pick either.
  lemma FifthRolledBack(p: Pick, f: Finding, floor: Option<real>)
    requires p.close.None? && p.reason.None? && Implausible(f)
    ensures var ok, lost := Pass(f, Mentioned), Pass(f, RolledBack);
            && After(Live(p, 0), [ok, ok, ok, ok, lost], floor) == Live(p, 0)
            && After(Live(p, 0), [ok, ok, ok, ok, lost, ok, ok, ok, ok], floor) == Live(p, 4)
  {
    var ok, lost := Pass(f, Mentioned), Pass(f, RolledBack);
    var events := [ok, ok, ok, ok, lost, ok, ok, ok, ok];
    assert events[..5] == [ok, ok, ok, ok, lost];
    forall i | 0 <= i < 9 && AtLimit(0, i) ensures i == 4 {}
    StreakCycles(Live(p, 0), events[..5], floor);
    StreakCycles(Live(p, 0), events, floor);
  }

  // A terminal pick leaves that state exactly through a mint-side rewrite.
  lemma TerminalLeftIff(s: Live, e: Event, floor: Option<real>)
    requires Terminal(s.pick)
    ensures Terminal(Step(s, e, floor).0.pick) <==> !MintSide(e)
    ensures !MintSide(e) ==> Step(s, e, floor).0.pick == s.pick && !Step(s, e, floor).1
  {
  }

  // Until then no re-price writes it.
  lemma {:induction false} TerminalIsFrozen(premium: bool, events: seq<Event>, later: seq<Event>, floor: Option<real>)
    requires Terminal(Run(premium, events, floor).pick)
    requires forall e :: e in later ==> !MintSide(e)
    ensures Run(premium, events + later, floor).pick == Run(premium, events, floor).pick
  {
    if later == [] {
      assert events + later == events;
    } else {
      var init, e := later[..|later| - 1], later[|later| - 1];
      assert (events + later)[..|events + later| - 1] == events + init;
      assert e in later;
      TerminalIsFrozen(premium, events, init, floor);
      TerminalLeftIff(Run(premium, events + init, floor), e, floor);
    }
  }

  // ----- the stored close ---------------------------------------------------------

  // The fair of the last committed plausible pass since the last mint-side rewrite.
  function LatestFair(events: seq<Event>): Option<real> {
    if events == [] then None
    else
      var e := events[|events| - 1];
      if MintSide(e) then None
      else if Committed(e) && Plausible(e.finding) then e.finding.fair
      else LatestFair(events[..|events| - 1])
  }

  // No pass of this stretch met a terminal pick.
  ghost predicate NeverTerminal(premium: bool, events: seq<Event>, floor: Option<real>) {
    forall n :: 0 <= n <= |events| ==> !Terminal(Run(premium, events[..n], floor).pick)
  }

  // As long as the pick was never given up on, its stored close is the fair of the
  // last committed plausible pass: implausible, unpriced and rolled-back passes and
  // restarts leave it.
  lemma {:induction false} StoredCloseIsLatest(premium: bool, events: seq<Event>, floor: Option<real>)
    requires NeverTerminal(premium, events, floor)
    ensures Run(premium, events, floor).pick.close == LatestFair(events)
  {
    if events != [] {
      var init := events[..|events| - 1];
      assert forall n :: 0 <= n <= |init| ==> init[..n] == events[..n];
      assert init == events[..|init|];
      StoredCloseIsLatest(premium, init, floor);
    }
  }

  // A pass without a fair strictly between zero and one writes nothing, and neither
  // counts towards the streak nor resets it.
  lemma UnpricedPassIsSilent(s: Live, e: Event, floor: Option<real>)
    requires e.Pass? && (e.finding.fair == None || e.finding.fair.value <= 0.0 || e.finding.fair.value >= 1.0)
    ensures Step(s, e, floor) == (s, false)
  {
  }

  // Over every trace a stored close was the fair of a committed pass, strictly between
  // zero and one and at most 0.20 above the implied probability of the fill odds.
  lemma {:induction false} StoredCloseWasPlausible(premium: bool, events: seq<Event>, floor: Option<real>)
    returns (at: nat)
    ensures var close := Run(premium, events, floor).pick.close;
            close.Some? ==>
              && at < |events| && events[at].Pass? && events[at].end != RolledBack
              && events[at].finding.fair == close && 0.0 < close.value < 1.0
              && close.value - 1.0 / events[at].finding.fillEff <= 0.20
  {
    at := 0;
    if events != [] {
      var init, e := events[..|events| - 1], events[|events| - 1];
      if Run(premium, events, floor).pick.close == Run(premium, init, floor).pick.close {
        at := StoredCloseWasPlausible(premium, init, floor);
      } else {
        at := |init|;
      }
    }
  }

  // ----- value lost ---------------------------------------------------------------

  // An edge the pick was durably judged on, and when.
  datatype Seen = Seen(edge: real, at: int)

  predicate Judged(s: Live, e: Event, floor: Option<real>) {
    Committed(e) && !Terminal(s.pick) && Plausible(e.finding) && s.pick.premium && floor.Some? && e.finding.edge.Some?
  }

  function Observed(premium: bool, events: seq<Event>, floor: Option<real>): seq<Seen> {
    if events == [] then []
    else
      var init, e := events[..|events| - 1], events[|events| - 1];
      if Judged(Run(premium, init, floor), e, floor)
      then Observed(premium, init, floor) + [Seen(e.finding.edge.value, e.finding.now)]
      else Observed(premium, init, floor)
  }

  function Mentions(premium: bool, events: seq<Event>, floor: Option<real>): nat {
    if events == [] then 0
    else
      var init := events[..|events| - 1];
      Mentions(premium, init, floor) + if Step(Run(premium, init, floor), events[|events| - 1], floor).1 then 1 else 0
  }

  // Positions where the edge falls below the floor, having been at or above it or
  // not been seen before.
  predicate CrossesDown(seen: seq<Seen>, floor: real, i: nat)
    requires i < |seen|
  {
    seen[i].edge < floor && (i == 0 || seen[i - 1].edge >= floor)
  }

  function Crossings(seen: seq<Seen>, floor: real): set<nat> { set i | 0 <= i < |seen| && CrossesDown(seen, floor, i) }

  lemma CrossingsNext(seen: seq<Seen>, x: Seen, floor: real)
    ensures Crossings(seen + [x], floor) == Crossings(seen, floor)
              + (if CrossesDown(seen + [x], floor, |seen|) then {|seen|} else {})
  {
    var more := seen + [x];
    forall i | 0 <= i < |seen| ensures CrossesDown(more, floor, i) <==> CrossesDown(seen, floor, i) {}
  }

  // The mark says the last judged edge is below the floor, and carries the time
  // that stretch began.
  ghost predicate MarkIs(mark: Option<int>, seen: seq<Seen>, floor: real) {
    if seen != [] && seen[|seen| - 1].edge < floor
    then exists i :: 0 <= i < |seen| && CrossesDown(seen, floor, i) && mark == Some(seen[i].at)
                     && forall j :: i <= j < |seen| ==> seen[j].edge < floor
    else mark == None
  }

  lemma MarkNext(mark: Option<int>, seen: seq<Seen>, x: Seen, floor: real)
    requires MarkIs(mark, seen, floor)
    ensures MarkIs(ValueLostTransition(true, Some(x.edge), Some(floor), mark, x.at).0, seen + [x], floor)
    ensures ValueLostTransition(true, Some(x.edge), Some(floor), mark, x.at).1 <==>
              CrossesDown(seen + [x], floor, |seen|)
  {
    var more := seen + [x];
    if x.edge < floor {
      if mark.None? {
        assert CrossesDown(more, floor, |seen|) && more[|seen|].at == x.at;
      } else {
        var i :| 0 <= i < |seen| && CrossesDown(seen, floor, i) && mark == Some(seen[i].at)
                 && forall j :: i <= j < |seen| ==> seen[j].edge < floor;
        assert CrossesDown(more, floor, i) && more[i].at == seen[i].at;
      }
    }
  }

  lemma StepMark(s: Live, e: Event, floor: real)
    ensures var t := Step(s, e, Some(floor));
            if Judged(s, e, Some(floor)) then
              var v := ValueLostTransition(true, Some(e.finding.edge.value), Some(floor), s.pick.valueLostAt,
                                           e.finding.now);
              t.0.pick.valueLostAt == v.0 && t.1 == (v.1 && e.end.Mentioned?)
                && (Unheard(s, e, Some(floor)) <==> v.1 && !t.1)
            else t.0.pick.valueLostAt == s.pick.valueLostAt && !t.1 && !Unheard(s, e, Some(floor))
  {
  }

  // Over every trace the mark is set exactly while the last judged edge is below
  // the floor.
  lemma {:induction false} MarkTracksEdge(premium: bool, events: seq<Event>, floor: real)
    ensures MarkIs(Run(premium, events, Some(floor)).pick.valueLostAt, Observed(premium, events, Some(floor)), floor)
  {
    if events != [] {
      var init, e := events[..|events| - 1], events[|events| - 1];
      MarkTracksEdge(premium, init, floor);
      var s := Run(premium, init, Some(floor));
      StepMark(s, e, floor);
      if Judged(s, e, Some(floor)) {
        MarkNext(s.pick.valueLostAt, Observed(premium, init, Some(floor)), Seen(e.finding.edge.value, e.finding.now),
                 floor);
      }
    }
  }

  // A committed crossing whose pass is cancelled before its alert is handed out.
  predicate Unheard(s: Live, e: Event, floor: Option<real>) {
    e.Pass? && e.end.Unmentioned? && Reprice(s, e.finding, floor).1
  }

  function UnheardCount(premium: bool, events: seq<Event>, floor: Option<real>): nat {
    if events == [] then 0
    else
      var init := events[..|events| - 1];
      var unheard := Unheard(Run(premium, init, floor), events[|events| - 1], floor);
      UnheardCount(premium, init, floor) + if unheard then 1 else 0
  }

  lemma {:induction false} CrossingsCounted(premium: bool, events: seq<Event>, floor: real)
    ensures Mentions(premium, events, Some(floor)) + UnheardCount(premium, events, Some(floor))
         == |Crossings(Observed(premium, events, Some(floor)), floor)|
  {
    if events == [] {
      assert Crossings([], floor) == {};
    } else {
      var init, e := events[..|events| - 1], events[|events| - 1];
      CrossingsCounted(premium, init, floor);
      MarkTracksEdge(premium, init, floor);
      var s, seen := Run(premium, init, Some(floor)), Observed(premium, init, Some(floor));
      StepMark(s, e, floor);
      if Judged(s, e, Some(floor)) {
        var x := Seen(e.finding.edge.value, e.finding.now);
        MarkNext(s.pick.valueLostAt, seen, x, floor);
        CrossingsNext(seen, x, floor);
        assert |seen| !in Crossings(seen, floor);
      }
    }
  }

  predicate UnheardAt(premium: bool, events: seq<Event>, floor: Option<real>, n: nat)
    requires n < |events|
  {
    Unheard(Run(premium, events[..n], floor), events[n], floor)
  }

  lemma {:induction false} NoneUnheard(premium: bool, events: seq<Event>, floor: Option<real>)
    ensures UnheardCount(premium, events, floor) == 0 <==>
              forall n :: 0 <= n < |events| ==> !UnheardAt(premium, events, floor, n)
  {
    if events != [] {
      var init := events[..|events| - 1];
      NoneUnheard(premium, init, floor);
      forall n | 0 <= n < |init| ensures UnheardAt(premium, init, floor, n) <==> UnheardAt(premium, events, floor, n) {
        assert init[..n] == events[..n];
      }
      assert UnheardAt(premium, events, floor, |init|) <==> Unheard(Run(premium, init, floor), events[|init|], floor);
    }
  }

  // Over every trace a downward crossing of the durable edge is mentioned at most once,
  // and each is exactly when no pass is cancelled between its commit and its alert.
  // A crossing that is rolled back is not one: it is neither durable nor mentioned.
  lemma OneAlertPerCrossing(premium: bool, events: seq<Event>, floor: real)
    ensures var crossings := |Crossings(Observed(premium, events, Some(floor)), floor)|;
            && Mentions(premium, events, Some(floor)) <= crossings
            && (Mentions(premium, events, Some(floor)) == crossings <==>
                  forall n :: 0 <= n < |events| ==> !UnheardAt(premium, events, Some(floor), n))
  {
    CrossingsCounted(premium, events, floor);
    NoneUnheard(premium, events, Some(floor));
  }

  // Such an alert is lost for good, for the next pass finds the mark set; one that was
  // rolled back is built and handed out by the next pass that commits.
  lemma CancelledAlertIsLost(s: Live, f: Finding, floor: real)
    requires Reprice(s, f, Some(floor)).1
    ensures var cut, back, again := Pass(f, Unmentioned), Pass(f, RolledBack), Pass(f, Mentioned);
            && !Step(s, cut, Some(floor)).1 && !Step(Step(s, cut, Some(floor)).0, again, Some(floor)).1
            && !Step(s, back, Some(floor)).1 && Step(Step(s, back, Some(floor)).0, again, Some(floor)).1
  {
  }

  // Without a floor nothing is ever marked or mentioned.
  lemma {:induction false} InertWithoutFloor(premium: bool, events: seq<Event>)
    ensures Run(premium, events, None).pick.valueLostAt == None && Mentions(premium, events, None) == 0
  {
    if events != [] { InertWithoutFloor(premium, events[..|events| - 1]); }
  }
}
