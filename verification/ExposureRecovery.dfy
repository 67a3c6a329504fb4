// Ledger and table side by side over whole runs: transactions that stop at any
// point, volume writes, settlements, new days, crashes and restarts.

module ExposureRecovery {
  import opened Common
  import opened Ledger
  import opened StakeCommit

  // ----- restart recovery -------------------------------------------------

  predicate ChargesToday(r: PickRow, day: Day) {
    r.tier.Premium? && (r.reservedOn == Some(day) || LegacyToday(r, day))
  }

  // The events the grouped query returns, in order of first appearance.
  function TodayEvents(rows: seq<PickRow>, day: Day): (es: seq<string>)
    ensures forall r :: r in rows && ChargesToday(r, day) ==> r.key.event in es
    ensures Distinct(es)
  {
    if rows == [] then []
    else
      var rest := TodayEvents(rows[..|rows| - 1], day);
      var r := rows[|rows| - 1];
      assert rows == rows[..|rows| - 1] + [r];
      if ChargesToday(r, day) && r.key.event !in rest then rest + [r.key.event] else rest
  }

  function SeededEvents(rows: seq<PickRow>, day: Day, es: seq<string>): (m: map<(Day, string), real>)
    ensures forall d, e :: (d, e) in m <==> d == day && e in es
    ensures forall e :: e in es ==> m[(day, e)] == Charge(rows, day, Some(e))
  {
    if es == [] then map[]
    else
      assert es == es[..|es| - 1] + [es[|es| - 1]];
      SeededEvents(rows, day, es[..|es| - 1])[(day, es[|es| - 1]) := Charge(rows, day, Some(es[|es| - 1]))]
  }

  // The usage a fresh ledger holds after seeding: every event of the day that
  // has a premium charge, and only when the per-event cap is on.
  function Seeded(caps: Caps, rows: seq<PickRow>, day: Day): Usage {
    Usage(map[day := Charge(rows, day, None)],
          if caps.maxEvent.None? then map[]
          else SeededEvents(rows, day, TodayEvents(rows, day)))
  }

  lemma {:induction false} NoRowNoCharge(rows: seq<PickRow>, day: Day, event: string)
    requires event !in TodayEvents(rows, day)
    ensures Charge(rows, day, Some(event)) == 0.0
  {
    forall i | 0 <= i < |rows| ensures RowCharge(rows[i], day, Some(event)) == 0.0 {
      assert rows[i] in rows;
    }
    ChargeZero(rows, day, Some(event));
  }

  // Seeding restores the daily total always, and an event's total exactly when
  // the per-event cap is on or that event had nothing to restore.
  lemma SeedRestores(caps: Caps, rows: seq<PickRow>, day: Day, event: string)
    ensures Seeded(caps, rows, day).Used(day) == Charge(rows, day, None)
    ensures Seeded(caps, rows, day).EventUsed(day, event) == Charge(rows, day, Some(event))
       <==> caps.maxEvent.Some? || Charge(rows, day, Some(event)) == 0.0
  {
    if event !in TodayEvents(rows, day) { NoRowNoCharge(rows, day, event); }
  }

  // The startup step: two aggregate queries, then one preload per returned row.
  // A negative sum is a ValueError, which aborts the start.
  method SeedExposureLedger(ledger: DailyExposureLedger, rows: seq<PickRow>, day: Day) returns (ok: bool)
    requires ledger.State() == NO_USAGE
    modifies ledger
    ensures ok ==> ledger.State() == Seeded(ledger.caps, rows, day)
    ensures ok <==> Charge(rows, day, None) >= 0.0
                    && (ledger.caps.maxEvent.Some? ==>
                          forall e :: e in TodayEvents(rows, day) ==> Charge(rows, day, Some(e)) >= 0.0)
  {
    var perEvent: seq<string> := [];
    if ledger.caps.maxEvent.Some? { perEvent := TodayEvents(rows, day); }
    ok := ledger.Preload(day, Charge(rows, day, None));
    if !ok { return; }
    var k := 0;
    while k < |perEvent|
      invariant 0 <= k <= |perEvent| && ok
      invariant forall j :: 0 <= j < k ==> Charge(rows, day, Some(perEvent[j])) >= 0.0
      invariant ledger.used == map[day := Charge(rows, day, None)]
      invariant ledger.usedByEvent == SeededEvents(rows, day, perEvent[..k])
    {
      ok := ledger.PreloadEvent(day, perEvent[k], Charge(rows, day, Some(perEvent[k])));
      if !ok { return; }
      assert perEvent[..k + 1][..k] == perEvent[..k];
      k := k + 1;
    }
    assert perEvent[..k] == perEvent;
  }

  // ----- what one commit adds to the charge ------------------------------

  ghost predicate RowOk(r: PickRow, today: Day) {
    && r.createdOn <= today
    && (r.reservedOn.Some? ==> r.reservedOn.value <= today)
    && (r.tier.Volume? ==> r.reservedOn.None?)
    && (r.tier.Premium? ==> r.stake >= 0.0 && r.reservedFraction.GetOr(0.0) >= 0.0)
  }

  ghost predicate RowsOk(rows: seq<PickRow>, today: Day) {
    forall i :: 0 <= i < |rows| ==> RowOk(rows[i], today)
  }

  // No premium row created today lacks its explicit charge. Only rows written
  // before the charge columns existed can break this.
  ghost predicate NoLegacyToday(rows: seq<PickRow>, today: Day) {
    forall i :: 0 <= i < |rows| && rows[i].tier.Premium? ==> !LegacyToday(rows[i], today)
  }

  predicate InScope(event: string, scope: Option<string>) { scope.None? || scope.value == event }

  // Re-pricing a same-day legacy row with a positive grant starts its charge
  // afresh, so the stake it was implicitly charged before is forgotten.
  predicate ForgetsLegacyStake(rows: seq<PickRow>, c: Candidate, day: Day, granted: real) {
    var s := PersistPick(rows, c, Premium, day);
    s.outcome.Repriced? && granted > 0.0 && s.index < |rows| && LegacyToday(rows[s.index], day)
  }

  // The charge the candidate's row carried before the call.
  function PriorCharge(rows: seq<PickRow>, c: Candidate, day: Day, scope: Option<string>): real {
    var i := IndexOf(rows, c.key);
    if i < |rows| then RowCharge(rows[i], day, scope) else 0.0
  }

  // Staging touches only the candidate's row, as far as charges go.
  lemma StagedCharge(rows: seq<PickRow>, c: Candidate, day: Day, scope: Option<string>)
    requires !IsDuplicate(PersistPick(rows, c, Premium, day).outcome)
    ensures var s := PersistPick(rows, c, Premium, day);
            Charge(s.rows, day, scope) - RowCharge(s.rows[s.index], day, scope)
              == Charge(rows, day, scope) - PriorCharge(rows, c, day, scope)
  {
    var s := PersistPick(rows, c, Premium, day);
    var i := IndexOf(rows, c.key);
    if s.outcome.Inserted? {
      var kept := SupersedeOlder(rows, c.key, Premium);
      ChargePointwise(kept, rows, day, scope);
      ChargeAppend(kept, Minted(c, Premium, day), day, scope);
    } else if s.outcome.Upgraded? {
      var up := rows[i].(tier := Premium, odds := c.odds, book := c.book, stake := c.final,
                         clipped := false, createdOn := day);
      ChargeUpdate(rows, i, up, day, scope);
      ChargePointwise(s.rows, rows[i := up], day, scope);
    } else {
      ChargeUpdate(rows, i, s.rows[i], day, scope);
    }
  }

  // What finalizing does to the charge of the staged row.
  lemma FinalizedCharge(s: Staged, c: Candidate, day: Day, granted: real, scope: Option<string>)
    requires s.index < |s.rows| && granted >= 0.0
    requires s.rows[s.index].key == c.key && s.rows[s.index].tier == Premium
    requires s.outcome == Repriced ==> s.previous > 0.0
    ensures var r, f := s.rows[s.index], Finalize(s, c, day, granted).rows[s.index];
            RowCharge(f, day, scope) ==
              if !InScope(c.key.event, scope) || (s.outcome != Repriced && granted == 0.0) then 0.0
              else if granted > 0.0 then
                granted + (if r.reservedOn == Some(day) then r.reservedFraction.GetOr(0.0) else 0.0)
              else RowCharge(r.(stake := s.previous), day, scope)
  {
  }

  // The charge of the candidate's row, before the call and after the commit.
  lemma RowAccounts(rows: seq<PickRow>, c: Candidate, day: Day, granted: real, scope: Option<string>)
    requires RowsOk(rows, day) && granted >= 0.0
    requires !IsDuplicate(PersistPick(rows, c, Premium, day).outcome)
    ensures var s := PersistPick(rows, c, Premium, day);
            RowCharge(Finalize(s, c, day, granted).rows[s.index], day, scope) ==
              PriorCharge(rows, c, day, scope)
              + (if !InScope(c.key.event, scope) then 0.0
                 else if ForgetsLegacyStake(rows, c, day, granted) then granted - rows[IndexOf(rows, c.key)].stake
                 else granted)
  {
    var s := PersistPick(rows, c, Premium, day);
    StagedBy(rows, c, day);
    FinalizedCharge(s, c, day, granted, scope);
    if s.index < |rows| { assert RowOk(rows[s.index], day); }
  }

  // One commit adds exactly the grant, less a forgotten legacy stake.
  lemma CommitCharge(rows: seq<PickRow>, c: Candidate, day: Day, granted: real, scope: Option<string>)
    requires RowsOk(rows, day) && granted >= 0.0
    requires !IsDuplicate(PersistPick(rows, c, Premium, day).outcome)
    ensures Charge(Finalize(PersistPick(rows, c, Premium, day), c, day, granted).rows, day, scope)
         == Charge(rows, day, scope)
            + (if !InScope(c.key.event, scope) then 0.0
               else if ForgetsLegacyStake(rows, c, day, granted)
               then granted - rows[IndexOf(rows, c.key)].stake
               else granted)
  {
    var s := PersistPick(rows, c, Premium, day);
    StagedCharge(rows, c, day, scope);
    RowAccounts(rows, c, day, granted, scope);
    FinalizedElsewhere(s, c, day, granted);
    ChargeUpdate(s.rows, s.index, Finalize(s, c, day, granted).rows[s.index], day, scope);
  }

  lemma FinalizedElsewhere(s: Staged, c: Candidate, day: Day, granted: real)
    requires s.index < |s.rows|
    ensures Finalize(s, c, day, granted).rows == s.rows[s.index := Finalize(s, c, day, granted).rows[s.index]]
  {
  }

  // What a call that meets no fault will be granted; zero when it reserves nothing.
  function GrantFor(caps: Caps, rows: seq<PickRow>, usage: Usage, c: Candidate, day: Day): real {
    var s := PersistPick(rows, c, Premium, day);
    if IsDuplicate(s.outcome) then 0.0 else usage.Grant(caps, day, Requested(s, c), Some(c.ref)).GetOr(0.0)
  }

  // What a fault-free call adds to the ledger and to the table, in a scope.
  lemma CallDeltas(caps: Caps, rows: seq<PickRow>, usage: Usage, c: Candidate, day: Day, scope: Option<string>)
    requires RowsOk(rows, day)
    ensures var e := PersistAndReserve(caps, rows, usage, c, day, NoFault);
            var g := GrantFor(caps, rows, usage, c, day);
            && g >= 0.0
            && e.usage.In(day, scope) == usage.In(day, scope) + (if InScope(c.ref, scope) then g else 0.0)
            && Charge(e.rows, day, scope) == Charge(rows, day, scope)
                 + (if !InScope(c.key.event, scope) then 0.0
                    else if ForgetsLegacyStake(rows, c, day, g) then g - rows[IndexOf(rows, c.key)].stake
                    else g)
  {
    var s := PersistPick(rows, c, Premium, day);
    if !IsDuplicate(s.outcome) {
      var grant := usage.Grant(caps, day, Requested(s, c), Some(c.ref));
      if grant.Some? {
        CommitCharge(rows, c, day, grant.value, scope);
        ChargedReads(usage, day, grant.value, c.ref, if scope.Some? then scope.value else c.ref);
      }
    }
  }

  // Whether a fault-free call will keep ledger and table in agreement in a scope,
  // told from the state before it. The grant must land in the scope on both sides
  // or on neither, and no stake there may be forgotten; a grant that lands on one
  // side only must be zero, or happen to equal the forgotten stake.
  predicate WillAgree(caps: Caps, rows: seq<PickRow>, usage: Usage, c: Candidate, day: Day, scope: Option<string>) {
    var g := GrantFor(caps, rows, usage, c, day);
    var forgets := ForgetsLegacyStake(rows, c, day, g);
    if InScope(c.ref, scope) == InScope(c.key.event, scope) then !(InScope(c.key.event, scope) && forgets)
    else if InScope(c.ref, scope) then g == 0.0
    else if forgets then g == rows[IndexOf(rows, c.key)].stake
    else g == 0.0
  }

  // A forgotten stake is a positive one.
  lemma ForgottenIsPositive(rows: seq<PickRow>, c: Candidate, day: Day, granted: real)
    requires ForgetsLegacyStake(rows, c, day, granted)
    ensures IndexOf(rows, c.key) < |rows| && rows[IndexOf(rows, c.key)].stake > 0.0
  {
    StagedBy(rows, c, day);
  }

  // After a fault-free call ledger and table agree in a scope exactly then.
  lemma AgreementAfterCommitIff(caps: Caps, rows: seq<PickRow>, usage: Usage, c: Candidate, day: Day,
                                scope: Option<string>)
    requires RowsOk(rows, day)
    requires usage.In(day, scope) == Charge(rows, day, scope)
    ensures var e := PersistAndReserve(caps, rows, usage, c, day, NoFault);
            e.usage.In(day, scope) == Charge(e.rows, day, scope) <==> WillAgree(caps, rows, usage, c, day, scope)
  {
    var g := GrantFor(caps, rows, usage, c, day);
    CallDeltas(caps, rows, usage, c, day, scope);
    if ForgetsLegacyStake(rows, c, day, g) { ForgottenIsPositive(rows, c, day, g); }
  }

  // For the day as a whole: exactly when no same-day legacy stake is forgotten.
  lemma DayAgreementIff(caps: Caps, rows: seq<PickRow>, usage: Usage, c: Candidate, day: Day)
    requires RowsOk(rows, day) && usage.Used(day) == Charge(rows, day, None)
    ensures var e := PersistAndReserve(caps, rows, usage, c, day, NoFault);
            e.usage.Used(day) == Charge(e.rows, day, None)
            <==> !ForgetsLegacyStake(rows, c, day, GrantFor(caps, rows, usage, c, day))
  {
    AgreementAfterCommitIff(caps, rows, usage, c, day, None);
  }

  lemma SingleCharge(r: PickRow, day: Day)
    ensures Charge([r], day, None) == RowCharge(r, day, None)
  {
    assert [r][..0] == [];
    assert Charge([], day, None) == 0.0;
  }

  // The failing family is inhabited: a 0.02 legacy stake of today raised to
  // 0.03 leaves 0.03 in the ledger and 0.01 in the table.
  lemma LegacyRepriceUndercounts(key: PickKey)
    ensures var rows := [PickRow(key, Premium, Alerted, 2.0, "A", 0.02, false, 7, None, None)];
            var usage := Usage(map[7 := 0.02], map[]);
            var e := PersistAndReserve(Caps(1.0, None), rows, usage,
                                       Candidate(key, key.event, 2.2, "A", 0.03, 0.1), 7, NoFault);
            && usage.Used(7) == Charge(rows, 7, None)
            && e.usage.Used(7) == 0.03 && Charge(e.rows, 7, None) == 0.01
  {
    var row := PickRow(key, Premium, Alerted, 2.0, "A", 0.02, false, 7, None, None);
    var usage := Usage(map[7 := 0.02], map[]);
    var c := Candidate(key, key.event, 2.2, "A", 0.03, 0.1);
    var s := PersistPick([row], c, Premium, 7);
    assert IndexOf([row], key) == 0;
    assert s.outcome == Repriced && s.previous == 0.02 && Requested(s, c) == 0.01;
    assert usage.Grant(Caps(1.0, None), 7, 0.01, Some(key.event)) == Some(0.01);
    ChargedReads(usage, 7, 0.01, key.event, key.event);
    var after := row.(odds := 2.2, stake := 0.03, reservedOn := Some(7), reservedFraction := Some(0.01));
    assert Finalize(s, c, 7, 0.01).rows == [after];
    SingleCharge(row, 7);
    SingleCharge(after, 7);
  }

  // Every event total agrees after a fault-free call exactly when nothing is
  // granted, or the reference is that of the event row and no legacy stake is
  // forgotten.
  lemma EventAgreementAfterCommitIff(caps: Caps, rows: seq<PickRow>, usage: Usage, c: Candidate, day: Day)
    requires RowsOk(rows, day)
    requires forall e :: usage.EventUsed(day, e) == Charge(rows, day, Some(e))
    ensures var x := PersistAndReserve(caps, rows, usage, c, day, NoFault);
            var g := GrantFor(caps, rows, usage, c, day);
            (forall e :: x.usage.EventUsed(day, e) == Charge(x.rows, day, Some(e)))
            <==> g == 0.0 || (c.ref == c.key.event && !ForgetsLegacyStake(rows, c, day, g))
  {
    var x := PersistAndReserve(caps, rows, usage, c, day, NoFault);
    forall e ensures x.usage.EventUsed(day, e) == Charge(x.rows, day, Some(e))
                     <==> WillAgree(caps, rows, usage, c, day, Some(e)) {
      AgreementAfterCommitIff(caps, rows, usage, c, day, Some(e));
    }
    assert WillAgree(caps, rows, usage, c, day, Some(c.ref))
        <==> x.usage.EventUsed(day, c.ref) == Charge(x.rows, day, Some(c.ref));
  }

  // A reference that resolves to another event row: the ledger counts 0.02 under
  // the reference, the table charges 0.02 to the row, and neither has the other's.
  lemma RedirectedReferenceSplits(key: PickKey, ref: string)
    requires ref != key.event
    ensures var x := PersistAndReserve(Caps(1.0, Some(1.0)), [], NO_USAGE, Candidate(key, ref, 2.0, "A", 0.02, 0.1),
                                       7, NoFault);
            && x.usage.EventUsed(7, ref) == 0.02 && Charge(x.rows, 7, Some(ref)) == 0.0
            && x.usage.EventUsed(7, key.event) == 0.0 && Charge(x.rows, 7, Some(key.event)) == 0.02
            && x.usage.Used(7) == Charge(x.rows, 7, None) == 0.02
  {
    var c := Candidate(key, ref, 2.0, "A", 0.02, 0.1);
    StagedInsert([], c, 7);
    assert GrantFor(Caps(1.0, Some(1.0)), [], NO_USAGE, c, 7) == 0.02;
    CallDeltas(Caps(1.0, Some(1.0)), [], NO_USAGE, c, 7, Some(ref));
    CallDeltas(Caps(1.0, Some(1.0)), [], NO_USAGE, c, 7, Some(key.event));
    CallDeltas(Caps(1.0, Some(1.0)), [], NO_USAGE, c, 7, None);
  }

  // ----- whole runs -------------------------------------------------------

  datatype Phase =
    | Idle
    | Writing(c: Candidate, s: Staged)
    | Holding(c: Candidate, s: Staged, granted: real)
    | Finalizing(c: Candidate, s: Staged, granted: real, f: Finalized)

  // `usage` is None while the process is down.
  datatype World = World(caps: Caps, rows: seq<PickRow>, usage: Option<Usage>, phase: Phase, today: Day)

  datatype Action =
    | Begin(c: Candidate)
    | Reserve
    | Update
    | Commit
    | Abort
    | WriteVolume(c: Candidate)
    | Close(row: nat)
    | NextDay(day: Day)
    | Crash
    | Restart(day: Day)

  // An action that is not possible in a world leaves it as it is.
  function Apply(w: World, a: Action): World {
    if w.usage.None? then
      if a.Restart? && w.today <= a.day
      then w.(usage := Some(Seeded(w.caps, w.rows, a.day)), today := a.day) else w
    else
      var u := w.usage.value;
      match (a, w.phase)
      case (Begin(c), Idle) => w.(phase := Writing(c, PersistPick(w.rows, c, Premium, w.today)))
      case (Reserve, Writing(c, s)) =>
        if IsDuplicate(s.outcome) then w
        else
          var g := u.Grant(w.caps, w.today, Requested(s, c), Some(c.ref));
          if g.None? then w.(phase := Idle)
          else w.(usage := Some(u.Charged(w.today, g.value, Some(c.ref))), phase := Holding(c, s, g.value))
      case (Update, Holding(c, s, g)) =>
        if s.index < |s.rows| then w.(phase := Finalizing(c, s, g, Finalize(s, c, w.today, g))) else w
      case (Commit, Writing(_, s)) => if IsDuplicate(s.outcome) then w.(rows := s.rows, phase := Idle) else w
      case (Commit, Finalizing(_, _, _, f)) => w.(rows := f.rows, phase := Idle)
      case (Abort, Writing(_, _)) => w.(phase := Idle)
      case (Abort, Holding(c, _, g)) => w.(usage := Some(u.Released(w.today, g, Some(c.ref))), phase := Idle)
      case (Abort, Finalizing(c, _, g, _)) => w.(usage := Some(u.Released(w.today, g, Some(c.ref))), phase := Idle)
      case (WriteVolume(c), Idle) => w.(rows := PersistPick(w.rows, c, Volume, w.today).rows)
      case (Close(i), Idle) => if i < |w.rows| then w.(rows := w.rows[i := w.rows[i].(status := Closed)]) else w
      case (NextDay(d), Idle) => if w.today < d then w.(today := d) else w
      case (Crash, _) => w.(usage := None, phase := Idle)
      case _ => w
  }

  function Run(w: World, actions: seq<Action>): World {
    if actions == [] then w else Apply(Run(w, actions[..|actions| - 1]), actions[|actions| - 1])
  }

  // The grant a still open transaction holds in a scope.
  function OpenGrant(w: World, scope: Option<string>): real {
    match w.phase
    case Holding(c, _, g) => if InScope(c.ref, scope) then g else 0.0
    case Finalizing(c, _, g, _) => if InScope(c.ref, scope) then g else 0.0
    case _ => 0.0
  }

  ghost predicate PhaseOk(w: World) {
    w.phase.Idle? ||
    (&& w.phase.s == PersistPick(w.rows, w.phase.c, Premium, w.today)
     && (!w.phase.Writing? ==> !IsDuplicate(w.phase.s.outcome) && w.phase.granted >= 0.0)
     && (w.phase.Finalizing? ==> w.phase.f == Finalize(w.phase.s, w.phase.c, w.today, w.phase.granted)))
  }

  ghost predicate NoFutureUsage(w: World) {
    w.usage.Some? ==>
      && (forall d :: d > w.today ==> w.usage.value.Used(d) == 0.0)
      && (forall d, e :: d > w.today ==> w.usage.value.EventUsed(d, e) == 0.0)
  }

  // What every process and table satisfies, whatever its candidates refer to and
  // whatever rows it inherited.
  ghost predicate Sound(w: World) {
    RowsOk(w.rows, w.today) && PhaseOk(w) && NoFutureUsage(w) && (w.usage.None? ==> w.phase.Idle?)
  }

  // The ledger counts at least the committed charge and the open grant, in a scope.
  ghost predicate Covered(w: World, scope: Option<string>) {
    w.usage.Some? ==> w.usage.value.In(w.today, scope) >= Charge(w.rows, w.today, scope) + OpenGrant(w, scope)
  }

  // It counts exactly them.
  ghost predicate Balanced(w: World, scope: Option<string>) {
    w.usage.Some? ==> w.usage.value.In(w.today, scope) == Charge(w.rows, w.today, scope) + OpenGrant(w, scope)
  }

  // Every scope the caps enforce: the day, and each event when its cap is on.
  ghost predicate Enforced(caps: Caps, scope: Option<string>) { scope.None? || caps.maxEvent.Some? }

  // What the candidate's row charges to the scope its reference reserves there. For
  // the day this always holds; for an event unless another reference resolves to it.
  predicate Reaches(c: Candidate, scope: Option<string>) { InScope(c.key.event, scope) ==> InScope(c.ref, scope) }

  // And the other way round.
  predicate Aimed(c: Candidate, scope: Option<string>) { InScope(c.key.event, scope) <==> InScope(c.ref, scope) }

  ghost predicate AllReach(actions: seq<Action>, scope: Option<string>) {
    forall i :: 0 <= i < |actions| && actions[i].Begin? ==> Reaches(actions[i].c, scope)
  }

  ghost predicate AllAimed(actions: seq<Action>, scope: Option<string>) {
    forall i :: 0 <= i < |actions| && actions[i].Begin? ==> Aimed(actions[i].c, scope)
  }

  ghost predicate Safe(w: World, scope: Option<string>) {
    Sound(w) && Covered(w, scope) && Enforced(w.caps, scope) && (!w.phase.Idle? ==> Reaches(w.phase.c, scope))
  }

  ghost predicate Exact(w: World, scope: Option<string>) {
    && Sound(w) && Balanced(w, scope) && Enforced(w.caps, scope) && NoLegacyToday(w.rows, w.today)
    && (!w.phase.Idle? ==> Aimed(w.phase.c, scope))
  }

  lemma ChargeAtLeastZero(rows: seq<PickRow>, today: Day, scope: Option<string>)
    requires RowsOk(rows, today)
    ensures Charge(rows, today, scope) >= 0.0
  {
    forall i | 0 <= i < |rows| ensures RowCharge(rows[i], today, scope) >= 0.0 {
      assert RowOk(rows[i], today);
    }
    ChargeNonNegative(rows, today, scope);
  }

  // ----- what each step does to the rows ------------------------------------

  // A row keeps well formed, and without a same-day legacy charge if it had none.
  ghost predicate Kept(r: PickRow, day: Day, legacy: bool) {
    RowOk(r, day) && (!legacy && r.tier.Premium? ==> !LegacyToday(r, day))
  }

  // All rows are kept; `legacy` allows same-day legacy rows.
  ghost predicate AllKept(rows: seq<PickRow>, day: Day, legacy: bool) {
    forall i :: 0 <= i < |rows| ==> Kept(rows[i], day, legacy)
  }

  lemma KeptMeans(rows: seq<PickRow>, day: Day)
    ensures AllKept(rows, day, true) <==> RowsOk(rows, day)
    ensures AllKept(rows, day, false) <==> RowsOk(rows, day) && NoLegacyToday(rows, day)
  {
    if RowsOk(rows, day) { assert forall i :: 0 <= i < |rows| ==> RowOk(rows[i], day); }
    if AllKept(rows, day, true) { assert forall i :: 0 <= i < |rows| ==> Kept(rows[i], day, true); }
    if AllKept(rows, day, false) { assert forall i :: 0 <= i < |rows| ==> Kept(rows[i], day, false); }
  }

  // The rows beside the candidate's keep their charge columns.
  lemma StagedOthersOk(rows: seq<PickRow>, c: Candidate, day: Day, i: nat, legacy: bool)
    requires AllKept(rows, day, legacy)
    requires var s := PersistPick(rows, c, Premium, day); !IsDuplicate(s.outcome) && i < |s.rows| && i != s.index
    ensures i < |rows| && Kept(PersistPick(rows, c, Premium, day).rows[i], day, legacy)
  {
    var s := PersistPick(rows, c, Premium, day);
    assert |s.rows| <= |rows| + 1;
    assert Kept(rows[i], day, legacy);
    assert s.rows[i].(status := rows[i].status) == rows[i];
  }

  lemma FinalizedRowOk(rows: seq<PickRow>, c: Candidate, day: Day, granted: real, legacy: bool)
    requires AllKept(rows, day, legacy) && granted >= 0.0
    requires !IsDuplicate(PersistPick(rows, c, Premium, day).outcome)
    ensures var s := PersistPick(rows, c, Premium, day);
            Kept(Finalize(s, c, day, granted).rows[s.index], day, legacy)
  {
    var s := PersistPick(rows, c, Premium, day);
    StagedBy(rows, c, day);
    if s.index < |rows| { assert Kept(rows[s.index], day, legacy); }
  }

  lemma FinalizedRowsOk(rows: seq<PickRow>, c: Candidate, day: Day, granted: real, legacy: bool)
    requires AllKept(rows, day, legacy) && granted >= 0.0
    requires !IsDuplicate(PersistPick(rows, c, Premium, day).outcome)
    ensures AllKept(Finalize(PersistPick(rows, c, Premium, day), c, day, granted).rows, day, legacy)
  {
    var s := PersistPick(rows, c, Premium, day);
    var f := Finalize(s, c, day, granted);
    FinalizedElsewhere(s, c, day, granted);
    FinalizedRowOk(rows, c, day, granted, legacy);
    forall i | 0 <= i < |f.rows| ensures Kept(f.rows[i], day, legacy) {
      if i != s.index { StagedOthersOk(rows, c, day, i, legacy); }
    }
  }

  lemma VolumeWriteRows(rows: seq<PickRow>, c: Candidate, day: Day, legacy: bool)
    requires AllKept(rows, day, legacy)
    ensures AllKept(PersistPick(rows, c, Volume, day).rows, day, legacy)
  {
    var v := PersistPick(rows, c, Volume, day).rows;
    forall i | 0 <= i < |v| ensures Kept(v[i], day, legacy) {
      if i < |rows| { assert Kept(rows[i], day, legacy); }
    }
  }

  lemma VolumeWriteCharge(rows: seq<PickRow>, c: Candidate, day: Day, scope: Option<string>)
    ensures Charge(PersistPick(rows, c, Volume, day).rows, day, scope) == Charge(rows, day, scope)
  {
    var s := PersistPick(rows, c, Volume, day);
    if s.outcome.Inserted? {
      var kept := SupersedeOlder(rows, c.key, Volume);
      ChargePointwise(kept, rows, day, scope);
      ChargeAppend(kept, Minted(c, Volume, day), day, scope);
    }
  }

  // On a later day nothing of today is charged, not even a legacy row.
  lemma LaterDay(rows: seq<PickRow>, today: Day, later: Day, scope: Option<string>)
    requires RowsOk(rows, today) && today < later
    ensures AllKept(rows, later, false) && Charge(rows, later, scope) == 0.0
  {
    forall i | 0 <= i < |rows| ensures Kept(rows[i], later, false) && RowCharge(rows[i], later, scope) == 0.0 {
      assert RowOk(rows[i], today);
    }
    ChargeZero(rows, later, scope);
  }

  // Closing a pick changes its status, never a charge.
  lemma ClosedRows(rows: seq<PickRow>, i: nat, today: Day, scope: Option<string>, legacy: bool)
    requires AllKept(rows, today, legacy) && i < |rows|
    ensures var v := rows[i := rows[i].(status := Closed)];
            AllKept(v, today, legacy) && Charge(v, today, scope) == Charge(rows, today, scope)
  {
    ChargeUpdate(rows, i, rows[i].(status := Closed), today, scope);
    assert Kept(rows[i], today, legacy);
  }

  lemma StepKeepsRows(w: World, a: Action, legacy: bool)
    requires Sound(w) && AllKept(w.rows, w.today, legacy)
    ensures AllKept(Apply(w, a).rows, Apply(w, a).today, legacy)
  {
    if w.usage.None? {
      if a.Restart? && w.today < a.day { LaterDay(w.rows, w.today, a.day, None); }
    } else if a.Commit? && w.phase.Finalizing? {
      FinalizedRowsOk(w.rows, w.phase.c, w.today, w.phase.granted, legacy);
    } else if a.WriteVolume? && w.phase.Idle? {
      VolumeWriteRows(w.rows, a.c, w.today, legacy);
    } else if a.Close? && w.phase.Idle? && a.row < |w.rows| {
      ClosedRows(w.rows, a.row, w.today, None, legacy);
    } else if a.NextDay? && w.phase.Idle? && w.today < a.day {
      LaterDay(w.rows, w.today, a.day, None);
    }
  }

  lemma ChargedStaysPresent(u: Usage, today: Day, amount: real, event: string, d: Day, e: string)
    requires d > today && u.Used(d) == 0.0 && u.EventUsed(d, e) == 0.0
    ensures var v := u.Charged(today, amount, Some(event)); v.Used(d) == 0.0 && v.EventUsed(d, e) == 0.0
    ensures var v := u.Released(today, amount, Some(event)); v.Used(d) == 0.0 && v.EventUsed(d, e) == 0.0
  {
  }

  lemma StepNoFutureUsage(w: World, a: Action)
    requires Sound(w)
    ensures NoFutureUsage(Apply(w, a))
  {
    var v := Apply(w, a);
    if w.usage.Some? && v.usage.Some? {
      forall d, e | d > v.today ensures v.usage.value.Used(d) == 0.0 && v.usage.value.EventUsed(d, e) == 0.0 {
        var u := w.usage.value;
        assert u.Used(d) == 0.0 && u.EventUsed(d, e) == 0.0;
        if a.Reserve? && w.phase.Writing? {
          var g := u.Grant(w.caps, w.today, Requested(w.phase.s, w.phase.c), Some(w.phase.c.ref));
          if g.Some? { ChargedStaysPresent(u, w.today, g.value, w.phase.c.ref, d, e); }
        } else if a.Abort? && (w.phase.Holding? || w.phase.Finalizing?) {
          ChargedStaysPresent(u, w.today, w.phase.granted, w.phase.c.ref, d, e);
        }
      }
      assert forall d :: d > v.today ==> v.usage.value.EventUsed(d, "") == 0.0 && v.usage.value.Used(d) == 0.0;
    }
  }

  lemma StepSound(w: World, a: Action)
    requires Sound(w)
    ensures Sound(Apply(w, a)) && Apply(w, a).caps == w.caps
  {
    KeptMeans(w.rows, w.today);
    StepKeepsRows(w, a, true);
    KeptMeans(Apply(w, a).rows, Apply(w, a).today);
    StepNoFutureUsage(w, a);
  }

  // ----- what each step does to ledger and charge -----------------------------

  // How the two sides move, in a scope; a lasting difference can only come from a
  // commit. Both invariants below are read off these deltas.
  lemma ReserveMoves(w: World, scope: Option<string>)
    requires Sound(w) && w.usage.Some? && w.phase.Writing?
    ensures var v := Apply(w, Reserve);
            && v.usage.Some? && v.rows == w.rows && v.today == w.today
            && v.usage.value.In(w.today, scope) - OpenGrant(v, scope)
                 == w.usage.value.In(w.today, scope) - OpenGrant(w, scope)
  {
    var c, s := w.phase.c, w.phase.s;
    if !IsDuplicate(s.outcome) {
      var g := w.usage.value.Grant(w.caps, w.today, Requested(s, c), Some(c.ref));
      if g.Some? { ChargedReads(w.usage.value, w.today, g.value, c.ref, if scope.Some? then scope.value else c.ref); }
    }
  }

  // An abort takes the open grant back; the clamp at zero never bites where the
  // ledger covers it.
  lemma AbortMoves(w: World, scope: Option<string>)
    requires Sound(w) && Covered(w, scope) && w.usage.Some? && (w.phase.Holding? || w.phase.Finalizing?)
    ensures var v := Apply(w, Abort);
            && v.usage.Some? && v.rows == w.rows && v.today == w.today && v.phase.Idle?
            && v.usage.value.In(w.today, scope) == w.usage.value.In(w.today, scope) - OpenGrant(w, scope)
  {
    ChargeAtLeastZero(w.rows, w.today, scope);
  }

  lemma CommitMoves(w: World, scope: Option<string>)
    requires Sound(w) && w.usage.Some? && w.phase.Finalizing?
    ensures var v := Apply(w, Commit);
            && v.usage == w.usage && v.today == w.today && v.phase.Idle?
            && Charge(v.rows, w.today, scope) <= Charge(w.rows, w.today, scope)
                 + (if InScope(w.phase.c.key.event, scope) then w.phase.granted else 0.0)
            && (NoLegacyToday(w.rows, w.today) ==>
                  Charge(v.rows, w.today, scope) == Charge(w.rows, w.today, scope)
                    + (if InScope(w.phase.c.key.event, scope) then w.phase.granted else 0.0))
  {
    var c, g := w.phase.c, w.phase.granted;
    CommitCharge(w.rows, c, w.today, g, scope);
    if ForgetsLegacyStake(w.rows, c, w.today, g) {
      ForgottenIsPositive(w.rows, c, w.today, g);
      StagedBy(w.rows, c, w.today);
    }
  }

  // Whatever was committed when the process went down, the seeded ledger counts it.
  lemma RestartMoves(w: World, day: Day, scope: Option<string>)
    requires Sound(w) && Enforced(w.caps, scope) && w.usage.None? && w.today <= day
    ensures var v := Apply(w, Restart(day));
            && v.usage.Some? && v.rows == w.rows && v.phase.Idle? && v.today == day
            && v.usage.value.In(day, scope) == Charge(v.rows, day, scope)
  {
    if scope.Some? { SeedRestores(w.caps, w.rows, day, scope.value); }
  }

  // The steps that touch neither the ledger nor an open grant.
  lemma QuietMoves(w: World, a: Action, scope: Option<string>)
    requires Sound(w) && w.usage.Some? && !a.Reserve? && !a.Crash?
    requires a.Abort? ==> !w.phase.Holding? && !w.phase.Finalizing?
    requires a.Commit? ==> !w.phase.Finalizing?
    ensures var v := Apply(w, a);
            && v.usage == w.usage && OpenGrant(v, scope) == OpenGrant(w, scope)
            && (v.today == w.today ==> Charge(v.rows, v.today, scope) == Charge(w.rows, w.today, scope))
            && (v.today != w.today ==> w.phase.Idle? && v.today > w.today && Charge(v.rows, v.today, scope) == 0.0)
  {
    if a.WriteVolume? && w.phase.Idle? {
      VolumeWriteCharge(w.rows, a.c, w.today, scope);
    } else if a.Close? && w.phase.Idle? && a.row < |w.rows| {
      KeptMeans(w.rows, w.today);
      ClosedRows(w.rows, a.row, w.today, scope, true);
    } else if a.NextDay? && w.phase.Idle? && w.today < a.day {
      LaterDay(w.rows, w.today, a.day, scope);
    }
  }

  // Every step keeps the ledger at or above the charge, in every scope that the
  // candidates reach.
  lemma StepSafe(w: World, a: Action, scope: Option<string>)
    requires Safe(w, scope) && (a.Begin? ==> Reaches(a.c, scope))
    ensures Safe(Apply(w, a), scope)
  {
    StepSound(w, a);
    if w.usage.None? {
      if a.Restart? && w.today <= a.day { RestartMoves(w, a.day, scope); }
    } else if a.Reserve? && w.phase.Writing? {
      ReserveMoves(w, scope);
    } else if a.Abort? && (w.phase.Holding? || w.phase.Finalizing?) {
      AbortMoves(w, scope);
    } else if a.Commit? && w.phase.Finalizing? {
      CommitMoves(w, scope);
    } else if !a.Reserve? && !a.Crash? {
      QuietMoves(w, a, scope);
    }
  }

  // And keeps them equal, in every scope the candidates aim at, unless a same-day
  // legacy row is there to be forgotten.
  lemma StepExact(w: World, a: Action, scope: Option<string>)
    requires Exact(w, scope) && (a.Begin? ==> Aimed(a.c, scope))
    ensures Exact(Apply(w, a), scope)
  {
    StepSound(w, a);
    KeptMeans(w.rows, w.today);
    StepKeepsRows(w, a, false);
    KeptMeans(Apply(w, a).rows, Apply(w, a).today);
    if w.usage.None? {
      if a.Restart? && w.today <= a.day { RestartMoves(w, a.day, scope); }
    } else if a.Reserve? && w.phase.Writing? {
      ReserveMoves(w, scope);
    } else if a.Abort? && (w.phase.Holding? || w.phase.Finalizing?) {
      AbortMoves(w, scope);
    } else if a.Commit? && w.phase.Finalizing? {
      CommitMoves(w, scope);
    } else if !a.Reserve? && !a.Crash? {
      QuietMoves(w, a, scope);
    }
  }

  lemma {:induction false} RunSafe(w: World, actions: seq<Action>, scope: Option<string>)
    requires Safe(w, scope) && AllReach(actions, scope)
    ensures Safe(Run(w, actions), scope) && Run(w, actions).caps == w.caps
  {
    if actions != [] {
      RunSafe(w, actions[..|actions| - 1], scope);
      StepSound(Run(w, actions[..|actions| - 1]), actions[|actions| - 1]);
      StepSafe(Run(w, actions[..|actions| - 1]), actions[|actions| - 1], scope);
    }
  }

  lemma {:induction false} RunExact(w: World, actions: seq<Action>, scope: Option<string>)
    requires Exact(w, scope) && AllAimed(actions, scope)
    ensures Exact(Run(w, actions), scope)
  {
    if actions != [] {
      RunExact(w, actions[..|actions| - 1], scope);
      StepExact(Run(w, actions[..|actions| - 1]), actions[|actions| - 1], scope);
    }
  }

  // In every run, whatever fails or crashes where and whatever rows the table
  // inherited, the committed charge never exceeds what the ledger counts: for the
  // day without any condition on the candidates, for an event unless a candidate
  // of its row reserves under another reference.
  lemma ExposureNeverEscapes(w: World, actions: seq<Action>, scope: Option<string>)
    requires Safe(w, scope) && AllReach(actions, scope)
    ensures var v := Run(w, actions);
            v.usage.Some? ==>
              Charge(v.rows, v.today, scope) + OpenGrant(v, scope) <= v.usage.value.In(v.today, scope)
              && OpenGrant(v, scope) >= 0.0
  {
    RunSafe(w, actions, scope);
  }

  lemma DayNeverEscapes(w: World, actions: seq<Action>)
    requires Sound(w) && Covered(w, None)
    ensures var v := Run(w, actions);
            v.usage.Some? ==> Charge(v.rows, v.today, None) <= v.usage.value.Used(v.today)
  {
    ExposureNeverEscapes(w, actions, None);
  }

  // From a table without same-day legacy rows the two are equal whenever no
  // transaction is open.
  lemma ExposureIsExact(w: World, actions: seq<Action>, scope: Option<string>)
    requires Exact(w, scope) && AllAimed(actions, scope)
    ensures var v := Run(w, actions);
            v.usage.Some? && v.phase.Idle? ==> Charge(v.rows, v.today, scope) == v.usage.value.In(v.today, scope)
  {
    RunExact(w, actions, scope);
  }

  // A crash anywhere, also inside a transaction, followed by a same-day restart:
  // the new ledger counts exactly the committed charge, so never more than the lost
  // one did, and the same when nothing was open and nothing had been forgotten.
  lemma RestartRestores(w: World, actions: seq<Action>, scope: Option<string>)
    requires Safe(w, scope) && AllReach(actions, scope)
    ensures var before := Run(w, actions);
            before.usage.Some? ==>
              var after := Apply(Apply(before, Crash), Restart(before.today));
              && after.usage.Some? && after.rows == before.rows && after.phase.Idle?
              && after.usage.value.In(after.today, scope) == Charge(before.rows, before.today, scope)
              && after.usage.value.In(after.today, scope) <= before.usage.value.In(before.today, scope)
              && (Exact(w, scope) && AllAimed(actions, scope) && before.phase.Idle? ==>
                    after.usage.value.In(after.today, scope) == before.usage.value.In(before.today, scope))
  {
    RunSafe(w, actions, scope);
    var before := Run(w, actions);
    if before.usage.Some? {
      StepSound(before, Crash);
      RestartMoves(Apply(before, Crash), before.today, scope);
      if Exact(w, scope) && AllAimed(actions, scope) { RunExact(w, actions, scope); }
    }
  }

  // A fresh process is safe on any table, and exact on one without same-day legacy
  // rows, in every scope its caps enforce.
  lemma BootIsConsistent(caps: Caps, rows: seq<PickRow>, today: Day, scope: Option<string>)
    requires RowsOk(rows, today) && Enforced(caps, scope)
    ensures var w := World(caps, rows, Some(Seeded(caps, rows, today)), Idle, today);
            Safe(w, scope) && Balanced(w, scope) && (NoLegacyToday(rows, today) ==> Exact(w, scope))
  {
    if scope.Some? { SeedRestores(caps, rows, today, scope.value); }
  }

  // ----- the caps over whole runs -----------------------------------------------

  function CapOf(caps: Caps, scope: Option<string>): real
    requires Enforced(caps, scope)
  {
    if scope.None? then caps.maxDaily else caps.maxEvent.value
  }

  // Neither the ledger nor the committed charge is above the bound.
  ghost predicate Under(w: World, scope: Option<string>, bound: real) {
    Charge(w.rows, w.today, scope) <= bound && (w.usage.Some? ==> w.usage.value.In(w.today, scope) <= bound)
  }

  lemma ReserveUnder(w: World, scope: Option<string>, bound: real)
    requires Safe(w, scope) && Under(w, scope, bound) && CapOf(w.caps, scope) <= bound
    requires w.usage.Some? && w.phase.Writing?
    ensures Under(Apply(w, Reserve), scope, bound)
  {
    var c, s, u := w.phase.c, w.phase.s, w.usage.value;
    if !IsDuplicate(s.outcome) {
      var g := u.Grant(w.caps, w.today, Requested(s, c), Some(c.ref));
      if g.Some? { ChargedReads(u, w.today, g.value, c.ref, if scope.Some? then scope.value else c.ref); }
    }
  }

  lemma StepUnder(w: World, a: Action, scope: Option<string>, bound: real)
    requires Safe(w, scope) && Under(w, scope, bound) && CapOf(w.caps, scope) <= bound && bound >= 0.0
    requires a.Begin? ==> Reaches(a.c, scope)
    ensures Under(Apply(w, a), scope, bound)
  {
    StepSafe(w, a, scope);
    if w.usage.None? {
      if a.Restart? && w.today <= a.day {
        RestartMoves(w, a.day, scope);
        if w.today < a.day { LaterDay(w.rows, w.today, a.day, scope); }
      }
    } else if a.Reserve? && w.phase.Writing? {
      ReserveUnder(w, scope, bound);
    } else if a.Abort? && (w.phase.Holding? || w.phase.Finalizing?) {
      AbortMoves(w, scope);
    } else if a.Commit? && w.phase.Finalizing? {
      CommitMoves(w, scope);
    } else if !a.Reserve? && !a.Crash? {
      QuietMoves(w, a, scope);
    }
  }

  // Over every run, across failures, crashes, restarts and days, neither the ledger
  // nor the committed charge of the current day rises above the cap, or above what
  // was there at the start when that was more.
  lemma {:induction false} CapHoldsForever(w: World, actions: seq<Action>, scope: Option<string>, bound: real)
    requires Safe(w, scope) && AllReach(actions, scope)
    requires Under(w, scope, bound) && CapOf(w.caps, scope) <= bound && bound >= 0.0
    ensures Under(Run(w, actions), scope, bound)
  {
    if actions != [] {
      var init := actions[..|actions| - 1];
      CapHoldsForever(w, init, scope, bound);
      RunSafe(w, init, scope);
      StepUnder(Run(w, init), actions[|actions| - 1], scope, bound);
    }
  }

  // ----- the call is a run of the small steps ----------------------------

  // The steps a call takes, by where it fails.
  function CallActions(caps: Caps, rows: seq<PickRow>, usage: Usage, c: Candidate, day: Day,
                       fault: Fault): seq<Action> {
    var s := PersistPick(rows, c, Premium, day);
    if fault.Fails? && fault.at.AtPersist? then [Begin(c), Abort]
    else if IsDuplicate(s.outcome) then
      if fault.Fails? && fault.at.AtCommit? then [Begin(c), Abort] else [Begin(c), Commit]
    else if usage.Grant(caps, day, Requested(s, c), Some(c.ref)).None? then [Begin(c), Reserve]
    else if fault.NoFault? then [Begin(c), Reserve, Update, Commit]
    else if fault.at.AtUpdate? then [Begin(c), Reserve, Abort]
    else [Begin(c), Reserve, Update, Abort]
  }

  // A call that ends before it reserves.
  lemma ShortCallIsARun(w: World, c: Candidate, fault: Fault)
    requires w.usage.Some? && w.phase.Idle?
    requires var s := PersistPick(w.rows, c, Premium, w.today);
             || (fault.Fails? && fault.at.AtPersist?) || IsDuplicate(s.outcome)
             || w.usage.value.Grant(w.caps, w.today, Requested(s, c), Some(c.ref)).None?
    ensures var e := PersistAndReserve(w.caps, w.rows, w.usage.value, c, w.today, fault);
            Run(w, CallActions(w.caps, w.rows, w.usage.value, c, w.today, fault))
              == w.(rows := e.rows, usage := Some(e.usage))
  {
    var s := PersistPick(w.rows, c, Premium, w.today);
    assert Apply(w, Begin(c)) == w.(phase := Writing(c, s));
    if fault.Fails? && fault.at.AtPersist? {
      RunTwo(w, Begin(c), Abort);
    } else if IsDuplicate(s.outcome) {
      RunTwo(w, Begin(c), if fault.Fails? && fault.at.AtCommit? then Abort else Commit);
    } else {
      RunTwo(w, Begin(c), Reserve);
    }
  }

  // Running them from an idle process does what the call does, and ends idle.
  lemma CallIsARun(w: World, c: Candidate, fault: Fault)
    requires w.usage.Some? && w.phase.Idle?
    ensures var e := PersistAndReserve(w.caps, w.rows, w.usage.value, c, w.today, fault);
            Run(w, CallActions(w.caps, w.rows, w.usage.value, c, w.today, fault))
              == w.(rows := e.rows, usage := Some(e.usage))
  {
    var u := w.usage.value;
    var s := PersistPick(w.rows, c, Premium, w.today);
    var g := u.Grant(w.caps, w.today, Requested(s, c), Some(c.ref));
    if (fault.Fails? && fault.at.AtPersist?) || IsDuplicate(s.outcome) || g.None? {
      ShortCallIsARun(w, c, fault);
    } else {
      var w2 := w.(usage := Some(u.Charged(w.today, g.value, Some(c.ref))), phase := Holding(c, s, g.value));
      assert Apply(w.(phase := Writing(c, s)), Reserve) == w2;
      CallEndsFromHolding(w, w2, s, c, g.value, fault);
    }
  }

  lemma CallEndsFromHolding(w: World, w2: World, s: Staged, c: Candidate, granted: real, fault: Fault)
    requires w.phase.Idle? && s.index < |s.rows|
    requires w2.usage.Some? && w2.phase == Holding(c, s, granted)
    requires w2 == Apply(Apply(w, Begin(c)), Reserve)
    ensures fault.NoFault? ==>
      Run(w, [Begin(c), Reserve, Update, Commit])
        == w2.(rows := Finalize(s, c, w2.today, granted).rows, phase := Idle)
    ensures var undone := w2.(usage := Some(w2.usage.value.Released(w2.today, granted, Some(c.ref))), phase := Idle);
            && Run(w, [Begin(c), Reserve, Abort]) == undone
            && Run(w, [Begin(c), Reserve, Update, Abort]) == undone
  {
    RunFour(w, Begin(c), Reserve, Update, Commit);
    RunThree(w, Begin(c), Reserve, Abort);
    RunFour(w, Begin(c), Reserve, Update, Abort);
    UpdateThenEnd(w2, s, c, granted);
  }

  lemma UpdateThenEnd(w2: World, s: Staged, c: Candidate, granted: real)
    requires s.index < |s.rows| && w2.usage.Some? && w2.phase == Holding(c, s, granted)
    ensures Apply(Apply(w2, Update), Commit) == w2.(rows := Finalize(s, c, w2.today, granted).rows, phase := Idle)
    ensures Apply(w2, Abort) == Apply(Apply(w2, Update), Abort)
         == w2.(usage := Some(w2.usage.value.Released(w2.today, granted, Some(c.ref))), phase := Idle)
  {
    var w3 := w2.(phase := Finalizing(c, s, granted, Finalize(s, c, w2.today, granted)));
    assert Apply(w2, Update) == w3;
  }

  lemma RunTwo(w: World, a: Action, b: Action)
    ensures Run(w, [a, b]) == Apply(Apply(w, a), b)
  {
    assert [a, b][..1] == [a] && [a][..0] == [];
    assert Run(w, [a]) == Apply(w, a);
  }

  lemma RunThree(w: World, a: Action, b: Action, c: Action)
    ensures Run(w, [a, b, c]) == Apply(Apply(Apply(w, a), b), c)
  {
    assert [a, b, c][..2] == [a, b];
    RunTwo(w, a, b);
  }

  lemma RunFour(w: World, a: Action, b: Action, c: Action, d: Action)
    ensures Run(w, [a, b, c, d]) == Apply(Apply(Apply(Apply(w, a), b), c), d)
  {
    assert [a, b, c, d][..3] == [a, b, c];
    RunThree(w, a, b, c);
  }

  // Settling a pick closes it and gives no exposure back,
  lemma ClosedStaysCharged(w: World, i: nat, scope: Option<string>)
    requires w.usage.Some? && w.phase.Idle? && i < |w.rows|
    ensures var v := Apply(w, Close(i));
            && v == w.(rows := v.rows) && v.rows == w.rows[i := w.rows[i].(status := Closed)]
            && Charge(v.rows, w.today, scope) == Charge(w.rows, w.today, scope)
  {
    ChargeUpdate(w.rows, i, w.rows[i].(status := Closed), w.today, scope);
  }

  // and the next day starts without any, in the table and in an agreeing ledger.
  lemma NextDayStartsEmpty(w: World, d: Day, scope: Option<string>)
    requires Exact(w, scope) && w.usage.Some? && w.phase.Idle? && w.today < d
    ensures var v := Apply(w, NextDay(d));
            && v == w.(today := d) && Charge(v.rows, d, scope) == 0.0 && v.usage.value.In(d, scope) == 0.0
  {
    LaterDay(w.rows, w.today, d, scope);
    StepExact(w, NextDay(d), scope);
  }

  // ----- what a committed pick keeps --------------------------------------

  // No row disappears or changes key, a premium row stays premium, and its
  // recommended stake never drops.
  ghost predicate Ratchets(before: seq<PickRow>, after: seq<PickRow>) {
    && |before| <= |after|
    && forall i :: 0 <= i < |before| ==>
         && after[i].key == before[i].key
         && (before[i].tier.Premium? ==> after[i].tier.Premium? && after[i].stake >= before[i].stake)
  }

  lemma CommitRatchets(rows: seq<PickRow>, c: Candidate, day: Day, granted: real)
    requires RowsOk(rows, day) && granted >= 0.0
    requires !IsDuplicate(PersistPick(rows, c, Premium, day).outcome)
    ensures Ratchets(rows, Finalize(PersistPick(rows, c, Premium, day), c, day, granted).rows)
  {
    var s := PersistPick(rows, c, Premium, day);
    var f := Finalize(s, c, day, granted).rows;
    forall i | 0 <= i < |rows|
      ensures f[i].key == rows[i].key
      ensures rows[i].tier.Premium? ==> f[i].tier.Premium? && f[i].stake >= rows[i].stake
    {
      if i == s.index { assert f[i].key == s.rows[i].key; }
    }
  }

  lemma StepRatchets(w: World, a: Action)
    requires Sound(w)
    ensures Ratchets(w.rows, Apply(w, a).rows)
  {
    if a.Commit? && w.phase.Finalizing? {
      CommitRatchets(w.rows, w.phase.c, w.today, w.phase.granted);
    } else if a.WriteVolume? && w.phase.Idle? {
      var v := PersistPick(w.rows, a.c, Volume, w.today).rows;
      assert forall i :: 0 <= i < |w.rows| ==>
        v[i].key == w.rows[i].key && v[i].tier == w.rows[i].tier && v[i].stake == w.rows[i].stake;
    }
  }

  lemma {:induction false} RunRatchets(w: World, actions: seq<Action>)
    requires Sound(w)
    ensures Ratchets(w.rows, Run(w, actions).rows) && Sound(Run(w, actions))
  {
    if actions != [] {
      var init := actions[..|actions| - 1];
      RunRatchets(w, init);
      StepSound(Run(w, init), actions[|actions| - 1]);
      StepRatchets(Run(w, init), actions[|actions| - 1]);
      var m := Run(w, init).rows;
      var z := Run(w, actions).rows;
      forall i | 0 <= i < |w.rows|
        ensures z[i].key == w.rows[i].key
        ensures w.rows[i].tier.Premium? ==> z[i].tier.Premium? && z[i].stake >= w.rows[i].stake
      {
        assert m[i].key == w.rows[i].key && z[i].key == m[i].key;
      }
    }
  }
}
