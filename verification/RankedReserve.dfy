// One cycle's premium candidates, ranked by raw Kelly and reserved in turn.

module RankedReserve {
  import opened Common
  import opened Ledger
  import opened StakeCommit

  predicate HigherKelly(a: Candidate, b: Candidate) { a.rawKelly > b.rawKelly }

  // The order of the reserve loop: a stable sort, highest raw Kelly first.
  function Ranked(cs: seq<Candidate>): seq<Candidate> {
    StableSort(cs, HigherKelly)
  }

  // Ranking rearranges the candidates, never lets a lower raw Kelly go first,
  // and keeps candidates of equal raw Kelly in their input order.
  lemma RankedIsFair(cs: seq<Candidate>, kelly: real)
    ensures var r := Ranked(cs);
            && multiset(r) == multiset(cs)
            && (forall i, j :: 0 <= i < j < |r| ==> r[i].rawKelly >= r[j].rawKelly)
            && Filter((c: Candidate) => c.rawKelly == kelly, r)
               == Filter((c: Candidate) => c.rawKelly == kelly, cs)
  {
    StableSortIsSort(cs, HigherKelly);
    StableSortIsStable(cs, HigherKelly, (c: Candidate) => c.rawKelly == kelly);
  }

  // A cycle over candidates in reserve order; `faults[i]` is what goes wrong in
  // the i-th call.
  datatype Cycle = Cycle(caps: Caps, rows: seq<PickRow>, usage: Usage, day: Day,
                         order: seq<Candidate>, faults: seq<Fault>)
  {
    ghost predicate Valid() { |faults| == |order| && usage.Used(day) >= 0.0
                              && forall e :: usage.EventUsed(day, e) >= 0.0 }

    function TableBefore(n: nat): seq<PickRow>
      requires n <= |order| && |faults| == |order|
      decreases n, 0
    {
      if n == 0 then rows else Effect(n - 1).rows
    }

    function UsageBefore(n: nat): Usage
      requires n <= |order| && |faults| == |order|
      decreases n, 0
    {
      if n == 0 then usage else Effect(n - 1).usage
    }

    function Effect(n: nat): CallEffect
      requires n < |order| == |faults|
      decreases n, 1
    {
      PersistAndReserve(caps, TableBefore(n), UsageBefore(n), order[n], day, faults[n])
    }

    // What the first n calls committed, in total or for one event.
    function Committed(n: nat, scope: Option<string>): real
      requires n <= |order| == |faults|
    {
      if n == 0 then 0.0
      else Committed(n - 1, scope)
           + (if scope.None? || scope.value == order[n - 1].ref then Effect(n - 1).committed else 0.0)
    }
  }

  lemma CallAccounts(caps: Caps, rows: seq<PickRow>, u: Usage, c: Candidate, day: Day, f: Fault, e: string)
    requires u.Used(day) >= 0.0 && u.EventUsed(day, c.ref) >= 0.0
    ensures var x := PersistAndReserve(caps, rows, u, c, day, f);
            && 0.0 <= x.committed <= u.Remaining(caps, day)
            && (caps.maxEvent.Some? ==> x.committed <= u.EventRemaining(caps, day, c.ref))
            && x.usage.Used(day) == u.Used(day) + x.committed
            && x.usage.EventUsed(day, e)
                 == u.EventUsed(day, e) + (if e == c.ref then x.committed else 0.0)
  {
    var s := PersistPick(rows, c, Premium, day);
    if !IsDuplicate(s.outcome) {
      var g := u.Grant(caps, day, Requested(s, c), Some(c.ref));
      if g.Some? { ReleaseUndoesCharge(u, day, g.value, Some(c.ref)); }
    }
  }

  // The ledger counts exactly what was committed: failed calls leave no trace.
  lemma {:induction false} CycleAccounts(k: Cycle, n: nat, e: string)
    requires k.Valid() && n <= |k.order|
    ensures k.UsageBefore(n).Used(k.day) == k.usage.Used(k.day) + k.Committed(n, None)
    ensures k.UsageBefore(n).EventUsed(k.day, e) == k.usage.EventUsed(k.day, e) + k.Committed(n, Some(e))
    ensures k.Committed(n, None) >= 0.0 && k.Committed(n, Some(e)) >= 0.0
  {
    if n > 0 {
      CycleAccounts(k, n - 1, e);
      CycleAccounts(k, n - 1, k.order[n - 1].ref);
      CallAccounts(k.caps, k.TableBefore(n - 1), k.UsageBefore(n - 1), k.order[n - 1], k.day, k.faults[n - 1], e);
    }
  }

  // One call commits no more than the day and its event have left.
  lemma EffectFits(k: Cycle, n: nat)
    requires k.Valid() && n < |k.order|
    ensures var u, x := k.UsageBefore(n), k.Effect(n).committed;
            && 0.0 <= x <= u.Remaining(k.caps, k.day)
            && (k.caps.maxEvent.Some? ==> x <= u.EventRemaining(k.caps, k.day, k.order[n].ref))
  {
    CycleAccounts(k, n, k.order[n].ref);
    CallAccounts(k.caps, k.TableBefore(n), k.UsageBefore(n), k.order[n], k.day, k.faults[n], "");
  }

  // One more grant within the room left stays within the room there was.
  lemma RoomStep(cap: real, used: real, taken: real, more: real)
    requires 0.0 <= taken <= MaxR(cap - used, 0.0) && 0.0 <= more <= MaxR(cap - (used + taken), 0.0)
    ensures taken + more <= MaxR(cap - used, 0.0)
  {
  }

  // What the first n calls committed, one call at a time.
  lemma CommittedNext(k: Cycle, n: nat, scope: Option<string>)
    requires k.Valid() && n < |k.order|
    ensures k.Committed(n + 1, scope) == k.Committed(n, scope)
              + (if scope.None? || scope.value == k.order[n].ref then k.Effect(n).committed else 0.0)
  {
  }

  // Over any cycle, whatever fails: the committed grants fit the room the day
  // had left, and each event's fit the room the event had left.
  lemma {:induction false} CapsHold(k: Cycle, n: nat, e: string)
    requires k.Valid() && n <= |k.order|
    ensures k.Committed(n, None) <= k.usage.Remaining(k.caps, k.day)
    ensures k.caps.maxEvent.Some? ==>
              k.Committed(n, Some(e)) <= k.usage.EventRemaining(k.caps, k.day, e)
    decreases n, 1
  {
    if n > 0 {
      DayStepHolds(k, n - 1, e);
      if k.caps.maxEvent.Some? { EventStepHolds(k, n - 1, e); }
    }
  }

  lemma DayStepHolds(k: Cycle, n: nat, e: string)
    requires k.Valid() && n < |k.order|
    ensures k.Committed(n + 1, None) <= k.usage.Remaining(k.caps, k.day)
    decreases n, 2
  {
    CapsHold(k, n, e);
    CycleAccounts(k, n, e);
    EffectFits(k, n);
    CommittedNext(k, n, None);
    RoomStep(k.caps.maxDaily, k.usage.Used(k.day), k.Committed(n, None), k.Effect(n).committed);
  }

  lemma EventStepHolds(k: Cycle, n: nat, e: string)
    requires k.Valid() && n < |k.order| && k.caps.maxEvent.Some?
    ensures k.Committed(n + 1, Some(e)) <= k.usage.EventRemaining(k.caps, k.day, e)
    decreases n, 2
  {
    CapsHold(k, n, e);
    CycleAccounts(k, n, e);
    CommittedNext(k, n, Some(e));
    if e == k.order[n].ref {
      EffectFits(k, n);
      RoomStep(k.caps.maxEvent.value, k.usage.EventUsed(k.day, e), k.Committed(n, Some(e)), k.Effect(n).committed);
    }
  }

  // The n-th call committed less than it asked for, and not because of its event.
  predicate ClippedByDay(k: Cycle, n: nat)
    requires n < |k.order| == |k.faults|
  {
    var s := PersistPick(k.TableBefore(n), k.order[n], Premium, k.day);
    && k.faults[n].NoFault? && !IsDuplicate(s.outcome)
    && k.Effect(n).committed < Requested(s, k.order[n])
    && (k.caps.maxEvent.Some? ==>
          k.Effect(n).committed < k.UsageBefore(n).EventRemaining(k.caps, k.day, k.order[n].ref))
  }

  // Then it took all the room of the day.
  lemma ClippedTakesTheDay(k: Cycle, n: nat)
    requires k.Valid() && n < |k.order| && ClippedByDay(k, n)
    ensures k.Effect(n).committed == k.UsageBefore(n).Remaining(k.caps, k.day)
  {
    var u, c := k.UsageBefore(n), k.order[n];
    var s := PersistPick(k.TableBefore(n), c, Premium, k.day);
    assert u.Grant(k.caps, k.day, Requested(s, c), Some(c.ref)) == Some(k.Effect(n).committed);
  }

  lemma UsedNext(k: Cycle, n: nat)
    requires k.Valid() && n < |k.order|
    ensures k.UsageBefore(n + 1).Used(k.day) == k.UsageBefore(n).Used(k.day) + k.Effect(n).committed
    ensures k.Effect(n).committed >= 0.0
  {
    CycleAccounts(k, n, k.order[n].ref);
    CallAccounts(k.caps, k.TableBefore(n), k.UsageBefore(n), k.order[n], k.day, k.faults[n], "");
  }

  // Later calls never start from less than an earlier one started from.
  lemma {:induction false} UsedGrows(k: Cycle, m: nat, n: nat)
    requires k.Valid() && m <= n <= |k.order|
    ensures k.UsageBefore(m).Used(k.day) <= k.UsageBefore(n).Used(k.day)
  {
    if m < n {
      UsedGrows(k, m, n - 1);
      UsedNext(k, n - 1);
    }
  }

  // Once a call has used up the day, nothing is left for a later one.
  lemma UsedUp(k: Cycle, i: nat, j: nat)
    requires k.Valid() && i < j < |k.order|
    requires k.Effect(i).committed == k.UsageBefore(i).Remaining(k.caps, k.day)
    ensures k.UsageBefore(j).Remaining(k.caps, k.day) == 0.0
  {
    UsedNext(k, i);
    UsedGrows(k, i + 1, j);
    NoRoomLeft(k.caps.maxDaily, k.UsageBefore(i).Used(k.day), k.UsageBefore(j).Used(k.day), k.Effect(i).committed);
  }

  lemma NoRoomLeft(cap: real, used: real, later: real, taken: real)
    requires taken == MaxR(cap - used, 0.0) && later >= used + taken
    ensures MaxR(cap - later, 0.0) == 0.0
  {
  }

  // After that every lower-ranked candidate is granted nothing.
  lemma ClippedStarvesTheRest(k: Cycle, i: nat, j: nat)
    requires k.Valid() && i < j < |k.order| && ClippedByDay(k, i)
    ensures k.Effect(j).committed == 0.0
  {
    ClippedTakesTheDay(k, i);
    UsedUp(k, i, j);
    EffectFits(k, j);
  }

  // The stake and tier a granted delta leaves on the staged row.
  lemma FinalizedStake(s: Staged, c: Candidate, day: Day, granted: real)
    requires s.index < |s.rows| && 0.0 <= granted <= Requested(s, c)
    requires s.rows[s.index].key == c.key && s.rows[s.index].tier == Premium
    requires s.outcome == Repriced ==> s.previous > 0.0
    ensures var f := Finalize(s, c, day, granted);
            var r := f.rows[s.index];
            && r.key == c.key
            && (f.staked.Some? ==> f.staked.value == (r.stake, r.clipped) && r.tier.Premium? && r.stake > 0.0)
            && (f.staked.None? ==> r.tier.Volume? && r.stake == 0.0 && granted == 0.0)
            && (s.outcome.Repriced? ==> s.previous <= r.stake <= MaxR(s.previous, c.final))
            && (!s.outcome.Repriced? ==> r.stake == granted <= c.final)
  {
  }

  // ----- the finalized stake ----------------------------------------------

  // The row a committed call leaves for its candidate carries the stake the
  // alert quotes. Re-pricing never lowers the committed stake, and never lifts
  // it above the larger of the old stake and the Kelly target.
  lemma CommittedStake(caps: Caps, rows: seq<PickRow>, u: Usage, c: Candidate, day: Day)
    ensures var s := PersistPick(rows, c, Premium, day);
            var x := PersistAndReserve(caps, rows, u, c, day, NoFault);
            !IsDuplicate(s.outcome) && x.result.outcome != Unpersisted ==>
              && s.index < |x.rows|
              && var r := x.rows[s.index];
                 && r.key == c.key
                 && (x.result.staked.Some? ==>
                       x.result.staked.value == (r.stake, r.clipped) && r.tier.Premium? && r.stake > 0.0)
                 && (x.result.staked.None? ==> r.tier.Volume? && r.stake == 0.0 && x.committed == 0.0)
                 && (s.outcome.Repriced? ==> s.previous <= r.stake <= MaxR(s.previous, c.final))
                 && (!s.outcome.Repriced? ==> r.stake == x.committed <= c.final)
  {
    var s := PersistPick(rows, c, Premium, day);
    if !IsDuplicate(s.outcome) {
      StagedBy(rows, c, day);
      var grant := u.Grant(caps, day, Requested(s, c), Some(c.ref));
      if grant.Some? { FinalizedStake(s, c, day, grant.value); }
    }
  }

  // `daily_clipped` says "the committed total is below the target" for every
  // call except one: a new pick whose Kelly target is already zero is flagged
  // as clipped although nothing was withheld from it.
  lemma ClippedFlagIff(caps: Caps, rows: seq<PickRow>, u: Usage, c: Candidate, day: Day)
    requires !IsDuplicate(PersistPick(rows, c, Premium, day).outcome)
    requires PersistAndReserve(caps, rows, u, c, day, NoFault).result.outcome != Unpersisted
    ensures var s := PersistPick(rows, c, Premium, day);
            var x := PersistAndReserve(caps, rows, u, c, day, NoFault);
            && s.index < |x.rows|
            && var r := x.rows[s.index];
               ((r.clipped <==> r.stake < c.final) <==> (s.outcome.Repriced? || c.final != 0.0))
  {
    CommittedStake(caps, rows, u, c, day);
  }

  // Such a pick: nothing asked, nothing granted, and flagged.
  lemma ZeroTargetIsFlagged(key: PickKey)
    ensures var c := Candidate(key, key.event, 2.0, "A", 0.0, 0.0);
            var x := PersistAndReserve(Caps(1.0, None), [], NO_USAGE, c, 7, NoFault);
            x.result == Returned(Inserted, None) && x.committed == 0.0
            && |x.rows| == 1 && x.rows[0].stake == c.final && x.rows[0].clipped
  {
    StagedInsert([], Candidate(key, key.event, 2.0, "A", 0.0, 0.0), 7);
  }

  // ----- the loop ------------------------------------------------------------

  datatype Alert = Alert(c: Candidate, stake: real, isNew: bool)

  // The alert a call leads to: none when the write failed, when the cap granted
  // nothing, or when the row carries an earlier denial.
  function AlertOf(c: Candidate, r: CallResult): Option<Alert> {
    if r.Returned? && !r.outcome.Unpersisted? && r.staked.Some?
    then Some(Alert(c, r.staked.value.0, r.outcome.Inserted? || r.outcome.Upgraded?))
    else None
  }

  lemma KeysKept(rows: seq<PickRow>, c: Candidate, day: Day)
    requires !IsDuplicate(PersistPick(rows, c, Premium, day).outcome)
    ensures var s := PersistPick(rows, c, Premium, day);
            s.index < |s.rows| && IndexOf(s.rows, c.key) == s.index && s.rows[s.index].key == c.key
  {
    var s := PersistPick(rows, c, Premium, day);
    StagedBy(rows, c, day);
    forall j | 0 <= j < s.index ensures s.rows[j].key != c.key { assert s.rows[j].key == rows[j].key; }
  }

  // What a candidate's row looks like once a call committed a stake for it.
  lemma CommittedRow(caps: Caps, rows: seq<PickRow>, u: Usage, c: Candidate, day: Day)
    requires !IsDuplicate(PersistPick(rows, c, Premium, day).outcome)
    requires PersistAndReserve(caps, rows, u, c, day, NoFault).result.staked.Some?
    ensures var x := PersistAndReserve(caps, rows, u, c, day, NoFault);
            var i := IndexOf(x.rows, c.key);
            && i < |x.rows|
            && var r := x.rows[i];
               && r.tier.Premium? && r.status.Alerted? && r.odds == c.odds && r.book == c.book
               && r.stake == x.result.staked.value.0 > 0.0
  {
    var s := PersistPick(rows, c, Premium, day);
    var x := PersistAndReserve(caps, rows, u, c, day, NoFault);
    KeysKept(rows, c, day);
    CommittedStake(caps, rows, u, c, day);
    StagedRow(rows, c, day);
    forall j | 0 <= j < s.index ensures x.rows[j].key != c.key { assert x.rows[j] == s.rows[j]; }
    assert x.rows[s.index].key == c.key;
  }

  lemma StagedRow(rows: seq<PickRow>, c: Candidate, day: Day)
    requires !IsDuplicate(PersistPick(rows, c, Premium, day).outcome)
    ensures var s := PersistPick(rows, c, Premium, day);
            var r := s.rows[s.index];
            r.tier.Premium? && r.status.Alerted? && r.odds == c.odds && r.book == c.book
  {
    var i := IndexOf(rows, c.key);
    if i == |rows| {
      StagedInsert(rows, c, day);
    } else if rows[i].tier.Volume? && rows[i].status.Alerted? {
      var up := rows[i].(tier := Premium, odds := c.odds, book := c.book, stake := c.final, clipped := false,
                         createdOn := day);
      assert !OlderVersion(up, c.key, Premium);
    }
  }

  // The alert of a call quotes the stake of its row, except for a re-detection: that
  // one quotes the target, which the row need not carry.
  lemma AlertQuotesRowIff(caps: Caps, rows: seq<PickRow>, u: Usage, c: Candidate, day: Day)
    requires AlertOf(c, PersistAndReserve(caps, rows, u, c, day, NoFault).result).Some?
    ensures var x := PersistAndReserve(caps, rows, u, c, day, NoFault);
            var i := IndexOf(x.rows, c.key);
            && i < |x.rows|
            && (AlertOf(c, x.result).value.stake == x.rows[i].stake <==>
                  x.result.outcome != Duplicate || x.rows[i].stake == c.final)
  {
    if !IsDuplicate(PersistPick(rows, c, Premium, day).outcome) { CommittedRow(caps, rows, u, c, day); }
  }

  // An alert that was lost comes back: while the row stands, detecting the pick again
  // at the same price of the same book alerts it, commits nothing and moves nothing. It
  // comes back at the target of that moment, not at the committed stake.
  lemma LostAlertReturns(caps: Caps, rows: seq<PickRow>, u: Usage, c: Candidate, day: Day, again: Candidate,
                         later: Day, v: Usage)
    requires AlertOf(c, PersistAndReserve(caps, rows, u, c, day, NoFault).result).Some?
    requires again.key == c.key && again.odds == c.odds && again.book == c.book
    requires PersistPick(rows, c, Premium, day).outcome != Duplicate
    ensures var x := PersistAndReserve(caps, rows, u, c, day, NoFault);
            var y := PersistAndReserve(caps, x.rows, v, again, later, NoFault);
            && AlertOf(again, y.result) == Some(Alert(again, again.final, false))
            && y.rows == x.rows && y.usage == v && y.committed == 0.0
  {
    CommittedRow(caps, rows, u, c, day);
  }

  // Under a daily cap of 0.01 a target of 0.03 is committed and alerted at 0.01, and
  // alerted at 0.03 when it is detected again.
  lemma RedetectionQuotesTarget(key: PickKey)
    ensures var caps, c := Caps(0.01, None), Candidate(key, key.event, 2.0, "A", 0.03, 0.1);
            var x := PersistAndReserve(caps, [], NO_USAGE, c, 7, NoFault);
            var y := PersistAndReserve(caps, x.rows, x.usage, c, 7, NoFault);
            && |x.rows| == 1 && x.rows[0].stake == 0.01 && y.rows == x.rows
            && AlertOf(c, x.result) == Some(Alert(c, 0.01, true)) && AlertOf(c, y.result) == Some(Alert(c, 0.03, false))
  {
    var caps, c := Caps(0.01, None), Candidate(key, key.event, 2.0, "A", 0.03, 0.1);
    StagedInsert([], c, 7);
    var x := PersistAndReserve(caps, [], NO_USAGE, c, 7, NoFault);
    assert x.result.staked == Some((0.01, true));
    LostAlertReturns(caps, [], NO_USAGE, c, 7, c, 7, x.usage);
  }

  function Alerts(k: Cycle, n: nat): seq<Alert>
    requires n <= |k.order| == |k.faults|
  {
    if n == 0 then []
    else
      var a := AlertOf(k.order[n - 1], k.Effect(n - 1).result);
      if a.Some? then Alerts(k, n - 1) + [a.value] else Alerts(k, n - 1)
  }

  lemma AlertsNext(k: Cycle, n: nat)
    requires n < |k.order| == |k.faults|
    ensures Alerts(k, n + 1) ==
            match AlertOf(k.order[n], k.Effect(n).result) case Some(a) => Alerts(k, n) + [a] case None => Alerts(k, n)
  {
  }

  // The n-th call of the cycle, the alert it leads to, and whether it was cancelled.
  method CallNth(ledger: DailyExposureLedger, table: PickTable, ghost k: Cycle, n: nat, c: Candidate, fault: Fault,
                 day: Day)
    returns (alert: Option<Alert>, cancelled: bool)
    requires n < |k.order| == |k.faults| && day == k.day && c == k.order[n] && fault == k.faults[n]
    requires ledger.caps == k.caps && table.rows == k.TableBefore(n) && ledger.State() == k.UsageBefore(n)
    modifies ledger, table
    ensures table.rows == k.TableBefore(n + 1) && ledger.State() == k.UsageBefore(n + 1)
    ensures Alerts(k, n + 1) == if alert.Some? then Alerts(k, n) + [alert.value] else Alerts(k, n)
    ensures cancelled == k.Effect(n).result.CancelledCall?
  {
    var result := PersistAndReserveCall(ledger, table, c, day, fault);
    alert, cancelled := AlertOf(c, result), result.CancelledCall?;
    AlertsNext(k, n);
  }

  // The reserve loop. A cancelled child ends it, and so does a cancellation of the
  // caller: held back by the shield, it surfaces after call `interrupt` is over but
  // before its alert is out. Everything committed until then stands.
  method ReserveInOrder(ledger: DailyExposureLedger, table: PickTable, order: seq<Candidate>,
                        faults: seq<Fault>, interrupt: Option<nat>, day: Day, ghost k: Cycle)
    returns (alerts: seq<Alert>, done: nat, cut: bool)
    requires |faults| == |order|
    requires k == Cycle(ledger.caps, table.rows, ledger.State(), day, order, faults)
    modifies ledger, table
    ensures done <= |order|
    ensures table.rows == k.TableBefore(done) && ledger.State() == k.UsageBefore(done)
    ensures cut <==> interrupt.Some? && interrupt.value < done
    ensures cut ==> done == interrupt.value + 1
    ensures alerts == Alerts(k, if cut then done - 1 else done)
    ensures done < |order| ==> cut || (done > 0 && k.Effect(done - 1).result.CancelledCall?)
  {
    alerts, done, cut := [], 0, false;
    while done < |order|
      invariant 0 <= done <= |order| && !cut
      invariant interrupt.Some? ==> done <= interrupt.value
      invariant table.rows == k.TableBefore(done) && ledger.State() == k.UsageBefore(done)
      invariant alerts == Alerts(k, done)
    {
      var alert, cancelled := CallNth(ledger, table, k, done, order[done], faults[done], day);
      if interrupt == Some(done) { return alerts, done + 1, true; }
      if alert.Some? { alerts := alerts + [alert.value]; }
      done := done + 1;
      if cancelled { return; }
    }
  }

  method ReserveRanked(ledger: DailyExposureLedger, table: PickTable, candidates: seq<Candidate>,
                       faults: seq<Fault>, interrupt: Option<nat>, day: Day)
    returns (alerts: seq<Alert>, done: nat, cut: bool)
    requires |faults| == |candidates|
    modifies ledger, table
    ensures |Ranked(candidates)| == |candidates| && done <= |candidates|
    ensures cut <==> interrupt.Some? && interrupt.value < done
    ensures cut ==> done == interrupt.value + 1
    ensures var k := Cycle(ledger.caps, old(table.rows), old(ledger.State()), day, Ranked(candidates), faults);
            && table.rows == k.TableBefore(done) && ledger.State() == k.UsageBefore(done)
            && alerts == Alerts(k, if cut then done - 1 else done)
            && (done < |candidates| ==> cut || (done > 0 && k.Effect(done - 1).result.CancelledCall?))
  {
    StableSortIsSort(candidates, HigherKelly);
    var ranked := Ranked(candidates);
    ghost var k := Cycle(ledger.caps, table.rows, ledger.State(), day, ranked, faults);
    alerts, done, cut := ReserveInOrder(ledger, table, ranked, faults, interrupt, day, k);
  }

  // An interruption loses at most the alert of the call it follows, never a
  // reservation: what the calls committed is in the ledger, alert or not.
  lemma InterruptKeepsReservations(k: Cycle, n: nat, e: string)
    requires k.Valid() && n < |k.order|
    ensures k.UsageBefore(n + 1).Used(k.day) == k.usage.Used(k.day) + k.Committed(n + 1, None)
    ensures k.UsageBefore(n + 1).EventUsed(k.day, e) == k.usage.EventUsed(k.day, e) + k.Committed(n + 1, Some(e))
    ensures Alerts(k, n) <= Alerts(k, n + 1) && |Alerts(k, n + 1)| <= |Alerts(k, n)| + 1
  {
    CycleAccounts(k, n + 1, e);
  }
}
