// The stake commit protocol: one transaction inserts, upgrades or re-prices a
// pick, reserves its exposure and writes the durable charge; any failure before
// the commit releases the reservation. After a crash the ledger is rebuilt from
// the committed charges.

module StakeCommit {
  import opened Common
  import opened Ledger

  datatype Tier = Premium | Volume

  datatype Status = Alerted | Superseded | Closed

  // The natural key of the picks table.
  datatype PickKey = PickKey(event: string, market: string, detail: Option<string>,
                             selection: string, version: nat)

  datatype PickRow = PickRow(key: PickKey, tier: Tier, status: Status, odds: real, book: string,
                             stake: real, clipped: bool, createdOn: Day,
                             reservedOn: Option<Day>, reservedFraction: Option<real>)

  // A candidate pick: `ref` is the event reference the pipeline reserves under,
  // `key.event` the event row that reference resolves to, `final` the Kelly target.
  datatype Candidate = Candidate(key: PickKey, ref: string, odds: real, book: string,
                                 final: real, rawKelly: real)

  datatype Outcome = Inserted | Upgraded | Repriced | Duplicate | DuplicateDenied | Unpersisted

  // ----- the durable charge ---------------------------------------------

  predicate LegacyToday(r: PickRow, day: Day) { r.reservedOn.None? && r.createdOn == day }

  function RowCharge(r: PickRow, day: Day, scope: Option<string>): real {
    if r.tier.Volume? || (scope.Some? && r.key.event != scope.value) then 0.0
    else if r.reservedOn == Some(day) then r.reservedFraction.GetOr(0.0)
    else if LegacyToday(r, day) then r.stake
    else 0.0
  }

  // The committed premium charge of a day, in total or for one event.
  function Charge(rows: seq<PickRow>, day: Day, scope: Option<string>): real {
    if rows == [] then 0.0
    else Charge(rows[..|rows| - 1], day, scope) + RowCharge(rows[|rows| - 1], day, scope)
  }

  lemma {:induction false} ChargeAppend(rows: seq<PickRow>, r: PickRow, day: Day, scope: Option<string>)
    ensures Charge(rows + [r], day, scope) == Charge(rows, day, scope) + RowCharge(r, day, scope)
  {
    assert (rows + [r])[..|rows|] == rows;
  }

  lemma {:induction false} ChargeUpdate(rows: seq<PickRow>, i: nat, r: PickRow, day: Day, scope: Option<string>)
    requires i < |rows|
    ensures Charge(rows[i := r], day, scope)
         == Charge(rows, day, scope) - RowCharge(rows[i], day, scope) + RowCharge(r, day, scope)
  {
    var n := |rows| - 1;
    if i == n {
      assert rows[i := r][..n] == rows[..n];
    } else {
      assert rows[i := r][..n] == rows[..n][i := r];
      ChargeUpdate(rows[..n], i, r, day, scope);
    }
  }

  lemma {:induction false} ChargePointwise(a: seq<PickRow>, b: seq<PickRow>, day: Day, scope: Option<string>)
    requires |a| == |b|
    requires forall i :: 0 <= i < |a| ==> RowCharge(a[i], day, scope) == RowCharge(b[i], day, scope)
    ensures Charge(a, day, scope) == Charge(b, day, scope)
  {
    if a != [] { ChargePointwise(a[..|a| - 1], b[..|b| - 1], day, scope); }
  }

  lemma {:induction false} ChargeZero(rows: seq<PickRow>, day: Day, scope: Option<string>)
    requires forall i :: 0 <= i < |rows| ==> RowCharge(rows[i], day, scope) == 0.0
    ensures Charge(rows, day, scope) == 0.0
  {
    if rows != [] { ChargeZero(rows[..|rows| - 1], day, scope); }
  }

  lemma {:induction false} ChargeNonNegative(rows: seq<PickRow>, day: Day, scope: Option<string>)
    requires forall i :: 0 <= i < |rows| ==> RowCharge(rows[i], day, scope) >= 0.0
    ensures Charge(rows, day, scope) >= 0.0
  {
    if rows != [] { ChargeNonNegative(rows[..|rows| - 1], day, scope); }
  }

  // ----- persist_pick and update_pick_stake ------------------------------

  // Index of the row holding the key; |rows| when there is none.
  function IndexOf(rows: seq<PickRow>, key: PickKey): (i: nat)
    ensures i <= |rows|
    ensures i < |rows| ==> rows[i].key == key
    ensures forall j :: 0 <= j < i ==> rows[j].key != key
  {
    IndexFrom(rows, key, 0)
  }

  function IndexFrom(rows: seq<PickRow>, key: PickKey, from: nat): (i: nat)
    requires from <= |rows|
    ensures from <= i <= |rows|
    ensures i < |rows| ==> rows[i].key == key
    ensures forall j :: from <= j < i ==> rows[j].key != key
    decreases |rows| - from
  {
    if from == |rows| || rows[from].key == key then from else IndexFrom(rows, key, from + 1)
  }

  predicate OlderVersion(r: PickRow, key: PickKey, tier: Tier) {
    && r.key.(version := key.version) == key && r.key.version != key.version
    && r.status.Alerted? && (tier.Volume? ==> r.tier.Volume?)
  }

  function SupersedeOlder(rows: seq<PickRow>, key: PickKey, tier: Tier): (s: seq<PickRow>)
    ensures |s| == |rows|
    ensures forall i :: 0 <= i < |rows| ==> s[i].(status := rows[i].status) == rows[i]
  {
    seq(|rows|, i requires 0 <= i < |rows| =>
      if OlderVersion(rows[i], key, tier) then rows[i].(status := Superseded) else rows[i])
  }

  datatype Staged = Staged(rows: seq<PickRow>, outcome: Outcome, index: nat, previous: real)

  // The row a first write of the candidate leaves, before the stake is finalized.
  function Minted(c: Candidate, tier: Tier, day: Day): PickRow {
    PickRow(c.key, tier, Alerted, c.odds, c.book, c.final, false, day, None, None)
  }

  function PersistPick(rows: seq<PickRow>, c: Candidate, tier: Tier, day: Day): (s: Staged)
    ensures |rows| <= |s.rows| && (!s.outcome.Duplicate? && !s.outcome.DuplicateDenied? ==> s.index < |s.rows|)
  {
    var i := IndexOf(rows, c.key);
    if i == |rows| then
      Staged(SupersedeOlder(rows, c.key, tier) + [Minted(c, tier, day)], Inserted, i, 0.0)
    else
      var found := rows[i];
      if tier.Premium? && found.tier.Volume? && found.status.Alerted? then
        var up := found.(tier := Premium, odds := c.odds, book := c.book, stake := c.final,
                       clipped := false, createdOn := day);
        Staged(SupersedeOlder(rows[i := up], c.key, Premium), Upgraded, i, 0.0)
      else if found.stake <= 0.0 then
        Staged(rows, DuplicateDenied, i, 0.0)
      else if tier.Premium? && found.tier.Premium? && found.status.Alerted?
              && (found.odds != c.odds || found.book != c.book) then
        var moved := found.(odds := c.odds, book := c.book, stake := c.final, clipped := false);
        Staged(rows[i := moved], Repriced, i, found.stake)
      else
        Staged(rows, Duplicate, i, 0.0)
  }

  // Add a granted delta to the row's same-day charge; start afresh on a new day.
  function Recharged(r: PickRow, day: Day, delta: real): PickRow {
    if delta > 0.0 then
      if r.reservedOn == Some(day)
      then r.(reservedFraction := Some(r.reservedFraction.GetOr(0.0) + delta))
      else r.(reservedOn := Some(day), reservedFraction := Some(delta))
    else r
  }

  function Requested(s: Staged, c: Candidate): real {
    if s.outcome.Repriced? then MaxR(c.final - s.previous, 0.0) else c.final
  }

  // What the transaction is about to commit, and what the caller gets back.
  datatype Finalized = Finalized(rows: seq<PickRow>, staked: Option<(real, bool)>)

  function Finalize(s: Staged, c: Candidate, day: Day, granted: real): (f: Finalized)
    requires s.index < |s.rows|
    ensures |f.rows| == |s.rows|
  {
    var total := if s.outcome.Repriced? then s.previous + granted else granted;
    var r := s.rows[s.index];
    if total <= 0.0 && !s.outcome.Repriced? then
      Finalized(s.rows[s.index := r.(stake := 0.0, clipped := true, tier := Volume)], None)
    else
      Finalized(s.rows[s.index := Recharged(r.(stake := total, clipped := total < c.final), day, granted)],
                Some((total, total < c.final)))
  }

  predicate IsDuplicate(o: Outcome) { o.Duplicate? || o.DuplicateDenied? }

  // The row a staged candidate sits in, for each of the three ways to stage one.
  lemma StagedInsert(rows: seq<PickRow>, c: Candidate, day: Day)
    requires IndexOf(rows, c.key) == |rows|
    ensures var s := PersistPick(rows, c, Premium, day);
            s.outcome == Inserted && s.index == |rows| && s.rows[s.index] == Minted(c, Premium, day)
  {
    assert |SupersedeOlder(rows, c.key, Premium)| == |rows|;
  }

  lemma StagedUpgrade(rows: seq<PickRow>, c: Candidate, day: Day)
    requires PersistPick(rows, c, Premium, day).outcome == Upgraded
    ensures var s := PersistPick(rows, c, Premium, day);
            var r, found := s.rows[s.index], rows[s.index];
            && s.index == IndexOf(rows, c.key) < |rows| && found.tier == Volume && r.key == c.key
            && r.tier == Premium && r.stake == c.final
            && r.reservedOn == found.reservedOn && r.reservedFraction == found.reservedFraction
  {
    var i := IndexOf(rows, c.key);
    var up := rows[i].(tier := Premium, odds := c.odds, book := c.book, stake := c.final, clipped := false,
                       createdOn := day);
    var kept := SupersedeOlder(rows[i := up], c.key, Premium);
    assert kept[i].(status := up.status) == up;
  }

  lemma StagedReprice(rows: seq<PickRow>, c: Candidate, day: Day)
    requires PersistPick(rows, c, Premium, day).outcome == Repriced
    ensures var s := PersistPick(rows, c, Premium, day);
            var r, found := s.rows[s.index], rows[s.index];
            && s.index == IndexOf(rows, c.key) < |rows| && found.tier == Premium && r.key == c.key
            && r.tier == Premium && r.stake == c.final && r.createdOn == found.createdOn
            && r.reservedOn == found.reservedOn && r.reservedFraction == found.reservedFraction
            && s.previous == found.stake > 0.0
  {
  }

  lemma StagedBy(rows: seq<PickRow>, c: Candidate, day: Day)
    requires !IsDuplicate(PersistPick(rows, c, Premium, day).outcome)
    ensures var s := PersistPick(rows, c, Premium, day);
            var r := s.rows[s.index];
            && r.key == c.key && r.tier == Premium && r.stake == c.final && s.index == IndexOf(rows, c.key)
            && (s.index == |rows| ==> s.outcome == Inserted && r == Minted(c, Premium, day))
            && (s.index < |rows| ==>
                  && (s.outcome == Upgraded || s.outcome == Repriced)
                  && r.reservedOn == rows[s.index].reservedOn && r.reservedFraction == rows[s.index].reservedFraction)
            && (s.outcome == Upgraded ==> rows[s.index].tier == Volume)
            && (s.outcome == Repriced ==> rows[s.index].tier == Premium && r.createdOn == rows[s.index].createdOn
                                          && s.previous == rows[s.index].stake > 0.0)
  {
    if IndexOf(rows, c.key) == |rows| {
      StagedInsert(rows, c, day);
    } else if PersistPick(rows, c, Premium, day).outcome == Upgraded {
      StagedUpgrade(rows, c, day);
    } else {
      StagedReprice(rows, c, day);
    }
  }

  // ----- one call, with the await that fails -----------------------------

  datatype Await = AtPersist | AtUpdate | AtCommit

  // `cancelled` tells a task cancellation from an ordinary exception.
  datatype Fault = NoFault | Fails(at: Await, cancelled: bool)

  datatype CallResult = Returned(outcome: Outcome, staked: Option<(real, bool)>) | CancelledCall

  datatype CallEffect = CallEffect(rows: seq<PickRow>, usage: Usage, committed: real, result: CallResult)

  function Failed(rows: seq<PickRow>, usage: Usage, f: Fault): CallEffect {
    CallEffect(rows, usage, 0.0,
               if f.Fails? && f.cancelled then CancelledCall else Returned(Unpersisted, None))
  }

  // The whole of `_persist_and_reserve` as one function of table and ledger.
  function PersistAndReserve(caps: Caps, rows: seq<PickRow>, usage: Usage, c: Candidate,
                             day: Day, fault: Fault): CallEffect
  {
    if fault.Fails? && fault.at.AtPersist? then Failed(rows, usage, fault)
    else
      var s := PersistPick(rows, c, Premium, day);
      if IsDuplicate(s.outcome) then
        if fault.Fails? && fault.at.AtCommit? then Failed(rows, usage, fault)
        else CallEffect(s.rows, usage, 0.0,
                        Returned(s.outcome, if s.outcome.Duplicate? then Some((c.final, false)) else None))
      else
        var grant := usage.Grant(caps, day, Requested(s, c), Some(c.ref));
        if grant.None? then CallEffect(rows, usage, 0.0, Returned(Unpersisted, None))
        else
          var charged := usage.Charged(day, grant.value, Some(c.ref));
          if fault.Fails? then
            Failed(rows, charged.Released(day, grant.value, Some(c.ref)), fault)
          else
            var f := Finalize(s, c, day, grant.value);
            CallEffect(f.rows, charged, grant.value, Returned(s.outcome, f.staked))
  }

  // The durable table; a transaction works on a private copy until it commits.
  class PickTable {
    var rows: seq<PickRow>

    constructor (initial: seq<PickRow>)
      ensures rows == initial
    {
      rows := initial;
    }
  }

  // The call as the source runs it: a session's private copy, an awaited step at
  // a time, and a handler that hands back whatever was granted.
  method PersistAndReserveCall(ledger: DailyExposureLedger, table: PickTable, c: Candidate, day: Day, fault: Fault)
    returns (result: CallResult)
    modifies ledger, table
    ensures var e := PersistAndReserve(ledger.caps, old(table.rows), old(ledger.State()), c, day, fault);
            table.rows == e.rows && ledger.State() == e.usage && result == e.result
  {
    var granted := 0.0;
    var failure := if fault.Fails? && fault.cancelled then CancelledCall else Returned(Unpersisted, None);
    if fault.Fails? && fault.at.AtPersist? { return failure; }
    var session := PersistPick(table.rows, c, Premium, day);
    if session.outcome.DuplicateDenied? || session.outcome.Duplicate? {
      if fault.Fails? && fault.at.AtCommit? { return failure; }
      return Returned(session.outcome, if session.outcome.Duplicate? then Some((c.final, false)) else None);
    }
    var requested := c.final;
    if session.outcome.Repriced? { requested := MaxR(c.final - session.previous, 0.0); }
    var reserved := ledger.Reserve(day, requested, Some(c.ref));
    if reserved.None? { return Returned(Unpersisted, None); }
    granted := reserved.value;
    if fault.Fails? {
      // A failing update or commit rolls the session back.
      if granted > 0.0 { var _ := ledger.Release(day, granted, Some(c.ref)); }
      return failure;
    }
    var final := Finalize(session, c, day, granted);
    table.rows := final.rows;
    return Returned(session.outcome, final.staked);
  }
}
