// Which rows a stake commit touches: what becomes of the candidate's own row, whose
// status changes, and how long an open pick stays open over whole runs.

module PickStatus {
  import opened Common
  import opened Ledger
  import opened StakeCommit
  import opened ExposureRecovery

  // The same opportunity under another strategy version.
  predicate OtherVersion(a: PickKey, b: PickKey) {
    && a.event == b.event && a.market == b.market && a.detail == b.detail && a.selection == b.selection
    && a.version != b.version
  }

  // An open row that a write of `c` displaces; the shadow tier never displaces premium.
  predicate Displaced(r: PickRow, c: Candidate, tier: Tier) {
    r.status == Alerted && OtherVersion(r.key, c.key) && (tier == Volume ==> r.tier != Premium)
  }

  // ----- one write --------------------------------------------------------------------

  // How a write is taken, told from the first row of the candidate's key.
  lemma OutcomeIs(rows: seq<PickRow>, c: Candidate, tier: Tier, day: Day, i: nat)
    requires i < |rows| && rows[i].key == c.key && forall j :: 0 <= j < i ==> rows[j].key != c.key
    ensures var r, o := rows[i], PersistPick(rows, c, tier, day).outcome;
            && (o == Upgraded <==> tier == Premium && r.tier == Volume && r.status == Alerted)
            && (o == DuplicateDenied <==> o != Upgraded && r.stake <= 0.0)
            && (o == Repriced <==> tier == Premium && r.tier == Premium && r.status == Alerted && r.stake > 0.0
                                   && !(r.odds == c.odds && r.book == c.book))
            && o in {Upgraded, DuplicateDenied, Repriced, Duplicate}
  {
    assert IndexOf(rows, c.key) == i;
  }

  lemma InsertedIff(rows: seq<PickRow>, c: Candidate, tier: Tier, day: Day)
    ensures PersistPick(rows, c, tier, day).outcome == Inserted
            <==> forall j :: 0 <= j < |rows| ==> rows[j].key != c.key
  {
    var i := IndexOf(rows, c.key);
  }

  // A write changes the status of exactly the rows it displaces, and only when it inserts
  // or upgrades; besides that, only the candidate's own row changes.
  lemma DisplacedIff(rows: seq<PickRow>, c: Candidate, tier: Tier, day: Day, i: nat)
    requires i < |rows|
    ensures var s := PersistPick(rows, c, tier, day);
            && i < |s.rows|
            && (s.rows[i].status != rows[i].status <==>
                  s.outcome in {Inserted, Upgraded} && Displaced(rows[i], c, tier))
            && (s.rows[i].status != rows[i].status ==> s.rows[i].status == Superseded)
            && (rows[i].key != c.key ==> s.rows[i] == rows[i].(status := s.rows[i].status))
  {
    var s := PersistPick(rows, c, tier, day);
    var k := IndexOf(rows, c.key);
    if k < |rows| && s.outcome == Upgraded {
      var up := rows[k].(tier := Premium, odds := c.odds, book := c.book, stake := c.final, clipped := false,
                         createdOn := day);
      OlderIs(rows[k := up], c.key, Premium, i);
    } else if s.outcome == Inserted {
      OlderIs(rows, c.key, tier, i);
    }
  }

  lemma OlderIs(rows: seq<PickRow>, key: PickKey, tier: Tier, i: nat)
    requires i < |rows|
    ensures var r := rows[i];
            SupersedeOlder(rows, key, tier)[i]
            == if r.status == Alerted && OtherVersion(r.key, key) && (tier == Volume ==> r.tier != Premium)
               then r.(status := Superseded) else r
  {
    var k := rows[i].key;
    assert k.(version := key.version) == key <==> OtherVersion(k, key) || k == key;
  }

  // The same for a whole call: a call that does not commit changes no row at all.
  lemma CallDisplacesIff(caps: Caps, rows: seq<PickRow>, u: Usage, c: Candidate, day: Day, fault: Fault, i: nat)
    requires i < |rows|
    ensures var x := PersistAndReserve(caps, rows, u, c, day, fault);
            && i < |x.rows|
            && (x.rows[i].status != rows[i].status <==>
                  fault == NoFault && x.result.outcome in {Inserted, Upgraded} && Displaced(rows[i], c, Premium))
            && (x.rows[i].status != rows[i].status ==> x.rows[i].status == Superseded)
            && (rows[i].key != c.key ==> x.rows[i] == rows[i].(status := x.rows[i].status))
            && (fault != NoFault ==> x.rows == rows)
  {
    DisplacedIff(rows, c, Premium, day, i);
    var s := PersistPick(rows, c, Premium, day);
    if !IsDuplicate(s.outcome) { StagedBy(rows, c, day); }
  }

  // ----- whole runs ---------------------------------------------------------------------

  // The action writes no other version of row i, in a tier that could displace it, and
  // does not close it.
  predicate Leaves(r: PickRow, a: Action, i: nat) {
    && (a.Begin? || (a.WriteVolume? && r.tier == Volume) ==> !OtherVersion(r.key, a.c.key))
    && !(a.Close? && a.row == i)
  }

  // Row i is still open, and still premium if it was, in the table and in the rows of a
  // transaction that is open.
  ghost predicate StillOpen(r: PickRow, rows: seq<PickRow>, i: nat) {
    i < |rows| && rows[i].key == r.key && rows[i].status == Alerted && (r.tier == Premium ==> rows[i].tier == Premium)
  }

  ghost predicate StaysOpen(r: PickRow, w: World, i: nat) {
    StillOpen(r, w.rows, i)
    && match w.phase
       case Idle => true
       case Writing(_, s) => StagedOpen(r, s, i)
       case Holding(_, s, _) => StagedOpen(r, s, i) && !IsDuplicate(s.outcome)
       case Finalizing(_, _, _, f) => StillOpen(r, f.rows, i)
  }

  ghost predicate StagedOpen(r: PickRow, s: Staged, i: nat) {
    StillOpen(r, s.rows, i) && (r.tier == Premium && s.index == i ==> s.outcome.Repriced? || IsDuplicate(s.outcome))
  }

  lemma WriteStaysOpen(r: PickRow, rows: seq<PickRow>, c: Candidate, tier: Tier, day: Day, i: nat)
    requires StillOpen(r, rows, i)
    requires tier == Premium || r.tier == Volume ==> !OtherVersion(r.key, c.key)
    ensures StagedOpen(r, PersistPick(rows, c, tier, day), i)
  {
    DisplacedIff(rows, c, tier, day, i);
    var k := IndexOf(rows, c.key);
    if rows[i].tier == Premium && tier == Volume { VolumeLeavesPremium(rows, c, day, i); }
  }

  lemma StepStaysOpen(r: PickRow, w: World, a: Action, i: nat)
    requires StaysOpen(r, w, i) && Leaves(r, a, i)
    ensures StaysOpen(r, Apply(w, a), i)
  {
    if a.Begin? {
      WriteStaysOpen(r, w.rows, a.c, Premium, w.today, i);
    } else if a.WriteVolume? {
      WriteStaysOpen(r, w.rows, a.c, Volume, w.today, i);
    }
  }

  // An open pick is superseded only by a write of another version of itself, and an open
  // premium pick only by a premium one: in every run, whatever fails, crashes or
  // restarts, it stays open until such a write or until it is closed.
  lemma {:induction false} OpenUntilReplaced(w: World, actions: seq<Action>, i: nat)
    requires i < |w.rows| && w.rows[i].status == Alerted && w.phase.Idle?
    requires forall a :: a in actions ==> Leaves(w.rows[i], a, i)
    ensures var v := Run(w, actions);
            i < |v.rows| && v.rows[i].key == w.rows[i].key && v.rows[i].status == Alerted
            && StaysOpen(w.rows[i], v, i)
  {
    if actions != [] {
      var init, a := actions[..|actions| - 1], actions[|actions| - 1];
      OpenUntilReplaced(w, init, i);
      assert a in actions;
      StepStaysOpen(w.rows[i], Run(w, init), a, i);
    }
  }

  lemma VolumeLeavesPremium(rows: seq<PickRow>, c: Candidate, day: Day, i: nat)
    requires i < |rows| && rows[i].tier == Premium
    ensures i < |PersistPick(rows, c, Volume, day).rows| && PersistPick(rows, c, Volume, day).rows[i] == rows[i]
  {
    if IndexOf(rows, c.key) == |rows| { OlderIs(rows, c.key, Volume, i); }
  }

  // Two picks of different events never touch each other: the concrete case.
  lemma OtherEventStaysOpen(key: PickKey, c: Candidate)
    requires c.key.event != key.event
    ensures var row := PickRow(key, Premium, Alerted, 2.0, "A", 0.02, false, 7, Some(7), Some(0.02));
            var s := PersistPick([row], c, Premium, 7);
            s.outcome == Inserted && s.rows == [row, Minted(c, Premium, 7)]
  {
    var row := PickRow(key, Premium, Alerted, 2.0, "A", 0.02, false, 7, Some(7), Some(0.02));
    InsertedIff([row], c, Premium, 7);
    DisplacedIff([row], c, Premium, 7, 0);
    StagedInsert([row], c, 7);
  }
}
