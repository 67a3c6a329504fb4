// The candidate loop: hard drops, the tier split, the chain of demotion gates,
// and where every candidate ends up.

module Demotion {
  import opened Common

  const SANITY_MAX_ODDS := 50.0

  const FLOOR_SHADOW_MIN_EDGE := 0.015

  datatype Tier = Premium | Volume

  // One loaded meta-model; a shadow model never demotes.
  datatype Filter = Filter(threshold: real, shadow: bool)

  // Thresholds of one cycle. None stands for an infinite ceiling.
  datatype Policy = Policy(
    minEdge: real, volumeMinEdge: real, minEdgeByMarket: map<string, real>, maxOddsAge: real,
    oddsBands: seq<(real, real)>, maxOdds: real, moneylineMaxOdds: Option<real>, demoteDraws: bool, shotsVeto: bool,
    premiumMaxHours: Option<real>, requireSharp: bool, sharpOnlySport: bool, experimentalSport: bool,
    mlEnabled: bool, filter: Option<Filter>, steamEnabled: bool)

  // A disagreeing shots signal, and whether the signal itself is armed.
  datatype Shots = Shots(disagrees: bool, veto: bool)

  // One scanned value bet of a group. The flags are answers of predicates whose
  // inputs are not modelled; `steam` is absent when the gate was not evaluated.
  datatype Candidate = Candidate(
    keys: seq<string>, edge: real, odds: real, age: real, hours: Option<real>,
    ahImplausible: bool, dcImplausible: bool, visibilityOnly: bool, moneyline: bool, draw: bool, shots: Option<Shots>,
    majorLeague: bool, sharpAnchored: bool, mlScore: Option<real>, steam: Option<bool>, insane: bool, sharpDnb: bool,
    inserted: bool)

  // ----- floors -----------------------------------------------------------------

  // Most specific key first.
  function FloorFor(overrides: map<string, real>, keys: seq<string>, default: real): real {
    if keys == [] then default
    else if keys[0] in overrides then overrides[keys[0]]
    else FloorFor(overrides, keys[1..], default)
  }

  function PickTier(edge: real, premiumFloor: real, volumeFloor: real): Option<Tier> {
    if edge >= premiumFloor then Some(Premium) else if edge >= volumeFloor then Some(Volume) else None
  }

  // No scanned edge lies below the smallest configured floor.
  ghost predicate Scanned(p: Policy, edge: real) {
    edge >= p.volumeMinEdge || edge >= p.minEdge || exists k :: k in p.minEdgeByMarket && edge >= p.minEdgeByMarket[k]
  }

  // The ordering the settings validators enforce.
  ghost predicate Ordered(p: Policy) {
    p.volumeMinEdge <= p.minEdge && forall k :: k in p.minEdgeByMarket ==> p.volumeMinEdge <= p.minEdgeByMarket[k]
  }

  lemma {:induction false} FloorIsConfigured(p: Policy, keys: seq<string>)
    ensures var f := FloorFor(p.minEdgeByMarket, keys, p.minEdge);
            f == p.minEdge || exists k :: k in p.minEdgeByMarket && f == p.minEdgeByMarket[k]
  {
    if keys != [] { FloorIsConfigured(p, keys[1..]); }
  }

  // No scanned edge is left without a tier in any market.
  ghost predicate EveryEdgeTiered(p: Policy) {
    forall edge: real, keys: seq<string> :: Scanned(p, edge) ==>
      PickTier(edge, FloorFor(p.minEdgeByMarket, keys, p.minEdge), p.volumeMinEdge).Some?
  }

  // That holds exactly under the validated ordering, or when all premium floors
  // coincide.
  lemma EveryEdgeTieredIff(p: Policy)
    ensures EveryEdgeTiered(p) <==>
              Ordered(p) || forall k :: k in p.minEdgeByMarket ==> p.minEdgeByMarket[k] == p.minEdge
  {
    if Ordered(p) || forall k :: k in p.minEdgeByMarket ==> p.minEdgeByMarket[k] == p.minEdge {
      forall edge: real, keys: seq<string> | Scanned(p, edge)
        ensures PickTier(edge, FloorFor(p.minEdgeByMarket, keys, p.minEdge), p.volumeMinEdge).Some?
      {
        FloorIsConfigured(p, keys);
      }
    } else {
      var k :| k in p.minEdgeByMarket && p.minEdgeByMarket[k] != p.minEdge;
      var other := p.minEdgeByMarket[k];
      assert FloorFor(p.minEdgeByMarket, [k], p.minEdge) == other
        && FloorFor(p.minEdgeByMarket, [], p.minEdge) == p.minEdge;
      var high := if other > p.minEdge then [k] else [];
      var low := MinR(other, p.minEdge);
      var edge := low;
      if low >= p.volumeMinEdge {
        var j :| j in p.minEdgeByMarket && p.minEdgeByMarket[j] < p.volumeMinEdge;
        edge := p.minEdgeByMarket[j];
      }
      assert Scanned(p, edge);
      assert PickTier(edge, FloorFor(p.minEdgeByMarket, high, p.minEdge), p.volumeMinEdge).None?;
    }
  }

  // ----- the gates ---------------------------------------------------------------

  datatype Gate = VisibilityOnly | OddsCeiling | DrawSelection | ShotsVeto | TooEarly | NonMajor | NoSharpAnchor
                | Experimental | MlFilter | Steam | StructuralSanity

  // Gate order in the chain.
  const CHAIN: seq<Gate> := [VisibilityOnly, OddsCeiling, DrawSelection, ShotsVeto, TooEarly, NonMajor, NoSharpAnchor,
                             Experimental, MlFilter, Steam, StructuralSanity]

  // Whether a gate objects to a candidate, were it premium when it gets there.
  predicate Trips(g: Gate, p: Policy, c: Candidate) {
    match g
    case VisibilityOnly => c.visibilityOnly
    case OddsCeiling => c.moneyline && p.moneylineMaxOdds.Some? && c.odds > p.moneylineMaxOdds.value
    case DrawSelection => p.demoteDraws && c.draw
    case ShotsVeto => c.shots.Some? && c.shots.value.disagrees && (c.shots.value.veto || p.shotsVeto)
    case TooEarly => c.hours.Some? && p.premiumMaxHours.Some? && c.hours.value > p.premiumMaxHours.value
    case NonMajor => !c.majorLeague
    case NoSharpAnchor => p.requireSharp && !c.sharpAnchored
    case Experimental => p.experimentalSport
    case MlFilter => p.mlEnabled && p.filter.Some? && !p.filter.value.shadow
                     && c.mlScore.Some? && c.mlScore.value < p.filter.value.threshold
    case Steam => p.steamEnabled && c.steam == Some(true)
    case StructuralSanity => c.insane
  }

  // The first gate from position i on that objects.
  function FirstTrip(i: nat, p: Policy, c: Candidate): Option<Gate>
    requires i <= 11
    decreases 11 - i
  {
    if i == 11 then None else if Trips(CHAIN[i], p, c) then Some(CHAIN[i]) else FirstTrip(i + 1, p, c)
  }

  predicate InBands(odds: real, bands: seq<(real, real)>) {
    bands == [] || exists i :: 0 <= i < |bands| && bands[i].0 <= odds <= bands[i].1
  }

  datatype Drop = AhRejected | DcRejected | Stale | OffBand | SanityCeiling | GlobalCeiling

  // The first hard drop that applies.
  function Dropped(p: Policy, c: Candidate): Option<Drop> {
    if c.ahImplausible then Some(AhRejected)
    else if c.dcImplausible then Some(DcRejected)
    else if c.age > p.maxOddsAge then Some(Stale)
    else if !InBands(c.odds, p.oddsBands) then Some(OffBand)
    else if c.odds > SANITY_MAX_ODDS then Some(SanityCeiling)
    else if p.maxOdds > 0.0 && c.odds >= p.maxOdds then Some(GlobalCeiling)
    else None
  }

  // Where a candidate ends: dropped, untiered, ordinary volume, kept premium, or
  // stopped by one gate.
  datatype Fate = Out(drop: Drop) | Untiered | OrdinaryVolume | KeptPremium | Stopped(gate: Gate)

  function FateOf(p: Policy, c: Candidate): Fate {
    match Dropped(p, c)
    case Some(d) => Out(d)
    case None =>
      match PickTier(c.edge, FloorFor(p.minEdgeByMarket, c.keys, p.minEdge), p.volumeMinEdge)
      case None => Untiered
      case Some(Volume) => OrdinaryVolume
      case Some(Premium) => match FirstTrip(0, p, c) case None => KeptPremium case Some(g) => Stopped(g)
  }

  // A missing sharp anchor is a hard drop in the sharp-anchor-only sports.
  predicate ConsensusDropped(p: Policy, f: Fate) { f == Stopped(NoSharpAnchor) && p.sharpOnlySport }

  predicate EndsVolume(p: Policy, f: Fate) { f.OrdinaryVolume? || (f.Stopped? && !ConsensusDropped(p, f)) }

  // ----- what one candidate leaves behind ----------------------------------------

  datatype Slug = MarketFloor | Demoted(gate: Gate) | MissCause | FloorShadow

  datatype Audit = Audit(tier: Tier, reasons: seq<Slug>)

  function Reasons(g: Gate): seq<Slug> { if g.NoSharpAnchor? then [Demoted(g), MissCause] else [Demoted(g)] }

  function PremiumFloor(p: Policy, c: Candidate): real { FloorFor(p.minEdgeByMarket, c.keys, p.minEdge) }

  predicate BelowOwnFloor(p: Policy, c: Candidate) { PremiumFloor(p, c) > p.minEdge && c.edge >= p.minEdge }

  predicate InFloorShadow(p: Policy, c: Candidate) {
    c.sharpDnb && FLOOR_SHADOW_MIN_EDGE <= c.edge < PremiumFloor(p, c) && !c.visibilityOnly
  }

  function VolumeReasons(p: Policy, c: Candidate): seq<Slug> {
    (if BelowOwnFloor(p, c) then [MarketFloor] else []) + (if InFloorShadow(p, c) then [FloorShadow] else [])
  }

  // The loop's counters and lists. `untiered` has no counter in the program; the
  // lists `volume` and `premium` are the candidates that reach persistence, and
  // `minted` the volume rows it newly inserted.
  datatype Report = Report(ah: nat, dc: nat, reached: nat, stale: nat, offBand: nat, sanity: nat, ceiling: nat,
                           untiered: nat, consensus: nat, demoted: map<Gate, nat>,
                           volume: seq<Candidate>, minted: nat, premium: seq<Candidate>, audits: seq<Audit>)

  const ZERO := Report(0, 0, 0, 0, 0, 0, 0, 0, 0, map[], [], 0, [], [])

  function Bump(m: map<Gate, nat>, g: Gate): map<Gate, nat> { m[g := (if g in m then m[g] else 0) + 1] }

  function Shadowed(r: Report, c: Candidate, reasons: seq<Slug>): Report {
    r.(volume := r.volume + [c], minted := r.minted + (if c.inserted then 1 else 0),
       audits := r.audits + [Audit(Volume, reasons)])
  }

  function Recorded(p: Policy, c: Candidate, before: Report): Report {
    var r := if c.ahImplausible || c.dcImplausible then before else before.(reached := before.reached + 1);
    match Dropped(p, c)
    case Some(AhRejected) => r.(ah := r.ah + 1)
    case Some(DcRejected) => r.(dc := r.dc + 1)
    case Some(Stale) => r.(stale := r.stale + 1)
    case Some(OffBand) => r.(offBand := r.offBand + 1)
    case Some(SanityCeiling) => r.(sanity := r.sanity + 1)
    case Some(GlobalCeiling) => r.(ceiling := r.ceiling + 1)
    case None => Settled(p, c, r)
  }

  function Settled(p: Policy, c: Candidate, r: Report): Report
    requires Dropped(p, c).None?
  {
    match FateOf(p, c)
    case Untiered => r.(untiered := r.untiered + 1)
    case OrdinaryVolume => Shadowed(r, c, VolumeReasons(p, c))
    case KeptPremium => r.(premium := r.premium + [c], audits := r.audits + [Audit(Premium, [])])
    case Stopped(g) =>
      if ConsensusDropped(p, Stopped(g)) then r.(consensus := r.consensus + 1)
      else Shadowed(r.(demoted := Bump(r.demoted, g)), c, Reasons(g))
  }

  function Tally(p: Policy, cs: seq<Candidate>): Report {
    if cs == [] then ZERO else Recorded(p, cs[|cs| - 1], Tally(p, cs[..|cs| - 1]))
  }

  // ----- the loop ------------------------------------------------------------------

  // What holds in the chain after the first i gates.
  ghost predicate InChain(i: nat, p: Policy, c: Candidate, tier: Tier, reasons: seq<Slug>, demoted: map<Gate, nat>,
                          before: map<Gate, nat>)
    requires i <= 11
  {
    match tier
    case Premium => reasons == [] && demoted == before && FirstTrip(0, p, c) == FirstTrip(i, p, c)
    case Volume =>
      var g := FirstTrip(0, p, c);
      g.Some? && !ConsensusDropped(p, Stopped(g.value)) && reasons == Reasons(g.value)
        && demoted == Bump(before, g.value)
  }

  // The gates in program order, each guarded by the tier the previous ones left.
  // No tier means the candidate was dropped for want of a sharp anchor.
  method RunChain(p: Policy, c: Candidate, before: map<Gate, nat>)
    returns (result: Option<Tier>, reasons: seq<Slug>, demoted: map<Gate, nat>)
    ensures match FirstTrip(0, p, c)
            case None => result == Some(Premium) && reasons == [] && demoted == before
            case Some(g) =>
              if ConsensusDropped(p, Stopped(g)) then result == None && demoted == before
              else result == Some(Volume) && reasons == Reasons(g) && demoted == Bump(before, g)
  {
    var tier: Tier;
    tier, reasons, demoted := RunEarlyGates(p, c, before);
    if tier == Premium && c.hours.Some? && p.premiumMaxHours.Some? && c.hours.value > p.premiumMaxHours.value {
      tier, demoted, reasons := Volume, Bump(demoted, TooEarly), [Demoted(TooEarly)];
    }
    assert InChain(5, p, c, tier, reasons, demoted, before);
    if tier == Premium {
      if !c.majorLeague {
        tier, demoted, reasons := Volume, Bump(demoted, NonMajor), [Demoted(NonMajor)];
      }
    }
    assert InChain(6, p, c, tier, reasons, demoted, before);
    if tier == Premium && p.requireSharp && !c.sharpAnchored {
      if p.sharpOnlySport { return None, [], demoted; }
      tier, demoted, reasons := Volume, Bump(demoted, NoSharpAnchor), [Demoted(NoSharpAnchor), MissCause];
    }
    assert InChain(7, p, c, tier, reasons, demoted, before);
    result, reasons, demoted := RunLateGates(p, c, before, tier, reasons, demoted);
  }

  // The gates on the pick itself: market, price, selection and shots.
  method RunEarlyGates(p: Policy, c: Candidate, before: map<Gate, nat>)
    returns (tier: Tier, reasons: seq<Slug>, demoted: map<Gate, nat>)
    ensures InChain(4, p, c, tier, reasons, demoted, before)
  {
    tier, reasons, demoted := Premium, [], before;
    if tier == Premium && c.visibilityOnly {
      tier, demoted, reasons := Volume, Bump(demoted, VisibilityOnly), [Demoted(VisibilityOnly)];
    }
    assert InChain(1, p, c, tier, reasons, demoted, before);
    if tier == Premium && c.moneyline && p.moneylineMaxOdds.Some? && c.odds > p.moneylineMaxOdds.value {
      tier, demoted, reasons := Volume, Bump(demoted, OddsCeiling), [Demoted(OddsCeiling)];
    }
    assert InChain(2, p, c, tier, reasons, demoted, before);
    if tier == Premium && p.demoteDraws && c.draw {
      tier, demoted, reasons := Volume, Bump(demoted, DrawSelection), [Demoted(DrawSelection)];
    }
    assert InChain(3, p, c, tier, reasons, demoted, before);
    if c.shots.Some? {
      if tier == Premium && c.shots.value.disagrees && (c.shots.value.veto || p.shotsVeto) {
        tier, demoted, reasons := Volume, Bump(demoted, ShotsVeto), [Demoted(ShotsVeto)];
      }
    }
  }

  // The gates that run after the anchor gate.
  method RunLateGates(p: Policy, c: Candidate, ghost before: map<Gate, nat>, tier0: Tier, reasons0: seq<Slug>,
                      demoted0: map<Gate, nat>)
    returns (result: Option<Tier>, reasons: seq<Slug>, demoted: map<Gate, nat>)
    requires InChain(7, p, c, tier0, reasons0, demoted0, before)
    ensures result.Some? && InChain(11, p, c, result.value, reasons, demoted, before)
  {
    var tier := tier0;
    reasons, demoted := reasons0, demoted0;
    if tier == Premium && p.experimentalSport {
      tier, demoted, reasons := Volume, Bump(demoted, Experimental), [Demoted(Experimental)];
    }
    assert InChain(8, p, c, tier, reasons, demoted, before);
    if p.mlEnabled && p.filter.Some? && !p.filter.value.shadow && tier == Premium
       && c.mlScore.Some? && c.mlScore.value < p.filter.value.threshold {
      tier, demoted, reasons := Volume, Bump(demoted, MlFilter), [Demoted(MlFilter)];
    }
    assert InChain(9, p, c, tier, reasons, demoted, before);
    if c.steam == Some(true) {
      if p.steamEnabled && tier == Premium {
        tier, demoted, reasons := Volume, Bump(demoted, Steam), [Demoted(Steam)];
      }
    }
    assert InChain(10, p, c, tier, reasons, demoted, before);
    if tier == Premium && c.insane {
      tier, demoted, reasons := Volume, Bump(demoted, StructuralSanity), [Demoted(StructuralSanity)];
    }
    result := Some(tier);
  }

  // One iteration of the candidate loop.
  method Judge(p: Policy, c: Candidate, before: Report) returns (r: Report)
    ensures r == Recorded(p, c, before)
  {
    r := before;
    if c.ahImplausible { return r.(ah := r.ah + 1); }
    if c.dcImplausible { return r.(dc := r.dc + 1); }
    r := r.(reached := r.reached + 1);
    if c.age > p.maxOddsAge { return r.(stale := r.stale + 1); }
    if !InBands(c.odds, p.oddsBands) { return r.(offBand := r.offBand + 1); }
    if c.odds > SANITY_MAX_ODDS { return r.(sanity := r.sanity + 1); }
    if p.maxOdds > 0.0 && c.odds >= p.maxOdds { return r.(ceiling := r.ceiling + 1); }
    r := JudgeTier(p, c, r);
  }

  // The rest of the iteration, for a candidate no hard drop applies to.
  method JudgeTier(p: Policy, c: Candidate, before: Report) returns (r: Report)
    requires Dropped(p, c).None?
    ensures r == Settled(p, c, before)
  {
    r := before;
    var floor := FloorFor(p.minEdgeByMarket, c.keys, p.minEdge);
    var picked := PickTier(c.edge, floor, p.volumeMinEdge);
    if picked.None? { return r.(untiered := r.untiered + 1); }
    var tier, reasons := picked.value, [];
    if tier == Volume && floor > p.minEdge && c.edge >= p.minEdge { reasons := [MarketFloor]; }
    if tier == Premium {
      var result, why, demoted := RunChain(p, c, r.demoted);
      if result.None? { return r.(consensus := r.consensus + 1); }
      r := r.(demoted := demoted);
      tier, reasons := result.value, why;
    }
    if tier == Volume && c.sharpDnb && FLOOR_SHADOW_MIN_EDGE <= c.edge < floor && !c.visibilityOnly {
      reasons := reasons + [FloorShadow];
    }
    assert tier == Volume ==> reasons == match FateOf(p, c) case Stopped(g) => Reasons(g) case _ => VolumeReasons(p, c);
    r := r.(audits := r.audits + [Audit(tier, reasons)]);
    if tier == Volume {
      r := r.(volume := r.volume + [c]);
      if c.inserted { r := r.(minted := r.minted + 1); }
      return;
    }
    r := r.(premium := r.premium + [c]);
  }

  method ScanCandidates(p: Policy, cs: seq<Candidate>) returns (r: Report)
    ensures r == Tally(p, cs)
  {
    r := ZERO;
    for n := 0 to |cs|
      invariant r == Tally(p, cs[..n])
    {
      r := Judge(p, cs[n], r);
      assert cs[..n + 1][..n] == cs[..n];
    }
    assert cs[..|cs|] == cs;
  }

  // ----- conservation ----------------------------------------------------------------

  function Total(m: map<Gate, nat>, i: nat): nat
    requires i <= 11
  {
    if i == 0 then 0 else Total(m, i - 1) + if CHAIN[i - 1] in m then m[CHAIN[i - 1]] else 0
  }

  function Position(g: Gate): (i: nat)
    ensures i < 11 && CHAIN[i] == g
  {
    match g
    case VisibilityOnly => 0 case OddsCeiling => 1 case DrawSelection => 2 case ShotsVeto => 3 case TooEarly => 4
    case NonMajor => 5 case NoSharpAnchor => 6 case Experimental => 7 case MlFilter => 8 case Steam => 9
    case StructuralSanity => 10
  }

  lemma PositionOf(k: nat)
    requires k < 11
    ensures Position(CHAIN[k]) == k
  {
  }

  lemma {:induction false} BumpTotal(m: map<Gate, nat>, g: Gate, i: nat)
    requires i <= 11
    ensures Total(Bump(m, g), i) == Total(m, i) + if Position(g) < i then 1 else 0
  {
    if i != 0 {
      BumpTotal(m, g, i - 1);
      PositionOf(i - 1);
    }
  }

  predicate InitiallyPremium(p: Policy, c: Candidate) { Dropped(p, c).None? && c.edge >= PremiumFloor(p, c) }

  function InitialPremiums(p: Policy, cs: seq<Candidate>): nat {
    if cs == [] then 0
    else InitialPremiums(p, cs[..|cs| - 1]) + if InitiallyPremium(p, cs[|cs| - 1]) then 1 else 0
  }

  // The counters and lists a candidate past the price guards can end in.
  function Ended(r: Report): nat {
    r.stale + r.offBand + r.sanity + r.ceiling + r.untiered + r.consensus + |r.volume| + |r.premium|
  }

  lemma RecordedOnce(p: Policy, c: Candidate, r: Report)
    ensures var s := Recorded(p, c, r);
            && s.reached == r.reached + (if c.ahImplausible || c.dcImplausible then 0 else 1)
            && Ended(s) == Ended(r) + (if c.ahImplausible || c.dcImplausible then 0 else 1)
            && s.ah + s.dc == r.ah + r.dc + (if c.ahImplausible || c.dcImplausible then 1 else 0)
  {
    match FateOf(p, c)
    case Out(d) =>
    case Untiered =>
    case OrdinaryVolume =>
    case KeptPremium =>
    case Stopped(g) =>
  }

  // Every candidate that reaches the freshness gate is counted once, under what
  // became of it.
  lemma {:induction false} Conservation(p: Policy, cs: seq<Candidate>)
    ensures var r := Tally(p, cs);
            && |cs| == r.ah + r.dc + r.reached
            && r.reached == r.stale + r.offBand + r.sanity + r.ceiling + r.untiered
                            + r.consensus + |r.volume| + |r.premium|
  {
    if cs != [] {
      Conservation(p, cs[..|cs| - 1]);
      RecordedOnce(p, cs[|cs| - 1], Tally(p, cs[..|cs| - 1]));
    }
  }

  lemma DemotionStep(p: Policy, c: Candidate, r: Report)
    ensures Total(Recorded(p, c, r).demoted, 11) ==
            Total(r.demoted, 11) + if EndsVolume(p, FateOf(p, c)) && InitiallyPremium(p, c) then 1 else 0
  {
    var f := FateOf(p, c);
    if f.Stopped? { BumpTotal(r.demoted, f.gate, 11); }
  }

  // Every candidate that starts premium is kept, dropped for want of an anchor, or
  // charged to one demotion counter.
  lemma {:induction false} PremiumConservation(p: Policy, cs: seq<Candidate>)
    ensures var r := Tally(p, cs);
            InitialPremiums(p, cs) == |r.premium| + r.consensus + Total(r.demoted, 11)
  {
    if cs != [] {
      PremiumConservation(p, cs[..|cs| - 1]);
      DemotionStep(p, cs[|cs| - 1], Tally(p, cs[..|cs| - 1]));
    }
  }

  // Under the validated floors no candidate falls through untiered.
  lemma {:induction false} NoneUntiered(p: Policy, cs: seq<Candidate>)
    requires Ordered(p) && forall c :: c in cs ==> Scanned(p, c.edge)
    ensures Tally(p, cs).untiered == 0
  {
    if cs != [] {
      assert cs[|cs| - 1] in cs;
      NoneUntiered(p, cs[..|cs| - 1]);
    }
  }

  lemma RecordedVolume(p: Policy, c: Candidate, r: Report)
    ensures var s, v := Recorded(p, c, r), EndsVolume(p, FateOf(p, c));
            && |s.volume| == |r.volume| + (if v then 1 else 0)
            && s.minted == r.minted + (if v && c.inserted then 1 else 0)
  {
    match FateOf(p, c)
    case Out(d) =>
    case Untiered =>
    case OrdinaryVolume =>
    case KeptPremium =>
    case Stopped(g) =>
  }

  // The reported volume count covers the newly inserted rows only: it equals the
  // volume candidates exactly when all of them were new.
  lemma {:induction false} MintedIff(p: Policy, cs: seq<Candidate>)
    ensures Tally(p, cs).minted <= |Tally(p, cs).volume|
    ensures Tally(p, cs).minted == |Tally(p, cs).volume| <==>
              forall c :: c in cs && EndsVolume(p, FateOf(p, c)) ==> c.inserted
  {
    if cs != [] {
      var init, c := cs[..|cs| - 1], cs[|cs| - 1];
      MintedIff(p, init);
      RecordedVolume(p, c, Tally(p, init));
      assert cs == init + [c];
      assert forall x :: x in cs <==> x in init || x == c;
    }
  }

  // ----- one gate per demotion -----------------------------------------------------

  lemma {:induction false} FirstTripWhere(i: nat, p: Policy, c: Candidate) returns (k: nat)
    requires i <= 11 && FirstTrip(i, p, c).Some?
    ensures i <= k < 11 && FirstTrip(i, p, c) == Some(CHAIN[k])
    ensures Trips(CHAIN[k], p, c) && forall j :: i <= j < k ==> !Trips(CHAIN[j], p, c)
    decreases 11 - i
  {
    if Trips(CHAIN[i], p, c) { k := i; } else { k := FirstTripWhere(i + 1, p, c); }
  }

  lemma {:induction false} FirstTripIf(i: nat, p: Policy, c: Candidate, k: nat)
    requires i <= k < 11
    requires Trips(CHAIN[k], p, c) && forall j :: i <= j < k ==> !Trips(CHAIN[j], p, c)
    ensures FirstTrip(i, p, c) == Some(CHAIN[k])
    decreases 11 - i
  {
    if i < k { FirstTripIf(i + 1, p, c, k); }
  }

  lemma {:induction false} NoTripIs(i: nat, p: Policy, c: Candidate)
    requires i <= 11
    ensures FirstTrip(i, p, c) == None <==> forall j :: i <= j < 11 ==> !Trips(CHAIN[j], p, c)
    decreases 11 - i
  {
    if i < 11 { NoTripIs(i + 1, p, c); }
  }

  // A candidate is kept premium exactly when it starts premium and no gate objects.
  lemma KeptIff(p: Policy, c: Candidate)
    ensures FateOf(p, c) == KeptPremium <==> InitiallyPremium(p, c) && forall g :: !Trips(g, p, c)
  {
    NoTripIs(0, p, c);
    if forall j :: 0 <= j < 11 ==> !Trips(CHAIN[j], p, c) {
      forall g ensures !Trips(g, p, c) { assert CHAIN[Position(g)] == g; }
    }
  }

  // It is charged to one gate, the earliest that objects.
  lemma StoppedIff(p: Policy, c: Candidate, k: nat)
    requires k < 11
    ensures FateOf(p, c) == Stopped(CHAIN[k]) <==>
              InitiallyPremium(p, c) && Trips(CHAIN[k], p, c) && forall j :: 0 <= j < k ==> !Trips(CHAIN[j], p, c)
  {
    if FirstTrip(0, p, c) == Some(CHAIN[k]) {
      var j := FirstTripWhere(0, p, c);
      PositionOf(j);
      PositionOf(k);
    }
    if Trips(CHAIN[k], p, c) && forall j :: 0 <= j < k ==> !Trips(CHAIN[j], p, c) { FirstTripIf(0, p, c, k); }
  }

  // ----- in the figures of the settings ------------------------------------------------

  // The premium floor of a candidate is that of its first configured key, else the common
  // one.
  lemma {:induction false} FloorIsFirst(overrides: map<string, real>, keys: seq<string>, default: real, i: nat)
    requires i <= |keys| && (forall j :: 0 <= j < i ==> keys[j] !in overrides) && (i < |keys| ==> keys[i] in overrides)
    ensures FloorFor(overrides, keys, default) == if i < |keys| then overrides[keys[i]] else default
    decreases |keys|
  {
    if i > 0 { FloorIsFirst(overrides, keys[1..], default, i - 1); }
  }

  // A candidate is dropped outright exactly when a price guard rejects it, its quote is
  // too old, its odds miss every band, or they are above 50 or at the global ceiling; and
  // it is counted under the first of these that applies.
  lemma DroppedIff(p: Policy, c: Candidate)
    ensures var offBand := p.oddsBands != [] && forall b :: b in p.oddsBands ==> c.odds < b.0 || b.1 < c.odds;
            var early := c.ahImplausible || c.dcImplausible || c.age > p.maxOddsAge;
            && (FateOf(p, c).Out? <==>
                  early || offBand || c.odds > 50.0 || (p.maxOdds > 0.0 && p.maxOdds <= c.odds))
            && (FateOf(p, c) == Out(AhRejected) <==> c.ahImplausible)
            && (FateOf(p, c) == Out(DcRejected) <==> c.dcImplausible && !c.ahImplausible)
            && (FateOf(p, c) == Out(Stale) <==> c.age > p.maxOddsAge && !c.ahImplausible && !c.dcImplausible)
            && (FateOf(p, c) == Out(OffBand) <==> offBand && !early)
            && (FateOf(p, c) == Out(SanityCeiling) <==> c.odds > 50.0 && !offBand && !early)
  {
    if exists i :: 0 <= i < |p.oddsBands| && p.oddsBands[i].0 <= c.odds <= p.oddsBands[i].1 {
      var i :| 0 <= i < |p.oddsBands| && p.oddsBands[i].0 <= c.odds <= p.oddsBands[i].1;
      assert p.oddsBands[i] in p.oddsBands;
    }
  }

  // Past the guards the tier follows the edge alone: premium at or above the premium
  // floor, volume at or above the volume floor, else none.
  lemma TierIs(p: Policy, c: Candidate)
    requires !FateOf(p, c).Out?
    ensures var floor := FloorFor(p.minEdgeByMarket, c.keys, p.minEdge);
            && (InitiallyPremium(p, c) <==> c.edge >= floor)
            && (FateOf(p, c) == OrdinaryVolume <==> p.volumeMinEdge <= c.edge < floor)
            && (FateOf(p, c) == Untiered <==> c.edge < floor && c.edge < p.volumeMinEdge)
  {
  }

  // What each gate objects to, on a premium candidate.
  lemma GateObjects(p: Policy, c: Candidate)
    ensures Trips(VisibilityOnly, p, c) == c.visibilityOnly
    ensures Trips(OddsCeiling, p, c) <==> c.moneyline && exists m :: p.moneylineMaxOdds == Some(m) && m < c.odds
    ensures Trips(DrawSelection, p, c) == (p.demoteDraws && c.draw)
    ensures Trips(ShotsVeto, p, c) <==>
              exists v :: c.shots == Some(Shots(true, v)) && (v || p.shotsVeto)
    ensures Trips(TooEarly, p, c) <==> exists h, m :: c.hours == Some(h) && p.premiumMaxHours == Some(m) && m < h
    ensures Trips(NonMajor, p, c) != c.majorLeague
    ensures Trips(NoSharpAnchor, p, c) == (p.requireSharp && !c.sharpAnchored)
    ensures Trips(Experimental, p, c) == p.experimentalSport
    ensures Trips(MlFilter, p, c) <==>
              p.mlEnabled && exists t, s :: p.filter == Some(Filter(t, false)) && c.mlScore == Some(s) && s < t
    ensures Trips(Steam, p, c) == (p.steamEnabled && c.steam == Some(true))
    ensures Trips(StructuralSanity, p, c) == c.insane
  {
    if c.shots.Some? { assert c.shots == Some(Shots(c.shots.value.disagrees, c.shots.value.veto)); }
    if p.filter.Some? { assert p.filter == Some(Filter(p.filter.value.threshold, p.filter.value.shadow)); }
  }

  // ----- the audit trail --------------------------------------------------------------

  // The audit row of a candidate names one demoting gate exactly when it started
  // premium and lost the tier; a premium row never has a reason, and a row without
  // reasons is premium or volume that missed no special floor.
  lemma AuditMeans(p: Policy, c: Candidate, before: Report)
    requires |Recorded(p, c, before).audits| > |before.audits|
    ensures var a := Recorded(p, c, before).audits[|before.audits|];
            && (a.tier == Premium <==> FateOf(p, c) == KeptPremium)
            && (a.reasons == [] <==> a.tier == Premium
                                     || (!InitiallyPremium(p, c) && !BelowOwnFloor(p, c) && !InFloorShadow(p, c)))
            && (forall g :: Demoted(g) in a.reasons <==> FateOf(p, c) == Stopped(g))
            && (MissCause in a.reasons <==> FateOf(p, c) == Stopped(NoSharpAnchor))
            && (MarketFloor in a.reasons <==>
                  FateOf(p, c) == OrdinaryVolume && c.edge >= p.minEdge)
            && (FloorShadow in a.reasons <==>
                  FateOf(p, c) == OrdinaryVolume && c.sharpDnb && !c.visibilityOnly && 1000.0 * c.edge >= 15.0)
            && (a.tier == Volume && InitiallyPremium(p, c) <==> exists g :: Demoted(g) in a.reasons)
  {
  }
}
