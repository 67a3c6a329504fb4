// Provider vocabularies for one betting line, folded to a canonical label, and
// the adoption of injected Asian-handicap rows into a native spreads group.

module FoldDetails {
  import opened Common

  // ----- text -----------------------------------------------------------------

  function LowerChar(c: char): char { if 'A' <= c <= 'Z' then c - 'A' + 'a' else c }

  function Lower(s: string): string { seq(|s|, i requires 0 <= i < |s| => LowerChar(s[i])) }

  predicate Digit(c: char) { '0' <= c <= '9' }

  predicate Digits(s: string) { s != "" && forall i :: 0 <= i < |s| ==> Digit(s[i]) }

  // A `$` anchor also matches just before one trailing newline.
  function Chomp(s: string): string { if s != "" && s[|s| - 1] == '\n' then s[..|s| - 1] else s }

  function AfterPrefix(s: string, prefix: string): Option<string> {
    if prefix <= s then Some(s[|prefix|..]) else None
  }

  function DropPrefix(s: string, prefix: string): string { if prefix <= s then s[|prefix|..] else s }

  function DropSuffix(s: string, suffix: string): string {
    if |suffix| <= |s| && s[|s| - |suffix|..] == suffix then s[..|s| - |suffix|] else s
  }

  // Position of the first c; the length when there is none.
  function Find(s: string, c: char): (i: nat)
    ensures i <= |s|
    ensures i < |s| ==> s[i] == c
    ensures forall j :: 0 <= j < i ==> s[j] != c
  {
    FindFrom(s, c, 0)
  }

  function FindFrom(s: string, c: char, from: nat): (i: nat)
    requires from <= |s|
    ensures from <= i <= |s|
    ensures i < |s| ==> s[i] == c
    ensures forall j :: from <= j < i ==> s[j] != c
    decreases |s| - from
  {
    if from == |s| || s[from] == c then from else FindFrom(s, c, from + 1)
  }

  function Underscore(s: string): nat { Find(s, '_') }

  function Whole(token: string): string { token[..Underscore(token)] }

  function Part(token: string): Option<string> {
    if Underscore(token) < |token| then Some(token[Underscore(token) + 1..]) else None
  }

  // digits, optionally an underscore and more digits
  predicate IsLine(token: string) { Digits(Whole(token)) && (Part(token).Some? ==> Digits(Part(token).value)) }

  function Num(digits: string): int {
    if digits == "" then 0 else 10 * Num(digits[..|digits| - 1]) + (digits[|digits| - 1] as int - '0' as int)
  }

  function Pow10(n: nat): (p: int)
    ensures p >= 1
  {
    if n == 0 then 1 else 10 * Pow10(n - 1)
  }

  // The digits after the point.
  function Fraction(digits: string): real { Num(digits) as real / Pow10(|digits|) as real }

  // The number a line token stands for: "2_25" is 2.25.
  function Value(token: string): real {
    Num(Whole(token)) as real + match Part(token) case Some(f) => Fraction(f) case None => 0.0
  }

  predicate Fractional(line: real) { line != line.Floor as real }

  // ----- the vocabularies --------------------------------------------------

  function LineIn(token: string): Option<string> { if IsLine(token) then Some(token) else None }

  // over_under_<line> and over_under_games_<line>
  function OverUnderToken(d: string): Option<string> {
    match AfterPrefix(Chomp(d), "over_under_")
    case Some(rest) => LineIn(DropPrefix(rest, "games_"))
    case None => None
  }

  function TotalsToken(d: string): Option<string> {
    match AfterPrefix(Chomp(d), "totals_")
    case Some(rest) => LineIn(rest)
    case None => None
  }

  // spreads_<line>, spreads_minus_<line>, spreads_plus_<line>
  function NativeToken(d: string): Option<string> {
    match AfterPrefix(Chomp(d), "spreads_")
    case Some(rest) => LineIn(if "minus_" <= rest then rest[6..] else DropPrefix(rest, "plus_"))
    case None => None
  }

  // The unsigned line of asian_handicap_[games_][-]<line>[_games]
  function HandicapToken(d: string): Option<string> {
    match AfterPrefix(Chomp(d), "asian_handicap_")
    case Some(rest) => LineIn(DropPrefix(DropSuffix(DropPrefix(rest, "games_"), "_games"), "-"))
    case None => None
  }

  function CanonicalDetail(detail: Option<string>): Option<string> {
    match detail
    case None => None
    case Some(text) =>
      var d := Lower(text);
      if d == "h2h" || d == "1x2" || d == "btts" then None
      else
        match OverUnderToken(d)
        case Some(token) => Some(ShortTotals(token, "totals_" + token))
        case None =>
          match TotalsToken(d)
          case Some(token) => Some(ShortTotals(token, text))
          case None => Some(text)
  }

  // An integer line loses its "_0"; any other label is kept as it was.
  function ShortTotals(token: string, name: string): string {
    if Part(token) == Some("0") then "totals_" + Whole(token) else name
  }

  // The magnitude of the line a label stands for, in any of the vocabularies.
  function AbsLine(detail: Option<string>): Option<real> {
    match detail
    case None => None
    case Some(text) =>
      if OverUnderToken(Lower(text)).Some? then Some(Value(OverUnderToken(Lower(text)).value))
      else if TotalsToken(Lower(text)).Some? then Some(Value(TotalsToken(Lower(text)).value))
      else if NativeToken(text).Some? then Some(Value(NativeToken(text).value))
      else if HandicapToken(text).Some? then Some(Value(HandicapToken(text).value))
      else None
  }

  // ----- canonical labels ------------------------------------------------------

  lemma LineChars(token: string, k: nat)
    requires IsLine(token) && k < |token|
    ensures Digit(token[k]) || token[k] == '_'
  {
    var i := Underscore(token);
    if k < i {
      assert Whole(token)[k] == token[k];
    } else if k > i {
      assert Part(token).value[k - i - 1] == token[k];
    }
  }

  lemma LowerIs(s: string)
    requires forall k :: 0 <= k < |s| ==> LowerChar(s[k]) == s[k]
    ensures Lower(s) == s
  {
  }

  lemma TotalsText(token: string)
    requires IsLine(token)
    ensures Lower("totals_" + token) == "totals_" + token && Chomp("totals_" + token) == "totals_" + token
  {
    var name := "totals_" + token;
    forall k | 0 <= k < |name| ensures LowerChar(name[k]) == name[k] {
      if k < 7 {
        assert name[k] == "totals_"[k];
      } else {
        assert name[k] == token[k - 7];
        LineChars(token, k - 7);
      }
    }
    LowerIs(name);
    assert name[|name| - 1] == token[|token| - 1];
    LineChars(token, |token| - 1);
  }

  // A line token reads back from its totals label.
  lemma TotalsReadsBack(token: string)
    requires IsLine(token)
    ensures Lower("totals_" + token) == "totals_" + token
    ensures TotalsToken("totals_" + token) == Some(token)
    ensures OverUnderToken("totals_" + token) == None
  {
    var name := "totals_" + token;
    TotalsText(token);
    assert name[7..] == token && name[0] == 't';
  }

  lemma WholeIsLine(token: string)
    requires IsLine(token)
    ensures IsLine(Whole(token)) && Part(Whole(token)) == None && Whole(Whole(token)) == Whole(token)
  {
    var w := Whole(token);
    assert forall k :: 0 <= k < |w| ==> Digit(w[k]);
    assert w[..|w|] == w;
  }

  // The shortest token of the same line.
  function ShortToken(token: string): string { if Part(token) == Some("0") then Whole(token) else token }

  lemma ShortTokenIs(token: string)
    requires IsLine(token)
    ensures IsLine(ShortToken(token)) && ShortToken(ShortToken(token)) == ShortToken(token)
    ensures Value(ShortToken(token)) == Value(token)
  {
    WholeIsLine(token);
    if Part(token) == Some("0") { assert Num("0") == 0 by { assert "0"[..0] == ""; } }
  }

  lemma TotalsLabel(token: string)
    requires IsLine(token)
    ensures CanonicalDetail(Some("totals_" + token)) == Some("totals_" + ShortToken(token))
    ensures AbsLine(Some("totals_" + token)) == Some(Value(token))
  {
    TotalsReadsBack(token);
    assert ("totals_" + token)[0] == 't';
  }

  // A label either survives as it is or becomes the short totals label of its line.
  lemma CanonicalShape(text: string) returns (token: string)
    requires CanonicalDetail(Some(text)).Some?
    ensures CanonicalDetail(Some(text)) == Some(text)
         || (IsLine(token) && CanonicalDetail(Some(text)) == Some("totals_" + ShortToken(token))
             && AbsLine(Some(text)) == Some(Value(token)))
  {
    var d := Lower(text);
    token := if OverUnderToken(d).Some? then OverUnderToken(d).value
             else if TotalsToken(d).Some? then TotalsToken(d).value else "";
  }

  // Folding a folded label changes nothing.
  lemma CanonicalIdempotent(detail: Option<string>)
    ensures CanonicalDetail(CanonicalDetail(detail)) == CanonicalDetail(detail)
  {
    if CanonicalDetail(detail).Some? {
      var token := CanonicalShape(detail.value);
      if CanonicalDetail(detail) != detail {
        ShortTokenIs(token);
        TotalsLabel(ShortToken(token));
      }
    }
  }

  // The labels without a line fold to none, and never named one.
  lemma LinelessHasNoLine(text: string)
    requires CanonicalDetail(Some(text)) == None
    ensures AbsLine(Some(text)) == None
  {
    assert |Lower(text)| == |text| <= 4;
  }

  // A fold never changes the line a label names, nor whether it names one.
  lemma CanonicalKeepsLine(detail: Option<string>)
    ensures AbsLine(CanonicalDetail(detail)) == AbsLine(detail)
  {
    if detail.Some? {
      if CanonicalDetail(detail) == None {
        LinelessHasNoLine(detail.value);
      } else {
        var token := CanonicalShape(detail.value);
        if CanonicalDetail(detail) != detail {
          ShortTokenIs(token);
          TotalsLabel(ShortToken(token));
        }
      }
    }
  }

  // ----- folding a snapshot list -------------------------------------------

  datatype Market = Spreads | Totals | Other(name: string)

  // `rest` stands for every field the fold does not look at.
  datatype Snap<R> = Snap(event: string, market: Market, detail: Option<string>, selection: string, rest: R)

  type Natives = map<(string, string), set<string>>

  function Canoned<R>(s: Snap<R>): Snap<R> { s.(detail := CanonicalDetail(s.detail)) }

  // A spreads row on a quarter or half line of the native vocabulary.
  predicate IsNative<R>(s: Snap<R>) {
    s.market.Spreads? && s.detail.Some? && NativeToken(s.detail.value).Some?
    && Fractional(Value(NativeToken(s.detail.value).value))
  }

  // A spreads row on a quarter or half line of the injected vocabulary.
  predicate IsInjected<R>(s: Snap<R>) {
    s.market.Spreads? && s.detail.Some? && HandicapToken(s.detail.value).Some?
    && Fractional(Value(HandicapToken(s.detail.value).value))
  }

  // The native labels that quote a selection of an event.
  ghost function NativesOf<R(!new)>(snaps: seq<Snap<R>>, event: string, selection: string): set<string> {
    set s | s in snaps && IsNative(s) && s.event == event && s.selection == selection :: s.detail.value
  }

  // Where a canonicalised row ends up, given the native labels of its selection.
  ghost function Adopt<R>(natives: set<string>, s: Snap<R>): Snap<R> {
    if IsInjected(s) && exists d :: d in natives && natives == {d} && AbsLine(Some(d)) == AbsLine(s.detail)
    then
      var d :| d in natives && natives == {d};
      s.(detail := Some(d))
    else s
  }

  ghost function CanonAll<R(!new)>(snaps: seq<Snap<R>>): seq<Snap<R>> {
    seq(|snaps|, i requires 0 <= i < |snaps| => Canoned(snaps[i]))
  }

  ghost function Placed<R(!new)>(canoned: seq<Snap<R>>, s: Snap<R>): Snap<R> {
    Adopt(NativesOf(canoned, s.event, s.selection), s)
  }

  ghost function Folded<R(!new)>(snaps: seq<Snap<R>>): seq<Snap<R>> {
    seq(|snaps|, i requires 0 <= i < |snaps| => Placed(CanonAll(snaps), Canoned(snaps[i])))
  }

  lemma NativeIsOwnLabel(d: string)
    requires AfterPrefix(Chomp(d), "spreads_").Some?
    ensures HandicapToken(d).None? && OverUnderToken(Lower(d)).None? && TotalsToken(Lower(d)).None?
    ensures CanonicalDetail(Some(d)) == Some(d)
  {
    assert Chomp(d)[0] == d[0] == 's' && Lower(d)[0] == 's' && Chomp(d)[1] == d[1] == 'p';
    assert |d| >= 8 && |Lower(d)| == |d|;
  }

  lemma HandicapIsOwnLabel(d: string)
    requires AfterPrefix(Chomp(d), "asian_handicap_").Some?
    ensures NativeToken(d).None? && OverUnderToken(Lower(d)).None? && TotalsToken(Lower(d)).None?
    ensures CanonicalDetail(Some(d)) == Some(d)
  {
    assert Chomp(d)[0] == d[0] == 'a' && Lower(d)[0] == 'a';
    assert |d| >= 15 && |Lower(d)| == |d|;
  }

  // The vocabularies do not overlap, and spreads labels are their own canonical form.
  lemma LabelsDiffer(d: string)
    ensures NativeToken(d).Some? ==> HandicapToken(d).None?
    ensures NativeToken(d).Some? || HandicapToken(d).Some? ==>
              OverUnderToken(Lower(d)).None? && TotalsToken(Lower(d)).None? && CanonicalDetail(Some(d)) == Some(d)
  {
    if NativeToken(d).Some? { NativeIsOwnLabel(d); }
    if HandicapToken(d).Some? { HandicapIsOwnLabel(d); }
  }

  ghost predicate Indexes<R(!new)>(natives: Natives, canoned: seq<Snap<R>>) {
    forall e, sel :: Labels(natives, e, sel) == NativesOf(canoned, e, sel)
  }

  // A native row joins the labels of its selection.
  function Registered<R>(natives: Natives, s: Snap<R>): Natives {
    if IsNative(s)
    then natives[(s.event, s.selection) := Labels(natives, s.event, s.selection) + {s.detail.value}]
    else natives
  }

  lemma RegisteredIndexes<R(!new)>(natives: Natives, canoned: seq<Snap<R>>, s: Snap<R>)
    requires Indexes(natives, canoned)
    ensures Indexes(Registered(natives, s), canoned + [s])
  {
    forall e, sel ensures Labels(Registered(natives, s), e, sel) == NativesOf(canoned + [s], e, sel) {
      NativesAppend(canoned, s, e, sel);
    }
  }

  // The first pass: canonical labels, and an index of the native ones.
  method IndexNatives<R(!new)>(snaps: seq<Snap<R>>) returns (canoned: seq<Snap<R>>, natives: Natives)
    ensures canoned == CanonAll(snaps) && Indexes(natives, canoned)
  {
    canoned, natives := [], map[];
    for n := 0 to |snaps|
      invariant |canoned| == n && forall i :: 0 <= i < n ==> canoned[i] == Canoned(snaps[i])
      invariant Indexes(natives, canoned)
    {
      var s := Canoned(snaps[n]);
      RegisteredIndexes(natives, canoned, s);
      natives := Registered(natives, s);
      canoned := canoned + [s];
    }
  }

  method AdoptOne<R(!new)>(labels: set<string>, s: Snap<R>) returns (placed: Snap<R>)
    ensures placed == Adopt(labels, s)
  {
    placed := s;
    if IsInjected(s) && |labels| == 1 {
      var d :| d in labels;
      Singleton(labels, d);
      if AbsLine(Some(d)) == AbsLine(s.detail) { placed := s.(detail := Some(d)); }
    }
  }

  // The second pass: adoption.
  method FoldInjectedGroupDetails<R(!new)>(snaps: seq<Snap<R>>) returns (out: seq<Snap<R>>)
    ensures out == Folded(snaps)
  {
    var canoned, natives := IndexNatives(snaps);
    out := [];
    for n := 0 to |canoned|
      invariant out == Folded(snaps)[..n]
    {
      var s := canoned[n];
      var labels := Labels(natives, s.event, s.selection);
      assert labels == NativesOf(canoned, s.event, s.selection);
      var placed := AdoptOne(labels, s);
      FoldedAt(snaps, canoned, n);
      out := out + [placed];
    }
  }

  lemma FoldedAt<R(!new)>(snaps: seq<Snap<R>>, canoned: seq<Snap<R>>, n: nat)
    requires n < |snaps| && canoned == CanonAll(snaps)
    ensures Folded(snaps)[..n + 1] == Folded(snaps)[..n]
              + [Adopt(NativesOf(canoned, canoned[n].event, canoned[n].selection), canoned[n])]
  {
  }

  function Labels(natives: Natives, event: string, selection: string): set<string> {
    if (event, selection) in natives then natives[(event, selection)] else {}
  }

  lemma Singleton<T>(s: set<T>, x: T)
    requires |s| == 1 && x in s
    ensures s == {x}
  {
    assert |s - {x}| == 0;
  }

  lemma NativesAppend<R(!new)>(snaps: seq<Snap<R>>, s: Snap<R>, event: string, selection: string)
    ensures NativesOf(snaps + [s], event, selection)
         == NativesOf(snaps, event, selection)
            + (if IsNative(s) && s.event == event && s.selection == selection then {s.detail.value} else {})
  {
    forall d | d in NativesOf(snaps, event, selection) ensures d in NativesOf(snaps + [s], event, selection) {
      var w :| w in snaps && IsNative(w) && w.event == event && w.selection == selection && w.detail.value == d;
      assert w in snaps + [s];
    }
    assert s in snaps + [s];
  }

  // ----- what the fold guarantees ---------------------------------------------

  // Rows are never added, dropped or reordered, and only their label changes.
  lemma OnlyLabelsChange<R(!new)>(snaps: seq<Snap<R>>, i: nat)
    requires i < |snaps|
    ensures |Folded(snaps)| == |snaps|
    ensures Folded(snaps)[i].(detail := snaps[i].detail) == snaps[i]
  {
  }

  lemma AdoptedHasRival<R(!new)>(snaps: seq<Snap<R>>, i: nat) returns (k: nat)
    requires i < |snaps|
    ensures IsInjected(snaps[i]) && Folded(snaps)[i] != snaps[i] ==> k < |snaps| && SoleRival(snaps, k, snaps[i])
  {
    var s := snaps[i];
    k := 0;
    if IsInjected(s) && Folded(snaps)[i] != s {
      CanonedNative(s);
      NativesAreRivals(snaps, s);
      var natives := NativesOf(CanonAll(snaps), s.event, s.selection);
      var d :| d in natives && natives == {d} && AbsLine(Some(d)) == AbsLine(s.detail);
      k :| 0 <= k < |snaps| && Rival(snaps[k], s) && snaps[k].detail == Some(d);
      forall j | 0 <= j < |snaps| && Rival(snaps[j], s) ensures snaps[j].detail == Some(d) {
        assert snaps[j].detail.value in natives;
      }
    }
  }

  lemma SoleNative<R(!new)>(snaps: seq<Snap<R>>, k: nat, s: Snap<R>)
    requires k < |snaps|
    ensures SoleRival(snaps, k, s) ==> NativesOf(CanonAll(snaps), s.event, s.selection) == {snaps[k].detail.value}
  {
    NativesAreRivals(snaps, s);
  }

  lemma SoleRivalAdopts<R(!new)>(snaps: seq<Snap<R>>, i: nat, k: nat)
    requires i < |snaps| && k < |snaps|
    ensures IsInjected(snaps[i]) && SoleRival(snaps, k, snaps[i]) ==>
              Folded(snaps)[i] == snaps[i].(detail := snaps[k].detail) != snaps[i]
  {
    if IsInjected(snaps[i]) && SoleRival(snaps, k, snaps[i]) {
      CanonedNative(snaps[i]);
      SoleNative(snaps, k, snaps[i]);
      LabelsDiffer(snaps[k].detail.value);
      AdoptIs({snaps[k].detail.value}, snaps[i], snaps[i].(detail := snaps[k].detail));
    }
  }

  // Adoption with a single native label of the same line.
  lemma AdoptIs<R>(natives: set<string>, s: Snap<R>, placed: Snap<R>)
    requires placed.detail.Some? && natives == {placed.detail.value} && placed == s.(detail := placed.detail)
    ensures IsInjected(s) && AbsLine(placed.detail) == AbsLine(s.detail) ==> Adopt(natives, s) == placed
  {
  }

  // A row of the injected vocabulary is adopted exactly when some native row
  // quotes its selection on the same |line| and no native row of that selection
  // carries another label; it then takes that label.
  lemma AdoptedIff<R(!new)>(snaps: seq<Snap<R>>, i: nat)
    requires i < |snaps|
    ensures IsInjected(snaps[i]) ==>
              (Folded(snaps)[i] != snaps[i] <==> exists k :: 0 <= k < |snaps| && SoleRival(snaps, k, snaps[i]))
    ensures forall k :: 0 <= k < |snaps| && IsInjected(snaps[i]) && SoleRival(snaps, k, snaps[i]) ==>
              Folded(snaps)[i] == snaps[i].(detail := snaps[k].detail)
  {
    forall k | 0 <= k < |snaps|
      ensures IsInjected(snaps[i]) && SoleRival(snaps, k, snaps[i]) ==>
                Folded(snaps)[i] == snaps[i].(detail := snaps[k].detail) != snaps[i]
    {
      SoleRivalAdopts(snaps, i, k);
    }
    var k := AdoptedHasRival(snaps, i);
  }

  ghost predicate SoleRival<R>(snaps: seq<Snap<R>>, k: nat, s: Snap<R>)
    requires k < |snaps|
  {
    && Rival(snaps[k], s) && AbsLine(snaps[k].detail) == AbsLine(s.detail)
    && forall j :: 0 <= j < |snaps| && Rival(snaps[j], s) ==> snaps[j].detail == snaps[k].detail
  }

  predicate Rival<R>(t: Snap<R>, s: Snap<R>) { IsNative(t) && t.event == s.event && t.selection == s.selection }

  // A label that canonicalising changes becomes a totals label, which is no native one.
  lemma ChangedIsTotals(d: string)
    requires CanonicalDetail(Some(d)).Some? && CanonicalDetail(Some(d)) != Some(d)
    ensures NativeToken(CanonicalDetail(Some(d)).value).None?
  {
    var name := CanonicalDetail(Some(d)).value;
    assert |name| >= 7 && name[..7] == "totals_";
    assert name[0] == 't' && Chomp(name)[0] == 't';
  }

  lemma CanonedNative<R>(s: Snap<R>)
    ensures IsNative(Canoned(s)) <==> IsNative(s)
    ensures IsNative(s) || IsInjected(s) ==> Canoned(s) == s
  {
    match s.detail
    case None =>
    case Some(d) =>
      LabelsDiffer(d);
      if CanonicalDetail(s.detail).Some? && CanonicalDetail(s.detail) != s.detail { ChangedIsTotals(d); }
  }

  lemma NativesAreRivals<R(!new)>(snaps: seq<Snap<R>>, s: Snap<R>)
    ensures forall d :: d in NativesOf(CanonAll(snaps), s.event, s.selection) <==>
              exists k :: 0 <= k < |snaps| && Rival(snaps[k], s) && snaps[k].detail == Some(d)
  {
    var canoned := CanonAll(snaps);
    forall k | 0 <= k < |snaps| ensures IsNative(canoned[k]) <==> IsNative(snaps[k])
      ensures IsNative(snaps[k]) ==> canoned[k] == snaps[k]
    {
      CanonedNative(snaps[k]);
    }
    forall d ensures d in NativesOf(canoned, s.event, s.selection) <==>
              exists k :: 0 <= k < |snaps| && Rival(snaps[k], s) && snaps[k].detail == Some(d)
    {
      if d in NativesOf(canoned, s.event, s.selection) {
        var k :| 0 <= k < |canoned| && IsNative(canoned[k]) && canoned[k].event == s.event
                 && canoned[k].selection == s.selection && canoned[k].detail.value == d;
        assert Rival(snaps[k], s) && snaps[k].detail == Some(d);
      }
      if k :| 0 <= k < |snaps| && Rival(snaps[k], s) && snaps[k].detail == Some(d) {
        assert canoned[k] in canoned;
      }
    }
  }

  // Two native labels for one selection block the adoption.
  lemma AmbiguityBlocks<R(!new)>(snaps: seq<Snap<R>>, i: nat, j: nat, k: nat)
    requires i < |snaps| && j < |snaps| && k < |snaps|
    requires snaps[j].detail != snaps[k].detail
    ensures IsInjected(snaps[i]) && Rival(snaps[j], snaps[i]) && Rival(snaps[k], snaps[i]) ==>
              Folded(snaps)[i] == snaps[i]
  {
    AdoptedIff(snaps, i);
  }

  lemma SameNatives<R(!new)>(a: seq<Snap<R>>, b: seq<Snap<R>>, event: string, selection: string)
    requires forall s :: s in a <==> s in b
    ensures NativesOf(a, event, selection) == NativesOf(b, event, selection)
  {
  }

  // The fold commutes with permutation: what happens to a row depends only on
  // which rows there are.
  lemma FoldPermutes<R(!new)>(a: seq<Snap<R>>, b: seq<Snap<R>>, i: nat, j: nat)
    requires multiset(a) == multiset(b)
    requires i < |a| && j < |b| && a[i] == b[j]
    ensures Folded(a)[i] == Folded(b)[j]
  {
    forall s ensures s in CanonAll(a) <==> s in CanonAll(b) {
      if s in CanonAll(a) { CanonMoves(a, b, s); }
      if s in CanonAll(b) { CanonMoves(b, a, s); }
    }
    SameNatives(CanonAll(a), CanonAll(b), a[i].event, a[i].selection);
  }

  lemma CanonMoves<R(!new)>(a: seq<Snap<R>>, b: seq<Snap<R>>, s: Snap<R>)
    requires multiset(a) == multiset(b) && s in CanonAll(a)
    ensures s in CanonAll(b)
  {
    var k :| 0 <= k < |a| && CanonAll(a)[k] == s;
    assert a[k] in multiset(b);
    var m :| 0 <= m < |b| && b[m] == a[k];
    assert CanonAll(b)[m] == s;
  }

  lemma AdoptKeepsLine<R>(natives: set<string>, s: Snap<R>)
    ensures AbsLine(Adopt(natives, s).detail) == AbsLine(s.detail)
  {
    if Adopt(natives, s) != s {
      var d :| d in natives && natives == {d} && AbsLine(Some(d)) == AbsLine(s.detail);
      assert Adopt(natives, s).detail.value in natives;
    }
  }

  // The label a row ends with names the line the row came with.
  lemma PlacedKeepsLine<R(!new)>(snaps: seq<Snap<R>>, i: nat)
    requires i < |snaps|
    ensures AbsLine(Folded(snaps)[i].detail) == AbsLine(snaps[i].detail)
  {
    var s := Canoned(snaps[i]);
    CanonicalKeepsLine(snaps[i].detail);
    AdoptKeepsLine(NativesOf(CanonAll(snaps), s.event, s.selection), s);
  }

  // Distinct lines never merge: rows that land in one group came with the same
  // |line|, or both without one.
  lemma LinesNeverMerge<R(!new)>(snaps: seq<Snap<R>>, i: nat, j: nat)
    requires i < |snaps| && j < |snaps|
    requires Folded(snaps)[i].detail == Folded(snaps)[j].detail
    ensures AbsLine(snaps[i].detail) == AbsLine(snaps[j].detail)
  {
    PlacedKeepsLine(snaps, i);
    PlacedKeepsLine(snaps, j);
  }

  // ----- folding twice ----------------------------------------------------------

  lemma PlacedIsCanonical<R(!new)>(snaps: seq<Snap<R>>, i: nat)
    requires i < |snaps|
    ensures Canoned(Folded(snaps)[i]) == Folded(snaps)[i]
  {
    CanonicalIdempotent(snaps[i].detail);
    var s := Canoned(snaps[i]);
    var natives := NativesOf(CanonAll(snaps), s.event, s.selection);
    if Folded(snaps)[i] != s {
      var d :| d in natives && natives == {d};
      var w :| w in CanonAll(snaps) && IsNative(w) && w.detail == Some(d);
      LabelsDiffer(d);
    }
  }

  // Adopted rows add no native label that was not already there.
  lemma FoldKeepsNatives<R(!new)>(snaps: seq<Snap<R>>, event: string, selection: string)
    ensures NativesOf(Folded(snaps), event, selection) == NativesOf(CanonAll(snaps), event, selection)
  {
    var canoned, folded := CanonAll(snaps), Folded(snaps);
    forall d | d in NativesOf(folded, event, selection) ensures d in NativesOf(canoned, event, selection) {
      var k :| 0 <= k < |folded| && IsNative(folded[k]) && folded[k].event == event
               && folded[k].selection == selection && folded[k].detail.value == d;
      if folded[k] == canoned[k] { assert canoned[k] in canoned; }
    }
    forall d | d in NativesOf(canoned, event, selection) ensures d in NativesOf(folded, event, selection) {
      var k :| 0 <= k < |canoned| && IsNative(canoned[k]) && canoned[k].event == event
               && canoned[k].selection == selection && canoned[k].detail.value == d;
      LabelsDiffer(d);
      assert folded[k] == canoned[k];
      assert folded[k] in folded;
    }
  }

  lemma FoldIdempotent<R(!new)>(snaps: seq<Snap<R>>)
    ensures Folded(Folded(snaps)) == Folded(snaps)
  {
    var once := Folded(snaps);
    forall i | 0 <= i < |once| ensures Canoned(once[i]) == once[i] { PlacedIsCanonical(snaps, i); }
    assert CanonAll(once) == once;
    forall i | 0 <= i < |once| ensures Placed(once, once[i]) == once[i] {
      FoldKeepsNatives(snaps, once[i].event, once[i].selection);
      var s := Canoned(snaps[i]);
      if once[i] != s {
        var natives := NativesOf(CanonAll(snaps), s.event, s.selection);
        var w :| w in CanonAll(snaps) && IsNative(w) && w.detail == once[i].detail;
        LabelsDiffer(w.detail.value);
      }
    }
  }
}
