// The comma-separated mini-languages of the settings: market maps and the list of
// markets capped at the volume tier.

module ConfigParsers {
  import opened Common
  import F = FoldDetails

  datatype Result<T> = Ok(value: T) | Err

  // ----- text -----------------------------------------------------------------

  predicate Space(c: char) { 9 <= c as int <= 13 || 28 <= c as int <= 32 }

  function StripLeft(s: string): string { if s != "" && Space(s[0]) then StripLeft(s[1..]) else s }

  function StripRight(s: string): string { if s != "" && Space(s[|s| - 1]) then StripRight(s[..|s| - 1]) else s }

  function Strip(s: string): string { StripRight(StripLeft(s)) }

  predicate Stripped(s: string) { s == "" || (!Space(s[0]) && !Space(s[|s| - 1])) }

  lemma {:induction false} StripLeftIs(s: string)
    ensures StripLeft(s) == "" || !Space(StripLeft(s)[0])
    ensures forall c :: c in StripLeft(s) ==> c in s
  {
    if s != "" && Space(s[0]) { StripLeftIs(s[1..]); }
  }

  lemma {:induction false} StripRightIs(s: string)
    ensures StripRight(s) <= s
    ensures StripRight(s) == "" || !Space(StripRight(s)[|StripRight(s)| - 1])
  {
    if s != "" && Space(s[|s| - 1]) { StripRightIs(s[..|s| - 1]); }
  }

  lemma StripIs(s: string)
    ensures Stripped(Strip(s)) && (Stripped(s) ==> Strip(s) == s)
    ensures forall c :: c in Strip(s) ==> c in s
  {
    StripLeftIs(s);
    StripRightIs(StripLeft(s));
  }

  // The blanks of ASCII: tab to carriage return, the four separators, and the space.
  predicate Blank(c: char) {
    c in {'\t', '\n', '\U{0B}', '\U{0C}', '\r', '\U{1C}', '\U{1D}', '\U{1E}', '\U{1F}', ' '}
  }

  predicate Blanks(s: string) { forall i :: 0 <= i < |s| ==> Blank(s[i]) }

  predicate Unpadded(s: string) { s == "" || (!Blank(s[0]) && !Blank(s[|s| - 1])) }

  lemma SpaceIff(c: char)
    ensures Space(c) <==> Blank(c)
  {
  }

  // Stripping takes off blanks and nothing else, as many as there are: it is the one way
  // to write a text as an unpadded one between blanks.
  lemma StripSplits(s: string) returns (left: string, right: string)
    ensures s == left + Strip(s) + right && Blanks(left) && Blanks(right) && Unpadded(Strip(s))
  {
    left := LeftOf(s);
    right := RightOf(StripLeft(s));
    StripIs(s);
    if Strip(s) != "" {
      SpaceIff(Strip(s)[0]);
      SpaceIff(Strip(s)[|Strip(s)| - 1]);
    }
  }

  lemma {:induction false} LeftOf(s: string) returns (left: string)
    ensures s == left + StripLeft(s) && Blanks(left)
  {
    left := "";
    if s != "" && Space(s[0]) {
      SpaceIff(s[0]);
      left := LeftOf(s[1..]);
      left := [s[0]] + left;
    }
  }

  lemma {:induction false} RightOf(s: string) returns (right: string)
    ensures s == StripRight(s) + right && Blanks(right)
  {
    right := "";
    if s != "" && Space(s[|s| - 1]) {
      SpaceIff(s[|s| - 1]);
      right := RightOf(s[..|s| - 1]);
      right := right + [s[|s| - 1]];
    }
  }

  lemma StripPadded(left: string, core: string, right: string)
    requires Blanks(left) && Blanks(right) && Unpadded(core)
    ensures Strip(left + core + right) == core
  {
    StripBefore(left, core + right);
    assert left + (core + right) == left + core + right;
    if core == "" {
      StripBefore(right, "");
      assert right + "" == core + right;
    } else {
      SpaceIff(core[0]);
      assert (core + right)[0] == core[0];
      StripAfter(core, right);
    }
  }

  lemma {:induction false} StripBefore(left: string, rest: string)
    requires Blanks(left)
    ensures StripLeft(left + rest) == StripLeft(rest)
  {
    if left == "" {
      assert left + rest == rest;
    } else {
      SpaceIff(left[0]);
      assert (left + rest)[1..] == left[1..] + rest;
      StripBefore(left[1..], rest);
    }
  }

  lemma {:induction false} StripAfter(core: string, right: string)
    requires Blanks(right) && core != "" && !Blank(core[|core| - 1])
    ensures StripRight(core + right) == core
  {
    if right == "" {
      assert core + right == core;
      SpaceIff(core[|core| - 1]);
    } else {
      SpaceIff(right[|right| - 1]);
      assert (core + right)[..|core + right| - 1] == core + right[..|right| - 1];
      StripAfter(core, right[..|right| - 1]);
    }
  }

  // Position of the last c; the length when absent.
  function FindLast(s: string, c: char): (i: nat)
    ensures i <= |s| && (i < |s| ==> s[i] == c)
    ensures forall j :: i < j < |s| ==> s[j] != c
    ensures i == |s| ==> c !in s
  {
    FindBefore(s, c, |s|)
  }

  function FindBefore(s: string, c: char, n: nat): (i: nat)
    requires n <= |s|
    ensures i < n || i == |s|
    ensures i < |s| ==> s[i] == c && forall j :: i < j < n ==> s[j] != c
    ensures i == |s| ==> forall j :: 0 <= j < n ==> s[j] != c
  {
    if n == 0 then |s| else if s[n - 1] == c then n - 1 else FindBefore(s, c, n - 1)
  }

  function Split(s: string, c: char): seq<string>
    decreases |s|
  {
    var i := F.Find(s, c);
    if i == |s| then [s] else [s[..i]] + Split(s[i + 1..], c)
  }

  function Join(parts: seq<string>, c: char): string {
    if parts == [] then ""
    else if |parts| == 1 then parts[0]
    else parts[0] + [c] + Join(parts[1..], c)
  }

  lemma {:induction false} SplitParts(s: string, c: char)
    ensures forall p :: p in Split(s, c) ==> c !in p
    decreases |s|
  {
    var i := F.Find(s, c);
    if i < |s| { SplitParts(s[i + 1..], c); }
  }

  lemma {:induction false} SplitJoin(parts: seq<string>, c: char)
    requires parts != [] && forall p :: p in parts ==> c !in p
    ensures Split(Join(parts, c), c) == parts
  {
    var s := Join(parts, c);
    assert parts[0] in parts;
    if |parts| == 1 {
      assert s == parts[0] && F.Find(s, c) == |s|;
    } else {
      var rest := Join(parts[1..], c);
      assert s == parts[0] + [c] + rest;
      assert s[|parts[0]|] == c;
      assert F.Find(s, c) == |parts[0]| by {
        assert forall j :: 0 <= j < |parts[0]| ==> s[j] == parts[0][j];
      }
      assert s[..|parts[0]|] == parts[0] && s[|parts[0]| + 1..] == rest;
      SplitJoin(parts[1..], c);
    }
  }

  // Lower-casing touches neither blanks nor separators.
  lemma LowerKeeps(s: string)
    ensures |F.Lower(s)| == |s| && F.Lower(F.Lower(s)) == F.Lower(s)
    ensures Stripped(s) ==> Stripped(F.Lower(s))
    ensures ',' in F.Lower(s) <==> ',' in s
    ensures ':' in F.Lower(s) <==> ':' in s
  {
    var l := F.Lower(s);
    assert forall i :: 0 <= i < |s| ==> (l[i] == ',' <==> s[i] == ',') && (l[i] == ':' <==> s[i] == ':');
    if ',' in s { var i :| 0 <= i < |s| && s[i] == ','; assert l[i] == ','; }
    if ':' in s { var i :| 0 <= i < |s| && s[i] == ':'; assert l[i] == ':'; }
  }

  // ----- market maps ----------------------------------------------------------------

  datatype Pair = Pair(key: string, value: string)

  // The pair an entry stands for; None when it is malformed.
  function PairIn(entry: string): Option<Pair> {
    var i := FindLast(entry, ':');
    if i == |entry| then None
    else
      var key, value := F.Lower(Strip(entry[..i])), Strip(entry[i + 1..]);
      if key == "" || value == "" then None else Some(Pair(key, value))
  }

  predicate HasKey(pairs: seq<Pair>, key: string) { exists i :: 0 <= i < |pairs| && pairs[i].key == key }

  function PairsOf(entries: seq<string>): Result<seq<Pair>> {
    if entries == [] then Ok([]) else PairsStep(PairsOf(entries[..|entries| - 1]), Strip(entries[|entries| - 1]))
  }

  function PairsStep(before: Result<seq<Pair>>, entry: string): Result<seq<Pair>> {
    match before
    case Err => Err
    case Ok(pairs) =>
      if entry == "" then Ok(pairs)
      else
        match PairIn(entry)
        case None => Err
        case Some(p) => if HasKey(pairs, p.key) then Err else Ok(pairs + [p])
  }

  lemma PairsPrefix(entries: seq<string>, n: nat)
    requires n < |entries|
    ensures PairsOf(entries[..n + 1]) == PairsStep(PairsOf(entries[..n]), Strip(entries[n]))
  {
    assert entries[..n + 1][..n] == entries[..n];
  }

  lemma HasKeyNext(pairs: seq<Pair>, p: Pair)
    ensures forall k :: HasKey(pairs + [p], k) <==> HasKey(pairs, k) || k == p.key
  {
    var more := pairs + [p];
    assert more[|pairs|] == p;
    assert forall j :: 0 <= j < |pairs| ==> more[j] == pairs[j];
  }

  function ParsedMap(raw: string): Result<seq<Pair>> { PairsOf(Split(raw, ',')) }

  lemma {:induction false} ErrStays(entries: seq<string>, n: nat)
    requires n <= |entries| && PairsOf(entries[..n]) == Err
    ensures PairsOf(entries) == Err
  {
    if n < |entries| {
      assert entries[..|entries| - 1][..n] == entries[..n];
      ErrStays(entries[..|entries| - 1], n);
    } else {
      assert entries[..n] == entries;
    }
  }

  // The pairs of the entries that are not blank.
  function GivenPairs(entries: seq<string>): seq<Option<Pair>> {
    if entries == [] then []
    else
      var before, entry := GivenPairs(entries[..|entries| - 1]), Strip(entries[|entries| - 1]);
      if entry == "" then before else before + [PairIn(entry)]
  }

  // Every entry is well formed and no two have the same key.
  ghost predicate Parsable(given: seq<Option<Pair>>) {
    && (forall i :: 0 <= i < |given| ==> given[i].Some?)
    && (forall i, j :: 0 <= i < j < |given| ==> given[i].value.key != given[j].value.key)
  }

  lemma ParsableAppend(given: seq<Option<Pair>>, pairs: seq<Pair>, x: Option<Pair>)
    requires |pairs| == |given| && forall i :: 0 <= i < |given| ==> given[i] == Some(pairs[i])
    ensures Parsable(given + [x]) <==> Parsable(given) && x.Some? && !HasKey(pairs, x.value.key)
  {
    var more := given + [x];
    assert forall i :: 0 <= i < |given| ==> more[i] == given[i];
    assert more[|given|] == x;
    if x.Some? && HasKey(pairs, x.value.key) {
      var i :| 0 <= i < |pairs| && pairs[i].key == x.value.key;
      assert more[i].value.key == more[|given|].value.key;
    }
  }

  lemma NotParsableAppend(given: seq<Option<Pair>>, x: Option<Pair>)
    requires !Parsable(given)
    ensures !Parsable(given + [x])
  {
    var more := given + [x];
    if Parsable(more) {
      assert forall i :: 0 <= i < |given| ==> more[i] == given[i];
      assert Parsable(given);
    }
  }

  // Parsing succeeds exactly when every entry that is not blank is well formed and
  // no two have the same key, and then gives their pairs in order.
  lemma {:induction false} MapParsesIff(entries: seq<string>)
    ensures PairsOf(entries).Ok? <==> Parsable(GivenPairs(entries))
    ensures PairsOf(entries).Ok? ==>
              |PairsOf(entries).value| == |GivenPairs(entries)|
              && forall i :: 0 <= i < |GivenPairs(entries)| ==>
                  GivenPairs(entries)[i] == Some(PairsOf(entries).value[i])
  {
    if entries != [] {
      var init, entry := entries[..|entries| - 1], Strip(entries[|entries| - 1]);
      MapParsesIff(init);
      if PairsOf(init).Ok? {
        ParsableAppend(GivenPairs(init), PairsOf(init).value, PairIn(entry));
      } else {
        NotParsableAppend(GivenPairs(init), PairIn(entry));
      }
    }
  }

  method ParseMarketMap(raw: string) returns (r: Result<seq<Pair>>)
    ensures r == ParsedMap(raw)
  {
    var pairs: seq<Pair>, seen: set<string> := [], {};
    var entries := Split(raw, ',');
    for n := 0 to |entries|
      invariant PairsOf(entries[..n]) == Ok(pairs)
      invariant forall key :: key in seen <==> HasKey(pairs, key)
    {
      var entry := Strip(entries[n]);
      PairsPrefix(entries, n);
      if entry == "" { continue; }
      var i := FindLast(entry, ':');
      if i == |entry| { ErrStays(entries, n + 1); return Err; }
      var key, value := F.Lower(Strip(entry[..i])), Strip(entry[i + 1..]);
      if key == "" || value == "" { ErrStays(entries, n + 1); return Err; }
      if key in seen { ErrStays(entries, n + 1); return Err; }
      HasKeyNext(pairs, Pair(key, value));
      seen := seen + {key};
      pairs := pairs + [Pair(key, value)];
    }
    assert entries[..|entries|] == entries;
    return Ok(pairs);
  }

  function Printed(p: Pair): string { p.key + ":" + p.value }

  function PrintedAll(pairs: seq<Pair>): seq<string> {
    seq(|pairs|, i requires 0 <= i < |pairs| => Printed(pairs[i]))
  }

  ghost predicate WellFormed(p: Pair) {
    && p.key != "" && Stripped(p.key) && F.Lower(p.key) == p.key && ',' !in p.key
    && p.value != "" && Stripped(p.value) && ',' !in p.value && ':' !in p.value
  }

  ghost predicate WellFormedMap(pairs: seq<Pair>) {
    && (forall p :: p in pairs ==> WellFormed(p))
    && (forall i, j :: 0 <= i < j < |pairs| ==> pairs[i].key != pairs[j].key)
  }

  lemma PrintedReads(p: Pair)
    requires WellFormed(p)
    ensures Strip(Printed(p)) == Printed(p) && ',' !in Printed(p) && PairIn(Printed(p)) == Some(p)
  {
    var s := Printed(p);
    StripIs(s);
    StripIs(p.key);
    StripIs(p.value);
    assert s[|p.key|] == ':';
    assert forall j :: |p.key| < j < |s| ==> s[j] == p.value[j - |p.key| - 1];
    assert FindLast(s, ':') == |p.key|;
    assert s[..|p.key|] == p.key && s[|p.key| + 1..] == p.value;
  }

  lemma PrintedNext(entries: seq<string>, before: seq<Pair>, p: Pair)
    requires PairsOf(entries) == Ok(before) && WellFormed(p) && !HasKey(before, p.key)
    ensures PairsOf(entries + [Printed(p)]) == Ok(before + [p])
  {
    PrintedReads(p);
    assert (entries + [Printed(p)])[..|entries|] == entries;
  }

  lemma PrintedAllNext(pairs: seq<Pair>, p: Pair)
    ensures PrintedAll(pairs + [p]) == PrintedAll(pairs) + [Printed(p)]
  {
  }

  lemma {:induction false} PrintedParse(pairs: seq<Pair>)
    requires WellFormedMap(pairs)
    ensures PairsOf(PrintedAll(pairs)) == Ok(pairs)
  {
    if pairs != [] {
      var init, p := pairs[..|pairs| - 1], pairs[|pairs| - 1];
      assert pairs == init + [p];
      PrintedParse(init);
      PrintedNext(PrintedAll(init), init, p);
      PrintedAllNext(init, p);
    }
  }

  // Printing well-formed pairs and parsing them back gives the same pairs.
  lemma MapRoundTrip(pairs: seq<Pair>)
    requires WellFormedMap(pairs)
    ensures ParsedMap(Join(PrintedAll(pairs), ',')) == Ok(pairs)
  {
    PrintedParse(pairs);
    if pairs == [] {
      assert Split("", ',') == [""] && [""][..0] == [];
    } else {
      forall s | s in PrintedAll(pairs) ensures ',' !in s {
        var i :| 0 <= i < |pairs| && PrintedAll(pairs)[i] == s;
        PrintedReads(pairs[i]);
      }
      SplitJoin(PrintedAll(pairs), ',');
    }
  }

  lemma PairInIsWellFormed(entry: string)
    requires ',' !in entry && PairIn(entry).Some?
    ensures WellFormed(PairIn(entry).value)
  {
    var i := FindLast(entry, ':');
    var key, value := entry[..i], entry[i + 1..];
    StripIs(key);
    StripIs(value);
    LowerKeeps(Strip(key));
  }

  lemma {:induction false} ParsedIsWellFormed(entries: seq<string>)
    requires PairsOf(entries).Ok? && forall e :: e in entries ==> ',' !in e
    ensures WellFormedMap(PairsOf(entries).value)
  {
    if entries != [] {
      var init, last := entries[..|entries| - 1], entries[|entries| - 1];
      assert last in entries;
      ParsedIsWellFormed(init);
      StripIs(last);
      if Strip(last) != "" { PairInIsWellFormed(Strip(last)); }
    }
  }

  // Whatever parses is well formed, so printing it loses nothing.
  lemma ParsePrintParse(raw: string)
    requires ParsedMap(raw).Ok?
    ensures WellFormedMap(ParsedMap(raw).value)
    ensures ParsedMap(Join(PrintedAll(ParsedMap(raw).value), ',')) == ParsedMap(raw)
  {
    SplitParts(raw, ',');
    ParsedIsWellFormed(Split(raw, ','));
    MapRoundTrip(ParsedMap(raw).value);
  }

  // ----- visibility-only markets ------------------------------------------------------

  const SOCCER_AH := "soccer" + ":" + "asian_handicap"
  const SOCCER_SPREADS := "soccer" + ":" + "spreads"

  // What one entry adds to the list; Err when it is malformed.
  function Emitted(raw: string): Result<seq<string>> {
    var key := F.Lower(Strip(raw));
    if key == "" then Ok([])
    else if ':' !in key then Ok([key])
    else
      var i := F.Find(key, ':');
      var sport, market := Strip(key[..i]), Strip(key[i + 1..]);
      if sport == "" || market == "" || ':' in market then Err
      else if sport == "soccer" && market == "asian_handicap" then Ok([sport + ":" + market, SOCCER_SPREADS])
      else Ok([sport + ":" + market])
  }

  function EmittedAll(entries: seq<string>): Result<seq<string>> {
    if entries == [] then Ok([])
    else
      match EmittedAll(entries[..|entries| - 1])
      case Err => Err
      case Ok(out) => match Emitted(entries[|entries| - 1]) case Err => Err case Ok(more) => Ok(out + more)
  }

  // First-seen order, each once.
  function Dedup(keys: seq<string>): seq<string> {
    if keys == [] then []
    else
      var d := Dedup(keys[..|keys| - 1]);
      if keys[|keys| - 1] in d then d else d + [keys[|keys| - 1]]
  }

  function ParsedVisibility(raw: string): Result<seq<string>> {
    match EmittedAll(Split(raw, ',')) case Err => Err case Ok(out) => Ok(Dedup(out))
  }

  lemma {:induction false} EmitErrStays(entries: seq<string>, n: nat)
    requires n <= |entries| && EmittedAll(entries[..n]) == Err
    ensures EmittedAll(entries) == Err
  {
    if n < |entries| {
      assert entries[..|entries| - 1][..n] == entries[..n];
      EmitErrStays(entries[..|entries| - 1], n);
    } else {
      assert entries[..n] == entries;
    }
  }

  lemma EmitNext(entries: seq<string>, n: nat)
    requires n < |entries| && EmittedAll(entries[..n]).Ok?
    ensures EmittedAll(entries[..n + 1]) ==
            match Emitted(entries[n]) case Err => Err case Ok(more) => Ok(EmittedAll(entries[..n]).value + more)
  {
    assert entries[..n + 1][..n] == entries[..n];
  }

  method ParseVisibilityOnlyMarkets(raw: string) returns (r: Result<seq<string>>)
    ensures r == ParsedVisibility(raw)
  {
    var out: seq<string> := [];
    var entries := Split(raw, ',');
    for n := 0 to |entries|
      invariant EmittedAll(entries[..n]) == Ok(out)
    {
      var key := F.Lower(Strip(entries[n]));
      EmitNext(entries, n);
      ghost var before := out;
      if key == "" { assert out + [] == out; continue; }
      if ':' in key {
        var i := F.Find(key, ':');
        var sport, market := Strip(key[..i]), Strip(key[i + 1..]);
        if sport == "" || market == "" || ':' in market { EmitErrStays(entries, n + 1); return Err; }
        out := out + [sport + ":" + market];
        if sport == "soccer" && market == "asian_handicap" { out := out + [SOCCER_SPREADS]; }
      } else {
        out := out + [key];
      }
      assert out == before + Emitted(entries[n]).value;
    }
    assert entries[..|entries|] == entries;
    var unique: seq<string> := [];
    for n := 0 to |out|
      invariant unique == Dedup(out[..n])
    {
      assert out[..n + 1][..n] == out[..n];
      if out[n] !in unique { unique := unique + [out[n]]; }
    }
    assert out[..|out|] == out;
    return Ok(unique);
  }

  // Parsing fails exactly when some entry is malformed.
  lemma {:induction false} VisibilityParsesIff(entries: seq<string>)
    ensures EmittedAll(entries).Ok? <==> forall i :: 0 <= i < |entries| ==> Emitted(entries[i]).Ok?
  {
    if entries != [] {
      VisibilityParsesIff(entries[..|entries| - 1]);
      assert forall i :: 0 <= i < |entries| - 1 ==> entries[..|entries| - 1][i] == entries[i];
    }
  }

  lemma {:induction false} DedupContents(keys: seq<string>)
    ensures Distinct(Dedup(keys))
    ensures forall k :: k in Dedup(keys) <==> k in keys
  {
    if keys != [] {
      DedupContents(keys[..|keys| - 1]);
      assert keys == keys[..|keys| - 1] + [keys[|keys| - 1]];
    }
  }

  // A key as the parser emits it: parsing it again gives it back, with its alias.
  function WithAlias(k: string, ah: string, sp: string): seq<string> { if k == ah then [k, sp] else [k] }

  ghost predicate Canonical(k: string) {
    Emitted(k) == Ok(WithAlias(k, SOCCER_AH, SOCCER_SPREADS)) && ',' !in k && k != ""
  }

  lemma LowerFixed(s: string)
    ensures F.Lower(s) == s <==> forall c :: c in s ==> F.LowerChar(c) == c
  {
    if F.Lower(s) == s {
      forall c | c in s ensures F.LowerChar(c) == c {
        var i :| 0 <= i < |s| && s[i] == c;
        assert F.Lower(s)[i] == F.LowerChar(c);
      }
    }
  }

  // A part of an emitted key.
  ghost predicate Token(s: string) {
    s != "" && Stripped(s) && F.Lower(s) == s && ',' !in s && ':' !in s
  }

  lemma StrippedToken(s: string)
    requires (forall c :: c in s ==> F.LowerChar(c) == c) && ',' !in s && ':' !in Strip(s) && Strip(s) != ""
    ensures Token(Strip(s))
  {
    StripIs(s);
    LowerFixed(Strip(s));
  }

  lemma PartitionAt(sport: string, market: string)
    requires ':' !in sport
    ensures var k := sport + ":" + market;
            ':' in k && F.Find(k, ':') == |sport| && k[..|sport|] == sport && k[|sport| + 1..] == market
  {
    var k := sport + ":" + market;
    assert k[|sport|] == ':';
    assert forall j :: 0 <= j < |sport| ==> k[j] == sport[j];
  }

  lemma SoccerKey(sport: string, market: string)
    requires ':' !in sport
    ensures sport + ":" + market == SOCCER_AH <==> sport == "soccer" && market == "asian_handicap"
  {
    PartitionAt(sport, market);
    PartitionAt("soccer", "asian_handicap");
  }

  lemma PlainIsCanonical(key: string)
    requires Token(key)
    ensures Canonical(key) && key != SOCCER_AH
  {
    StripIs(key);
    assert SOCCER_AH[6] == ':';
  }

  lemma QualifiedText(sport: string, market: string)
    requires Token(sport) && Token(market)
    ensures var k := sport + ":" + market;
            k != "" && Stripped(k) && F.Lower(k) == k && ',' !in k && F.Lower(Strip(k)) == k
  {
    var k := sport + ":" + market;
    LowerFixed(sport);
    LowerFixed(market);
    LowerFixed(k);
    StripIs(k);
  }

  lemma QualifiedIsCanonical(sport: string, market: string)
    requires Token(sport) && Token(market)
    ensures Canonical(sport + ":" + market)
  {
    QualifiedText(sport, market);
    PartitionAt(sport, market);
    SoccerKey(sport, market);
    StripIs(sport);
    StripIs(market);
  }

  lemma KeysDiffer()
    ensures SOCCER_SPREADS != SOCCER_AH
  {
    assert |SOCCER_SPREADS| == 14 && |SOCCER_AH| == 21;
  }

  lemma SoccerToken()
    ensures Token("soccer")
  {
  }

  lemma SpreadsToken()
    ensures Token("spreads")
  {
  }

  lemma AliasIsCanonical()
    ensures Canonical(SOCCER_SPREADS)
  {
    SoccerToken();
    SpreadsToken();
    QualifiedIsCanonical("soccer", "spreads");
  }

  // The lower-cased key of an entry, cut at its first colon.
  lemma CutKey(raw: string)
    requires ',' !in raw
    ensures var key := F.Lower(Strip(raw));
            && (key != "" && ':' !in key ==> Token(key))
            && (':' in key ==>
                  var sport, market := Strip(key[..F.Find(key, ':')]), Strip(key[F.Find(key, ':') + 1..]);
                  && (sport != "" ==> Token(sport))
                  && (market != "" && ':' !in market ==> Token(market)))
  {
    var key := F.Lower(Strip(raw));
    StripIs(raw);
    LowerKeeps(Strip(raw));
    LowerFixed(key);
    if ':' in key {
      var i := F.Find(key, ':');
      StripIs(key[..i]);
      StripIs(key[i + 1..]);
      if Strip(key[..i]) != "" { StrippedToken(key[..i]); }
      if Strip(key[i + 1..]) != "" && ':' !in Strip(key[i + 1..]) { StrippedToken(key[i + 1..]); }
    }
  }

  // What an entry emits: nothing, a plain key, or a qualified key with its alias.
  lemma EmittedShape(raw: string) returns (key: string)
    requires ',' !in raw && Emitted(raw).Ok?
    ensures Emitted(raw).value == []
            || (Canonical(key) && Emitted(raw).value == WithAlias(key, SOCCER_AH, SOCCER_SPREADS))
  {
    key := F.Lower(Strip(raw));
    CutKey(raw);
    if key != "" {
      if ':' !in key {
        PlainIsCanonical(key);
      } else {
        var sport, market := Strip(key[..F.Find(key, ':')]), Strip(key[F.Find(key, ':') + 1..]);
        key := sport + ":" + market;
        QualifiedIsCanonical(sport, market);
        SoccerKey(sport, market);
      }
    }
  }

  lemma EmittedIsCanonical(raw: string)
    requires ',' !in raw && Emitted(raw).Ok?
    ensures forall k :: k in Emitted(raw).value ==> Canonical(k)
    ensures SOCCER_AH in Emitted(raw).value ==> Emitted(raw).value == [SOCCER_AH, SOCCER_SPREADS]
  {
    var key := EmittedShape(raw);
    AliasIsCanonical();
    KeysDiffer();
  }

  // Wherever `ah` stands, its alias `sp` is in the list before it or
  // right behind it.
  ghost predicate AliasKept(keys: seq<string>, ah: string, sp: string) {
    forall i :: 0 <= i < |keys| && keys[i] == ah ==> AliasNear(keys, i, sp)
  }

  ghost predicate AliasNear(keys: seq<string>, i: nat, sp: string)
    requires i < |keys|
  {
    sp in keys[..i] || (i + 1 < |keys| && keys[i + 1] == sp)
  }

  lemma AliasAppend(out: seq<string>, more: seq<string>, ah: string, sp: string)
    requires ah != sp && AliasKept(out, ah, sp) && (ah in more ==> more == [ah, sp])
    ensures AliasKept(out + more, ah, sp)
  {
    var all := out + more;
    forall i | 0 <= i < |all| && all[i] == ah
      ensures AliasNear(all, i, sp)
    {
      if i < |out| {
        assert AliasNear(out, i, sp) && all[..i] == out[..i];
      } else {
        assert more[i - |out|] in more;
        assert more == [ah, sp] && i == |out|;
        assert all[i + 1] == more[1];
      }
    }
  }

  lemma {:induction false} EmittedKeepsAlias(entries: seq<string>)
    requires EmittedAll(entries).Ok? && forall e :: e in entries ==> ',' !in e
    ensures AliasKept(EmittedAll(entries).value, SOCCER_AH, SOCCER_SPREADS)
    ensures forall k :: k in EmittedAll(entries).value ==> Canonical(k)
  {
    if entries != [] {
      var init, last := entries[..|entries| - 1], entries[|entries| - 1];
      assert last in entries;
      EmittedKeepsAlias(init);
      EmittedIsCanonical(last);
      KeysDiffer();
      AliasAppend(EmittedAll(init).value, Emitted(last).value, SOCCER_AH, SOCCER_SPREADS);
    }
  }

  lemma {:induction false} EmitsExpanded(keys: seq<string>)
    requires forall k :: k in keys ==> Canonical(k)
    ensures EmittedAll(keys) == Ok(Expanded(keys, SOCCER_AH, SOCCER_SPREADS))
  {
    if keys != [] {
      assert keys[|keys| - 1] in keys;
      EmitsExpanded(keys[..|keys| - 1]);
    }
  }

  // The same, forgiving a handicap key at the very end.
  ghost predicate AliasFollows(keys: seq<string>, ah: string, sp: string) {
    forall i :: 0 <= i < |keys| - 1 && keys[i] == ah ==>
      sp in keys[..i] || keys[i + 1] == sp
  }

  // De-duplication in first-seen order keeps the alias in place.
  lemma {:induction false} DedupFollows(keys: seq<string>, ah: string, sp: string)
    requires ah != sp && AliasFollows(keys, ah, sp)
    ensures AliasFollows(Dedup(keys), ah, sp)
  {
    if keys != [] {
      var init, last := keys[..|keys| - 1], keys[|keys| - 1];
      assert forall i :: 0 <= i <= |init| ==> keys[..i] == init[..i];
      DedupFollows(init, ah, sp);
      DedupContents(init);
      if last !in init {
        if ah in init && last != sp { AliasCame(keys, ah, sp); }
        FollowsAppend(Dedup(init), last, ah, sp);
      }
    }
  }

  lemma FollowsAppend(d: seq<string>, last: string, ah: string, sp: string)
    requires ah != sp && AliasFollows(d, ah, sp) && (ah in d && last != sp ==> sp in d)
    ensures AliasFollows(d + [last], ah, sp)
  {
    var more := d + [last];
    forall i | 0 <= i < |d| && more[i] == ah ensures sp in more[..i] || more[i + 1] == sp {
      assert more[..i] == d[..i];
      if i == |d| - 1 && last != sp {
        var m :| 0 <= m < |d| && d[m] == sp;
        assert d[..i][m] == sp;
      }
    }
  }

  // Before the last key a handicap key has its alias.
  lemma AliasCame(keys: seq<string>, ah: string, sp: string)
    requires keys != [] && AliasFollows(keys, ah, sp) && ah in keys[..|keys| - 1] && keys[|keys| - 1] != sp
    ensures sp in keys[..|keys| - 1]
  {
    var init := keys[..|keys| - 1];
    var j :| 0 <= j < |init| && init[j] == ah;
    assert keys[j] == ah;
    if sp in keys[..j] {
      var m :| 0 <= m < j && keys[..j][m] == sp;
      assert init[m] == sp;
    } else {
      assert keys[j + 1] == sp && init[j + 1] == sp;
    }
  }

  lemma DedupKeepsAlias(keys: seq<string>, ah: string, sp: string)
    requires ah != sp && AliasKept(keys, ah, sp)
    ensures AliasKept(Dedup(keys), ah, sp)
  {
    var d := Dedup(keys);
    DedupFollows(keys, ah, sp);
    DedupContents(keys);
    forall i | 0 <= i < |d| && d[i] == ah
      ensures AliasNear(d, i, sp)
    {
      assert ah in d;
      var j :| 0 <= j < |keys| && keys[j] == ah;
      assert sp in keys by { if sp in keys[..j] {} else { assert keys[j + 1] == sp; } }
      if i == |d| - 1 {
        var m :| 0 <= m < |d| && d[m] == sp;
        assert d[..i][m] == sp;
      }
    }
  }

  function Expanded(keys: seq<string>, ah: string, sp: string): seq<string> {
    if keys == [] then [] else Expanded(keys[..|keys| - 1], ah, sp) + WithAlias(keys[|keys| - 1], ah, sp)
  }

  lemma DedupAppend(keys: seq<string>, k: string)
    ensures Dedup(keys + [k]) == if k in Dedup(keys) then Dedup(keys) else Dedup(keys) + [k]
  {
    assert (keys + [k])[..|keys|] == keys;
  }

  // The alias of the last key is still to come.
  predicate Pending(keys: seq<string>, n: nat, ah: string, sp: string)
    requires n <= |keys|
  {
    n > 0 && keys[n - 1] == ah && sp !in keys[..n]
  }

  lemma ExpandedStep(e: seq<string>, before: seq<string>, k: string, ah: string, sp: string)
    requires ah != sp && k !in before
    requires Dedup(e) == before || (Dedup(e) == before + [sp] && k == sp)
    ensures Dedup(e + WithAlias(k, ah, sp)) ==
            if k == ah && sp !in before then before + [k] + [sp] else before + [k]
  {
    DedupAppend(e, k);
    if k == ah {
      DedupAppend(e + [k], sp);
      assert e + WithAlias(k, ah, sp) == e + [k] + [sp];
    }
  }

  lemma PendingEnds(keys: seq<string>, n: nat, ah: string, sp: string)
    requires AliasKept(keys, ah, sp) && n < |keys| && Pending(keys, n, ah, sp)
    ensures keys[n] == sp
  {
    assert keys[..n] == keys[..n - 1] + [keys[n - 1]];
  }

  lemma {:induction false} DedupExpanded(keys: seq<string>, n: nat, ah: string, sp: string)
    requires ah != sp && Distinct(keys) && AliasKept(keys, ah, sp) && n <= |keys|
    ensures Dedup(Expanded(keys[..n], ah, sp)) == if Pending(keys, n, ah, sp) then keys[..n] + [sp] else keys[..n]
  {
    if n > 0 {
      DedupExpanded(keys, n - 1, ah, sp);
      var before, k := keys[..n - 1], keys[n - 1];
      if Pending(keys, n - 1, ah, sp) { PendingEnds(keys, n - 1, ah, sp); }
      assert k !in before;
      ExpandedStep(Expanded(before, ah, sp), before, k, ah, sp);
      ExpandedLast(keys, n, ah, sp);
    }
  }

  lemma ExpandedLast(keys: seq<string>, n: nat, ah: string, sp: string)
    requires 0 < n <= |keys| && ah != sp
    ensures keys[..n] == keys[..n - 1] + [keys[n - 1]]
    ensures Expanded(keys[..n], ah, sp) == Expanded(keys[..n - 1], ah, sp) + WithAlias(keys[n - 1], ah, sp)
    ensures Pending(keys, n, ah, sp) <==> keys[n - 1] == ah && sp !in keys[..n - 1]
  {
    assert keys[..n][..n - 1] == keys[..n - 1];
    assert keys[..n] == keys[..n - 1] + [keys[n - 1]];
  }

  lemma ExpandedDedups(keys: seq<string>, ah: string, sp: string)
    requires ah != sp && Distinct(keys) && AliasKept(keys, ah, sp)
    ensures Dedup(Expanded(keys, ah, sp)) == keys
  {
    DedupExpanded(keys, |keys|, ah, sp);
    assert keys[..|keys|] == keys;
    if ah in keys { AliasPresent(keys, ah, sp); }
  }

  lemma AliasPresent(keys: seq<string>, ah: string, sp: string)
    requires AliasKept(keys, ah, sp) && ah in keys
    ensures sp in keys
  {
    var i :| 0 <= i < |keys| && keys[i] == ah;
    if sp !in keys[..i] { assert keys[i + 1] == sp; }
  }

  lemma ReparsesTo(keys: seq<string>)
    requires Distinct(keys) && AliasKept(keys, SOCCER_AH, SOCCER_SPREADS) && forall k :: k in keys ==> Canonical(k)
    ensures ParsedVisibility(Join(keys, ',')) == Ok(keys)
  {
    KeysDiffer();
    EmitsExpanded(keys);
    ExpandedDedups(keys, SOCCER_AH, SOCCER_SPREADS);
    if keys == [] {
      assert Split("", ',') == [""] && [""][..0] == [];
    } else {
      SplitJoin(keys, ',');
    }
  }

  // The parsed list has no duplicates, never caps the soccer handicap without its
  // spreads twin, and parses back to itself.
  lemma VisibilityFixedPoint(raw: string)
    requires ParsedVisibility(raw).Ok?
    ensures var keys := ParsedVisibility(raw).value;
            && Distinct(keys)
            && (SOCCER_AH in keys ==> SOCCER_SPREADS in keys)
            && ParsedVisibility(Join(keys, ',')) == Ok(keys)
  {
    var out, keys := EmittedAll(Split(raw, ',')).value, ParsedVisibility(raw).value;
    SplitParts(raw, ',');
    EmittedKeepsAlias(Split(raw, ','));
    DedupContents(out);
    KeysDiffer();
    DedupKeepsAlias(out, SOCCER_AH, SOCCER_SPREADS);
    if SOCCER_AH in keys { AliasPresent(keys, SOCCER_AH, SOCCER_SPREADS); }
    ReparsesTo(keys);
  }
}
