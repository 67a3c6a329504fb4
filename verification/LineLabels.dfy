// The market labels of the fold spelled out: which texts name a quarter or half line in
// each vocabulary, what a totals label becomes, and which rows the fold adopts.

module LineLabels {
  import opened Common
  import opened FoldDetails

  predicate AllZeros(digits: string) { forall i :: 0 <= i < |digits| ==> digits[i] == '0' }

  // ----- digits and letters -----------------------------------------------------------

  lemma DigitIff(c: char)
    ensures Digit(c) <==> c in "0123456789"
  {
    if Digit(c) { assert c == "0123456789"[c as int - 48]; }
  }

  // Lowering a text replaces each of the 26 capitals by its own letter and nothing else.
  lemma LowerIs(s: string, i: nat)
    requires i < |s|
    ensures |Lower(s)| == |s|
    ensures s[i] !in "ABCDEFGHIJKLMNOPQRSTUVWXYZ" ==> Lower(s)[i] == s[i]
    ensures forall k :: 0 <= k < 26 && s[i] == "ABCDEFGHIJKLMNOPQRSTUVWXYZ"[k] ==>
              Lower(s)[i] == "abcdefghijklmnopqrstuvwxyz"[k]
  {
    var capitals, letters := "ABCDEFGHIJKLMNOPQRSTUVWXYZ", "abcdefghijklmnopqrstuvwxyz";
    if 'A' <= s[i] <= 'Z' { assert s[i] == capitals[s[i] as int - 65]; }
    forall k | 0 <= k < 26 ensures capitals[k] as int == 65 + k && letters[k] as int == 97 + k {}
  }

  // ----- the line a token names -----------------------------------------------------

  lemma {:induction false} NumBounds(digits: string)
    requires forall i :: 0 <= i < |digits| ==> Digit(digits[i])
    ensures 0 <= Num(digits) < Pow10(|digits|)
    ensures Num(digits) == 0 <==> AllZeros(digits)
  {
    if digits != "" {
      var init := digits[..|digits| - 1];
      assert forall i :: 0 <= i < |init| ==> init[i] == digits[i];
      NumBounds(init);
    }
  }

  lemma ProperFraction(n: int, p: int)
    requires 0 <= n < p
    ensures 0.0 <= n as real / p as real < 1.0
    ensures n as real / p as real == 0.0 <==> n == 0
  {
  }

  lemma FloorOf(n: int, r: real)
    requires 0.0 <= r < 1.0
    ensures (n as real + r).Floor == n
  {
  }

  lemma WholeToken(w: string)
    requires Digits(w)
    ensures IsLine(w) && Whole(w) == w && Part(w) == None && Value(w) == Num(w) as real && !Fractional(Value(w))
  {
    assert w[..|w|] == w;
    FloorOf(Num(w), 0.0);
  }

  lemma PartToken(w: string, f: string)
    requires Digits(w) && Digits(f)
    ensures var token := w + "_" + f; IsLine(token) && Whole(token) == w && Part(token) == Some(f)
  {
    var token := w + "_" + f;
    assert token[|w|] == '_' && forall k :: 0 <= k < |w| ==> token[k] == w[k];
    assert Underscore(token) == |w| && token[..|w|] == w && token[|w| + 1..] == f;
  }

  lemma PartValue(w: string, f: string)
    requires Digits(w) && Digits(f)
    ensures Value(w + "_" + f) == Num(w) as real + Fraction(f)
  {
    PartToken(w, f);
  }

  lemma FractionOf(n: int, r: real, v: real)
    requires 0.0 <= r < 1.0 && v == n as real + r
    ensures Fractional(v) <==> r != 0.0
  {
    FloorOf(n, r);
  }

  lemma FractionValue(f: string)
    requires Digits(f)
    ensures Fraction(f) == Num(f) as real / Pow10(|f|) as real && 0.0 <= Fraction(f) < 1.0
    ensures Fraction(f) == 0.0 <==> AllZeros(f)
  {
    NumBounds(f);
    ProperFraction(Num(f), Pow10(|f|));
  }

  // A line has a fraction exactly when its digits after the underscore are not all zero.
  lemma FractionIff(w: string, f: string)
    requires Digits(w) && Digits(f)
    ensures Value(w + "_" + f) == Num(w) as real + Fraction(f)
    ensures Fractional(Value(w + "_" + f)) <==> !AllZeros(f)
  {
    PartValue(w, f);
    FractionValue(f);
    FractionOf(Num(w), Fraction(f), Value(w + "_" + f));
  }

  lemma TokenShape(token: string)
    requires IsLine(token)
    ensures Part(token).None? ==> Digits(token) && token == Whole(token)
    ensures Part(token).Some? ==> Digits(Part(token).value) && token == Whole(token) + "_" + Part(token).value
    ensures Digits(Whole(token)) && Digit(token[0]) && Digit(token[|token| - 1])
  {
    var i := Underscore(token);
    assert Whole(token)[0] == token[0];
    if i == |token| {
      assert token[..i] == token;
    } else {
      assert token == token[..i] + [token[i]] + token[i + 1..];
      assert Part(token).value[|Part(token).value| - 1] == token[|token| - 1];
    }
  }

  // A further zero names the same line, as 0_5 and 0_50 do.
  lemma TrailingZero(w: string, f: string)
    requires Digits(w) && Digits(f)
    ensures Value(w + "_" + (f + "0")) == Value(w + "_" + f)
  {
    var g := f + "0";
    FractionIff(w, f);
    assert Digits(g);
    FractionIff(w, g);
    assert g[..|g| - 1] == f && g[|g| - 1] == '0';
    TenTimes(Num(f), Pow10(|f|));
  }

  lemma TenTimes(n: int, p: int)
    requires p > 0
    ensures (10 * n) as real / (10 * p) as real == n as real / p as real
  {
    var q := n as real / p as real;
    assert q * p as real == n as real;
    assert q * (10 * p) as real == (10 * n) as real;
  }

  lemma TwoDigits(a: char, b: char)
    requires Digit(a) && Digit(b)
    ensures Num([a, b]) == 10 * (a as int - '0' as int) + (b as int - '0' as int) && Digits([a, b]) && Pow10(2) == 100
  {
    OneDigit(a);
    assert [a, b][..1] == [a] && Pow10(1) == 10;
  }

  lemma OneDigit(a: char)
    requires Digit(a)
    ensures Num([a]) == a as int - '0' as int && Digits([a]) && Pow10(1) == 10
  {
    assert [a][..0] == "" && Pow10(0) == 1;
  }

  // A line reads as the decimal its digits spell, the underscore being the point.
  lemma OneDecimal(w: char, a: char)
    requires Digit(w) && Digit(a)
    ensures Value([w] + "_" + [a]) == (w as int - '0' as int) as real + (a as int - '0' as int) as real / 10.0
  {
    OneDigit(w);
    OneDigit(a);
    FractionIff([w], [a]);
  }

  lemma TwoDecimals(w: char, a: char, b: char)
    requires Digit(w) && Digit(a) && Digit(b)
    ensures var tens, ones := a as int - '0' as int, b as int - '0' as int;
            Value([w] + "_" + [a, b]) == (w as int - '0' as int) as real + (10 * tens + ones) as real / 100.0
  {
    OneDigit(w);
    TwoDigits(a, b);
    FractionIff([w], [a, b]);
  }

  // ----- the two spreads vocabularies -------------------------------------------------

  function NativeText(sign: string, token: string): string { "spreads_" + sign + token }

  // The native labels: spreads_<line>, spreads_minus_<line> and spreads_plus_<line>.
  lemma NativeTokenIff(d: string, token: string)
    ensures NativeToken(d) == Some(token) <==>
              IsLine(token) && exists sign :: sign in {"", "minus_", "plus_"} && Chomp(d) == NativeText(sign, token)
  {
    var c := Chomp(d);
    if NativeToken(d) == Some(token) {
      var rest := c[8..];
      assert c == "spreads_" + rest;
      if "minus_" <= rest {
        assert rest == "minus_" + token && c == NativeText("minus_", token);
      } else if "plus_" <= rest {
        assert rest == "plus_" + token && c == NativeText("plus_", token);
      } else {
        assert c == NativeText("", token);
      }
    }
    if IsLine(token) {
      TokenShape(token);
      forall sign | sign in {"", "minus_", "plus_"} && c == NativeText(sign, token)
        ensures NativeToken(d) == Some(token)
      {
        NativeReads(d, sign, token);
      }
    }
  }

  lemma NativeReads(d: string, sign: string, token: string)
    requires IsLine(token) && sign in {"", "minus_", "plus_"} && Chomp(d) == NativeText(sign, token)
    ensures NativeToken(d) == Some(token)
  {
    TokenShape(token);
    var rest := sign + token;
    AfterOwn("spreads_", rest);
    assert Chomp(d) == "spreads_" + rest;
    if sign == "" {
      assert rest == token;
      Unlike(token, "minus_");
      Unlike(token, "plus_");
    } else if sign == "plus_" {
      assert rest[0] == 'p';
      Unlike(rest, "minus_");
      OwnPrefix(token, "plus_");
    } else {
      assert "minus_" <= rest && rest[6..] == token;
    }
  }

  lemma Unlike(s: string, prefix: string)
    requires s != "" && prefix != "" && s[0] != prefix[0]
    ensures !(prefix <= s) && DropPrefix(s, prefix) == s
  {
  }

  lemma OwnPrefix(s: string, prefix: string)
    ensures prefix <= prefix + s && DropPrefix(prefix + s, prefix) == s
  {
  }

  lemma AfterOwn(prefix: string, rest: string)
    ensures AfterPrefix(prefix + rest, prefix) == Some(rest)
  {
  }

  function HandicapText(games: bool, minus: bool, token: string, tail: bool): string {
    "asian_handicap_"
    + ((if games then "games_" else "") + ((if minus then "-" else "") + (token + if tail then "_games" else "")))
  }

  lemma PrefixSplit(s: string, prefix: string)
    ensures s == (if prefix <= s then prefix else "") + DropPrefix(s, prefix)
  {
  }

  lemma SuffixSplit(s: string, suffix: string)
    requires suffix != ""
    ensures s == DropSuffix(s, suffix) + (if DropSuffix(s, suffix) != s then suffix else "")
  {
  }

  lemma HandicapSplit(rest: string)
    ensures var a := DropPrefix(rest, "games_");
            var b := DropSuffix(a, "_games");
            "asian_handicap_" + rest == HandicapText("games_" <= rest, "-" <= b, DropPrefix(b, "-"), b != a)
  {
    var a := DropPrefix(rest, "games_");
    var b := DropSuffix(a, "_games");
    PrefixSplit(rest, "games_");
    SuffixSplit(a, "_games");
    PrefixSplit(b, "-");
    Glued(rest, a, b, DropPrefix(b, "-"), if "games_" <= rest then "games_" else "", if "-" <= b then "-" else "",
          if b != a then "_games" else "");
  }

  lemma Glued(rest: string, a: string, b: string, token: string, games: string, sign: string, tail: string)
    requires rest == games + a && a == b + tail && b == sign + token
    ensures rest == games + (sign + (token + tail))
  {
    assert (sign + token) + tail == sign + (token + tail);
  }

  // The injected labels: asian_handicap_, an optional games_, an optional minus sign, the
  // line, and an optional _games.
  lemma HandicapTokenIff(d: string, token: string)
    ensures HandicapToken(d) == Some(token) <==>
              IsLine(token) && exists games, minus, tail :: Chomp(d) == HandicapText(games, minus, token, tail)
  {
    if HandicapToken(d) == Some(token) { HandicapShape(d, token); }
    if IsLine(token) {
      forall games, minus, tail | Chomp(d) == HandicapText(games, minus, token, tail)
        ensures HandicapToken(d) == Some(token)
      {
        HandicapReads(d, games, minus, token, tail);
      }
    }
  }

  lemma HandicapShape(d: string, token: string)
    requires HandicapToken(d) == Some(token)
    ensures IsLine(token) && exists games, minus, tail :: Chomp(d) == HandicapText(games, minus, token, tail)
  {
    var rest := AfterPrefix(Chomp(d), "asian_handicap_").value;
    assert Chomp(d) == "asian_handicap_" + rest;
    HandicapSplit(rest);
  }

  lemma NoSuffix(s: string, suffix: string)
    requires s != "" && suffix != "" && s[|s| - 1] != suffix[|suffix| - 1]
    ensures DropSuffix(s, suffix) == s
  {
    if |suffix| <= |s| { assert s[|s| - |suffix|..][|suffix| - 1] == s[|s| - 1]; }
  }

  lemma OwnSuffix(s: string, suffix: string)
    ensures DropSuffix(s + suffix, suffix) == s
  {
    var t := s + suffix;
    assert t[|t| - |suffix|..] == suffix && t[..|t| - |suffix|] == s;
  }

  lemma HandicapReads(d: string, games: bool, minus: bool, token: string, tail: bool)
    requires IsLine(token) && Chomp(d) == HandicapText(games, minus, token, tail)
    ensures HandicapToken(d) == Some(token)
  {
    TokenShape(token);
    var sign, end := if minus then "-" else "", if tail then "_games" else "";
    var a := sign + (token + end);
    var rest := (if games then "games_" else "") + a;
    AfterOwn("asian_handicap_", rest);
    if games { OwnPrefix(a, "games_"); } else { HandicapStart(a, sign, token, end); }
    assert DropPrefix(rest, "games_") == a;
    HandicapEnd(sign, token, tail);
    assert DropPrefix(sign + token, "-") == token by {
      if minus {
        OwnPrefix(token, "-");
      } else {
        assert sign + token == token;
        Unlike(token, "-");
      }
    }
    assert Chomp(d) == "asian_handicap_" + rest;
  }

  lemma HandicapStart(a: string, sign: string, token: string, end: string)
    requires sign in {"", "-"} && token != "" && Digit(token[0]) && a == sign + (token + end)
    ensures DropPrefix("" + a, "games_") == a
  {
    assert "" + a == a && a[0] == if sign == "" then token[0] else '-';
    Unlike(a, "games_");
  }

  lemma HandicapEnd(sign: string, token: string, tail: bool)
    requires token != "" && Digit(token[|token| - 1])
    ensures DropSuffix(sign + (token + if tail then "_games" else ""), "_games") == sign + token
  {
    if tail {
      OwnSuffix(sign + token, "_games");
      assert sign + (token + "_games") == (sign + token) + "_games";
    } else {
      assert sign + (token + "") == sign + token && (sign + token)[|sign + token| - 1] == token[|token| - 1];
      NoSuffix(sign + token, "_games");
    }
  }

  // A spreads row is of the injected vocabulary exactly when its label spells a line with
  // a fraction that way,
  lemma InjectedIff<R>(s: Snap<R>)
    ensures IsInjected(s) <==>
              s.market.Spreads? && s.detail.Some?
              && exists games, minus, tail, w, f :: Digits(w) && Digits(f) && !AllZeros(f)
                   && Chomp(s.detail.value) == HandicapText(games, minus, w + "_" + f, tail)
  {
    if s.market.Spreads? && s.detail.Some? {
      var d := s.detail.value;
      if IsInjected(s) {
        var token := HandicapToken(d).value;
        HandicapTokenIff(d, token);
        FractionalToken(token);
        var games, minus, tail :| Chomp(d) == HandicapText(games, minus, token, tail);
        var w, f := Whole(token), Part(token).value;
        assert Chomp(d) == HandicapText(games, minus, w + "_" + f, tail);
      }
      forall games, minus, tail, w, f | Digits(w) && Digits(f) && !AllZeros(f)
           && Chomp(d) == HandicapText(games, minus, w + "_" + f, tail)
        ensures IsInjected(s)
      {
        PartToken(w, f);
        HandicapReads(d, games, minus, w + "_" + f, tail);
        FractionIff(w, f);
      }
    }
  }

  // and of the native one when it spells such a line in that way.
  lemma NativeIff<R>(s: Snap<R>)
    ensures IsNative(s) <==>
              s.market.Spreads? && s.detail.Some?
              && exists sign, w, f :: sign in {"", "minus_", "plus_"} && Digits(w) && Digits(f) && !AllZeros(f)
                   && Chomp(s.detail.value) == NativeText(sign, w + "_" + f)
  {
    if s.market.Spreads? && s.detail.Some? {
      var d := s.detail.value;
      if IsNative(s) {
        var token := NativeToken(d).value;
        NativeTokenIff(d, token);
        FractionalToken(token);
        var sign :| sign in {"", "minus_", "plus_"} && Chomp(d) == NativeText(sign, token);
        var w, f := Whole(token), Part(token).value;
        assert Chomp(d) == NativeText(sign, w + "_" + f);
      }
      forall sign, w, f | sign in {"", "minus_", "plus_"} && Digits(w) && Digits(f) && !AllZeros(f)
           && Chomp(d) == NativeText(sign, w + "_" + f)
        ensures IsNative(s)
      {
        PartToken(w, f);
        NativeReads(d, sign, w + "_" + f);
        FractionIff(w, f);
      }
    }
  }

  lemma FractionalToken(token: string)
    requires IsLine(token) && Fractional(Value(token))
    ensures Part(token).Some? && Digits(Whole(token)) && Digits(Part(token).value) && !AllZeros(Part(token).value)
    ensures token == Whole(token) + "_" + Part(token).value
  {
    TokenShape(token);
    if Part(token).None? { WholeToken(token); } else { FractionIff(Whole(token), Part(token).value); }
  }

  // ----- what the fold adopts ---------------------------------------------------------

  // A spreads row of the scraped provider for the selection of `s`.
  predicate SpreadsQuote<R>(t: Snap<R>, s: Snap<R>) {
    && t.market.Spreads? && t.detail.Some? && "spreads_" <= t.detail.value
    && t.event == s.event && t.selection == s.selection
  }

  // Quoted under the same selection, spreads_minus_<w>_<f> adopts asian_handicap_-<w>_<f>
  // whenever the fraction is not zero and no other spreads label quotes the selection.
  lemma QuarterLineAdopted<R(!new)>(snaps: seq<Snap<R>>, i: nat, k: nat, w: string, f: string)
    requires i < |snaps| && k < |snaps| && Digits(w) && Digits(f) && !AllZeros(f)
    requires snaps[i].market.Spreads? && snaps[i].detail == Some("asian_handicap_-" + w + "_" + f)
    requires snaps[k].market.Spreads? && snaps[k].detail == Some("spreads_minus_" + w + "_" + f)
    requires snaps[k].event == snaps[i].event && snaps[k].selection == snaps[i].selection
    requires forall j :: 0 <= j < |snaps| && SpreadsQuote(snaps[j], snaps[i]) ==> snaps[j].detail == snaps[k].detail
    ensures Folded(snaps)[i] == snaps[i].(detail := Some("spreads_minus_" + w + "_" + f))
  {
    var native, injected := snaps[k].detail.value, snaps[i].detail.value;
    MinusLabels(w, f);
    forall j | 0 <= j < |snaps| && Rival(snaps[j], snaps[i]) ensures snaps[j].detail == snaps[k].detail {
      NativeStarts(snaps[j].detail.value);
    }
    assert IsNative(snaps[k]) && IsInjected(snaps[i]);
    assert SoleRival(snaps, k, snaps[i]);
    AdoptedIff(snaps, i);
  }

  lemma NativeStarts(d: string)
    requires NativeToken(d).Some?
    ensures "spreads_" <= d
  {
    assert "spreads_" <= Chomp(d) <= d;
  }

  // The two labels of one line with a negative sign.
  lemma MinusLabels(w: string, f: string)
    requires Digits(w) && Digits(f)
    ensures var token := w + "_" + f;
            var native, injected := "spreads_minus_" + w + "_" + f, "asian_handicap_-" + w + "_" + f;
            && NativeToken(native) == Some(token) && HandicapToken(injected) == Some(token)
            && (Fractional(Value(token)) <==> !AllZeros(f))
            && AbsLine(Some(native)) == Some(Value(token)) == AbsLine(Some(injected))
  {
    var token, native, injected := w + "_" + f, "spreads_minus_" + w + "_" + f, "asian_handicap_-" + w + "_" + f;
    PartToken(w, f);
    FractionIff(w, f);
    MinusTexts(w, f);
    NativeReads(native, "minus_", token);
    HandicapReads(injected, false, true, token, false);
    LabelsDiffer(native);
    LabelsDiffer(injected);
  }

  lemma MinusTexts(w: string, f: string)
    requires Digits(f)
    ensures var token := w + "_" + f;
            var native, injected := "spreads_minus_" + w + "_" + f, "asian_handicap_-" + w + "_" + f;
            && native == NativeText("minus_", token) && injected == HandicapText(false, true, token, false)
            && Chomp(native) == native && Chomp(injected) == injected
  {
    var native, injected := "spreads_minus_" + w + "_" + f, "asian_handicap_-" + w + "_" + f;
    EndsInDigit("spreads_minus_" + w + "_", f);
    EndsInDigit("asian_handicap_-" + w + "_", f);
    assert native == "spreads_" + "minus_" + (w + "_" + f);
    assert injected == "asian_handicap_" + ("" + ("-" + ((w + "_" + f) + "")));
  }

  lemma EndsInDigit(s: string, f: string)
    requires Digits(f)
    ensures Chomp(s + f) == s + f
  {
    assert (s + f)[|s + f| - 1] == f[|f| - 1];
  }

  // A row whose label does not spell a line with a fraction in the injected vocabulary is
  // never adopted: it keeps its canonical label.
  lemma OthersNeverAdopted<R(!new)>(snaps: seq<Snap<R>>, i: nat)
    requires i < |snaps|
    requires !(snaps[i].market.Spreads? && snaps[i].detail.Some?
               && exists games, minus, tail, w, f :: Digits(w) && Digits(f) && !AllZeros(f)
                    && Chomp(snaps[i].detail.value) == HandicapText(games, minus, w + "_" + f, tail))
    ensures Folded(snaps)[i] == snaps[i].(detail := CanonicalDetail(snaps[i].detail))
  {
    InjectedIff(snaps[i]);
    CanonedInjected(snaps[i]);
  }

  lemma CanonedInjected<R>(s: Snap<R>)
    ensures IsInjected(Canoned(s)) ==> IsInjected(s)
  {
    if s.detail.Some? && CanonicalDetail(s.detail).Some? && CanonicalDetail(s.detail) != s.detail {
      var name := CanonicalDetail(s.detail).value;
      assert |name| >= 7 && name[..7] == "totals_";
      assert name[0] == 't' && Chomp(name)[0] == 't';
    }
  }

  // In particular whole lines stay apart, with or without a zero fraction.
  lemma WholeLineStays<R(!new)>(snaps: seq<Snap<R>>, i: nat, games: bool, minus: bool, w: string, f: Option<string>,
                                tail: bool)
    requires i < |snaps| && Digits(w) && (f.Some? ==> Digits(f.value) && AllZeros(f.value))
    requires snaps[i].detail == Some(HandicapText(games, minus, if f.Some? then w + "_" + f.value else w, tail))
    ensures Folded(snaps)[i] == snaps[i]
  {
    var token := if f.Some? then w + "_" + f.value else w;
    var d := snaps[i].detail.value;
    if f.Some? { PartToken(w, f.value); FractionIff(w, f.value); } else { WholeToken(w); }
    TokenShape(token);
    assert d[|d| - 1] == if tail then 's' else token[|token| - 1];
    HandicapReads(d, games, minus, token, tail);
    LabelsDiffer(d);
    assert !IsInjected(snaps[i]) && Canoned(snaps[i]) == snaps[i];
  }

  // The smallest case: a quarter ball quoted by both providers.
  lemma QuarterBall(injected: Snap<int>, native: Snap<int>)
    requires injected.market.Spreads? && injected.detail == Some("asian_handicap_-0_25")
    requires native.market.Spreads? && native.detail == Some("spreads_minus_0_25")
    requires native.event == injected.event && native.selection == injected.selection
    ensures Folded([native, injected])[1] == injected.(detail := Some("spreads_minus_0_25"))
  {
    var snaps := [native, injected];
    assert "asian_handicap_-0_25" == "asian_handicap_-" + "0" + "_" + "25";
    assert "spreads_minus_0_25" == "spreads_minus_" + "0" + "_" + "25";
    assert injected.detail.value[0] == 'a' && "25"[0] == '2';
    QuarterLineAdopted(snaps, 1, 0, "0", "25");
  }

  // ----- totals and labels without a line -----------------------------------------------

  // Both spellings of a total, over_under_<line> and over_under_games_<line>, fold to one
  // in any case, and an integer total loses _0.
  lemma TotalsFold(text: string, games: string, token: string)
    requires IsLine(token) && games in {"", "games_"} && Lower(text) == "over_under_" + (games + token)
    ensures CanonicalDetail(Some(text)) == Some("totals_" + if Part(token) == Some("0") then Whole(token) else token)
  {
    OverUnderReads(games, token);
    assert |Lower(text)| >= 11;
    OverUnderFolds(text, token);
  }

  lemma OverUnderFolds(text: string, token: string)
    requires OverUnderToken(Lower(text)) == Some(token) && |Lower(text)| >= 11
    ensures CanonicalDetail(Some(text)) == Some("totals_" + if Part(token) == Some("0") then Whole(token) else token)
  {
  }

  lemma OverUnderReads(games: string, token: string)
    requires IsLine(token) && games in {"", "games_"}
    ensures OverUnderToken("over_under_" + (games + token)) == Some(token)
  {
    TokenShape(token);
    var rest := games + token;
    assert rest[|rest| - 1] == token[|token| - 1];
    EndsLikeItself("over_under_", rest);
    AfterOwn("over_under_", rest);
    if games == "" {
      assert rest == token;
      Unlike(token, "games_");
    } else {
      OwnPrefix(token, "games_");
    }
  }

  lemma EndsLikeItself(prefix: string, rest: string)
    requires rest != "" && rest[|rest| - 1] != '\n'
    ensures Chomp(prefix + rest) == prefix + rest
  {
    assert (prefix + rest)[|prefix + rest| - 1] == rest[|rest| - 1];
  }

  lemma TotalsKept(text: string, token: string)
    requires IsLine(token) && Lower(text) == "totals_" + token
    ensures CanonicalDetail(Some(text)) == Some(if Part(token) == Some("0") then "totals_" + Whole(token) else text)
  {
    TotalsReadsBack(token);
    assert |Lower(text)| > 5;
  }

  lemma LinelessFold(text: string)
    requires Lower(text) in {"h2h", "1x2", "btts"}
    ensures CanonicalDetail(Some(text)) == None
  {
  }
}
