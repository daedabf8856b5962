/**
 * Player identity resolution and team market value (calculate_market_values.py):
 * name normalisation, parsing of scraped amounts and stored lineups, the token
 * overlap score, the layered resolution of a lineup name to a market value inside
 * one (season, team) scope, and the team totals written into the feature table.
 */
module MarketValues {
  import opened Common
  import opened PyText
  import opened Values
  import opened Frames

  /**
   * The Unicode data the source takes from Python: `lower` is `str.lower()` and
   * `decompose` the NFD decomposition, both for code points outside ASCII (ASCII
   * characters are handled explicitly).
   */
  datatype UnicodeTables = UnicodeTables(lower: char -> string, decompose: char -> string)

  // ---------------------------------------------------------------- normalize_text

  /** `unicodedata.normalize("NFD", s)`, character by character. */
  function Decompose(s: string, table: char -> string): string
  {
    if s == [] then [] else
      (if IsAscii(s[0]) then [s[0]] else table(s[0])) + Decompose(s[1..], table)
  }

  /** `.encode("ascii", "ignore").decode()`: drops every non-ASCII character. */
  function AsciiOnly(s: string): (r: string)
    ensures forall c :: c in r ==> IsAscii(c)
  {
    if s == [] then [] else (if IsAscii(s[0]) then [s[0]] else []) + AsciiOnly(s[1..])
  }

  /** `re.sub(r"[^a-z\s]", " ", s)`. */
  function Scrub(s: string): (r: string)
    ensures |r| == |s|
    ensures forall i :: 0 <= i < |r| ==> IsLowerLetter(r[i]) || IsSpace(r[i])
    ensures forall i :: 0 <= i < |s| && (IsLowerLetter(s[i]) || IsSpace(s[i])) ==> r[i] == s[i]
    ensures forall i :: 0 <= i < |s| && !IsLowerLetter(s[i]) && !IsSpace(s[i]) ==> r[i] == ' '
  {
    seq(|s|, i requires 0 <= i < |s| => if IsLowerLetter(s[i]) || IsSpace(s[i]) then s[i] else ' ')
  }

  /** No two spaces side by side. */
  predicate NoDoubleSpace(s: string)
  {
    forall i :: 0 <= i < |s| - 1 ==> !(s[i] == ' ' && s[i + 1] == ' ')
  }

  /**
   * `re.sub(r"\s+", " ", s)`: every maximal run of white space becomes one space;
   * `inRun` says the character before `s` was white space already replaced.
   */
  function Squeeze(s: string, inRun: bool): (r: string)
    ensures forall i :: 0 <= i < |r| ==> r[i] == ' ' || (r[i] in s && !IsSpace(r[i]))
    ensures NoDoubleSpace(r)
    ensures inRun ==> r == [] || r[0] != ' '
  {
    if s == [] then []
    else if IsSpace(s[0]) then
      var rest := Squeeze(s[1..], true);
      if inRun then rest else [' '] + rest
    else
      var rest := Squeeze(s[1..], false);
      assert forall i :: 0 <= i < |rest| ==> rest[i] == ' ' || (rest[i] in s && !IsSpace(rest[i]));
      [s[0]] + rest
  }

  /**
   * `re.sub(r"\s+", " ", s).strip()` is `" ".join(s.split())`: squeezing the runs of
   * white space and stripping the ends keeps exactly the words, one space apart.
   */
  lemma SqueezeWords(s: string)
    ensures Strip(Squeeze(s, false)) == Join(Words(s), " ")
  {
    if s != [] && IsSpace(s[0]) {
      var t := StripLeft(s);
      SqueezeSpaces(s, false);
      SqueezedStart(t);
      StripAfterSpace(Squeeze(t, true));
      SqueezeRun(t);
      WordsStripLeft(s);
    } else if s != [] {
      assert Squeeze(s, false) == Squeeze(s, true);
      SqueezeRun(s);
    }
  }

  /** What is squeezed after a run starts with no white space. */
  lemma SqueezedStart(t: string)
    ensures var x := Squeeze(t, true); x == [] || !IsSpace(x[0])
  {
    var x := Squeeze(t, true);
    if x != [] {
      assert x[0] == ' ' || !IsSpace(x[0]);
    }
  }

  /** After a replaced run, what is left to squeeze rstrips to its words. */
  lemma {:induction false} SqueezeRun(s: string)
    ensures StripRight(Squeeze(s, true)) == Join(Words(s), " ")
    decreases |s|, 1
  {
    if s == [] {
    } else if IsSpace(s[0]) {
      var t := StripLeft(s);
      assert t == StripLeft(s[1..]);
      SqueezeSpaces(s, true);
      assert Squeeze(s, true) == Squeeze(t, true);
      WordsStripLeft(s);
      SqueezeRun(t);
    } else {
      SqueezeRunWord(s);
    }
  }

  /** The word case of `SqueezeRun`: the word, then one space and the rest's words. */
  lemma {:induction false} SqueezeRunWord(s: string)
    requires s != [] && !IsSpace(s[0])
    ensures StripRight(Squeeze(s, true)) == Join(Words(s), " ")
    decreases |s|, 0
  {
    var n := WordEnd(s, 0);
    SqueezeWord(s, true, n);
    WordsFirst(s);
    var t := StripLeft(s[n..]);
    if t != [] {
      SqueezeRun(t);
    }
    SqueezeAfterWord(s[..n], s[n..]);
  }

  /** A word, then what follows it: nothing, or white space and then the rest. */
  lemma SqueezeAfterWord(w: string, u: string)
    requires w != [] && !IsSpace(w[|w| - 1])
    requires u == [] || IsSpace(u[0])
    requires var t := StripLeft(u); t != [] ==> StripRight(Squeeze(t, true)) == Join(Words(t), " ")
    ensures StripRight(w + Squeeze(u, false)) == Join([w] + Words(u), " ")
  {
    if u == [] {
      assert Squeeze(u, false) == [] && Words(u) == [];
      assert w + Squeeze(u, false) == w && [w] + Words(u) == [w];
      assert StripRight(w) == w;
    } else {
      SqueezeSpaces(u, false);
      WordsStripLeft(u);
      SqueezeAfterSpace(w, Squeeze(u, false), StripLeft(u));
    }
  }

  /** The space after a word, then the squeezed rest. */
  lemma SqueezeAfterSpace(w: string, x: string, t: string)
    requires w != [] && !IsSpace(w[|w| - 1])
    requires x == " " + Squeeze(t, true)
    requires t == [] || !IsSpace(t[0])
    requires t != [] ==> StripRight(Squeeze(t, true)) == Join(Words(t), " ")
    ensures StripRight(w + x) == Join([w] + Words(t), " ")
  {
    JoinCons(w, Words(t), " ");
    assert w + x == w + " " + Squeeze(t, true);
    if t == [] {
      StripRightWordSpace(w);
    } else {
      SqueezeRunMore(w, t);
    }
  }

  /** A word followed by a single space rstrips to the word. */
  lemma StripRightWordSpace(w: string)
    requires w != [] && !IsSpace(w[|w| - 1])
    ensures StripRight(w + " " + []) == w
  {
    assert (w + " " + [])[..|w + " " + []| - 1] == w;
  }

  /** Another word after the space: the rstrip reaches only into the rest. */
  lemma SqueezeRunMore(w: string, t: string)
    requires t != [] && !IsSpace(t[0])
    requires StripRight(Squeeze(t, true)) == Join(Words(t), " ")
    ensures StripRight(w + " " + Squeeze(t, true)) == w + (" " + Join(Words(t), " "))
  {
    WordsFirst(t);
    assert Words(t) != [] && Words(t)[0] != [];
    JoinCons(Words(t)[0], Words(t)[1..], " ");
    assert [Words(t)[0]] + Words(t)[1..] == Words(t);
    StripRightAppend(w + " ", Squeeze(t, true));
  }

  /** A word at the front of `s` is copied through as it stands. */
  lemma SqueezeWord(s: string, inRun: bool, n: nat)
    requires 0 < n <= |s|
    requires forall k :: 0 <= k < n ==> !IsSpace(s[k])
    ensures Squeeze(s, inRun) == s[..n] + Squeeze(s[n..], false)
  {
    SqueezeWordFrom(s, 0, n, inRun);
    assert s[0..] == s && s[0..n] == s[..n];
  }

  lemma {:induction false} SqueezeWordFrom(s: string, i: nat, n: nat, inRun: bool)
    requires i < n <= |s|
    requires forall k :: i <= k < n ==> !IsSpace(s[k])
    ensures Squeeze(s[i..], inRun) == s[i..n] + Squeeze(s[n..], false)
    decreases n - i
  {
    assert s[i..][1..] == s[i + 1..];
    assert Squeeze(s[i..], inRun) == [s[i]] + Squeeze(s[i + 1..], false);
    if i + 1 < n {
      SqueezeWordFrom(s, i + 1, n, false);
      Reassociate([s[i]], s[i + 1..n], Squeeze(s[n..], false));
      assert [s[i]] + s[i + 1..n] == s[i..n];
    } else {
      assert [s[i]] == s[i..n];
    }
  }

  lemma Reassociate(a: string, b: string, c: string)
    ensures a + (b + c) == (a + b) + c
  {
  }

  /** A run of white space at the front of `s` becomes one space, or none after a run. */
  lemma {:induction false} SqueezeSpaces(s: string, inRun: bool)
    requires s != [] && IsSpace(s[0])
    ensures Squeeze(s, inRun) == (if inRun then [] else " ") + Squeeze(StripLeft(s), true)
  {
    if |s| > 1 && IsSpace(s[1]) {
      SqueezeSpaces(s[1..], true);
    }
  }

  /** The canonical form: lower-case letters and single inner spaces only. */
  predicate IsNormalized(r: string)
  {
    && (forall i :: 0 <= i < |r| ==> IsLowerLetter(r[i]) || r[i] == ' ')
    && (r == [] || (r[0] != ' ' && r[|r| - 1] != ' '))
    && NoDoubleSpace(r)
  }

  /** `normalize_text` on a string. */
  function NormalizeString(s: string, u: UnicodeTables): (r: string)
    ensures IsNormalized(r)
  {
    var scrubbed := Scrub(AsciiOnly(Decompose(Lower(s, u.lower), u.decompose)));
    var squeezed := Squeeze(scrubbed, false);
    StripNormalized(squeezed);
    Strip(squeezed)
  }

  /** Stripping a squeezed string of letters and spaces leaves a canonical one. */
  lemma StripNormalized(t: string)
    requires forall i :: 0 <= i < |t| ==> IsLowerLetter(t[i]) || t[i] == ' '
    requires NoDoubleSpace(t)
    ensures IsNormalized(Strip(t))
  {
    var i, j := StripSlice(t);
    SliceCanonical(t, i, j);
    assert IsSpace(' ');
  }

  lemma SliceCanonical(t: string, i: nat, j: nat)
    requires i <= j <= |t|
    requires forall k :: 0 <= k < |t| ==> IsLowerLetter(t[k]) || t[k] == ' '
    requires NoDoubleSpace(t)
    ensures forall k :: 0 <= k < j - i ==> IsLowerLetter(t[i..j][k]) || t[i..j][k] == ' '
    ensures NoDoubleSpace(t[i..j])
  {
    assert forall k :: 0 <= k < j - i ==> t[i..j][k] == t[i + k];
  }

  /** `normalize_text(text)`: "" for anything that is not a string. */
  function NormalizeText(v: Value, u: UnicodeTables): (r: string)
    ensures IsNormalized(r)
    ensures !v.Str? ==> r == []
    ensures v.Str? ==> r == Join(Words(Scrub(AsciiOnly(Decompose(Lower(v.s, u.lower), u.decompose)))), " ")
  {
    if v.Str? then NormalizeStringWords(v.s, u); NormalizeString(v.s, u) else []
  }

  lemma {:induction false} DecomposeAscii(s: string, table: char -> string)
    requires forall c :: c in s ==> IsAscii(c)
    ensures Decompose(s, table) == s && AsciiOnly(s) == s
  {
    if s != [] {
      DecomposeAscii(s[1..], table);
    }
  }

  lemma {:induction false} SqueezeCanonical(s: string, inRun: bool)
    requires forall i :: 0 <= i < |s| ==> IsLowerLetter(s[i]) || s[i] == ' '
    requires NoDoubleSpace(s)
    requires inRun ==> s == [] || s[0] != ' '
    ensures Squeeze(s, inRun) == s
  {
    if s != [] {
      SqueezeCanonical(s[1..], s[0] == ' ');
    }
  }

  /** Normalising a normalised name changes nothing. */
  lemma NormalizeStringFixed(t: string, u: UnicodeTables)
    requires IsNormalized(t)
    ensures NormalizeString(t, u) == t
  {
    LowerOfLowerAscii(t, u.lower);
    DecomposeAscii(t, u.decompose);
    assert Scrub(t) == t;
    SqueezeCanonical(t, false);
    StripUnchanged(t);
  }

  /** `normalize_text` is idempotent. */
  lemma NormalizeTextIdempotent(v: Value, u: UnicodeTables)
    ensures NormalizeText(Str(NormalizeText(v, u)), u) == NormalizeText(v, u)
  {
    NormalizeStringFixed(NormalizeText(v, u), u);
  }

  /**
   * `normalize_text` is `" ".join(t.split())` of the lowered, decomposed, ASCII-only
   * and scrubbed text `t`: the regular-expression squeeze and the strip keep its words.
   */
  lemma NormalizeStringWords(s: string, u: UnicodeTables)
    ensures NormalizeString(s, u) == Join(Words(Scrub(AsciiOnly(Decompose(Lower(s, u.lower), u.decompose)))), " ")
  {
    SqueezeWords(Scrub(AsciiOnly(Decompose(Lower(s, u.lower), u.decompose))));
  }

  /** On ASCII input the Unicode tables play no part: lower, scrub, and keep the words. */
  lemma NormalizeAsciiWords(s: string, u: UnicodeTables)
    requires forall i :: 0 <= i < |s| ==> IsAscii(s[i])
    ensures NormalizeString(s, u) == Join(Words(Scrub(Lower(s, u.lower))), " ")
  {
    LowerAscii(s, u.lower);
    var l := Lower(s, u.lower);
    assert forall c :: c in l ==> IsAscii(c);
    DecomposeAscii(l, u.decompose);
    NormalizeStringWords(s, u);
  }

  /** ASCII names that differ only in letter case normalise alike. */
  lemma NormalizeCaseless(s: string, t: string, u: UnicodeTables)
    requires |s| == |t|
    requires forall i :: 0 <= i < |s| ==> IsAscii(s[i]) && IsAscii(t[i]) && AsciiLower(s[i]) == AsciiLower(t[i])
    ensures NormalizeString(s, u) == NormalizeString(t, u)
  {
    LowerCaseless(s, t, u.lower);
  }

  // ------------------------------------------------------------ parse_market_values

  /** The mis-decoded euro sign "â‚¬" that the scraper's files contain. */
  const EuroMojibake: string := "\U{E2}\U{201A}\U{AC}"

  /** The rewriting chain of `parse_market_values` after `lower().strip()`. */
  function RewriteAmount(s: string): string
  {
    RewriteUnits(Replace(s, ",", "."))
  }

  /** The removal of the euro sign and the spelled-out units, in the source's order. */
  function RewriteUnits(s1: string): string
  {
    var s2 := Replace(s1, EuroMojibake, "");
    var s3 := Replace(s2, "millones", "m");
    var s4 := Replace(s3, "millon", "m");
    var s5 := Replace(s4, "mill.", "m");
    var s6 := Replace(s5, "mill", "m");
    Replace(s6, " mil", "k")
  }

  /** The text `parse_market_values` searches: lowered, stripped, rewritten. */
  function AmountText(raw: string, lower: char -> string): string
  {
    RewriteAmount(Strip(Lower(raw, lower)))
  }

  predicate IsNumberChar(c: char) { IsDigit(c) || c == '.' }

  /** End of the run of number characters that starts at `i`. */
  function RunEnd(s: string, i: nat): (r: nat)
    requires i <= |s|
    ensures i <= r <= |s|
    ensures forall k :: i <= k < r ==> IsNumberChar(s[k])
    ensures r < |s| ==> !IsNumberChar(s[r])
    decreases |s| - i
  {
    if i == |s| || !IsNumberChar(s[i]) then i else RunEnd(s, i + 1)
  }

  /** `re.findall(r"[\d.]+", s)[0]`: the first maximal run of digits and dots, if any. */
  function FirstNumberRun(s: string): (r: Option<string>)
    ensures r.None? <==> forall k :: 0 <= k < |s| ==> !IsNumberChar(s[k])
    ensures r.Some? ==> r.value != [] && forall c :: c in r.value ==> IsNumberChar(c)
  {
    if s == [] then None
    else if IsNumberChar(s[0]) then Some(s[..RunEnd(s, 0)])
    else FirstNumberRun(s[1..])
  }

  /** How many times `c` occurs in `s`. */
  function Count(s: string, c: char): nat
  {
    if s == [] then 0 else (if s[0] == c then 1 else 0) + Count(s[1..], c)
  }

  lemma {:induction false} CountZero(s: string, c: char)
    ensures Count(s, c) == 0 <==> c !in s
  {
    if s != [] {
      CountZero(s[1..], c);
    }
  }

  /** The digits of `s`, dots left out. */
  function DigitsOf(s: string): (r: string)
    ensures forall c :: c in r ==> IsDigit(c)
  {
    if s == [] then [] else (if IsDigit(s[0]) then [s[0]] else []) + DigitsOf(s[1..])
  }

  /** Position of the first `c` in `s`. */
  function IndexOf(s: string, c: char): (r: nat)
    requires c in s
    ensures r < |s| && s[r] == c && c !in s[..r]
  {
    if s[0] == c then 0 else 1 + IndexOf(s[1..], c)
  }

  /** A decimal number `digits / 10^places`. */
  datatype Decimal = Decimal(digits: nat, places: nat)

  /**
   * `float(run)` for a run of digits and dots: valid when it has a digit and at most
   * one dot; the value keeps every digit, the dot fixing the decimal places.
   */
  function ParseFloat(run: string): (r: Option<Decimal>)
    requires forall c :: c in run ==> IsNumberChar(c)
    ensures r.Some? <==> Count(run, '.') <= 1 && exists c :: c in run && IsDigit(c)
  {
    if Count(run, '.') > 1 || forall c :: c in run ==> !IsDigit(c) then None
    else
      var places := if '.' in run then |run| - 1 - IndexOf(run, '.') else 0;
      Some(Decimal(DigitsValue(DigitsOf(run)), places))
  }

  /** The unit factor: a million when an "m" is left, else a thousand for a "k". */
  function Multiplier(s: string): nat
  {
    if 'm' in s then 1000000 else if 'k' in s then 1000 else 1
  }

  /**
   * `parse_market_values(v)`: the integral part of the first number of the rewritten
   * text times its unit; 0 for a non-string, for a text with no number, and for a
   * first number that `float` rejects.
   */
  function ParseMarketValue(v: Value, lower: char -> string): (r: nat)
    ensures !v.Str? ==> r == 0
    ensures v.Str? && FirstNumberRun(AmountText(v.s, lower)).None? ==> r == 0
    ensures v.Str? ==> var run := FirstNumberRun(AmountText(v.s, lower));
              run.Some? && ParseFloat(run.value).None? ==> r == 0
  {
    if !v.Str? then 0 else AmountValue(AmountText(v.s, lower))
  }

  /** The value of a rewritten amount text: its first number times its unit. */
  function AmountValue(s: string): nat
  {
    match FirstNumberRun(s)
    case None => 0
    case Some(run) =>
      match ParseFloat(run)
      case None => 0
      case Some(d) => ScaledValue(d, Multiplier(s))
  }

  /** `int(float(run) * multiplier)` on the exact decimal. */
  function ScaledValue(d: Decimal, multiplier: nat): (r: nat)
    ensures r * Pow10(d.places) <= d.digits * multiplier < r * Pow10(d.places) + Pow10(d.places)
  {
    var num: nat := d.digits * multiplier;
    IntegralPart(num, Pow10(d.places))
  }

  /** `int(num / den)` for non-negative numbers: the integral part of the quotient. */
  function IntegralPart(num: nat, den: nat): (r: nat)
    requires den >= 1
    ensures r * den <= num < r * den + den
  {
    DivisionBounds(num, den);
    num / den
  }

  lemma DivisionBounds(a: nat, b: nat)
    requires b >= 1
    ensures (a / b) * b <= a < (a / b) * b + b
  {
    var q, m := a / b, a % b;
    assert a == q * b + m && 0 <= m < b;
  }

  /** The units a scraped amount is written in. */
  datatype Unit = Units | Thousands | Millions

  function UnitSuffix(unit: Unit): string
  {
    match unit
    case Units => ""
    case Thousands => " mil"
    case Millions => " mill."
  }

  function UnitFactor(unit: Unit): nat
  {
    match unit
    case Units => 1
    case Thousands => 1000
    case Millions => 1000000
  }

  /**
   * An amount as the market-value pages write it: the whole part, an optional part
   * after a decimal comma, and the unit ("1,5 mill.", "800 mil", "250").
   */
  function AmountString(whole: nat, frac: string, unit: Unit): string
    requires forall c :: c in frac ==> IsDigit(c)
  {
    Digits(whole) + (if frac == [] then "" else "," + frac) + UnitSuffix(unit)
  }

  /**
   * Parsing a written amount recovers its value: the integral part of
   * (whole + frac / 10^|frac|) times the unit, `Joined(whole, frac)` being
   * `whole * 10^|frac| + frac` (`JoinedValue`).
   */
  lemma ParseAmountRoundTrip(whole: nat, frac: string, unit: Unit, lower: char -> string)
    requires forall c :: c in frac ==> IsDigit(c)
    ensures ParseMarketValue(Str(AmountString(whole, frac, unit)), lower)
         == ScaledValue(Decimal(Joined(whole, frac), |frac|), UnitFactor(unit))
  {
    var d := Digits(whole);
    DigitsRoundTrip(whole);
    // lower(), strip() and the rewriting chain leave the number and a short unit
    AmountTextOf(d, frac, unit, lower);
    // the first number is read back and scaled by the unit
    AmountValueOf(d, frac, unit);
    DigitsValueAppend(d, frac);
  }

  /** The first number of a rewritten amount, scaled by its unit. */
  lemma AmountValueOf(d: string, frac: string, unit: Unit)
    requires d != [] && forall c :: c in d ==> IsDigit(c)
    requires forall c :: c in frac ==> IsDigit(c)
    ensures AmountValue(WrittenNumber(d, frac) + UnitTail(unit))
         == ScaledValue(Decimal(DigitsValue(d + frac), |frac|), UnitFactor(unit))
  {
    var n := WrittenNumber(d, frac);
    assert n[0] == d[0];
    FirstRunOf(n, UnitTail(unit));
    ParseWrittenNumber(d, frac);
    MultiplierOf(n, unit);
  }

  /** Lower-casing, stripping and rewriting a written amount. */
  lemma AmountTextOf(d: string, frac: string, unit: Unit, lower: char -> string)
    requires d != [] && forall c :: c in d ==> IsDigit(c)
    requires forall c :: c in frac ==> IsDigit(c)
    ensures AmountText(d + (if frac == [] then "" else "," + frac) + UnitSuffix(unit), lower)
         == WrittenNumber(d, frac) + UnitTail(unit)
  {
    var t := d + (if frac == [] then "" else "," + frac) + UnitSuffix(unit);
    AmountLower(d, frac, unit, lower);
    assert d[0] in d && d[|d| - 1] in d;
    assert frac != [] ==> frac[|frac| - 1] in frac;
    StripUnchanged(t);
    RewriteWrittenAmount(d, frac, unit);
  }

  lemma AmountLower(d: string, frac: string, unit: Unit, lower: char -> string)
    requires forall c :: c in d ==> IsDigit(c)
    requires forall c :: c in frac ==> IsDigit(c)
    ensures var t := d + (if frac == [] then "" else "," + frac) + UnitSuffix(unit);
            Lower(t, lower) == t
  {
    var t := d + (if frac == [] then "" else "," + frac) + UnitSuffix(unit);
    forall i | 0 <= i < |t| ensures IsAscii(t[i]) && !('A' <= t[i] <= 'Z') {
      if i < |d| {
        assert d[i] in d;
      } else if frac != [] && |d| < i < |d| + 1 + |frac| {
        assert t[i] == frac[i - |d| - 1] && t[i] in frac;
      }
    }
    LowerOfLowerAscii(t, lower);
  }

  /** The unit left after rewriting selects the unit's factor. */
  lemma MultiplierOf(n: string, unit: Unit)
    requires 'm' !in n && 'k' !in n
    ensures Multiplier(n + UnitTail(unit)) == UnitFactor(unit)
  {
    match unit {
      case Units => assert n + UnitTail(unit) == n;
      case Thousands => assert (n + UnitTail(unit))[|n|] == 'k';
      case Millions => assert (n + UnitTail(unit))[|n| + 1] == 'm';
    }
  }

  /** What the rewriting leaves of a unit suffix. */
  function UnitTail(unit: Unit): string
  {
    match unit
    case Units => ""
    case Thousands => "k"
    case Millions => " m"
  }

  /** The rewriting chain on a written amount. */
  lemma RewriteWrittenAmount(d: string, frac: string, unit: Unit)
    requires d != [] && forall c :: c in d ==> IsDigit(c)
    requires forall c :: c in frac ==> IsDigit(c)
    ensures RewriteAmount(d + (if frac == [] then "" else "," + frac) + UnitSuffix(unit))
         == WrittenNumber(d, frac) + UnitTail(unit)
  {
    CommaToDot(d, frac, UnitSuffix(unit));
    var n := WrittenNumber(d, frac);
    match unit {
      case Units => RewriteNoUnit(n);
      case Thousands => RewriteThousands(n);
      case Millions => RewriteMillions(n);
    }
  }

  lemma CommaToDot(d: string, frac: string, u: string)
    requires forall c :: c in d ==> IsDigit(c)
    requires forall c :: c in frac ==> IsDigit(c)
    requires ',' !in u
    ensures Replace(d + (if frac == [] then "" else "," + frac) + u, ",", ".") == WrittenNumber(d, frac) + u
  {
    ReplaceAbsent(u, ",", ".");
    if frac == [] {
      assert d + "" + u == d + u;
      assert ',' !in d;
      ReplaceSkips(d, u, ",", ".");
    } else {
      CommaFraction(d, frac, u);
    }
  }

  lemma CommaFraction(d: string, frac: string, u: string)
    requires forall c :: c in d ==> IsDigit(c)
    requires forall c :: c in frac ==> IsDigit(c)
    requires ',' !in u && frac != []
    ensures Replace(d + ("," + frac) + u, ",", ".") == d + ("." + frac) + u
  {
    var rest := "," + (frac + u);
    assert d + ("," + frac) + u == d + rest;
    assert ',' !in d && ',' !in frac;
    ReplaceSkips(d, rest, ",", ".");
    assert rest[..1] == ",";
    assert rest[1..] == frac + u;
    assert Replace(rest, ",", ".") == "." + Replace(frac + u, ",", ".");
    ReplaceSkips(frac, u, ",", ".");
    ReplaceAbsent(u, ",", ".");
  }

  lemma RewriteNoUnit(n: string)
    requires forall c :: c in n ==> IsNumberChar(c)
    ensures RewriteUnits(n + "") == n
  {
    assert n + "" == n;
    assert 'm' !in n && ' ' !in n && '\U{E2}' !in n;
    ReplaceAbsent(n, EuroMojibake, "");
    ReplaceAbsent(n, "millones", "m");
    ReplaceAbsent(n, "millon", "m");
    ReplaceAbsent(n, "mill.", "m");
    ReplaceAbsent(n, "mill", "m");
    ReplaceAbsent(n, " mil", "k");
  }

  lemma RewriteThousands(n: string)
    requires forall c :: c in n ==> IsNumberChar(c)
    ensures RewriteUnits(n + " mil") == n + "k"
  {
    assert 'm' !in n && ' ' !in n && '\U{E2}' !in n;
    ThousandsSuffixRewrites();
    ReplaceSkips(n, " mil", EuroMojibake, "");
    ReplaceSkips(n, " mil", "millones", "m");
    ReplaceSkips(n, " mil", "millon", "m");
    ReplaceSkips(n, " mil", "mill.", "m");
    ReplaceSkips(n, " mil", "mill", "m");
    ReplaceSkips(n, " mil", " mil", "k");
  }

  /** The six replacements applied to the unit suffix `mil` alone. */
  lemma ThousandsSuffixRewrites()
    ensures Replace(" mil", EuroMojibake, "") == " mil"
    ensures Replace(" mil", "millones", "m") == " mil"
    ensures Replace(" mil", "millon", "m") == " mil"
    ensures Replace(" mil", "mill.", "m") == " mil"
    ensures Replace(" mil", "mill", "m") == " mil"
    ensures Replace(" mil", " mil", "k") == "k"
  {
  }

  lemma RewriteMillions(n: string)
    requires forall c :: c in n ==> IsNumberChar(c)
    ensures RewriteUnits(n + " mill.") == n + " m"
  {
    assert 'm' !in n && ' ' !in n && '\U{E2}' !in n;
    MillionsSuffixKept();
    MillionsSuffixShortened();
    ReplaceSkips(n, " mill.", EuroMojibake, "");
    ReplaceSkips(n, " mill.", "millones", "m");
    ReplaceSkips(n, " mill.", "millon", "m");
    ReplaceSkips(n, " mill.", "mill.", "m");
    ReplaceSkips(n, " m", "mill", "m");
    ReplaceSkips(n, " m", " mil", "k");
  }

  /** The first three replacements leave the suffix `mill.` as it is. */
  lemma MillionsSuffixKept()
    ensures Replace(" mill.", EuroMojibake, "") == " mill."
    ensures Replace(" mill.", "millones", "m") == " mill."
    ensures Replace(" mill.", "millon", "m") == " mill."
  {
    var s := " mill.";
    ReplaceAbsent(s, EuroMojibake, "");
    assert s[..6][0] != "millon"[0];
    assert Replace(s, "millon", "m") == [s[0]] + Replace(s[1..], "millon", "m");
  }

  /** The last three replacements turn the suffix `mill.` into `m`. */
  lemma MillionsSuffixShortened()
    ensures Replace(" mill.", "mill.", "m") == " m"
    ensures Replace(" m", "mill", "m") == " m"
    ensures Replace(" m", " mil", "k") == " m"
  {
    var s := " mill.";
    assert s[..5][0] != "mill."[0];
    assert Replace(s, "mill.", "m") == [s[0]] + Replace(s[1..], "mill.", "m");
    assert s[1..] == "mill.";
    assert Replace("mill.", "mill.", "m") == "m" + Replace([], "mill.", "m");
  }

  /** A run of number characters followed by a non-number character is the first run. */
  lemma FirstRunOf(n: string, tail: string)
    requires n != [] && forall c :: c in n ==> IsNumberChar(c)
    requires tail == [] || !IsNumberChar(tail[0])
    ensures FirstNumberRun(n + tail) == Some(n)
  {
    var s := n + tail;
    assert n[0] in n;
    RunEndOf(s, |n|, 0);
    assert s[..|n|] == n;
  }

  lemma {:induction false} RunEndOf(s: string, m: nat, i: nat)
    requires i <= m <= |s|
    requires forall k :: i <= k < m ==> IsNumberChar(s[k])
    requires m < |s| ==> !IsNumberChar(s[m])
    ensures RunEnd(s, i) == m
    decreases m - i
  {
    if i < m {
      RunEndOf(s, m, i + 1);
    }
  }

  /** The written number: whole digits, then a dot and the decimals if there are any. */
  function WrittenNumber(d: string, frac: string): (n: string)
    requires forall c :: c in d ==> IsDigit(c)
    requires forall c :: c in frac ==> IsDigit(c)
    ensures forall c :: c in n ==> IsNumberChar(c)
    ensures 'm' !in n && 'k' !in n && ' ' !in n && ',' !in n
  {
    var n := d + (if frac == [] then "" else "." + frac);
    assert forall c :: c in n ==> IsNumberChar(c) by {
      forall c | c in n ensures IsNumberChar(c) {
        if c in d { } else if frac != [] && c in frac { }
      }
    }
    n
  }

  /** `float` of the whole digits, optionally followed by a dot and decimals, keeps every digit. */
  lemma ParseWrittenNumber(d: string, frac: string)
    requires d != [] && forall c :: c in d ==> IsDigit(c)
    requires forall c :: c in frac ==> IsDigit(c)
    ensures ParseFloat(WrittenNumber(d, frac)) == Some(Decimal(DigitsValue(d + frac), |frac|))
  {
    if frac == [] {
      ParseWrittenInteger(d);
      assert WrittenNumber(d, frac) == d == d + frac;
    } else {
      ParseWrittenDecimal(d, frac);
      assert WrittenNumber(d, frac) == d + "." + frac;
    }
  }

  lemma ParseWrittenInteger(d: string)
    requires d != [] && forall c :: c in d ==> IsDigit(c)
    ensures forall c :: c in d ==> IsNumberChar(c)
    ensures ParseFloat(d) == Some(Decimal(DigitsValue(d), 0))
  {
    assert d[0] in d && IsDigit(d[0]);
    DigitsOfDigits(d);
    CountZero(d, '.');
  }

  /** `float` of digits, a dot and digits keeps every digit, with as many places as follow the dot. */
  lemma ParseWrittenDecimal(d: string, frac: string)
    requires d != [] && frac != []
    requires forall c :: c in d ==> IsDigit(c)
    requires forall c :: c in frac ==> IsDigit(c)
    ensures forall c :: c in d + "." + frac ==> IsNumberChar(c)
    ensures ParseFloat(d + "." + frac) == Some(Decimal(DigitsValue(d + frac), |frac|))
  {
    var n := d + "." + frac;
    assert forall c :: c in n ==> IsNumberChar(c) by {
      forall c | c in n ensures IsNumberChar(c) {
        if c in d { } else if c in frac { }
      }
    }
    assert d[0] == n[0];
    assert n[0] in n && IsDigit(n[0]);
    WrittenDecimal(d, frac);
    assert Count(n, '.') <= 1;
    assert !(forall c :: c in n ==> !IsDigit(c));
    assert '.' in n;
    assert |n| - 1 - IndexOf(n, '.') == |frac|;
  }

  lemma WrittenDecimal(d: string, frac: string)
    requires d != [] && frac != []
    requires forall c :: c in d ==> IsDigit(c)
    requires forall c :: c in frac ==> IsDigit(c)
    ensures var n := d + "." + frac;
      && Count(n, '.') == 1
      && IndexOf(n, '.') == |d|
      && DigitsOf(n) == d + frac
  {
    var n := d + "." + frac;
    assert n == d + ("." + frac);
    CountZero(d, '.');
    CountZero(frac, '.');
    CountAppend(d, "." + frac, '.');
    assert ("." + frac)[1..] == frac;
    DigitsOfDigits(d);
    DigitsOfDigits(frac);
    DigitsOfAppend(d, "." + frac);
    assert DigitsOf("." + frac) == DigitsOf(frac);
    assert n[|d|] == '.';
  }

  lemma {:induction false} DigitsOfDigits(s: string)
    requires forall c :: c in s ==> IsDigit(c)
    ensures DigitsOf(s) == s
  {
    if s != [] {
      assert s[0] in s;
      DigitsOfDigits(s[1..]);
    }
  }

  lemma {:induction false} DigitsOfAppend(a: string, b: string)
    ensures DigitsOf(a + b) == DigitsOf(a) + DigitsOf(b)
  {
    if a == [] {
      assert a + b == b;
    } else {
      assert (a + b)[1..] == a[1..] + b;
      DigitsOfAppend(a[1..], b);
    }
  }

  lemma {:induction false} CountAppend(a: string, b: string, c: char)
    ensures Count(a + b, c) == Count(a, c) + Count(b, c)
  {
    if a == [] {
      assert a + b == b;
    } else {
      assert (a + b)[1..] == a[1..] + b;
      CountAppend(a[1..], b, c);
    }
  }

  /** The number written by the digits of `whole` followed by the digits `frac`. */
  function Joined(whole: nat, frac: string): nat
    requires forall c :: c in frac ==> IsDigit(c)
  {
    if frac == [] then whole
    else
      assert frac[|frac| - 1] in frac && IsDigit(frac[|frac| - 1]);
      10 * Joined(whole, frac[..|frac| - 1]) + ((frac[|frac| - 1] as int) - ('0' as int))
  }

  /** Appending digits shifts the value: `whole * 10^|frac| + frac`. */
  lemma {:induction false} JoinedValue(whole: nat, frac: string)
    requires forall c :: c in frac ==> IsDigit(c)
    ensures Joined(whole, frac) == whole * Pow10(|frac|) + DigitsValue(frac)
    decreases |frac|
  {
    if frac != [] {
      var init := frac[..|frac| - 1];
      assert frac[|frac| - 1] in frac;
      var d := (frac[|frac| - 1] as int) - ('0' as int);
      JoinedValue(whole, init);
      assert Joined(whole, frac) == 10 * Joined(whole, init) + d;
      assert DigitsValue(frac) == 10 * DigitsValue(init) + d;
      assert Pow10(|frac|) == 10 * Pow10(|init|);
      ShiftByTen(whole, Pow10(|init|), Joined(whole, init), DigitsValue(init), d);
    }
  }

  lemma ShiftByTen(x: int, p: int, j: int, v: int, d: int)
    requires j == x * p + v
    ensures 10 * j + d == x * (10 * p) + (10 * v + d)
  {
  }

  /** The value of two runs of digits written one after the other. */
  lemma {:induction false} DigitsValueAppend(a: string, b: string)
    requires forall c :: c in a ==> IsDigit(c)
    requires forall c :: c in b ==> IsDigit(c)
    ensures DigitsValue(a + b) == Joined(DigitsValue(a), b)
    decreases |b|
  {
    if b != [] {
      var b' := b[..|b| - 1];
      assert (a + b)[..|a + b| - 1] == a + b';
      assert b[|b| - 1] in b;
      DigitsValueAppend(a, b');
    } else {
      assert a + b == a;
    }
  }

  // ------------------------------------------------------------------ parse_list

  /** `str(x)`: a string shows as itself; the text of any other value is `show`'s. */
  function ShowValue(x: Value, show: Value -> string): (r: string)
    ensures x.Str? ==> r == x.s
  {
    if x.Str? then x.s else show(x)
  }

  /** `[x.strip() for x in pieces if x.strip()]`. */
  function StrippedPieces(pieces: seq<string>): (r: seq<string>)
    ensures |r| <= |pieces|
    ensures forall k :: 0 <= k < |r| ==> r[k] != [] && Strip(r[k]) == r[k]
  {
    if pieces == [] then []
    else
      var t := Strip(pieces[0]);
      var rest := StrippedPieces(pieces[1..]);
      if t == [] then rest else (StripUnchanged(t); [t] + rest)
  }

  /** The comma-split fallback: the trimmed, non-empty pieces of `t` between commas. */
  function SplitNames(t: string): (r: seq<string>)
    ensures forall k :: 0 <= k < |r| ==> r[k] != [] && Strip(r[k]) == r[k]
  {
    StrippedPieces(SplitOn(t, ','))
  }

  /**
   * `parse_list(val)`: a list unchanged; [] for anything but a list or a string; for a
   * string, `literalEval` stands for `ast.literal_eval` (None when it raises). A list
   * it yields becomes the `str` of each element; a string it yields replaces the text
   * for the comma split; any other value reaches `.split` and raises, which is None here.
   */
  function ParseList(v: Value, literalEval: string -> Option<Value>, show: Value -> string): (r: Option<seq<Value>>)
    ensures v.List? ==> r == Some(v.items)
    ensures !v.List? && !v.Str? ==> r == Some([])
    ensures r.Some? && !v.List? ==> forall k :: 0 <= k < |r.value| ==> r.value[k].Str?
    ensures v.Str? && literalEval(v.s).Some? && !literalEval(v.s).value.List? && !literalEval(v.s).value.Str?
            ==> r.None?
  {
    if v.List? then Some(v.items)
    else if !v.Str? then Some([])
    else
      match literalEval(v.s)
      case None => Some(Names(SplitNames(v.s)))
      case Some(List(xs)) => Some(seq(|xs|, i requires 0 <= i < |xs| => Str(ShowValue(xs[i], show))))
      case Some(Str(t)) => Some(Names(SplitNames(t)))
      case Some(_) => None
  }

  function Names(names: seq<string>): (r: seq<Value>)
    ensures |r| == |names| && forall k :: 0 <= k < |r| ==> r[k] == Str(names[k])
  {
    seq(|names|, i requires 0 <= i < |names| => Str(names[i]))
  }

  /** A name as a lineup stores it: not empty, no white space at either end, no comma. */
  predicate IsListedName(n: string)
  {
    n != [] && !IsSpace(n[0]) && !IsSpace(n[|n| - 1]) && ',' !in n
  }

  /** Names joined with ", " split back into the same names. */
  lemma SplitNamesJoin(names: seq<string>)
    requires forall k :: 0 <= k < |names| ==> IsListedName(names[k])
    ensures SplitNames(Join(names, ", ")) == names
  {
    if names == [] {
      assert SplitOn([], ',') == [[]];
      assert Strip([]) == [];
    } else {
      var pieces := [names[0]] + Indent(names[1..]);
      var joined := Join(names, ", ");
      JoinIndent(names);
      PiecesCommaFree(names);
      SplitOnJoin(pieces, ',');
      assert SplitOn(joined, ',') == pieces;
      StrippedPiecesOfNames(names);
    }
  }

  lemma StrippedPiecesOfNames(names: seq<string>)
    requires names != []
    requires forall k :: 0 <= k < |names| ==> IsListedName(names[k])
    ensures StrippedPieces([names[0]] + Indent(names[1..])) == names
  {
    StripUnchanged(names[0]);
    StrippedPiecesCons(names[0], Indent(names[1..]));
    StrippedIndent(names[1..]);
    assert names == [names[0]] + names[1..];
  }

  lemma PiecesCommaFree(names: seq<string>)
    requires names != []
    requires forall k :: 0 <= k < |names| ==> IsListedName(names[k])
    ensures forall k :: 0 <= k < |names| ==> ',' !in ([names[0]] + Indent(names[1..]))[k]
  {
    var pieces := [names[0]] + Indent(names[1..]);
    forall k | 0 <= k < |names| ensures ',' !in pieces[k] {
      if k == 0 {
        assert IsListedName(names[0]);
      } else {
        assert pieces[k] == " " + names[k] && IsListedName(names[k]);
        assert ',' !in " ";
      }
    }
  }

  /** The pieces between the commas of `", ".join(names)` after the first: each keeps a leading space. */
  function Indent(names: seq<string>): (r: seq<string>)
    ensures |r| == |names| && forall k :: 0 <= k < |r| ==> r[k] == " " + names[k]
  {
    if names == [] then [] else [" " + names[0]] + Indent(names[1..])
  }

  lemma {:induction false} JoinIndent(names: seq<string>)
    requires names != []
    ensures Join(names, ", ") == Join([names[0]] + Indent(names[1..]), ",")
    decreases |names|
  {
    var tail := names[1..];
    if tail != [] {
      JoinIndent(tail);
      assert Indent(tail) == [" " + tail[0]] + Indent(tail[1..]);
      JoinCons(names[0], Indent(tail), ",");
      JoinCons(" " + tail[0], Indent(tail[1..]), ",");
      JoinCons(tail[0], Indent(tail[1..]), ",");
    } else {
      assert [names[0]] + Indent(tail) == [names[0]];
    }
  }

  /** A first piece that strips to something is kept, stripped. */
  lemma StrippedPiecesCons(p: string, rest: seq<string>)
    requires Strip(p) != []
    ensures StrippedPieces([p] + rest) == [Strip(p)] + StrippedPieces(rest)
  {
    assert ([p] + rest)[1..] == rest;
  }

  lemma {:induction false} StrippedIndent(names: seq<string>)
    requires forall k :: 0 <= k < |names| ==> IsListedName(names[k])
    ensures StrippedPieces(Indent(names)) == names
  {
    if names != [] {
      var rest := Indent(names[1..]);
      assert Indent(names) == [" " + names[0]] + rest;
      StripLeadingSpace(names[0]);
      StrippedPiecesCons(" " + names[0], rest);
      StrippedIndent(names[1..]);
      assert names == [names[0]] + names[1..];
    }
  }

  lemma StripLeadingSpace(n: string)
    requires IsListedName(n)
    ensures Strip(" " + n) == n
  {
    LeftOfLeadingSpace(n);
    assert StripRight(n) == n;
  }

  lemma LeftOfLeadingSpace(n: string)
    requires n != [] && !IsSpace(n[0])
    ensures StripLeft(" " + n) == n
  {
    assert (" " + n)[1..] == n;
    assert IsSpace(' ');
  }

  /** A stored "a, b, c" lineup text that `literal_eval` rejects reads back as its names. */
  lemma ParseListJoined(names: seq<string>, literalEval: string -> Option<Value>, show: Value -> string)
    requires forall k :: 0 <= k < |names| ==> IsListedName(names[k])
    requires literalEval(Join(names, ", ")) == None
    ensures ParseList(Str(Join(names, ", ")), literalEval, show) == Some(Names(names))
  {
    SplitNamesJoin(names);
  }

  /** The comma-split fallback yields trimmed, non-empty names only. */
  lemma ParseListFallback(s: string, literalEval: string -> Option<Value>, show: Value -> string)
    requires literalEval(s).None? || literalEval(s).value.Str?
    ensures var r := ParseList(Str(s), literalEval, show);
            r.Some? && forall k :: 0 <= k < |r.value| ==>
              r.value[k].Str? && r.value[k].s != [] && Strip(r.value[k].s) == r.value[k].s
  {
  }

  // ------------------------------------------------------------- token_set_score

  /** `set(s.split())`. */
  function TokenSet(s: string): set<string>
  {
    set w | w in Words(s)
  }

  /**
   * `token_set_score(a, b)`: the share of the query's distinct tokens that the
   * candidate also has; 0 for a query without tokens.
   */
  function TokenSetScore(a: string, b: string): (r: real)
    ensures 0.0 <= r <= 1.0
    ensures TokenSet(a) == {} ==> r == 0.0
    ensures r == 1.0 <==> TokenSet(a) != {} && TokenSet(a) <= TokenSet(b)
  {
    var sa := TokenSet(a);
    var sb := TokenSet(b);
    if sa == {} then 0.0
    else
      var common := sa * sb;
      SubsetCard(common, sa);
      assert common == sa <==> sa <= sb;
      Ratio(|common|, |sa|)
  }

  /** `m / n` for counts with `m <= n`: a share in [0, 1] that is 1 exactly when `m == n`. */
  function Ratio(m: nat, n: nat): (r: real)
    requires 0 < n && m <= n
    ensures 0.0 <= r <= 1.0
    ensures r == 1.0 <==> m == n
  {
    var r := (m as real) / (n as real);
    assert r * (n as real) == m as real;
    r
  }

  /** A subset is no larger, and only an equal set is as large. */
  lemma {:induction false} SubsetCard<T>(a: set<T>, b: set<T>)
    requires a <= b
    ensures |a| <= |b|
    ensures |a| == |b| ==> a == b
    decreases |b|
  {
    if b != {} {
      var x :| x in b;
      SubsetCard(a - {x}, b - {x});
      if x in a {
        assert |a - {x}| == |a| - 1;
        assert a == (a - {x}) + {x} && b == (b - {x}) + {x};
      } else {
        assert a - {x} == a;
        assert |b - {x}| == |b| - 1;
      }
    }
  }

  /** The score is not symmetric: "a" is wholly inside "a b", but only half of "a b" is in "a". */
  lemma TokenSetScoreAsymmetric()
    ensures TokenSetScore("a", "a b") == 1.0
    ensures TokenSetScore("a b", "a") == 0.5
  {
    TokenSetsOfExample();
    assert {"a"} <= {"a", "b"};
    assert {"a", "b"} * {"a"} == {"a"};
    assert |{"a", "b"}| == 2;
    assert Ratio(1, 2) == 0.5;
  }

  lemma TokenSetsOfExample()
    ensures TokenSet("a") == {"a"} && TokenSet("a b") == {"a", "b"}
  {
    WordsOne('a');
    WordsTwo('a', 'b');
    assert "a b" == ['a', ' ', 'b'];
  }

  lemma WordsOne(x: char)
    requires !IsSpace(x)
    ensures Words([x]) == [[x]]
  {
    var s := [x];
    assert WordEnd(s, 1) == 1;
    assert WordEnd(s, 0) == 1;
    assert s[..1] == [x];
    assert s[1..] == [];
  }

  lemma WordsTwo(x: char, y: char)
    requires !IsSpace(x) && !IsSpace(y)
    ensures Words([x, ' ', y]) == [[x], [y]]
  {
    var s := [x, ' ', y];
    assert IsSpace(' ');
    assert WordEnd(s, 1) == 1;
    assert WordEnd(s, 0) == 1;
    assert s[..1] == [x];
    assert s[1..] == [' ', y];
    assert s[1..][1..] == [y];
    WordsOne(y);
  }
}
