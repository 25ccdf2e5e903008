/** The legend's symbol dispatch: the symbol name an item carries is mapped to
    the kind of glyph drawn beside its label.  An unknown or missing name draws
    a filled square; a name of the form `circulo_<n>` or `circulo_<n>_relleno`
    draws a ring or a disc of radius `<n>`, read with Python's `int`. */
module Glyphs {
  import opened Wrappers

  /** What is drawn in the 16x16 symbol box.  `Circle(r, w)` follows the
      drawing library's convention: width 0 fills the disc. */
  datatype Glyph =
    | Circle(radius: int, width: nat)
    | DottedRingWithDot
    | Diagonal
    | Diamond
    | SolidLine
    | DashedLine
    | DotInCircle
    | PropertyBoundary
    | Fire
    | FilledSquare
    | Triangle
    | Cross
    | CrossInCircle
    | DoubleCircle
    | TwoPixelLine
    | DoubleCircleFilled
    | DoubleBorderCircle

  /** `int(...)` of the radius field raises, and the source does not catch it. */
  datatype GlyphResult = Drawn(glyph: Glyph) | RadiusNotAnInteger(symbol: string)

  const CirclePrefix := "circulo_"
  const FilledMarker := "_relleno"

  /** The names the dispatch tests one by one before it looks at the prefix. */
  function Named(s: string): (r: Option<Glyph>)
    ensures r.Some? && r.value.Circle? ==> StartsWith(s, CirclePrefix) && r.value.radius > 0
  {
    if s == "circulo_5" then Some(Circle(5, 1))
    else if s == "circulo_15" then Some(Circle(15, 1))
    else if s == "circulo_20" then Some(Circle(20, 1))
    else if s == "circulo_20_relleno" then Some(Circle(20, 0))
    else if s == "circulo_fijo_15_borde" then Some(Circle(15, 2))
    else if s == "circulo_doble_punteado" then Some(DottedRingWithDot)
    else if s == "diagonal_x" then Some(Diagonal)
    else if s == "diamond_red_dot" then Some(Diamond)
    else if s == "linea_solida" then Some(SolidLine)
    else if s == "linea_punteada" then Some(DashedLine)
    else if s == "punto_circulo" then Some(DotInCircle)
    else if s == "limite_predial" then Some(PropertyBoundary)
    else if s == "incendio" then Some(Fire)
    else if s == "cuadrado_relleno" then Some(FilledSquare)
    else if s == "triangulo_8" then Some(Triangle)
    else if s == "cruz" then Some(Cross)
    else if s == "cruz_con_circulo" then Some(CrossInCircle)
    else if s == "circulo_doble" then Some(DoubleCircle)
    else if s == "linea_2px" then Some(TwoPixelLine)
    else if s == "circulo_doble_relleno" then Some(DoubleCircleFilled)
    else if s == "circulo_doble_borde" then Some(DoubleBorderCircle)
    else None
  }

  predicate StartsWith(s: string, p: string) {
    |p| <= |s| && s[..|p|] == p
  }

  /** Python's `t in s` on strings. */
  predicate Contains(s: string, t: string)
    decreases |s|
  {
    StartsWith(s, t) || (|s| > 0 && Contains(s[1..], t))
  }

  /** `s.split("_")[1]` for a string that starts with `circulo_`: the text after
      the first underscore, up to the next one. */
  function FirstField(t: string): (f: string)
    ensures f <= t
    ensures '_' !in f
    ensures |f| < |t| ==> t[|f|] == '_'
  {
    if t == [] || t[0] == '_' then [] else [t[0]] + FirstField(t[1..])
  }

  predicate IsDigit(c: char) { '0' <= c <= '9' }

  predicate AllDigits(s: string) {
    forall k :: 0 <= k < |s| ==> IsDigit(s[k])
  }

  predicate IsSpace(c: char) {
    c == ' ' || c == '\t' || c == '\n' || c == '\r' || c == '\U{000B}' || c == '\U{000C}'
    || ('\U{001C}' <= c <= '\U{001F}')
  }

  function DigitValue(c: char): nat
    requires IsDigit(c)
  {
    (c as int) - ('0' as int)
  }

  /** The value of a string of decimal digits, most significant first. */
  function DigitsValue(s: string): nat
    requires AllDigits(s)
  {
    if s == [] then 0 else DigitsValue(s[..|s| - 1]) * 10 + DigitValue(s[|s| - 1])
  }

  /** `s` without its leading white space. */
  function TrimStart(s: string): (r: string)
    ensures |r| <= |s| && r == s[|s| - |r|..]
    ensures forall k :: 0 <= k < |s| - |r| ==> IsSpace(s[k])
    ensures r == [] || !IsSpace(r[0])
  {
    if s != [] && IsSpace(s[0]) then TrimStart(s[1..]) else s
  }

  /** `s` without its trailing white space. */
  function TrimEnd(s: string): (r: string)
    ensures r <= s
    ensures forall k :: |r| <= k < |s| ==> IsSpace(s[k])
    ensures r == [] || !IsSpace(r[|r| - 1])
  {
    if s != [] && IsSpace(s[|s| - 1]) then TrimEnd(s[..|s| - 1]) else s
  }

  /** Python's `int(text)` on ASCII input: surrounding white space, an optional
      sign, then one or more decimal digits; anything else raises. */
  function ParseInt(text: string): (r: Option<int>)
    ensures (forall k :: 0 <= k < |text| ==> IsSpace(text[k])) ==> r.None?
    ensures text != [] && AllDigits(text) ==> r == Some(DigitsValue(text))
  {
    ParseSigned(TrimEnd(TrimStart(text)))
  }

  /** An optional sign, then the digits. */
  function ParseSigned(t: string): Option<int> {
    if t != [] && t[0] == '-' then
      (match ParseDigits(t[1..]) case Some(n) => Some(-(n as int)) case None => None)
    else if t != [] && t[0] == '+' then ParseDigits(t[1..])
    else ParseDigits(t)
  }

  /** One or more decimal digits. */
  function ParseDigits(b: string): Option<nat> {
    if b != [] && AllDigits(b) then Some(DigitsValue(b)) else None
  }

  /** The canonical decimal spelling of `n`. */
  function Decimal(n: nat): (s: string)
    ensures s != []
    ensures AllDigits(s)
  {
    if n < 10 then [('0' as int + n) as char] else Decimal(n / 10) + [('0' as int + n % 10) as char]
  }

  /** The glyph drawn for an item whose symbol is `symbol` (None when the entry
      names no symbol). */
  function GlyphOf(symbol: Option<string>): (r: GlyphResult)
    ensures symbol == None || symbol == Some("") ==> r == Drawn(FilledSquare)
    ensures symbol.Some? && Named(symbol.value).Some? ==> r == Drawn(Named(symbol.value).value)
    ensures (symbol.Some? && Named(symbol.value).None? && !StartsWith(symbol.value, CirclePrefix))
              ==> r == Drawn(FilledSquare)
    ensures r.RadiusNotAnInteger? ==>
              symbol.Some? && StartsWith(symbol.value, CirclePrefix) && Contains(symbol.value, FilledMarker)
    ensures r.Drawn? && r.glyph.Circle? && symbol.Some? && Named(symbol.value).None? ==>
              StartsWith(symbol.value, CirclePrefix)
              && ParseInt(FirstField(symbol.value[|CirclePrefix|..])) == Some(r.glyph.radius)
              && (r.glyph.width == 0 <==> Contains(symbol.value, FilledMarker))
    ensures symbol.Some? && Named(symbol.value).None? && StartsWith(symbol.value, CirclePrefix) ==>
              var radius := ParseInt(FirstField(symbol.value[|CirclePrefix|..]));
              var filled := Contains(symbol.value, FilledMarker);
              && (radius.Some? ==> r == Drawn(Circle(radius.value, if filled then 0 else 1)))
              && (radius.None? && filled ==> r == RadiusNotAnInteger(symbol.value))
              && (radius.None? && !filled ==> r == Drawn(FilledSquare))
  {
    match symbol
    case None => Drawn(FilledSquare)
    case Some(s) =>
      if Named(s).Some? then Drawn(Named(s).value)
      else if StartsWith(s, CirclePrefix) then
        var radius := ParseInt(FirstField(s[|CirclePrefix|..]));
        if Contains(s, FilledMarker) then
          (match radius
           case Some(n) => Drawn(Circle(n, 0))
           case None => RadiusNotAnInteger(s))
        else
          (match radius
           case Some(n) => Drawn(Circle(n, 1))
           case None => Drawn(FilledSquare))
      else Drawn(FilledSquare)
  }

  lemma {:induction false} DecimalValue(n: nat)
    ensures DigitsValue(Decimal(n)) == n
  {
    if n >= 10 {
      DecimalValue(n / 10);
      var s := Decimal(n);
      assert s[..|s| - 1] == Decimal(n / 10);
    }
  }

  lemma {:induction false} NoSpaceInDigits(s: string)
    requires AllDigits(s)
    ensures TrimStart(s) == s && TrimEnd(s) == s
  {
  }

  /** The radius written in canonical decimal reads back as that radius. */
  lemma {:induction false} ParseDecimal(n: nat)
    ensures ParseInt(Decimal(n)) == Some(n)
  {
    var d := Decimal(n);
    NoSpaceInDigits(d);
    assert !(d[0] == '-' || d[0] == '+');
    assert d[0..] == d;
    DecimalValue(n);
  }

  lemma {:induction false} NoUnderscoreInDigits(s: string)
    requires AllDigits(s)
    ensures FirstField(s) == s
    decreases |s|
  {
    if s != [] {
      NoUnderscoreInDigits(s[1..]);
    }
  }

  lemma StartsWithPrefix(p: string, t: string)
    ensures StartsWith(p + t, p)
  {
    assert (p + t)[..|p|] == p;
  }

  lemma {:induction false} ContainsSuffix(s: string, t: string)
    ensures Contains(s + t, t)
    decreases |s|
  {
    if s == [] {
      assert s + t == t;
      StartsWithPrefix(t, []);
      assert t + [] == t;
    } else {
      assert (s + t)[1..] == s[1..] + t;
      ContainsSuffix(s[1..], t);
    }
  }

  /** A digit string never contains the `_relleno` marker. */
  lemma {:induction false} DigitsLackMarker(s: string)
    requires AllDigits(s)
    ensures !Contains(s, FilledMarker)
    decreases |s|
  {
    if s != [] {
      assert !StartsWith(s, FilledMarker) by {
        if |FilledMarker| <= |s| { assert s[..|FilledMarker|][0] == s[0]; }
      }
      DigitsLackMarker(s[1..]);
    }
  }

  lemma {:induction false} PrefixDigitsLackMarker(d: string)
    requires AllDigits(d)
    ensures !Contains(CirclePrefix + d, FilledMarker)
  {
    var s := CirclePrefix + d;
    var i := 0;
    while i < 8
      invariant 0 <= i <= 8
      invariant Contains(s, FilledMarker) ==> Contains(s[i..], FilledMarker)
    {
      assert s[i..][1..] == s[i + 1..];
      assert !StartsWith(s[i..], FilledMarker) by {
        if |FilledMarker| <= |s[i..]| {
          assert s[i..][..|FilledMarker|][1] == s[i + 1];
          assert s[i + 1] != 'r' || s[i..][..|FilledMarker|][0] != '_';
        }
      }
      i := i + 1;
    }
    assert s[8..] == d;
    DigitsLackMarker(d);
  }

  /** Every name the dispatch tests explicitly, except three ring sizes and
      one disc, has a letter (or nothing) where a radius would have its first
      digit. */
  lemma NamedWithDigit(s: string)
    requires |s| > 8 && s[..8] == CirclePrefix && IsDigit(s[8])
    ensures Named(s).Some? ==>
              s == "circulo_5" || s == "circulo_15" || s == "circulo_20" || s == "circulo_20_relleno"
  {
    assert s[0] == 'c' && s[1] == 'i' && s[2] == 'r';
    assert s != "circulo_fijo_15_borde" by { assert "circulo_fijo_15_borde"[8] == 'f'; }
    assert s != "circulo_doble_punteado" by { assert "circulo_doble_punteado"[8] == 'd'; }
    assert s != "circulo_doble" by { assert "circulo_doble"[8] == 'd'; }
    assert s != "circulo_doble_relleno" by { assert "circulo_doble_relleno"[8] == 'd'; }
    assert s != "circulo_doble_borde" by { assert "circulo_doble_borde"[8] == 'd'; }
    assert s != "diagonal_x" by { assert "diagonal_x"[0] == 'd'; }
    assert s != "diamond_red_dot" by { assert "diamond_red_dot"[0] == 'd'; }
    assert s != "linea_solida" by { assert "linea_solida"[0] == 'l'; }
    assert s != "linea_punteada" by { assert "linea_punteada"[0] == 'l'; }
    assert s != "punto_circulo" by { assert "punto_circulo"[0] == 'p'; }
    assert s != "limite_predial" by { assert "limite_predial"[0] == 'l'; }
    assert s != "incendio" by { assert "incendio"[0] == 'i'; }
    assert s != "cuadrado_relleno" by { assert "cuadrado_relleno"[1] == 'u'; }
    assert s != "triangulo_8" by { assert "triangulo_8"[0] == 't'; }
    assert s != "cruz" by { assert |"cruz"| == 4; }
    assert s != "cruz_con_circulo" by { assert "cruz_con_circulo"[1] == 'r'; }
    assert s != "linea_2px" by { assert "linea_2px"[0] == 'l'; }
  }

  lemma NamedDecimal(n: nat)
    ensures Named(CirclePrefix + Decimal(n)) == None || Named(CirclePrefix + Decimal(n)) == Some(Circle(n, 1))
  {
    NamedDigits(Decimal(n));
    DecimalValue(n);
  }

  /** A ring name with a digit radius is unlisted or lists that radius. */
  lemma NamedDigits(d: string)
    requires d != [] && AllDigits(d)
    ensures Named(CirclePrefix + d) == None || Named(CirclePrefix + d) == Some(Circle(DigitsValue(d), 1))
  {
    var s := CirclePrefix + d;
    assert s[..8] == CirclePrefix && s[8] == d[0] && s[8..] == d;
    NamedWithDigit(s);
    if s == "circulo_5" { assert d == "5"; }
    else if s == "circulo_15" { assert d == "15"; assert DigitsValue("1") == 1; }
    else if s == "circulo_20" { assert d == "20"; assert DigitsValue("2") == 2; }
  }

  lemma NamedFilledDecimal(n: nat)
    ensures Named(CirclePrefix + Decimal(n) + FilledMarker) == None
         || Named(CirclePrefix + Decimal(n) + FilledMarker) == Some(Circle(n, 0))
  {
    NamedFilledDigits(Decimal(n));
    DecimalValue(n);
  }

  /** A disc name with a digit radius is unlisted or lists that radius. */
  lemma NamedFilledDigits(d: string)
    requires d != [] && AllDigits(d)
    ensures Named(CirclePrefix + d + FilledMarker) == None
         || Named(CirclePrefix + d + FilledMarker) == Some(Circle(DigitsValue(d), 0))
  {
    var s := CirclePrefix + d + FilledMarker;
    assert s[..8] == CirclePrefix && s[8] == d[0];
    NamedWithDigit(s);
    if s == "circulo_20_relleno" {
      assert |d| == 2 && s[9] == d[1] && d == "20";
      assert DigitsValue("2") == 2;
    }
  }

  /** `circulo_<n>` always draws a one-pixel ring of radius n. */
  lemma RingRoundTrip(n: nat)
    ensures GlyphOf(Some(CirclePrefix + Decimal(n))) == Drawn(Circle(n, 1))
  {
    var d := Decimal(n);
    var s := CirclePrefix + d;
    NamedDecimal(n);
    if Named(s).None? {
      StartsWithPrefix(CirclePrefix, d);
      assert s[|CirclePrefix|..] == d;
      NoUnderscoreInDigits(d);
      ParseDecimal(n);
      PrefixDigitsLackMarker(d);
    }
  }

  /** `circulo_<n>_relleno` always draws a filled disc of radius n. */
  lemma DiscRoundTrip(n: nat)
    ensures GlyphOf(Some(CirclePrefix + Decimal(n) + FilledMarker)) == Drawn(Circle(n, 0))
  {
    var d := Decimal(n);
    var s := CirclePrefix + d + FilledMarker;
    NamedFilledDecimal(n);
    if Named(s).None? {
      assert s == CirclePrefix + (d + FilledMarker);
      StartsWithPrefix(CirclePrefix, d + FilledMarker);
      assert s[|CirclePrefix|..] == d + FilledMarker;
      assert '_' !in d;
      FieldBeforeUnderscore(d, FilledMarker);
      ParseDecimal(n);
      ContainsSuffix(CirclePrefix + d, FilledMarker);
    }
  }

  /** A filled-circle name whose radius field is not a number: the source's
      `int(partes[1])` raises outside any `try`. */
  lemma FilledWithoutRadiusRaises()
    ensures GlyphOf(Some("circulo_x_relleno")) == RadiusNotAnInteger("circulo_x_relleno")
  {
    var s := "circulo_x_relleno";
    UnnamedX();
    XFields();
    LetterIsNotInteger();
    FilledBranch(s);
  }

  /** An unlisted `circulo_` name with the filled marker and a radius field
      `int()` rejects raises. */
  lemma FilledBranch(s: string)
    requires Named(s).None? && StartsWith(s, CirclePrefix) && Contains(s, FilledMarker)
    requires ParseInt(FirstField(s[|CirclePrefix|..])) == None
    ensures GlyphOf(Some(s)) == RadiusNotAnInteger(s)
  {
  }

  lemma XFields()
    ensures StartsWith("circulo_x_relleno", CirclePrefix) && Contains("circulo_x_relleno", FilledMarker)
    ensures FirstField("circulo_x_relleno"[|CirclePrefix|..]) == "x"
  {
    var s := "circulo_x_relleno";
    assert s == CirclePrefix + "x_relleno";
    StartsWithPrefix(CirclePrefix, "x_relleno");
    assert s[|CirclePrefix|..] == "x_relleno";
    assert "x_relleno" == "x" + FilledMarker;
    FieldBeforeUnderscore("x", FilledMarker);
    assert s == "circulo_x" + FilledMarker;
    ContainsSuffix("circulo_x", FilledMarker);
  }

  lemma UnnamedX()
    ensures Named("circulo_x_relleno") == None
  {
    var s := "circulo_x_relleno";
    assert |s| == 17 && s[8] == 'x';
  }

  lemma LetterIsNotInteger()
    ensures ParseInt("x") == None
  {
    LeadingLetterNotInteger("x");
  }

  /** An unlisted ring name whose radius field `int()` rejects falls back to
      the square, as the `except ValueError` does. */
  lemma UnparsableRingIsSquare()
    ensures GlyphOf(Some("circulo_abc")) == Drawn(FilledSquare)
  {
    var s := "circulo_abc";
    AbcName();
    AbcNotInteger();
  }

  lemma AbcName()
    ensures Named("circulo_abc").None? && StartsWith("circulo_abc", CirclePrefix)
    ensures FirstField("circulo_abc"[|CirclePrefix|..]) == "abc"
    ensures !Contains("circulo_abc", FilledMarker)
  {
    AbcUnlisted();
    AfterPrefix("abc");
    assert "circulo_abc" == CirclePrefix + "abc";
    WithoutELacksMarker("circulo_abc");
  }

  lemma AbcUnlisted()
    ensures Named("circulo_abc").None?
  {
    assert "circulo_abc"[8] == 'a';
  }

  /** `int()` accepts a sign, so a negative radius still draws a ring. */
  lemma NegativeRadius()
    ensures GlyphOf(Some("circulo_-3")) == Drawn(Circle(-3, 1))
  {
    var s := "circulo_-3";
    NegativeName();
    NegativeInteger();
  }

  lemma NegativeName()
    ensures Named("circulo_-3").None? && StartsWith("circulo_-3", CirclePrefix)
    ensures FirstField("circulo_-3"[|CirclePrefix|..]) == "-3"
    ensures !Contains("circulo_-3", FilledMarker)
  {
    NegativeUnlisted();
    AfterPrefix("-3");
    assert "circulo_-3" == CirclePrefix + "-3";
    WithoutELacksMarker("circulo_-3");
  }

  lemma NegativeUnlisted()
    ensures Named("circulo_-3").None?
  {
    assert "circulo_-3"[8] == '-';
  }

  /** `int()` ignores surrounding white space, so a spaced radius still draws
      a ring. */
  lemma SpacedRadius()
    ensures GlyphOf(Some("circulo_ 7")) == Drawn(Circle(7, 1))
  {
    var s := "circulo_ 7";
    SpacedName();
    SpacedInteger();
  }

  lemma SpacedName()
    ensures Named("circulo_ 7").None? && StartsWith("circulo_ 7", CirclePrefix)
    ensures FirstField("circulo_ 7"[|CirclePrefix|..]) == " 7"
    ensures !Contains("circulo_ 7", FilledMarker)
  {
    SpacedUnlisted();
    AfterPrefix(" 7");
    assert "circulo_ 7" == CirclePrefix + " 7";
    WithoutELacksMarker("circulo_ 7");
  }

  lemma SpacedUnlisted()
    ensures Named("circulo_ 7").None?
  {
    assert "circulo_ 7"[8] == ' ';
  }

  /** A filled name with an empty radius field raises: `int("")` fails. */
  lemma EmptyFieldRaises()
    ensures GlyphOf(Some("circulo__relleno")) == RadiusNotAnInteger("circulo__relleno")
  {
    var s := "circulo__relleno";
    EmptyFieldName();
    EmptyNotInteger();
  }

  lemma EmptyFieldName()
    ensures Named("circulo__relleno").None? && StartsWith("circulo__relleno", CirclePrefix)
    ensures FirstField("circulo__relleno"[|CirclePrefix|..]) == ""
    ensures Contains("circulo__relleno", FilledMarker)
  {
    EmptyFieldUnlisted();
    AfterPrefix("_relleno");
    assert "circulo__relleno" == CirclePrefix + "_relleno";
    EmptyFieldMarker();
  }

  lemma EmptyFieldUnlisted()
    ensures Named("circulo__relleno").None?
  {
    assert "circulo__relleno"[8] == '_';
  }

  lemma EmptyFieldMarker()
    ensures Contains("circulo__relleno", FilledMarker)
  {
    assert "circulo__relleno" == "circulo_" + FilledMarker;
    ContainsSuffix("circulo_", FilledMarker);
  }

  /** A filled name with the marker where the radius should be raises:
      `int("relleno")` fails. */
  lemma MarkerFieldRaises()
    ensures GlyphOf(Some("circulo_relleno")) == RadiusNotAnInteger("circulo_relleno")
  {
    var s := "circulo_relleno";
    MarkerFieldName();
    MarkerNotInteger();
  }

  lemma MarkerFieldName()
    ensures Named("circulo_relleno").None? && StartsWith("circulo_relleno", CirclePrefix)
    ensures FirstField("circulo_relleno"[|CirclePrefix|..]) == "relleno"
    ensures Contains("circulo_relleno", FilledMarker)
  {
    MarkerFieldUnlisted();
    AfterPrefix("relleno");
    assert "circulo_relleno" == CirclePrefix + "relleno";
    MarkerFieldMarker();
  }

  lemma MarkerFieldUnlisted()
    ensures Named("circulo_relleno").None?
  {
    assert "circulo_relleno"[8] == 'r';
  }

  lemma MarkerFieldMarker()
    ensures Contains("circulo_relleno", FilledMarker)
  {
    assert "circulo_relleno" == "circulo" + FilledMarker;
    ContainsSuffix("circulo", FilledMarker);
  }

  lemma AfterPrefix(rest: string)
    ensures StartsWith(CirclePrefix + rest, CirclePrefix)
    ensures (CirclePrefix + rest)[|CirclePrefix|..] == rest
  {
    StartsWithPrefix(CirclePrefix, rest);
  }

  /** A text starting with something other than white space, a sign or a
      digit is not an integer. */
  lemma LeadingLetterNotInteger(t: string)
    requires t != [] && !IsSpace(t[0]) && !IsDigit(t[0]) && t[0] != '-' && t[0] != '+'
    ensures ParseInt(t) == None
  {
    assert TrimStart(t) == t;
    var u := TrimEnd(t);
    if u != [] {
      assert u[0] == t[0];
      assert u[0..] == u;
    }
  }

  lemma AbcNotInteger()
    ensures ParseInt("abc") == None
  {
    LeadingLetterNotInteger("abc");
  }

  lemma MarkerNotInteger()
    ensures ParseInt("relleno") == None
  {
    LeadingLetterNotInteger("relleno");
  }

  lemma EmptyNotInteger()
    ensures ParseInt("") == None
  {
  }

  lemma NegativeInteger()
    ensures ParseInt("-3") == Some(-3)
  {
    MinusThreeUntrimmed();
    MinusThreeDigits();
  }

  lemma MinusThreeUntrimmed()
    ensures TrimEnd(TrimStart("-3")) == "-3"
  {
    assert "-3"[0] == '-' && "-3"[1] == '3';
    assert TrimStart("-3") == "-3";
  }

  lemma MinusThreeDigits()
    ensures ParseSigned("-3") == Some(-3)
  {
    assert "-3"[1..] == "3";
    assert DigitsValue("3") == 3;
  }

  lemma SpacedInteger()
    ensures ParseInt(" 7") == Some(7)
  {
    SpaceThenDigits(' ', "7");
    SevenDigits();
    assert [' '] + "7" == " 7";
  }

  lemma SevenDigits()
    ensures AllDigits("7") && DigitsValue("7") == 7
  {
    assert "7"[..0] == [];
  }

  /** Leading white space before the digits is ignored. */
  lemma SpaceThenDigits(c: char, d: string)
    requires IsSpace(c) && d != [] && AllDigits(d)
    ensures ParseInt([c] + d) == Some(DigitsValue(d))
  {
    assert ([c] + d)[1..] == d;
    NoSpaceInDigits(d);
    assert TrimStart([c] + d) == d;
    assert !(d[0] == '-' || d[0] == '+');
    assert d[0..] == d;
  }

  /** The marker has an `e`, so a string without one cannot contain it. */
  lemma {:induction false} WithoutELacksMarker(s: string)
    requires 'e' !in s
    ensures !Contains(s, FilledMarker)
    decreases |s|
  {
    if s != [] {
      assert !StartsWith(s, FilledMarker) by {
        if |FilledMarker| <= |s| { assert s[..|FilledMarker|][2] == s[2]; }
      }
      assert s == [s[0]] + s[1..];
      WithoutELacksMarker(s[1..]);
    }
  }

  lemma {:induction false} FieldBeforeUnderscore(s: string, rest: string)
    requires '_' !in s
    requires rest != [] && rest[0] == '_'
    ensures FirstField(s + rest) == s
    decreases |s|
  {
    if s == [] {
      assert s + rest == rest;
    } else {
      assert (s + rest)[0] == s[0];
      assert (s + rest)[1..] == s[1..] + rest;
      FieldBeforeUnderscore(s[1..], rest);
    }
  }
}
