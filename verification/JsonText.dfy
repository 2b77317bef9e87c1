/** JSON text as Python's `json.loads` reads it and `json.dumps` writes it
    (RFC 8259 sections 2 to 7). The reader works on positions in one text;
    object members keep their text order. */
module JsonText {
  import opened PyText

  datatype Json =
    | Atom(token: string)
    | Str(text: string)
    | Arr(items: seq<Json>)
    | Obj(members: seq<Member>)

  datatype Member = Member(key: string, value: Json)

  /** A value and the position just after it. */
  datatype Parsed<+T> = Bad | Ok(value: T, end: nat)

  // ---------------------------------------------------------------- tokens

  predicate At(s: string, i: nat, c: char) {
    i < |s| && s[i] == c
  }

  predicate IsWs(c: char) {
    c == ' ' || c == '\t' || c == '\n' || c == '\r'
  }

  predicate AllWs(s: string) {
    forall i :: 0 <= i < |s| ==> IsWs(s[i])
  }

  function SkipWs(s: string, i: nat): (r: nat)
    requires i <= |s|
    ensures i <= r <= |s|
    ensures r < |s| ==> !IsWs(s[r])
    decreases |s| - i
  {
    if i < |s| && IsWs(s[i]) then SkipWs(s, i + 1) else i
  }

  predicate IsDigit(c: char) {
    '0' <= c <= '9'
  }

  predicate IsAtomChar(c: char) {
    IsDigit(c) || 'a' <= c <= 'z' || 'A' <= c <= 'Z' || c == '-' || c == '+' || c == '.'
  }

  function AtomEnd(s: string, i: nat): (n: nat)
    requires i <= |s|
    ensures i <= n <= |s|
    decreases |s| - i
  {
    if i < |s| && IsAtomChar(s[i]) then AtomEnd(s, i + 1) else i
  }

  function DigitCount(s: string): (n: nat)
    ensures n <= |s|
  {
    if s != "" && IsDigit(s[0]) then 1 + DigitCount(s[1..]) else 0
  }

  predicate IsExponent(s: string) {
    s == "" ||
    ((s[0] == 'e' || s[0] == 'E') &&
     var d := if |s| > 1 && (s[1] == '+' || s[1] == '-') then s[2..] else s[1..];
     0 < DigitCount(d) == |d|)
  }

  predicate IsFraction(s: string) {
    if s != "" && s[0] == '.' then
      var n := DigitCount(s[1..]);
      0 < n && IsExponent(s[1 + n..])
    else
      IsExponent(s)
  }

  predicate IsUnsigned(s: string) {
    var n := DigitCount(s);
    0 < n && (s[0] == '0' ==> n == 1) && IsFraction(s[n..])
  }

  predicate IsNumber(s: string) {
    IsUnsigned(if s != "" && s[0] == '-' then s[1..] else s)
  }

  // The grammar of numbers in RFC 8259 section 6, part by part.

  predicate Digits(s: string) {
    s != "" && forall k :: 0 <= k < |s| ==> IsDigit(s[k])
  }

  predicate IntPart(s: string) {
    s == "0" || (Digits(s) && s[0] != '0')
  }

  predicate FracPart(s: string) {
    s == "" || (s[0] == '.' && Digits(s[1..]))
  }

  predicate ExpPart(s: string) {
    s == "" ||
    ((s[0] == 'e' || s[0] == 'E') && (Digits(s[1..]) || (|s| > 1 && (s[1] == '+' || s[1] == '-') && Digits(s[2..]))))
  }

  lemma {:induction false} DigitCountIs(s: string)
    ensures forall k :: 0 <= k < DigitCount(s) ==> IsDigit(s[k])
    ensures DigitCount(s) < |s| ==> !IsDigit(s[DigitCount(s)])
  {
    if s != "" && IsDigit(s[0]) {
      DigitCountIs(s[1..]);
      forall k | 0 <= k < DigitCount(s) ensures IsDigit(s[k]) {
        assert k > 0 ==> s[k] == s[1..][k - 1];
      }
    }
  }

  lemma {:induction false} DigitsThen(d: string, rest: string)
    requires (forall k :: 0 <= k < |d| ==> IsDigit(d[k])) && (rest == "" || !IsDigit(rest[0]))
    ensures DigitCount(d + rest) == |d| && (d + rest)[|d|..] == rest
    decreases |d|
  {
    if d == "" {
      assert d + rest == rest;
    } else {
      assert (d + rest)[1..] == d[1..] + rest;
      DigitsThen(d[1..], rest);
    }
  }

  lemma ExponentGrammar(s: string)
    ensures IsExponent(s) <==> ExpPart(s)
  {
    if |s| > 1 {
      DigitCountIs(s[1..]);
      DigitCountIs(s[2..]);
      assert s[1..][0] == s[1];
    }
  }

  lemma FractionGrammar(s: string)
    ensures IsFraction(s) <==> exists frac, exp :: s == frac + exp && FracPart(frac) && ExpPart(exp)
  {
    ExponentGrammar(s);
    if IsFraction(s) {
      if s != "" && s[0] == '.' {
        var n := DigitCount(s[1..]);
        DigitCountIs(s[1..]);
        ExponentGrammar(s[1 + n..]);
        var frac, exp := s[..1 + n], s[1 + n..];
        assert frac[1..] == s[1..][..n];
        assert s == frac + exp && FracPart(frac) && ExpPart(exp);
      } else {
        assert s == "" + s && FracPart("");
      }
    }
    forall frac, exp | s == frac + exp && FracPart(frac) && ExpPart(exp) ensures IsFraction(s) {
      FractionBack(s, frac, exp);
    }
  }

  lemma FractionBack(s: string, frac: string, exp: string)
    requires s == frac + exp && FracPart(frac) && ExpPart(exp)
    ensures IsFraction(s)
  {
    ExponentGrammar(exp);
    if frac == "" {
      assert s == exp;
    } else {
      DigitsThen(frac[1..], exp);
      assert s[1..] == frac[1..] + exp && s[|frac|..] == exp;
    }
  }

  predicate UnsignedParts(s: string, whole: string, frac: string, exp: string) {
    s == whole + (frac + exp) && IntPart(whole) && FracPart(frac) && ExpPart(exp)
  }

  lemma UnsignedForth(s: string) returns (whole: string, frac: string, exp: string)
    requires IsUnsigned(s)
    ensures UnsignedParts(s, whole, frac, exp)
  {
    hide IsFraction, FracPart, ExpPart;
    var n := DigitCount(s);
    whole := s[..n];
    DigitCountIs(s);
    FractionGrammar(s[n..]);
    frac, exp :| s[n..] == frac + exp && FracPart(frac) && ExpPart(exp);
    assert s == whole + s[n..];
  }

  lemma TailStarts(frac: string, exp: string)
    requires FracPart(frac) && ExpPart(exp)
    ensures frac + exp == "" || !IsDigit((frac + exp)[0])
  {
    if frac == "" {
      assert frac + exp == exp;
    }
  }

  lemma WholeDigits(whole: string)
    requires IntPart(whole)
    ensures whole != "" && (forall k :: 0 <= k < |whole| ==> IsDigit(whole[k])) && (whole[0] == '0' ==> |whole| == 1)
  {}

  lemma UnsignedBack(s: string, whole: string, frac: string, exp: string)
    requires UnsignedParts(s, whole, frac, exp)
    ensures IsUnsigned(s) && s != "" && s[0] != '-'
  {
    hide IsFraction, FracPart, ExpPart, IntPart, DigitCount;
    FractionBack(frac + exp, frac, exp);
    TailStarts(frac, exp);
    WholeDigits(whole);
    DigitsThen(whole, frac + exp);
    assert s[0] == whole[0];
  }

  predicate NumberParts(t: string, minus: string, whole: string, frac: string, exp: string) {
    && t == minus + (whole + (frac + exp)) && (minus == "" || minus == "-")
    && IntPart(whole) && FracPart(frac) && ExpPart(exp)
  }

  /** What counts as a number: an optional minus, digits without a leading zero but for 0
      itself, an optional fraction and an optional exponent. */
  lemma NumberGrammar(t: string)
    ensures IsNumber(t) <==> exists minus, whole, frac, exp :: NumberParts(t, minus, whole, frac, exp)
  {
    hide IsUnsigned, IntPart, FracPart, ExpPart;
    if IsNumber(t) {
      var minus := if t != "" && t[0] == '-' then "-" else "";
      var u := if t != "" && t[0] == '-' then t[1..] else t;
      var whole, frac, exp := UnsignedForth(u);
      assert t == minus + u;
      assert NumberParts(t, minus, whole, frac, exp);
    }
    forall minus, whole, frac, exp | NumberParts(t, minus, whole, frac, exp) ensures IsNumber(t) {
      var u := whole + (frac + exp);
      UnsignedBack(u, whole, frac, exp);
      if minus == "-" {
        assert t[1..] == u;
      } else {
        assert t == u;
      }
    }
  }

  /** The literals of RFC 8259, the three Python adds to them, and numbers. */
  predicate IsLiteral(t: string) {
    t in {"null", "true", "false", "NaN", "Infinity", "-Infinity"} || IsNumber(t)
  }

  predicate IsAtom(t: string) {
    t != "" && (forall k :: 0 <= k < |t| ==> IsAtomChar(t[k])) && IsLiteral(t)
  }

  // ---------------------------------------------------------------- strings

  predicate IsHex(c: char) {
    IsDigit(c) || 'a' <= c <= 'f' || 'A' <= c <= 'F'
  }

  function HexValue(c: char): (v: nat)
    requires IsHex(c)
    ensures v < 16
  {
    if IsDigit(c) then c as int - '0' as int
    else if 'a' <= c <= 'f' then c as int - 'a' as int + 10
    else c as int - 'A' as int + 10
  }

  /** The code unit of `uXXXX` at position `i`, if there is one. */
  function Unit(s: string, i: nat): (u: Option<nat>)
    ensures u.Some? ==>
              i + 5 <= |s| && u.value < 0x10000 && s[i] == 'u' && forall k :: i + 1 <= k < i + 5 ==> IsHex(s[k])
  {
    if i + 5 <= |s| && s[i] == 'u' && IsHex(s[i + 1]) && IsHex(s[i + 2]) && IsHex(s[i + 3]) && IsHex(s[i + 4]) then
      Some(HexValue(s[i + 1]) * 4096 + HexValue(s[i + 2]) * 256 + HexValue(s[i + 3]) * 16 + HexValue(s[i + 4]))
    else None
  }

  function ShortEscape(c: char): Option<char> {
    match c
    case '"' => Some('"')
    case '\\' => Some('\\')
    case '/' => Some('/')
    case 'b' => Some(8 as char)
    case 'f' => Some(12 as char)
    case 'n' => Some('\n')
    case 'r' => Some('\r')
    case 't' => Some('\t')
    case _ => None
  }

  /** The character denoted by the text after a backslash. A surrogate pair
      gives one character; a lone surrogate is no Unicode character. */
  function ParseEscape(s: string, i: nat): (r: Parsed<char>)
    requires i <= |s|
    ensures r.Ok? ==> i < r.end <= |s|
  {
    if i == |s| then Bad
    else if ShortEscape(s[i]).Some? then Ok(ShortEscape(s[i]).value, i + 1)
    else
      match Unit(s, i)
      case None => Bad
      case Some(u) =>
        if u < 0xD800 || 0xE000 <= u then Ok(u as char, i + 5)
        else if u < 0xDC00 && At(s, i + 5, '\\') && Unit(s, i + 6).Some?
                && 0xDC00 <= Unit(s, i + 6).value < 0xE000 then
          Ok((0x10000 + (u - 0xD800) * 0x400 + (Unit(s, i + 6).value - 0xDC00)) as char, i + 11)
        else Bad
  }

  /** The short escapes of RFC 8259 section 7, and no others. */
  lemma ShortEscapes(c: char)
    ensures ShortEscape('"') == Some('"') && ShortEscape('\\') == Some('\\') && ShortEscape('/') == Some('/')
    ensures ShortEscape('b') == Some('\U{8}') && ShortEscape('f') == Some('\U{C}') && ShortEscape('n') == Some('\U{A}')
    ensures ShortEscape('r') == Some('\U{D}') && ShortEscape('t') == Some('\U{9}')
    ensures c !in {'"', '\\', '/', 'b', 'f', 'n', 'r', 't'} ==> ShortEscape(c) == None
  {}

  /** Hexadecimal escapes, in either case, and a pair of them for a character outside the
      basic plane: the example of RFC 8259 section 7 is the G clef. */
  lemma UnicodeEscapes()
    ensures ParseEscape("u00e9", 0) == ParseEscape("u00E9", 0) == Ok('\U{E9}', 5)
    ensures ParseEscape("uFFFF", 0) == Ok('\U{FFFF}', 5)
    ensures ParseEscape("uD834\\uDD1E", 0) == Ok('\U{1D11E}', 11)
    ensures ParseEscape("uD834", 0) == ParseEscape("uDD1E", 0) == ParseEscape("u00g9", 0) == Bad
  {}

  function PushChar(c: char, p: Parsed<string>): (r: Parsed<string>)
    ensures r.Ok? <==> p.Ok?
    ensures r.Ok? ==> r.end == p.end
  {
    match p
    case Bad => Bad
    case Ok(cs, e) => Ok([c] + cs, e)
  }

  /** The rest of a string after its opening quote. */
  function ParseChars(s: string, i: nat): (r: Parsed<string>)
    requires i <= |s|
    ensures r.Ok? ==> i < r.end <= |s|
    decreases |s| - i
  {
    if i == |s| || s[i] as int < 0x20 then Bad
    else if s[i] == '"' then Ok("", i + 1)
    else if s[i] == '\\' then
      match ParseEscape(s, i + 1)
      case Bad => Bad
      case Ok(c, e) => PushChar(c, ParseChars(s, e))
    else PushChar(s[i], ParseChars(s, i + 1))
  }

  // ---------------------------------------------------------------- values

  function ParseValue(s: string, i: nat): (r: Parsed<Json>)
    requires i <= |s|
    ensures r.Ok? ==> i < r.end <= |s|
    decreases |s| - i, 0
  {
    if i == |s| then Bad
    else if s[i] == '"' then
      match ParseChars(s, i + 1)
      case Bad => Bad
      case Ok(t, e) => Ok(Str(t), e)
    else if s[i] == '[' then
      var a := SkipWs(s, i + 1);
      if At(s, a, ']') then Ok(Arr([]), a + 1) else
      match ParseItems(s, a)
      case Bad => Bad
      case Ok(vs, e) => Ok(Arr(vs), e)
    else if s[i] == '{' then
      var a := SkipWs(s, i + 1);
      if At(s, a, '}') then Ok(Obj([]), a + 1) else
      match ParseMembers(s, a)
      case Bad => Bad
      case Ok(ms, e) => Ok(Obj(ms), e)
    else
      var e := AtomEnd(s, i);
      if IsAtom(s[i..e]) then Ok(Atom(s[i..e]), e) else Bad
  }

  /** One or more items, up to and including the closing bracket. */
  function ParseItems(s: string, i: nat): (r: Parsed<seq<Json>>)
    requires i <= |s|
    ensures r.Ok? ==> i < r.end <= |s|
    decreases |s| - i, 1
  {
    match ParseValue(s, i)
    case Bad => Bad
    case Ok(v, e) =>
      var a := SkipWs(s, e);
      if At(s, a, ']') then Ok([v], a + 1)
      else if At(s, a, ',') then
        match ParseItems(s, SkipWs(s, a + 1))
        case Bad => Bad
        case Ok(vs, e2) => Ok([v] + vs, e2)
      else Bad
  }

  function ParseMember(s: string, i: nat): (r: Parsed<Member>)
    requires i <= |s|
    ensures r.Ok? ==> i < r.end <= |s|
    decreases |s| - i, 1
  {
    if !At(s, i, '"') then Bad else
    match ParseChars(s, i + 1)
    case Bad => Bad
    case Ok(k, e) =>
      var a := SkipWs(s, e);
      if !At(s, a, ':') then Bad else
      match ParseValue(s, SkipWs(s, a + 1))
      case Bad => Bad
      case Ok(v, e2) => Ok(Member(k, v), e2)
  }

  /** One or more members, up to and including the closing brace. */
  function ParseMembers(s: string, i: nat): (r: Parsed<seq<Member>>)
    requires i <= |s|
    ensures r.Ok? ==> i < r.end <= |s|
    decreases |s| - i, 2
  {
    match ParseMember(s, i)
    case Bad => Bad
    case Ok(m, e) =>
      var a := SkipWs(s, e);
      if At(s, a, '}') then Ok([m], a + 1)
      else if At(s, a, ',') then
        match ParseMembers(s, SkipWs(s, a + 1))
        case Bad => Bad
        case Ok(ms, e2) => Ok([m] + ms, e2)
      else Bad
  }

  /** `json.loads`: one value with nothing but white space around it. */
  function Loads(s: string): Option<Json> {
    match ParseValue(s, SkipWs(s, 0))
    case Bad => None
    case Ok(v, e) => if SkipWs(s, e) == |s| then Some(v) else None
  }

  // ---------------------------------------------------------------- printing

  function HexDigit(n: nat): (c: char)
    requires n < 16
    ensures IsHex(c) && HexValue(c) == n
  {
    if n < 10 then ('0' as int + n) as char else ('a' as int + n - 10) as char
  }

  /** The characters `json.dumps` never writes as themselves. */
  predicate NeedsEscape(c: char) {
    c as int < 0x20 || c == '"' || c == '\\'
  }

  /** How `json.dumps` writes one character when it keeps non-ASCII text. */
  function Escaped(c: char): string {
    if !NeedsEscape(c) then [c]
    else if c == '"' then "\\\""
    else if c == '\\' then "\\\\"
    else if c == '\n' then "\\n"
    else if c == '\r' then "\\r"
    else if c == '\t' then "\\t"
    else if c as int == 8 then "\\b"
    else if c as int == 12 then "\\f"
    else ['\\', 'u', '0', '0', HexDigit(c as int / 16), HexDigit(c as int % 16)]
  }

  function EscapedAll(s: string): string {
    if s == "" then "" else Escaped(s[0]) + EscapedAll(s[1..])
  }

  /** The white space written after a comma and after a colon. */
  datatype Layout = Layout(comma: string, colon: string) {
    predicate Valid() { AllWs(comma) && AllWs(colon) }
  }

  function Print(j: Json, o: Layout): string
    decreases j, 0
  {
    match j
    case Atom(t) => t
    case Str(t) => "\"" + (EscapedAll(t) + "\"")
    case Arr(items) => "[" + PrintItems(items, o)
    case Obj(members) => "{" + PrintMembers(members, o)
  }

  function PrintItems(items: seq<Json>, o: Layout): string
    decreases items, 0
  {
    if items == [] then "]"
    else Print(items[0], o) + PrintMoreItems(items[1..], o)
  }

  function PrintMoreItems(items: seq<Json>, o: Layout): string
    decreases items, 1
  {
    if items == [] then "]" else "," + (o.comma + PrintItems(items, o))
  }

  function PrintMember(m: Member, o: Layout): string
    decreases m, 0
  {
    "\"" + ((EscapedAll(m.key) + "\"") + (":" + (o.colon + Print(m.value, o))))
  }

  function PrintMembers(members: seq<Member>, o: Layout): string
    decreases members, 0
  {
    if members == [] then "}"
    else PrintMember(members[0], o) + PrintMoreMembers(members[1..], o)
  }

  function PrintMoreMembers(members: seq<Member>, o: Layout): string
    decreases members, 1
  {
    if members == [] then "}" else "," + (o.comma + PrintMembers(members, o))
  }

  /** Every atom in the value is one the grammar allows. */
  predicate WellFormed(j: Json)
    decreases j
  {
    match j
    case Atom(t) => IsAtom(t)
    case Str(_) => true
    case Arr(items) => forall v :: v in items ==> WellFormed(v)
    case Obj(members) => forall m :: m in members ==> WellFormed(m.value)
  }

  // ------------------------------------------------ printing then parsing

  /** `p` stands at position `i` of `s`. */
  predicate Has(s: string, i: nat, p: string)
    decreases |p|
  {
    p != "" ==> At(s, i, p[0]) && Has(s, i + 1, p[1..])
  }

  lemma {:induction false} HasParts(s: string, i: nat, a: string, b: string)
    requires i <= |s| && Has(s, i, a + b)
    ensures Has(s, i, a) && i + |a| <= |s| && Has(s, i + |a|, b)
    decreases |a|
  {
    if a == "" {
      assert a + b == b;
    } else {
      assert (a + b)[1..] == a[1..] + b;
      HasParts(s, i + 1, a[1..], b);
    }
  }

  lemma {:induction false} HasSlice(s: string, i: nat, p: string)
    requires i <= |s|
    ensures Has(s, i, p) <==> i + |p| <= |s| && s[i..i + |p|] == p
    decreases |p|
  {
    if p == "" {
    } else if i < |s| {
      HasSlice(s, i + 1, p[1..]);
      if i + |p| <= |s| {
        assert s[i..i + |p|] == [s[i]] + s[i + 1..i + |p|];
        assert p == [p[0]] + p[1..];
      }
    }
  }

  lemma {:induction false} SkipWsOver(s: string, i: nat, w: string)
    requires AllWs(w) && i <= |s| && Has(s, i, w)
    requires i + |w| < |s| && !IsWs(s[i + |w|])
    ensures SkipWs(s, i) == i + |w|
    decreases |w|
  {
    if w != "" {
      assert w == w[..1] + w[1..];
      HasParts(s, i, w[..1], w[1..]);
      SkipWsOver(s, i + 1, w[1..]);
    }
  }

  lemma EscapeRoundTrip(s: string, i: nat, c: char)
    requires NeedsEscape(c) && i <= |s| && Has(s, i, Escaped(c))
    ensures At(s, i, '\\') && ParseEscape(s, i + 1) == Ok(c, i + |Escaped(c)|)
  {
    var e := Escaped(c);
    var n := c as int;
    HasSlice(s, i, e);
    if n < 0x20 && n !in {8, 9, 10, 12, 13} {
      assert s[i..i + |e|] == e;
      assert s[i] == e[0] && s[i + 1] == e[1] && s[i + 2] == e[2] && s[i + 3] == e[3]
             && s[i + 4] == e[4] && s[i + 5] == e[5];
      assert Unit(s, i + 1) == Some(n);
    } else {
      assert s[i] == e[0] && s[i + 1] == e[1];
    }
  }

  lemma CharRoundTrip(s: string, i: nat, c: char)
    requires i + |Escaped(c)| <= |s| && Has(s, i, Escaped(c))
    ensures ParseChars(s, i) == PushChar(c, ParseChars(s, i + |Escaped(c)|))
  {
    hide ParseEscape;
    if NeedsEscape(c) {
      EscapeRoundTrip(s, i, c);
    } else {
      HasSlice(s, i, [c]);
    }
  }

  lemma QuoteEnds(s: string, i: nat)
    requires i <= |s| && Has(s, i, "\"")
    ensures ParseChars(s, i) == Ok("", i + 1)
  {}

  lemma {:induction false} CharsRoundTrip(s: string, i: nat, t: string)
    requires i <= |s| && Has(s, i, EscapedAll(t) + "\"")
    ensures ParseChars(s, i) == Ok(t, i + |EscapedAll(t)| + 1)
    decreases |t|
  {
    hide ParseChars, Escaped, Has;
    if t == "" {
      assert EscapedAll(t) + "\"" == "\"";
      QuoteEnds(s, i);
    } else {
      var tail := EscapedAll(t[1..]) + "\"";
      assert EscapedAll(t) + "\"" == Escaped(t[0]) + tail;
      HasParts(s, i, Escaped(t[0]), tail);
      CharRoundTrip(s, i, t[0]);
      CharsRoundTrip(s, i + |Escaped(t[0])|, t[1..]);
      assert t == [t[0]] + t[1..];
    }
  }

  lemma {:induction false} AtomEndOf(s: string, i: nat, t: string)
    requires i <= |s| && Has(s, i, t) && forall k :: 0 <= k < |t| ==> IsAtomChar(t[k])
    requires Separated(s, i + |t|)
    ensures AtomEnd(s, i) == i + |t|
    decreases |t|
  {
    if t != "" {
      assert t == t[..1] + t[1..];
      HasParts(s, i, t[..1], t[1..]);
      AtomEndOf(s, i + 1, t[1..]);
    }
  }

  /** What stands at position `i` cannot be taken for part of an atom. */
  predicate Separated(s: string, i: nat) {
    i < |s| ==> !IsAtomChar(s[i])
  }

  lemma PrintStarts(j: Json, o: Layout)
    requires WellFormed(j)
    ensures Print(j, o) != ""
    ensures !IsWs(Print(j, o)[0]) && Print(j, o)[0] != ']'
    ensures j.Obj? <==> Print(j, o)[0] == '{'
  {
    if j.Atom? {
      assert IsAtomChar(j.token[0]);
    }
  }

  // Single steps of the reader over a text with known parts; each unfolds one
  // definition, so that the inductions below need not.

  lemma ReadAtom(s: string, i: nat)
    requires i < |s| && s[i] != '"' && s[i] != '[' && s[i] != '{' && IsAtom(s[i..AtomEnd(s, i)])
    ensures ParseValue(s, i) == Ok(Atom(s[i..AtomEnd(s, i)]), AtomEnd(s, i))
  {}

  lemma ReadString(s: string, i: nat)
    requires At(s, i, '"') && ParseChars(s, i + 1).Ok?
    ensures ParseValue(s, i) == Ok(Str(ParseChars(s, i + 1).value), ParseChars(s, i + 1).end)
  {}

  lemma ReadArray(s: string, i: nat)
    requires At(s, i, '[') && i + 1 < |s| && !IsWs(s[i + 1])
    ensures s[i + 1] == ']' ==> ParseValue(s, i) == Ok(Arr([]), i + 2)
    ensures s[i + 1] != ']' && ParseItems(s, i + 1).Ok? ==>
              ParseValue(s, i) == Ok(Arr(ParseItems(s, i + 1).value), ParseItems(s, i + 1).end)
  {}

  lemma ReadObject(s: string, i: nat)
    requires At(s, i, '{') && i + 1 < |s| && !IsWs(s[i + 1])
    ensures s[i + 1] == '}' ==> ParseValue(s, i) == Ok(Obj([]), i + 2)
    ensures s[i + 1] != '}' && ParseMembers(s, i + 1).Ok? ==>
              ParseValue(s, i) == Ok(Obj(ParseMembers(s, i + 1).value), ParseMembers(s, i + 1).end)
  {}

  lemma ReadItems(s: string, i: nat, v: Json, e: nat, next: nat)
    requires i <= |s| && ParseValue(s, i) == Ok(v, e) && e < |s| && !IsWs(s[e])
    ensures s[e] == ']' ==> ParseItems(s, i) == Ok([v], e + 1)
    ensures s[e] == ',' && next == SkipWs(s, e + 1) && ParseItems(s, next).Ok? ==>
              ParseItems(s, i) == Ok([v] + ParseItems(s, next).value, ParseItems(s, next).end)
  {
    hide ParseValue, ParseMembers;
  }

  lemma ReadMembers(s: string, i: nat, m: Member, e: nat, next: nat)
    requires i <= |s| && ParseMember(s, i) == Ok(m, e) && e < |s| && !IsWs(s[e])
    ensures s[e] == '}' ==> ParseMembers(s, i) == Ok([m], e + 1)
    ensures s[e] == ',' && next == SkipWs(s, e + 1) && ParseMembers(s, next).Ok? ==>
              ParseMembers(s, i) == Ok([m] + ParseMembers(s, next).value, ParseMembers(s, next).end)
  {
    hide ParseValue, ParseItems, ParseMember;
  }

  lemma ReadMember(s: string, i: nat, k: string, e: nat, v: nat)
    requires At(s, i, '"') && ParseChars(s, i + 1) == Ok(k, e) && At(s, e, ':')
    requires v == SkipWs(s, e + 1) && ParseValue(s, v).Ok?
    ensures ParseMember(s, i) == Ok(Member(k, ParseValue(s, v).value), ParseValue(s, v).end)
  {
    hide ParseValue, ParseChars;
  }

  /** A comma, white space and then text that is not white space. */
  lemma SkipComma(s: string, i: nat, w: string, rest: string)
    requires AllWs(w) && rest != "" && !IsWs(rest[0])
    requires i <= |s| && Has(s, i, "," + (w + rest))
    ensures At(s, i, ',') && SkipWs(s, i + 1) == i + 1 + |w| && Has(s, i + 1 + |w|, rest)
  {
    hide SkipWs, Has;
    HasParts(s, i, ",", w + rest);
    HasFirst(s, i, ",");
    HasParts(s, i + 1, w, rest);
    HasFirst(s, i + 1 + |w|, rest);
    SkipWsOver(s, i + 1, w);
  }

  lemma HasFirst(s: string, i: nat, p: string)
    requires p != "" && Has(s, i, p)
    ensures At(s, i, p[0])
  {}

  lemma AtomRoundTrip(s: string, i: nat, t: string)
    requires IsAtom(t) && i <= |s| && Has(s, i, t) && Separated(s, i + |t|)
    ensures ParseValue(s, i) == Ok(Atom(t), i + |t|)
  {
    hide ParseValue, IsLiteral;
    AtomEndOf(s, i, t);
    HasSlice(s, i, t);
    assert IsAtomChar(t[0]);
    ReadAtom(s, i);
  }

  lemma ItemsStart(items: seq<Json>, o: Layout)
    requires items != [] && forall v :: v in items ==> WellFormed(v)
    ensures PrintItems(items, o) != "" && !IsWs(PrintItems(items, o)[0]) && PrintItems(items, o)[0] != ']'
  {
    PrintStarts(items[0], o);
  }

  lemma MembersStart(members: seq<Member>, o: Layout)
    requires members != []
    ensures PrintMembers(members, o) != "" && PrintMembers(members, o)[0] == '"'
  {}

  /** The parser inverts the printer, whatever the layout and whatever text
      surrounds the value. */
  lemma {:induction false} ValueRoundTrip(s: string, i: nat, j: Json, o: Layout)
    requires WellFormed(j) && o.Valid()
    requires i <= |s| && Has(s, i, Print(j, o))
    requires j.Atom? ==> Separated(s, i + |Print(j, o)|)
    ensures ParseValue(s, i) == Ok(j, i + |Print(j, o)|)
    decreases j, 0
  {
    hide ParseValue, ParseItems, ParseMembers, ParseChars, IsAtom, IsAtomChar;
    match j
    case Atom(t) =>
      AtomRoundTrip(s, i, t);
    case Str(t) =>
      HasParts(s, i, "\"", EscapedAll(t) + "\"");
      CharsRoundTrip(s, i + 1, t);
      ReadString(s, i);
    case Arr(items) =>
      HasParts(s, i, "[", PrintItems(items, o));
      if items != [] {
        ItemsStart(items, o);
        ItemsRoundTrip(s, i + 1, items, o);
      }
      ReadArray(s, i);
    case Obj(members) =>
      HasParts(s, i, "{", PrintMembers(members, o));
      if members != [] {
        MembersStart(members, o);
        MembersRoundTrip(s, i + 1, members, o);
      }
      ReadObject(s, i);
  }

  lemma {:induction false} ItemsRoundTrip(s: string, i: nat, items: seq<Json>, o: Layout)
    requires items != [] && (forall v :: v in items ==> WellFormed(v)) && o.Valid()
    requires i <= |s| && Has(s, i, PrintItems(items, o))
    ensures ParseItems(s, i) == Ok(items, i + |PrintItems(items, o)|)
    decreases items, 1
  {
    hide ParseValue, ParseItems, ParseMembers, Print, IsAtom;
    var p := Print(items[0], o);
    var more := items[1..];
    HasParts(s, i, p, PrintMoreItems(more, o));
    var e := i + |p|;
    ValueRoundTrip(s, i, items[0], o);
    if more == [] {
      ReadItems(s, i, items[0], e, 0);
      assert items == [items[0]];
    } else {
      ItemsStart(more, o);
      SkipComma(s, e, o.comma, PrintItems(more, o));
      ItemsRoundTrip(s, e + 1 + |o.comma|, more, o);
      ReadItems(s, i, items[0], e, e + 1 + |o.comma|);
      assert items == [items[0]] + more;
    }
  }

  lemma {:induction false} MemberRoundTrip(s: string, i: nat, m: Member, o: Layout)
    requires WellFormed(m.value) && o.Valid()
    requires i <= |s| && Has(s, i, PrintMember(m, o)) && Separated(s, i + |PrintMember(m, o)|)
    ensures ParseMember(s, i) == Ok(m, i + |PrintMember(m, o)|)
    decreases m, 0
  {
    hide ParseValue, ParseMember, ParseItems, ParseMembers, ParseChars, Print, EscapedAll, IsAtom;
    var key := EscapedAll(m.key) + "\"";
    var value := Print(m.value, o);
    HasParts(s, i, "\"", key + (":" + (o.colon + value)));
    HasParts(s, i + 1, key, ":" + (o.colon + value));
    CharsRoundTrip(s, i + 1, m.key);
    var e := i + 1 + |key|;
    HasParts(s, e, ":", o.colon + value);
    HasParts(s, e + 1, o.colon, value);
    PrintStarts(m.value, o);
    SkipWsOver(s, e + 1, o.colon);
    ValueRoundTrip(s, e + 1 + |o.colon|, m.value, o);
    ReadMember(s, i, m.key, e, e + 1 + |o.colon|);
  }

  lemma {:induction false} MembersRoundTrip(s: string, i: nat, members: seq<Member>, o: Layout)
    requires members != [] && (forall m :: m in members ==> WellFormed(m.value)) && o.Valid()
    requires i <= |s| && Has(s, i, PrintMembers(members, o))
    ensures ParseMembers(s, i) == Ok(members, i + |PrintMembers(members, o)|)
    decreases members, 1
  {
    hide ParseMember, ParseItems, ParseMembers, PrintMember, IsAtom;
    var p := PrintMember(members[0], o);
    var more := members[1..];
    HasParts(s, i, p, PrintMoreMembers(more, o));
    var e := i + |p|;
    MemberRoundTrip(s, i, members[0], o);
    if more == [] {
      ReadMembers(s, i, members[0], e, 0);
      assert members == [members[0]];
    } else {
      MembersStart(more, o);
      SkipComma(s, e, o.comma, PrintMembers(more, o));
      MembersRoundTrip(s, e + 1 + |o.comma|, more, o);
      ReadMembers(s, i, members[0], e, e + 1 + |o.comma|);
      assert members == [members[0]] + more;
    }
  }

  /** `loads(dumps(v)) == v`. */
  lemma LoadsPrint(j: Json, o: Layout)
    requires WellFormed(j) && o.Valid()
    ensures Loads(Print(j, o)) == Some(j)
  {
    PrintStarts(j, o);
    HasSlice(Print(j, o), 0, Print(j, o));
    ValueRoundTrip(Print(j, o), 0, j, o);
  }

  // ------------------------------------------------ texts within texts

  /** `t` holds `s` from position `d` on. */
  predicate Holds(t: string, d: nat, s: string) {
    d + |s| <= |t| && forall k :: 0 <= k < |s| ==> t[d + k] == s[k]
  }

  lemma {:induction false} WsMoves(s: string, i: nat, t: string, d: nat)
    requires Holds(t, d, s) && i <= |s| && SkipWs(s, i) < |s|
    ensures SkipWs(t, d + i) == d + SkipWs(s, i)
    decreases |s| - i
  {
    if IsWs(s[i]) {
      WsMoves(s, i + 1, t, d);
    }
  }

  lemma {:induction false} AtomMoves(s: string, i: nat, t: string, d: nat)
    requires Holds(t, d, s) && i <= |s| && AtomEnd(s, i) < |s|
    ensures AtomEnd(t, d + i) == d + AtomEnd(s, i)
    decreases |s| - i
  {
    if IsAtomChar(s[i]) {
      AtomMoves(s, i + 1, t, d);
    }
  }

  function Moved<T>(p: Parsed<T>, d: nat): Parsed<T> {
    match p
    case Bad => Bad
    case Ok(v, e) => Ok(v, d + e)
  }

  lemma EscapeMoves(s: string, i: nat, t: string, d: nat)
    requires Holds(t, d, s) && i <= |s| && ParseEscape(s, i).Ok?
    ensures ParseEscape(t, d + i) == Moved(ParseEscape(s, i), d)
  {
    UnitMoves(s, i, t, d);
    UnitMoves(s, i + 6, t, d);
    hide Unit;
  }

  lemma UnitMoves(s: string, i: nat, t: string, d: nat)
    requires Holds(t, d, s)
    ensures Unit(s, i).Some? ==> Unit(t, d + i) == Unit(s, i)
  {}

  lemma {:induction false} CharsMove(s: string, i: nat, t: string, d: nat)
    requires Holds(t, d, s) && i <= |s| && ParseChars(s, i).Ok?
    ensures ParseChars(t, d + i) == Moved(ParseChars(s, i), d)
    decreases |s| - i
  {
    hide ParseEscape;
    if s[i] == '"' {
    } else if s[i] == '\\' {
      EscapeMoves(s, i + 1, t, d);
      CharsMove(s, ParseEscape(s, i + 1).end, t, d);
    } else {
      CharsMove(s, i + 1, t, d);
    }
  }

  /** A value is read in the same way wherever its text stands. Only an atom must not
      touch the end, where it could go on. */
  lemma {:induction false} ValueMoves(s: string, i: nat, t: string, d: nat)
    requires Holds(t, d, s) && i <= |s| && ParseValue(s, i).Ok?
    requires ParseValue(s, i).end < |s| || !ParseValue(s, i).value.Atom?
    ensures ParseValue(t, d + i) == Moved(ParseValue(s, i), d)
    decreases |s| - i, 0
  {
    hide ParseItems, ParseMembers, ParseChars, IsAtom;
    if s[i] == '"' {
      CharsMove(s, i + 1, t, d);
    } else if s[i] == '[' || s[i] == '{' {
      var a := SkipWs(s, i + 1);
      WsMoves(s, i + 1, t, d);
      if s[i] == '[' && !At(s, a, ']') {
        ItemsMove(s, a, t, d);
      } else if s[i] == '{' && !At(s, a, '}') {
        MembersMove(s, a, t, d);
      }
    } else {
      AtomMoves(s, i, t, d);
      assert t[d + i..d + AtomEnd(s, i)] == s[i..AtomEnd(s, i)];
    }
  }

  lemma {:induction false} ItemsMove(s: string, i: nat, t: string, d: nat)
    requires Holds(t, d, s) && i <= |s| && ParseItems(s, i).Ok?
    ensures ParseItems(t, d + i) == Moved(ParseItems(s, i), d)
    decreases |s| - i, 1
  {
    hide ParseValue, ParseMembers, SkipWs;
    var e := ParseValue(s, i).end;
    var a := SkipWs(s, e);
    assert d + |s| <= |t|;
    ValueMoves(s, i, t, d);
    WsMoves(s, e, t, d);
    CharMoves(s, a, t, d);
    hide Holds;
    if At(s, a, ',') {
      WsMoves(s, a + 1, t, d);
      ItemsMove(s, SkipWs(s, a + 1), t, d);
    }
  }

  lemma {:induction false} MemberMoves(s: string, i: nat, t: string, d: nat)
    requires Holds(t, d, s) && i <= |s| && ParseMember(s, i).Ok? && ParseMember(s, i).end < |s|
    ensures ParseMember(t, d + i) == Moved(ParseMember(s, i), d)
    decreases |s| - i, 1
  {
    hide ParseValue, ParseChars;
    CharsMove(s, i + 1, t, d);
    var e := ParseChars(s, i + 1).end;
    WsMoves(s, e, t, d);
    var a := SkipWs(s, e);
    WsMoves(s, a + 1, t, d);
    ValueMoves(s, SkipWs(s, a + 1), t, d);
  }

  lemma CharMoves(s: string, i: nat, t: string, d: nat)
    requires Holds(t, d, s) && i < |s|
    ensures forall c :: At(t, d + i, c) <==> At(s, i, c)
  {}

  lemma {:induction false} MembersMove(s: string, i: nat, t: string, d: nat)
    requires Holds(t, d, s) && i <= |s| && ParseMembers(s, i).Ok?
    ensures ParseMembers(t, d + i) == Moved(ParseMembers(s, i), d)
    decreases |s| - i, 2
  {
    hide ParseValue, ParseMember, SkipWs;
    var e := ParseMember(s, i).end;
    var a := SkipWs(s, e);
    assert d + |s| <= |t|;
    MemberMoves(s, i, t, d);
    WsMoves(s, e, t, d);
    CharMoves(s, a, t, d);
    hide Holds;
    if At(s, a, ',') {
      WsMoves(s, a + 1, t, d);
      MembersMove(s, SkipWs(s, a + 1), t, d);
    }
  }

  lemma {:induction false} MembersClose(s: string, i: nat)
    requires i <= |s| && ParseMembers(s, i).Ok?
    ensures s[ParseMembers(s, i).end - 1] == '}'
    decreases |s| - i
  {
    hide ParseMember;
    var a := SkipWs(s, ParseMember(s, i).end);
    if At(s, a, ',') {
      MembersClose(s, SkipWs(s, a + 1));
    }
  }

  /** `core` is the text of the object `v`, however it is written. */
  predicate Reads(core: string, v: Json) {
    v.Obj? && ParseValue(core, 0) == Ok(v, |core|)
  }

  predicate Braced(core: string) {
    |core| >= 2 && core[0] == '{' && core[|core| - 1] == '}'
  }

  lemma ReadsAnywhere(p: string, core: string, s: string, v: Json)
    requires Reads(core, v)
    ensures ParseValue(p + core + s, |p|) == Ok(v, |p| + |core|)
    ensures Braced(core) && Loads(core) == Some(v)
  {
    hide ParseItems, ParseMembers, ParseChars, IsAtom;
    ValueMoves(core, 0, p + core + s, |p|);
    var a := SkipWs(core, 1);
    if !At(core, a, '}') {
      MembersClose(core, a);
    }
  }

  /** What the printer writes for an object is such a text. */
  lemma PrintReads(v: Json, o: Layout)
    requires v.Obj? && WellFormed(v) && o.Valid()
    ensures Reads(Print(v, o), v)
  {
    hide ParseValue, PrintMembers;
    var core := Print(v, o);
    HasSlice(core, 0, core);
    assert core[0..|core|] == core;
    ValueRoundTrip(core, 0, v, o);
  }
}
