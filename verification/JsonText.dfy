/** JSON values, `JSON.stringify` on them, and a reader for the text (RFC 8259 sections 3
    to 7, without insignificant white space). Strings are sequences of UTF-16 code units. */
module JsonText {
  import opened Options

  newtype Unit = x: int | 0 <= x < 0x10000
  type JsString = seq<Unit>

  /** A JavaScript value as `stableJson` sees it. A number is the token that
      `JSON.stringify` prints for it, and NaN and the infinities, which print as `null`, are
      `Null`. `Undefined` stands for the values `JSON.stringify` has no text for: undefined,
      functions and symbols. Object members come in enumeration order. */
  datatype Json =
    | Undefined
    | Null
    | Bool(b: bool)
    | Number(token: JsString)
    | String(s: JsString)
    | Array(items: seq<Json>)
    | Object(members: seq<(JsString, Json)>)

  const QUOTE: Unit := 0x22
  const BACKSLASH: Unit := 0x5C
  const COMMA: Unit := 0x2C
  const COLON: Unit := 0x3A
  const LBRACKET: Unit := 0x5B
  const RBRACKET: Unit := 0x5D
  const LBRACE: Unit := 0x7B
  const RBRACE: Unit := 0x7D
  const NULL_TEXT: JsString := [0x6E, 0x75, 0x6C, 0x6C]
  const TRUE_TEXT: JsString := [0x74, 0x72, 0x75, 0x65]
  const FALSE_TEXT: JsString := [0x66, 0x61, 0x6C, 0x73, 0x65]

  // ----- strings

  predicate Lead(u: Unit) { 0xD800 <= u <= 0xDBFF }
  predicate Trail(u: Unit) { 0xDC00 <= u <= 0xDFFF }

  function HexDigit(n: int): Unit
    requires 0 <= n < 16
  {
    if n < 10 then (0x30 + n) as Unit else (0x57 + n) as Unit
  }

  function Hex4(u: Unit): (r: JsString)
    ensures |r| == 4
  {
    var hi, lo := u as int / 256, u as int % 256;
    [HexDigit(hi / 16), HexDigit(hi % 16), HexDigit(lo / 16), HexDigit(lo % 16)]
  }

  /** The escape of one code unit standing alone. */
  function EscapeUnit(u: Unit): JsString {
    if u == QUOTE then [BACKSLASH, QUOTE]
    else if u == BACKSLASH then [BACKSLASH, BACKSLASH]
    else if u == 8 then [BACKSLASH, 0x62]
    else if u == 9 then [BACKSLASH, 0x74]
    else if u == 10 then [BACKSLASH, 0x6E]
    else if u == 12 then [BACKSLASH, 0x66]
    else if u == 13 then [BACKSLASH, 0x72]
    else if u < 0x20 || Lead(u) || Trail(u) then [BACKSLASH, 0x75] + Hex4(u)
    else [u]
  }

  /** Surrogate pairs are kept, lone surrogates escaped. */
  function Escape(s: JsString): JsString {
    if s == [] then []
    else if |s| >= 2 && Lead(s[0]) && Trail(s[1]) then [s[0], s[1]] + Escape(s[2..])
    else EscapeUnit(s[0]) + Escape(s[1..])
  }

  /** The escapes `JSON.stringify` writes: five short ones, the quote and the backslash, four
      lower-case hexadecimal digits for other control characters and for surrogates standing
      alone, and nothing for the rest, pairs of surrogates included. */
  lemma EscapesAre(u: Unit, v: Unit)
    ensures Escape([0x22]) == [0x5C, 0x22] && Escape([0x5C]) == [0x5C, 0x5C]
    ensures Escape([8]) == [0x5C, 0x62] && Escape([9]) == [0x5C, 0x74] && Escape([10]) == [0x5C, 0x6E]
    ensures Escape([12]) == [0x5C, 0x66] && Escape([13]) == [0x5C, 0x72]
    ensures u < 0x20 && u !in {8, 9, 10, 12, 13} ==>
      Escape([u]) == [0x5C, 0x75, 0x30, 0x30, if u < 0x10 then 0x30 else 0x31, HexDigit(u as int % 16)]
    ensures u >= 0x20 && u !in {0x22, 0x5C} && !(0xD800 <= u <= 0xDFFF) ==> Escape([u]) == [u]
    ensures 0xD800 <= u <= 0xDFFF ==> |Escape([u])| == 6 && Escape([u])[..2] == [0x5C, 0x75]
    ensures 0xD800 <= u <= 0xDBFF && 0xDC00 <= v <= 0xDFFF ==> Escape([u, v]) == [u, v]
  {
    EscapeOne(0x22);
    EscapeOne(0x5C);
    EscapeOne(8);
    EscapeOne(9);
    EscapeOne(10);
    EscapeOne(12);
    EscapeOne(13);
    EscapeOne(u);
    EscapePair(u, v);
    hide Escape, HexDigit;
    ControlEscape(u);
  }

  lemma EscapeOne(u: Unit)
    ensures Escape([u]) == EscapeUnit(u)
  {
    assert [u][1..] == [] && EscapeUnit(u) + [] == EscapeUnit(u);
  }

  lemma EscapePair(u: Unit, v: Unit)
    ensures Lead(u) && Trail(v) ==> Escape([u, v]) == [u, v]
  {
    assert [u, v][2..] == [] && [u, v] + [] == [u, v];
  }

  lemma ControlEscape(u: Unit)
    ensures u < 0x20 ==> Hex4(u) == [0x30, 0x30, if u < 0x10 then 0x30 else 0x31, HexDigit(u as int % 16)]
  {
  }

  /** `0` to `9` and `a` to `f`. */
  lemma DigitsAre(n: int)
    requires 0 <= n < 16
    ensures HexDigit(n) == [0x30, 0x31, 0x32, 0x33, 0x34, 0x35, 0x36, 0x37, 0x38, 0x39,
                            0x61, 0x62, 0x63, 0x64, 0x65, 0x66][n]
  {
  }

  function Quote(s: JsString): JsString {
    [QUOTE] + Escape(s) + [QUOTE]
  }

  function HexValue(u: Unit): Option<int> {
    if 0x30 <= u <= 0x39 then Some(u as int - 0x30)
    else if 0x61 <= u <= 0x66 then Some(u as int - 0x57)
    else if 0x41 <= u <= 0x46 then Some(u as int - 0x37)
    else None
  }

  function ReadHex4(s: JsString): (r: Option<Unit>) {
    if |s| < 4 then None
    else match (HexValue(s[0]), HexValue(s[1]), HexValue(s[2]), HexValue(s[3]))
      case (Some(a), Some(b), Some(c), Some(d)) =>
        var n := ((a * 16 + b) * 16 + c) * 16 + d;
        if 0 <= n < 0x10000 then Some(n as Unit) else None
      case _ => None
  }

  /** What follows a backslash (section 7): the unit it denotes and the length read. */
  function ReadEscape(s: JsString): (r: Option<(Unit, nat)>)
    ensures r.Some? ==> 1 <= r.value.1 <= |s|
  {
    if s == [] then None
    else if s[0] == QUOTE || s[0] == BACKSLASH || s[0] == 0x2F then Some((s[0], 1))
    else if s[0] == 0x62 then Some((8, 1))
    else if s[0] == 0x66 then Some((12, 1))
    else if s[0] == 0x6E then Some((10, 1))
    else if s[0] == 0x72 then Some((13, 1))
    else if s[0] == 0x74 then Some((9, 1))
    else if s[0] == 0x75 then
      match ReadHex4(s[1..])
      case Some(u) => Some((u, 5))
      case None => None
    else None
  }

  /** The rest of a string, after its opening quote. */
  function ReadChars(s: JsString): (r: Option<(JsString, JsString)>)
    ensures r.Some? ==> |r.value.1| < |s|
    decreases |s|
  {
    if s == [] then None
    else if s[0] == QUOTE then Some(([], s[1..]))
    else if s[0] == BACKSLASH then
      match ReadEscape(s[1..])
      case None => None
      case Some((u, n)) => Prepend(u, ReadChars(s[1 + n..]))
    else if s[0] < 0x20 then None
    else Prepend(s[0], ReadChars(s[1..]))
  }

  function Prepend(u: Unit, r: Option<(JsString, JsString)>): (q: Option<(JsString, JsString)>)
    ensures q.Some? ==> r.Some? && q.value.1 == r.value.1
  {
    match r
    case None => None
    case Some((text, rest)) => Some(([u] + text, rest))
  }

  lemma HexDigitRead(n: int)
    requires 0 <= n < 16
    ensures HexValue(HexDigit(n)) == Some(n)
  {
  }

  lemma HexRead(u: Unit)
    ensures ReadHex4(Hex4(u)) == Some(u)
  {
    var hi, lo := u as int / 256, u as int % 256;
    HexDigitRead(hi / 16);
    HexDigitRead(hi % 16);
    HexDigitRead(lo / 16);
    HexDigitRead(lo % 16);
    hide HexDigit, HexValue;
    assert hi / 16 * 16 + hi % 16 == hi && lo / 16 * 16 + lo % 16 == lo;
    assert ((hi / 16 * 16 + hi % 16) * 16 + lo / 16) * 16 + lo % 16 == u as int;
  }

  /** Reading one escaped unit gives the unit back. */
  lemma UnitRead(u: Unit, rest: JsString)
    ensures ReadChars(EscapeUnit(u) + rest) == Prepend(u, ReadChars(rest))
  {
    var text := EscapeUnit(u);
    var whole := text + rest;
    assert whole[|text|..] == rest;
    if |text| == 2 {
      hide Hex4, ReadHex4;
      assert whole[1..][0] == text[1] && whole[2..] == rest;
    } else if |text| == 6 {
      assert text == [BACKSLASH, 0x75] + Hex4(u);
      HexUnitRead(u, rest);
    }
  }

  lemma HexUnitRead(u: Unit, rest: JsString)
    ensures ReadChars([BACKSLASH, 0x75] + Hex4(u) + rest) == Prepend(u, ReadChars(rest))
  {
    HexRead(u);
    hide HexDigit, HexValue;
    var whole := [BACKSLASH, 0x75] + Hex4(u) + rest;
    assert whole[6..] == rest;
    assert whole[1..][1..][..4] == Hex4(u);
    assert ReadHex4(whole[1..][1..]) == ReadHex4(Hex4(u));
  }

  lemma PlainRead(u: Unit, rest: JsString)
    requires u >= 0x20 && u != QUOTE && u != BACKSLASH
    ensures ReadChars([u] + rest) == Prepend(u, ReadChars(rest))
  {
    assert ([u] + rest)[1..] == rest;
  }

  lemma EndRead(rest: JsString)
    ensures ReadChars([QUOTE] + rest) == Some(([], rest))
  {
    assert ([QUOTE] + rest)[1..] == rest;
  }

  lemma Assoc<T>(a: seq<T>, b: seq<T>, c: seq<T>)
    ensures (a + b) + c == a + (b + c)
  {
  }

  lemma EscapeUnfold(s: JsString)
    requires s != []
    ensures Escape(s) ==
      if |s| >= 2 && Lead(s[0]) && Trail(s[1]) then [s[0], s[1]] + Escape(s[2..]) else EscapeUnit(s[0]) + Escape(s[1..])
  {
    hide EscapeUnit;
  }

  lemma TwoFirst<T>(a: T, b: T, c: seq<T>, d: seq<T>)
    ensures [a, b] + c + d == [a] + ([b] + (c + d))
  {
  }

  lemma EscapeStep(s: JsString, end: JsString)
    requires s != []
    ensures Escape(s) + end ==
      if |s| >= 2 && Lead(s[0]) && Trail(s[1]) then [s[0]] + ([s[1]] + (Escape(s[2..]) + end))
      else EscapeUnit(s[0]) + (Escape(s[1..]) + end)
  {
    EscapeUnfold(s);
    hide *;
    if |s| >= 2 {
      TwoFirst(s[0], s[1], Escape(s[2..]), end);
    }
    Assoc(EscapeUnit(s[0]), Escape(s[1..]), end);
  }

  lemma Rejoined<T>(s: seq<T>)
    ensures s != [] ==> [s[0]] + s[1..] == s
    ensures |s| >= 2 ==> [s[0]] + ([s[1]] + s[2..]) == s
  {
  }

  /** Reading a printed string gives the string back, and what follows it. */
  lemma {:induction false} CharsRead(s: JsString, rest: JsString)
    ensures ReadChars(Escape(s) + ([QUOTE] + rest)) == Some((s, rest))
    decreases |s|
  {
    hide ReadChars, EscapeUnit;
    var end := [QUOTE] + rest;
    if s == [] {
      EndRead(rest);
      assert [] + end == end;
    } else {
      EscapeStep(s, end);
      hide Escape;
      if |s| >= 2 && Lead(s[0]) && Trail(s[1]) {
        CharsRead(s[2..], rest);
        PlainRead(s[1], Escape(s[2..]) + end);
        PlainRead(s[0], [s[1]] + (Escape(s[2..]) + end));
        Rejoined(s);
      } else {
        CharsRead(s[1..], rest);
        UnitRead(s[0], Escape(s[1..]) + end);
        Rejoined(s);
      }
    }
  }

  // ----- numbers

  predicate Digit(u: Unit) { 0x30 <= u <= 0x39 }

  /** `+ - . E e` and the digits. */
  predicate NumberUnit(u: Unit) {
    Digit(u) || u == 0x2B || u == 0x2D || u == 0x2E || u == 0x45 || u == 0x65
  }

  predicate AllDigits(s: JsString) {
    s != [] && forall i | 0 <= i < |s| :: Digit(s[i])
  }

  /** Leading digits of `s`. */
  function DigitRun(s: JsString): (n: nat)
    ensures n <= |s|
  {
    if s != [] && Digit(s[0]) then 1 + DigitRun(s[1..]) else 0
  }

  predicate Exponent(s: JsString) {
    s == [] ||
    ((s[0] == 0x45 || s[0] == 0x65) &&
     (AllDigits(s[1..]) || (|s| > 1 && (s[1] == 0x2B || s[1] == 0x2D) && AllDigits(s[2..]))))
  }

  predicate Fraction(s: JsString) {
    if s != [] && s[0] == 0x2E then
      var n := DigitRun(s[1..]);
      n > 0 && Exponent(s[1..][n..])
    else Exponent(s)
  }

  /** Section 6: `[ - ] int [ frac ] [ exp ]`, with no leading zeros. */
  predicate IsNumber(s: JsString) {
    var t := if s != [] && s[0] == 0x2D then s[1..] else s;
    var n := DigitRun(t);
    && (forall i | 0 <= i < |s| :: NumberUnit(s[i]))
    && n > 0 && (t[0] == 0x30 ==> n == 1) && Fraction(t[n..])
  }

  /** The longest run of number units at the head of `s`. */
  function NumberRun(s: JsString): (n: nat)
    ensures n <= |s|
  {
    if s != [] && NumberUnit(s[0]) then 1 + NumberRun(s[1..]) else 0
  }

  lemma {:induction false} NumberRead(token: JsString, rest: JsString)
    requires forall i | 0 <= i < |token| :: NumberUnit(token[i])
    requires rest == [] || !NumberUnit(rest[0])
    ensures NumberRun(token + rest) == |token|
  {
    if token == [] {
      assert token + rest == rest;
    } else {
      NumberRead(token[1..], rest);
      assert (token + rest)[1..] == token[1..] + rest;
    }
  }

  // ----- printing

  function ArrayText(texts: seq<JsString>): JsString {
    [LBRACKET] + (if texts == [] then [RBRACKET] else ItemsText(texts))
  }

  function ItemsText(texts: seq<JsString>): JsString
    requires texts != []
  {
    texts[0] + (if |texts| == 1 then [RBRACKET] else [COMMA] + ItemsText(texts[1..]))
  }

  function ObjectText(members: seq<(JsString, JsString)>): JsString {
    [LBRACE] + (if members == [] then [RBRACE] else MembersText(members))
  }

  function MembersText(members: seq<(JsString, JsString)>): JsString
    requires members != []
  {
    Quote(members[0].0) + ([COLON] + (members[0].1
      + (if |members| == 1 then [RBRACE] else [COMMA] + MembersText(members[1..]))))
  }

  /** `JSON.stringify(v) ?? 'null'` for a value that is neither an array nor an object. */
  function ScalarText(v: Json): JsString {
    match v
    case Bool(b) => if b then TRUE_TEXT else FALSE_TEXT
    case Number(token) => token
    case String(s) => Quote(s)
    case _ => NULL_TEXT
  }

  /** The text of a value, members in the order they stand. */
  function Print(v: Json): JsString
    decreases v, 1
  {
    match v
    case Array(items) => ArrayText(PrintItems(items))
    case Object(members) => ObjectText(PrintMembers(members))
    case _ => ScalarText(v)
  }

  function PrintItems(items: seq<Json>): (texts: seq<JsString>)
    ensures |texts| == |items|
    decreases items, 0
  {
    if items == [] then [] else [Print(items[0])] + PrintItems(items[1..])
  }

  function PrintMembers(members: seq<(JsString, Json)>): (texts: seq<(JsString, JsString)>)
    ensures |texts| == |members|
    decreases members, 0
  {
    if members == [] then [] else [PrintMember(members[0])] + PrintMembers(members[1..])
  }

  function PrintMember(member: (JsString, Json)): (JsString, JsString)
    decreases member, 0
  {
    (member.0, Print(member.1))
  }

  // ----- reading

  function ReadValue(s: JsString): (r: Option<(Json, JsString)>)
    ensures r.Some? ==> |r.value.1| < |s|
    decreases |s|, 2
  {
    if s == [] then None
    else if s[0] == QUOTE then
      match ReadChars(s[1..])
      case None => None
      case Some((text, rest)) => Some((String(text), rest))
    else if s[0] == LBRACKET then
      if |s| > 1 && s[1] == RBRACKET then Some((Array([]), s[2..]))
      else
        match ReadItems(s[1..])
        case None => None
        case Some((items, rest)) => Some((Array(items), rest))
    else if s[0] == LBRACE then
      if |s| > 1 && s[1] == RBRACE then Some((Object([]), s[2..]))
      else
        match ReadMembers(s[1..])
        case None => None
        case Some((members, rest)) => Some((Object(members), rest))
    else ReadWord(s)
  }

  /** `null`, `true`, `false` or a number. */
  function ReadWord(s: JsString): (r: Option<(Json, JsString)>)
    ensures r.Some? ==> |r.value.1| < |s|
  {
    if NULL_TEXT <= s then Some((Null, s[4..]))
    else if TRUE_TEXT <= s then Some((Bool(true), s[4..]))
    else if FALSE_TEXT <= s then Some((Bool(false), s[5..]))
    else
      var n := NumberRun(s);
      if IsNumber(s[..n]) then Some((Number(s[..n]), s[n..])) else None
  }

  function ReadItems(s: JsString): (r: Option<(seq<Json>, JsString)>)
    ensures r.Some? ==> |r.value.1| < |s|
    decreases |s|, 4
  {
    match ReadValue(s)
    case None => None
    case Some((v, rest)) =>
      if rest != [] && rest[0] == RBRACKET then Some(([v], rest[1..]))
      else if rest != [] && rest[0] == COMMA then
        match ReadItems(rest[1..])
        case None => None
        case Some((items, rest')) => Some(([v] + items, rest'))
      else None
  }

  function ReadMembers(s: JsString): (r: Option<(seq<(JsString, Json)>, JsString)>)
    ensures r.Some? ==> |r.value.1| < |s|
    decreases |s|, 4
  {
    match ReadMember(s)
    case None => None
    case Some((member, rest)) =>
      if rest != [] && rest[0] == RBRACE then Some(([member], rest[1..]))
      else if rest != [] && rest[0] == COMMA then
        match ReadMembers(rest[1..])
        case None => None
        case Some((members, rest')) => Some(([member] + members, rest'))
      else None
  }

  function ReadMember(s: JsString): (r: Option<((JsString, Json), JsString)>)
    ensures r.Some? ==> |r.value.1| < |s|
    decreases |s|, 3
  {
    if s == [] || s[0] != QUOTE then None
    else match ReadChars(s[1..])
      case None => None
      case Some((key, rest)) =>
        if rest == [] || rest[0] != COLON then None
        else match ReadValue(rest[1..])
          case None => None
          case Some((v, after)) => Some(((key, v), after))
  }

  // ----- reading back what was printed

  /** Values with a JSON text of their own: valid number tokens, nothing undefined. */
  predicate Printable(v: Json)
    decreases v
  {
    match v
    case Undefined => false
    case Number(token) => IsNumber(token)
    case Array(items) => forall i | 0 <= i < |items| :: Printable(items[i])
    case Object(members) => forall i | 0 <= i < |members| :: Printable(members[i].1)
    case _ => true
  }

  predicate Delimited(rest: JsString) {
    rest == [] || !NumberUnit(rest[0])
  }

  lemma WordRead(v: Json, rest: JsString)
    requires v.Null? || v.Bool?
    ensures ReadValue(ScalarText(v) + rest) == Some((v, rest))
  {
    hide NumberRun, IsNumber;
    var text := ScalarText(v);
    var whole := text + rest;
    assert text <= whole && whole[0] == text[0] && whole[|text|..] == rest;
  }

  lemma StringRead(s: JsString, rest: JsString)
    ensures ReadValue(Quote(s) + rest) == Some((String(s), rest))
  {
    hide ReadChars, ReadWord, Escape, ReadItems, ReadMembers;
    var whole := Quote(s) + rest;
    CharsRead(s, rest);
    assert whole[0] == QUOTE && whole[1..] == Escape(s) + ([QUOTE] + rest);
  }

  lemma NumberValueRead(token: JsString, rest: JsString)
    requires IsNumber(token) && Delimited(rest)
    ensures ReadValue(token + rest) == Some((Number(token), rest))
  {
    var whole := token + rest;
    NumberHead(token);
    NumberRead(token, rest);
    hide NumberRun, IsNumber;
    assert whole[0] == token[0] && whole[..|token|] == token && whole[|token|..] == rest;
  }

  lemma NumberHead(token: JsString)
    requires IsNumber(token)
    ensures token != [] && NumberUnit(token[0])
    ensures forall i | 0 <= i < |token| :: NumberUnit(token[i])
  {
  }

  lemma ArrayRead(t: JsString, items: seq<Json>, rest: JsString)
    requires ReadItems(t) == Some((items, rest))
    ensures ReadValue([LBRACKET] + t) == Some((Array(items), rest))
  {
    hide ReadMembers, ReadChars, ReadItems, ReadWord;
    var s := [LBRACKET] + t;
    assert s[1..] == t && s[0] == LBRACKET;
    if t != [] && t[0] == RBRACKET {
      NoItems(t);
    }
  }

  lemma NoItems(t: JsString)
    requires t != [] && t[0] == RBRACKET
    ensures ReadItems(t) == None
  {
    hide IsNumber, ReadMembers, ReadChars;
    NoNumber(t);
  }

  lemma ObjectRead(t: JsString, members: seq<(JsString, Json)>, rest: JsString)
    requires ReadMembers(t) == Some((members, rest))
    ensures ReadValue([LBRACE] + t) == Some((Object(members), rest))
  {
    hide ReadItems, ReadChars, ReadWord;
    var s := [LBRACE] + t;
    assert s[1..] == t && s[0] == LBRACE;
  }

  lemma NoNumber(s: JsString)
    requires s != [] && !NumberUnit(s[0])
    ensures !IsNumber(s[..NumberRun(s)])
  {
  }

  lemma ItemsEnd(s: JsString, v: Json, rest: JsString)
    requires ReadValue(s) == Some((v, [RBRACKET] + rest))
    ensures ReadItems(s) == Some(([v], rest))
  {
    hide ReadValue;
    assert ([RBRACKET] + rest)[1..] == rest;
  }

  lemma ItemsMore(s: JsString, v: Json, t: JsString, items: seq<Json>, rest: JsString)
    requires ReadValue(s) == Some((v, [COMMA] + t)) && ReadItems(t) == Some((items, rest))
    ensures ReadItems(s) == Some(([v] + items, rest))
  {
    hide ReadValue;
    assert ([COMMA] + t)[1..] == t;
  }

  lemma MembersEnd(s: JsString, member: (JsString, Json), rest: JsString)
    requires ReadMember(s) == Some((member, [RBRACE] + rest))
    ensures ReadMembers(s) == Some(([member], rest))
  {
    hide ReadMember;
    assert ([RBRACE] + rest)[1..] == rest;
  }

  lemma MembersMore(s: JsString, member: (JsString, Json), t: JsString,
                    members: seq<(JsString, Json)>, rest: JsString)
    requires ReadMember(s) == Some((member, [COMMA] + t)) && ReadMembers(t) == Some((members, rest))
    ensures ReadMembers(s) == Some(([member] + members, rest))
  {
    hide ReadMember;
    assert ([COMMA] + t)[1..] == t;
  }

  lemma MemberRead(key: JsString, v: Json, t: JsString, rest: JsString)
    requires ReadValue(t) == Some((v, rest))
    ensures ReadMember(Quote(key) + ([COLON] + t)) == Some(((key, v), rest))
  {
    hide ReadValue, ReadChars, Escape;
    var after := [COLON] + t;
    var whole := Quote(key) + after;
    CharsRead(key, after);
    assert whole[0] == QUOTE && whole[1..] == Escape(key) + ([QUOTE] + after);
    assert after[1..] == t;
  }

  /** The reader undoes the printer, and stops where the text ends. */
  lemma {:induction false} ReadBack(v: Json, rest: JsString)
    requires Printable(v) && Delimited(rest)
    ensures ReadValue(Print(v) + rest) == Some((v, rest))
    decreases v, 1
  {
    hide ReadValue, IsNumber, Quote, Escape;
    match v
    case Array(items) =>
      if items == [] {
        EmptyRead(rest);
      } else {
        ItemsBack(items, rest);
        var t := ItemsText(PrintItems(items)) + rest;
        ArrayRead(t, items, rest);
        assert Print(v) + rest == [LBRACKET] + t;
      }
    case Object(members) =>
      if members == [] {
        EmptyRead(rest);
      } else {
        MembersBack(members, rest);
        var t := MembersText(PrintMembers(members)) + rest;
        ObjectRead(t, members, rest);
        assert Print(v) + rest == [LBRACE] + t;
      }
    case String(s) => StringRead(s, rest);
    case Number(token) => NumberValueRead(token, rest);
    case _ => WordRead(v, rest);
  }

  lemma EmptyRead(rest: JsString)
    ensures ReadValue([LBRACKET] + [RBRACKET] + rest) == Some((Array([]), rest))
    ensures ReadValue([LBRACE] + [RBRACE] + rest) == Some((Object([]), rest))
  {
    hide ReadItems, ReadMembers, ReadWord, ReadChars;
    assert ([LBRACKET] + [RBRACKET] + rest)[2..] == rest;
    assert ([LBRACE] + [RBRACE] + rest)[2..] == rest;
  }

  lemma ItemsTextStep(items: seq<Json>, rest: JsString)
    requires items != []
    ensures ItemsText(PrintItems(items)) + rest == Print(items[0]) +
      if |items| == 1 then [RBRACKET] + rest
      else [COMMA] + (ItemsText(PrintItems(items[1..])) + rest)
  {
    hide Print;
    var texts, head := PrintItems(items), Print(items[0]);
    var more := PrintItems(items[1..]);
    assert texts == [head] + more && texts[1..] == more;
    if |items| == 1 {
      assert ItemsText(texts) == head + [RBRACKET];
      hide *;
      Assoc(head, [RBRACKET], rest);
    } else {
      var t := ItemsText(more);
      assert ItemsText(texts) == head + ([COMMA] + t);
      hide *;
      Assoc(head, [COMMA] + t, rest);
      Assoc([COMMA], t, rest);
    }
  }

  lemma {:induction false} ItemsBack(items: seq<Json>, rest: JsString)
    requires items != [] && forall i | 0 <= i < |items| :: Printable(items[i])
    ensures ReadItems(ItemsText(PrintItems(items)) + rest) == Some((items, rest))
    decreases items, 0
  {
    hide ItemsText, PrintItems, Print, ReadItems, ReadValue, IsNumber;
    var s := ItemsText(PrintItems(items)) + rest;
    ItemsTextStep(items, rest);
    if |items| == 1 {
      ReadBack(items[0], [RBRACKET] + rest);
      hide *;
      ItemsEnd(s, items[0], rest);
      assert items == [items[0]];
    } else {
      var t := ItemsText(PrintItems(items[1..])) + rest;
      ItemsBack(items[1..], rest);
      ReadBack(items[0], [COMMA] + t);
      hide *;
      ItemsMore(s, items[0], t, items[1..], rest);
      assert items == [items[0]] + items[1..];
    }
  }

  lemma MembersTextStep(members: seq<(JsString, Json)>, rest: JsString)
    requires members != []
    ensures MembersText(PrintMembers(members)) + rest ==
      Quote(members[0].0) + ([COLON] + (Print(members[0].1) +
        if |members| == 1 then [RBRACE] + rest
        else [COMMA] + (MembersText(PrintMembers(members[1..])) + rest)))
  {
    hide Print, Quote;
    var texts, more := PrintMembers(members), PrintMembers(members[1..]);
    var key, text := Quote(members[0].0), Print(members[0].1);
    assert texts == [PrintMember(members[0])] + more && texts[1..] == more;
    var end := if |members| == 1 then [RBRACE] else [COMMA] + MembersText(more);
    assert MembersText(texts) == key + ([COLON] + (text + end));
    hide *;
    Assoc(key, [COLON] + (text + end), rest);
    Assoc([COLON], text + end, rest);
    Assoc(text, end, rest);
    if |members| > 1 {
      Assoc([COMMA], MembersText(more), rest);
    }
  }

  lemma {:induction false} MembersBack(members: seq<(JsString, Json)>, rest: JsString)
    requires members != [] && forall i | 0 <= i < |members| :: Printable(members[i].1)
    ensures ReadMembers(MembersText(PrintMembers(members)) + rest) == Some((members, rest))
    decreases members, 0
  {
    hide MembersText, PrintMembers, Print, ReadMembers, ReadMember, IsNumber;
    var s := MembersText(PrintMembers(members)) + rest;
    MembersTextStep(members, rest);
    if |members| == 1 {
      MemberBack(members[0], [RBRACE] + rest);
      hide *;
      MembersEnd(s, members[0], rest);
      assert members == [members[0]];
    } else {
      var t := MembersText(PrintMembers(members[1..])) + rest;
      MembersBack(members[1..], rest);
      MemberBack(members[0], [COMMA] + t);
      hide *;
      MembersMore(s, members[0], t, members[1..], rest);
      assert members == [members[0]] + members[1..];
    }
  }

  lemma {:induction false} MemberBack(member: (JsString, Json), rest: JsString)
    requires Printable(member.1) && Delimited(rest)
    ensures ReadMember(Quote(member.0) + ([COLON] + (Print(member.1) + rest))) == Some((member, rest))
    decreases member, 0
  {
    ReadBack(member.1, rest);
    MemberRead(member.0, member.1, Print(member.1) + rest, rest);
  }
}
