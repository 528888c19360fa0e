/** packages/thinking-blocks/src/hash.ts: the printer behind every artifact cache key.
    JavaScript strings are sequences of UTF-16 code units, so lone surrogates are covered. */
module StableStringify {
  import opened Common
  import opened Order

  type CodeUnit = u: nat | u < 0x1_0000

  type Text = seq<CodeUnit>

  /** A JSON value as a JavaScript program holds it: an object's own keys have an order, and
      a number is the text `Number.prototype.toString` gives it. */
  datatype Js =
    | JsNull
    | JsBool(b: bool)
    | JsNumber(text: Text)
    | JsString(s: Text)
    | JsArray(items: seq<Js>)
    | JsObject(entries: seq<(Text, Js)>)

  /** The value with key order forgotten. */
  datatype Json =
    | Null
    | Bool(b: bool)
    | Number(text: Text)
    | String(s: Text)
    | Array(items: seq<Json>)
    | Object(members: map<Text, Json>)

  const QUOTE: CodeUnit := 34
  const PLUS: CodeUnit := 43
  const COMMA: CodeUnit := 44
  const MINUS: CodeUnit := 45
  const DOT: CodeUnit := 46
  const ZERO: CodeUnit := 48
  const COLON: CodeUnit := 58
  const UPPER_E: CodeUnit := 69
  const OPEN_BRACKET: CodeUnit := 91
  const BACKSLASH: CodeUnit := 92
  const CLOSE_BRACKET: CodeUnit := 93
  const LOWER_E: CodeUnit := 101
  const LOWER_U: CodeUnit := 117
  const OPEN_BRACE: CodeUnit := 123
  const CLOSE_BRACE: CodeUnit := 125
  const NULL_TEXT: Text := [110, 117, 108, 108]
  const TRUE_TEXT: Text := [116, 114, 117, 101]
  const FALSE_TEXT: Text := [102, 97, 108, 115, 101]

  // ---------------------------------------------------------------- numbers

  predicate IsDigit(u: CodeUnit) {
    48 <= u <= 57
  }

  predicate IsNumberUnit(u: CodeUnit) {
    IsDigit(u) || u == PLUS || u == MINUS || u == DOT || u == LOWER_E || u == UPPER_E
  }

  predicate AllDigits(s: Text) {
    s != [] && forall i :: 0 <= i < |s| ==> IsDigit(s[i])
  }

  /** The grammar of section 6 of RFC 8259: minus? int frac? exp?, given where the parts end. */
  ghost predicate SplitsAsNumber(s: Text, intEnd: nat, fracEnd: nat)
    requires intEnd <= fracEnd <= |s|
  {
    var intStart := if s != [] && s[0] == MINUS then 1 else 0;
    && intStart < intEnd
    && AllDigits(s[intStart..intEnd]) && (s[intStart] == ZERO ==> intEnd == intStart + 1)
    && (intEnd < fracEnd ==> s[intEnd] == DOT && AllDigits(s[intEnd + 1..fracEnd]))
    && (fracEnd < |s| ==> IsExponent(s[fracEnd..]))
  }

  ghost predicate IsExponent(s: Text) {
    && s != [] && (s[0] == LOWER_E || s[0] == UPPER_E)
    && (AllDigits(s[1..]) || (|s| > 1 && (s[1] == PLUS || s[1] == MINUS) && AllDigits(s[2..])))
  }

  ghost predicate IsNumberText(s: Text) {
    exists intEnd: nat, fracEnd: nat :: intEnd <= fracEnd <= |s| && SplitsAsNumber(s, intEnd, fracEnd)
  }

  lemma NumberTextUnits(s: Text)
    requires IsNumberText(s)
    ensures s != [] && (s[0] == MINUS || IsDigit(s[0]))
    ensures forall i :: 0 <= i < |s| ==> IsNumberUnit(s[i])
  {
    var intEnd: nat, fracEnd: nat :| intEnd <= fracEnd <= |s| && SplitsAsNumber(s, intEnd, fracEnd);
    var intStart := if s[0] == MINUS then 1 else 0;
    assert s[0] == s[intStart..intEnd][0] || s[0] == MINUS;
    forall i | 0 <= i < |s| ensures IsNumberUnit(s[i]) {
      if intStart <= i < intEnd {
        assert s[i] == s[intStart..intEnd][i - intStart];
      } else if intEnd < i < fracEnd {
        assert s[i] == s[intEnd + 1..fracEnd][i - intEnd - 1];
      } else if fracEnd <= i {
        var e := s[fracEnd..];
        assert s[i] == e[i - fracEnd];
        if i - fracEnd >= 1 { assert e[i - fracEnd] == e[1..][i - fracEnd - 1]; }
        if i - fracEnd >= 2 { assert e[i - fracEnd] == e[2..][i - fracEnd - 2]; }
      }
    }
  }

  // ---------------------------------------------------------------- strings

  predicate IsHigh(u: CodeUnit) {
    0xD800 <= u <= 0xDBFF
  }

  predicate IsLow(u: CodeUnit) {
    0xDC00 <= u <= 0xDFFF
  }

  function HexDigit(n: nat): CodeUnit
    requires n < 16
  {
    if n < 10 then 48 + n else 87 + n
  }

  function HexValue(u: CodeUnit): (n: Option<nat>)
    ensures n.Some? ==> n.value < 16
  {
    if 48 <= u <= 57 then Some(u - 48) else if 97 <= u <= 102 then Some(u - 87) else None
  }

  /** The two-character escapes, both ways. */
  function ShortEscape(u: CodeUnit): Option<CodeUnit> {
    if u == QUOTE || u == BACKSLASH then Some(u)
    else if u == 8 then Some(98)
    else if u == 9 then Some(116)
    else if u == 10 then Some(110)
    else if u == 12 then Some(102)
    else if u == 13 then Some(114)
    else None
  }

  function ShortUnescape(u: CodeUnit): Option<CodeUnit> {
    if u == QUOTE || u == BACKSLASH then Some(u)
    else if u == 98 then Some(8)
    else if u == 116 then Some(9)
    else if u == 110 then Some(10)
    else if u == 102 then Some(12)
    else if u == 114 then Some(13)
    else None
  }

  function EscapeUnit(u: CodeUnit): Text {
    if ShortEscape(u).Some? then [BACKSLASH, ShortEscape(u).value]
    else if u < 0x20 || IsHigh(u) || IsLow(u) then
      [BACKSLASH, LOWER_U, HexDigit(u / 0x1000), HexDigit(u / 0x100 % 16), HexDigit(u / 0x10 % 16), HexDigit(u % 16)]
    else [u]
  }

  /** `JSON.stringify` of a string without its quotes: surrogate pairs stay, lone surrogates are escaped. */
  function Escape(s: Text): Text {
    if s == [] then []
    else if |s| >= 2 && IsHigh(s[0]) && IsLow(s[1]) then [s[0], s[1]] + Escape(s[2..])
    else EscapeUnit(s[0]) + Escape(s[1..])
  }

  function Quote(s: Text): Text {
    [QUOTE] + Escape(s) + [QUOTE]
  }

  // ---------------------------------------------------------------- key order
  // `Array.prototype.sort` on strings compares code units.

  function InsertKey(key: Text, keys: seq<Text>): seq<Text> {
    if keys == [] || Less(key, keys[0]) then [key] + keys else [keys[0]] + InsertKey(key, keys[1..])
  }

  function SortKeys(keys: seq<Text>): seq<Text> {
    if keys == [] then [] else InsertKey(keys[0], SortKeys(keys[1..]))
  }

  ghost predicate Ascending(keys: seq<Text>) {
    forall i, j :: 0 <= i < j < |keys| ==> Less(keys[i], keys[j])
  }

  lemma {:induction false} InsertKeyKeepsOrder(key: Text, keys: seq<Text>)
    requires Ascending(keys) && key !in keys
    ensures Ascending(InsertKey(key, keys))
    ensures forall k :: k in InsertKey(key, keys) <==> k == key || k in keys
  {
    if keys == [] {
    } else if Less(key, keys[0]) {
      forall j | 0 < j < |keys| ensures Less(key, keys[j]) { LessTransitive(key, keys[0], keys[j]); }
    } else {
      assert keys == [keys[0]] + keys[1..];
      InsertKeyKeepsOrder(key, keys[1..]);
      LessTotal(key, keys[0]);
      var rest := InsertKey(key, keys[1..]);
      forall j | 0 <= j < |rest| ensures Less(keys[0], rest[j]) { assert rest[j] in rest; }
    }
  }

  lemma {:induction false} SortKeysSorts(keys: seq<Text>)
    requires forall i, j :: 0 <= i < j < |keys| ==> keys[i] != keys[j]
    ensures Ascending(SortKeys(keys))
    ensures forall k :: k in SortKeys(keys) <==> k in keys
  {
    if keys == [] {
    } else {
      SortKeysSorts(keys[1..]);
      assert keys == [keys[0]] + keys[1..];
      InsertKeyKeepsOrder(keys[0], SortKeys(keys[1..]));
    }
  }

  lemma {:induction false} InsertKeyListsAll(key: Text, keys: seq<Text>)
    ensures forall k :: k in InsertKey(key, keys) <==> k == key || k in keys
  {
    if keys != [] && !Less(key, keys[0]) {
      assert keys == [keys[0]] + keys[1..];
      InsertKeyListsAll(key, keys[1..]);
    }
  }

  lemma {:induction false} SortKeysListsAll(keys: seq<Text>)
    ensures forall k :: k in SortKeys(keys) <==> k in keys
  {
    if keys == [] {
    } else {
      SortKeysListsAll(keys[1..]);
      assert keys == [keys[0]] + keys[1..];
      InsertKeyListsAll(keys[0], SortKeys(keys[1..]));
    }
  }

  /** A set of keys has only one ascending listing. */
  lemma {:induction false} AscendingIsUnique(a: seq<Text>, b: seq<Text>)
    requires Ascending(a) && Ascending(b)
    requires forall k :: k in a <==> k in b
    ensures a == b
    decreases |a|
  {
    if a == [] {
      assert forall i :: 0 <= i < |b| ==> b[i] in b;
    } else {
      assert a[0] in b && b != [];
      assert b[0] in a;
      if a[0] != b[0] {
        var i :| 0 <= i < |b| && b[i] == a[0];
        var j :| 0 <= j < |a| && a[j] == b[0];
        LessAsymmetric(b[0], b[i]);
        assert false;
      }
      forall k ensures k in a[1..] <==> k in b[1..] {
        if k in a[1..] { LaterIsDifferent(a, k); assert k in b; assert k in b[1..]; }
        if k in b[1..] { LaterIsDifferent(b, k); assert k in a; assert k in a[1..]; }
      }
      AscendingIsUnique(a[1..], b[1..]);
      assert a == [a[0]] + a[1..] && b == [b[0]] + b[1..];
    }
  }

  lemma LaterIsDifferent(a: seq<Text>, k: Text)
    requires Ascending(a) && a != [] && k in a[1..]
    ensures k != a[0] && k in a
  {
    var i :| 0 <= i < |a| - 1 && a[1..][i] == k;
    assert a[i + 1] == k && Less(a[0], a[i + 1]);
    LessAsymmetric(a[0], a[i + 1]);
  }

  // ---------------------------------------------------------------- printing

  function Keys(entries: seq<(Text, Js)>): (keys: seq<Text>)
    ensures |keys| == |entries| && forall i :: 0 <= i < |keys| ==> keys[i] == entries[i].0
  {
    seq(|entries|, i requires 0 <= i < |entries| => entries[i].0)
  }

  /** Number texts are literals, and an object's keys are distinct. */
  ghost predicate IsJson(v: Js) {
    match v
    case JsNumber(text) => IsNumberText(text)
    case JsArray(items) => forall i :: 0 <= i < |items| ==> IsJson(items[i])
    case JsObject(entries) =>
      && (forall i, j :: 0 <= i < j < |entries| ==> entries[i].0 != entries[j].0)
      && forall i :: 0 <= i < |entries| ==> IsJson(entries[i].1)
    case _ => true
  }

  function IndexOf(entries: seq<(Text, Js)>, key: Text): (i: nat)
    requires exists k :: 0 <= k < |entries| && entries[k].0 == key
    ensures i < |entries| && entries[i].0 == key
  {
    if entries[0].0 == key then 0 else 1 + IndexOf(entries[1..], key)
  }

  function Print(v: Js): Text
    decreases v, 3
  {
    match v
    case JsNull => NULL_TEXT
    case JsBool(b) => if b then TRUE_TEXT else FALSE_TEXT
    case JsNumber(text) => text
    case JsString(s) => Quote(s)
    case JsArray(items) => [OPEN_BRACKET] + PrintItems(items) + [CLOSE_BRACKET]
    case JsObject(_) => [OPEN_BRACE] + PrintMembers(v, SortedKeys(v)) + [CLOSE_BRACE]
  }

  function PrintItems(items: seq<Js>): Text
    decreases items, 0
  {
    if items == [] then []
    else if |items| == 1 then Print(items[0])
    else Print(items[0]) + [COMMA] + PrintItems(items[1..])
  }

  ghost predicate HasKey(v: Js, key: Text) {
    v.JsObject? && key in Keys(v.entries)
  }

  /** The value under a key. */
  function Member(v: Js, key: Text): (value: Js)
    requires HasKey(v, key)
    ensures value < v
  {
    assert exists k :: 0 <= k < |v.entries| && v.entries[k].0 == key by {
      var k :| 0 <= k < |v.entries| && Keys(v.entries)[k] == key;
    }
    v.entries[IndexOf(v.entries, key)].1
  }

  /** `Object.keys(obj).sort()`. */
  function SortedKeys(v: Js): (keys: seq<Text>)
    requires v.JsObject?
    ensures forall k :: k in keys <==> HasKey(v, k)
  {
    SortKeysListsAll(Keys(v.entries));
    SortKeys(Keys(v.entries))
  }

  function PrintMember(v: Js, key: Text): Text
    requires HasKey(v, key)
    decreases v, 0
  {
    Quote(key) + [COLON] + Print(Member(v, key))
  }

  function PrintMembers(v: Js, keys: seq<Text>): Text
    requires forall i :: 0 <= i < |keys| ==> HasKey(v, keys[i])
    decreases v, 1, keys
  {
    if keys == [] then []
    else if |keys| == 1 then PrintMember(v, keys[0])
    else PrintMember(v, keys[0]) + [COMMA] + PrintMembers(v, keys[1..])
  }

  function Meaning(v: Js): Json
    decreases v, 3
  {
    match v
    case JsNull => Null
    case JsBool(b) => Bool(b)
    case JsNumber(text) => Number(text)
    case JsString(s) => String(s)
    case JsArray(items) => Array(seq(|items|, i requires 0 <= i < |items| => Meaning(items[i])))
    case JsObject(_) => Object(MembersOf(v, SortedKeys(v)))
  }

  /** The meanings of the members under the given keys. */
  function MembersOf(v: Js, keys: seq<Text>): (members: map<Text, Json>)
    requires forall i :: 0 <= i < |keys| ==> HasKey(v, keys[i])
    decreases v, 1
  {
    map k | k in keys :: Meaning(Member(v, k))
  }

  // ---------------------------------------------------------------- parsing

  /** The text after an opening quote: the string up to the closing one, and what follows. */
  function Unescape(s: Text): (r: Option<(Text, Text)>)
    ensures r.Some? ==> |r.value.1| < |s|
  {
    if s == [] then None
    else if s[0] == QUOTE then Some(([], s[1..]))
    else if s[0] != BACKSLASH then Prepend(s[0], Unescape(s[1..]))
    else if |s| < 2 then None
    else if s[1] != LOWER_U then
      (match ShortUnescape(s[1]) case Some(u) => Prepend(u, Unescape(s[2..])) case None => None)
    else if |s| < 6 then None
    else
      match FromHex(s[2], s[3], s[4], s[5]) case Some(u) => Prepend(u, Unescape(s[6..])) case None => None
  }

  function FromHex(a: CodeUnit, b: CodeUnit, c: CodeUnit, d: CodeUnit): (u: Option<CodeUnit>) {
    match (HexValue(a), HexValue(b), HexValue(c), HexValue(d))
    case (Some(w), Some(x), Some(y), Some(z)) => Some(0x1000 * w + 0x100 * x + 0x10 * y + z)
    case _ => None
  }

  function Prepend(u: CodeUnit, r: Option<(Text, Text)>): Option<(Text, Text)> {
    match r case Some(p) => Some(([u] + p.0, p.1)) case None => None
  }

  function NumberRun(s: Text): (n: nat)
    ensures n <= |s|
  {
    if s != [] && IsNumberUnit(s[0]) then 1 + NumberRun(s[1..]) else 0
  }

  function Parse(s: Text): (r: Option<(Json, Text)>)
    ensures r.Some? ==> |r.value.1| < |s|
    decreases |s|, 0
  {
    if s == [] then None
    else if NULL_TEXT <= s then Some((Null, s[4..]))
    else if TRUE_TEXT <= s then Some((Bool(true), s[4..]))
    else if FALSE_TEXT <= s then Some((Bool(false), s[5..]))
    else if s[0] == QUOTE then
      match Unescape(s[1..]) { case Some(p) => Some((String(p.0), p.1)) case None => None }
    else if s[0] == OPEN_BRACKET then
      if |s| > 1 && s[1] == CLOSE_BRACKET then Some((Array([]), s[2..]))
      else match ParseItems(s[1..]) { case Some(p) => Some((Array(p.0), p.1)) case None => None }
    else if s[0] == OPEN_BRACE then
      if |s| > 1 && s[1] == CLOSE_BRACE then Some((Object(map[]), s[2..]))
      else match ParseMembers(s[1..]) { case Some(p) => Some((Object(p.0), p.1)) case None => None }
    else if s[0] == MINUS || IsDigit(s[0]) then
      Some((Number(s[..NumberRun(s)]), s[NumberRun(s)..]))
    else None
  }

  /** One or more comma-separated values up to a closing bracket. */
  function ParseItems(s: Text): (r: Option<(seq<Json>, Text)>)
    ensures r.Some? ==> |r.value.1| < |s|
    decreases |s|, 1
  {
    match Parse(s)
    case None => None
    case Some((item, rest)) =>
      if rest == [] then None
      else if rest[0] == CLOSE_BRACKET then Some(([item], rest[1..]))
      else if rest[0] != COMMA then None
      else match ParseItems(rest[1..])
        case None => None
        case Some((items, after)) => Some(([item] + items, after))
  }

  function ParseMember(s: Text): (r: Option<(Text, Json, Text)>)
    ensures r.Some? ==> |r.value.2| < |s|
    decreases |s|, 1
  {
    if s == [] || s[0] != QUOTE then None
    else match Unescape(s[1..])
      case None => None
      case Some((key, rest)) =>
        if rest == [] || rest[0] != COLON then None
        else match Parse(rest[1..])
          case None => None
          case Some((value, after)) => Some((key, value, after))
  }

  /** One or more comma-separated members up to a closing brace. */
  function ParseMembers(s: Text): (r: Option<(map<Text, Json>, Text)>)
    ensures r.Some? ==> |r.value.1| < |s|
    decreases |s|, 2
  {
    match ParseMember(s)
    case None => None
    case Some((key, value, rest)) =>
      if rest == [] then None
      else if rest[0] == CLOSE_BRACE then Some((map[key := value], rest[1..]))
      else if rest[0] != COMMA then None
      else match ParseMembers(rest[1..])
        case None => None
        case Some((members, after)) => Some((members[key := value], after))
  }

  // ---------------------------------------------------------------- parsing undoes printing

  lemma HexRoundTrip(n: nat)
    requires n < 16
    ensures HexValue(HexDigit(n)) == Some(n)
  {
  }

  lemma HexDigitsAddUp(u: CodeUnit)
    ensures u / 0x1000 < 16
    ensures 0x1000 * (u / 0x1000) + 0x100 * (u / 0x100 % 16) + 0x10 * (u / 0x10 % 16) + u % 16 == u
  {
    var q := u / 0x10;
    assert u / 0x100 == q / 0x10 && u / 0x1000 == q / 0x10 / 0x10;
  }

  lemma HexUnitReads(u: CodeUnit)
    ensures FromHex(HexDigit(u / 0x1000), HexDigit(u / 0x100 % 16), HexDigit(u / 0x10 % 16), HexDigit(u % 16)) == Some(u)
  {
    HexDigitsAddUp(u);
    hide HexDigit, HexValue;
    HexRoundTrip(u / 0x1000);
    HexRoundTrip(u / 0x100 % 16);
    HexRoundTrip(u / 0x10 % 16);
    HexRoundTrip(u % 16);
  }

  lemma HexUnitParses(u: CodeUnit, a: CodeUnit, b: CodeUnit, c: CodeUnit, d: CodeUnit, rest: Text)
    requires FromHex(a, b, c, d) == Some(u)
    ensures Unescape([BACKSLASH, LOWER_U, a, b, c, d] + rest) == Prepend(u, Unescape(rest))
  {
    hide FromHex;
    var s := [BACKSLASH, LOWER_U, a, b, c, d] + rest;
    assert s[6..] == rest;
  }

  lemma EscapedUnitParses(u: CodeUnit, rest: Text)
    ensures Unescape(EscapeUnit(u) + rest) == Prepend(u, Unescape(rest))
  {
    var s := EscapeUnit(u) + rest;
    if ShortEscape(u).Some? {
      assert s[0] == BACKSLASH && s[1] == ShortEscape(u).value && s[2..] == rest;
      assert ShortUnescape(s[1]) == Some(u) && s[1] != LOWER_U;
    } else if u < 0x20 || IsHigh(u) || IsLow(u) {
      hide Unescape, FromHex;
      HexUnitReads(u);
      HexUnitParses(u, s[2], s[3], s[4], s[5], rest);
    } else {
      assert s[0] == u && s[1..] == rest;
    }
  }

  lemma QuoteEnds(rest: Text)
    ensures Unescape([QUOTE] + rest) == Some(([], rest))
  {
    assert ([QUOTE] + rest)[1..] == rest;
  }

  lemma PlainUnitParses(u: CodeUnit, rest: Text)
    requires u != QUOTE && u != BACKSLASH
    ensures Unescape([u] + rest) == Prepend(u, Unescape(rest))
  {
    assert ([u] + rest)[1..] == rest;
  }

  lemma {:induction false} EscapedParses(s: Text, rest: Text)
    ensures Unescape(Escape(s) + [QUOTE] + rest) == Some((s, rest))
    decreases |s|
  {
    hide Unescape, EscapeUnit;
    var all := Escape(s) + [QUOTE] + rest;
    if s == [] {
      assert all == [QUOTE] + rest;
      QuoteEnds(rest);
    } else if |s| >= 2 && IsHigh(s[0]) && IsLow(s[1]) {
      EscapedParses(s[2..], rest);
      var tail := Escape(s[2..]) + [QUOTE] + rest;
      assert all == [s[0]] + ([s[1]] + tail);
      PlainUnitParses(s[0], [s[1]] + tail);
      PlainUnitParses(s[1], tail);
      assert s == [s[0]] + ([s[1]] + s[2..]);
    } else {
      EscapedParses(s[1..], rest);
      var tail := Escape(s[1..]) + [QUOTE] + rest;
      EscapedUnitParses(s[0], tail);
      assert all == EscapeUnit(s[0]) + tail;
      assert s == [s[0]] + s[1..];
    }
  }

  lemma QuotedParses(s: Text, rest: Text)
    ensures Quote(s) != [] && (Quote(s) + rest)[0] == QUOTE
    ensures Unescape((Quote(s) + rest)[1..]) == Some((s, rest))
  {
    hide Unescape, Escape;
    EscapedParses(s, rest);
    assert (Quote(s) + rest)[1..] == Escape(s) + [QUOTE] + rest;
  }

  lemma {:induction false} NumberRunStops(text: Text, rest: Text)
    requires forall i :: 0 <= i < |text| ==> IsNumberUnit(text[i])
    requires Ends(rest)
    ensures NumberRun(text + rest) == |text|
    decreases |text|
  {
    if text == [] {
      assert text + rest == rest;
    } else {
      NumberRunStops(text[1..], rest);
      assert (text + rest)[1..] == text[1..] + rest;
    }
  }

  /** What may follow a printed value: anything that does not continue a number. */
  predicate Ends(rest: Text) {
    rest == [] || !IsNumberUnit(rest[0])
  }

  /** Printed values never begin with a closing bracket. */
  lemma PrintBegins(v: Js)
    requires IsJson(v)
    ensures Print(v) != [] && Print(v)[0] != CLOSE_BRACKET
  {
    if v.JsNumber? { NumberTextUnits(v.text); }
  }

  lemma WordParses(v: Js, rest: Text)
    requires v.JsNull? || v.JsBool?
    ensures Parse(Print(v) + rest) == Some((Meaning(v), rest))
  {
    hide Unescape, ParseItems, ParseMembers, NumberRun, SortedKeys;
    var s := Print(v) + rest;
    var n := |Print(v)|;
    assert s[..n] == Print(v) && s[n..] == rest;
    assert s[0] == s[..n][0];
  }

  lemma NumberParses(text: Text, rest: Text)
    requires IsNumberText(text) && Ends(rest)
    ensures Parse(text + rest) == Some((Number(text), rest))
  {
    hide Unescape, ParseItems, ParseMembers, NumberRun, IsNumberText;
    NumberTextUnits(text);
    NumberRunStops(text, rest);
    var s := text + rest;
    assert s[0] == text[0];
    assert s[..|text|] == text && s[|text|..] == rest;
  }

  lemma StringParses(str: Text, rest: Text)
    ensures Parse(Quote(str) + rest) == Some((String(str), rest))
  {
    hide Unescape, ParseItems, ParseMembers, NumberRun, Quote;
    QuotedParses(str, rest);
    var s := Quote(str) + rest;
    assert s != [] && s[0] != NULL_TEXT[0] && s[0] != TRUE_TEXT[0] && s[0] != FALSE_TEXT[0];
  }

  lemma NoWord(s: Text)
    requires s != [] && (s[0] == OPEN_BRACKET || s[0] == OPEN_BRACE)
    ensures !(NULL_TEXT <= s) && !(TRUE_TEXT <= s) && !(FALSE_TEXT <= s)
  {
    assert s[0] != NULL_TEXT[0] && s[0] != TRUE_TEXT[0] && s[0] != FALSE_TEXT[0];
  }

  lemma ArrayParses(s: Text, items: seq<Json>, rest: Text)
    requires s != [] && s[0] != CLOSE_BRACKET && ParseItems(s) == Some((items, rest))
    ensures Parse([OPEN_BRACKET] + s) == Some((Array(items), rest))
  {
    hide Unescape, ParseItems, ParseMembers, NumberRun;
    var text := [OPEN_BRACKET] + s;
    assert text[1..] == s;
    NoWord(text);
  }

  lemma EmptyArrayParses(rest: Text)
    ensures Parse([OPEN_BRACKET, CLOSE_BRACKET] + rest) == Some((Array([]), rest))
  {
    hide Unescape, ParseItems, ParseMembers, NumberRun;
    var text := [OPEN_BRACKET, CLOSE_BRACKET] + rest;
    assert text[2..] == rest;
    NoWord(text);
  }

  lemma ObjectParses(s: Text, members: map<Text, Json>, rest: Text)
    requires s != [] && s[0] != CLOSE_BRACE && ParseMembers(s) == Some((members, rest))
    ensures Parse([OPEN_BRACE] + s) == Some((Object(members), rest))
  {
    hide Unescape, ParseItems, ParseMembers, NumberRun;
    var text := [OPEN_BRACE] + s;
    assert text[1..] == s;
    NoWord(text);
  }

  lemma EmptyObjectParses(rest: Text)
    ensures Parse([OPEN_BRACE, CLOSE_BRACE] + rest) == Some((Object(map[]), rest))
  {
    hide Unescape, ParseItems, ParseMembers, NumberRun;
    var text := [OPEN_BRACE, CLOSE_BRACE] + rest;
    assert text[2..] == rest;
    NoWord(text);
  }

  lemma LastItemParses(s: Text, item: Json, rest: Text)
    requires Parse(s) == Some((item, [CLOSE_BRACKET] + rest))
    ensures ParseItems(s) == Some(([item], rest))
  {
    hide Parse;
    assert ([CLOSE_BRACKET] + rest)[1..] == rest;
  }

  lemma NextItemParses(s: Text, item: Json, tail: Text, items: seq<Json>, rest: Text)
    requires Parse(s) == Some((item, [COMMA] + tail)) && ParseItems(tail) == Some((items, rest))
    ensures ParseItems(s) == Some(([item] + items, rest))
  {
    hide Parse;
    assert ([COMMA] + tail)[1..] == tail;
  }

  lemma MemberParses(key: Text, text: Text, value: Json, after: Text)
    requires Parse(text) == Some((value, after)) 
    ensures ParseMember(Quote(key) + [COLON] + text) == Some((key, value, after))
  {
    hide Parse, Unescape, Quote;
    var s := Quote(key) + [COLON] + text;
    assert s == Quote(key) + ([COLON] + text);
    QuotedParses(key, [COLON] + text);
    assert ([COLON] + text)[1..] == text;
  }

  lemma LastMemberParses(s: Text, key: Text, value: Json, rest: Text)
    requires ParseMember(s) == Some((key, value, [CLOSE_BRACE] + rest))
    ensures ParseMembers(s) == Some((map[key := value], rest))
  {
    hide ParseMember;
    assert ([CLOSE_BRACE] + rest)[1..] == rest;
  }

  lemma NextMemberParses(s: Text, key: Text, value: Json, tail: Text, members: map<Text, Json>, rest: Text)
    requires ParseMember(s) == Some((key, value, [COMMA] + tail)) && ParseMembers(tail) == Some((members, rest))
    ensures ParseMembers(s) == Some((members[key := value], rest))
  {
    hide ParseMember;
    assert ([COMMA] + tail)[1..] == tail;
  }

  /** Parsing a printed value gives the value back, with key order forgotten, and leaves the rest. */
  lemma {:induction false} ParsePrint(v: Js, rest: Text)
    requires IsJson(v) && Ends(rest)
    ensures Parse(Print(v) + rest) == Some((Meaning(v), rest))
    decreases v, 3
  {
    hide Parse, Quote, SortedKeys;
    match v
    case JsNull => WordParses(v, rest);
    case JsBool(_) => WordParses(v, rest);
    case JsNumber(text) => NumberParses(text, rest);
    case JsString(str) => StringParses(str, rest);
    case JsArray(items) => ParsePrintArray(v, rest);
    case JsObject(_) => ParsePrintObject(v, rest);
  }

  lemma {:induction false} ParsePrintArray(v: Js, rest: Text)
    requires IsJson(v) && v.JsArray?
    ensures Parse(Print(v) + rest) == Some((Meaning(v), rest))
    decreases v, 2
  {
    hide Parse, ParseItems;
    var items := v.items;
    assert Meaning(v) == Array(Meanings(items));
    if items == [] {
      assert Print(v) + rest == [OPEN_BRACKET, CLOSE_BRACKET] + rest;
      assert Meanings(items) == [];
      EmptyArrayParses(rest);
    } else {
      var s := PrintItems(items) + [CLOSE_BRACKET] + rest;
      assert Print(v) + rest == [OPEN_BRACKET] + s;
      assert s[0] == PrintItems(items)[0] != CLOSE_BRACKET by { PrintItemsBegin(items); }
      ParsePrintItems(items, rest);
      ArrayParses(s, Meanings(items), rest);
    }
  }

  lemma PrintItemsBegin(items: seq<Js>)
    requires items != [] && forall i :: 0 <= i < |items| ==> IsJson(items[i])
    ensures PrintItems(items) != [] && PrintItems(items)[0] != CLOSE_BRACKET
  {
    hide Print;
    PrintBegins(items[0]);
  }

  function Meanings(items: seq<Js>): (r: seq<Json>)
    ensures |r| == |items|
  {
    seq(|items|, i requires 0 <= i < |items| => Meaning(items[i]))
  }

  lemma {:induction false} ParsePrintItems(items: seq<Js>, rest: Text)
    requires items != [] && forall i :: 0 <= i < |items| ==> IsJson(items[i])
    ensures ParseItems(PrintItems(items) + [CLOSE_BRACKET] + rest) == Some((Meanings(items), rest))
    decreases items, 1
  {
    hide Parse, ParseItems, Print, Meaning;
    var s := PrintItems(items) + [CLOSE_BRACKET] + rest;
    if |items| == 1 {
      assert s == Print(items[0]) + ([CLOSE_BRACKET] + rest);
      ParsePrint(items[0], [CLOSE_BRACKET] + rest);
      LastItemParses(s, Meaning(items[0]), rest);
      assert Meanings(items) == [Meaning(items[0])];
    } else {
      var tail := PrintItems(items[1..]) + [CLOSE_BRACKET] + rest;
      assert s == Print(items[0]) + ([COMMA] + tail);
      ParsePrint(items[0], [COMMA] + tail);
      ParsePrintItems(items[1..], rest);
      NextItemParses(s, Meaning(items[0]), tail, Meanings(items[1..]), rest);
      assert Meanings(items) == [Meaning(items[0])] + Meanings(items[1..]);
    }
  }

  lemma {:induction false} ParsePrintObject(v: Js, rest: Text)
    requires IsJson(v) && v.JsObject?
    ensures Parse(Print(v) + rest) == Some((Meaning(v), rest))
    decreases v, 2
  {
    hide Parse, ParseMembers, PrintMembers, Print, Meaning, MembersOf;
    var keys := SortedKeys(v);
    SortKeysSorts(Keys(v.entries));
    ObjectUnfolds(v);
    if keys == [] {
      NoMembers(v);
      assert Print(v) + rest == [OPEN_BRACE, CLOSE_BRACE] + rest;
      EmptyObjectParses(rest);
    } else {
      var s := PrintMembers(v, keys) + [CLOSE_BRACE] + rest;
      assert Print(v) + rest == [OPEN_BRACE] + s;
      ParsePrintMembers(v, keys, rest);
      ObjectParses(s, MembersOf(v, keys), rest);
    }
  }

  lemma ObjectUnfolds(v: Js)
    requires v.JsObject?
    ensures Print(v) == [OPEN_BRACE] + PrintMembers(v, SortedKeys(v)) + [CLOSE_BRACE]
    ensures Meaning(v) == Object(MembersOf(v, SortedKeys(v)))
  {}

  lemma NoMembers(v: Js)
    ensures PrintMembers(v, []) == [] && MembersOf(v, []) == map[]
  {
  }

  lemma IsJsonMember(v: Js, key: Text)
    requires IsJson(v) && HasKey(v, key)
    ensures IsJson(Member(v, key))
  {
  }

  lemma {:induction false} ParsePrintMember(v: Js, key: Text, after: Text)
    requires IsJson(v) && HasKey(v, key) && Ends(after)
    ensures ParseMember(PrintMember(v, key) + after) == Some((key, Meaning(Member(v, key)), after))
    decreases v, 0
  {
    hide Parse, ParseMember, Print, Meaning, Quote;
    IsJsonMember(v, key);
    var value := Member(v, key);
    ParsePrint(value, after);
    MemberParses(key, Print(value) + after, Meaning(value), after);
    assert PrintMember(v, key) + after == Quote(key) + [COLON] + (Print(value) + after);
  }

  lemma PrintMemberBegins(v: Js, key: Text)
    requires HasKey(v, key)
    ensures PrintMember(v, key) != [] && PrintMember(v, key)[0] == QUOTE
  {
    hide Print, Escape;
  }

  lemma {:induction false} ParsePrintMembers(v: Js, keys: seq<Text>, rest: Text)
    requires IsJson(v) && keys != [] && Ascending(keys)
    requires forall i :: 0 <= i < |keys| ==> HasKey(v, keys[i])
    ensures PrintMembers(v, keys) != [] && PrintMembers(v, keys)[0] == QUOTE
    ensures ParseMembers(PrintMembers(v, keys) + [CLOSE_BRACE] + rest) == Some((MembersOf(v, keys), rest))
    decreases v, 1, |keys|
  {
    hide Parse, ParseMember, ParseMembers, PrintMember, Meaning, Print;
    var s := PrintMembers(v, keys) + [CLOSE_BRACE] + rest;
    var key := keys[0];
    var value := Meaning(Member(v, key));
    PrintMemberBegins(v, key);
    if |keys| == 1 {
      assert s == PrintMember(v, key) + ([CLOSE_BRACE] + rest);
      ParsePrintMember(v, key, [CLOSE_BRACE] + rest);
      LastMemberParses(s, key, value, rest);
      assert MembersOf(v, keys) == map[key := value];
    } else {
      var tail := PrintMembers(v, keys[1..]) + [CLOSE_BRACE] + rest;
      assert s == PrintMember(v, key) + ([COMMA] + tail);
      ParsePrintMember(v, key, [COMMA] + tail);
      ParsePrintMembers(v, keys[1..], rest);
      NextMemberParses(s, key, value, tail, MembersOf(v, keys[1..]), rest);
      MembersOfTail(v, keys);
    }
  }

  lemma MembersOfTail(v: Js, keys: seq<Text>)
    requires keys != [] && forall i :: 0 <= i < |keys| ==> HasKey(v, keys[i])
    ensures MembersOf(v, keys) == MembersOf(v, keys[1..])[keys[0] := Meaning(Member(v, keys[0]))]
  {
    hide Meaning, HasKey;
    assert keys == [keys[0]] + keys[1..];
  }

  // ---------------------------------------------------------------- the key is canonical

  lemma {:induction false} SameMeaningSamePrint(v: Js, w: Js)
    requires IsJson(v) && IsJson(w) && Meaning(v) == Meaning(w)
    ensures Print(v) == Print(w)
    decreases v, 3
  {
    match v
    case JsArray(items) =>
      hide Print;
      assert Meaning(v) == Array(Meanings(items)) && Meaning(w) == Array(Meanings(w.items));
      SameMeaningsSamePrint(items, w.items);
      SameItemsSameArray(v, w);
    case JsObject(_) =>
      hide Print;
      var keys := SortedKeys(v);
      assert Meaning(v) == Object(MembersOf(v, keys)) && Meaning(w) == Object(MembersOf(w, SortedKeys(w)));
      SameKeys(v, w);
      forall k | k in keys ensures Meaning(Member(v, k)) == Meaning(Member(w, k)) {
        assert MembersOf(v, keys)[k] == MembersOf(w, keys)[k];
      }
      SameMembersSamePrint(v, w, keys);
      SameMembersSameObject(v, w);
    case _ =>
  }

  lemma SameItemsSameArray(v: Js, w: Js)
    requires v.JsArray? && w.JsArray? && PrintItems(v.items) == PrintItems(w.items)
    ensures Print(v) == Print(w)
  {
    hide PrintItems;
  }

  lemma SameMembersSameObject(v: Js, w: Js)
    requires v.JsObject? && w.JsObject? && SortedKeys(v) == SortedKeys(w)
    requires PrintMembers(v, SortedKeys(v)) == PrintMembers(w, SortedKeys(w))
    ensures Print(v) == Print(w)
  {
    hide PrintMembers, SortedKeys;
  }

  lemma SameKeys(v: Js, w: Js)
    requires IsJson(v) && IsJson(w) && v.JsObject? && w.JsObject?
    requires MembersOf(v, SortedKeys(v)) == MembersOf(w, SortedKeys(w))
    ensures SortedKeys(v) == SortedKeys(w)
  {
    hide Meaning;
    SortKeysSorts(Keys(v.entries));
    SortKeysSorts(Keys(w.entries));
    forall k ensures k in SortedKeys(v) <==> k in SortedKeys(w) {
      assert k in SortedKeys(v) <==> k in MembersOf(v, SortedKeys(v));
      assert k in SortedKeys(w) <==> k in MembersOf(w, SortedKeys(w));
    }
    AscendingIsUnique(SortedKeys(v), SortedKeys(w));
  }

  lemma {:induction false} SameMeaningsSamePrint(items: seq<Js>, others: seq<Js>)
    requires forall i :: 0 <= i < |items| ==> IsJson(items[i])
    requires forall i :: 0 <= i < |others| ==> IsJson(others[i])
    requires Meanings(items) == Meanings(others)
    ensures PrintItems(items) == PrintItems(others)
    decreases items, 1
  {
    hide Print, Meaning;
    assert |items| == |others|;
    if items == [] {
    } else {
      assert Meanings(items)[0] == Meanings(others)[0];
      SameMeaningSamePrint(items[0], others[0]);
      assert Meanings(items[1..]) == Meanings(items)[1..] && Meanings(others[1..]) == Meanings(others)[1..];
      SameMeaningsSamePrint(items[1..], others[1..]);
    }
  }

  lemma {:induction false} SameMembersSamePrint(v: Js, w: Js, keys: seq<Text>)
    requires IsJson(v) && IsJson(w)
    requires forall i :: 0 <= i < |keys| ==> HasKey(v, keys[i]) && HasKey(w, keys[i])
    requires forall i :: 0 <= i < |keys| ==> Meaning(Member(v, keys[i])) == Meaning(Member(w, keys[i]))
    ensures PrintMembers(v, keys) == PrintMembers(w, keys)
    decreases v, 1, |keys|
  {
    hide Print, Meaning, Quote;
    if keys == [] {
    } else {
      IsJsonMember(v, keys[0]);
      IsJsonMember(w, keys[0]);
      SameMeaningSamePrint(Member(v, keys[0]), Member(w, keys[0]));
      SameMembersSamePrint(v, w, keys[1..]);
    }
  }

  /** Two JSON values print the same exactly when they are equal with objects as unordered maps. */
  lemma PrintIsCanonical(v: Js, w: Js)
    requires IsJson(v) && IsJson(w)
    ensures Print(v) == Print(w) <==> Meaning(v) == Meaning(w)
  {
    hide Print, Meaning, Parse, IsJson;
    ParsePrint(v, []);
    ParsePrint(w, []);
    assert Print(v) + [] == Print(v) && Print(w) + [] == Print(w);
    if Meaning(v) == Meaning(w) {
      SameMeaningSamePrint(v, w);
    }
  }
}
