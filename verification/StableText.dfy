/** The text the printer writes, unit by unit. */
module StableText {
  import opened Common
  import opened Order
  import opened StableStringify

  function Concat(parts: seq<Text>): Text {
    if parts == [] then [] else parts[0] + Concat(parts[1..])
  }

  /** With a comma between each two. */
  function Commas(parts: seq<Text>): Text {
    if parts == [] then [] else if |parts| == 1 then parts[0] else parts[0] + [44] + Commas(parts[1..])
  }

  // ---------------------------------------------------------------- strings

  /** One of two units that make up a character together. */
  predicate IsPaired(s: Text, i: nat)
    requires i < |s|
  {
    || (0xD800 <= s[i] <= 0xDBFF && i + 1 < |s| && 0xDC00 <= s[i + 1] <= 0xDFFF)
    || (0xDC00 <= s[i] <= 0xDFFF && i > 0 && 0xD800 <= s[i - 1] <= 0xDBFF)
  }

  predicate IsHexDigit(u: CodeUnit) {
    48 <= u <= 57 || 97 <= u <= 102
  }

  function ValueOfHex(u: CodeUnit): int {
    if u <= 57 then u - 48 else u - 87
  }

  /** A backslash, a u and the unit's number as four lower-case hexadecimal digits. */
  predicate IsHexEscape(text: Text, u: CodeUnit) {
    && |text| == 6 && text[0] == 92 && text[1] == 117
    && (forall k :: 2 <= k < 6 ==> IsHexDigit(text[k]))
    && 4096 * ValueOfHex(text[2]) + 256 * ValueOfHex(text[3]) + 16 * ValueOfHex(text[4]) + ValueOfHex(text[5]) == u
  }

  /** How `JSON.stringify` writes the unit at i: quotes, backslashes and the five named control characters
      as two characters, other control characters and lone surrogates by number, the rest as they are. */
  predicate IsWritten(s: Text, i: nat, text: Text)
    requires i < |s|
  {
    var u := s[i];
    if u == 34 || u == 92 then text == [92, u]
    else if u == 8 then text == [92, 98]
    else if u == 9 then text == [92, 116]
    else if u == 10 then text == [92, 110]
    else if u == 12 then text == [92, 102]
    else if u == 13 then text == [92, 114]
    else if u < 32 || (0xD800 <= u <= 0xDFFF && !IsPaired(s, i)) then IsHexEscape(text, u)
    else text == [u]
  }

  ghost predicate AreWritten(s: Text, texts: seq<Text>) {
    |texts| == |s| && forall i :: 0 <= i < |s| ==> IsWritten(s, i, texts[i])
  }

  lemma EscapeWrites(s: Text, i: nat)
    requires i < |s| && !IsPaired(s, i)
    ensures IsWritten(s, i, EscapeUnit(s[i]))
  {
    var u := s[i];
    HexDigitsAddUp(u);
    assert forall n :: 0 <= n < 16 ==> IsHexDigit(HexDigit(n)) && ValueOfHex(HexDigit(n)) == n;
  }

  lemma PairWrites(s: Text, i: nat)
    requires i + 1 < |s| && IsHigh(s[i]) && IsLow(s[i + 1])
    ensures IsWritten(s, i, [s[i]]) && IsWritten(s, i + 1, [s[i + 1]])
  {}

  /** Escaping from i on takes a whole pair, or one unit. */
  lemma EscapeStep(s: Text, i: nat)
    requires i < |s|
    ensures
      if i + 1 < |s| && IsHigh(s[i]) && IsLow(s[i + 1]) then Escape(s[i..]) == [s[i]] + ([s[i + 1]] + Escape(s[i + 2..]))
      else Escape(s[i..]) == EscapeUnit(s[i]) + Escape(s[i + 1..])
  {
    hide EscapeUnit;
    assert s[i..][1..] == s[i + 1..];
    if i + 1 < |s| { assert s[i..][2..] == s[i + 2..]; }
  }

  lemma ConcatPush(part: Text, rest: seq<Text>)
    ensures Concat([part] + rest) == part + Concat(rest)
  {
    assert ([part] + rest)[1..] == rest;
  }

  /** The rest of s from i on, which does not start in the middle of a pair. */
  lemma {:induction false} EscapesFrom(s: Text, i: nat) returns (texts: seq<Text>)
    requires i <= |s| && (0 < i < |s| ==> !(IsHigh(s[i - 1]) && IsLow(s[i])))
    ensures |texts| == |s| - i && forall k :: 0 <= k < |texts| ==> IsWritten(s, i + k, texts[k])
    ensures Escape(s[i..]) == Concat(texts)
    decreases |s| - i
  {
    hide EscapeUnit, Escape, Concat, IsWritten;
    if i == |s| {
      texts := [];
      NothingToEscape(s[i..]);
    } else {
      EscapeStep(s, i);
      if i + 1 < |s| && IsHigh(s[i]) && IsLow(s[i + 1]) {
        var rest := EscapesFrom(s, i + 2);
        PairWrites(s, i);
        ConcatPush([s[i + 1]], rest);
        ConcatPush([s[i]], [[s[i + 1]]] + rest);
        texts := [[s[i]]] + ([[s[i + 1]]] + rest);
        assert forall k :: 2 <= k < |texts| ==> texts[k] == rest[k - 2];
      } else {
        var rest := EscapesFrom(s, i + 1);
        EscapeWrites(s, i);
        ConcatPush(EscapeUnit(s[i]), rest);
        texts := [EscapeUnit(s[i])] + rest;
        assert forall k :: 1 <= k < |texts| ==> texts[k] == rest[k - 1];
      }
    }
  }

  lemma NothingToEscape(s: Text)
    requires s == []
    ensures Escape(s) == Concat([])
  {}

  /** A string is written between quotes, unit after unit. */
  lemma QuoteExactly(s: Text) returns (texts: seq<Text>)
    ensures AreWritten(s, texts) && Quote(s) == [34] + Concat(texts) + [34]
  {
    texts := EscapesFrom(s, 0);
    assert s[0..] == s;
  }

  // ---------------------------------------------------------------- values

  lemma {:induction false} ItemsWithCommas(items: seq<Js>)
    ensures PrintItems(items) == Commas(seq(|items|, i requires 0 <= i < |items| => Print(items[i])))
  {
    hide Print;
    var texts := seq(|items|, i requires 0 <= i < |items| => Print(items[i]));
    if |items| > 1 {
      ItemsWithCommas(items[1..]);
      assert texts[1..] == seq(|items[1..]|, i requires 0 <= i < |items[1..]| => Print(items[1..][i]));
    }
  }

  lemma {:induction false} MembersWithCommas(v: Js, keys: seq<Text>)
    requires forall i :: 0 <= i < |keys| ==> HasKey(v, keys[i])
    ensures PrintMembers(v, keys) ==
      Commas(seq(|keys|, i requires 0 <= i < |keys| => Quote(keys[i]) + [58] + Print(Member(v, keys[i]))))
  {
    hide Print, Member, HasKey, Quote;
    var texts := seq(|keys|, i requires 0 <= i < |keys| => Quote(keys[i]) + [58] + Print(Member(v, keys[i])));
    if |keys| > 1 {
      MembersWithCommas(v, keys[1..]);
      assert texts[1..] == seq(|keys[1..]|, i requires 0 <= i < |keys[1..]| =>
        Quote(keys[1..][i]) + [58] + Print(Member(v, keys[1..][i])));
    }
  }

  /** Every value, written out: no white space anywhere, items and members separated by commas, the
      members in ascending order of their keys. */
  lemma PrintsExactly(v: Js)
    requires IsJson(v)
    ensures
      match v
      case JsNull => Print(v) == [110, 117, 108, 108]
      case JsBool(b) => Print(v) == if b then [116, 114, 117, 101] else [102, 97, 108, 115, 101]
      case JsNumber(text) => Print(v) == text
      case JsString(s) => Print(v) == Quote(s)
      case JsArray(items) =>
        Print(v) == [91] + Commas(seq(|items|, i requires 0 <= i < |items| => Print(items[i]))) + [93]
      case JsObject(entries) =>
        var keys := SortedKeys(v);
        && Ascending(keys) && (forall k :: k in keys <==> exists i :: 0 <= i < |entries| && entries[i].0 == k)
        && Print(v) == [123]
             + Commas(seq(|keys|, i requires 0 <= i < |keys| => Quote(keys[i]) + [58] + Print(Member(v, keys[i]))))
             + [125]
  {
    match v
    case JsArray(items) => ItemsWithCommas(items);
    case JsObject(entries) =>
      var keys := SortedKeys(v);
      SortKeysSorts(Keys(entries));
      MembersWithCommas(v, keys);
      forall k ensures k in keys <==> exists i :: 0 <= i < |entries| && entries[i].0 == k {
        if k in keys {
          var i :| 0 <= i < |entries| && Keys(entries)[i] == k;
          assert entries[i].0 == k;
        }
        if i :| 0 <= i < |entries| && entries[i].0 == k { assert Keys(entries)[i] == k; }
      }
    case _ =>
  }
}
