/** JSON data as `json.dumps` prints it and `json.loads` reads it (RFC 8259).

    A Python dict compares without regard to insertion order, so an object is a map.
    A binary64 number is identified with the text Python prints for it: `Floats.repr`
    stands for `repr(float(text))` and `Floats.value` for the number itself. */
module Json {
  import opened Wrappers
  import opened Sorting

  datatype Value =
    | Null
    | Bool(b: bool)
    | Int(n: int)
    | Float(text: string)
    | Str(s: string)
    | Arr(items: seq<Value>)
    | Obj(fields: map<string, Value>)

  /** `repr` is `None` where the text overflows to an infinity, which `allow_nan=False` refuses. */
  datatype Floats = Floats(repr: string -> Option<string>, value: string -> real) {
    ghost predicate Lawful() {
      forall t :: IsFloatText(t) && repr(t).Some? ==>
        IsFloatText(repr(t).value) && repr(repr(t).value) == repr(t)
    }

    /** The text is what Python itself prints for some finite float. */
    predicate Canonical(t: string) {
      IsFloatText(t) && repr(t) == Some(t)
    }
  }

  // ----- order of keys: code point by code point -----

  predicate StrLe(a: string, b: string) {
    a == [] || (b != [] && (a[0] < b[0] || (a[0] == b[0] && StrLe(a[1..], b[1..]))))
  }

  lemma {:induction false} StrLeAntisymmetric(a: string, b: string)
    requires StrLe(a, b) && StrLe(b, a)
    ensures a == b
  {
    if a != [] {
      StrLeAntisymmetric(a[1..], b[1..]);
      assert a == [a[0]] + a[1..] && b == [b[0]] + b[1..];
    }
  }

  lemma {:induction false} StrLeTotal(a: string, b: string)
    ensures StrLe(a, b) || StrLe(b, a)
  {
    if a != [] && b != [] {
      StrLeTotal(a[1..], b[1..]);
    }
  }

  lemma {:induction false} StrLeTransitive(a: string, b: string, c: string)
    requires StrLe(a, b) && StrLe(b, c)
    ensures StrLe(a, c)
  {
    if a != [] && a[0] == b[0] == c[0] {
      StrLeTransitive(a[1..], b[1..], c[1..]);
    }
  }

  lemma StrLeOrder()
    ensures TotalOrder(StrLe)
  {
    forall a, b ensures StrLe(a, b) || StrLe(b, a) {
      StrLeTotal(a, b);
    }
    forall a, b | StrLe(a, b) && StrLe(b, a) ensures a == b {
      StrLeAntisymmetric(a, b);
    }
    forall a, b, c | StrLe(a, b) && StrLe(b, c) ensures StrLe(a, c) {
      StrLeTransitive(a, b, c);
    }
  }

  /** The key order of `sort_keys=True`. */
  function SortedKeys(keys: set<string>): (r: seq<string>)
    ensures forall k <- r :: k in keys
  {
    StrLeOrder();
    SortedSet(StrLe, keys)
  }

  lemma SortedKeysSorts(keys: set<string>)
    ensures Sorted(StrLe, SortedKeys(keys)) && Distinct(SortedKeys(keys))
    ensures |SortedKeys(keys)| == |keys|
    ensures forall k :: k in SortedKeys(keys) <==> k in keys
  {
    StrLeOrder();
    SortedSetSorts(StrLe, keys);
  }

  // ----- characters -----

  predicate IsDigit(c: char) { '0' <= c <= '9' }

  predicate IsSpace(c: char) { c == ' ' || c == '\t' || c == '\n' || c == '\r' }

  function HexChar(d: nat): char
    requires d < 16
  {
    "0123456789abcdef"[d]
  }

  function HexDigit(c: char): Option<nat> {
    if '0' <= c <= '9' then Some(c as int - '0' as int)
    else if 'a' <= c <= 'f' then Some(c as int - 'a' as int + 10)
    else if 'A' <= c <= 'F' then Some(c as int - 'A' as int + 10)
    else None
  }

  lemma HexRoundTrip(d: nat)
    requires d < 16
    ensures HexDigit(HexChar(d)) == Some(d)
  {
    var digits := "0123456789abcdef";
    assert digits[d] == HexChar(d);
  }

  // ----- printing: dumps(ensure_ascii=False, separators=(",", ":"), sort_keys=True) -----

  function EscapeChar(c: char): string {
    if c == '\"' then "\\\""
    else if c == '\\' then "\\\\"
    else if c == '\n' then "\\n"
    else if c == '\r' then "\\r"
    else if c == '\t' then "\\t"
    else if c == 8 as char then "\\b"
    else if c == 12 as char then "\\f"
    else if c < ' ' then "\\u00" + [HexChar(c as int / 16), HexChar(c as int % 16)]
    else [c]
  }

  function Escape(s: string): string {
    if s == [] then [] else EscapeChar(s[0]) + Escape(s[1..])
  }

  function Quote(s: string): string { "\"" + (Escape(s) + "\"") }

  function Digits(n: nat): (r: string)
    ensures r != [] && forall i :: 0 <= i < |r| ==> IsDigit(r[i])
    ensures r[0] == '0' ==> n == 0 && r == "0"
  {
    var last := [('0' as int + n % 10) as char];
    if n < 10 then last else Digits(n / 10) + last
  }

  function PrintInt(n: int): string {
    if n < 0 then "-" + Digits(-n) else Digits(n)
  }

  lemma KeysCount(v: Value)
    ensures v.Obj? ==> |SortedKeys(v.fields.Keys)| == |v.fields|
  {
    if v.Obj? {
      SortedKeysSorts(v.fields.Keys);
      assert |v.fields.Keys| == |v.fields|;
    }
  }

  function Print(v: Value): string
    decreases v, if v.Obj? then |v.fields| + 1 else 0
  {
    KeysCount(v);
    match v
    case Null => "null"
    case Bool(b) => if b then "true" else "false"
    case Int(n) => PrintInt(n)
    case Float(text) => text
    case Str(s) => Quote(s)
    case Arr(items) => "[" + (PrintItems(items) + "]")
    case Obj(fields) => "{" + (PrintFields(v, SortedKeys(fields.Keys)) + "}")
  }

  function PrintItems(items: seq<Value>): string {
    if items == [] then ""
    else if |items| == 1 then Print(items[0])
    else Print(items[0]) + ("," + PrintItems(items[1..]))
  }

  function PrintFields(v: Value, keys: seq<string>): string
    requires v.Obj? && forall k <- keys :: k in v.fields
    decreases v, |keys|
  {
    if keys == [] then ""
    else
      var next := if |keys| == 1 then "" else "," + PrintFields(v, keys[1..]);
      Quote(keys[0]) + (":" + (Print(v.fields[keys[0]]) + next))
  }

  // ----- numbers -----

  /** The end of the run of digits that starts at `i`. */
  function DigitEnd(s: string, i: nat): (j: nat)
    requires i <= |s|
    ensures i <= j <= |s|
    ensures forall k :: i <= k < j ==> IsDigit(s[k])
    ensures j < |s| ==> !IsDigit(s[j])
    decreases |s| - i
  {
    if i < |s| && IsDigit(s[i]) then DigitEnd(s, i + 1) else i
  }

  /** End of `-?(0|[1-9][0-9]*)` at the front of `s`; zero where it does not match. */
  function IntegerEnd(s: string): (n: nat)
    ensures n <= |s|
  {
    var sign := if s != [] && s[0] == '-' then 1 else 0;
    var end := DigitEnd(s, sign);
    if end == sign then 0 else if s[sign] == '0' then sign + 1 else end
  }

  /** End of `(\.[0-9]+)?` at `i`. */
  function FractionEnd(s: string, i: nat): (n: nat)
    requires i <= |s|
    ensures i <= n <= |s|
  {
    if i < |s| && s[i] == '.' && DigitEnd(s, i + 1) > i + 1 then DigitEnd(s, i + 1) else i
  }

  /** End of `([eE][-+]?[0-9]+)?` at `i`. */
  function ExponentEnd(s: string, i: nat): (n: nat)
    requires i <= |s|
    ensures i <= n <= |s|
  {
    if i < |s| && (s[i] == 'e' || s[i] == 'E') then
      var digits := if i + 1 < |s| && (s[i + 1] == '-' || s[i + 1] == '+') then i + 2 else i + 1;
      if DigitEnd(s, digits) > digits then DigitEnd(s, digits) else i
    else i
  }

  datatype NumberMatch = NumberMatch(whole: nat, fraction: nat, end: nat)

  /** Where the three groups of the number expression of `json.scanner` end. */
  function MatchNumber(s: string): (r: NumberMatch)
    ensures r.whole <= r.fraction <= r.end <= |s|
    ensures r.whole == 0 ==> r.end == 0
  {
    var whole := IntegerEnd(s);
    if whole == 0 then NumberMatch(0, 0, 0)
    else
      var fraction := FractionEnd(s, whole);
      NumberMatch(whole, fraction, ExponentEnd(s, fraction))
  }

  predicate IsFloatText(s: string) {
    s != [] && MatchNumber(s).end == |s| && MatchNumber(s).whole < |s|
  }

  function DigitsValue(s: string): nat
    requires forall i :: 0 <= i < |s| ==> IsDigit(s[i])
  {
    if s == [] then 0
    else
      var last := s[|s| - 1];
      assert IsDigit(last);
      10 * DigitsValue(s[..|s| - 1]) + (last as int - '0' as int)
  }

  /** `int(text)` for a text the integer group matched. */
  function IntOf(text: string): int
    requires text != [] && forall i :: 1 <= i < |text| ==> IsDigit(text[i])
    requires text[0] == '-' || IsDigit(text[0])
  {
    if text[0] == '-' then 0 - DigitsValue(text[1..]) else DigitsValue(text)
  }

  function ParseNumber(fl: Floats, s: string): (r: Option<(Value, string)>)
    ensures r.Some? ==> |r.value.1| < |s|
  {
    var m := MatchNumber(s);
    if m.whole == 0 then None
    else if m.whole == m.end then Some((Int(IntOf(s[..m.end])), s[m.end..]))
    else
      var text :- fl.repr(s[..m.end]);
      Some((Float(text), s[m.end..]))
  }

  // ----- strings -----

  function Hex4(s: string): Option<nat> {
    if |s| < 4 then None
    else
      var a :- HexDigit(s[0]);
      var b :- HexDigit(s[1]);
      var c :- HexDigit(s[2]);
      var d :- HexDigit(s[3]);
      Some(4096 * a + 256 * b + 16 * c + d)
  }

  lemma Hex4Bound(s: string)
    ensures Hex4(s).Some? ==> Hex4(s).value < 0x10000
  {}

  function SimpleEscape(c: char): Option<char> {
    if c == '\"' || c == '\\' || c == '/' then Some(c)
    else if c == 'b' then Some(8 as char)
    else if c == 'f' then Some(12 as char)
    else if c == 'n' then Some('\n')
    else if c == 'r' then Some('\r')
    else if c == 't' then Some('\t')
    else None
  }

  /** The character after `\u`, and how many characters it takes. An escape that leaves a
      surrogate alone cannot be encoded as UTF-8 again, so it is refused here. */
  function UnicodeEscape(s: string): (r: Option<(char, nat)>)
    ensures r.Some? ==> 4 <= r.value.1 <= |s|
  {
    var unit :- Hex4(s);
    Hex4Bound(s);
    if unit < 0xD800 || 0xE000 <= unit then Some((unit as char, 4))
    else if unit < 0xDC00 && |s| >= 10 && s[4] == '\\' && s[5] == 'u' then
      var low :- Hex4(s[6..]);
      if 0xDC00 <= low < 0xE000 then
        Some(((0x10000 + (unit - 0xD800) * 0x400 + (low - 0xDC00)) as char, 10))
      else None
    else None
  }

  /** `scanstring` after the opening quote: the text, and what follows the closing quote. */
  function ScanString(s: string): (r: Option<(string, string)>)
    ensures r.Some? ==> |r.value.1| < |s|
    decreases |s|
  {
    if s == [] then None
    else if s[0] == '\"' then Some(([], s[1..]))
    else if s[0] == '\\' then
      if |s| < 2 then None
      else if s[1] == 'u' then
        var escape :- UnicodeEscape(s[2..]);
        var tail :- ScanString(s[2 + escape.1..]);
        Some(([escape.0] + tail.0, tail.1))
      else
        var c :- SimpleEscape(s[1]);
        var tail :- ScanString(s[2..]);
        Some(([c] + tail.0, tail.1))
    else if s[0] < ' ' then None
    else
      var tail :- ScanString(s[1..]);
      Some(([s[0]] + tail.0, tail.1))
  }

  // ----- values -----

  function SkipSpace(s: string): (r: string)
    ensures |r| <= |s|
    ensures r != [] ==> !IsSpace(r[0])
  {
    if s != [] && IsSpace(s[0]) then SkipSpace(s[1..]) else s
  }

  /** `unique_object`: a dict from the pairs, unless a key repeats. */
  function UniqueObject(pairs: seq<(string, Value)>): Option<map<string, Value>> {
    if pairs == [] then Some(map[])
    else
      var last := pairs[|pairs| - 1];
      var fields :- UniqueObject(pairs[..|pairs| - 1]);
      if last.0 in fields then None else Some(fields[last.0 := last.1])
  }

  function ParseValue(fl: Floats, s: string): (r: Option<(Value, string)>)
    ensures r.Some? ==> |r.value.1| < |s|
    decreases |s|, 0
  {
    if s == [] then None
    else if s[0] == '\"' then
      var text :- ScanString(s[1..]);
      Some((Str(text.0), text.1))
    else if s[0] == '{' then
      var inner := SkipSpace(s[1..]);
      if inner != [] && inner[0] == '}' then Some((Obj(map[]), inner[1..]))
      else
        var members :- ParseMembers(fl, inner);
        var fields :- UniqueObject(members.0);
        Some((Obj(fields), members.1))
    else if s[0] == '[' then
      var inner := SkipSpace(s[1..]);
      if inner != [] && inner[0] == ']' then Some((Arr([]), inner[1..]))
      else
        var items :- ParseItems(fl, inner);
        Some((Arr(items.0), items.1))
    else if s[0] == 'n' && |s| >= 4 && s[..4] == "null" then Some((Null, s[4..]))
    else if s[0] == 't' && |s| >= 4 && s[..4] == "true" then Some((Bool(true), s[4..]))
    else if s[0] == 'f' && |s| >= 5 && s[..5] == "false" then Some((Bool(false), s[5..]))
    else ParseNumber(fl, s)
  }

  /** One `"key": value`; the third component is what follows it and any blanks. */
  function ParseMember(fl: Floats, s: string): (r: Option<(string, Value, string)>)
    ensures r.Some? ==> |r.value.2| < |s|
    decreases |s|, 1
  {
    if s == [] || s[0] != '\"' then None
    else
      var key :- ScanString(s[1..]);
      var colon := SkipSpace(key.1);
      if colon == [] || colon[0] != ':' then None
      else
        var member :- ParseValue(fl, SkipSpace(colon[1..]));
        Some((key.0, member.0, SkipSpace(member.1)))
  }

  /** One or more members up to and including the closing brace. */
  function ParseMembers(fl: Floats, s: string): (r: Option<(seq<(string, Value)>, string)>)
    ensures r.Some? ==> |r.value.1| < |s|
    decreases |s|, 2
  {
    var member :- ParseMember(fl, s);
    var next := member.2;
    if next == [] then None
    else if next[0] == '}' then Some(([(member.0, member.1)], next[1..]))
    else if next[0] == ',' then
      var more :- ParseMembers(fl, SkipSpace(next[1..]));
      Some(([(member.0, member.1)] + more.0, more.1))
    else None
  }

  function ParseItems(fl: Floats, s: string): (r: Option<(seq<Value>, string)>)
    ensures r.Some? ==> |r.value.1| < |s|
    decreases |s|, 1
  {
    var item :- ParseValue(fl, s);
    var next := SkipSpace(item.1);
    if next == [] then None
    else if next[0] == ']' then Some(([item.0], next[1..]))
    else if next[0] == ',' then
      var more :- ParseItems(fl, SkipSpace(next[1..]));
      Some(([item.0] + more.0, more.1))
    else None
  }

  /** `json.loads(text, object_pairs_hook=unique_object)`. */
  function Loads(fl: Floats, text: string): Option<Value> {
    var parsed :- ParseValue(fl, SkipSpace(text));
    if SkipSpace(parsed.1) == [] then Some(parsed.0) else None
  }
}
