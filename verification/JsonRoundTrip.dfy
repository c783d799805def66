/** Reading what was printed gives the value back, and canonical text pins the value. */
module JsonRoundTrip {
  import opened Wrappers
  import opened Sorting
  import opened Json

  /** Every float in the value carries the text Python prints for it. */
  predicate Valid(fl: Floats, v: Value)
    decreases v
  {
    match v
    case Float(text) => fl.Canonical(text)
    case Arr(items) => forall item <- items :: Valid(fl, item)
    case Obj(fields) => forall k <- fields.Keys :: Valid(fl, fields[k])
    case _ => true
  }

  /** Nothing that could lengthen a number printed just before `rest`. */
  predicate NumberStops(rest: string) {
    rest == [] || !(IsDigit(rest[0]) || rest[0] == '.' || rest[0] == 'e' || rest[0] == 'E')
  }

  // ----- numbers -----

  lemma Assoc(a: string, b: string, c: string)
    ensures (a + b) + c == a + (b + c)
  {}

  lemma SplitAt(a: string, b: string)
    ensures (a + b)[..|a|] == a && (a + b)[|a|..] == b
  {}

  lemma {:induction false} DigitsRoundTrip(n: nat)
    ensures DigitsValue(Digits(n)) == n
  {
    if n >= 10 {
      DigitsRoundTrip(n / 10);
      var text := Digits(n);
      assert text[..|text| - 1] == Digits(n / 10);
    } else {
      assert Digits(n)[..0] == [];
    }
  }

  /** Two texts that agree up to the end of the number found in one of them, where the other
      stops, hold the same number: more text after it, or less, changes nothing. */
  lemma MatchNumberLocal(p: string, s: string)
    requires var n := MatchNumber(p).end;
             && 0 < n <= |s| && (forall k :: 0 <= k < n ==> s[k] == p[k])
             && NumberStops(s[n..])
    ensures MatchNumber(s) == MatchNumber(p)
  {
    var m := MatchNumber(p);
    assert m.end < |s| ==> s[m.end..][0] == s[m.end];
    IntegerEndLocal(p, s, m.end);
    FractionEndLocal(p, s, m.whole, m.end);
    ExponentEndLocal(p, s, m.fraction, m.end);
  }

  lemma IntegerEndLocal(p: string, s: string, n: nat)
    requires 0 < IntegerEnd(p) <= n <= |s| && n <= |p|
    requires forall k :: 0 <= k < n ==> s[k] == p[k]
    requires n < |s| ==> !IsDigit(s[n])
    ensures IntegerEnd(s) == IntegerEnd(p)
  {}

  lemma FractionEndLocal(p: string, s: string, i: nat, n: nat)
    requires i <= n <= |p| && FractionEnd(p, i) <= n <= |s|
    requires forall k :: 0 <= k < n ==> s[k] == p[k]
    requires n < |s| ==> !IsDigit(s[n]) && s[n] != '.'
    requires i < FractionEnd(p, i) || i == n || p[i] != '.'
    ensures FractionEnd(s, i) == FractionEnd(p, i)
  {}

  lemma ExponentEndLocal(p: string, s: string, i: nat, n: nat)
    requires i <= |p| && n == ExponentEnd(p, i) <= |s|
    requires forall k :: 0 <= k < n ==> s[k] == p[k]
    requires n < |s| ==> !IsDigit(s[n]) && s[n] != 'e' && s[n] != 'E'
    ensures ExponentEnd(s, i) == n
  {}

  lemma FloatTextPrefix(s: string)
    requires MatchNumber(s).whole < MatchNumber(s).end
    ensures IsFloatText(s[..MatchNumber(s).end])
  {
    MatchNumberLocal(s, s[..MatchNumber(s).end]);
  }

  lemma IntTextRoundTrip(n: int)
    ensures var text := PrintInt(n);
            && MatchNumber(text) == NumberMatch(|text|, |text|, |text|)
            && text != [] && (text[0] == '-' || IsDigit(text[0]))
            && (forall i :: 1 <= i < |text| ==> IsDigit(text[i]))
            && IntOf(text) == n
  {
    DigitsRoundTrip(if n < 0 then -n else n);
    if n < 0 {
      var digits, text := Digits(-n), PrintInt(n);
      assert text[1..] == digits;
      assert forall i :: 1 <= i < |text| ==> text[i] == digits[i - 1];
      assert DigitEnd(text, 1) == |text|;
      assert text[1] == digits[0];
    } else {
      assert DigitEnd(PrintInt(n), 0) == |PrintInt(n)|;
    }
  }

  lemma NumberStarts(fl: Floats, v: Value)
    requires v.Int? || (v.Float? && fl.Canonical(v.text))
    ensures Print(v) != [] && MatchNumber(Print(v)).end == |Print(v)|
    ensures Print(v)[0] == '-' || IsDigit(Print(v)[0])
  {}

  lemma NumberRoundTrip(fl: Floats, v: Value, rest: string)
    requires v.Int? || (v.Float? && fl.Canonical(v.text))
    requires NumberStops(rest)
    ensures ParseNumber(fl, Print(v) + rest) == Some((v, rest))
  {
    var text := Print(v);
    NumberStarts(fl, v);
    if v.Int? {
      IntTextRoundTrip(v.n);
    }
    SplitAt(text, rest);
    MatchNumberLocal(text, text + rest);
  }

  // ----- strings -----

  lemma ControlCharScans(c: char, tail: string)
    requires |EscapeChar(c)| > 2
    requires ScanString(tail).Some?
    ensures ScanString(EscapeChar(c) + tail)
         == Some(([c] + ScanString(tail).value.0, ScanString(tail).value.1))
  {
    var high, low := c as int / 16, c as int % 16;
    HexRoundTrip(high);
    HexRoundTrip(low);
    var s := EscapeChar(c) + tail;
    assert s[0] == '\\' && s[1] == 'u';
    assert s[2..] == "00" + [HexChar(high), HexChar(low)] + tail;
    assert s[2..][0] == '0' && s[2..][1] == '0';
    assert Hex4(s[2..]) == Some(16 * high + low);
    assert UnicodeEscape(s[2..]) == Some((c, 4));
    assert s[6..] == tail;
  }

  lemma EscapedCharScans(c: char, tail: string)
    requires ScanString(tail).Some?
    ensures ScanString(EscapeChar(c) + tail)
         == Some(([c] + ScanString(tail).value.0, ScanString(tail).value.1))
  {
    var escaped := EscapeChar(c);
    if |escaped| > 2 {
      ControlCharScans(c, tail);
    } else {
      var s := escaped + tail;
      assert s[|escaped|..] == tail;
      if |escaped| == 2 {
        assert s[0] == '\\' && s[1] == escaped[1];
        assert SimpleEscape(escaped[1]) == Some(c);
      } else {
        assert s[0] == c;
      }
    }
  }

  lemma {:induction false} StringRoundTrip(text: string, tail: string)
    requires tail != [] && tail[0] == '\"'
    ensures ScanString(Escape(text) + tail) == Some((text, tail[1..]))
  {
    if text == [] {
      assert Escape(text) + tail == tail;
    } else {
      StringRoundTrip(text[1..], tail);
      Assoc(EscapeChar(text[0]), Escape(text[1..]), tail);
      EscapedCharScans(text[0], Escape(text[1..]) + tail);
      assert text == [text[0]] + text[1..];
    }
  }

  lemma QuoteRoundTrip(text: string, rest: string)
    ensures (Quote(text) + rest)[0] == '\"'
    ensures ScanString((Quote(text) + rest)[1..]) == Some((text, rest))
  {
    var tail := "\"" + rest;
    assert (Quote(text) + rest)[1..] == (Escape(text) + "\"") + rest;
    Assoc(Escape(text), "\"", rest);
    assert tail[1..] == rest;
    StringRoundTrip(text, tail);
  }

  // ----- values -----

  ghost predicate ValidAll(fl: Floats, items: seq<Value>) {
    forall item <- items :: Valid(fl, item)
  }

  function Pairs(fields: map<string, Value>, keys: seq<string>): seq<(string, Value)>
    requires forall k <- keys :: k in fields
  {
    if keys == [] then [] else [(keys[0], fields[keys[0]])] + Pairs(fields, keys[1..])
  }

  lemma {:induction false} PairsAppend(fields: map<string, Value>, keys: seq<string>, last: string)
    requires last in fields && forall k <- keys :: k in fields
    ensures Pairs(fields, keys + [last]) == Pairs(fields, keys) + [(last, fields[last])]
  {
    if keys != [] {
      assert (keys + [last])[1..] == keys[1..] + [last];
      PairsAppend(fields, keys[1..], last);
    } else {
      assert keys + [last] == [last];
    }
  }

  /** The duplicate-refusing hook rebuilds exactly the dict that was printed. */
  lemma {:induction false} UniqueObjectOfPairs(fields: map<string, Value>, keys: seq<string>)
    requires Distinct(keys) && forall k <- keys :: k in fields
    ensures UniqueObject(Pairs(fields, keys)).Some?
    ensures var rebuilt := UniqueObject(Pairs(fields, keys)).value;
            && (forall k :: k in rebuilt <==> k in keys)
            && (forall k <- keys :: rebuilt[k] == fields[k])
  {
    if keys != [] {
      var init, last := keys[..|keys| - 1], keys[|keys| - 1];
      assert keys == init + [last];
      PairsAppend(fields, init, last);
      UniqueObjectOfPairs(fields, init);
      var pairs := Pairs(fields, keys);
      assert pairs[..|pairs| - 1] == Pairs(fields, init);
      assert last !in init;
    }
  }

  lemma ObjectRebuilt(fields: map<string, Value>)
    ensures var keys := SortedKeys(fields.Keys);
            && UniqueObject(Pairs(fields, keys)) == Some(fields)
            && (keys == [] ==> fields == map[])
  {
    SortedKeysSorts(fields.Keys);
    RebuiltFrom(fields, SortedKeys(fields.Keys));
  }

  lemma RebuiltFrom(fields: map<string, Value>, keys: seq<string>)
    requires Distinct(keys) && forall k :: k in keys <==> k in fields
    ensures UniqueObject(Pairs(fields, keys)) == Some(fields)
    ensures keys == [] ==> fields == map[]
  {
    UniqueObjectOfPairs(fields, keys);
    assert UniqueObject(Pairs(fields, keys)).value == fields;
    assert keys == [] ==> fields.Keys == {};
  }

  /** First characters: none is blank, and each kind is told apart by its own. */
  lemma PrintStarts(fl: Floats, v: Value)
    requires Valid(fl, v)
    ensures Print(v) != [] && !IsSpace(Print(v)[0])
    ensures Print(v)[0] != '}' && Print(v)[0] != ']'
  {}

  /** Reading a printed value stops exactly where the print ended. */
  lemma {:induction false} ValueRoundTrip(fl: Floats, v: Value, rest: string)
    requires Valid(fl, v) && NumberStops(rest)
    ensures ParseValue(fl, Print(v) + rest) == Some((v, rest))
    decreases v, if v.Obj? then |v.fields| + 2 else 1
  {
    match v
    case Null => assert (Print(v) + rest)[4..] == rest;
    case Bool(b) => assert (Print(v) + rest)[if b then 4 else 5..] == rest;
    case Int(n) => ScalarNumberRoundTrip(fl, v, rest);
    case Float(text) => ScalarNumberRoundTrip(fl, v, rest);
    case Str(text) => QuoteRoundTrip(text, rest);
    case Arr(items) => ArrayRoundTrip(fl, v, rest);
    case Obj(fields) => ObjectRoundTrip(fl, v, rest);
  }

  lemma ScalarNumberRoundTrip(fl: Floats, v: Value, rest: string)
    requires v.Int? || v.Float?
    requires Valid(fl, v) && NumberStops(rest)
    ensures ParseValue(fl, Print(v) + rest) == Some((v, rest))
  {
    NumberRoundTrip(fl, v, rest);
    NumberStarts(fl, v);
    var s := Print(v) + rest;
    assert s[0] == Print(v)[0];
    NumberCase(fl, s);
  }

  // One unfolding of the parser for each kind of value.

  lemma NumberCase(fl: Floats, s: string)
    requires s != [] && (s[0] == '-' || IsDigit(s[0]))
    ensures ParseValue(fl, s) == ParseNumber(fl, s)
  {}

  lemma ArrayCase(fl: Floats, s: string, inner: string)
    requires s != [] && s[0] == '[' && s[1..] == inner
    requires inner != [] && !IsSpace(inner[0]) && inner[0] != ']'
    requires ParseItems(fl, inner).Some?
    ensures ParseValue(fl, s)
         == Some((Arr(ParseItems(fl, inner).value.0), ParseItems(fl, inner).value.1))
  {}

  lemma ObjectCase(fl: Floats, s: string, inner: string)
    requires s != [] && s[0] == '{' && s[1..] == inner
    requires inner != [] && !IsSpace(inner[0]) && inner[0] != '}'
    requires ParseMembers(fl, inner).Some? && UniqueObject(ParseMembers(fl, inner).value.0).Some?
    ensures ParseValue(fl, s)
         == Some((Obj(UniqueObject(ParseMembers(fl, inner).value.0).value),
                  ParseMembers(fl, inner).value.1))
  {}

  lemma LastItem(fl: Floats, s: string, item: Value, next: string)
    requires ParseValue(fl, s) == Some((item, next))
    requires next != [] && next[0] == ']'
    ensures ParseItems(fl, s) == Some(([item], next[1..]))
  {}

  lemma ItemThenMore(fl: Floats, s: string, item: Value, next: string, more: seq<Value>, rest: string)
    requires ParseValue(fl, s) == Some((item, next))
    requires |next| > 1 && next[0] == ',' && !IsSpace(next[1])
    requires ParseItems(fl, next[1..]) == Some((more, rest))
    ensures ParseItems(fl, s) == Some(([item] + more, rest))
  {}

  lemma {:induction false} ArrayRoundTrip(fl: Floats, v: Value, rest: string)
    requires v.Arr? && Valid(fl, v)
    ensures ParseValue(fl, Print(v) + rest) == Some((v, rest))
    decreases v, 0
  {
    var tail := "]" + rest;
    var s := Print(v) + rest;
    var inner := PrintItems(v.items) + tail;
    assert s[0] == '[' && s[1..] == inner by {
      assert s[1..] == (PrintItems(v.items) + "]") + rest;
      Assoc(PrintItems(v.items), "]", rest);
    }
    assert tail[1..] == rest;
    if v.items == [] {
      assert inner == tail;
    } else {
      PrintItemsStarts(fl, v.items);
      assert inner[0] == PrintItems(v.items)[0];
      ItemsRoundTrip(fl, v.items, tail);
      ArrayCase(fl, s, inner);
    }
  }

  lemma {:induction false} ObjectRoundTrip(fl: Floats, v: Value, rest: string)
    requires v.Obj? && Valid(fl, v)
    ensures ParseValue(fl, Print(v) + rest) == Some((v, rest))
    decreases v, |v.fields| + 1
  {
    var keys := SortedKeys(v.fields.Keys);
    var tail := "}" + rest;
    var s := Print(v) + rest;
    var inner := PrintFields(v, keys) + tail;
    ObjectText(v, rest);
    KeysCount(v);
    assert s[0] == '{' && s[1..] == inner;
    assert tail[1..] == rest;
    ObjectRebuilt(v.fields);
    if keys == [] {
      assert inner == tail;
    } else {
      PrintFieldsStarts(v, keys);
      assert inner[0] == '\"';
      MembersRoundTrip(fl, v, keys, tail);
      ObjectCase(fl, s, inner);
    }
  }

  lemma ObjectText(v: Value, rest: string)
    requires v.Obj?
    ensures Print(v) + rest
         == "{" + (PrintFields(v, SortedKeys(v.fields.Keys)) + ("}" + rest))
  {}

  lemma PrintFieldsStarts(v: Value, keys: seq<string>)
    requires v.Obj? && keys != [] && forall k <- keys :: k in v.fields
    ensures PrintFields(v, keys) != [] && PrintFields(v, keys)[0] == '\"'
  {}

  lemma PrintItemsStarts(fl: Floats, items: seq<Value>)
    requires items != [] && ValidAll(fl, items)
    ensures PrintItems(items) != [] && !IsSpace(PrintItems(items)[0])
    ensures PrintItems(items)[0] != ']'
  {
    PrintStarts(fl, items[0]);
  }

  lemma {:induction false} ItemsRoundTrip(fl: Floats, items: seq<Value>, tail: string)
    requires items != [] && ValidAll(fl, items)
    requires tail != [] && tail[0] == ']'
    ensures ParseItems(fl, PrintItems(items) + tail) == Some((items, tail[1..]))
    decreases items
  {
    hide Print, ParseValue, ParseItems, PrintItems;
    if |items| == 1 {
      ValueRoundTrip(fl, items[0], tail);
      OneItemText(items, tail);
      LastItem(fl, PrintItems(items) + tail, items[0], tail);
      assert items == [items[0]];
    } else {
      var more := PrintItems(items[1..]) + tail;
      var next := "," + more;
      ItemsText(items, tail);
      ValueRoundTrip(fl, items[0], next);
      PrintItemsStarts(fl, items[1..]);
      AfterComma(next, PrintItems(items[1..]), tail);
      ItemsRoundTrip(fl, items[1..], tail);
      ItemThenMore(fl, PrintItems(items) + tail, items[0], next, items[1..], tail[1..]);
      assert items == [items[0]] + items[1..];
    }
  }

  lemma OneItemText(items: seq<Value>, tail: string)
    requires |items| == 1
    ensures PrintItems(items) + tail == Print(items[0]) + tail
  {
    hide Print;
  }

  lemma AfterComma(next: string, text: string, tail: string)
    requires text != [] && next == "," + (text + tail)
    ensures |next| > 1 && next[0] == ',' && next[1] == text[0] && next[1..] == text + tail
  {}

  lemma ItemsText(items: seq<Value>, tail: string)
    requires |items| > 1
    ensures PrintItems(items) + tail == Print(items[0]) + ("," + (PrintItems(items[1..]) + tail))
  {
    hide Print;
    MoreThenTail(Print(items[0]), PrintItems(items[1..]), tail);
  }

  lemma MoreThenTail(first: string, more: string, tail: string)
    ensures (first + ("," + more)) + tail == first + ("," + (more + tail))
  {}

  lemma {:induction false} MembersRoundTrip(fl: Floats, v: Value, keys: seq<string>, tail: string)
    requires v.Obj? && Valid(fl, v)
    requires keys != [] && forall k <- keys :: k in v.fields
    requires tail != [] && tail[0] == '}'
    ensures ParseMembers(fl, PrintFields(v, keys) + tail)
         == Some((Pairs(v.fields, keys), tail[1..]))
    decreases v, |keys|
  {
    var key, member := keys[0], v.fields[keys[0]];
    var more := PrintFields(v, keys[1..]) + tail;
    var next := if |keys| == 1 then tail else "," + more;
    MemberText(v, keys, tail, next);
    PrintStarts(fl, member);
    ValueRoundTrip(fl, member, next);
    if |keys| > 1 {
      assert next[1..] == more;
      assert more[0] == '\"';
      MembersRoundTrip(fl, v, keys[1..], tail);
    }
    MembersJoin(fl, v.fields, keys, Print(member), next, tail[1..]);
  }

  lemma MembersJoin(fl: Floats, fields: map<string, Value>, keys: seq<string>, text: string,
                    next: string, rest: string)
    requires keys != [] && forall k <- keys :: k in fields
    requires text != [] && !IsSpace(text[0])
    requires ParseValue(fl, text + next) == Some((fields[keys[0]], next))
    requires |keys| == 1 ==> next != [] && next[0] == '}' && rest == next[1..]
    requires |keys| > 1 ==> |next| > 1 && next[0] == ',' && !IsSpace(next[1])
    requires |keys| > 1 ==> ParseMembers(fl, next[1..]) == Some((Pairs(fields, keys[1..]), rest))
    ensures ParseMembers(fl, Quote(keys[0]) + (":" + (text + next)))
         == Some((Pairs(fields, keys), rest))
  {
    MemberStep(fl, keys[0], text, fields[keys[0]], next);
    if |keys| > 1 {
      assert SkipSpace(next[1..]) == next[1..];
    }
    var first := [(keys[0], fields[keys[0]])];
    if |keys| == 1 {
      assert Pairs(fields, keys[1..]) == [];
      assert first + [] == first;
    }
  }

  lemma MemberStep(fl: Floats, key: string, text: string, member: Value, next: string)
    requires text != [] && !IsSpace(text[0])
    requires ParseValue(fl, text + next) == Some((member, next))
    requires next != [] && !IsSpace(next[0])
    ensures ParseMember(fl, Quote(key) + (":" + (text + next))) == Some((key, member, next))
  {
    var colon := ":" + (text + next);
    QuoteRoundTrip(key, colon);
    assert colon[1..] == text + next;
    assert colon[1] == text[0];
    assert SkipSpace(colon) == colon && SkipSpace(colon[1..]) == colon[1..];
    assert SkipSpace(next) == next;
  }

  lemma MemberText(v: Value, keys: seq<string>, tail: string, next: string)
    requires v.Obj? && keys != [] && forall k <- keys :: k in v.fields
    requires next == if |keys| == 1 then tail else "," + (PrintFields(v, keys[1..]) + tail)
    ensures PrintFields(v, keys) + tail
         == Quote(keys[0]) + (":" + (Print(v.fields[keys[0]]) + next))
  {
    hide Print, Quote, PrintFields;
    var name, text := Quote(keys[0]), Print(v.fields[keys[0]]);
    if |keys| == 1 {
      OneFieldText(v, keys);
      FieldThen(PrintFields(v, keys), name, text, [], tail);
    } else {
      var more := PrintFields(v, keys[1..]);
      MoreFieldsText(v, keys);
      FieldThen(PrintFields(v, keys), name, text, "," + more, tail);
      Associate(",", more, tail);
    }
  }

  lemma OneFieldText(v: Value, keys: seq<string>)
    requires v.Obj? && |keys| == 1 && keys[0] in v.fields
    ensures PrintFields(v, keys) == Quote(keys[0]) + (":" + (Print(v.fields[keys[0]]) + []))
  {
    hide Print, Quote;
  }

  lemma MoreFieldsText(v: Value, keys: seq<string>)
    requires v.Obj? && |keys| > 1 && forall k <- keys :: k in v.fields
    ensures PrintFields(v, keys)
         == Quote(keys[0]) + (":" + (Print(v.fields[keys[0]]) + ("," + PrintFields(v, keys[1..]))))
  {
    hide Print, Quote;
  }

  lemma FieldThen(all: string, name: string, text: string, following: string, tail: string)
    requires all == name + (":" + (text + following))
    ensures all + tail == name + (":" + (text + (following + tail)))
    ensures following == [] ==> following + tail == tail
  {
    var value := text + following;
    var colon := ":" + value;
    Associate(name, colon, tail);
    Associate(":", value, tail);
    Associate(text, following, tail);
  }

  lemma Associate(a: string, b: string, c: string)
    ensures (a + b) + c == a + (b + c)
  {}

  lemma LoadsPrint(fl: Floats, v: Value)
    requires Valid(fl, v)
    ensures Loads(fl, Print(v)) == Some(v)
  {
    PrintStarts(fl, v);
    ValueRoundTrip(fl, v, []);
    assert Print(v) + [] == Print(v);
  }

  /** Canonical text determines the value, whatever order its dicts were built in. */
  lemma PrintInjective(fl: Floats, v: Value, w: Value)
    requires Valid(fl, v) && Valid(fl, w)
    ensures Print(v) == Print(w) <==> v == w
  {
    LoadsPrint(fl, v);
    LoadsPrint(fl, w);
  }

  /** What the parser returns can always be printed again. */
  lemma {:induction false} ParsedIsValid(fl: Floats, s: string)
    requires fl.Lawful()
    ensures ParseValue(fl, s).Some? ==> Valid(fl, ParseValue(fl, s).value.0)
    decreases |s|, 0
  {
    if s != [] && s[0] == '{' {
      var inner := SkipSpace(s[1..]);
      ParsedMembersAreValid(fl, inner);
      var members := ParseMembers(fl, inner);
      if members.Some? && UniqueObject(members.value.0).Some? {
        UniqueObjectMembers(members.value.0);
      }
    } else if s != [] && s[0] == '[' {
      ParsedItemsAreValid(fl, SkipSpace(s[1..]));
    } else {
      ParsedNumberIsValid(fl, s);
    }
  }

  lemma ParsedNumberIsValid(fl: Floats, s: string)
    requires fl.Lawful()
    ensures ParseNumber(fl, s).Some? ==> Valid(fl, ParseNumber(fl, s).value.0)
  {
    var r := ParseNumber(fl, s);
    if r.Some? && r.value.0.Float? {
      FloatTextValid(fl, s, r.value.0.text);
    }
  }

  lemma FloatTextValid(fl: Floats, s: string, text: string)
    requires fl.Lawful()
    requires MatchNumber(s).whole < MatchNumber(s).end
    requires fl.repr(s[..MatchNumber(s).end]) == Some(text)
    ensures fl.Canonical(text)
  {
    FloatTextPrefix(s);
    ReprIsCanonical(fl, s[..MatchNumber(s).end]);
  }

  lemma ReprIsCanonical(fl: Floats, text: string)
    requires fl.Lawful() && IsFloatText(text)
    ensures fl.repr(text).Some? ==> fl.Canonical(fl.repr(text).value)
  {}

  lemma {:induction false} UniqueObjectMembers(pairs: seq<(string, Value)>)
    requires UniqueObject(pairs).Some?
    ensures forall k <- UniqueObject(pairs).value.Keys ::
              exists i :: 0 <= i < |pairs| && pairs[i] == (k, UniqueObject(pairs).value[k])
  {
    if pairs != [] {
      UniqueObjectMembers(pairs[..|pairs| - 1]);
    }
  }

  lemma {:induction false} ParsedMemberIsValid(fl: Floats, s: string)
    requires fl.Lawful()
    ensures ParseMember(fl, s).Some? ==> Valid(fl, ParseMember(fl, s).value.1)
    decreases |s|, 1
  {
    if ParseMember(fl, s).Some? {
      var colon := SkipSpace(ScanString(s[1..]).value.1);
      ParsedIsValid(fl, SkipSpace(colon[1..]));
    }
  }

  lemma {:induction false} ParsedMembersAreValid(fl: Floats, s: string)
    requires fl.Lawful()
    ensures ParseMembers(fl, s).Some? ==>
              forall pair <- ParseMembers(fl, s).value.0 :: Valid(fl, pair.1)
    decreases |s|, 2
  {
    if ParseMembers(fl, s).Some? {
      ParsedMemberIsValid(fl, s);
      var next := ParseMember(fl, s).value.2;
      if next[0] == ',' {
        ParsedMembersAreValid(fl, SkipSpace(next[1..]));
      }
    }
  }

  lemma {:induction false} ParsedItemsAreValid(fl: Floats, s: string)
    requires fl.Lawful()
    ensures ParseItems(fl, s).Some? ==> ValidAll(fl, ParseItems(fl, s).value.0)
    decreases |s|, 1
  {
    ParsedIsValid(fl, s);
    if ParseItems(fl, s).Some? {
      var next := SkipSpace(ParseValue(fl, s).value.1);
      if next[0] == ',' {
        ParsedItemsAreValid(fl, SkipSpace(next[1..]));
      }
    }
  }
}
