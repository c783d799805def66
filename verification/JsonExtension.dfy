/** The parser never looks past a value that is closed: more text after it changes nothing.
    Hence no proper prefix of a printed object is a JSON document. */
module JsonExtension {
  import opened Wrappers
  import opened Json
  import opened JsonRoundTrip

  lemma {:induction false} SkipSpaceExtends(p: string, s: string)
    requires SkipSpace(p) != []
    ensures SkipSpace(p + s) == SkipSpace(p) + s
  {
    if IsSpace(p[0]) {
      assert (p + s)[1..] == p[1..] + s;
      SkipSpaceExtends(p[1..], s);
    }
  }

  lemma UnicodeEscapeExtends(p: string, s: string)
    requires UnicodeEscape(p).Some?
    ensures UnicodeEscape(p + s) == UnicodeEscape(p)
  {
    var longer := p + s;
    assert forall i :: 0 <= i < |p| ==> longer[i] == p[i];
    assert Hex4(longer) == Hex4(p);
    if |p| >= 10 {
      assert forall i :: 0 <= i < 4 ==> longer[6..][i] == p[6..][i];
      assert Hex4(longer[6..]) == Hex4(p[6..]);
    }
  }

  lemma {:induction false} ScanStringExtends(p: string, s: string)
    requires ScanString(p).Some?
    ensures ScanString(p + s) == Some((ScanString(p).value.0, ScanString(p).value.1 + s))
    decreases |p|
  {
    assert (p + s)[1..] == p[1..] + s;
    if p[0] == '\"' {
    } else if p[0] == '\\' {
      assert (p + s)[2..] == p[2..] + s;
      if p[1] == 'u' {
        UnicodeEscapeExtends(p[2..], s);
        var skip := 2 + UnicodeEscape(p[2..]).value.1;
        assert (p + s)[skip..] == p[skip..] + s;
        ScanStringExtends(p[skip..], s);
      } else {
        ScanStringExtends(p[2..], s);
      }
    } else {
      ScanStringExtends(p[1..], s);
    }
  }

  /** A value that more text cannot lengthen. */
  predicate Closed(v: Value, rest: string) {
    (v.Int? || v.Float?) ==> rest != [] && NumberStops(rest)
  }

  lemma NumberExtends(fl: Floats, p: string, s: string)
    requires ParseNumber(fl, p).Some?
    requires Closed(ParseNumber(fl, p).value.0, ParseNumber(fl, p).value.1)
    ensures ParseNumber(fl, p + s)
         == Some((ParseNumber(fl, p).value.0, ParseNumber(fl, p).value.1 + s))
  {
    var n := MatchNumber(p).end;
    assert (p + s)[n..] == p[n..] + s;
    assert (p + s)[..n] == p[..n];
    MatchNumberLocal(p, p + s);
  }

  lemma {:induction false} ValueExtends(fl: Floats, p: string, s: string)
    requires ParseValue(fl, p).Some?
    requires Closed(ParseValue(fl, p).value.0, ParseValue(fl, p).value.1)
    ensures ParseValue(fl, p + s)
         == Some((ParseValue(fl, p).value.0, ParseValue(fl, p).value.1 + s))
    decreases |p|, 2
  {
    assert (p + s)[0] == p[0];
    assert (p + s)[1..] == p[1..] + s;
    if p[0] == '\"' {
      ScanStringExtends(p[1..], s);
    } else if p[0] == '{' {
      ObjectExtends(fl, p, s);
    } else if p[0] == '[' {
      ArrayExtends(fl, p, s);
    } else if p[0] == 'n' || p[0] == 't' || p[0] == 'f' {
      LiteralExtends(fl, p, s);
    } else {
      NumberFirst(p);
      NumberCase(fl, p);
      NumberCase(fl, p + s);
      NumberExtends(fl, p, s);
    }
  }

  lemma NumberFirst(p: string)
    requires IntegerEnd(p) > 0
    ensures p[0] == '-' || IsDigit(p[0])
  {}

  lemma LiteralExtends(fl: Floats, p: string, s: string)
    requires p != [] && (p[0] == 'n' || p[0] == 't' || p[0] == 'f') && ParseValue(fl, p).Some?
    ensures ParseValue(fl, p + s)
         == Some((ParseValue(fl, p).value.0, ParseValue(fl, p).value.1 + s))
  {
    var n := if p[0] == 'f' then 5 else 4;
    assert |p| >= n by {
      assert IntegerEnd(p) == 0;
    }
    assert (p + s)[..n] == p[..n] && (p + s)[n..] == p[n..] + s;
  }

  lemma {:induction false} ObjectExtends(fl: Floats, p: string, s: string)
    requires p != [] && p[0] == '{' && ParseValue(fl, p).Some?
    ensures ParseValue(fl, p + s)
         == Some((ParseValue(fl, p).value.0, ParseValue(fl, p).value.1 + s))
    decreases |p|, 1
  {
    var inner := SkipSpace(p[1..]);
    assert (p + s)[1..] == p[1..] + s;
    SkipSpaceExtends(p[1..], s);
    if inner[0] == '}' {
      assert (inner + s)[1..] == inner[1..] + s;
    } else {
      MembersExtends(fl, inner, s);
    }
  }

  lemma {:induction false} ArrayExtends(fl: Floats, p: string, s: string)
    requires p != [] && p[0] == '[' && ParseValue(fl, p).Some?
    ensures ParseValue(fl, p + s)
         == Some((ParseValue(fl, p).value.0, ParseValue(fl, p).value.1 + s))
    decreases |p|, 1
  {
    var inner := SkipSpace(p[1..]);
    assert (p + s)[1..] == p[1..] + s;
    assert inner != [];
    SkipSpaceExtends(p[1..], s);
    if inner[0] == ']' {
      assert (inner + s)[1..] == inner[1..] + s;
    } else {
      ItemsExtends(fl, inner, s);
    }
  }

  /** After a member or an item comes a space, a comma or a closing bracket. */
  lemma DelimiterStops(rest: string)
    requires SkipSpace(rest) != []
    requires SkipSpace(rest)[0] == ',' || SkipSpace(rest)[0] == '}' || SkipSpace(rest)[0] == ']'
    ensures rest != [] && NumberStops(rest)
  {}

  lemma ColonExtends(p: string, s: string)
    requires SkipSpace(p) != [] && SkipSpace(SkipSpace(p)[1..]) != []
    ensures SkipSpace(p + s) != [] && SkipSpace(p + s)[0] == SkipSpace(p)[0]
    ensures SkipSpace(SkipSpace(p + s)[1..]) == SkipSpace(SkipSpace(p)[1..]) + s
  {
    var colon := SkipSpace(p);
    SkipSpaceExtends(p, s);
    assert (colon + s)[1..] == colon[1..] + s;
    SkipSpaceExtends(colon[1..], s);
  }

  lemma {:induction false} MemberExtends(fl: Floats, p: string, s: string)
    requires ParseMember(fl, p).Some?
    requires var next := ParseMember(fl, p).value.2;
             next != [] && (next[0] == ',' || next[0] == '}')
    ensures var (key, member, next) := ParseMember(fl, p).value;
            ParseMember(fl, p + s) == Some((key, member, next + s))
    decreases |p|, 3
  {
    assert (p + s)[1..] == p[1..] + s;
    var afterKey := ScanString(p[1..]).value.1;
    var colon := SkipSpace(afterKey);
    var body := SkipSpace(colon[1..]);
    var after := ParseValue(fl, body).value.1;
    ScanStringExtends(p[1..], s);
    ValueNonEmpty(fl, body);
    ColonExtends(afterKey, s);
    DelimiterStops(after);
    ValueExtends(fl, body, s);
    SkipSpaceExtends(after, s);
  }

  lemma {:induction false} MembersExtends(fl: Floats, p: string, s: string)
    requires ParseMembers(fl, p).Some?
    ensures ParseMembers(fl, p + s)
         == Some((ParseMembers(fl, p).value.0, ParseMembers(fl, p).value.1 + s))
    decreases |p|, 4
  {
    hide ParseMember, SkipSpace;
    MemberExtends(fl, p, s);
    var next := ParseMember(fl, p).value.2;
    assert (next + s)[1..] == next[1..] + s;
    if next[0] == ',' {
      var more := SkipSpace(next[1..]);
      MembersNonEmpty(fl, more);
      SkipSpaceExtends(next[1..], s);
      MembersExtends(fl, more, s);
    }
  }

  lemma MembersNonEmpty(fl: Floats, p: string)
    requires ParseMembers(fl, p).Some?
    ensures p != []
  {}

  lemma ValueNonEmpty(fl: Floats, p: string)
    requires ParseValue(fl, p).Some?
    ensures p != []
  {}

  lemma {:induction false} ItemsExtends(fl: Floats, p: string, s: string)
    requires ParseItems(fl, p).Some?
    ensures ParseItems(fl, p + s)
         == Some((ParseItems(fl, p).value.0, ParseItems(fl, p).value.1 + s))
    decreases |p|, 3
  {
    var item := ParseValue(fl, p).value;
    var next := SkipSpace(item.1);
    DelimiterStops(item.1);
    ValueExtends(fl, p, s);
    SkipSpaceExtends(item.1, s);
    assert (next + s)[1..] == next[1..] + s;
    if next[0] == ',' {
      var more := SkipSpace(next[1..]);
      ValueNonEmpty(fl, more);
      SkipSpaceExtends(next[1..], s);
      ItemsExtends(fl, more, s);
    }
  }

  /** A printed object cut short is never read as a document. */
  lemma ObjectPrefixRefused(fl: Floats, v: Value, p: string, s: string)
    requires v.Obj? && Valid(fl, v)
    requires Print(v) == p + s && p != [] && s != []
    ensures Loads(fl, p).None?
  {
    assert Print(v)[0] == '{' && (p + s)[0] == p[0];
    assert SkipSpace(p) == p;
    ValueRoundTrip(fl, v, []);
    assert Print(v) + [] == Print(v);
    if ParseValue(fl, p).Some? {
      ObjectExtends(fl, p, s);
    }
  }
}
