/**
  Reading a value at a path of a JSON document (projection/catalog_fixture.go): dotted payload paths and JSON pointers
  as in sections 3 and 4 of RFC 6901.
 */
module FixturePath {
  import opened Common

  datatype Json = Object(fields: map<string, Json>) | Array(items: seq<Json>) | Scalar(text: string)

  // ----------------------------------------------------------- text helpers

  /** strings.ReplaceAll of a two-character pattern by one character. */
  function ReplacePair(s: string, a: char, b: char, with: char): string {
    if |s| >= 2 && s[0] == a && s[1] == b then [with] + ReplacePair(s[2..], a, b, with)
    else if s == "" then ""
    else [s[0]] + ReplacePair(s[1..], a, b, with)
  }

  /** strings.ReplaceAll of one character by a text. */
  function ReplaceChar(s: string, c: char, with: string): string {
    if s == "" then "" else (if s[0] == c then with else [s[0]]) + ReplaceChar(s[1..], c, with)
  }

  /** The code's decoding of one pointer segment: first every ~1, then every ~0. */
  function DecodeSegment(s: string): string {
    ReplacePair(ReplacePair(s, '~', '1', '/'), '~', '0', '~')
  }

  /** The two passes of RFC 6901 the other way round: first every ~, then every /. */
  function EncodeSegment(s: string): string {
    ReplaceChar(ReplaceChar(s, '~', "~0"), '/', "~1")
  }

  /** The characters of a segment encoded one by one. */
  function Escaped(s: string): string {
    if s == "" then ""
    else (if s[0] == '~' then "~0" else if s[0] == '/' then "~1" else [s[0]]) + Escaped(s[1..])
  }

  /** Decoding in a single pass from the left. */
  function Unescaped(s: string): string {
    if s == "" then ""
    else if |s| >= 2 && s[0] == '~' && s[1] == '1' then ['/'] + Unescaped(s[2..])
    else if |s| >= 2 && s[0] == '~' && s[1] == '0' then ['~'] + Unescaped(s[2..])
    else [s[0]] + Unescaped(s[1..])
  }

  lemma {:induction false} ReplaceCharConcat(s: string, t: string, c: char, with: string)
    ensures ReplaceChar(s + t, c, with) == ReplaceChar(s, c, with) + ReplaceChar(t, c, with)
    decreases |s|
  {
    if s == "" {
      assert s + t == t;
    } else {
      assert (s + t)[1..] == s[1..] + t;
      ReplaceCharConcat(s[1..], t, c, with);
    }
  }

  lemma {:induction false} EncodingIsEscaping(s: string)
    ensures EncodeSegment(s) == Escaped(s)
    decreases |s|
  {
    if s != "" {
      EncodingIsEscaping(s[1..]);
      var head := if s[0] == '~' then "~0" else [s[0]];
      ReplaceCharConcat(head, ReplaceChar(s[1..], '~', "~0"), '/', "~1");
      if s[0] == '~' {
        ReplaceCharConcat("~", "0", '/', "~1");
        assert ReplaceChar("~", '/', "~1") == "~" && ReplaceChar("0", '/', "~1") == "0";
        assert "~" + "0" == "~0";
      }
    }
  }

  lemma {:induction false} EscapedHasNoSlash(s: string)
    ensures '/' !in Escaped(s)
    decreases |s|
  {
    if s != "" { EscapedHasNoSlash(s[1..]); }
  }

  lemma FirstPassOnTilde(t: string)
    ensures ReplacePair("~0" + t, '~', '1', '/') == "~0" + ReplacePair(t, '~', '1', '/')
  {
    assert ("~0" + t)[1..] == "0" + t && ("0" + t)[1..] == t;
    assert ReplacePair("~0" + t, '~', '1', '/') == ['~'] + ReplacePair("0" + t, '~', '1', '/');
    assert ReplacePair("0" + t, '~', '1', '/') == ['0'] + ReplacePair(t, '~', '1', '/');
  }

  /** The first pass turns ~1 into / and leaves ~0 alone. */
  lemma {:induction false} FirstPass(s: string)
    ensures ReplacePair(Escaped(s), '~', '1', '/') == ReplaceChar(s, '~', "~0")
    decreases |s|
  {
    if s != "" {
      FirstPass(s[1..]);
      if s[0] == '~' {
        FirstPassOnTilde(Escaped(s[1..]));
      } else if s[0] == '/' {
        assert Escaped(s)[2..] == Escaped(s[1..]);
      } else {
        assert Escaped(s)[1..] == Escaped(s[1..]);
      }
    }
  }

  lemma {:induction false} SecondPass(s: string)
    ensures ReplacePair(ReplaceChar(s, '~', "~0"), '~', '0', '~') == s
    decreases |s|
  {
    if s != "" {
      SecondPass(s[1..]);
      var e := ReplaceChar(s, '~', "~0");
      if s[0] == '~' {
        assert e[2..] == ReplaceChar(s[1..], '~', "~0");
      } else {
        assert e[1..] == ReplaceChar(s[1..], '~', "~0");
      }
    }
  }

  /** Decoding undoes encoding, for every segment. */
  lemma DecodeUndoesEncode(s: string)
    ensures DecodeSegment(EncodeSegment(s)) == s
  {
    EncodingIsEscaping(s);
    FirstPass(s);
    SecondPass(s);
  }

  /** On every text, well formed or not, the two passes do what one pass from the left does. */
  lemma {:induction false} TwoPassesAreOne(s: string)
    ensures DecodeSegment(s) == Unescaped(s)
    decreases |s|
  {
    if s == "" {
    } else if |s| >= 2 && s[0] == '~' && s[1] == '1' {
      TwoPassesAreOne(s[2..]);
      var rest := ReplacePair(s[2..], '~', '1', '/');
      assert (['/'] + rest)[1..] == rest;
    } else if |s| >= 2 && s[0] == '~' && s[1] == '0' {
      TwoPassesAreOne(s[2..]);
      var rest := ReplacePair(s[2..], '~', '1', '/');
      assert s[1..][1..] == s[2..];
      assert ReplacePair(s[1..], '~', '1', '/') == ['0'] + rest;
      assert (['~'] + (['0'] + rest))[2..] == rest;
    } else {
      TwoPassesAreOne(s[1..]);
      var rest := ReplacePair(s[1..], '~', '1', '/');
      assert (([s[0]] + rest))[1..] == rest;
      if s[0] == '~' && |s| >= 2 { FirstPassKeepsHead(s[1..]); }
    }
  }

  /** A ~0 after the first pass was there before. */
  lemma FirstPassKeepsHead(s: string)
    requires s != "" && s[0] != '0'
    ensures ReplacePair(s, '~', '1', '/') != "" && ReplacePair(s, '~', '1', '/')[0] != '0'
  {
  }

  // ---------------------------------------------------------------- segments

  /** strings.Split at a separator character: one segment more than there are separators. */
  function Split(s: string, sep: char): (r: seq<string>)
    ensures r != []
  {
    if s == "" then [""]
    else
      var rest := Split(s[1..], sep);
      if s[0] == sep then [""] + rest else [[s[0]] + rest[0]] + rest[1..]
  }

  function Joined(segments: seq<string>, sep: char): string {
    if segments == [] then ""
    else if |segments| == 1 then segments[0]
    else segments[0] + [sep] + Joined(segments[1..], sep)
  }

  lemma {:induction false} SplitAfterFirst(segment: string, rest: string, sep: char)
    requires sep !in segment
    ensures Split(segment + [sep] + rest, sep) == [segment] + Split(rest, sep)
    decreases |segment|
  {
    var s := segment + [sep] + rest;
    if segment == "" {
      assert s[1..] == rest;
    } else {
      assert s[1..] == segment[1..] + [sep] + rest;
      SplitAfterFirst(segment[1..], rest, sep);
      assert [segment[0]] + segment[1..] == segment;
    }
  }

  lemma {:induction false} SplitOfOne(segment: string, sep: char)
    requires sep !in segment
    ensures Split(segment, sep) == [segment]
    decreases |segment|
  {
    if segment != "" {
      SplitOfOne(segment[1..], sep);
      assert [segment[0]] + segment[1..] == segment;
    }
  }

  /** Splitting undoes joining, so different segment lists have different paths. */
  lemma {:induction false} SplitUndoesJoin(segments: seq<string>, sep: char)
    requires segments != [] && forall s :: s in segments ==> sep !in s
    ensures Split(Joined(segments, sep), sep) == segments
    decreases |segments|
  {
    if |segments| == 1 {
      SplitOfOne(segments[0], sep);
    } else {
      SplitUndoesJoin(segments[1..], sep);
      SplitAfterFirst(segments[0], Joined(segments[1..], sep), sep);
    }
  }

  /** Joining undoes splitting, so different paths have different segment lists. */
  lemma {:induction false} JoinUndoesSplit(s: string, sep: char)
    ensures Joined(Split(s, sep), sep) == s
    decreases |s|
  {
    if s != "" {
      JoinUndoesSplit(s[1..], sep);
      var rest := Split(s[1..], sep);
      assert s == [s[0]] + s[1..];
      if s[0] != sep && |rest| > 1 {
        assert ([[s[0]] + rest[0]] + rest[1..])[1..] == rest[1..];
        assert [s[0]] + (rest[0] + [sep] + Joined(rest[1..], sep))
               == ([s[0]] + rest[0]) + [sep] + Joined(rest[1..], sep);
      }
    }
  }

  // ---------------------------------------------------------------- reading

  predicate IsDigits(s: string) {
    s != "" && forall i :: 0 <= i < |s| ==> '0' <= s[i] <= '9'
  }

  function DigitsValue(s: string): nat
    requires s == "" || IsDigits(s)
  {
    if s == "" then 0 else 10 * DigitsValue(s[..|s| - 1]) + (Last(s) as int - '0' as int)
  }

  /** strconv.Atoi: an optional sign and decimal digits; too large a number is out of every array's range anyway. */
  function Atoi(s: string): Option<int> {
    var digits := if s != "" && (s[0] == '-' || s[0] == '+') then s[1..] else s;
    if !IsDigits(digits) then None
    else
      var n: int := DigitsValue(digits);
      Some(if s[0] == '-' then -n else n)
  }

  /** One step down: a field of an object, an element of an array, nothing of a scalar. */
  function Child(value: Json, segment: string): Option<Json> {
    match value
    case Object(fields) => Lookup(fields, segment)
    case Array(items) =>
      if Atoi(segment).Some? && 0 <= Atoi(segment).value < |items| then Some(items[Atoi(segment).value]) else None
    case Scalar(_) => None
  }

  /** A number in decimal digits, without leading zeros. */
  function Decimal(n: nat): string {
    (if n < 10 then "" else Decimal(n / 10)) + [('0' as int + n % 10) as char]
  }

  lemma DigitAppended(front: string, d: nat)
    requires (front == "" || IsDigits(front)) && d < 10
    ensures var s := front + [('0' as int + d) as char];
            IsDigits(s) && DigitsValue(s) == 10 * DigitsValue(front) + d
  {
    var s := front + [('0' as int + d) as char];
    assert s[..|s| - 1] == front;
  }

  lemma {:induction false} DecimalReads(n: nat)
    ensures IsDigits(Decimal(n)) && DigitsValue(Decimal(n)) == n
    decreases n
  {
    if n < 10 {
      assert n % 10 == n && Decimal(n) == "" + [('0' as int + n) as char];
      DigitAppended("", n);
    } else {
      DecimalReads(n / 10);
      DigitAppended(Decimal(n / 10), n % 10);
    }
  }

  lemma {:induction false} LeadingZero(s: string)
    requires IsDigits(s)
    ensures IsDigits("0" + s) && DigitsValue("0" + s) == DigitsValue(s)
    decreases |s|
  {
    var t := "0" + s;
    if |s| == 1 {
      assert t[..1] == "0" && Last(t) == s[0] && s[..0] == "";
      assert DigitsValue("0") == 0 by { assert "0"[..0] == ""; }
    } else {
      LeadingZero(s[..|s| - 1]);
      assert t[..|t| - 1] == "0" + s[..|s| - 1] && Last(t) == Last(s);
    }
  }

  /** An optional sign, and digits. */
  lemma AtoiReads(digits: string)
    requires IsDigits(digits)
    ensures Atoi(digits) == Some(DigitsValue(digits))
    ensures Atoi("+" + digits) == Some(DigitsValue(digits))
    ensures Atoi("-" + digits).Some? && Atoi("-" + digits).value + DigitsValue(digits) == 0
  {
    assert ("+" + digits)[1..] == digits && ("-" + digits)[1..] == digits;
  }

  /**
    The segment i of an array leads to its element i, also with a plus sign; a number beyond the array or a negative
    number leads nowhere.
   */
  lemma ElementsAreReached(items: seq<Json>, i: nat)
    ensures Child(Array(items), Decimal(i)) == if i < |items| then Some(items[i]) else None
    ensures Child(Array(items), "+" + Decimal(i)) == Child(Array(items), Decimal(i))
    ensures i > 0 ==> Child(Array(items), "-" + Decimal(i)) == None
  {
    DecimalReads(i);
    AtoiReads(Decimal(i));
  }

  /** Leading zeros do not matter. */
  lemma ZerosAreIgnored(items: seq<Json>, digits: string)
    requires IsDigits(digits)
    ensures Child(Array(items), "0" + digits) == Child(Array(items), digits)
  {
    LeadingZero(digits);
    AtoiReads(digits);
    AtoiReads("0" + digits);
  }

  /** The value that a list of segments leads to. */
  function Reached(value: Json, segments: seq<string>): Option<Json> {
    if segments == [] then Some(value)
    else
      match Child(value, segments[0])
      case None => None
      case Some(child) => Reached(child, segments[1..])
  }

  method Traverse(value: Json, segments: seq<string>) returns (r: Option<Json>)
    ensures r == Reached(value, segments)
  {
    var current := value;
    for i := 0 to |segments|
      invariant Reached(value, segments) == Reached(current, segments[i..])
    {
      assert segments[i..][1..] == segments[i + 1..];
      match Child(current, segments[i])
      case None => return None;
      case Some(child) => current := child;
    }
    assert segments[|segments|..] == [];
    return Some(current);
  }

  function DecodedAll(segments: seq<string>): (r: seq<string>)
    ensures |r| == |segments|
  {
    if segments == [] then [] else [DecodeSegment(segments[0])] + DecodedAll(segments[1..])
  }

  /** A source path: "payload." and dotted segments, or a JSON pointer; nothing else resolves. */
  function Resolved(root: Json, path: string): Option<Json> {
    if "payload." <= path then
      if root.Object? && "payload" in root.fields then Reached(root.fields["payload"], Split(path[8..], '.')) else None
    else if "/" <= path then Reached(root, DecodedAll(Split(path[1..], '/')))
    else None
  }

  method DecodeEach(encoded: seq<string>) returns (segments: seq<string>)
    ensures segments == DecodedAll(encoded)
  {
    segments := encoded;
    for i := 0 to |encoded|
      invariant |segments| == |encoded| && segments[..i] + DecodedAll(segments[i..]) == DecodedAll(encoded)
    {
      ghost var before := segments;
      segments := segments[i := DecodeSegment(segments[i])];
      assert before[i..][1..] == segments[i + 1..];
      assert segments[..i + 1] == before[..i] + [DecodeSegment(before[i])];
      assert DecodedAll(before[i..]) == [DecodeSegment(before[i])] + DecodedAll(segments[i + 1..]);
    }
    assert segments[..|encoded|] + DecodedAll([]) == segments;
  }

  method Resolve(root: Json, path: string) returns (r: Option<Json>)
    ensures r == Resolved(root, path)
  {
    if "payload." <= path {
      if !root.Object? || "payload" !in root.fields { return None; }
      r := Traverse(root.fields["payload"], Split(path[8..], '.'));
      return;
    }
    if "/" <= path {
      var segments := DecodeEach(Split(path[1..], '/'));
      r := Traverse(root, segments);
      return;
    }
    return None;
  }

  function EncodedAll(segments: seq<string>): (r: seq<string>)
    ensures |r| == |segments| && forall s :: s in r ==> '/' !in s
  {
    if segments == [] then []
    else
      EncodingIsEscaping(segments[0]);
      EscapedHasNoSlash(segments[0]);
      [EncodeSegment(segments[0])] + EncodedAll(segments[1..])
  }

  lemma {:induction false} DecodeAllUndoesEncodeAll(segments: seq<string>)
    ensures DecodedAll(EncodedAll(segments)) == segments
    decreases |segments|
  {
    if segments != [] {
      DecodeUndoesEncode(segments[0]);
      DecodeAllUndoesEncodeAll(segments[1..]);
      assert EncodedAll(segments)[1..] == EncodedAll(segments[1..]);
    }
  }

  /** A pointer made from any segments, whatever characters they contain, resolves to what the segments lead to. */
  lemma PointersResolve(root: Json, segments: seq<string>)
    requires segments != []
    ensures Resolved(root, "/" + Joined(EncodedAll(segments), '/')) == Reached(root, segments)
  {
    var path := "/" + Joined(EncodedAll(segments), '/');
    assert path[0] == '/' && path[1..] == Joined(EncodedAll(segments), '/');
    SplitUndoesJoin(EncodedAll(segments), '/');
    DecodeAllUndoesEncodeAll(segments);
  }

  /** A dotted path resolves to what its segments lead to in the payload. */
  lemma DottedPathsResolve(root: Json, segments: seq<string>)
    requires segments != [] && forall s :: s in segments ==> '.' !in s
    ensures Resolved(root, "payload." + Joined(segments, '.'))
            == if root.Object? then Reached(root, ["payload"] + segments) else None
  {
    var path := "payload." + Joined(segments, '.');
    assert path[8..] == Joined(segments, '.');
    SplitUndoesJoin(segments, '.');
    assert (["payload"] + segments)[1..] == segments;
  }
}
