/** Percent-encoding of one path segment (section 2.1 of RFC 3986), on bytes. */
module PathEscaping {
  import opened Wrappers
  import opened Sequences

  type Byte = c: char | c as int < 256
  type Text = seq<Byte>

  /** The bytes a path segment keeps: the unreserved ones and $ & + : = @. */
  predicate Plain(c: Byte) {
    'a' <= c <= 'z' || 'A' <= c <= 'Z' || '0' <= c <= '9' || c in {'-', '_', '.', '~', '$', '&', '+', ':', '=', '@'}
  }

  /** What RFC 3986 allows in a path segment besides percent signs (section 3.3): its
      unreserved bytes and subcomponent delimiters, the colon and the at sign. */
  predicate SegmentByte(c: Byte) {
    || 'a' <= c <= 'z' || 'A' <= c <= 'Z' || '0' <= c <= '9' || c in {'-', '.', '_', '~'}
    || c in {'!', '$', '&', '\'', '(', ')', '*', '+', ',', ';', '='} || c in {':', '@'}
  }

  /** What is escaped although a segment could have it. */
  lemma PlainExactly(c: Byte)
    ensures Plain(c) <==> SegmentByte(c) && c !in {'!', '\'', '(', ')', '*', ',', ';'}
  {
  }

  function HexDigit(n: nat): (c: Byte)
    requires n < 16
    ensures '0' <= c <= '9' || 'A' <= c <= 'F'
  {
    if n < 10 then '0' + n as char else 'A' + (n - 10) as char
  }

  function HexValue(c: Byte): Option<nat> {
    if '0' <= c <= '9' then Some(c as int - '0' as int)
    else if 'A' <= c <= 'F' then Some(c as int - 'A' as int + 10)
    else if 'a' <= c <= 'f' then Some(c as int - 'a' as int + 10)
    else None
  }

  function EscapeByte(c: Byte): Text {
    if Plain(c) then [c] else ['%', HexDigit(c as int / 16), HexDigit(c as int % 16)]
  }

  function Escape(s: Text): Text {
    if s == [] then [] else EscapeByte(s[0]) + Escape(s[1..])
  }

  /** None for a malformed escape. */
  function Unescape(s: Text): Option<Text>
    decreases |s|
  {
    if s == [] then Some([])
    else if s[0] != '%' then
      var rest := Unescape(s[1..]);
      if rest.None? then None else Some([s[0]] + rest.value)
    else if |s| < 3 || HexValue(s[1]).None? || HexValue(s[2]).None? then None
    else
      var rest := Unescape(s[3..]);
      if rest.None? then None
      else Some([(16 * HexValue(s[1]).value + HexValue(s[2]).value) as char as Byte] + rest.value)
  }

  lemma HexRoundTrip(c: Byte)
    ensures var n := c as int;
            && HexValue(HexDigit(n / 16)) == Some(n / 16) && HexValue(HexDigit(n % 16)) == Some(n % 16)
            && (16 * (n / 16) + n % 16) as char == c
  {
  }

  /** Unescaping gives back every segment that was escaped. */
  lemma {:induction false} UnescapeOfEscape(s: Text)
    ensures Unescape(Escape(s)) == Some(s)
    decreases |s|
  {
    if s != [] {
      UnescapeOfEscape(s[1..]);
      var c, rest := s[0], Escape(s[1..]);
      assert s == [c] + s[1..];
      if Plain(c) {
        assert Escape(s)[1..] == rest;
      } else {
        HexRoundTrip(c);
        assert Escape(s)[3..] == rest;
      }
    }
  }

  /** What escaping emits: no brace and no slash. */
  lemma {:induction false} EscapeIsPlain(s: Text)
    ensures forall c :: c in Escape(s) ==> Plain(c) || c == '%'
    decreases |s|
  {
    if s != [] {
      EscapeIsPlain(s[1..]);
      assert forall c :: c in Escape(s) ==> c in EscapeByte(s[0]) || c in Escape(s[1..]);
    }
  }
}

/** Named routes and their URLs (route.go). */
module RouteURLs {
  import opened Wrappers
  import opened Sequences
  import opened PathEscaping

  type Params = map<Text, Text>

  datatype Error = UnknownRoute | InvalidPattern | MissingParameter(key: Text)

  const DOTS: Text := "..."

  function IndexOfByte(s: Text, c: Byte): (i: Option<nat>)
    ensures i.None? <==> c !in s
    ensures i.Some? ==> i.value < |s| && s[i.value] == c && c !in s[..i.value]
  {
    if c !in s then None else
      var i := IndexOf(s, c);
      FirstIndex(s, c);
      Some(i)
  }

  lemma FirstIndex(s: Text, c: Byte)
    requires c in s
    ensures c !in s[..IndexOf(s, c)]
  {
    FirstIndexFrom(s, c, 0);
  }

  lemma {:induction false} FirstIndexFrom(s: Text, c: Byte, from: nat)
    requires from <= |s| && c in s[from..]
    ensures from <= IndexFrom(s, c, from) && c !in s[from..IndexFrom(s, c, from)]
    decreases |s| - from
  {
    if s[from] != c {
      FirstIndexFrom(s, c, from + 1);
      var i := IndexFrom(s, c, from + 1);
      assert s[from..i] == [s[from]] + s[from + 1..i];
    }
  }

  predicate HasDots(token: Text) {
    |token| >= 3 && token[|token| - 3..] == DOTS
  }

  function KeyOf(token: Text): Text {
    if HasDots(token) then token[..|token| - 3] else token
  }

  /** strings.Split(s, "/"). */
  function Segments(s: Text): (segments: seq<Text>)
    ensures segments != []
  {
    if s == [] then [[]]
    else
      var rest := Segments(s[1..]);
      if s[0] == '/' then [[]] + rest else [[s[0]] + rest[0]] + rest[1..]
  }

  function Joined(segments: seq<Text>): Text {
    if segments == [] then []
    else if |segments| == 1 then segments[0]
    else segments[0] + ['/'] + Joined(segments[1..])
  }

  function EscapeAll(segments: seq<Text>): (escaped: seq<Text>)
    ensures |escaped| == |segments|
  {
    seq(|segments|, i requires 0 <= i < |segments| => Escape(segments[i]))
  }

  /** The text for a token: a multi-segment wildcard keeps its slashes. */
  function Substituted(token: Text, value: Text): Text {
    if HasDots(token) then Joined(EscapeAll(Segments(value))) else Escape(value)
  }

  /** The first token of a path: the text before it, its own text, and the rest. */
  datatype Found = Nothing | Wrong(err: Error) | Token(before: Text, text: Text, rest: Text)

  function NextToken(path: Text, params: Params): (found: Found)
    ensures found.Token? ==> |found.rest| < |path|
  {
    var start := IndexOfByte(path, '{');
    if start.None? then Nothing
    else
      var from := path[start.value..];
      var close := IndexOfByte(from, '}');
      if close.None? then Wrong(InvalidPattern)
      else
        var token := from[1..close.value];
        if KeyOf(token) !in params then Wrong(MissingParameter(KeyOf(token)))
        else Token(path[..start.value], Substituted(token, params[KeyOf(token)]), from[close.value + 1..])
  }

  /** One left-to-right pass over the pattern. */
  function Expand(pattern: Text, params: Params): Result<Text, Error>
    decreases |pattern|
  {
    match NextToken(pattern, params)
    case Nothing => Ok(pattern)
    case Wrong(err) => Err(err)
    case Token(before, text, rest) =>
      var tail := Expand(rest, params);
      if tail.Err? then tail else Ok(before + text + tail.value)
  }

  function CountOpen(s: Text): nat {
    if s == [] then 0 else (if s[0] == '{' then 1 else 0) + CountOpen(s[1..])
  }

  lemma {:induction false} CountOpenAppend(a: Text, b: Text)
    ensures CountOpen(a + b) == CountOpen(a) + CountOpen(b)
    decreases |a|
  {
    if a == [] {
      assert a + b == b;
    } else {
      assert (a + b)[1..] == a[1..] + b;
      CountOpenAppend(a[1..], b);
    }
  }

  lemma {:induction false} NoOpen(s: Text)
    requires '{' !in s
    ensures CountOpen(s) == 0
    decreases |s|
  {
    if s != [] {
      assert s[0] != '{' && forall c :: c in s[1..] ==> c in s;
      NoOpen(s[1..]);
    }
  }

  lemma {:induction false} JoinedHasNoOpen(segments: seq<Text>)
    requires forall s :: s in segments ==> '{' !in s
    ensures '{' !in Joined(segments)
    decreases segments
  {
    if |segments| > 1 {
      JoinedHasNoOpen(segments[1..]);
    }
  }

  lemma SubstitutedHasNoOpen(token: Text, value: Text)
    ensures '{' !in Substituted(token, value)
  {
    EscapeIsPlain(value);
    forall s | s in EscapeAll(Segments(value)) ensures '{' !in s {
      var i :| 0 <= i < |Segments(value)| && s == Escape(Segments(value)[i]);
      EscapeIsPlain(Segments(value)[i]);
    }
    JoinedHasNoOpen(EscapeAll(Segments(value)));
  }

  lemma NextTokenAfter(prefix: Text, rest: Text, params: Params)
    requires '{' !in prefix
    ensures var found := NextToken(rest, params);
            NextToken(prefix + rest, params) ==
            if found.Token? then Token(prefix + found.before, found.text, found.rest) else found
  {
    hide IndexOfByte, Substituted, KeyOf;
    SameFirst(prefix, rest);
    NoneFound(rest, '{');
    var whole, start := prefix + rest, IndexOfByte(rest, '{');
    if start.Some? {
      assert whole[|prefix| + start.value..] == rest[start.value..];
      assert whole[..|prefix| + start.value] == prefix + rest[..start.value];
    }
  }

  lemma NoneFound(s: Text, c: Byte)
    ensures IndexOfByte(s, c).None? <==> c !in s
  {
  }

  /** Text without an opening brace is carried along. */
  lemma ExpandAfter(prefix: Text, rest: Text, params: Params)
    requires '{' !in prefix
    ensures Expand(prefix + rest, params) ==
            if Expand(rest, params).Err? then Expand(rest, params) else Ok(prefix + Expand(rest, params).value)
  {
    hide NextToken;
    NextTokenAfter(prefix, rest, params);
    var found := NextToken(rest, params);
    if found.Token? && Expand(found.rest, params).Ok? {
      var tail := Expand(found.rest, params).value;
      assert prefix + found.before + found.text + tail == prefix + (found.before + found.text + tail);
    }
  }

  lemma SameFirst(prefix: Text, rest: Text)
    requires '{' !in prefix
    ensures IndexOfByte(prefix + rest, '{') ==
            if '{' in rest then Some(|prefix| + IndexOfByte(rest, '{').value) else None
  {
    var whole := prefix + rest;
    if '{' in rest {
      var j := IndexOfByte(rest, '{').value;
      assert whole[..|prefix| + j] == prefix + rest[..j];
      assert whole[0..] == whole && whole[0..|prefix| + j] == whole[..|prefix| + j];
      IndexFromIs(whole, '{', 0, |prefix| + j);
    }
  }

  lemma {:induction false} IndexFromIs(s: Text, c: Byte, from: nat, k: nat)
    requires from <= k < |s| && s[k] == c && c !in s[from..k]
    ensures c in s[from..] && IndexFrom(s, c, from) == k
    decreases k - from
  {
    assert s[from..][k - from] == c;
    if from < k {
      assert s[from..k][0] == s[from] && s[from + 1..k] == s[from..k][1..];
      IndexFromIs(s, c, from + 1, k);
    }
  }

  /** Rescanning after a substitution gives what going on from it would: the text
      put in has no brace to find. There are fewer braces each time. */
  lemma RescanIsExpand(path: Text, params: Params)
    requires NextToken(path, params).Token?
    ensures var found := NextToken(path, params);
            var path' := found.before + found.text + found.rest;
            Expand(path', params) == Expand(path, params) && CountOpen(path') < CountOpen(path)
  {
    hide Substituted, KeyOf, IndexOfByte;
    var found := NextToken(path, params);
    var start := IndexOfByte(path, '{').value;
    var from := path[start..];
    var close := IndexOfByte(from, '}').value;
    var token := from[1..close];
    SubstitutedHasNoOpen(token, params[KeyOf(token)]);
    FoundBefore(path, '{');
    ExpandAfter(found.before + found.text, found.rest, params);
    CountOpenAppend(found.before + found.text, found.rest);
    NoOpen(found.before + found.text);
    CountToken(path, start, close);
  }

  lemma FoundBefore(s: Text, c: Byte)
    requires IndexOfByte(s, c).Some?
    ensures c !in s[..IndexOfByte(s, c).value]
  {
  }

  lemma CountToken(path: Text, start: nat, close: nat)
    requires start < |path| && path[start] == '{' && start + close < |path|
    ensures CountOpen(path[start..][close + 1..]) < CountOpen(path)
  {
    var from := path[start..];
    assert path == path[..start] + from && from == [from[0]] + from[1..];
    assert from == from[..close + 1] + from[close + 1..];
    CountOpenAppend(path[..start], from);
    CountOpenAppend(from[..close + 1], from[close + 1..]);
    assert CountOpen(from[..close + 1]) > 0;
  }

  /** URL: the loop substitutes the first token and starts over. */
  method URL(routes: map<Text, Text>, name: Text, params: Params) returns (r: Result<Text, Error>)
    ensures r == if name in routes then Expand(routes[name], params) else Err(UnknownRoute)
  {
    if name !in routes {
      return Err(UnknownRoute);
    }
    var path := routes[name];
    while true
      invariant Expand(path, params) == Expand(routes[name], params)
      decreases CountOpen(path)
    {
      var start := IndexOfByte(path, '{');
      if start.None? {
        return Ok(path);
      }
      var endOffset := IndexOfByte(path[start.value..], '}');
      if endOffset.None? {
        return Err(InvalidPattern);
      }
      var end := start.value + endOffset.value;
      var token := path[start.value + 1..end];
      assert token == path[start.value..][1..endOffset.value];
      assert path[end + 1..] == path[start.value..][endOffset.value + 1..];
      var key := KeyOf(token);
      if key !in params {
        return Err(MissingParameter(key));
      }
      var escaped := Substituted(token, params[key]);
      RescanIsExpand(path, params);
      path := path[..start.value] + escaped + path[end + 1..];
    }
  }

  // ----- what the segments of a URL are

  predicate Literal(segment: Text) {
    '{' !in segment && '/' !in segment
  }

  /** A single-segment wildcard. */
  predicate Wildcard(segment: Text) {
    && |segment| >= 2 && segment[0] == '{' && segment[|segment| - 1] == '}'
    && '{' !in Inner(segment) && '}' !in Inner(segment) && !HasDots(Inner(segment))
  }

  function Inner(segment: Text): Text
    requires |segment| >= 2
  {
    segment[1..|segment| - 1]
  }

  /** A pattern of literal segments and single-segment wildcards with parameters. */
  ghost predicate Fillable(segments: seq<Text>, params: Params) {
    forall s :: s in segments ==> Literal(s) || (Wildcard(s) && Inner(s) in params)
  }

  function FilledOne(segment: Text, params: Params): Text {
    if Wildcard(segment) && Inner(segment) in params then Escape(params[Inner(segment)]) else segment
  }

  function Filled(segments: seq<Text>, params: Params): (filled: seq<Text>)
    ensures |filled| == |segments|
  {
    seq(|segments|, i requires 0 <= i < |segments| => FilledOne(segments[i], params))
  }

  lemma ExpandWildcard(segment: Text, rest: Text, params: Params)
    requires Wildcard(segment) && Inner(segment) in params
    ensures NextToken(segment + rest, params) == Token([], Escape(params[Inner(segment)]), rest)
  {
    var path, k := segment + rest, |segment| - 1;
    IndexFromIs(path, '{', 0, 0);
    assert path[0..] == path;
    assert path[0..k] == [segment[0]] + Inner(segment);
    IndexFromIs(path, '}', 0, k);
    assert path[1..k] == Inner(segment) && path[k + 1..] == rest;
  }

  lemma ExpandOne(segment: Text, rest: Text, params: Params)
    requires Literal(segment) || (Wildcard(segment) && Inner(segment) in params)
    ensures Expand(rest, params).Ok? ==>
              Expand(segment + rest, params) == Ok(FilledOne(segment, params) + Expand(rest, params).value)
  {
    if Wildcard(segment) && Inner(segment) in params {
      hide NextToken;
      ExpandWildcard(segment, rest, params);
      assert [] + Escape(params[Inner(segment)]) == Escape(params[Inner(segment)]);
    } else {
      ExpandAfter(segment, rest, params);
    }
  }

  lemma {:induction false} ExpandIsFilled(segments: seq<Text>, params: Params)
    requires segments != [] && Fillable(segments, params)
    ensures Expand(Joined(segments), params) == Ok(Joined(Filled(segments, params)))
    decreases segments
  {
    hide FilledOne, Literal, Wildcard, NextToken;
    var first := segments[0];
    if |segments| == 1 {
      NothingToExpand(params);
      ExpandOne(first, [], params);
      assert first + [] == first && FilledOne(first, params) + [] == FilledOne(first, params);
    } else {
      ExpandIsFilled(segments[1..], params);
      var tail := Joined(segments[1..]);
      ExpandAfter(['/'], tail, params);
      ExpandOne(first, ['/'] + tail, params);
      assert first + ['/'] + tail == first + (['/'] + tail);
      assert Filled(segments, params)[1..] == Filled(segments[1..], params);
      var filled := Joined(Filled(segments[1..], params));
      assert FilledOne(first, params) + (['/'] + filled) == FilledOne(first, params) + ['/'] + filled;
    }
  }

  lemma NothingToExpand(params: Params)
    ensures Expand([], params) == Ok([])
  {
  }

  lemma {:induction false} SegmentsAppend(a: Text, b: Text)
    requires '/' !in a
    ensures Segments(a + (['/'] + b)) == [a] + Segments(b)
    decreases |a|
  {
    if a == [] {
      assert a + (['/'] + b) == ['/'] + b && (['/'] + b)[1..] == b;
    } else {
      assert (a + (['/'] + b))[1..] == a[1..] + (['/'] + b);
      SegmentsAppend(a[1..], b);
      assert [a[0]] + a[1..] == a;
    }
  }

  lemma {:induction false} SegmentsOne(a: Text)
    requires '/' !in a
    ensures Segments(a) == [a]
    decreases |a|
  {
    if a != [] {
      SegmentsOne(a[1..]);
      assert [a[0]] + a[1..] == a;
    }
  }

  lemma {:induction false} SegmentsOfJoined(segments: seq<Text>)
    requires segments != [] && forall s :: s in segments ==> '/' !in s
    ensures Segments(Joined(segments)) == segments
    decreases segments
  {
    if |segments| == 1 {
      SegmentsOne(segments[0]);
    } else {
      SegmentsOfJoined(segments[1..]);
      SegmentsAppend(segments[0], Joined(segments[1..]));
      assert segments[0] + ['/'] + Joined(segments[1..]) == segments[0] + (['/'] + Joined(segments[1..]));
      assert segments == [segments[0]] + segments[1..];
    }
  }

  /** The segments of a URL are the pattern's: the literal ones as they are, and in
      place of each single-segment wildcard one that unescapes to its parameter. */
  lemma SegmentsAreParameters(segments: seq<Text>, params: Params)
    requires segments != [] && Fillable(segments, params)
    ensures var url := Expand(Joined(segments), params);
            && url.Ok? && |Segments(url.value)| == |segments|
            && forall i :: 0 <= i < |segments| ==>
                 if Wildcard(segments[i]) then
                   Unescape(Segments(url.value)[i]) == Some(params[Inner(segments[i])])
                 else Segments(url.value)[i] == segments[i]
  {
    hide Expand, Segments, Unescape, Escape;
    ExpandIsFilled(segments, params);
    forall i | 0 <= i < |segments| ensures '/' !in FilledOne(segments[i], params) {
      assert segments[i] in segments;
      if Wildcard(segments[i]) {
        EscapeIsPlain(params[Inner(segments[i])]);
        UnescapeOfEscape(params[Inner(segments[i])]);
      }
    }
    SegmentsOfJoined(Filled(segments, params));
    forall i | 0 <= i < |segments| && Wildcard(segments[i])
      ensures Unescape(FilledOne(segments[i], params)) == Some(params[Inner(segments[i])])
    {
      assert segments[i] in segments && !Literal(segments[i]);
      UnescapeOfEscape(params[Inner(segments[i])]);
    }
  }

  /** A multi-segment wildcard becomes as many segments as its value has, and they
      unescape to them. */
  lemma MultiSegmentsAreParameters(token: Text, value: Text)
    requires HasDots(token)
    ensures var url := Segments(Substituted(token, value));
            && |url| == |Segments(value)|
            && forall i :: 0 <= i < |url| ==> Unescape(url[i]) == Some(Segments(value)[i])
  {
    var parts := Segments(value);
    forall i | 0 <= i < |parts| ensures '/' !in Escape(parts[i]) && Unescape(Escape(parts[i])) == Some(parts[i]) {
      EscapeIsPlain(parts[i]);
      UnescapeOfEscape(parts[i]);
    }
    SegmentsOfJoined(EscapeAll(parts));
  }
}

/** The names of routes (route.go): each name belongs to one route, each route has
    at most one name. */
module RouteNames {
  import opened WhiteSpace

  type Route = nat

  class App {
    var namedRoutes: map<string, Route>
    var nameOf: map<Route, string>

    ghost predicate Valid()
      reads this
    {
      && (forall n :: n in namedRoutes ==> namedRoutes[n] in nameOf && nameOf[namedRoutes[n]] == n)
      && (forall r :: r in nameOf ==> nameOf[r] in namedRoutes && namedRoutes[nameOf[r]] == r)
    }

    constructor ()
      ensures Valid() && namedRoutes == map[] && nameOf == map[]
    {
      namedRoutes, nameOf := map[], map[];
    }

    /** Named. It panics on an empty name and on one another route has; a second name
        for a route replaces its first. */
    method Named(route: Route, given: string) returns (panicked: bool)
      requires Valid()
      modifies this
      ensures Valid()
      ensures panicked <==> Trim(given) == "" ||
                            (Trim(given) in old(namedRoutes) && old(namedRoutes)[Trim(given)] != route)
      ensures nameOf == if panicked then old(nameOf) else old(nameOf)[route := Trim(given)]
    {
      var name := Trim(given);
      if name == "" || (name in namedRoutes && namedRoutes[name] != route) {
        return true;
      }
      var others := if route in nameOf then namedRoutes - {nameOf[route]} else namedRoutes;
      namedRoutes, nameOf := others[name := route], nameOf[route := name];
      return false;
    }
  }
}
