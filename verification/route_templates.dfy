/**
  The URL of a pattern (route.go), by what the pattern is: literal text and wildcards, and
  at the end more literal text or a brace that is never closed.
  */
module RouteTemplates {
  import opened Wrappers
  import opened PathEscaping
  import opened RouteURLs

  /** A wildcard, `{key}` or `{key...}`. */
  datatype Wild = Single(key: Text) | Multi(key: Text)

  /** Literal text and the wildcard after it. */
  datatype Piece = Piece(before: Text, wild: Wild)

  datatype Ending = Plain(text: Text) | Unclosed(text: Text, open: Text)

  datatype Template = Template(pieces: seq<Piece>, ending: Ending)

  function Source(w: Wild): Text {
    match w
    case Single(key) => key
    case Multi(key) => key + ['.', '.', '.']
  }

  predicate Ends(text: Text, with: Text) {
    |text| >= |with| && text[|text| - |with|..] == with
  }

  predicate SoundPiece(p: Piece) {
    '{' !in p.before && '}' !in p.wild.key && (p.wild.Single? ==> !Ends(p.wild.key, ['.', '.', '.']))
  }

  ghost predicate Sound(t: Template) {
    && (forall p :: p in t.pieces ==> SoundPiece(p))
    && '{' !in t.ending.text && (t.ending.Unclosed? ==> '}' !in t.ending.open)
  }

  function Written(pieces: seq<Piece>, ending: Ending): Text {
    if pieces == [] then
      match ending
      case Plain(text) => text
      case Unclosed(text, open) => text + (['{'] + open)
    else WrittenOne(pieces[0], Written(pieces[1..], ending))
  }

  function WrittenOne(p: Piece, rest: Text): Text {
    p.before + (['{'] + (Source(p.wild) + (['}'] + rest)))
  }

  lemma CutAt(s: Text, i: nat)
    requires i < |s|
    ensures s == s[..i] + ([s[i]] + s[i + 1..])
  {
  }

  /** Every pattern is one. */
  lemma {:induction false} EveryPatternIsTemplate(pattern: Text) returns (t: Template)
    ensures Sound(t) && Written(t.pieces, t.ending) == pattern
    decreases |pattern|
  {
    hide IndexOfByte;
    BraceOrNone(pattern, '{');
    var start := IndexOfByte(pattern, '{');
    if start.None? {
      t := Template([], Plain(pattern));
    } else {
      CutAt(pattern, start.value);
      var inner := pattern[start.value + 1..];
      BraceOrNone(inner, '}');
      var close := IndexOfByte(inner, '}');
      if close.None? {
        t := Template([], Unclosed(pattern[..start.value], inner));
      } else {
        CutAt(inner, close.value);
        t := EveryPatternIsTemplate(inner[close.value + 1..]);
        var piece := PieceOf(pattern[..start.value], inner[..close.value]);
        t := Prepended(piece, t);
      }
    }
  }

  lemma BraceOrNone(s: Text, c: Byte)
    ensures var i := IndexOfByte(s, c);
            if i.None? then c !in s else i.value < |s| && s[i.value] == c && c !in s[..i.value]
  {
  }

  lemma PieceOf(before: Text, token: Text) returns (p: Piece)
    requires '{' !in before && '}' !in token
    ensures SoundPiece(p) && p.before == before && Source(p.wild) == token
  {
    var wild := if Ends(token, ['.', '.', '.']) then Multi(token[..|token| - 3]) else Single(token);
    p := Piece(before, wild);
  }

  lemma Prepended(p: Piece, rest: Template) returns (t: Template)
    requires SoundPiece(p) && Sound(rest)
    ensures Sound(t) && Written(t.pieces, t.ending) == WrittenOne(p, Written(rest.pieces, rest.ending))
  {
    hide SoundPiece, WrittenOne;
    t := Template([p] + rest.pieces, rest.ending);
    assert t.pieces[1..] == rest.pieces;
  }

  // ----- its URL

  /** What stands for a wildcard: the escaped value, a multi-segment one with its slashes. */
  function ValueOf(w: Wild, value: Text): Text {
    match w
    case Single(_) => Escape(value)
    case Multi(_) => Joined(EscapeAll(Segments(value)))
  }

  function Filled(pieces: seq<Piece>, params: Params): Text
    requires forall p :: p in pieces ==> p.wild.key in params
  {
    if pieces == [] then []
    else pieces[0].before + ValueOf(pieces[0].wild, params[pieces[0].wild.key]) + Filled(pieces[1..], params)
  }

  /** What the URL is to be: an error for the first wildcard without a parameter, or for
      the brace that is not closed; and otherwise the text with every wildcard filled. */
  ghost predicate IsURL(t: Template, params: Params, r: Result<Text, Error>) {
    match r
    case Ok(url) =>
      && (forall p :: p in t.pieces ==> p.wild.key in params) && t.ending.Plain?
      && url == Filled(t.pieces, params) + t.ending.text
    case Err(MissingParameter(key)) =>
      exists i :: 0 <= i < |t.pieces| && t.pieces[i].wild.key == key && MissesFirst(t.pieces, params, i)
    case Err(InvalidPattern) => (forall p :: p in t.pieces ==> p.wild.key in params) && t.ending.Unclosed?
    case Err(UnknownRoute) => false
  }

  predicate MissesFirst(pieces: seq<Piece>, params: Params, i: nat)
    requires i < |pieces|
  {
    pieces[i].wild.key !in params && forall j :: 0 <= j < i ==> pieces[j].wild.key in params
  }

  lemma SourceIsToken(w: Wild)
    requires w.Single? ==> !Ends(w.key, ['.', '.', '.'])
    ensures KeyOf(Source(w)) == w.key
    ensures forall value :: Substituted(Source(w), value) == ValueOf(w, value)
  {
    assert DOTS == ['.', '.', '.'];
    if w.Multi? {
      assert (w.key + DOTS)[|w.key|..] == DOTS;
    }
  }

  lemma PieceIsNext(p: Piece, rest: Text, params: Params)
    requires SoundPiece(p)
    ensures NextToken(WrittenOne(p, rest), params) ==
            if p.wild.key in params then Token(p.before, ValueOf(p.wild, params[p.wild.key]), rest)
            else Wrong(MissingParameter(p.wild.key))
  {
    hide NextToken, KeyOf, Substituted, ValueOf;
    SourceIsToken(p.wild);
    NoBraceIn(p.wild);
    NextTokenIs(p.before, Source(p.wild), rest, params);
  }

  lemma NextTokenIs(before: Text, token: Text, rest: Text, params: Params)
    requires '{' !in before && '}' !in token
    ensures NextToken(before + (['{'] + (token + (['}'] + rest))), params) ==
            if KeyOf(token) in params then Token(before, Substituted(token, params[KeyOf(token)]), rest)
            else Wrong(MissingParameter(KeyOf(token)))
  {
    hide KeyOf, Substituted, IndexOfByte;
    var from := ['{'] + (token + (['}'] + rest));
    FoundAt(before, '{', token + (['}'] + rest));
    CloseAt(token, rest);
    TokenOf(token, rest);
    AfterAndBefore(before, from);
  }

  lemma AfterAndBefore(a: Text, b: Text)
    ensures (a + b)[|a|..] == b && (a + b)[..|a|] == a
  {
  }

  lemma CloseAt(token: Text, rest: Text)
    requires '}' !in token
    ensures IndexOfByte(['{'] + (token + (['}'] + rest)), '}') == Some(|token| + 1)
  {
    hide IndexOfByte;
    FoundAt(['{'] + token, '}', rest);
    assert ['{'] + (token + (['}'] + rest)) == (['{'] + token) + (['}'] + rest);
  }

  lemma NoBraceIn(w: Wild)
    requires '}' !in w.key
    ensures '}' !in Source(w)
  {
  }

  lemma TokenOf(token: Text, rest: Text)
    ensures var from := ['{'] + (token + (['}'] + rest));
            from[1..|token| + 1] == token && from[|token| + 2..] == rest
  {
  }

  lemma FoundAt(before: Text, c: Byte, rest: Text)
    requires c !in before
    ensures IndexOfByte(before + ([c] + rest), c) == Some(|before|)
  {
    var path := before + ([c] + rest);
    assert path[0..|before|] == before && path[|before|] == c && path[0..] == path;
    IndexFromIs(path, c, 0, |before|);
  }

  lemma EndingIsLast(ending: Ending, params: Params)
    requires '{' !in ending.text && (ending.Unclosed? ==> '}' !in ending.open)
    ensures NextToken(Written([], ending), params) == if ending.Plain? then Nothing else Wrong(InvalidPattern)
  {
    if ending.Unclosed? {
      FoundAt(ending.text, '{', ending.open);
      assert (ending.text + (['{'] + ending.open))[|ending.text|..] == ['{'] + ending.open;
    }
  }

  /** The URL, for every pattern and all parameters. */
  lemma {:induction false} ExpandIsURL(t: Template, params: Params)
    requires Sound(t)
    ensures IsURL(t, params, Expand(Written(t.pieces, t.ending), params))
    decreases |t.pieces|
  {
    hide NextToken, WrittenOne, ValueOf, SoundPiece;
    if t.pieces == [] {
      EndingIsLast(t.ending, params);
    } else {
      var p, rest := t.pieces[0], Template(t.pieces[1..], t.ending);
      assert p in t.pieces && forall q :: q in t.pieces <==> q == p || q in rest.pieces;
      PieceIsNext(p, Written(rest.pieces, rest.ending), params);
      ExpandIsURL(rest, params);
      if p.wild.key !in params {
        assert MissesFirst(t.pieces, params, 0);
      } else {
        GoesOn(t, params, Expand(Written(rest.pieces, rest.ending), params));
      }
    }
  }

  /** With a parameter for the first wildcard, the rest decides. */
  lemma GoesOn(t: Template, params: Params, r: Result<Text, Error>)
    requires t.pieces != [] && t.pieces[0].wild.key in params && IsURL(Template(t.pieces[1..], t.ending), params, r)
    ensures IsURL(t, params, if r.Err? then r else
                             var p := t.pieces[0]; Ok(p.before + ValueOf(p.wild, params[p.wild.key]) + r.value))
  {
    hide ValueOf;
    var p, rest := t.pieces[0], t.pieces[1..];
    assert forall q :: q in t.pieces <==> q == p || q in rest;
    if r.Ok? {
      FilledCons(t, params);
    } else if r.error.MissingParameter? {
      var i :| 0 <= i < |rest| && rest[i].wild.key == r.error.key && MissesFirst(rest, params, i);
      assert t.pieces[i + 1] == rest[i] && MissesFirst(t.pieces, params, i + 1);
    }
  }

  lemma FilledCons(t: Template, params: Params)
    requires t.pieces != [] && forall p :: p in t.pieces ==> p.wild.key in params
    ensures (forall p :: p in t.pieces[1..] ==> p.wild.key in params)
    ensures Filled(t.pieces, params) + t.ending.text ==
            t.pieces[0].before + ValueOf(t.pieces[0].wild, params[t.pieces[0].wild.key])
            + (Filled(t.pieces[1..], params) + t.ending.text)
  {
  }
}
