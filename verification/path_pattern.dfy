/**
 * Translation of a Slim route pattern into a Swagger path template
 * (`getPathArguments` in SlimSwagger/SwaggerDoc.php).
 *
 * The source hands the pattern to `preg_replace_callback` with the regular
 * expression `(\(?):([\w_-]+)(\+?)\)?`.  Here that scan is written out: a
 * tokenizer splits the pattern into literal characters and parameter tokens
 * (leftmost match first, greedy quantifiers), and the template and the list
 * of path arguments are read off the tokens.  `GetPathArguments` is the
 * left-to-right scanning loop with its accumulators.
 */
module PathPattern {
  import opened Wrappers
  import opened Seqs

  /** A character of the class `[\w_-]`: an ASCII letter or digit, `_` or `-`. */
  predicate IsNameChar(c: char) {
    ('a' <= c <= 'z') || ('A' <= c <= 'Z') || ('0' <= c <= '9') || c == '_' || c == '-'
  }

  /** Length of the longest prefix of `s` made of name characters. */
  function NameRun(s: string): (n: nat)
    ensures n <= |s|
    ensures forall i :: 0 <= i < n ==> IsNameChar(s[i])
    ensures n < |s| ==> !IsNameChar(s[n])
  {
    if s != [] && IsNameChar(s[0]) then 1 + NameRun(s[1..]) else 0
  }

  /** Position `i` of `s` holds a parameter marker: a `:` followed by a name character. */
  predicate IsMarker(s: string, i: int) {
    0 <= i && i + 1 < |s| && s[i] == ':' && IsNameChar(s[i + 1])
  }

  /** No `:` of `s` is followed by a name character, so the pattern has no token. */
  predicate NoMarkers(s: string) {
    forall i :: 0 <= i < |s| ==> !IsMarker(s, i)
  }

  /**
   * One path argument record, as the callback appends it: `name` and
   * `required`; its `type` is always 'string' and its `paramType` always 'path'.
   */
  datatype PathArg = PathArg(name: string, required: bool) {
    function Type(): string { "string" }
    function ParamType(): string { "path" }
  }

  /** What the regular expression sees in a pattern: a character it skips, or one match. */
  datatype Piece =
    | Literal(c: char)
    | Token(optional: bool, name: string, greedy: bool, closed: bool)

  /** The text in front of a match's name: `(:` or `:`. */
  function OpenText(optional: bool): string {
    if optional then "(:" else ":"
  }

  /** The text behind a match's name: an optional `+` and then an optional `)`. */
  function CloseText(greedy: bool, closed: bool): string {
    (if greedy then "+" else "") + (if closed then ")" else "")
  }

  /** The text of the pattern a piece was read from. */
  function Render(p: Piece): string {
    match p
    case Literal(c) => [c]
    case Token(optional, name, greedy, closed) =>
      OpenText(optional) + name + CloseText(greedy, closed)
  }

  function RenderAll(ps: seq<Piece>): string {
    if ps == [] then "" else Render(ps[0]) + RenderAll(ps[1..])
  }

  /** Index of the first name character of a match. */
  function NameStart(p: Piece): nat
    requires p.Token?
  {
    if p.optional then 2 else 1
  }

  /** Index just past the name of a match. */
  function NameEnd(p: Piece): nat
    requires p.Token?
  {
    NameStart(p) + |p.name|
  }

  /** Width of the text a piece covers. */
  function Width(p: Piece): nat {
    match p
    case Literal(_) => 1
    case Token(optional, name, greedy, closed) =>
      NameEnd(p) + (if greedy then 1 else 0) + (if closed then 1 else 0)
  }

  /** The match `p` is written, character by character, at the start of `s`. */
  predicate Covers(s: string, p: Piece)
    requires p.Token?
  {
    && Width(p) <= |s|
    && (p.optional ==> s[0] == '(')
    && s[NameStart(p) - 1] == ':'
    && s[NameStart(p)..NameEnd(p)] == p.name
    && (p.greedy ==> s[NameEnd(p)] == '+')
    && (p.closed ==> s[NameEnd(p) + (if p.greedy then 1 else 0)] == ')')
  }

  /** A match's name is a non-empty run of name characters. */
  predicate GoodName(name: string) {
    name != [] && forall i :: 0 <= i < |name| ==> IsNameChar(name[i])
  }

  /**
   * Nothing after a match could have extended it: the name is a longest run of
   * name characters, a `+` right after it is taken, and so is a `)` after that.
   */
  predicate EndsMaximally(t: Piece, rest: string)
    requires t.Token?
  {
    && (!t.greedy && !t.closed && rest != [] ==>
          !IsNameChar(rest[0]) && rest[0] != '+' && rest[0] != ')')
    && (t.greedy && !t.closed && rest != [] ==> rest[0] != ')')
  }

  /** The match whose name starts `t` (the text right after the `:`). */
  function TokenAfterColon(optional: bool, t: string): (p: Piece)
    requires t != [] && IsNameChar(t[0])
    ensures p.Token? && p.optional == optional && GoodName(p.name)
    ensures |p.name| + (if p.greedy then 1 else 0) + (if p.closed then 1 else 0) <= |t|
    ensures t[..|p.name|] == p.name
    ensures p.greedy ==> t[|p.name|] == '+'
    ensures p.closed ==> t[|p.name| + (if p.greedy then 1 else 0)] == ')'
    ensures EndsMaximally(p, t[|p.name| + (if p.greedy then 1 else 0) + (if p.closed then 1 else 0)..])
  {
    var n := NameRun(t);
    var greedy := n < |t| && t[n] == '+';
    var m := if greedy then n + 1 else n;
    var closed := m < |t| && t[m] == ')';
    Token(optional, t[..n], greedy, closed)
  }

  /** The match of the regular expression that starts at the beginning of `s`, if any. */
  function TokenAt(s: string): (r: Option<Piece>)
    ensures r.Some? ==> r.value.Token? && 2 <= Width(r.value) <= |s|
  {
    if IsMarker(s, 0) then
      var p := TokenAfterColon(false, s[1..]);
      TokenText(s, p);
      Some(p)
    else if s != [] && s[0] == '(' && IsMarker(s, 1) then
      var p := TokenAfterColon(true, s[2..]);
      TokenText(s, p);
      Some(p)
    else
      None
  }

  /**
   * A match starts at the beginning of `s` exactly when `s` starts with a
   * marker, or with a `(` followed by a marker; the match is written at the
   * start of `s`, its name is a run of name characters, and it cannot be
   * longer.
   */
  lemma TokenAtSpec(s: string)
    ensures TokenAt(s).Some? <==> IsMarker(s, 0) || (s != [] && s[0] == '(' && IsMarker(s, 1))
    ensures TokenAt(s).Some? ==> var t := TokenAt(s).value;
      && t.optional == (s[0] == '(') && GoodName(t.name)
      && Covers(s, t) && EndsMaximally(t, s[Width(t)..])
  {
    if IsMarker(s, 0) {
      TokenText(s, TokenAfterColon(false, s[1..]));
    } else if s != [] && s[0] == '(' && IsMarker(s, 1) {
      TokenText(s, TokenAfterColon(true, s[2..]));
    }
  }

  /** A match read after the marker of `s` is written at the start of `s`. */
  lemma TokenText(s: string, p: Piece)
    requires IsMarker(s, 0) || (s != [] && s[0] == '(' && IsMarker(s, 1))
    requires p.Token? && p.optional == (s[0] == '(')
    requires p == TokenAfterColon(p.optional, s[NameStart(p)..])
    ensures 2 <= Width(p) <= |s|
    ensures Covers(s, p) && EndsMaximally(p, s[Width(p)..])
  {
    var k := NameStart(p);
    var t := s[k..];
    assert t[..|p.name|] == s[k..NameEnd(p)];
    assert t[Width(p) - k..] == s[Width(p)..];
  }

  /** The text a match covers is its rendering. */
  lemma CoversRender(s: string, p: Piece)
    requires p.Token? && Covers(s, p)
    ensures s[..Width(p)] == Render(p)
  {
    var k, e, w := NameStart(p), NameEnd(p), Width(p);
    assert s[..k] == OpenText(p.optional);
    assert s[e..w] == CloseText(p.greedy, p.closed);
    assert s[..w] == s[..k] + s[k..e] + s[e..w];
  }

  /** The pattern cut into the pieces the regular expression sees, left to right. */
  function Tokenize(s: string): seq<Piece>
    decreases |s|
  {
    if s == [] then []
    else match TokenAt(s)
      case Some(t) => [t] + Tokenize(s[Width(t)..])
      case None => [Literal(s[0])] + Tokenize(s[1..])
  }

  /** The Swagger spelling of a path parameter: `{name}`. */
  function Placeholder(name: string): string {
    "{" + name + "}"
  }

  /** The text a piece becomes in the template: a match becomes its placeholder. */
  function Output(p: Piece): string {
    match p
    case Literal(c) => [c]
    case Token(_, name, _, _) => Placeholder(name)
  }

  function Template(ps: seq<Piece>): string {
    if ps == [] then "" else Output(ps[0]) + Template(ps[1..])
  }

  /** The argument records, one per match; `required` is false exactly when the `(` was matched. */
  function Args(ps: seq<Piece>): seq<PathArg> {
    if ps == [] then []
    else (if ps[0].Token? then [PathArg(ps[0].name, !ps[0].optional)] else []) + Args(ps[1..])
  }

  /** The result of `getPathArguments`: the Swagger path and its argument list. */
  datatype Translation = Translation(template: string, arguments: seq<PathArg>)

  function Translate(pattern: string): Translation {
    var ps := Tokenize(pattern);
    Translation(Template(ps), Args(ps))
  }

  /**
   * The independent description of the argument list: one record per marker
   * of the text, in order, named by the longest name run after the `:`, and
   * optional exactly when a `(` stands right before the `:`.  `afterParen`
   * says whether the character before `s` is a `(`.
   */
  function MarkersFrom(s: string, afterParen: bool): seq<PathArg>
  {
    if s == [] then []
    else
      (if IsMarker(s, 0) then [PathArg(s[1..][..NameRun(s[1..])], !afterParen)] else [])
        + MarkersFrom(s[1..], s[0] == '(')
  }

  function MarkerArgs(s: string): seq<PathArg> {
    MarkersFrom(s, false)
  }

  /** Writing back a piece followed by more pieces. */
  lemma RenderAllCons(p: Piece, ps: seq<Piece>)
    ensures RenderAll([p] + ps) == Render(p) + RenderAll(ps)
  {
    assert ([p] + ps)[1..] == ps;
  }

  /** A match at the start of `s` is the first piece, and its text is the start of `s`. */
  lemma TokenizeAtToken(s: string, t: Piece)
    requires TokenAt(s) == Some(t)
    ensures Tokenize(s) == [t] + Tokenize(s[Width(t)..])
    ensures s == Render(t) + s[Width(t)..]
  {
    TokenAtSpec(s);
    CoversRender(s, t);
    assert s == s[..Width(t)] + s[Width(t)..];
  }

  /** Tokenizing loses nothing: the pieces, written back, give the pattern. */
  lemma {:induction false} RenderTokenize(s: string)
    ensures RenderAll(Tokenize(s)) == s
    decreases |s|
  {
    if s != [] {
      match TokenAt(s)
      case Some(t) =>
        TokenizeAtToken(s, t);
        RenderTokenize(s[Width(t)..]);
        RenderAllCons(t, Tokenize(s[Width(t)..]));
      case None =>
        RenderTokenize(s[1..]);
        RenderAllCons(Literal(s[0]), Tokenize(s[1..]));
        assert s == [s[0]] + s[1..];
    }
  }

  /** A pattern without a marker comes back unchanged, with no arguments. */
  lemma {:induction false} NoMarkersUnchanged(s: string)
    requires NoMarkers(s)
    ensures Translate(s) == Translation(s, [])
    decreases |s|
  {
    if s != [] {
      assert !IsMarker(s, 0) && !IsMarker(s, 1);
      assert NoMarkers(s[1..]) by {
        forall i | 0 <= i < |s[1..]| ensures !IsMarker(s[1..], i) {
          assert !IsMarker(s, i + 1);
        }
      }
      NoMarkersUnchanged(s[1..]);
      assert s == [s[0]] + s[1..];
    }
  }

  lemma {:induction false} NameRunExact(v: string, n: nat)
    requires n <= |v|
    requires forall k :: 0 <= k < n ==> IsNameChar(v[k])
    requires n < |v| ==> !IsNameChar(v[n])
    ensures NameRun(v) == n
    decreases n
  {
    if n > 0 {
      NameRunExact(v[1..], n - 1);
    }
  }

  /**
   * The match at the start of `u` carries the marker at `NameStart - 1`, no
   * other `:` and no final `(`, and its name is the longest name run after
   * that marker.
   */
  lemma TokenShape(u: string, t: Piece)
    requires TokenAt(u) == Some(t)
    ensures IsMarker(u, NameStart(t) - 1)
    ensures forall k :: NameStart(t) <= k < Width(t) ==> u[k] != ':'
    ensures u[Width(t) - 1] != '('
    ensures u[NameStart(t)..][..NameRun(u[NameStart(t)..])] == t.name
  {
    TokenMarks(u, t);
    TokenNameRun(u, t);
  }

  /** The only `:` a match holds is its marker's, and it does not end with `(`. */
  lemma TokenMarks(u: string, t: Piece)
    requires TokenAt(u) == Some(t)
    ensures IsMarker(u, NameStart(t) - 1)
    ensures forall k :: NameStart(t) <= k < Width(t) ==> u[k] != ':'
    ensures u[Width(t) - 1] != '('
  {
    TokenAtSpec(u);
    CoveredMarks(u, t);
  }

  /** The characters a match covers: its marker, name characters, and at most `+` and `)`. */
  lemma CoveredMarks(u: string, t: Piece)
    requires t.Token? && GoodName(t.name) && Covers(u, t)
    requires t.optional ==> u[0] == '('
    ensures IsMarker(u, NameStart(t) - 1)
    ensures forall k :: NameStart(t) <= k < Width(t) ==> u[k] != ':'
    ensures u[Width(t) - 1] != '('
  {
    var k, e := NameStart(t), NameEnd(t);
    assert forall j :: k <= j < e ==> u[j] == t.name[j - k];
  }

  /** A match's name is the longest name run after its marker. */
  lemma TokenNameRun(u: string, t: Piece)
    requires TokenAt(u) == Some(t)
    ensures u[NameStart(t)..][..NameRun(u[NameStart(t)..])] == t.name
  {
    TokenAtSpec(u);
    var k, e, w := NameStart(t), NameEnd(t), Width(t);
    var v := u[k..];
    assert v[..|t.name|] == t.name;
    if e < |u| {
      assert v[|t.name|] == u[e];
      if !t.greedy && !t.closed {
        assert u[w..][0] == u[e];
      }
    }
    NameRunExact(v, |t.name|);
  }

  /** The first `d` positions of `s` hold no marker, so they add no record. */
  lemma {:induction false} MarkersSkip(s: string, afterParen: bool, d: nat)
    requires 0 < d <= |s|
    requires forall k :: 0 <= k < d ==> !IsMarker(s, k)
    ensures MarkersFrom(s, afterParen) == MarkersFrom(s[d..], s[d - 1] == '(')
    decreases d
  {
    assert !IsMarker(s, 0);
    if d > 1 {
      var s' := s[1..];
      forall k | 0 <= k < d - 1 ensures !IsMarker(s', k) {
        assert !IsMarker(s, k + 1);
      }
      MarkersSkip(s', s[0] == '(', d - 1);
      assert s'[d - 1..] == s[d..];
    }
  }

  /** A marker followed by `d` characters that hold no `:` yields one record for all of them. */
  lemma MarkerThenSkip(v: string, afterParen: bool, d: nat)
    requires IsMarker(v, 0) && 0 < d < |v|
    requires forall k :: 1 <= k <= d ==> v[k] != ':'
    ensures MarkersFrom(v, afterParen)
      == [PathArg(v[1..][..NameRun(v[1..])], !afterParen)] + MarkersFrom(v[d + 1..], v[d] == '(')
  {
    var v' := v[1..];
    forall k | 0 <= k < d ensures !IsMarker(v', k) {
      assert v'[k] == v[k + 1];
    }
    MarkersSkip(v', false, d);
    assert v'[d..] == v[d + 1..];
  }

  /** A match at the start of `u` accounts for exactly the one marker it contains. */
  lemma MarkersAtToken(u: string, afterParen: bool, t: Piece)
    requires TokenAt(u) == Some(t) && !(afterParen && IsMarker(u, 0))
    ensures Width(t) <= |u| && u[Width(t) - 1] != '('
    ensures MarkersFrom(u, afterParen) == [PathArg(t.name, !t.optional)] + MarkersFrom(u[Width(t)..], false)
  {
    TokenShape(u, t);
    var w, c := Width(t), NameStart(t) - 1;
    MarkersOverMatch(u[c..], t.optional, t.name, w - c);
    assert u[c..][w - c..] == u[w..];
    if t.optional {
      assert !IsMarker(u, 0);
      assert u[1..] == u[c..];
    } else {
      assert u == u[c..];
    }
  }

  /**
   * Text `v` that starts with a marker, holds no other `:` in its first
   * `w` characters and does not have `(` as the last of them: the marker
   * gives one record, and the records go on after those `w` characters.
   */
  lemma MarkersOverMatch(v: string, afterParen: bool, name: string, w: nat)
    requires IsMarker(v, 0) && 1 < w <= |v|
    requires forall k :: 1 <= k < w ==> v[k] != ':'
    requires v[w - 1] != '('
    requires v[1..][..NameRun(v[1..])] == name
    ensures MarkersFrom(v, afterParen) == [PathArg(name, !afterParen)] + MarkersFrom(v[w..], false)
  {
    MarkerThenSkip(v, afterParen, w - 1);
  }


  lemma {:induction false} ArgsFromMarkers(u: string, afterParen: bool)
    requires !(afterParen && IsMarker(u, 0))
    ensures Args(Tokenize(u)) == MarkersFrom(u, afterParen)
    decreases |u|
  {
    if u != [] {
      match TokenAt(u)
      case Some(t) =>
        MarkersAtToken(u, afterParen, t);
        TranslateAtToken(u, t);
        ArgsFromMarkers(u[Width(t)..], false);
      case None =>
        assert !IsMarker(u, 0);
        assert u[0] == '(' ==> !IsMarker(u[1..], 0);
        TranslateAtLiteral(u);
        ArgsFromMarkers(u[1..], u[0] == '(');
    }
  }

  /** The arguments are exactly one record per marker of the pattern, in order. */
  lemma ArgumentsFollowMarkers(s: string)
    ensures Translate(s).arguments == MarkerArgs(s)
  {
    ArgsFromMarkers(s, false);
  }

  /** Writing two marker-free texts side by side creates no marker unless the seam does. */
  lemma NoMarkersConcat(a: string, b: string)
    requires NoMarkers(a) && NoMarkers(b)
    requires a != [] && b != [] ==> !(a[|a| - 1] == ':' && IsNameChar(b[0]))
    ensures NoMarkers(a + b)
  {
    var ab := a + b;
    forall i | 0 <= i < |ab| ensures !IsMarker(ab, i) {
      if i < |a| - 1 {
        assert !IsMarker(a, i);
      } else if i >= |a| {
        assert !IsMarker(b, i - |a|);
      }
    }
  }

  /** A placeholder holds no marker and starts with `{`. */
  lemma PlaceholderNoMarkers(name: string)
    requires GoodName(name)
    ensures NoMarkers(Placeholder(name)) && Placeholder(name)[0] == '{'
  {
    var out := Placeholder(name);
    forall k | 0 <= k < |out| ensures out[k] != ':' {
      if 0 < k < |out| - 1 {
        assert out[k] == name[k - 1];
      }
    }
  }

  lemma {:induction false} TemplateNoMarkers(s: string)
    ensures NoMarkers(Template(Tokenize(s)))
    ensures s != [] ==> Template(Tokenize(s)) != []
    ensures s != [] && IsNameChar(Template(Tokenize(s))[0]) ==> IsNameChar(s[0])
    decreases |s|
  {
    if s != [] {
      match TokenAt(s)
      case Some(t) =>
        TokenAtSpec(s);
        TranslateAtToken(s, t);
        TemplateNoMarkers(s[Width(t)..]);
        PlaceholderNoMarkers(t.name);
        NoMarkersConcat(Placeholder(t.name), Template(Tokenize(s[Width(t)..])));
      case None =>
        var rest := s[1..];
        TranslateAtLiteral(s);
        TemplateNoMarkers(rest);
        if s[0] == ':' && rest != [] {
          assert !IsMarker(s, 0);
        }
        NoMarkersConcat([s[0]], Template(Tokenize(rest)));
    }
  }

  /** After translation no marker is left in the template. */
  lemma TemplateHasNoMarkers(s: string)
    ensures NoMarkers(Translate(s).template)
  {
    TemplateNoMarkers(s);
  }

  /** Translating a template a second time changes nothing and finds no argument. */
  lemma TranslateIdempotent(s: string)
    ensures Translate(Translate(s).template) == Translation(Translate(s).template, [])
  {
    TemplateHasNoMarkers(s);
    NoMarkersUnchanged(Translate(s).template);
  }

  /** One step of the scan over a match: its output and record go first. */
  lemma TranslateAtToken(s: string, t: Piece)
    requires s != [] && TokenAt(s) == Some(t)
    ensures Template(Tokenize(s)) == Placeholder(t.name) + Template(Tokenize(s[Width(t)..]))
    ensures Args(Tokenize(s)) == [PathArg(t.name, !t.optional)] + Args(Tokenize(s[Width(t)..]))
  {
    var rest := Tokenize(s[Width(t)..]);
    assert Tokenize(s) == [t] + rest;
    assert ([t] + rest)[1..] == rest;
  }

  /** One step of the scan over a character no match starts at. */
  lemma TranslateAtLiteral(s: string)
    requires s != [] && TokenAt(s).None?
    ensures Template(Tokenize(s)) == [s[0]] + Template(Tokenize(s[1..]))
    ensures Args(Tokenize(s)) == Args(Tokenize(s[1..]))
  {
    var rest := Tokenize(s[1..]);
    assert Tokenize(s) == [Literal(s[0])] + rest;
    assert ([Literal(s[0])] + rest)[1..] == rest;
  }

  /** A character that is neither `:` nor `(` is copied to the template as it is. */
  lemma LiteralStep(c: char, rest: string)
    requires c != ':' && c != '('
    ensures Translate([c] + rest) == Translation([c] + Translate(rest).template, Translate(rest).arguments)
  {
    var u := [c] + rest;
    assert u[1..] == rest;
    TranslateAtLiteral(u);
  }

  /** No character of `lit` is `:` or `(`, so no match can start inside it. */
  predicate Plain(lit: string) {
    lit == [] || (lit[0] != ':' && lit[0] != '(' && Plain(lit[1..]))
  }

  /** A run of characters none of which is `:` or `(` is copied to the template as it is. */
  lemma {:induction false} LiteralsStep(lit: string, rest: string)
    requires Plain(lit)
    ensures Translate(lit + rest) == Translation(lit + Translate(rest).template, Translate(rest).arguments)
    decreases |lit|
  {
    if lit == [] {
      assert lit + rest == rest;
    } else {
      assert [lit[0]] + lit[1..] == lit;
      LiteralsStep(lit[1..], rest);
      LiteralStep(lit[0], lit[1..] + rest);
      AppendAssoc([lit[0]], lit[1..], rest);
      AppendAssoc([lit[0]], lit[1..], Translate(rest).template);
    }
  }

  /**
   * A `:name` that nothing after it can extend becomes `{name}` and a
   * required argument.
   */
  lemma RequiredMarkerStep(name: string, rest: string)
    requires GoodName(name)
    requires rest != [] ==> !IsNameChar(rest[0]) && rest[0] != '+' && rest[0] != ')'
    ensures Translate(":" + name + rest)
      == Translation(Placeholder(name) + Translate(rest).template, [PathArg(name, true)] + Translate(rest).arguments)
  {
    var u := ":" + name + rest;
    var j := 1 + |name|;
    assert u[1..j] == name && u[j..] == rest;
    ScanFindsToken(u, 0, j);
    var t := Token(false, name, false, false);
    assert Width(t) == j;
    TranslateAtToken(u, t);
  }

  /** A `(:name)` becomes `{name}` and an optional argument. */
  lemma OptionalMarkerStep(name: string, rest: string)
    requires GoodName(name)
    ensures Translate("(:" + name + ")" + rest)
      == Translation(Placeholder(name) + Translate(rest).template, [PathArg(name, false)] + Translate(rest).arguments)
  {
    var u := "(:" + name + ")" + rest;
    var j := 2 + |name|;
    assert u[2..j] == name && u[j] == ')' && u[j + 1..] == rest;
    ScanFindsToken(u, 1, j);
    var t := Token(true, name, false, true);
    assert Width(t) == j + 1;
    TranslateAtToken(u, t);
  }

  /** The scan's own reading of a match agrees with the regular expression's. */
  lemma ScanFindsToken(u: string, colon: nat, j: nat)
    requires u != [] && colon == (if u[0] == '(' then 1 else 0)
    requires colon + 1 < |u| && u[colon] == ':'
    requires colon + 1 < j <= |u| && (forall k :: colon + 1 <= k < j ==> IsNameChar(u[k]))
    requires j < |u| ==> !IsNameChar(u[j])
    ensures var greedy := j < |u| && u[j] == '+';
      var e := if greedy then j + 1 else j;
      TokenAt(u) == Some(Token(u[0] == '(', u[colon + 1..j], greedy, e < |u| && u[e] == ')'))
  {
    var v := u[colon + 1..];
    NameRunExact(v, j - colon - 1);
    assert v[..j - colon - 1] == u[colon + 1..j];
    assert v[j - colon - 1..] == u[j..];
    if u[0] == '(' {
      assert IsMarker(u, 1) && !IsMarker(u, 0);
      assert TokenAt(u) == Some(TokenAfterColon(true, u[2..]));
    } else {
      assert IsMarker(u, 0);
      assert TokenAt(u) == Some(TokenAfterColon(false, u[1..]));
    }
  }

  /**
   * The scan's step over a match at the start of `u`, with the colon at
   * `colon` and the name ending at `j`: the output and the records of `u` are
   * those of the match followed by those of the text after it, appended to
   * what the scan has already produced (`done`, `doneArgs`).
   */
  lemma ScanTokenStep(u: string, colon: nat, j: nat, end: nat, done: string, doneArgs: seq<PathArg>)
    requires u != [] && colon == (if u[0] == '(' then 1 else 0)
    requires colon + 1 < |u| && u[colon] == ':'
    requires colon + 1 < j <= |u| && (forall k :: colon + 1 <= k < j ==> IsNameChar(u[k]))
    requires j < |u| ==> !IsNameChar(u[j])
    requires var e := if j < |u| && u[j] == '+' then j + 1 else j;
      end == if e < |u| && u[e] == ')' then e + 1 else e
    ensures end <= |u|
    ensures done + Template(Tokenize(u))
      == (done + Placeholder(u[colon + 1..j])) + Template(Tokenize(u[end..]))
    ensures doneArgs + Args(Tokenize(u))
      == (doneArgs + [PathArg(u[colon + 1..j], u[0] != '(')]) + Args(Tokenize(u[end..]))
  {
    var optional := u[0] == '(';
    ScanFindsToken(u, colon, j);
    var greedy := j < |u| && u[j] == '+';
    var e := if greedy then j + 1 else j;
    var t := Token(optional, u[colon + 1..j], greedy, e < |u| && u[e] == ')');
    assert TokenAt(u) == Some(t);
    assert NameStart(t) == colon + 1 && |t.name| == j - colon - 1;
    assert Width(t) == end;
    TranslateAtToken(u, t);
    AppendAssoc(done, Placeholder(u[colon + 1..j]), Template(Tokenize(u[end..])));
    AppendAssoc(doneArgs, [PathArg(u[colon + 1..j], u[0] != '(')], Args(Tokenize(u[end..])));
  }


  /** The scan's step over a character no match starts at. */
  lemma ScanLiteralStep(u: string, done: string)
    requires u != [] && TokenAt(u).None?
    ensures done + Template(Tokenize(u)) == (done + [u[0]]) + Template(Tokenize(u[1..]))
    ensures Args(Tokenize(u)) == Args(Tokenize(u[1..]))
  {
    TranslateAtLiteral(u);
    AppendAssoc(done, [u[0]], Template(Tokenize(u[1..])));
  }

  /** The end of the longest run of name characters starting at `from`. */
  method ScanName(s: string, from: nat) returns (j: nat)
    requires from <= |s|
    ensures from <= j <= |s|
    ensures forall k :: from <= k < j ==> IsNameChar(s[k])
    ensures j < |s| ==> !IsNameChar(s[j])
  {
    j := from;
    while j < |s| && IsNameChar(s[j])
      invariant from <= j <= |s|
      invariant forall k :: from <= k < j ==> IsNameChar(s[k])
    {
      j := j + 1;
    }
  }

  /**
   * `getPathArguments`: scans the pattern from left to right, replacing each
   * match by `{name}` and appending one argument record per match.
   */
  method GetPathArguments(pattern: string) returns (template: string, arguments: seq<PathArg>)
    ensures Translation(template, arguments) == Translate(pattern)
    ensures arguments == MarkerArgs(pattern)
    ensures NoMarkers(template)
  {
    template, arguments := "", [];
    var rest := pattern;
    while rest != []
      invariant template + Template(Tokenize(rest)) == Template(Tokenize(pattern))
      invariant arguments + Args(Tokenize(rest)) == Args(Tokenize(pattern))
      decreases |rest|
    {
      var optional := rest[0] == '(';
      var colon := if optional then 1 else 0;
      if colon + 1 < |rest| && rest[colon] == ':' && IsNameChar(rest[colon + 1]) {
        var j := ScanName(rest, colon + 1);
        var name := rest[colon + 1..j];
        var end := if j < |rest| && rest[j] == '+' then j + 1 else j;
        if end < |rest| && rest[end] == ')' {
          end := end + 1;
        }
        ScanTokenStep(rest, colon, j, end, template, arguments);
        template := template + Placeholder(name);
        arguments := arguments + [PathArg(name, !optional)];
        rest := rest[end..];
      } else {
        ScanLiteralStep(rest, template);
        template := template + [rest[0]];
        rest := rest[1..];
      }
    }
    ArgumentsFollowMarkers(pattern);
    TemplateHasNoMarkers(pattern);
  }
}
