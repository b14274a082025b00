/** The tokenizer: `tag_re` and `tokenise` (stencil.py:17, 41-55), written as
    an explicit scanner. A template is cut into text runs and three kinds of
    delimited tag: `{% block %}`, `{{ variable }}` and `{# comment #}`. */
module Tokenizer {
  import opened Results
  import opened Text

  datatype TokenKind = TextTok | VarTok | BlockTok | CommentTok

  datatype Token = Token(kind: TokenKind, content: string)

  function Opener(k: TokenKind): string
    requires k != TextTok
  {
    if k == BlockTok then "{%" else if k == VarTok then "{{" else "{#"
  }

  function Closer(k: TokenKind): string
    requires k != TextTok
  {
    if k == BlockTok then "%}" else if k == VarTok then "}}" else "#}"
  }

  /** The two-character delimiter `d` sits in `t` at index `i`. */
  predicate DelimAt(t: string, i: int, d: string)
    requires |d| == 2
  {
    0 <= i && i + 2 <= |t| && t[i] == d[0] && t[i + 1] == d[1]
  }

  /** The first index at or after `from` where the delimiter `d` sits. */
  function FindDelim(t: string, d: string, from: nat): (r: Option<nat>)
    requires |d| == 2
    ensures r.Some? ==> from <= r.value && DelimAt(t, r.value, d)
    ensures r.Some? ==> forall q :: from <= q < r.value ==> !DelimAt(t, q, d)
    ensures r.None? ==> forall q :: from <= q ==> !DelimAt(t, q, d)
    decreases |t| - from
  {
    if from + 2 > |t| then None
    else if DelimAt(t, from, d) then Some(from)
    else FindDelim(t, d, from + 1)
  }

  /** A closing delimiter never starts on whitespace. */
  lemma CloserNotSpace(t: string, q: int, k: TokenKind)
    requires k != TextTok && DelimAt(t, q, Closer(k))
    ensures !IsSpace(t[q])
  {
  }

  /** The index just past the whitespace run of `t` that starts at `i` (the
      greedy `\s*`). */
  function SpaceRun(t: string, i: nat): (j: nat)
    requires i <= |t|
    ensures i <= j <= |t| && AllSpace(t[i..j])
    ensures j == |t| || !IsSpace(t[j])
    decreases |t| - i
  {
    if i < |t| && IsSpace(t[i]) then SpaceRun(t, i + 1) else i
  }

  /** The end of the match of the alternative `O\s*(.+?)\s*C` of `tag_re` for
      kind `k` at index `s`, if that alternative matches there: the opener,
      the greedy whitespace after it, then the lazy body up to the first
      closer it can end at. `MatchEndIsLeftmostCloser` states which one. */
  function MatchEnd(t: string, s: nat, k: TokenKind): (r: Option<nat>)
    requires k != TextTok
    ensures r.Some? ==> s + 5 <= r.value <= |t|
  {
    if !DelimAt(t, s, Opener(k)) then None
    else
      var c0 := SpaceRun(t, s + 2);
      match FindDelim(t, Closer(k), c0 + 1)
      case Some(p) => Some(p + 2)
      case None =>
        if c0 > s + 2 && DelimAt(t, c0, Closer(k)) then Some(c0 + 2) else None
  }

  /** The alternative for kind `k` matches at `s` exactly when the opener is
      there and a closer follows with at least one character in between. The
      match ends at a closer: the first one whose preceding inner text is not
      blank, or, when there is no such closer, the only one there is. */
  lemma MatchEndIsLeftmostCloser(t: string, s: nat, k: TokenKind)
    requires k != TextTok
    ensures MatchEnd(t, s, k).Some? <==> DelimAt(t, s, Opener(k)) && exists q :: s + 3 <= q && DelimAt(t, q, Closer(k))
    ensures MatchEnd(t, s, k).Some? ==> DelimAt(t, MatchEnd(t, s, k).value - 2, Closer(k))
    ensures MatchEnd(t, s, k).Some? && !AllSpace(t[s + 2..MatchEnd(t, s, k).value - 2]) ==>
              forall q :: s + 3 <= q < MatchEnd(t, s, k).value - 2 && DelimAt(t, q, Closer(k)) ==> AllSpace(t[s + 2..q])
    ensures MatchEnd(t, s, k).Some? && AllSpace(t[s + 2..MatchEnd(t, s, k).value - 2]) ==>
              forall q :: s + 3 <= q && DelimAt(t, q, Closer(k)) ==> q == MatchEnd(t, s, k).value - 2
  {
    if DelimAt(t, s, Opener(k)) {
      var c0 := SpaceRun(t, s + 2);
      BlankPrefix(t, s + 2, c0, k);
      match FindDelim(t, Closer(k), c0 + 1)
      case Some(p) =>
        assert t[s + 2..p][c0 - (s + 2)] == t[c0];
      case None =>
    }
  }

  /** Between the opener and the end of the whitespace after it there is no
      closer, and the inner text is blank exactly up to that point. */
  lemma BlankPrefix(t: string, a: nat, c0: nat, k: TokenKind)
    requires k != TextTok
    requires a <= c0 <= |t| && AllSpace(t[a..c0]) && (c0 == |t| || !IsSpace(t[c0]))
    ensures forall q :: a <= q < c0 ==> !DelimAt(t, q, Closer(k))
    ensures forall q :: a <= q <= c0 ==> AllSpace(t[a..q])
    ensures forall q :: c0 < q <= |t| ==> !AllSpace(t[a..q])
  {
    forall q | a <= q < c0 && DelimAt(t, q, Closer(k))
      ensures false
    {
      CloserNotSpace(t, q, k);
    }
    forall q | a <= q <= c0
      ensures AllSpace(t[a..q])
    {
      assert forall i :: 0 <= i < q - a ==> t[a..q][i] == t[a..c0][i];
    }
    forall q | c0 < q <= |t|
      ensures !AllSpace(t[a..q])
    {
      assert t[a..q][c0 - a] == t[c0];
    }
  }

  /** A stretch `[start, end)` of the template and the kind of token cut from
      it: a match of `tag_re`, or a text run between matches. */
  datatype Span = Span(kind: TokenKind, start: nat, end: nat)

  /** The match of `tag_re` at index `s`: block, then variable, then comment.
      The three openers differ, so the order never decides anything. */
  function MatchAt(t: string, s: nat): (r: Option<Span>)
    ensures r.Some? ==> r.value.start == s && r.value.kind != TextTok && s + 5 <= r.value.end <= |t|
    ensures r.Some? ==> MatchEnd(t, s, r.value.kind) == Some(r.value.end)
    ensures r.None? ==> forall k :: k != TextTok ==> MatchEnd(t, s, k).None?
  {
    match MatchEnd(t, s, BlockTok)
    case Some(e) => Some(Span(BlockTok, s, e))
    case None =>
      match MatchEnd(t, s, VarTok)
      case Some(e) => Some(Span(VarTok, s, e))
      case None =>
        match MatchEnd(t, s, CommentTok)
        case Some(e) => Some(Span(CommentTok, s, e))
        case None => None
  }

  /** No match of `tag_re` starts at any index in `[from, to)`. */
  predicate NoTagIn(t: string, from: nat, to: nat) {
    forall s :: from <= s < to ==> MatchAt(t, s).None?
  }

  /** The leftmost match at or after `pos`, as `finditer` finds it. */
  function FindMatch(t: string, pos: nat): (r: Option<Span>)
    requires pos <= |t|
    ensures r.Some? ==> pos <= r.value.start && MatchAt(t, r.value.start) == r
    ensures r.Some? ==> NoTagIn(t, pos, r.value.start)
    ensures r.None? ==> NoTagIn(t, pos, |t|)
    decreases |t| - pos
  {
    if pos + 5 > |t| then None
    else
      match MatchAt(t, pos)
      case Some(m) => Some(m)
      case None => FindMatch(t, pos + 1)
  }

  /** A span is non-empty and inside `t`. A text span contains no start of a
      match; any other span is exactly the match of `tag_re` at its start. */
  predicate WellFormed(t: string, sp: Span) {
    && sp.start < sp.end <= |t|
    && if sp.kind == TextTok then NoTagIn(t, sp.start, sp.end)
       else MatchAt(t, sp.start) == Some(sp)
  }

  predicate AllWellFormed(t: string, ss: seq<Span>)
    decreases |ss|
  {
    |ss| == 0 || (WellFormed(t, ss[0]) && AllWellFormed(t, ss[1..]))
  }

  /** No two text spans are next to each other. */
  predicate Separated(ss: seq<Span>)
    decreases |ss|
  {
    |ss| <= 1 || ((ss[0].kind != TextTok || ss[1].kind != TextTok) && Separated(ss[1..]))
  }

  /** The spans lie end to end, from `from` to `to`. */
  predicate Tiles(ss: seq<Span>, from: nat, to: nat)
    decreases |ss|
  {
    if |ss| == 0 then from == to else ss[0].start == from && Tiles(ss[1..], ss[0].end, to)
  }

  /** The spans of `t` from index `pos` on: the loop of `tokenise`. A text
      span covers each gap before a match and the tail after the last one. */
  function Scan(t: string, pos: nat): (r: seq<Span>)
    requires pos <= |t|
    ensures Tiles(r, pos, |t|) && AllWellFormed(t, r) && Separated(r)
    ensures |r| > 0 ==> r[0].start == pos
    decreases |t| - pos
  {
    match FindMatch(t, pos)
    case None =>
      if pos < |t| then [Span(TextTok, pos, |t|)] else []
    case Some(m) =>
      var rest := Scan(t, m.end);
      assert ([m] + rest)[1..] == rest;
      if pos < m.start then
        var gap := Span(TextTok, pos, m.start);
        assert ([gap] + ([m] + rest))[1..] == [m] + rest;
        [gap] + ([m] + rest)
      else
        [m] + rest
  }

  /** The facts about single spans that a well-formed, separated scan gives. */
  lemma {:induction false} SpanFacts(t: string, ss: seq<Span>)
    requires AllWellFormed(t, ss) && Separated(ss)
    ensures forall i :: 0 <= i < |ss| ==> WellFormed(t, ss[i])
    ensures forall i :: 0 <= i < |ss| - 1 ==> ss[i].kind != TextTok || ss[i + 1].kind != TextTok
    decreases |ss|
  {
    if |ss| > 0 {
      SpanFacts(t, ss[1..]);
      assert forall i :: 1 <= i < |ss| ==> ss[i] == ss[1..][i - 1];
    }
  }

  /** The token cut from a span: a text span verbatim, and for a match the
      text between the delimiters with surrounding whitespace stripped. */
  function TokenOf(t: string, sp: Span): (tok: Token)
    requires WellFormed(t, sp)
    ensures tok.kind == sp.kind
    ensures sp.kind == TextTok ==> tok.content == t[sp.start..sp.end]
    ensures sp.kind != TextTok ==> tok.content == Strip(t[sp.start + 2..sp.end - 2])
    ensures sp.kind != TextTok ==> Strip(tok.content) == tok.content
    ensures sp.kind == TextTok ==> |tok.content| > 0
  {
    if sp.kind == TextTok then Token(TextTok, t[sp.start..sp.end])
    else
      var inside := t[sp.start + 2..sp.end - 2];
      StripIdempotent(inside);
      Token(sp.kind, Strip(inside))
  }

  /** `tokenise(template)`: the tokens of the whole template, in order. Text
      tokens are never empty and never adjacent; the content of every other
      token has no surrounding whitespace. */
  function Tokenise(t: string): (r: seq<Token>)
    ensures |r| <= |t|
    ensures forall i :: 0 <= i < |r| && r[i].kind == TextTok ==> |r[i].content| > 0
    ensures forall i :: 0 <= i < |r| && r[i].kind != TextTok ==> Strip(r[i].content) == r[i].content
    ensures forall i :: 0 <= i < |r| - 1 ==> r[i].kind != TextTok || r[i + 1].kind != TextTok
  {
    var ss := Scan(t, 0);
    SpanFacts(t, ss);
    TilesBound(ss, 0, |t|);
    seq(|ss|, i requires 0 <= i < |ss| => TokenOf(t, ss[i]))
  }

  /** Spans that tile `[from, to)` are at most `to - from` in number, since
      none is empty. */
  lemma {:induction false} TilesBound(ss: seq<Span>, from: nat, to: nat)
    requires Tiles(ss, from, to)
    requires forall i :: 0 <= i < |ss| ==> ss[i].start < ss[i].end
    ensures from + |ss| <= to
    decreases |ss|
  {
    if |ss| > 0 {
      assert forall i :: 0 <= i < |ss[1..]| ==> ss[1..][i] == ss[i + 1];
      TilesBound(ss[1..], ss[0].end, to);
    }
  }

  /** The template text the spans cover, one after the other. */
  function Spelled(t: string, ss: seq<Span>): string
    requires AllWellFormed(t, ss)
    decreases |ss|
  {
    if |ss| == 0 then "" else t[ss[0].start..ss[0].end] + Spelled(t, ss[1..])
  }

  lemma {:induction false} SpelledTiles(t: string, ss: seq<Span>, from: nat, to: nat)
    requires Tiles(ss, from, to) && to <= |t| && AllWellFormed(t, ss)
    ensures from <= to
    ensures Spelled(t, ss) == t[from..to]
    decreases |ss|
  {
    if |ss| > 0 {
      SpelledTiles(t, ss[1..], ss[0].end, to);
      assert t[from..to] == t[from..ss[0].end] + t[ss[0].end..to];
    }
  }

  /** Tokenising loses nothing: the spans the tokens are cut from lie end to
      end and spell out the whole template, each text token is its span
      verbatim, and each other token is the stripped inside of its match. */
  lemma TokeniseIsLossless(t: string)
    ensures Spelled(t, Scan(t, 0)) == t
    ensures |Tokenise(t)| == |Scan(t, 0)|
    ensures forall i :: 0 <= i < |Tokenise(t)| ==>
              WellFormed(t, Scan(t, 0)[i]) && Tokenise(t)[i] == TokenOf(t, Scan(t, 0)[i])
  {
    SpanFacts(t, Scan(t, 0));
    SpelledTiles(t, Scan(t, 0), 0, |t|);
  }

  /** A template in which `tag_re` finds nothing is one text token, or no
      token at all when it is empty. */
  lemma NoTagsIsOneText(t: string)
    requires NoTagIn(t, 0, |t|)
    ensures Tokenise(t) == if |t| == 0 then [] else [Token(TextTok, t)]
  {
    var ss := Scan(t, 0);
    if |t| > 0 {
      assert ss == [Span(TextTok, 0, |t|)];
      assert t[0..|t|] == t;
      assert Tokenise(t)[0] == Token(TextTok, t);
    }
  }
}
