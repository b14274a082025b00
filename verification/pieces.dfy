/** A source assembled from pieces, each a text or a tag with its inside:
    when the pieces are well formed, `Tokenise` (stencil.py:41-55) cuts the
    source into one token per piece. The lemmas here are the bridge from a
    written-out template source to the token list the parser reads. The
    fixed-size lemmas near the end (`AssembleThree` to `SixPieceTokens`,
    `Regroup`, `GoodTag`, `VarTagText`) are helpers for the literal sources
    of the Sources module and state nothing new about the engine. */
module Pieces {
  import opened Results
  import opened Text
  import opened Tokenizer

  /** The closer search of `MatchEnd` stops at the first closer after a
      non-blank inside. */
  lemma TagEnd(t: string, s: nat, k: TokenKind, e: nat)
    requires k != TextTok && s + 4 < e <= |t|
    requires DelimAt(t, s, Opener(k)) && DelimAt(t, e - 2, Closer(k))
    requires !AllSpace(t[s + 2..e - 2])
    requires forall q :: s + 2 <= q < e - 2 ==> t[q] != Closer(k)[0]
    ensures MatchEnd(t, s, k) == Some(e)
  {
    var c0 := SpaceRun(t, s + 2);
    assert c0 < e - 2;
    var f := FindDelim(t, Closer(k), c0 + 1);
    assert f.Some? && f.value <= e - 2;
    assert t[f.value] == Closer(k)[0];
    assert f == Some(e - 2);
  }

  /** Only the kind whose opener is present can match. */
  lemma MatchAtKind(t: string, s: nat, k: TokenKind)
    requires k != TextTok && DelimAt(t, s, Opener(k)) && MatchEnd(t, s, k).Some?
    ensures MatchAt(t, s) == Some(Span(k, s, MatchEnd(t, s, k).value))
  {
    forall k2 | k2 != TextTok && k2 != k ensures MatchEnd(t, s, k2).None? {
      assert !DelimAt(t, s, Opener(k2));
    }
  }

  /** A tag whose inside is not blank and holds no character that starts its
      closer matches exactly as far as its closer. */
  lemma TagMatches(t: string, s: nat, k: TokenKind, inner: string)
    requires k != TextTok
    requires s + |inner| + 4 <= |t| && t[s..s + |inner| + 4] == Opener(k) + inner + Closer(k)
    requires Closer(k)[0] !in inner && !AllSpace(inner)
    ensures MatchAt(t, s) == Some(Span(k, s, s + |inner| + 4))
  {
    var e := s + |inner| + 4;
    var w := t[s..e];
    assert |Opener(k)| == 2 && |Closer(k)| == 2;
    InsideTag(t, s, e, k, inner);
    assert DelimAt(t, s, Opener(k)) by {
      assert w[0] == t[s] && w[1] == t[s + 1];
      assert w[0] == Opener(k)[0] && w[1] == Opener(k)[1];
    }
    assert DelimAt(t, e - 2, Closer(k)) by {
      assert w[|w| - 2] == t[e - 2] && w[|w| - 1] == t[e - 1];
      assert w[|w| - 2] == Closer(k)[0] && w[|w| - 1] == Closer(k)[1];
    }
    forall q | s + 2 <= q < e - 2 ensures t[q] != Closer(k)[0] {
      assert t[q] == t[s + 2..e - 2][q - s - 2];
    }
    TagEnd(t, s, k, e);
    MatchAtKind(t, s, k);
  }

  /** Text without an opening brace holds no match. */
  lemma {:induction false} FindMatchSkips(t: string, pos: nat, s: nat)
    requires pos <= s <= |t| && '{' !in t[pos..s]
    ensures FindMatch(t, pos) == FindMatch(t, s)
    decreases s - pos
  {
    if pos < s {
      assert t[pos] == t[pos..s][0];
      forall k | k != TextTok ensures MatchEnd(t, pos, k).None? {
        assert !DelimAt(t, pos, Opener(k));
      }
      assert t[pos + 1..s] == t[pos..s][1..];
      FindMatchSkips(t, pos + 1, s);
    }
  }

  /** One step of the scan: the text before the next match, then the match. */
  lemma ScanAt(t: string, pos: nat, sp: Span)
    requires pos <= |t| && FindMatch(t, pos) == Some(sp)
    ensures sp.end <= |t|
    ensures Scan(t, pos) == (if pos < sp.start then [Span(TextTok, pos, sp.start)] else []) + [sp] + Scan(t, sp.end)
  {
  }

  /** With no opening brace left, the rest is one text span, if any. */
  lemma ScanEnd(t: string, pos: nat)
    requires pos <= |t| && '{' !in t[pos..]
    ensures Scan(t, pos) == if pos < |t| then [Span(TextTok, pos, |t|)] else []
  {
    FindMatchSkips(t, pos, |t|);
  }

  /** A source written as a sequence of pieces: text, or a tag with its
      inside. */
  datatype Piece = TextPiece(text: string) | TagPiece(kind: TokenKind, inner: string)

  /** A tag's content between its delimiters, one space on each side. */
  function Pad(c: string): string {
    " " + c + " "
  }

  /** Text holds no opening brace; a tag has a kind with delimiters and an
      inside that is not blank and cannot close it early. */
  predicate GoodPiece(p: Piece) {
    match p
    case TextPiece(s) => |s| > 0 && '{' !in s
    case TagPiece(k, inner) => k != TextTok && Closer(k)[0] !in inner && !AllSpace(inner)
  }

  /** `strip()` removes the padding again from trimmed content. */
  lemma StripPad(c: string)
    requires |c| > 0 && !IsSpace(c[0]) && !IsSpace(c[|c| - 1])
    ensures Strip(Pad(c)) == c
  {
    var s := Pad(c);
    assert s[1] == c[0] && !IsSpace(s[1]);
    assert forall q :: 1 <= q < |s| - 1 ==> s[q] == c[q - 1];
    assert SkipSpace(s, 0) == 1;
    assert s[|s| - 2] == c[|c| - 1];
    assert BackSpace(s, 1, |s|) == |s| - 1;
    assert s[1..|s| - 1] == c;
  }

  /** Every piece is well formed and no two text pieces are adjacent, so
      that each text piece is one whole text token. */
  predicate GoodPieces(ps: seq<Piece>) {
    (forall i :: 0 <= i < |ps| ==> GoodPiece(ps[i])) &&
    (forall i :: 0 <= i < |ps| - 1 ==> ps[i].TagPiece? || ps[i + 1].TagPiece?)
  }

  /** The source text of a piece; a tag piece of the text kind has no
      delimiters and is never well formed. */
  function PieceText(p: Piece): string {
    match p
    case TextPiece(s) => s
    case TagPiece(k, inner) => if k == TextTok then inner else Opener(k) + inner + Closer(k)
  }

  function PieceKind(p: Piece): TokenKind {
    match p
    case TextPiece(_) => TextTok
    case TagPiece(k, _) => k
  }

  /** The source spelled by the pieces from index `i` on. */
  function Assemble(ps: seq<Piece>, i: nat): string
    requires i <= |ps|
    decreases |ps| - i
  {
    if i == |ps| then "" else PieceText(ps[i]) + Assemble(ps, i + 1)
  }

  /** The piece at the front of a suffix of the source: where it ends, and
      the source of the pieces after it. */
  lemma PieceAt(t: string, pos: nat, ps: seq<Piece>, i: nat) returns (next: nat)
    requires i < |ps| && pos <= |t| && t[pos..] == Assemble(ps, i)
    ensures next == pos + |PieceText(ps[i])| <= |t|
    ensures t[pos..next] == PieceText(ps[i])
    ensures t[next..] == Assemble(ps, i + 1)
  {
    next := pos + |PieceText(ps[i])|;
    SplitAt(t, pos, PieceText(ps[i]), Assemble(ps, i + 1));
  }

  /** A well-formed tag piece at `pos` is the next match. */
  lemma TagAt(t: string, pos: nat, next: nat, ps: seq<Piece>, i: nat)
    requires i < |ps| && ps[i].TagPiece? && GoodPiece(ps[i])
    requires next == pos + |PieceText(ps[i])| <= |t| && t[pos..next] == PieceText(ps[i])
    ensures FindMatch(t, pos) == Some(Span(ps[i].kind, pos, next))
  {
    var k, inner := ps[i].kind, ps[i].inner;
    assert |Opener(k)| == 2 && |Closer(k)| == 2;
    TagMatches(t, pos, k, inner);
  }

  /** A text piece at `pos` holds no match. */
  lemma TextAt(t: string, pos: nat, next: nat, ps: seq<Piece>, i: nat)
    requires i < |ps| && ps[i].TextPiece? && GoodPiece(ps[i])
    requires next == pos + |PieceText(ps[i])| <= |t| && t[pos..next] == PieceText(ps[i])
    ensures FindMatch(t, pos) == FindMatch(t, next)
  {
    FindMatchSkips(t, pos, next);
  }

  /** A suffix that is a concatenation splits where its first part ends. */
  lemma SplitAt(t: string, pos: nat, w: string, rest: string)
    requires pos <= |t| && t[pos..] == w + rest
    ensures pos + |w| <= |t| && t[pos..pos + |w|] == w && t[pos + |w|..] == rest
  {
    assert t[pos..pos + |w|] == t[pos..][..|w|];
    assert t[pos + |w|..] == t[pos..][|w|..];
  }

  /** Where a span of the token list sits in the source, given the piece it
      should be. */
  ghost predicate Fits(t: string, sp: Span, p: Piece) {
    GoodPiece(p) && sp.kind == PieceKind(p) && sp.start <= sp.end <= |t| && t[sp.start..sp.end] == PieceText(p)
  }

  /** The spans are the pieces from index `i` on, one for one. */
  ghost predicate Covers(t: string, spans: seq<Span>, ps: seq<Piece>, i: nat) {
    i <= |ps| && |spans| == |ps| - i && forall j :: 0 <= j < |spans| ==> Fits(t, spans[j], ps[i + j])
  }

  /** A fitting span in front extends a cover by one piece. */
  lemma ConsCovers(t: string, sp: Span, rest: seq<Span>, ps: seq<Piece>, i: nat)
    requires i < |ps| && Fits(t, sp, ps[i]) && Covers(t, rest, ps, i + 1)
    ensures Covers(t, [sp] + rest, ps, i)
  {
    var all := [sp] + rest;
    forall j | 0 <= j < |all| ensures Fits(t, all[j], ps[i + j]) {
      if j > 0 {
        assert all[j] == rest[j - 1];
        assert i + 1 + (j - 1) == i + j;
      }
    }
  }

  /** A tag piece adds its own span in front of the rest of the scan. */
  lemma TagStep(t: string, pos: nat, ps: seq<Piece>, i: nat, next: nat)
    requires i < |ps| && GoodPiece(ps[i]) && ps[i].TagPiece?
    requires next == pos + |PieceText(ps[i])| <= |t| && t[pos..next] == PieceText(ps[i])
    requires FindMatch(t, pos) == Some(Span(ps[i].kind, pos, next))
    requires Covers(t, Scan(t, next), ps, i + 1)
    ensures Covers(t, Scan(t, pos), ps, i)
  {
    var sp := Span(ps[i].kind, pos, next);
    ScanAt(t, pos, sp);
    assert Scan(t, pos) == [sp] + Scan(t, next);
    ConsCovers(t, sp, Scan(t, next), ps, i);
  }

  /** A text piece followed by a tag piece adds a text span and the tag
      span. */
  lemma TextTagStep(t: string, pos: nat, ps: seq<Piece>, i: nat, next: nat, after: nat)
    requires GoodPieces(ps) && i + 1 < |ps| && ps[i].TextPiece? && ps[i + 1].TagPiece?
    requires next == pos + |PieceText(ps[i])| && after == next + |PieceText(ps[i + 1])| && after <= |t|
    requires t[pos..next] == PieceText(ps[i]) && t[next..after] == PieceText(ps[i + 1])
    requires FindMatch(t, pos) == FindMatch(t, next)
    requires FindMatch(t, next) == Some(Span(ps[i + 1].kind, next, after))
    requires Covers(t, Scan(t, after), ps, i + 2)
    ensures Covers(t, Scan(t, pos), ps, i)
  {
    var sp := Span(ps[i + 1].kind, next, after);
    ScanAt(t, pos, sp);
    assert Scan(t, pos) == [Span(TextTok, pos, next)] + ([sp] + Scan(t, after));
    ConsCovers(t, sp, Scan(t, after), ps, i + 1);
    ConsCovers(t, Span(TextTok, pos, next), [sp] + Scan(t, after), ps, i);
  }

  /** The scan of an assembled source yields one span per piece, in order;
      the three lemmas recurse on each other over the pieces left. */
  lemma {:induction false} ScanPieces(t: string, pos: nat, ps: seq<Piece>, i: nat)
    requires GoodPieces(ps) && i <= |ps| && pos <= |t| && t[pos..] == Assemble(ps, i)
    ensures Covers(t, Scan(t, pos), ps, i)
    decreases |ps| - i, 1
  {
    if i == |ps| {
      ScanEnd(t, pos);
    } else if ps[i].TagPiece? {
      ScanFromTag(t, pos, ps, i);
    } else {
      ScanFromText(t, pos, ps, i);
    }
  }

  /** `ScanPieces` when the next piece is a tag. */
  lemma {:induction false} ScanFromTag(t: string, pos: nat, ps: seq<Piece>, i: nat)
    requires GoodPieces(ps) && i < |ps| && ps[i].TagPiece? && pos <= |t| && t[pos..] == Assemble(ps, i)
    ensures Covers(t, Scan(t, pos), ps, i)
    decreases |ps| - i, 0
  {
    var next := PieceAt(t, pos, ps, i);
    TagAt(t, pos, next, ps, i);
    ScanPieces(t, next, ps, i + 1);
    TagStep(t, pos, ps, i, next);
  }

  /** `ScanPieces` when the next piece is text. */
  lemma {:induction false} ScanFromText(t: string, pos: nat, ps: seq<Piece>, i: nat)
    requires GoodPieces(ps) && i < |ps| && ps[i].TextPiece? && pos <= |t| && t[pos..] == Assemble(ps, i)
    ensures Covers(t, Scan(t, pos), ps, i)
    decreases |ps| - i, 0
  {
    var next := PieceAt(t, pos, ps, i);
    TextAt(t, pos, next, ps, i);
    if i + 1 == |ps| {
      ScanEnd(t, pos);
      assert Fits(t, Span(TextTok, pos, next), ps[i]);
    } else {
      assert ps[i + 1].TagPiece?;
      var after := PieceAt(t, next, ps, i + 1);
      TagAt(t, next, after, ps, i + 1);
      ScanPieces(t, after, ps, i + 2);
      TextTagStep(t, pos, ps, i, next, after);
    }
  }

  /** The token each piece becomes. */
  function PieceToken(p: Piece): Token {
    match p
    case TextPiece(s) => Token(TextTok, s)
    case TagPiece(k, inner) => Token(k, Strip(inner))
  }

  /** A span that fits a piece becomes the piece's token. */
  lemma TokenOfFits(t: string, sp: Span, p: Piece)
    requires Fits(t, sp, p) && WellFormed(t, sp)
    ensures TokenOf(t, sp) == PieceToken(p)
  {
    var tok := TokenOf(t, sp);
    if p.TagPiece? {
      InsideTag(t, sp.start, sp.end, p.kind, p.inner);
      assert tok.content == Strip(p.inner);
    } else {
      assert tok.content == p.text;
    }
    assert tok == Token(tok.kind, tok.content);
  }

  /** What lies between a tag's delimiters. */
  lemma InsideTag(t: string, s: nat, e: nat, k: TokenKind, inner: string)
    requires k != TextTok && s <= e <= |t| && t[s..e] == Opener(k) + inner + Closer(k)
    ensures s + 2 <= e - 2 && t[s + 2..e - 2] == inner
  {
    var w := t[s..e];
    assert |Opener(k)| == 2 && |Closer(k)| == 2;
    assert |w| == |inner| + 4;
    forall q | 0 <= q < |inner| ensures t[s + 2 + q] == inner[q] {
      assert t[s + 2 + q] == w[2 + q];
    }
    assert t[s + 2..e - 2] == inner;
  }

  /** The tokens of the pieces, one each. */
  function PieceTokens(ps: seq<Piece>): seq<Token> {
    seq(|ps|, j requires 0 <= j < |ps| => PieceToken(ps[j]))
  }

  /** One span per piece gives one token per piece. */
  lemma TokensFromCover(t: string, ps: seq<Piece>)
    requires Covers(t, Scan(t, 0), ps, 0)
    ensures Tokenise(t) == PieceTokens(ps)
  {
    var ss := Scan(t, 0);
    SpanFacts(t, ss);
    forall j | 0 <= j < |ps| ensures Tokenise(t)[j] == PieceTokens(ps)[j] {
      TokenOfFits(t, ss[j], ps[j]);
    }
  }

  /** A source spelled by well-formed pieces tokenises into one token per
      piece. */
  lemma TokensOfPieces(ps: seq<Piece>, src: string)
    requires GoodPieces(ps) && Assemble(ps, 0) == src
    ensures Tokenise(src) == PieceTokens(ps)
  {
    assert src[0..] == src;
    ScanPieces(src, 0, ps, 0);
    TokensFromCover(src, ps);
  }

  /** A padded tag piece holds its content, stripped. */
  lemma TagToken(k: TokenKind, c: string)
    requires Trimmed(c)
    ensures PieceToken(TagPiece(k, Pad(c))) == Token(k, c)
  {
    StripPad(c);
  }

  /** The token at index `j` of a list of pieces, for a tag piece. */
  lemma TagTokenIn(ps: seq<Piece>, j: nat, k: TokenKind, c: string)
    requires j < |ps| && ps[j] == TagPiece(k, Pad(c)) && Trimmed(c)
    ensures |PieceTokens(ps)| == |ps| && PieceTokens(ps)[j] == Token(k, c)
  {
    TagToken(k, c);
  }

  /** The token at index `j` of a list of pieces, for a text piece. */
  lemma TextTokenIn(ps: seq<Piece>, j: nat, s: string)
    requires j < |ps| && ps[j] == TextPiece(s)
    ensures |PieceTokens(ps)| == |ps| && PieceTokens(ps)[j] == Token(TextTok, s)
  {
  }

  /** A list of five tokens, given element by element. */
  lemma FiveTokens(ts: seq<Token>, a: Token, b: Token, c: Token, d: Token, e: Token)
    requires |ts| == 5 && ts[0] == a && ts[1] == b && ts[2] == c && ts[3] == d && ts[4] == e
    ensures ts == [a, b, c, d, e]
  {
  }

  /** A list of six tokens, given element by element. */
  lemma SixTokens(ts: seq<Token>, a: Token, b: Token, c: Token, d: Token, e: Token, f: Token)
    requires |ts| == 6 && ts[0] == a && ts[1] == b && ts[2] == c && ts[3] == d && ts[4] == e && ts[5] == f
    ensures ts == [a, b, c, d, e, f]
  {
  }

  /** The tokens of six pieces, listed. */
  lemma SixPieceTokens(p0: Piece, p1: Piece, p2: Piece, p3: Piece, p4: Piece, p5: Piece)
    ensures PieceTokens([p0, p1, p2, p3, p4, p5])
         == [PieceToken(p0), PieceToken(p1), PieceToken(p2), PieceToken(p3), PieceToken(p4), PieceToken(p5)]
  {
  }

  /** The source of three pieces, written out. */
  lemma AssembleThree(a: Piece, b: Piece, c: Piece)
    ensures Assemble([a, b, c], 0) == PieceText(a) + PieceText(b) + PieceText(c)
  {
    var ps := [a, b, c];
    assert Assemble(ps, 2) == PieceText(c) + "";
    assert Assemble(ps, 1) == PieceText(b) + PieceText(c);
    RegroupThree(PieceText(a), PieceText(b), PieceText(c));
  }

  /** The source of five pieces, written out. */
  lemma AssembleFive(a: Piece, b: Piece, c: Piece, d: Piece, e: Piece)
    ensures Assemble([a, b, c, d, e], 0) == PieceText(a) + PieceText(b) + PieceText(c) + PieceText(d) + PieceText(e)
  {
    var ps := [a, b, c, d, e];
    assert Assemble(ps, 4) == PieceText(e) + "";
    assert Assemble(ps, 3) == PieceText(d) + PieceText(e);
    assert Assemble(ps, 2) == PieceText(c) + (PieceText(d) + PieceText(e));
    assert Assemble(ps, 1) == PieceText(b) + (PieceText(c) + (PieceText(d) + PieceText(e)));
    Regroup(PieceText(a), PieceText(b), PieceText(c), PieceText(d), PieceText(e));
  }

  /** The source of six pieces, written out. */
  lemma AssembleSix(a: Piece, b: Piece, c: Piece, d: Piece, e: Piece, f: Piece)
    ensures Assemble([a, b, c, d, e, f], 0) == PieceText(a) + PieceText(b) + PieceText(c) + PieceText(d) + PieceText(e) + PieceText(f)
  {
    var ps := [a, b, c, d, e, f];
    assert Assemble(ps, 5) == PieceText(f) + "";
    assert Assemble(ps, 4) == PieceText(e) + PieceText(f);
    assert Assemble(ps, 3) == PieceText(d) + (PieceText(e) + PieceText(f));
    assert Assemble(ps, 2) == PieceText(c) + (PieceText(d) + (PieceText(e) + PieceText(f)));
    assert Assemble(ps, 1) == PieceText(b) + (PieceText(c) + (PieceText(d) + (PieceText(e) + PieceText(f))));
    Regroup(PieceText(a), PieceText(b), PieceText(c), PieceText(d), PieceText(e) + PieceText(f));
    RegroupThree(PieceText(a) + PieceText(b) + PieceText(c) + PieceText(d), PieceText(e), PieceText(f));
  }

  /** Three strings joined from the right are the same three joined from
      the left. */
  lemma RegroupThree(x0: string, x1: string, x2: string)
    ensures x0 + (x1 + x2) == x0 + x1 + x2
  {
  }

  /** Five strings joined from the right are the same five joined from the
      left. */
  lemma Regroup(x0: string, x1: string, x2: string, x3: string, x4: string)
    ensures x0 + (x1 + (x2 + (x3 + x4))) == x0 + x1 + x2 + x3 + x4
  {
  }

  /** A padded tag piece is well formed when its content starts with a
      non-space and holds no character of its closer. */
  lemma GoodTag(k: TokenKind, c: string)
    requires k != TextTok && |c| > 0 && !IsSpace(c[0]) && Closer(k)[0] !in c
    ensures GoodPiece(TagPiece(k, Pad(c)))
  {
    assert Pad(c)[1] == c[0];
  }

  /** The source of a padded variable tag. */
  lemma VarTagText(name: string)
    ensures PieceText(TagPiece(VarTok, Pad(name))) == "{{ " + name + " }}"
  {
  }
}
