/** Template sources tokenised and parsed: a condition block around text,
    a greeting with a variable and a condition, and a counting loop. Each is
    proved for any names that tokenise cleanly, then for one literal
    source. Members without a row of their own (the piece lists, spelling
    and token-listing steps, `GreetTail`, `LoopChunks` and the like) are
    helpers for these three sources only. */
module Sources {
  import opened Results
  import opened Text
  import opened Tokenizer
  import opened Parser
  import opened Pieces

  /** `{% if cond %}x{% endif %}` as pieces. */
  function IfPieces(cond: string, x: string): seq<Piece> {
    [TagPiece(BlockTok, Pad("if " + cond)), TextPiece(x), TagPiece(BlockTok, Pad("endif"))]
  }

  /** The sources of the `if` and `endif` tags. */
  lemma IfTagText(cond: string)
    ensures PieceText(TagPiece(BlockTok, Pad("if " + cond))) == "{% if " + cond + " %}"
    ensures PieceText(TagPiece(BlockTok, Pad("endif"))) == "{% endif %}"
  {
  }

  /** The pieces of a condition block are well formed and spell its source. */
  lemma IfSpelled(cond: string, x: string)
    requires Trimmed(cond) && '%' !in cond && |x| > 0 && '{' !in x
    ensures GoodPieces(IfPieces(cond, x))
    ensures Assemble(IfPieces(cond, x), 0) == "{% if " + cond + " %}" + x + "{% endif %}"
  {
    var ps := IfPieces(cond, x);
    GoodTag(BlockTok, "if " + cond);
    GoodTag(BlockTok, "endif");
    AssembleThree(ps[0], ps[1], ps[2]);
    IfTagText(cond);
  }

  /** The tokens of a condition block around text. */
  lemma IfSourceTokens(cond: string, x: string)
    requires Trimmed(cond) && '%' !in cond && |x| > 0 && '{' !in x
    ensures Tokenise("{% if " + cond + " %}" + x + "{% endif %}")
         == [Token(BlockTok, "if " + cond), Token(TextTok, x), Token(BlockTok, "endif")]
  {
    var ps := IfPieces(cond, x);
    IfSpelled(cond, x);
    TokensOfPieces(ps, "{% if " + cond + " %}" + x + "{% endif %}");
    StripPad("if " + cond);
    StripPad("endif");
    assert PieceTokens(ps) == [Token(BlockTok, "if " + cond), Token(TextTok, x), Token(BlockTok, "endif")];
  }

  /** Those tokens parse into one condition node holding the text. */
  lemma IfSourceParse(cond: string, x: string)
    requires Trimmed(cond) && |x| > 0
    ensures Parse([Token(BlockTok, "if " + cond), Token(TextTok, x), Token(BlockTok, "endif")])
         == Ok([IfNode(cond, [TextNode(x)])])
  {
    var toks := [Token(BlockTok, "if " + cond), Token(TextTok, x), Token(BlockTok, "endif")];
    EndIfStep(toks, 2);
    BodyStep(toks, 1, "endif", [], 3);
    assert [TextNode(x)] + [] == [TextNode(x)];
    assert "if " + cond == "if" + " " + cond;
    IfStep(toks, 0, cond, [TextNode(x)], 3);
    LastStep(toks, 0, IfNode(cond, [TextNode(x)]));
  }

  /** A condition block around text, for any trimmed condition and any text
      without braces, tokenises into three tokens and parses into one node. */
  lemma IfSource(cond: string, x: string)
    requires Trimmed(cond) && '%' !in cond && |x| > 0 && '{' !in x
    ensures Tokenise("{% if " + cond + " %}" + x + "{% endif %}")
         == [Token(BlockTok, "if " + cond), Token(TextTok, x), Token(BlockTok, "endif")]
    ensures Parse(Tokenise("{% if " + cond + " %}" + x + "{% endif %}")) == Ok([IfNode(cond, [TextNode(x)])])
  {
    IfSourceTokens(cond, x);
    IfSourceParse(cond, x);
  }

  /** The literal source of the `not flag` block, spelled out. */
  lemma IfNotSpelling()
    ensures "{% if " + "not flag" + " %}" + "A" + "{% endif %}" == "{% if not flag %}A{% endif %}"
  {
  }

  /** `{% if not flag %}A{% endif %}` parses into one condition node. */
  lemma IfNotCompiles()
    ensures Parse(Tokenise("{% if not flag %}A{% endif %}")) == Ok([IfNode("not flag", [TextNode("A")])])
  {
    IfSource("not flag", "A");
    IfNotSpelling();
  }

  /** `g{{ name }}{% if show %}m{% endif %}` as pieces. */
  function GreetPieces(g: string, name: string, show: string, m: string): seq<Piece> {
    [TextPiece(g), TagPiece(VarTok, Pad(name)), TagPiece(BlockTok, Pad("if " + show)), TextPiece(m), TagPiece(BlockTok, Pad("endif"))]
  }

  /** The greeting's pieces are well formed. */
  lemma GreetGood(g: string, name: string, show: string, m: string)
    requires |g| > 0 && '{' !in g && |m| > 0 && '{' !in m
    requires Trimmed(name) && '}' !in name && Trimmed(show) && '%' !in show
    ensures GoodPieces(GreetPieces(g, name, show, m))
  {
    GoodTag(VarTok, name);
    GoodTag(BlockTok, "if " + show);
    GoodTag(BlockTok, "endif");
  }

  /** The greeting's pieces spell its source. */
  lemma GreetSpelled(g: string, name: string, show: string, m: string)
    ensures Assemble(GreetPieces(g, name, show, m), 0)
         == g + ("{{ " + name + " }}") + ("{% if " + show + " %}") + m + "{% endif %}"
  {
    var ps := GreetPieces(g, name, show, m);
    AssembleFive(ps[0], ps[1], ps[2], ps[3], ps[4]);
    VarTagText(name);
    IfTagText(show);
    assert PieceText(ps[0]) == g && PieceText(ps[3]) == m;
    assert PieceText(ps[1]) == "{{ " + name + " }}";
    assert PieceText(ps[2]) == "{% if " + show + " %}";
    assert PieceText(ps[4]) == "{% endif %}";
  }

  /** The greeting tokenises into five tokens. */
  lemma GreetTokens(g: string, name: string, show: string, m: string)
    requires |g| > 0 && '{' !in g && |m| > 0 && '{' !in m
    requires Trimmed(name) && '}' !in name && Trimmed(show) && '%' !in show
    ensures Tokenise(g + ("{{ " + name + " }}") + ("{% if " + show + " %}") + m + "{% endif %}")
         == [Token(TextTok, g), Token(VarTok, name), Token(BlockTok, "if " + show), Token(TextTok, m), Token(BlockTok, "endif")]
  {
    var ps := GreetPieces(g, name, show, m);
    GreetGood(g, name, show, m);
    GreetSpelled(g, name, show, m);
    TokensOfPieces(ps, g + ("{{ " + name + " }}") + ("{% if " + show + " %}") + m + "{% endif %}");
    GreetPieceTokens(g, name, show, m);
  }

  /** The tokens of the greeting's pieces, listed. */
  lemma GreetPieceTokens(g: string, name: string, show: string, m: string)
    requires Trimmed(name) && Trimmed(show)
    ensures PieceTokens(GreetPieces(g, name, show, m))
         == [Token(TextTok, g), Token(VarTok, name), Token(BlockTok, "if " + show), Token(TextTok, m), Token(BlockTok, "endif")]
  {
    var ps := GreetPieces(g, name, show, m);
    TextTokenIn(ps, 0, g);
    TagTokenIn(ps, 1, VarTok, name);
    TagTokenIn(ps, 2, BlockTok, "if " + show);
    TextTokenIn(ps, 3, m);
    TagTokenIn(ps, 4, BlockTok, "endif");
    FiveTokens(PieceTokens(ps), Token(TextTok, g), Token(VarTok, name), Token(BlockTok, "if " + show), Token(TextTok, m), Token(BlockTok, "endif"));
  }

  /** The greeting's tokens parse into a text, a variable and a condition
      node. */
  lemma GreetParse(g: string, name: string, show: string, m: string)
    requires |g| > 0 && |m| > 0 && Trimmed(show)
    ensures Parse([Token(TextTok, g), Token(VarTok, name), Token(BlockTok, "if " + show), Token(TextTok, m), Token(BlockTok, "endif")])
         == Ok([TextNode(g), VarNode(name), IfNode(show, [TextNode(m)])])
  {
    var toks := [Token(TextTok, g), Token(VarTok, name), Token(BlockTok, "if " + show), Token(TextTok, m), Token(BlockTok, "endif")];
    GreetTail(toks, show, m);
    TopStep(toks, 1, [IfNode(show, [TextNode(m)])]);
    TopStep(toks, 0, [VarNode(name), IfNode(show, [TextNode(m)])]);
    assert [TextNode(g)] + ([VarNode(name)] + [IfNode(show, [TextNode(m)])])
        == [TextNode(g), VarNode(name), IfNode(show, [TextNode(m)])];
  }

  /** The condition block at the end of the greeting's tokens. */
  lemma GreetTail(toks: seq<Token>, show: string, m: string)
    requires |toks| == 5 && |m| > 0 && Trimmed(show)
    requires toks[2] == Token(BlockTok, "if " + show) && toks[3] == Token(TextTok, m) && toks[4] == Token(BlockTok, "endif")
    ensures ParseFrom(toks, 2) == Parsed([IfNode(show, [TextNode(m)])], AllRead, 5)
  {
    EndIfStep(toks, 4);
    BodyStep(toks, 3, "endif", [], 5);
    assert [TextNode(m)] + [] == [TextNode(m)];
    assert "if " + show == "if" + " " + show;
    IfStep(toks, 2, show, [TextNode(m)], 5);
    LastStep(toks, 2, IfNode(show, [TextNode(m)]));
  }

  /** A text, a variable and a condition block around text, for any names
      that tokenise cleanly: the node list the source compiles to. */
  lemma GreetSource(g: string, name: string, show: string, m: string)
    requires |g| > 0 && '{' !in g && |m| > 0 && '{' !in m
    requires Trimmed(name) && '}' !in name && Trimmed(show) && '%' !in show
    ensures Parse(Tokenise(g + ("{{ " + name + " }}") + ("{% if " + show + " %}") + m + "{% endif %}"))
         == Ok([TextNode(g), VarNode(name), IfNode(show, [TextNode(m)])])
  {
    GreetTokens(g, name, show, m);
    GreetParse(g, name, show, m);
  }

  /** The literal source of the greeting, spelled out. */
  lemma GreetSpelling()
    ensures "Hi " + ("{{ " + "name" + " }}") + ("{% if " + "show" + " %}") + "!" + "{% endif %}"
         == "Hi {{ name }}{% if show %}!{% endif %}"
  {
  }

  /** `Hi {{ name }}{% if show %}!{% endif %}` parses into three nodes. */
  lemma GreetCompiles()
    ensures Parse(Tokenise("Hi {{ name }}{% if show %}!{% endif %}"))
         == Ok([TextNode("Hi "), VarNode("name"), IfNode("show", [TextNode("!")])])
  {
    GreetSource("Hi ", "name", "show", "!");
    GreetSpelling();
  }

  /** `{% for a in key %}{{ c }}:{{ a }};{% endfor %}` as pieces. */
  function LoopPieces(a: string, key: string, c: string): seq<Piece> {
    [TagPiece(BlockTok, Pad("for " + a + " in " + key)), TagPiece(VarTok, Pad(c)), TextPiece(":"),
     TagPiece(VarTok, Pad(a)), TextPiece(";"), TagPiece(BlockTok, Pad("endfor"))]
  }

  /** Names that the counting loop's source can carry without changing how
      it tokenises: trimmed, no closer characters, and no space in the loop
      variable (so ` in ` first occurs after it). */
  predicate LoopNames(a: string, key: string, c: string) {
    Trimmed(a) && Trimmed(key) && Trimmed(c) && ' ' !in a && '%' !in a && '}' !in a && '%' !in key && '}' !in c
  }

  /** The loop's pieces are well formed. */
  lemma LoopGood(a: string, key: string, c: string)
    requires LoopNames(a, key, c)
    ensures GoodPieces(LoopPieces(a, key, c))
  {
    GoodTag(BlockTok, "for " + a + " in " + key);
    GoodTag(VarTok, c);
    GoodTag(VarTok, a);
    GoodTag(BlockTok, "endfor");
  }

  /** The sources of the `for` and `endfor` tags. */
  lemma ForTagText(a: string, key: string)
    ensures PieceText(TagPiece(BlockTok, Pad("for " + a + " in " + key))) == "{% for " + a + " in " + key + " %}"
    ensures PieceText(TagPiece(BlockTok, Pad("endfor"))) == "{% endfor %}"
  {
    var x := "for " + a + " in " + key;
    assert PieceText(TagPiece(BlockTok, Pad(x))) == "{%" + (" " + x + " ") + "%}";
    assert "{% for " + a + " in " + key + " %}" == "{% " + x + " %}";
  }

  /** The loop's pieces spell its source. */
  lemma LoopSpelled(a: string, key: string, c: string)
    ensures Assemble(LoopPieces(a, key, c), 0)
         == ("{% for " + a + " in " + key + " %}") + ("{{ " + c + " }}") + ":" + ("{{ " + a + " }}") + ";" + "{% endfor %}"
  {
    var ps := LoopPieces(a, key, c);
    AssembleSix(ps[0], ps[1], ps[2], ps[3], ps[4], ps[5]);
    VarTagText(c);
    VarTagText(a);
    ForTagText(a, key);
  }

  /** The tokens of the counting loop. */
  function LoopTokens(a: string, key: string, c: string): seq<Token> {
    [Token(BlockTok, "for " + a + " in " + key), Token(VarTok, c), Token(TextTok, ":"),
     Token(VarTok, a), Token(TextTok, ";"), Token(BlockTok, "endfor")]
  }

  /** A `for` tag's content with trimmed names is trimmed. */
  lemma ForContentTrimmed(a: string, key: string)
    requires Trimmed(a) && Trimmed(key)
    ensures Trimmed("for " + a + " in " + key)
  {
    var s := "for " + a + " in " + key;
    assert s[|s| - 1] == key[|key| - 1];
  }

  /** The tokens of the loop's pieces, listed. */
  lemma LoopPieceTokens(a: string, key: string, c: string)
    requires LoopNames(a, key, c)
    ensures PieceTokens(LoopPieces(a, key, c)) == LoopTokens(a, key, c)
  {
    var ps := LoopPieces(a, key, c);
    ForContentTrimmed(a, key);
    TagToken(BlockTok, "for " + a + " in " + key);
    TagToken(VarTok, c);
    TagToken(VarTok, a);
    TagToken(BlockTok, "endfor");
    SixPieceTokens(ps[0], ps[1], ps[2], ps[3], ps[4], ps[5]);
  }

  /** The counting loop tokenises into six tokens. */
  lemma LoopTokenise(a: string, key: string, c: string)
    requires LoopNames(a, key, c)
    ensures Tokenise(("{% for " + a + " in " + key + " %}") + ("{{ " + c + " }}") + ":" + ("{{ " + a + " }}") + ";" + "{% endfor %}")
         == LoopTokens(a, key, c)
  {
    var ps := LoopPieces(a, key, c);
    LoopGood(a, key, c);
    LoopSpelled(a, key, c);
    TokensOfPieces(ps, ("{% for " + a + " in " + key + " %}") + ("{{ " + c + " }}") + ":" + ("{{ " + a + " }}") + ";" + "{% endfor %}");
    LoopPieceTokens(a, key, c);
  }

  /** ` in ` cannot start inside a loop variable without spaces. */
  lemma NoSeparatorIn(a: string, key: string)
    requires ' ' !in a
    ensures forall k :: 0 <= k < |a| ==> !OccursAt(a + " in " + key, k, " in ")
  {
    forall k | 0 <= k < |a| ensures !OccursAt(a + " in " + key, k, " in ") {
      assert (a + " in " + key)[k] == a[k];
    }
  }

  /** The loop's tokens parse into one loop node with a four-node body. */
  lemma LoopParse(a: string, key: string, c: string)
    requires LoopNames(a, key, c)
    ensures Parse(LoopTokens(a, key, c))
         == Ok([ForNode(a, key, [VarNode(c), TextNode(":"), VarNode(a), TextNode(";")])])
  {
    var toks := LoopTokens(a, key, c);
    var body := [VarNode(c), TextNode(":"), VarNode(a), TextNode(";")];
    LoopBody(a, key, c);
    assert "for " + a + " in " + key == "for" + " " + (a + " in " + key);
    NoSeparatorIn(a, key);
    ForStep(toks, 0, a, key, body, 6);
    LastStep(toks, 0, ForNode(a, key, body));
  }

  /** The loop's body: four nodes, read up to and through `endfor`. */
  lemma LoopBody(a: string, key: string, c: string)
    ensures CollectUntil(LoopTokens(a, key, c), 1, "endfor")
         == Done([VarNode(c), TextNode(":"), VarNode(a), TextNode(";")], 6)
  {
    var toks := LoopTokens(a, key, c);
    EndForStep(toks, 5);
    BodyStep(toks, 4, "endfor", [], 6);
    BodyStep(toks, 3, "endfor", [TextNode(";")] + [], 6);
    BodyStep(toks, 2, "endfor", [VarNode(a)] + ([TextNode(";")] + []), 6);
    BodyStep(toks, 1, "endfor", [TextNode(":")] + ([VarNode(a)] + ([TextNode(";")] + [])), 6);
    assert [VarNode(c)] + ([TextNode(":")] + ([VarNode(a)] + ([TextNode(";")] + [])))
        == [VarNode(c), TextNode(":"), VarNode(a), TextNode(";")];
  }

  /** A counting loop, for any names that tokenise cleanly: the node list
      its source compiles to. */
  lemma LoopSource(a: string, key: string, c: string)
    requires LoopNames(a, key, c)
    ensures Parse(Tokenise(("{% for " + a + " in " + key + " %}") + ("{{ " + c + " }}") + ":" + ("{{ " + a + " }}") + ";" + "{% endfor %}"))
         == Ok([ForNode(a, key, [VarNode(c), TextNode(":"), VarNode(a), TextNode(";")])])
  {
    LoopTokenise(a, key, c);
    LoopParse(a, key, c);
  }

  /** The tags of the literal counting loop, spelled out. */
  lemma LoopChunks()
    ensures "{% for " + "n" + " in " + "nums" + " %}" == "{% for n in nums %}"
    ensures "{{ " + "loopcounter" + " }}" == "{{ loopcounter }}"
    ensures "{{ " + "n" + " }}" == "{{ n }}"
  {
  }

  /** The literal counting loop, spelled out. */
  lemma LoopSpelling()
    ensures "{% for n in nums %}" + "{{ loopcounter }}" + ":" + "{{ n }}" + ";" + "{% endfor %}"
         == "{% for n in nums %}{{ loopcounter }}:{{ n }};{% endfor %}"
  {
  }

  /** `{% for n in nums %}{{ loopcounter }}:{{ n }};{% endfor %}` parses
      into one loop node. */
  lemma LoopCompiles()
    ensures Parse(Tokenise("{% for n in nums %}{{ loopcounter }}:{{ n }};{% endfor %}"))
         == Ok([ForNode("n", "nums", [VarNode("loopcounter"), TextNode(":"), VarNode("n"), TextNode(";")])])
  {
    LoopSource("n", "nums", "loopcounter");
    LoopChunks();
    LoopSpelling();
  }
}
