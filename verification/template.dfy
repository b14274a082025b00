/** `Template` (stencil.py:112-139): a template is compiled once, when it is
    built, into its nodes, and rendered any number of times against a
    context; a plain mapping is wrapped into a context with no filters. */
module Template {
  import opened Results
  import opened Text
  import opened Numerals
  import opened Values
  import opened Scope
  import opened Resolver
  import opened Tokenizer
  import opened Parser
  import opened Renderer
  import opened Sources

  /** `Template(src).nodes` with an unterminated tag reported as an error
      (the corrected behaviour): the tokens of the source, parsed. The
      Python 2 code never reports one (see `CompileAsWritten`). */
  function Compile(src: string): Result<seq<Node>, ParseError> {
    Parse(Tokenise(src))
  }

  /** `Template(src).nodes` as the Python 2 code computes it: an unterminated
      tag quietly cuts the template short. */
  function CompileAsWritten(src: string): Result<seq<Node>, ParseError> {
    ParseAsWritten(Tokenise(src))
  }

  /** `template.render(context)`: the output of the nodes, in order. */
  function Render(nodes: seq<Node>, ctx: Context): (r: Result<string, EvalError>)
    requires |ctx.stack| > 0
    ensures r.Ok? <==> RenderNodes(ctx.filters, ctx.stack, nodes).Ok?
    ensures r.Ok? ==> r.value == RenderNodes(ctx.filters, ctx.stack, nodes).value.out
    ensures r.Err? ==> r.error == RenderNodes(ctx.filters, ctx.stack, nodes).error
  {
    match RenderNodes(ctx.filters, ctx.stack, nodes)
    case Err(e) => Err(e)
    case Ok(res) => Ok(res.out)
  }

  /** `template.render(data)` with a plain mapping: one frame, no filters. */
  function RenderData(nodes: seq<Node>, data: Frame): Result<string, EvalError> {
    Render(nodes, NewContext(data, map[]))
  }

  /** Source without any tag compiles to one text node, or to nothing when
      it is empty, and renders as itself against any context. */
  lemma PlainTextRendersItself(src: string, ctx: Context)
    requires NoTagIn(src, 0, |src|) && |ctx.stack| > 0
    ensures Compile(src) == Ok(if |src| == 0 then [] else [TextNode(src)])
    ensures Render(Compile(src).value, ctx) == Ok(src)
  {
    NoTagsIsOneText(src);
    var toks := Tokenise(src);
    if |src| > 0 {
      assert NextNode(toks, 1) == Exhausted;
      assert ParseFrom(toks, 1) == Parsed([], AllRead, 1);
      assert ParseFrom(toks, 0) == Parsed([TextNode(src)], AllRead, 1);
      RenderFromStep(ctx.filters, ctx.stack, [TextNode(src)], 0, src, "");
      assert src + "" == src;
    } else {
      assert ParseFrom(toks, 0) == Parsed([], AllRead, 0);
    }
  }

  /** A compiled template keeps the outline of its source: the text,
      variables and tag names of its nodes are those of the tokens, in
      order, comments left out. */
  lemma CompileKeepsOutline(src: string)
    ensures Compile(src).Ok? ==> ListMarks(Compile(src).value) == TokenMarks(Tokenise(src))
  {
    ParseKeepsOutline(Tokenise(src));
  }

  /** A template with a block tag whose name is not registered does not
      compile, whatever else it holds. */
  lemma UnknownTagNeverCompiles(src: string, p: nat)
    requires p < |Tokenise(src)| && Tokenise(src)[p].kind == BlockTok
    requires LookupTag(LeadingWord(Tokenise(src)[p].content)).None?
    ensures Compile(src).Err?
  {
    UnknownTagFails(Tokenise(src), p);
  }

  /** The two compilations differ only on an unterminated tag, where the
      one as written quietly returns a shorter template. */
  lemma CompileAsWrittenTruncates(src: string)
    ensures Compile(src).Ok? ==> CompileAsWritten(src) == Compile(src)
    ensures Compile(src).Err? && Compile(src).error.Unterminated? ==>
              CompileAsWritten(src).Ok? &&
              |ListMarks(CompileAsWritten(src).value)| < |TokenMarks(Tokenise(src))|
  {
    ParseAsWrittenAgrees(Tokenise(src));
    if Compile(src).Err? && Compile(src).error.Unterminated? {
      ParseAsWrittenTruncates(Tokenise(src));
    }
  }

  /** Four nodes that each render leave their outputs side by side. */
  lemma FourNodes(fs: Filters, st: Stack, ns: seq<Node>, a: string, b: string, c: string, d: string)
    requires |st| > 0 && |ns| == 4
    requires RenderNode(fs, st, ns[0]) == Ok(Rendered(a, st)) && RenderNode(fs, st, ns[1]) == Ok(Rendered(b, st))
    requires RenderNode(fs, st, ns[2]) == Ok(Rendered(c, st)) && RenderNode(fs, st, ns[3]) == Ok(Rendered(d, st))
    ensures RenderNodes(fs, st, ns) == Ok(Rendered(a + b + c + d, st))
  {
    RenderFromStep(fs, st, ns, 3, d, "");
    assert d + "" == d;
    RenderFromStep(fs, st, ns, 2, c, d);
    RenderFromStep(fs, st, ns, 1, b, c + d);
    RenderFromStep(fs, st, ns, 0, a, b + (c + d));
    assert a + (b + (c + d)) == a + b + c + d;
  }

  /** Three nodes that each render leave their outputs side by side. */
  lemma ThreeNodes(fs: Filters, st: Stack, ns: seq<Node>, a: string, b: string, c: string)
    requires |st| > 0 && |ns| == 3
    requires RenderNode(fs, st, ns[0]) == Ok(Rendered(a, st)) && RenderNode(fs, st, ns[1]) == Ok(Rendered(b, st))
    requires RenderNode(fs, st, ns[2]) == Ok(Rendered(c, st))
    ensures RenderNodes(fs, st, ns) == Ok(Rendered(a + b + c, st))
  {
    RenderFromStep(fs, st, ns, 2, c, "");
    assert c + "" == c;
    RenderFromStep(fs, st, ns, 1, b, c);
    RenderFromStep(fs, st, ns, 0, a, b + c);
    assert a + (b + c) == a + b + c;
  }

  /** An integer renders as its decimal form. */
  lemma IntText(n: int)
    ensures ToString(Invoke(IntVal(n))) == IntToString(n)
  {
  }

  /** One pass of a loop body printing the counter, a colon, the item named
      `name` and a semicolon. */
  lemma CountBodyRenders(st: Stack, counter: string, name: string, i: nat, x: int)
    requires counter == LoopCounter && name != LoopCounter
    requires '|' !in name && '.' !in name && '|' !in counter && '.' !in counter
    ensures RenderNodes(map[], Push(st, LoopFrame(name, i, IntVal(x))), [VarNode(counter), TextNode(":"), VarNode(name), TextNode(";")])
         == Ok(Rendered(IntToString(i) + ":" + IntToString(x) + ";", Push(st, LoopFrame(name, i, IntVal(x)))))
  {
    var inner := Push(st, LoopFrame(name, i, IntVal(x)));
    var body := [VarNode(counter), TextNode(":"), VarNode(name), TextNode(";")];
    LoopFrameLookup(st, name, i, IntVal(x));
    VarRenders(map[], inner, counter, IntVal(i));
    VarRenders(map[], inner, name, IntVal(x));
    IntText(i);
    IntText(x);
    FourNodes(map[], inner, body, IntToString(i), ":", IntToString(x), ";");
  }

  /** The node list of a counting loop over `[10, 20]`, for any loop
      variable and any name of the list. */
  lemma CountingLoop(counter: string, name: string, key: string)
    requires counter == LoopCounter && name != LoopCounter
    requires '|' !in name && '.' !in name && '|' !in counter && '.' !in counter && '|' !in key && '.' !in key
    ensures RenderData([ForNode(name, key, [VarNode(counter), TextNode(":"), VarNode(name), TextNode(";")])],
                       map[key := ListVal([IntVal(10), IntVal(20)])])
         == Ok(IntToString(0) + ":" + IntToString(10) + ";" + (IntToString(1) + ":" + IntToString(20) + ";"))
  {
    var body := [VarNode(counter), TextNode(":"), VarNode(name), TextNode(";")];
    var items := [IntVal(10), IntVal(20)];
    var data := map[key := ListVal(items)];
    var st := [data];
    var first := IntToString(0) + ":" + IntToString(10) + ";";
    var second := IntToString(1) + ":" + IntToString(20) + ";";
    assert NewContext(data, map[]) == Context(st, map[]);
    PlainName(Context(st, map[]), key);
    assert Lookup(st, key) == Some(ListVal(items));
    ForRendersEachItem(map[], st, name, key, body);
    CountBodyRenders(st, counter, name, 0, 10);
    CountBodyRenders(st, counter, name, 1, 20);
    assert EachItem(map[], st, name, body, items, 2) == Ok("");
    assert EachItem(map[], st, name, body, items, 1) == Ok(second + "");
    assert second + "" == second;
    assert EachItem(map[], st, name, body, items, 0) == Ok(first + second);
    OneNode(map[], st, ForNode(name, key, body), first + second);
  }

  /** The rendering half of `LoopCounterExample`. */
  lemma LoopCounterRenders()
    ensures RenderData([ForNode("n", "nums", [VarNode("loopcounter"), TextNode(":"), VarNode("n"), TextNode(";")])],
                       map["nums" := ListVal([IntVal(10), IntVal(20)])])
         == Ok("0:10;1:20;")
  {
    CountingLoop("loopcounter", "n", "nums");
    assert IntToString(0) == "0" && IntToString(1) == "1";
    assert IntToString(10) == "10" && IntToString(20) == "20";
    assert "0" + ":" + "10" + ";" == "0:10;";
    assert "1" + ":" + "20" + ";" == "1:20;";
    assert "0:10;" + "1:20;" == "0:10;1:20;";
  }

  /** `{% for n in nums %}{{ loopcounter }}:{{ n }};{% endfor %}` compiles
      to one loop node, and with `nums` bound to `[10, 20]` renders
      `0:10;1:20;`. */
  lemma LoopCounterExample()
    ensures Compile("{% for n in nums %}{{ loopcounter }}:{{ n }};{% endfor %}")
         == Ok([ForNode("n", "nums", [VarNode("loopcounter"), TextNode(":"), VarNode("n"), TextNode(";")])])
    ensures RenderData([ForNode("n", "nums", [VarNode("loopcounter"), TextNode(":"), VarNode("n"), TextNode(";")])],
                       map["nums" := ListVal([IntVal(10), IntVal(20)])])
         == Ok("0:10;1:20;")
  {
    LoopCompiles();
    LoopCounterRenders();
  }

  /** A template of one node renders as that node. */
  lemma OneNode(fs: Filters, st: Stack, n: Node, out: string)
    requires |st| > 0 && RenderNode(fs, st, n) == Ok(Rendered(out, st))
    ensures RenderNodes(fs, st, [n]) == Ok(Rendered(out, st))
  {
    RenderFromStep(fs, st, [n], 0, out, "");
    assert out + "" == out;
  }

  /** The node list of `{% if not flag %}A{% endif %}` renders `A` exactly
      when `flag` is unbound or false, for any plain name `flag`. */
  lemma IfNotFlag(flag: string, data: Frame)
    requires ' ' !in flag && '|' !in flag && '.' !in flag && Strip(flag) == flag && flag != "not"
    ensures RenderData([IfNode("not " + flag, [TextNode("A")])], data)
         == Ok(if flag in data && Truthy(Invoke(data[flag])) then "" else "A")
  {
    var st := [data];
    var ctx := Context(st, map[]);
    assert NewContext(data, map[]) == ctx;
    NotCondition(ctx, flag);
    PlainName(ctx, flag);
    assert Lookup(st, flag) == if flag in data then Some(data[flag]) else None;
    var holds := !(flag in data && Truthy(Invoke(data[flag])));
    assert TestCondition(ctx, "not " + flag) == Ok(holds);
    IfRendersBodyIff(map[], st, "not " + flag, [TextNode("A")], holds);
    if holds {
      OneNode(map[], st, TextNode("A"), "A");
      OneNode(map[], st, IfNode("not " + flag, [TextNode("A")]), "A");
    } else {
      OneNode(map[], st, IfNode("not " + flag, [TextNode("A")]), "");
    }
  }

  /** The rendering half of `IfNotExample`. */
  lemma IfNotRenders()
    ensures RenderData([IfNode("not flag", [TextNode("A")])], map[]) == Ok("A")
    ensures RenderData([IfNode("not flag", [TextNode("A")])], map["flag" := BoolVal(true)]) == Ok("")
  {
    StripUnchanged("flag");
    assert "not " + "flag" == "not flag";
    IfNotFlag("flag", map[]);
    IfNotFlag("flag", map["flag" := BoolVal(true)]);
  }

  /** `{% if not flag %}A{% endif %}` compiles to one condition node, which
      renders `A` when `flag` is not bound and nothing when it is bound to
      true. */
  lemma IfNotExample()
    ensures Compile("{% if not flag %}A{% endif %}") == Ok([IfNode("not flag", [TextNode("A")])])
    ensures RenderData([IfNode("not flag", [TextNode("A")])], map[]) == Ok("A")
    ensures RenderData([IfNode("not flag", [TextNode("A")])], map["flag" := BoolVal(true)]) == Ok("")
  {
    IfNotCompiles();
    IfNotRenders();
  }

  /** The node list of `Hi {{ name }}{% if show %}!{% endif %}` for any
      plain names: the greeting, the name's text, and the mark when `show`
      is true. */
  lemma Greeting(name: string, show: string, who: string, shown: bool)
    requires '|' !in name && '.' !in name && name != show
    requires ' ' !in show && '|' !in show && '.' !in show && Strip(show) != "not"
    ensures RenderData([TextNode("Hi "), VarNode(name), IfNode(show, [TextNode("!")])],
                       map[name := StrVal(who), show := BoolVal(shown)])
         == Ok("Hi " + who + (if shown then "!" else ""))
  {
    var data := map[name := StrVal(who), show := BoolVal(shown)];
    var st := [data];
    assert NewContext(data, map[]) == Context(st, map[]);
    GreetingNodes(name, show, who, shown);
    assert RenderNode(map[], st, TextNode("Hi ")) == Ok(Rendered("Hi ", st));
    ThreeNodes(map[], st, [TextNode("Hi "), VarNode(name), IfNode(show, [TextNode("!")])], "Hi ", who, if shown then "!" else "");
  }

  /** The name and the condition of the greeting, each rendered on its own. */
  lemma GreetingNodes(name: string, show: string, who: string, shown: bool)
    requires '|' !in name && '.' !in name && name != show
    requires ' ' !in show && '|' !in show && '.' !in show && Strip(show) != "not"
    ensures var st := [map[name := StrVal(who), show := BoolVal(shown)]];
            RenderNode(map[], st, VarNode(name)) == Ok(Rendered(who, st)) &&
            RenderNode(map[], st, IfNode(show, [TextNode("!")])) == Ok(Rendered(if shown then "!" else "", st))
  {
    var data := map[name := StrVal(who), show := BoolVal(shown)];
    var st := [data];
    var ctx := Context(st, map[]);
    assert Lookup(st, name) == Some(StrVal(who));
    assert Lookup(st, show) == Some(BoolVal(shown));
    VarRenders(map[], st, name, StrVal(who));
    PlainCondition(ctx, show);
    PlainName(ctx, show);
    assert TestCondition(ctx, show) == Ok(shown);
    IfRendersBodyIff(map[], st, show, [TextNode("!")], shown);
    if shown {
      OneNode(map[], st, TextNode("!"), "!");
    }
  }

  /** The rendering half of `GreetingExample`. */
  lemma GreetingRenders()
    ensures RenderData([TextNode("Hi "), VarNode("name"), IfNode("show", [TextNode("!")])],
                       map["name" := StrVal("Amy"), "show" := BoolVal(true)]) == Ok("Hi Amy!")
    ensures RenderData([TextNode("Hi "), VarNode("name"), IfNode("show", [TextNode("!")])],
                       map["name" := StrVal("Amy"), "show" := BoolVal(false)]) == Ok("Hi Amy")
  {
    StripUnchanged("show");
    Greeting("name", "show", "Amy", true);
    Greeting("name", "show", "Amy", false);
    assert "Hi " + "Amy" + "!" == "Hi Amy!";
    assert "Hi " + "Amy" + "" == "Hi Amy";
  }

  /** `Hi {{ name }}{% if show %}!{% endif %}` compiles to three nodes, which
      render `Hi Amy!` with `show` true and `Hi Amy` with `show` false. */
  lemma GreetingExample()
    ensures Compile("Hi {{ name }}{% if show %}!{% endif %}")
         == Ok([TextNode("Hi "), VarNode("name"), IfNode("show", [TextNode("!")])])
    ensures RenderData([TextNode("Hi "), VarNode("name"), IfNode("show", [TextNode("!")])],
                       map["name" := StrVal("Amy"), "show" := BoolVal(true)]) == Ok("Hi Amy!")
    ensures RenderData([TextNode("Hi "), VarNode("name"), IfNode("show", [TextNode("!")])],
                       map["name" := StrVal("Amy"), "show" := BoolVal(false)]) == Ok("Hi Amy")
  {
    GreetCompiles();
    GreetingRenders();
  }

}
