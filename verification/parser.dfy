/** `Template.parse`, the tag registry and `Nodelist` (stencil.py:119-131,
    164-255). The tokens are read once, front to back, through a cursor: a
    compound tag reads the nodes of its body from the same cursor until it
    meets the node that ends it. */
module Parser {
  import opened Results
  import opened Text
  import opened Tokenizer

  /** The nodes of a template. `EndForNode` and `EndIfNode` are the end
      markers; a marker that closes a body is consumed, any other one stays in
      the tree and renders as nothing. */
  datatype Node =
    | TextNode(text: string)
    | VarNode(expr: string)
    | ForNode(argname: string, iterable: string, body: seq<Node>)
    | EndForNode(content: string)
    | IfNode(condition: string, body: seq<Node>)
    | EndIfNode(content: string)

  /** The class attribute `name` of a node: the tag name for block nodes,
      nothing (Python's None) for text and variable nodes. */
  function Name(n: Node): Option<string> {
    match n
    case TextNode(_) => None
    case VarNode(_) => None
    case ForNode(_, _, _) => Some("for")
    case EndForNode(_) => Some("endfor")
    case IfNode(_, _) => Some("if")
    case EndIfNode(_) => Some("endif")
  }

  /** The block tags of the registry that `BlockMeta` fills in. */
  datatype Tag = ForTag | EndforTag | IfTag | EndifTag

  /** `BlockNode.__tags__[name]`: the tag registered under `name`, or
      nothing (the KeyError case). */
  function LookupTag(name: string): (r: Option<Tag>)
    ensures r.Some? <==> name in {"for", "endfor", "if", "endif"}
    ensures r == Some(ForTag) <==> name == "for"
    ensures r == Some(IfTag) <==> name == "if"
  {
    if name == "for" then Some(ForTag)
    else if name == "endfor" then Some(EndforTag)
    else if name == "if" then Some(IfTag)
    else if name == "endif" then Some(EndifTag)
    else None
  }

  datatype ParseError =
    | NoTagName(content: string)     // block content without a leading `\w+` word
    | UnknownTag(name: string)       // a word the registry does not know
    | BadForSyntax(content: string)  // `for` content without ` in `
    | Unterminated(awaiting: string) // the tokens ran out inside a body

  /** One step of the parser. `Done` carries a value and the cursor after the
      tokens it used; `Exhausted` means there was no token left; `RanOut`
      means the tokens ran out inside the body of a compound tag that was
      waiting for the named end marker. */
  datatype Outcome<+T> =
    | Done(value: T, next: nat)
    | Exhausted
    | RanOut(awaiting: string)
    | Failed(error: ParseError)

  /** `next(parser.parse())`: the node starting at token `pos`, comments
      skipped. */
  function NextNode(toks: seq<Token>, pos: nat): (r: Outcome<Node>)
    requires pos <= |toks|
    ensures r.Done? ==> pos < r.next <= |toks|
    ensures r.Failed? ==> !r.error.Unterminated?
    decreases |toks| - pos, 1
  {
    if pos == |toks| then Exhausted
    else
      var tok := toks[pos];
      match tok.kind
      case CommentTok => NextNode(toks, pos + 1)
      case TextTok => Done(TextNode(tok.content), pos + 1)
      case VarTok => Done(VarNode(tok.content), pos + 1)
      case BlockTok => BlockNode(toks, pos)
  }

  /** A block tag, dispatched on its leading word through the registry with
      the rest of its content, stripped, as the argument. `for` and `if` read
      their bodies from the tokens that follow. */
  function BlockNode(toks: seq<Token>, pos: nat): (r: Outcome<Node>)
    requires pos < |toks| && toks[pos].kind == BlockTok
    ensures r.Done? ==> pos < r.next <= |toks|
    ensures !r.Exhausted?
    ensures r.Failed? ==> !r.error.Unterminated?
    ensures |LeadingWord(toks[pos].content)| == 0 ==> r == Failed(NoTagName(toks[pos].content))
    ensures |LeadingWord(toks[pos].content)| > 0 && LookupTag(LeadingWord(toks[pos].content)).None? ==>
              r == Failed(UnknownTag(LeadingWord(toks[pos].content)))
    decreases |toks| - pos, 0
  {
    var content := toks[pos].content;
    var name := LeadingWord(content);
    var rest := Strip(content[|name|..]);
    if |name| == 0 then Failed(NoTagName(content))
    else
      match LookupTag(name)
      case None => Failed(UnknownTag(name))
      case Some(ForTag) =>
        (match SplitOnce(rest, " in ")
         case None => Failed(BadForSyntax(rest))
         case Some((arg, iterable)) =>
           match CollectUntil(toks, pos + 1, "endfor")
           case Done(body, next) => Done(ForNode(Strip(arg), Strip(iterable), body), next)
           case Exhausted => Exhausted
           case RanOut(a) => RanOut(a)
           case Failed(e) => Failed(e))
      case Some(IfTag) =>
        (match CollectUntil(toks, pos + 1, "endif")
         case Done(body, next) => Done(IfNode(rest, body), next)
         case Exhausted => Exhausted
         case RanOut(a) => RanOut(a)
         case Failed(e) => Failed(e))
      case Some(EndforTag) => Done(EndForNode(rest), pos + 1)
      case Some(EndifTag) => Done(EndIfNode(rest), pos + 1)
  }

  /** `Nodelist(parser, end)`: the nodes from token `pos` up to the first
      node named `end`, which is consumed and dropped. */
  function CollectUntil(toks: seq<Token>, pos: nat, end: string): (r: Outcome<seq<Node>>)
    requires pos <= |toks|
    ensures r.Done? ==> pos < r.next <= |toks|
    ensures !r.Exhausted?
    ensures r.Failed? ==> !r.error.Unterminated?
    ensures r.Done? ==> forall i :: 0 <= i < |r.value| ==> Name(r.value[i]) != Some(end)
    decreases |toks| - pos, 2
  {
    match NextNode(toks, pos)
    case Exhausted => RanOut(end)
    case RanOut(a) => RanOut(a)
    case Failed(e) => Failed(e)
    case Done(n, next) =>
      if Name(n) == Some(end) then Done([], next)
      else
        match CollectUntil(toks, next, end)
        case Done(ns, after) => Done([n] + ns, after)
        case Exhausted => Exhausted
        case RanOut(a) => RanOut(a)
        case Failed(e) => Failed(e)
  }

  /** How reading the top level ended. */
  datatype Stop = AllRead | Cut(awaiting: string) | Broke(error: ParseError)

  /** The top-level nodes, how the reading stopped, and the cursor where it
      stopped. */
  datatype Parsed = Parsed(nodes: seq<Node>, stop: Stop, at: nat)

  /** `list(self.parse())` from token `pos`. */
  function ParseFrom(toks: seq<Token>, pos: nat): (r: Parsed)
    requires pos <= |toks|
    ensures pos <= r.at <= |toks|
    ensures r.stop.Broke? ==> !r.stop.error.Unterminated?
    decreases |toks| - pos
  {
    match NextNode(toks, pos)
    case Exhausted => Parsed([], AllRead, pos)
    case RanOut(a) => Parsed([], Cut(a), pos)
    case Failed(e) => Parsed([], Broke(e), pos)
    case Done(n, next) =>
      var rest := ParseFrom(toks, next);
      Parsed([n] + rest.nodes, rest.stop, rest.at)
  }

  /** `Template.parse` as written. Under Python 2 the StopIteration that
      `next` raises when the tokens run out inside a body escapes through
      the generator and ends `list(self.parse())` quietly: the template keeps
      the nodes before the unterminated tag and loses the rest. */
  function ParseAsWritten(toks: seq<Token>): Result<seq<Node>, ParseError> {
    var p := ParseFrom(toks, 0);
    match p.stop
    case AllRead => Ok(p.nodes)
    case Cut(_) => Ok(p.nodes)
    case Broke(e) => Err(e)
  }

  /** `Template.parse` with an unterminated body reported as an error. */
  function Parse(toks: seq<Token>): Result<seq<Node>, ParseError> {
    var p := ParseFrom(toks, 0);
    match p.stop
    case AllRead => Ok(p.nodes)
    case Cut(a) => Err(Unterminated(a))
    case Broke(e) => Err(e)
  }

  /** What a token or a node contributes to the outline of a template: its
      text, its expression, or its tag name. Comments contribute nothing. */
  datatype Mark = TextMark(text: string) | VarMark(expr: string) | TagMark(name: string)

  function TokenMark(tok: Token): seq<Mark> {
    match tok.kind
    case TextTok => [TextMark(tok.content)]
    case VarTok => [VarMark(tok.content)]
    case BlockTok => [TagMark(LeadingWord(tok.content))]
    case CommentTok => []
  }

  /** The outline of the tokens from index `a` up to index `b`. */
  function Marks(toks: seq<Token>, a: nat, b: nat): seq<Mark>
    requires a <= b <= |toks|
    decreases b - a
  {
    if a == b then [] else TokenMark(toks[a]) + Marks(toks, a + 1, b)
  }

  function TokenMarks(toks: seq<Token>): seq<Mark> {
    Marks(toks, 0, |toks|)
  }

  /** The outline of a node: a compound tag contributes its own name, its
      body and the end marker it consumed. */
  function NodeMarks(n: Node): seq<Mark> {
    match n
    case TextNode(text) => [TextMark(text)]
    case VarNode(expr) => [VarMark(expr)]
    case ForNode(_, _, body) => [TagMark("for")] + ListMarks(body) + [TagMark("endfor")]
    case EndForNode(_) => [TagMark("endfor")]
    case IfNode(_, body) => [TagMark("if")] + ListMarks(body) + [TagMark("endif")]
    case EndIfNode(_) => [TagMark("endif")]
  }

  function ListMarks(ns: seq<Node>): seq<Mark> {
    if |ns| == 0 then [] else NodeMarks(ns[0]) + ListMarks(ns[1..])
  }

  /** The outline of a run of tokens is that of its two halves. */
  lemma {:induction false} MarksSplit(toks: seq<Token>, a: nat, b: nat, c: nat)
    requires a <= b <= c <= |toks|
    ensures Marks(toks, a, c) == Marks(toks, a, b) + Marks(toks, b, c)
    decreases b - a
  {
    if a < b {
      MarksSplit(toks, a + 1, b, c);
    }
  }

  lemma ListMarksCons(n: Node, ns: seq<Node>)
    ensures ListMarks([n] + ns) == NodeMarks(n) + ListMarks(ns)
  {
    assert ([n] + ns)[1..] == ns;
  }

  /** The node read at `pos` has the outline of the tokens it used; when there
      is no node left, the remaining tokens are all comments. */
  lemma {:induction false} NextNodeMarks(toks: seq<Token>, pos: nat)
    requires pos <= |toks|
    ensures NextNode(toks, pos).Done? ==>
              NodeMarks(NextNode(toks, pos).value) == Marks(toks, pos, NextNode(toks, pos).next)
    ensures NextNode(toks, pos).Exhausted? ==> Marks(toks, pos, |toks|) == []
    ensures NextNode(toks, pos).RanOut? ==> Marks(toks, pos, |toks|) != []
    decreases |toks| - pos, 2
  {
    if pos < |toks| {
      var tok := toks[pos];
      match tok.kind
      case CommentTok =>
        NextNodeMarks(toks, pos + 1);
        var r := NextNode(toks, pos + 1);
        assert NextNode(toks, pos) == r;
        if r.Done? {
          assert Marks(toks, pos, r.next) == Marks(toks, pos + 1, r.next);
        }
        assert Marks(toks, pos, |toks|) == Marks(toks, pos + 1, |toks|);
      case TextTok =>
        assert NextNode(toks, pos) == Done(TextNode(tok.content), pos + 1);
      case VarTok =>
        assert NextNode(toks, pos) == Done(VarNode(tok.content), pos + 1);
      case BlockTok =>
        assert NextNode(toks, pos) == BlockNode(toks, pos);
        BlockNodeMarks(toks, pos);
    }
  }

  /** The outline of a compound node, grouped as the tokens give it: the
      opening tag, then the body with the end marker. */
  lemma CompoundMarks(n: Node)
    requires n.ForNode? || n.IfNode?
    ensures n.ForNode? ==> NodeMarks(n) == [TagMark("for")] + (ListMarks(n.body) + [TagMark("endfor")])
    ensures n.IfNode? ==> NodeMarks(n) == [TagMark("if")] + (ListMarks(n.body) + [TagMark("endif")])
  {
  }

  lemma {:induction false} BlockNodeMarks(toks: seq<Token>, pos: nat)
    requires pos < |toks| && toks[pos].kind == BlockTok
    ensures BlockNode(toks, pos).Done? ==>
              NodeMarks(BlockNode(toks, pos).value) == Marks(toks, pos, BlockNode(toks, pos).next)
    ensures Marks(toks, pos, |toks|) != []
    decreases |toks| - pos, 1
  {
    var name := LeadingWord(toks[pos].content);
    assert Marks(toks, pos, |toks|) == [TagMark(name)] + Marks(toks, pos + 1, |toks|);
    if |name| > 0 {
      match LookupTag(name) {
        case None =>
        case Some(ForTag) => ForMarks(toks, pos);
        case Some(IfTag) => IfMarks(toks, pos);
        case Some(EndforTag) => EndMarks(toks, pos);
        case Some(EndifTag) => EndMarks(toks, pos);
      }
    }
  }

  lemma EndMarks(toks: seq<Token>, pos: nat)
    requires pos < |toks| && toks[pos].kind == BlockTok
    requires var name := LeadingWord(toks[pos].content);
             |name| > 0 && (LookupTag(name) == Some(EndforTag) || LookupTag(name) == Some(EndifTag))
    ensures BlockNode(toks, pos).Done? ==>
              NodeMarks(BlockNode(toks, pos).value) == Marks(toks, pos, BlockNode(toks, pos).next)
  {
    var content := toks[pos].content;
    var name := LeadingWord(content);
    var rest := Strip(content[|name|..]);
    if LookupTag(name) == Some(EndforTag) {
      assert BlockNode(toks, pos) == Done(EndForNode(rest), pos + 1);
    } else {
      assert BlockNode(toks, pos) == Done(EndIfNode(rest), pos + 1);
    }
    assert Marks(toks, pos, pos + 1) == [TagMark(name)];
  }

  lemma {:induction false} ForMarks(toks: seq<Token>, pos: nat)
    requires pos < |toks| && toks[pos].kind == BlockTok
    requires var name := LeadingWord(toks[pos].content); |name| > 0 && LookupTag(name) == Some(ForTag)
    ensures BlockNode(toks, pos).Done? ==>
              NodeMarks(BlockNode(toks, pos).value) == Marks(toks, pos, BlockNode(toks, pos).next)
    decreases |toks| - pos, 0
  {
    var content := toks[pos].content;
    var name := LeadingWord(content);
    var rest := Strip(content[|name|..]);
    match SplitOnce(rest, " in ") {
      case None =>
      case Some((arg, iterable)) =>
        CollectMarks(toks, pos + 1, "endfor");
        match CollectUntil(toks, pos + 1, "endfor") {
          case Done(body, next) =>
            assert BlockNode(toks, pos) == Done(ForNode(Strip(arg), Strip(iterable), body), next);
            assert Marks(toks, pos, next) == [TagMark(name)] + Marks(toks, pos + 1, next);
            CompoundMarks(ForNode(Strip(arg), Strip(iterable), body));
          case Exhausted =>
          case RanOut(a) =>
          case Failed(e) =>
        }
    }
  }

  lemma {:induction false} IfMarks(toks: seq<Token>, pos: nat)
    requires pos < |toks| && toks[pos].kind == BlockTok
    requires var name := LeadingWord(toks[pos].content); |name| > 0 && LookupTag(name) == Some(IfTag)
    ensures BlockNode(toks, pos).Done? ==>
              NodeMarks(BlockNode(toks, pos).value) == Marks(toks, pos, BlockNode(toks, pos).next)
    decreases |toks| - pos, 0
  {
    var content := toks[pos].content;
    var name := LeadingWord(content);
    var rest := Strip(content[|name|..]);
    CollectMarks(toks, pos + 1, "endif");
    match CollectUntil(toks, pos + 1, "endif") {
      case Done(body, next) =>
        assert BlockNode(toks, pos) == Done(IfNode(rest, body), next);
        assert Marks(toks, pos, next) == [TagMark(name)] + Marks(toks, pos + 1, next);
        CompoundMarks(IfNode(rest, body));
      case Exhausted =>
      case RanOut(a) =>
      case Failed(e) =>
    }
  }

  /** A body read up to its end marker has the outline of the tokens it used,
      less the marker. */
  lemma {:induction false} CollectMarks(toks: seq<Token>, pos: nat, end: string)
    requires pos <= |toks|
    requires end == "endfor" || end == "endif"
    ensures CollectUntil(toks, pos, end).Done? ==>
              ListMarks(CollectUntil(toks, pos, end).value) + [TagMark(end)] == Marks(toks, pos, CollectUntil(toks, pos, end).next)
    decreases |toks| - pos, 3
  {
    NextNodeMarks(toks, pos);
    match NextNode(toks, pos)
    case Exhausted =>
    case RanOut(_) =>
    case Failed(_) =>
    case Done(n, next) =>
      if Name(n) != Some(end) {
        CollectMarks(toks, next, end);
        var r := CollectUntil(toks, next, end);
        if r.Done? {
          assert CollectUntil(toks, pos, end) == Done([n] + r.value, r.next);
          MarksSplit(toks, pos, next, r.next);
          ListMarksCons(n, r.value);
        }
      }
  }

  /** The top-level nodes read from `pos` have the outline of the tokens
      they used; after them come the tokens left unread, which are only
      comments when everything was read. */
  lemma {:induction false} ParseFromMarks(toks: seq<Token>, pos: nat)
    requires pos <= |toks|
    ensures ListMarks(ParseFrom(toks, pos).nodes) + Marks(toks, ParseFrom(toks, pos).at, |toks|) == Marks(toks, pos, |toks|)
    ensures ParseFrom(toks, pos).stop.AllRead? ==> Marks(toks, ParseFrom(toks, pos).at, |toks|) == []
    ensures ParseFrom(toks, pos).stop.Cut? ==> Marks(toks, ParseFrom(toks, pos).at, |toks|) != []
    decreases |toks| - pos
  {
    NextNodeMarks(toks, pos);
    match NextNode(toks, pos)
    case Exhausted =>
      assert ParseFrom(toks, pos) == Parsed([], AllRead, pos);
    case RanOut(a) =>
      assert ParseFrom(toks, pos) == Parsed([], Cut(a), pos);
    case Failed(e) =>
      assert ParseFrom(toks, pos) == Parsed([], Broke(e), pos);
    case Done(n, next) =>
      ParseFromMarks(toks, next);
      var rest := ParseFrom(toks, next);
      assert ParseFrom(toks, pos) == Parsed([n] + rest.nodes, rest.stop, rest.at);
      ListMarksCons(n, rest.nodes);
      MarksSplit(toks, pos, next, |toks|);
  }

  /** Parsing keeps the outline of the template: the text, variables and tag
      names of the nodes, read in order and through the bodies, are those of
      the tokens; comments are the only tokens that leave no node. */
  lemma ParseKeepsOutline(toks: seq<Token>)
    ensures Parse(toks).Ok? ==> ListMarks(Parse(toks).value) == TokenMarks(toks)
  {
    ParseFromMarks(toks, 0);
  }

  /** Every tag name in an outline is a registered one. */
  ghost predicate KnownTags(ms: seq<Mark>) {
    forall j :: 0 <= j < |ms| && ms[j].TagMark? ==> LookupTag(ms[j].name).Some?
  }

  /** Nodes outline only registered tag names: a compound node names itself
      and its end marker, and its body outlines the same way. */
  lemma {:induction false} ListMarksKnown(ns: seq<Node>)
    ensures KnownTags(ListMarks(ns))
    decreases ns
  {
    if |ns| > 0 {
      var n := ns[0];
      ListMarksKnown(ns[1..]);
      var head := NodeMarks(n);
      if n.ForNode? || n.IfNode? {
        ListMarksKnown(n.body);
        CompoundMarks(n);
        var name := if n.ForNode? then "for" else "if";
        var end := if n.ForNode? then "endfor" else "endif";
        assert head == [TagMark(name)] + (ListMarks(n.body) + [TagMark(end)]);
        KnownConcat(ListMarks(n.body), [TagMark(end)]);
        KnownConcat([TagMark(name)], ListMarks(n.body) + [TagMark(end)]);
      }
      assert KnownTags(head);
      KnownConcat(head, ListMarks(ns[1..]));
    }
  }

  lemma KnownConcat(a: seq<Mark>, b: seq<Mark>)
    requires KnownTags(a) && KnownTags(b)
    ensures KnownTags(a + b)
  {
    forall j | 0 <= j < |a + b| && (a + b)[j].TagMark? ensures LookupTag((a + b)[j].name).Some? {
      if j >= |a| {
        assert (a + b)[j] == b[j - |a|];
      }
    }
  }

  /** A block token puts its leading word into the outline of any stretch
      of tokens that holds it. */
  lemma MarksHoldTag(toks: seq<Token>, a: nat, b: nat, p: nat)
    requires a <= p < b <= |toks| && toks[p].kind == BlockTok
    ensures TagMark(LeadingWord(toks[p].content)) in Marks(toks, a, b)
  {
    var m := TagMark(LeadingWord(toks[p].content));
    MarksSplit(toks, a, p, b);
    var tail := Marks(toks, p, b);
    assert tail == [m] + Marks(toks, p + 1, b);
    assert tail[0] == m;
    assert Marks(toks, a, b)[|Marks(toks, a, p)|] == m;
  }

  /** A block token whose leading word is not a registered tag, or that
      has no leading word, makes the whole parse fail, wherever it stands:
      the missing name or the registry lookup raises before any output. */
  lemma UnknownTagFails(toks: seq<Token>, p: nat)
    requires p < |toks| && toks[p].kind == BlockTok && LookupTag(LeadingWord(toks[p].content)).None?
    ensures Parse(toks).Err?
  {
    MarksHoldTag(toks, 0, |toks|, p);
    ParseKeepsOutline(toks);
    if Parse(toks).Ok? {
      ListMarksKnown(Parse(toks).value);
      KnownLacks(ListMarks(Parse(toks).value), LeadingWord(toks[p].content));
    }
  }

  /** An outline of registered names holds no unregistered one. */
  lemma KnownLacks(ms: seq<Mark>, name: string)
    requires KnownTags(ms) && LookupTag(name).None?
    ensures TagMark(name) !in ms
  {
  }

  /** Parsing as written loses the outline after an unterminated tag: the
      nodes it returns outline a strict prefix of the template. */
  lemma ParseAsWrittenTruncates(toks: seq<Token>)
    requires Parse(toks).Err? && Parse(toks).error.Unterminated?
    ensures ParseAsWritten(toks).Ok?
    ensures |ListMarks(ParseAsWritten(toks).value)| < |TokenMarks(toks)|
    ensures ListMarks(ParseAsWritten(toks).value) == TokenMarks(toks)[..|ListMarks(ParseAsWritten(toks).value)|]
  {
    var p := ParseFrom(toks, 0);
    ParseFromMarks(toks, 0);
    var kept := ListMarks(p.nodes);
    var lost := Marks(toks, p.at, |toks|);
    assert kept + lost == TokenMarks(toks) && lost != [];
    assert TokenMarks(toks)[..|kept|] == kept;
  }

  /** The two readings agree everywhere except on an unterminated tag. */
  lemma ParseAsWrittenAgrees(toks: seq<Token>)
    ensures Parse(toks).Ok? ==> ParseAsWritten(toks) == Parse(toks)
    ensures Parse(toks).Err? && !Parse(toks).error.Unterminated? ==> ParseAsWritten(toks) == Parse(toks)
  {
  }

  /** `a{% if c %}b`: as written the template quietly becomes `a`; the
      corrected parser reports the `if` as unterminated. */
  lemma UnterminatedIfExample()
    ensures ParseAsWritten([Token(TextTok, "a"), Token(BlockTok, "if c"), Token(TextTok, "b")]) == Ok([TextNode("a")])
    ensures Parse([Token(TextTok, "a"), Token(BlockTok, "if c"), Token(TextTok, "b")]) == Err(Unterminated("endif"))
  {
    var toks := [Token(TextTok, "a"), Token(BlockTok, "if c"), Token(TextTok, "b")];
    assert LeadingWord("if c") == "if";
    assert CollectUntil(toks, 3, "endif") == RanOut("endif");
    assert CollectUntil(toks, 2, "endif") == RanOut("endif");
    assert BlockNode(toks, 1) == RanOut("endif");
    assert ParseFrom(toks, 1) == Parsed([], Cut("endif"), 1);
    assert ParseFrom(toks, 0) == Parsed([TextNode("a")], Cut("endif"), 1);
  }

  /** `{% bogus %}` is rejected when the template is parsed, naming the tag;
      `{% !x %}` has no tag name at all. */
  lemma BadTagExample()
    ensures Parse([Token(BlockTok, "bogus")]) == Err(UnknownTag("bogus"))
    ensures Parse([Token(BlockTok, "!x")]) == Err(NoTagName("!x"))
  {
    assert LeadingWord("bogus") == "bogus";
    assert LookupTag("bogus") == None;
    assert BlockNode([Token(BlockTok, "bogus")], 0) == Failed(UnknownTag("bogus"));
    assert LeadingWord("!x") == "";
    assert BlockNode([Token(BlockTok, "!x")], 0) == Failed(NoTagName("!x"));
  }

  /** `{% if cond %}` followed by a body that its `endif` closes. */
  lemma IfStep(toks: seq<Token>, pos: nat, cond: string, body: seq<Node>, next: nat)
    requires pos < |toks| && toks[pos] == Token(BlockTok, "if" + " " + cond)
    requires |cond| > 0 && !IsSpace(cond[0]) && !IsSpace(cond[|cond| - 1])
    requires CollectUntil(toks, pos + 1, "endif") == Done(body, next)
    ensures NextNode(toks, pos) == Done(IfNode(cond, body), next)
  {
    TagWords("if", cond);
    assert LookupTag("if") == Some(IfTag);
  }

  /** The words of a `for` tag: its name, the loop variable and the
      iterable, each stripped. */
  lemma ForWords(arg: string, iterable: string)
    requires |arg| > 0 && !IsSpace(arg[0]) && !IsSpace(arg[|arg| - 1])
    requires |iterable| > 0 && !IsSpace(iterable[0]) && !IsSpace(iterable[|iterable| - 1])
    requires forall k :: 0 <= k < |arg| ==> !OccursAt(arg + " in " + iterable, k, " in ")
    ensures LeadingWord("for" + " " + (arg + " in " + iterable)) == "for"
    ensures SplitOnce(Strip(("for" + " " + (arg + " in " + iterable))[3..]), " in ") == Some((arg, iterable))
    ensures Strip(arg) == arg && Strip(iterable) == iterable
  {
    var rest := arg + " in " + iterable;
    assert rest[0] == arg[0] && rest[|rest| - 1] == iterable[|iterable| - 1];
    TagWords("for", rest);
    SplitOnceAt(arg, " in ", iterable);
    StripUnchanged(arg);
    StripUnchanged(iterable);
  }

  /** `{% for arg in iterable %}` followed by a body that its `endfor`
      closes. */
  lemma ForStep(toks: seq<Token>, pos: nat, arg: string, iterable: string, body: seq<Node>, next: nat)
    requires pos < |toks| && toks[pos] == Token(BlockTok, "for" + " " + (arg + " in " + iterable))
    requires |arg| > 0 && !IsSpace(arg[0]) && !IsSpace(arg[|arg| - 1])
    requires |iterable| > 0 && !IsSpace(iterable[0]) && !IsSpace(iterable[|iterable| - 1])
    requires forall k :: 0 <= k < |arg| ==> !OccursAt(arg + " in " + iterable, k, " in ")
    requires CollectUntil(toks, pos + 1, "endfor") == Done(body, next)
    ensures NextNode(toks, pos) == Done(ForNode(arg, iterable, body), next)
  {
    var content := toks[pos].content;
    ForWords(arg, iterable);
    assert LeadingWord(content) == "for" && |"for"| == 3;
    assert LookupTag("for") == Some(ForTag);
    assert SplitOnce(Strip(content[3..]), " in ") == Some((arg, iterable));
    assert BlockNode(toks, pos) == Done(ForNode(arg, iterable, body), next);
  }

  /** The end markers are registered under their names. */
  lemma EndWords()
    ensures LeadingWord("endif") == "endif" && LookupTag("endif") == Some(EndifTag)
    ensures LeadingWord("endfor") == "endfor" && LookupTag("endfor") == Some(EndforTag)
    ensures Name(EndIfNode("")) == Some("endif") && Name(EndForNode("")) == Some("endfor")
  {
    BareTag("endif");
    BareTag("endfor");
  }

  /** A block token whose content is a bare end name reads as its end
      marker. */
  lemma EndNodeOf(toks: seq<Token>, pos: nat, name: string, tag: Tag)
    requires pos < |toks| && toks[pos] == Token(BlockTok, name)
    requires LeadingWord(name) == name && LookupTag(name) == Some(tag) && (tag == EndifTag || tag == EndforTag)
    ensures NextNode(toks, pos) == Done(if tag == EndifTag then EndIfNode("") else EndForNode(""), pos + 1)
  {
    assert name[|name|..] == [];
    StripUnchanged([]);
  }

  /** The end marker a body waits for closes it. */
  lemma EndIfStep(toks: seq<Token>, pos: nat)
    requires pos < |toks| && toks[pos] == Token(BlockTok, "endif")
    ensures CollectUntil(toks, pos, "endif") == Done([], pos + 1)
  {
    EndWords();
    EndNodeOf(toks, pos, "endif", EndifTag);
  }

  /** The same for `endfor`. */
  lemma EndForStep(toks: seq<Token>, pos: nat)
    requires pos < |toks| && toks[pos] == Token(BlockTok, "endfor")
    ensures CollectUntil(toks, pos, "endfor") == Done([], pos + 1)
  {
    EndWords();
    EndNodeOf(toks, pos, "endfor", EndforTag);
  }

  /** A text or variable token inside a body. */
  lemma BodyStep(toks: seq<Token>, pos: nat, end: string, ns: seq<Node>, next: nat)
    requires pos < |toks| && toks[pos].kind in {TextTok, VarTok}
    requires CollectUntil(toks, pos + 1, end) == Done(ns, next)
    ensures CollectUntil(toks, pos, end)
         == Done([if toks[pos].kind == TextTok then TextNode(toks[pos].content) else VarNode(toks[pos].content)] + ns, next)
  {
  }

  /** A text or variable token at the top level. */
  lemma TopStep(toks: seq<Token>, pos: nat, ns: seq<Node>)
    requires pos < |toks| && toks[pos].kind in {TextTok, VarTok}
    requires ParseFrom(toks, pos + 1) == Parsed(ns, AllRead, |toks|)
    ensures ParseFrom(toks, pos)
         == Parsed([if toks[pos].kind == TextTok then TextNode(toks[pos].content) else VarNode(toks[pos].content)] + ns, AllRead, |toks|)
  {
  }

  /** A last node that uses up the tokens ends the template. */
  lemma LastStep(toks: seq<Token>, pos: nat, n: Node)
    requires pos < |toks| && NextNode(toks, pos) == Done(n, |toks|)
    ensures ParseFrom(toks, pos) == Parsed([n], AllRead, |toks|)
  {
    assert ParseFrom(toks, |toks|) == Parsed([], AllRead, |toks|);
    assert [n] + [] == [n];
  }
}
