# stencil in Dafny

A model of the core of `stencil.py`, a small template engine written for
Python 2. A template's source is cut into tokens: text, `{{ var }}`,
`{% block %}` and `{# comment #}`. The tokens are parsed into a tree of
nodes: text, variable, `for`/`endfor` and `if`/`endif`. The tree is rendered
against a `Context`, which holds a stack of scope frames and a mapping of
filter functions. Variables are dotted paths, looked up the way `digattr`
does: key, then attribute, then integer index, with a call when the result
is callable. After the path come `|`-separated filters, applied left to
right.

Modules, one per file, in the order they build on each other:

- `Results` (`results.dfy`): `Option` and `Result`.
- `Text` (`text.dfy`): ASCII whitespace and word characters, `str.strip`,
  `str.split` with and without a limit, and the leading `\w+` word.
- `Numerals` (`numerals.dfy`): decimal rendering of integers and Python's
  `int(str)`.
- `Tokenizer` (`tokenizer.dfy`): `tag_re`, written out as a scanner, and
  `tokenise`.
- `Values` (`values.dfy`): the values a template sees, and `digattr`.
- `Scope` (`scope.dfy`): the frame stack of `Context`: `push`, `pop`,
  `__getitem__` and `__setitem__`.
- `Resolver` (`resolver.dfy`): `Context.resolve` and its filter pipeline.
- `Parser` (`parser.dfy`): `Template.parse`, the tag registry and
  `Nodelist`.
- `Renderer` (`renderer.dfy`): `render` of every node and of `Nodelist`.
- `Pieces` (`pieces.dfy`): a source written as a list of text and tag
  pieces, and the proof that `tokenise` cuts it into one token per piece.
- `Sources` (`sources.dfy`): three template sources, tokenised and parsed
  step by step: a condition around text, a greeting, and a counting loop.
- `Template` (`template.dfy`): `Template(src)` and `Template.render`, with
  end-to-end examples from source text to output.

Several things are parameters or data instead of calls:

- Filters are total functions `Value -> Value` held in the context.
- A callable value is a `ThunkVal` that carries the value its call returns.
- The output stream `context.output` is the string each render returns.

## Model

| member | source | states |
|---|---|---|
| Text.SkipSpace | stencil.py:52 | the first index from `lo` on that is not whitespace; everything skipped is whitespace |
| Text.BackSpace | stencil.py:52 | the last non-whitespace boundary before `hi`; everything after it up to `hi` is whitespace |
| Text.Strip | stencil.py:52 | `strip()` is never longer than its input, and neither of its end characters is whitespace |
| Text.StripRemovesOnlyEndSpace | stencil.py:52 | `strip()` is a slice of the input with only whitespace before and after it |
| Text.StripUnchanged | stencil.py:52 | a string with no whitespace at either end is its own strip |
| Text.StripIdempotent | stencil.py:52 | stripping twice is stripping once |
| Text.LeadingWord | stencil.py:18 | the match of `\w+` at the start is no longer than the content |
| Text.LeadingWordIsLongest | stencil.py:18 | that match is a prefix made of word characters, and the next character is not one |
| Text.Find | stencil.py:208 | the first occurrence of a pattern at or after an index, or proof that there is none |
| Text.Split | stencil.py:98 | `split(c)` gives at least one piece, and no piece contains the separator |
| Text.JoinSplit | stencil.py:98 | joining the pieces of `split(c)` with `c` gives the string back |
| Text.SplitJoin | stencil.py:98 | splitting a join of separator-free pieces gives the pieces back |
| Text.SplitAround | stencil.py:25 | splitting around one separator concatenates the splits of the two sides |
| Text.JoinAppend | stencil.py:98 | joining two lists of pieces puts one separator between the two joins |
| Text.SplitNoSeparator | stencil.py:98 | a string without the separator splits into itself alone |
| Text.SplitFirst | stencil.py:246-248 | `split(' ', 1)`: a head without the separator and, when there is one, the tail after the first separator; head, separator and tail rebuild the input |
| Text.SplitFirstAt | stencil.py:246-248 | the split happens at the first separator, whatever the tail holds |
| Text.SplitFirstAbsent | stencil.py:246-248 | without a separator the whole string is the head and there is no tail |
| Text.LeadingWordOf | stencil.py:18 | a run of word characters followed by a non-word character (or nothing) is the leading word |
| Text.TagWords | stencil.py:127-129 | a tag content `name arg` with a trimmed `arg` has the leading word `name`, and its stripped rest is `arg` |
| Text.BareTag | stencil.py:127-129 | a tag content that is a bare name has that name as its leading word and an empty rest |
| Text.SplitOnceAt | stencil.py:208 | `split(sep, 1)` cuts at the first occurrence: when `sep` does not start inside `a`, `a + sep + b` splits into `a` and `b` |
| Text.SplitOnce | stencil.py:208 | `split(' in ', 1)`: the halves around the first occurrence of the separator, or nothing when it does not occur (the unpacking error) |
| Numerals.DigitChar | stencil.py:161 | each digit has a character whose value is that digit |
| Numerals.NatToString | stencil.py:161 | the decimal form of a natural number is non-empty and all digits, and starts with `0` only when it is the single digit of zero |
| Numerals.NatToStringValue | stencil.py:161 | the decimal form reads back as the number |
| Numerals.IntToString | stencil.py:161 | `unicode(int)` is never empty, starts with `-` exactly for a negative number, and never starts with `+` |
| Numerals.ParseIntToString | stencil.py:33 | `int(step)` reads the decimal form of every integer back as that integer |
| Numerals.ParseInt | stencil.py:33 | `int(step)`: surrounding whitespace stripped, an optional sign, whitespace after the sign skipped, then ASCII digits; the contract is carried by Numerals.ParseIntToString, Numerals.ParseUnpadded and Numerals.ParseIntExamples |
| Numerals.ParseUnpadded | stencil.py:33 | without surrounding whitespace, `int()` is the signed reading, which skips whitespace between the sign and the digits |
| Numerals.ParseSignedDigits | stencil.py:33 | a run of digits, with or without a leading `-`, reads as its value or its negation |
| Numerals.ParseIntExamples | stencil.py:33 | `int()` reads `- 12` as -12, `+7` as 7 and `007` as 7, and rejects `1 2` and a bare `-` |
| Tokenizer.FindDelim | stencil.py:17 | the first two-character delimiter at or after an index, or proof that there is none |
| Tokenizer.CloserNotSpace | stencil.py:17 | a closing delimiter does not begin with whitespace |
| Tokenizer.SpaceRun | stencil.py:17 | `\s*` takes the longest run of whitespace |
| Tokenizer.MatchEnd | stencil.py:17 | a match of one form of `tag_re` spans at least five characters and stays inside the source |
| Tokenizer.MatchEndIsLeftmostCloser | stencil.py:17 | one form of `tag_re` matches exactly when its opener is followed by a closer. The match ends at the first closer that leaves non-blank content, or at the only closer when the content is blank |
| Tokenizer.BlankPrefix | stencil.py:17 | no closer starts inside the whitespace that follows an opener |
| Tokenizer.MatchAt | stencil.py:17 | the match at an index is the one form that matches there, or no form matches |
| Tokenizer.FindMatch | stencil.py:45 | `finditer` takes the leftmost match, with no match before it |
| Tokenizer.Scan | stencil.py:41-55 | the spans tile the source from the cursor to the end and are well formed, with no two text spans adjacent |
| Tokenizer.SpanFacts | stencil.py:41-55 | every span is well formed, and no two adjacent spans are both text |
| Tokenizer.TilesBound | stencil.py:41-55 | spans that tile a stretch number no more than its length |
| Tokenizer.SpelledTiles | stencil.py:41-55 | spans that tile a stretch spell that stretch |
| Tokenizer.TokenOf | stencil.py:46-52 | a text token is its slice and never empty. A tag token is the stripped inside of its delimiters, and stripping it again changes nothing |
| Tokenizer.Tokenise | stencil.py:41-55 | text tokens are non-empty, tag contents are stripped, and no two text tokens are adjacent |
| Tokenizer.TokeniseIsLossless | stencil.py:41-55 | the spans behind the tokens spell the source exactly, in order; each token is its span's token |
| Tokenizer.NoTagsIsOneText | stencil.py:54-55 | a source without tags is one text token, or none when it is empty |
| Pieces.TagMatches | stencil.py:17 | a tag whose inside is not blank and holds no first character of its closer is a match of `tag_re` ending exactly at its closer |
| Pieces.FindMatchSkips | stencil.py:45 | text without an opening brace holds no match: `finditer` goes on from where it ends |
| Pieces.StripPad | stencil.py:52 | `strip()` takes the one space on each side off a trimmed tag content |
| Pieces.PieceAt | stencil.py:45-52 | the piece at the front of the rest of the source spells itself there, and what follows it is the source of the remaining pieces |
| Pieces.TagAt | stencil.py:17 | a well-formed tag piece at the current position is the next match of `tag_re`, with the tag's kind and its exact extent |
| Pieces.TextAt | stencil.py:45-48 | a text piece (no opening brace) at the current position holds no match, so the next match lies beyond it |
| Pieces.ScanPieces | stencil.py:41-55 | the scan of a source spelled by well-formed pieces has one span per piece, each span spelling its piece |
| Pieces.TokenOfFits | stencil.py:46-55 | the span of a piece becomes the piece's token: text as it is, a tag as its stripped inside |
| Pieces.TokensOfPieces | stencil.py:41-55 | a source spelled by well-formed pieces tokenises into one token per piece, in order |
| Values.EntryIndex | stencil.py:27 | the first dictionary entry with the key, or proof that none has it |
| Values.ItemLookup | stencil.py:26-28 | `obj[step]` succeeds exactly on dictionaries and keyed objects holding the key, with the stored value |
| Values.AttrLookup | stencil.py:29-31 | `getattr` succeeds exactly on objects with that attribute |
| Values.PyIndex | stencil.py:33 | Python indexing accepts `-n <= i < n`, counting negative indices from the end |
| Values.IndexLookup | stencil.py:32-35 | `obj[int(step)]` succeeds only on lists and strings whose index is in range, with the element or the one-character string |
| Values.Walk | stencil.py:25-38 | the loop over the steps of `digattr`, stopping at the first step that finds nothing; its contract is carried by Values.WalkAppend |
| Values.DigAttr | stencil.py:23-38 | `digattr(obj, attr, default)`: the walk over the dotted steps, or the default on a miss; its contract is carried by Values.DottedLookup and Values.SingleStep |
| Values.Invoke | stencil.py:36-37 | a callable is replaced by what its call returns; anything else is kept |
| Values.Step | stencil.py:26-37 | one dotted step: key, then attribute, then index, the first success winning and being invoked; it fails only when all three fail |
| Values.WalkAppend | stencil.py:25-38 | walking two lists of steps is walking the first, then the second from where it ended; a miss stops everything |
| Values.DottedLookup | stencil.py:23-38 | `a.b` is `b` looked up in the result of `a`, and the default when `a` misses |
| Values.SingleStep | stencil.py:23-38 | a path of one step is that step, or the default |
| Values.FirstKey | stencil.py:27 | the first dictionary entry answers a key lookup |
| Values.KeyLookupExample | stencil.py:23-38 | `a.b` through two dictionaries |
| Values.AttrLookupExample | stencil.py:29-31 | `a.b` through an attribute |
| Values.KeyBeforeAttrExample | stencil.py:26-31 | a key wins over an attribute of the same name |
| Values.ListIndexStep | stencil.py:32-33 | a numeric step selects the list element, negative from the end |
| Values.IndexLookupExample | stencil.py:32-33 | `a.1` selects the second element |
| Values.NegativeIndexExample | stencil.py:32-33 | `a.-2` selects the second element from the end |
| Values.MissExample | stencil.py:34-35 | a step that fails every way gives the default for the whole path |
| Values.Truthy | stencil.py:251 | `bool(value)`: None, False, zero and empty containers are false, everything else true; its use is carried by Renderer.IfRendersBodyIff and Renderer.NotInverts |
| Values.ToString | stencil.py:161 | `unicode(value)` as a variable tag writes it; an integer's text reads back as that integer under `int()` |
| Values.Iterate | stencil.py:215 | `enumerate` goes over lists, the characters of strings and the keys of dictionaries, and fails on everything else |
| Scope.Push | stencil.py:80-81 | the new frame comes first and the old stack follows it |
| Scope.Pop | stencil.py:83-84 | the innermost frame goes and the others keep their order |
| Scope.Lookup | stencil.py:86-90 | the value of the innermost frame that has the key; nothing (the KeyError) exactly when no frame has it |
| Scope.Assign | stencil.py:92-93 | the innermost frame gets the key, other keys and outer frames are untouched |
| Scope.LookupMerge | stencil.py:86-90 | looking through the frames is looking in their union, inner frames winning |
| Scope.PushPop | stencil.py:80-84 | `pop` after `push` gives the stack back |
| Scope.LookupPush | stencil.py:80-90 | a pushed frame shadows the names it binds and is transparent to the rest |
| Scope.LookupAssign | stencil.py:86-93 | an assigned name reads back; every other name reads as before |
| Scope.AssignInPushedFrame | stencil.py:80-93 | an assignment inside a pushed frame is gone after the pop |
| Resolver.NewContext | stencil.py:75-78 | a new context holds one frame, the data |
| Resolver.LookupPath | stencil.py:100 | the first lookup of `resolve`: the first step in the scope stack, the rest through `digattr`, None on a miss; its contract is carried by Resolver.LookupPathIsDigAttr |
| Resolver.Resolve | stencil.py:95-109 | `Context.resolve`: the path before the first `\|`, then each filter in order; its contract is carried by Resolver.ApplyFilters, Resolver.ApplyFiltersComposes, Resolver.FilterOrder and Resolver.NoFilters |
| Resolver.LookupPathIsDigAttr | stencil.py:100-101 | the first lookup of `resolve` is `digattr` on the merged frames |
| Resolver.ApplyFilters | stencil.py:102-108 | the pipeline fails exactly when some filter name is unknown. The error names the first unknown one, and every name before it is known |
| Resolver.ApplyFiltersComposes | stencil.py:102-109 | with known filters, the pipeline is their composition, the first name innermost |
| Resolver.ComposeFirst | stencil.py:102-108 | a composition peels off its first filter |
| Resolver.FilterOrder | stencil.py:95-109 | a path followed by the filters `f` then `g` resolves to `g(f(a))`; an unknown `f` is the error, whatever `g` is |
| Resolver.NoFilters | stencil.py:98-101 | an expression without a filter separator is the plain lookup |
| Parser.LookupTag | stencil.py:164-178 | the registry holds exactly `for`, `endfor`, `if` and `endif` |
| Parser.NextNode | stencil.py:119-131 | `next(parse())` moves the cursor forward and never reports an unterminated body as a failure |
| Parser.BlockNode | stencil.py:125-129 | a block token yields one node, or fails, or the tokens run out inside its body. A block without a tag name fails with NoTagName, the SyntaxError of stencil.py:127-128; a name the registry does not hold fails with UnknownTag, the KeyError of stencil.py:129 |
| Parser.ListMarksKnown | stencil.py:164-174 | every tag name in the outline of parsed nodes is one of the registered names |
| Parser.MarksHoldTag | stencil.py:125-126 | a block token's leading word appears in the outline of any stretch of tokens that holds it |
| Parser.UnknownTagFails | stencil.py:126-129 | a block token with no leading word, or with one the registry does not hold, makes the whole parse fail, wherever it stands |
| Parser.CollectUntil | stencil.py:181-186 | `Nodelist` moves the cursor forward, and no node it keeps carries the end name |
| Parser.ParseFrom | stencil.py:119-131 | the top-level reading ends inside the tokens; a syntax failure is never an unterminated body |
| Parser.ParseAsWritten | stencil.py:117-131 | `list(self.parse())` as the Python 2 code runs it, an unterminated body cutting the list short; its contract is carried by Parser.ParseAsWrittenTruncates and Parser.UnterminatedIfExample |
| Parser.Parse | stencil.py:117-131 | the corrected parse, which reports an unterminated body; its contract is carried by Parser.ParseKeepsOutline and Parser.ParseAsWrittenAgrees |
| Parser.MarksSplit | stencil.py:119-131 | the outline of adjacent stretches of tokens is the concatenation of their outlines |
| Parser.ListMarksCons | stencil.py:119-131 | the outline of a node list is its first node's outline, then the rest's |
| Parser.NextNodeMarks | stencil.py:119-131 | a node read from the tokens has the outline of the tokens it used |
| Parser.CompoundMarks | stencil.py:206-237 | a compound node's outline is its tag, its body, then its end marker |
| Parser.BlockNodeMarks | stencil.py:125-129 | a block node has the outline of the tokens it used |
| Parser.EndMarks | stencil.py:223-224 | an end marker has the outline of its one token |
| Parser.ForMarks | stencil.py:206-210 | a `for` node has the outline of its tag, body and `endfor` |
| Parser.IfMarks | stencil.py:234-237 | an `if` node has the outline of its tag, body and `endif` |
| Parser.CollectMarks | stencil.py:181-186 | a collected body plus its end marker has the outline of the tokens used |
| Parser.ParseFromMarks | stencil.py:119-131 | the parsed nodes and the unread tokens together have the outline of all the tokens; tokens are left unread only when a body ran out |
| Parser.ParseKeepsOutline | stencil.py:119-131 | a parsed template has the outline of its tokens: same texts, variables and tag names in order, comments dropped |
| Parser.ParseAsWrittenTruncates | stencil.py:117-131 | where the corrected parse reports an unterminated body, the parse as written succeeds with a strictly shorter prefix of the outline |
| Parser.ParseAsWrittenAgrees | stencil.py:117-131 | the two parses agree on every input the corrected parse accepts |
| Parser.UnterminatedIfExample | stencil.py:183-186 | `a{% if c %}b` parses as written to the text `a` alone, and correctly to an unterminated-`endif` error |
| Parser.BadTagExample | stencil.py:126-129 | `{% bogus %}` is an unknown tag and `{% !x %}` has no tag name, both when parsing |
| Parser.IfStep | stencil.py:234-237 | an `if` tag followed by a body its `endif` closes reads as one condition node holding the stripped condition |
| Parser.ForWords | stencil.py:205-209 | the content of a `for` tag splits into its name, the loop variable and the iterable, each stripped |
| Parser.ForStep | stencil.py:205-209 | a `for` tag followed by a body its `endfor` closes reads as one loop node |
| Parser.EndNodeOf | stencil.py:176-178 | a bare `endif` or `endfor` reads as its end marker |
| Parser.EndIfStep | stencil.py:183-186 | a body waiting for `endif` ends at an `endif` token |
| Parser.EndForStep | stencil.py:183-186 | a body waiting for `endfor` ends at an `endfor` token |
| Parser.BodyStep | stencil.py:183-186 | a text or variable token inside a body becomes the body's next node |
| Parser.TopStep | stencil.py:119-124 | a text or variable token at the top level becomes the template's next node |
| Parser.LastStep | stencil.py:119-131 | a last node that uses up the tokens ends the template |
| Renderer.SizeAllBound | stencil.py:188-190 | a node of a list is no bigger than the list |
| Renderer.TestCondition | stencil.py:244-251 | a missing-condition error arises only for the bare word `not` |
| Renderer.RenderNode | stencil.py:148-161 | a node that renders leaves the scope stack as it found it |
| Renderer.RenderFor | stencil.py:212-220 | a loop that renders leaves the scope stack as it found it |
| Renderer.RenderIf | stencil.py:239-242 | a conditional that renders leaves the scope stack as it found it |
| Renderer.RenderNodes | stencil.py:188-190 | a node list that renders leaves the scope stack as it found it |
| Renderer.RenderFrom | stencil.py:188-190 | the rest of a node list leaves the scope stack as it found it |
| Renderer.RenderLoop | stencil.py:215-218 | loop passes change only the loop's own frame, which keeps the counter and the loop variable |
| Renderer.AssignLoopFrame | stencil.py:216-217 | the two assignments of one pass make the frame hold just the counter and the item |
| Renderer.RenderLoopIsEachItem | stencil.py:215-218 | the loop is the same as rendering the body once per item, in order, each time in a fresh frame with `loopcounter` set to the index and the loop variable set to the item; the first error stops it |
| Renderer.ForRendersEachItem | stencil.py:212-220 | a `for` resolves its iterable and fails on a non-iterable. Otherwise it renders the body per item against exactly one pushed frame, and the stack afterwards is the one before |
| Renderer.EmptyLoopRendersNothing | stencil.py:212-220 | an empty iterable renders nothing |
| Renderer.RenderFromShift | stencil.py:188-190 | rendering past the first part of a concatenation is rendering the second part |
| Renderer.RenderFromAppend | stencil.py:188-190 | rendering a concatenation from inside its first part is that rest, then the second part |
| Renderer.RenderNodesAppend | stencil.py:188-190 | a concatenated node list renders as its two halves in order; a failure in the first stops it |
| Renderer.IfRendersBodyIff | stencil.py:239-242 | an `if` renders its body when its condition holds and nothing otherwise |
| Renderer.IfConditionFails | stencil.py:239-251 | an error in the condition is the error of the `if` |
| Renderer.PlainCondition | stencil.py:244-251 | a condition without a space is resolved and its truth taken |
| Renderer.NotCondition | stencil.py:244-251 | `not e` resolves the stripped `e` and negates its truth |
| Renderer.NotInverts | stencil.py:244-251 | `not e` holds exactly when `e` does not, and fails exactly when `e` fails |
| Renderer.BareNotFails | stencil.py:246-248 | `not` with nothing after it is the missing-condition error |
| Renderer.PlainName | stencil.py:95-101 | a plain name resolves to its innermost binding, invoked, or None |
| Renderer.LoopFrameLookup | stencil.py:214-217 | in a loop pass the loop variable reads as the item and `loopcounter` as the index |
| Renderer.VarRenders | stencil.py:158-161 | a variable node renders as the text of its invoked binding |
| Renderer.RenderFromStep | stencil.py:188-190 | one node of a list, then the nodes after it |
| Renderer.ForLeavesScope | stencil.py:212-220 | after a `for`, every name reads as it did before it, the loop variable and `loopcounter` included |
| Template.Render | stencil.py:133-139 | the template renders exactly when its nodes do; the text returned is the nodes' output, and an error is the nodes' error |
| Template.UnknownTagNeverCompiles | stencil.py:113-131 | a template with a block tag whose name is not registered never compiles |
| Template.PlainTextRendersItself | stencil.py:112-139 | source without tags compiles to one text node and renders as itself |
| Template.CompileKeepsOutline | stencil.py:113-131 | a compiled template keeps the texts, variables and tag names of its source in order |
| Template.CompileAsWrittenTruncates | stencil.py:116-117 | compiling as written agrees with the corrected compile, except on an unterminated tag, where it returns a shorter template instead of failing |
| Template.FourNodes | stencil.py:137-138 | four nodes render side by side |
| Template.ThreeNodes | stencil.py:137-138 | three nodes render side by side |
| Template.OneNode | stencil.py:137-138 | one node renders as itself |
| Template.IntText | stencil.py:158-161 | an integer binding prints its decimal form |
| Template.CountBodyRenders | stencil.py:215-218 | one pass of the body `{{ loopcounter }}:{{ n }};` prints the index and the item |
| Template.CountingLoop | stencil.py:212-220 | the node list of a counting loop over `[10, 20]` prints index and item per pass, for any names |
| Template.LoopCounterRenders | stencil.py:212-220 | the node list of `{% for n in nums %}{{ loopcounter }}:{{ n }};{% endfor %}` over `[10, 20]` renders `0:10;1:20;` |
| Template.LoopCounterExample | stencil.py:112-139 | `{% for n in nums %}{{ loopcounter }}:{{ n }};{% endfor %}` compiles to one loop node, which over `[10, 20]` renders `0:10;1:20;` |
| Template.IfNotFlag | stencil.py:239-251 | the node list of `{% if not flag %}A{% endif %}` renders `A` exactly when `flag` is unbound or false |
| Template.IfNotRenders | stencil.py:239-251 | that node list renders `A` with `flag` unbound, and nothing with `flag` true |
| Template.IfNotExample | stencil.py:112-139 | `{% if not flag %}A{% endif %}` compiles to one condition node, which renders `A` with `flag` unbound and nothing with `flag` true |
| Template.Greeting | stencil.py:133-161 | the node list of `Hi {{ name }}{% if show %}!{% endif %}` renders the greeting, the name, and `!` when `show` holds |
| Template.GreetingRenders | stencil.py:133-161 | that node list renders `Hi Amy!` with `show` true and `Hi Amy` with `show` false |
| Template.GreetingExample | stencil.py:112-139 | `Hi {{ name }}{% if show %}!{% endif %}` compiles to a text, a variable and a condition node, which render `Hi Amy!` with `show` true and `Hi Amy` with `show` false |
| Sources.IfSource | stencil.py:41-55 | `{% if c %}x{% endif %}`, for any trimmed condition and any text without braces, tokenises into three tokens and parses into one condition node around the text |
| Sources.IfNotCompiles | stencil.py:113-117 | the tokens of `{% if not flag %}A{% endif %}` parse into one condition node |
| Sources.GreetSource | stencil.py:41-55 | a text, a variable and a condition around text, for any names that tokenise cleanly, parse into three nodes |
| Sources.GreetCompiles | stencil.py:113-117 | the tokens of `Hi {{ name }}{% if show %}!{% endif %}` parse into three nodes |
| Sources.LoopSource | stencil.py:41-55 | a counting loop, for any names that tokenise cleanly, parses into one loop node with a four-node body |
| Sources.LoopCompiles | stencil.py:113-117 | the tokens of `{% for n in nums %}{{ loopcounter }}:{{ n }};{% endfor %}` parse into one loop node |
| Template.Compile | stencil.py:113-117 | `Template(src).nodes` with an unterminated tag reported as an error, the corrected behaviour; its contract is carried by Template.CompileKeepsOutline, Template.PlainTextRendersItself and the three examples |
| Template.CompileAsWritten | stencil.py:113-117 | `Template(src).nodes` as the Python 2 code computes it; its contract is carried by Template.CompileAsWrittenTruncates |
| Template.RenderData | stencil.py:133-135 | `render` of a plain mapping wraps it into a fresh context without filters; its contract is carried by Template.Render and the examples |

## Left out

- `TemplateLoader` (stencil.py:58-71) is not part of this model. It reads files from disk.
- `IncludeTag` and `LoadTag` (stencil.py:258-283) are not part of this model. They need the loader, a dynamic module import, or an output stream that is replaced. The model's registry does not hold them, so `include` and `load` are unknown tags here.
- The `BlockMeta` metaclass is replaced by a fixed registry of the four built-in tags.
- Resolver.LookupPath: the first step of `resolve` reads the scope stack only. The fallback to attributes of the `Context` object itself (such as `filters`) is not modelled. Nor is its failure: an unbound first name that holds a non-ASCII character, such as `{{ prénom }}`, raises UnicodeEncodeError in that fallback (see Values.AttrLookup), and the model gives the default instead.
- Values.AttrLookup: Python 2's `getattr(obj, step)` at stencil.py:30 first encodes a unicode name to ASCII. A name with a character above `\x7f` raises UnicodeEncodeError there. That is a ValueError, which the `except (TypeError, AttributeError)` at stencil.py:31 does not catch, so the whole render fails. The model has no such failure: the attribute lookup of such a name misses.
- Values.Step: for the same reason, a step that misses the key lookup at stencil.py:27 and holds a non-ASCII character fails the render in the source. In the model it goes on to the index lookup and then gives the default, so `{{ d.é }}` with `d = {}` prints `None` here.
- Values.ToString: `None`, booleans, integers and strings print exactly as `unicode()` prints them. Lists, dictionaries, objects and callables print placeholders, because their Python text depends on `repr` and addresses.
- Text.Strip: templates are unicode, and `unicode.strip()` also strips the ASCII separators `\x1c`–`\x1f` and non-ASCII whitespace. The model strips the ASCII whitespace of `\s` only (space and `\t` to `\r`).
- Numerals.ParseInt: Python 2 `int()` on a unicode string first maps every Unicode decimal digit to its ASCII digit and every Unicode whitespace character to a space. The model reads ASCII digits and the ASCII whitespace of `\s` only. Inside `digattr` a step reaches `int()` at stencil.py:33 only after `getattr` at stencil.py:30 has accepted it, and that needs every character to be ASCII (see Values.AttrLookup). So the only part of this gap that `digattr` reaches is the ASCII separators `\x1c`–`\x1f`: Python 2 treats them as whitespace, and the model does not.
- Numerals.ParseUnpadded: the same restriction, because it reads through `ParseInt`.
- Values.IndexLookup: at stencil.py:33 `obj[int(step)]` also finds integer keys of a dictionary, so `{{ d.1 }}` with `d = {1: "x"}` prints `x`. The model's dictionaries have string keys only, so it cannot represent such a dictionary.
- Renderer.RenderFor: `ForTag.render` pushes a frame at stencil.py:214 and pops it at stencil.py:219, without `try`/`finally`. When `enumerate` rejects the value (after the push), or the body fails, that frame stays on the caller's `Context`, holding `loopcounter` and the loop variable, and a later render with the same `Context` sees those names. The model's errors carry no scope stack, and it reports a non-iterable value before the push. That leftover frame is not modelled.
- Filters are total functions. An exception raised inside a filter is not modelled.
- Callables have no side effects: a `ThunkVal` carries the value its call returns.
- Dictionaries are association lists, whose order is the iteration order. Python 2 dictionaries iterate in an arbitrary order.
- Attribute access on built-in types, such as a dictionary's `items` method, is not modelled: only `ObjVal` has attributes.
- Scope.Pop and Scope.Assign require a non-empty stack. Python would raise IndexError there, but a context always holds the frame it was built with.
- The output stream `context.output` is not modelled. Each render returns its text, and the caller concatenates it in the same order as the writes.
- `Template.render` takes a context (Template.Render) or a plain mapping (Template.RenderData). The model keeps these as two functions and does not dispatch on `isinstance`.
- Two behaviours of the code are kept as the code has them:
  - An unterminated compound tag silently cuts the template short: the StopIteration of `next` at stencil.py:183 or stencil.py:186 ends the Python 2 generator at stencil.py:119-131. This is evidently accidental: from Python 3.7 on (PEP 479) the same code raises RuntimeError instead. The model gives this behaviour as written and also the corrected one, which reports the tag (see Findings).
  - Rendering `for` over an unresolved name fails with NotIterable, because `enumerate(None)` at stencil.py:215 raises TypeError.

## Findings

| source | as written | input that shows it | evidently intended | confidence | as-written member | corrected member |
|---|---|---|---|---|---|---|
| stencil.py:183-186 | `Nodelist` calls `next` on a fresh `parse()` generator. When the tokens run out inside a body, the StopIteration escapes through `Template.parse` (stencil.py:119-131). Under Python 2 that silently ends `list(self.parse())` at stencil.py:117, so the template keeps the nodes before the tag and drops the rest | the tokens of `a{% if c %}b` (text `a`, block `if c`, text `b`) parse to the single text node `a` | a distinct error for an unterminated body | not executed | Parser.ParseAsWritten (Parser.UnterminatedIfExample, Parser.ParseAsWrittenTruncates) | Parser.Parse (Parser.ParseKeepsOutline, Parser.ParseAsWrittenAgrees) |
