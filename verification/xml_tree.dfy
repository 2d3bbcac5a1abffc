/** Element trees: reading a frame into a tree and printing a tree as a frame.

    The tree library is not part of this repository. Here a tree keeps the raw
    bytes of attributes, text, comments and processing instructions, so that
    what `rewrite` leaves alone is printed as it was read. */
module XmlTree {
  import opened Wrappers
  import opened XmlLexer
  import opened PresenceFraming

  datatype Node =
    | Element(name: Bytes, attributes: Bytes, children: seq<Node>)
    | Characters(data: Bytes)
    | Markup(raw: Bytes)

  // ---------------------------------------------------------------- printing

  function Print(node: Node): (s: Bytes)
    decreases node, 1
  {
    match node
    case Characters(data) => data
    case Markup(raw) => raw
    case Element(name, attributes, children) =>
      if children == [] then [LT] + (name + attributes) + [SLASH, GT]
      else [LT] + (name + attributes) + [GT] + (PrintAll(children) + EndTag(name))
  }

  function PrintAll(nodes: seq<Node>): (s: Bytes)
    decreases nodes, 0
  {
    if nodes == [] then [] else Print(nodes[0]) + PrintAll(nodes[1..])
  }

  function EndTag(name: Bytes): (s: Bytes) {
    [LT, SLASH] + name + [GT]
  }

  // ----------------------------------------------------------------- parsing

  /** The nodes read, and the bytes from the first closing tag that belongs to
      somebody else. */
  datatype Parsed = Malformed | Parsed(nodes: seq<Node>, rest: Bytes)

  function Before(node: Node, p: Parsed): (r: Parsed) {
    match p
    case Malformed => Malformed
    case Parsed(nodes, rest) => Parsed([node] + nodes, rest)
  }

  function ElementOf(content: Bytes, children: seq<Node>): (e: Node)
    ensures e.Element?
  {
    var name := NameOf(content);
    Element(name, content[|name|..], children)
  }

  function ParseContent(s: Bytes): (p: Parsed)
    ensures p.Parsed? ==> |p.rest| <= |s|
    ensures p.Parsed? && p.nodes != [] ==> s != [] && (p.nodes[0].Characters? <==> s[0] != LT)
    decreases |s|
  {
    match Lex(s)
    case Eof => Parsed([], s)
    case Incomplete => Malformed
    case Tok(token, n) =>
      match token
      case Close(_) => Parsed([], s)
      case DocType => Malformed
      case Text => Before(Characters(s[..n]), ParseContent(s[n..]))
      case Comment => Before(Markup(s[..n]), ParseContent(s[n..]))
      case Pi => Before(Markup(s[..n]), ParseContent(s[n..]))
      case SelfClosed(content) => Before(ElementOf(content, []), ParseContent(s[n..]))
      case Open(content) =>
        var inner := ParseContent(s[n..]);
        if inner.Malformed? then Malformed
        else
          var end := Lex(inner.rest);
          if end.Tok? && end.token == Close(NameOf(content))
          then Before(ElementOf(content, inner.nodes), ParseContent(inner.rest[end.size..]))
          else Malformed
  }

  // -------------------------------------------------------------- attributes

  function SkipSpace(s: Bytes): (r: Bytes)
    ensures |r| <= |s|
    ensures r != [] ==> !IsSpace(r[0]) && r[|r| - 1] == s[|s| - 1]
    ensures r == [] && s != [] ==> IsSpace(s[|s| - 1])
  {
    if s != [] && IsSpace(s[0]) then SkipSpace(s[1..]) else s
  }

  function KeyOf(s: Bytes): (key: Bytes)
    ensures |key| <= |s|
  {
    if s == [] || IsSpace(s[0]) || s[0] == EQUALS then [] else [s[0]] + KeyOf(s[1..])
  }

  function IndexOf(s: Bytes, b: byte): (r: Option<nat>)
    ensures r.Some? ==> r.value < |s| && s[r.value] == b
  {
    if s == [] then None
    else if s[0] == b then Some(0)
    else match IndexOf(s[1..], b) case None => None case Some(i) => Some(i + 1)
  }

  datatype Attribute = Attribute(key: Bytes, value: Bytes, rest: Bytes)

  /** One `key = "value"` from the front of `s`; `None` is malformed. */
  function ReadAttribute(s: Bytes): (r: Option<Attribute>)
    ensures r.Some? ==> |r.value.rest| < |s|
    ensures r.Some? && r.value.rest == [] ==> s[|s| - 1] in [APOSTROPHE, QUOTE]
    ensures r.Some? && r.value.rest != [] ==> r.value.rest[|r.value.rest| - 1] == s[|s| - 1]
  {
    var key := KeyOf(s);
    var equals := SkipSpace(s[|key|..]);
    if key == [] || equals == [] || equals[0] != EQUALS then None
    else
      var quoted := SkipSpace(equals[1..]);
      if quoted == [] || quoted[0] !in [APOSTROPHE, QUOTE] then None
      else
        match IndexOf(quoted[1..], quoted[0])
        case None => None
        case Some(end) => Some(Attribute(key, quoted[1..end + 1], quoted[end + 2..]))
  }

  predicate AllSpace(s: Bytes) {
    forall i :: 0 <= i < |s| ==> IsSpace(s[i])
  }

  predicate ValidKey(key: Bytes) {
    key != [] && forall i :: 0 <= i < |key| ==> !IsSpace(key[i]) && key[i] != EQUALS
  }

  /** How an attribute is written, with the space around the `=`. */
  function Written(a: Attribute, before: Bytes, after: Bytes, quote: byte): (s: Bytes) {
    a.key + before + ([EQUALS] + after) + ([quote] + a.value + [quote] + a.rest)
  }

  predicate Writable(a: Attribute, before: Bytes, after: Bytes, quote: byte) {
    ValidKey(a.key) && AllSpace(before) && AllSpace(after) && quote in [APOSTROPHE, QUOTE] && quote !in a.value
  }

  lemma {:induction false} SkipSpaceIs(s: Bytes, space: Bytes, rest: Bytes)
    requires s == space + rest && AllSpace(space) && (rest != [] ==> !IsSpace(rest[0]))
    ensures SkipSpace(s) == rest
  {
    if space != [] {
      assert s[1..] == space[1..] + rest;
      SkipSpaceIs(s[1..], space[1..], rest);
    }
  }

  lemma {:induction false} SpaceSkipped(s: Bytes) returns (space: Bytes)
    ensures s == space + SkipSpace(s) && AllSpace(space)
  {
    space := [];
    if s != [] && IsSpace(s[0]) {
      space := SpaceSkipped(s[1..]);
      space := [s[0]] + space;
    }
  }

  lemma {:induction false} KeyOfIs(key: Bytes, rest: Bytes)
    requires (forall i :: 0 <= i < |key| ==> !IsSpace(key[i]) && key[i] != EQUALS)
    requires rest != [] ==> IsSpace(rest[0]) || rest[0] == EQUALS
    ensures KeyOf(key + rest) == key
  {
    if key == [] {
      assert key + rest == rest;
    } else {
      assert (key + rest)[1..] == key[1..] + rest;
      KeyOfIs(key[1..], rest);
    }
  }

  lemma {:induction false} KeyTaken(s: Bytes)
    ensures s == KeyOf(s) + s[|KeyOf(s)|..]
    ensures forall i :: 0 <= i < |KeyOf(s)| ==> !IsSpace(KeyOf(s)[i]) && KeyOf(s)[i] != EQUALS
  {
    if s != [] && !IsSpace(s[0]) && s[0] != EQUALS {
      KeyTaken(s[1..]);
      assert s[|KeyOf(s)|..] == s[1..][|KeyOf(s[1..])|..];
    }
  }

  lemma {:induction false} IndexOfIs(value: Bytes, b: byte, rest: Bytes)
    requires b !in value
    ensures IndexOf(value + [b] + rest, b) == Some(|value|)
  {
    if value != [] {
      assert (value + [b] + rest)[1..] == value[1..] + [b] + rest;
      IndexOfIs(value[1..], b, rest);
    }
  }

  lemma {:induction false} NotBeforeIndex(s: Bytes, b: byte)
    requires IndexOf(s, b).Some?
    ensures b !in s[..IndexOf(s, b).value]
  {
    if s[0] != b {
      NotBeforeIndex(s[1..], b);
      assert s[..IndexOf(s, b).value] == [s[0]] + s[1..][..IndexOf(s[1..], b).value];
    }
  }

  lemma QuotedReads(value: Bytes, quote: byte, rest: Bytes)
    requires quote !in value
    ensures var quoted := [quote] + value + [quote] + rest;
            && IndexOf(quoted[1..], quote) == Some(|value|)
            && quoted[1..|value| + 1] == value && quoted[|value| + 2..] == rest
  {
    hide IndexOf;
    var quoted := [quote] + value + [quote] + rest;
    assert quoted[1..] == value + [quote] + rest;
    IndexOfIs(value, quote, rest);
  }

  /** What is written is what is read. */
  lemma WrittenReads(a: Attribute, before: Bytes, after: Bytes, quote: byte)
    requires Writable(a, before, after, quote)
    ensures ReadAttribute(Written(a, before, after, quote)) == Some(a)
  {
    hide KeyOf, SkipSpace, IndexOf;
    var s := Written(a, before, after, quote);
    var quoted := [quote] + a.value + [quote] + a.rest;
    var tail := [EQUALS] + after + quoted;
    WrittenKey(a.key, before, tail);
    assert s == a.key + (before + tail) by {
      hide ReadAttribute;
    }
    assert tail[1..] == after + quoted by {
      hide ReadAttribute;
    }
    SkipSpaceIs(after + quoted, after, quoted);
    QuotedReads(a.value, quote, a.rest);
    assert quoted[0] == quote;
  }

  lemma WrittenKey(key: Bytes, before: Bytes, tail: Bytes)
    requires ValidKey(key) && AllSpace(before) && tail != [] && tail[0] == EQUALS
    ensures var s := key + (before + tail); KeyOf(s) == key && SkipSpace(s[|key|..]) == tail
  {
    hide KeyOf, SkipSpace;
    KeyOfIs(key, before + tail);
    assert (key + (before + tail))[|key|..] == before + tail;
    SkipSpaceIs(before + tail, before, tail);
  }

  /** What is read was written like that. */
  lemma ReadWasWritten(s: Bytes) returns (before: Bytes, after: Bytes, quote: byte)
    requires ReadAttribute(s).Some?
    ensures Writable(ReadAttribute(s).value, before, after, quote) && s == Written(ReadAttribute(s).value, before, after, quote)
  {
    hide KeyOf, SkipSpace, IndexOf;
    var a := ReadAttribute(s).value;
    KeyTaken(s);
    var tail := SkipSpace(s[|a.key|..]);
    before := SpaceSkipped(s[|a.key|..]);
    var quoted := SkipSpace(tail[1..]);
    after := SpaceSkipped(tail[1..]);
    quote := quoted[0];
    NotBeforeIndex(quoted[1..], quote);
    var end := IndexOf(quoted[1..], quote).value;
    assert quoted[1..][..end] == a.value;
    assert quoted == [quote] + a.value + [quote] + a.rest;
    assert tail == [EQUALS] + tail[1..];
    assert s == a.key + (before + ([EQUALS] + (after + quoted)));
  }

  /** The attributes of a tag, in order, up to the first that is malformed or
      repeats a key; whether there is none such. */
  function AttributesOf(s: Bytes, seen: seq<Bytes>): (r: (seq<(Bytes, Bytes)>, bool))
    decreases |s|
  {
    var t := SkipSpace(s);
    if t == [] then ([], true)
    else
      match ReadAttribute(t)
      case None => ([], false)
      case Some(a) =>
        if a.key in seen then ([], false)
        else
          var later := AttributesOf(a.rest, seen + [a.key]);
          ([(a.key, a.value)] + later.0, later.1)
  }

  /** Every attribute is well formed and none occurs twice. */
  predicate ValidAttributes(s: Bytes, seen: seq<Bytes>)
    decreases |s|
  {
    var t := SkipSpace(s);
    t == [] ||
    match ReadAttribute(t)
    case None => false
    case Some(a) => a.key !in seen && ValidAttributes(a.rest, seen + [a.key])
  }

  lemma {:induction false} ValidIsComplete(s: Bytes, seen: seq<Bytes>)
    ensures ValidAttributes(s, seen) <==> AttributesOf(s, seen).1
    decreases |s|
  {
    hide ReadAttribute;
    var t := SkipSpace(s);
    if t != [] && ReadAttribute(t).Some? && ReadAttribute(t).value.key !in seen {
      ValidIsComplete(ReadAttribute(t).value.rest, seen + [ReadAttribute(t).value.key]);
    }
  }

  predicate NameByte(b: byte) {
    !IsSpace(b) && b !in [LT, GT, SLASH, BANG, QUESTION, APOSTROPHE, QUOTE, EQUALS]
  }

  predicate ValidName(name: Bytes) {
    name != [] && forall i :: 0 <= i < |name| ==> NameByte(name[i])
  }

  predicate ValidTags(node: Node) {
    node.Element? ==>
      && ValidName(node.name)
      && ValidAttributes(node.attributes, [])
      && forall child | child in node.children :: ValidTags(child)
  }

  /** A frame read as one element, or nothing if it is not one. */
  function ParseElement(frame: Bytes): (r: Option<Node>)
    ensures r.Some? ==> r.value.Element?
  {
    match ParseContent(frame)
    case Malformed => None
    case Parsed(nodes, rest) =>
      if rest == [] && |nodes| == 1 && nodes[0].Element? && ValidTags(nodes[0]) then Some(nodes[0]) else None
  }

  // ------------------------------------------------------- what printing needs

  /** The quote still open after `s`; `None` if an unquoted `>` came first. */
  function QuoteAfter(s: Bytes, quote: Option<byte>): (r: Option<Option<byte>>) {
    if s == [] then Some(quote)
    else if quote.None? && s[0] == GT then None
    else QuoteAfter(s[1..], NextQuote(s[0], quote))
  }

  predicate SoundTag(name: Bytes, attributes: Bytes) {
    && ValidName(name)
    && (attributes != [] ==> IsSpace(attributes[0]) && attributes[|attributes| - 1] != SLASH)
    && QuoteAfter(name + attributes, None) == Some(None)
  }

  predicate NoTextPairs(nodes: seq<Node>) {
    forall i :: 0 <= i < |nodes| - 1 ==> !(nodes[i].Characters? && nodes[i + 1].Characters?)
  }

  /** Trees that print and read back unchanged. */
  predicate Sound(node: Node) {
    match node
    case Characters(data) => data != [] && LT !in data
    case Markup(raw) => Lex(raw) == Tok(Comment, |raw|) || Lex(raw) == Tok(Pi, |raw|)
    case Element(name, attributes, children) =>
      && SoundTag(name, attributes)
      && NoTextPairs(children)
      && forall child | child in children :: Sound(child)
  }

  predicate SoundAll(nodes: seq<Node>) {
    forall node | node in nodes :: Sound(node)
  }

  /** How many elements a printed node keeps open at once. */
  function Height(node: Node): (h: nat)
    decreases node, 1
  {
    if node.Element? && node.children != [] then 1 + HeightAll(node.children) else 0
  }

  function HeightAll(nodes: seq<Node>): (h: nat)
    decreases nodes, 0
  {
    if nodes == [] then 0
    else if Height(nodes[0]) > HeightAll(nodes[1..]) then Height(nodes[0])
    else HeightAll(nodes[1..])
  }

  // --------------------------------------------------------- lexing what prints

  lemma {:induction false} TagEndAfter(a: Bytes, s: Bytes, quote: Option<byte>)
    requires QuoteAfter(a, quote).Some?
    ensures TagEnd(a + s, quote) ==
            match TagEnd(s, QuoteAfter(a, quote).value)
            case None => None
            case Some(n) => Some(n + |a|)
  {
    if a == [] {
      assert a + s == s;
    } else {
      assert (a + s)[1..] == a[1..] + s;
      TagEndAfter(a[1..], s, NextQuote(a[0], quote));
    }
  }

  lemma {:induction false} QuoteBeforeTagEnd(s: Bytes, quote: Option<byte>)
    requires TagEnd(s, quote).Some?
    ensures QuoteAfter(s[..TagEnd(s, quote).value - 1], quote) == Some(None)
  {
    if !(quote.None? && s[0] == GT) {
      var n := TagEnd(s, quote).value;
      assert s[..n - 1][1..] == s[1..][..n - 2];
      QuoteBeforeTagEnd(s[1..], NextQuote(s[0], quote));
    }
  }

  lemma {:induction false} PlainQuote(a: Bytes)
    requires forall i :: 0 <= i < |a| ==> a[i] !in [APOSTROPHE, QUOTE, GT]
    ensures QuoteAfter(a, None) == Some(None)
  {
    if a != [] {
      assert forall i :: 0 <= i < |a[1..]| ==> a[1..][i] == a[i + 1];
      PlainQuote(a[1..]);
    }
  }

  lemma {:induction false} NameOfSplit(name: Bytes, attributes: Bytes)
    requires forall i :: 0 <= i < |name| ==> !IsSpace(name[i])
    requires attributes != [] ==> IsSpace(attributes[0])
    ensures NameOf(name + attributes) == name
  {
    if name == [] {
      assert name + attributes == attributes;
    } else {
      assert (name + attributes)[1..] == name[1..] + attributes;
      NameOfSplit(name[1..], attributes);
    }
  }

  lemma LexTag(content: Bytes, after: Bytes)
    requires QuoteAfter(content, None) == Some(None)
    requires content != [] && content[0] != BANG && content[0] != QUESTION
    ensures Lex([LT] + content + [GT] + after) == Tok(TagToken(content), |content| + 2)
  {
    hide TagToken, LexBang, IsDoctypeWord, NameOf;
    var s := [LT] + content + [GT] + after;
    assert s == ([LT] + content) + ([GT] + after);
    assert ([LT] + content)[1..] == content;
    TagEndAfter([LT] + content, [GT] + after, None);
    assert s[1..|content| + 1] == content;
  }

  lemma SoundContent(name: Bytes, attributes: Bytes)
    requires SoundTag(name, attributes)
    ensures var content := name + attributes;
            && NameOf(content) == name && content[|name|..] == attributes
            && content != [] && content[0] !in [BANG, QUESTION, SLASH] && content[|content| - 1] != SLASH
  {
    NameOfSplit(name, attributes);
    assert NameByte(name[0]) && NameByte(name[|name| - 1]);
  }

  lemma LexOpen(name: Bytes, attributes: Bytes, after: Bytes)
    requires SoundTag(name, attributes)
    ensures Lex([LT] + (name + attributes) + [GT] + after) == Tok(Open(name + attributes), |name + attributes| + 2)
  {
    hide Lex, QuoteAfter;
    SoundContent(name, attributes);
    LexTag(name + attributes, after);
  }

  lemma LexSelfClosed(name: Bytes, attributes: Bytes, after: Bytes)
    requires SoundTag(name, attributes)
    ensures Lex([LT] + (name + attributes) + [SLASH, GT] + after) == Tok(SelfClosed(name + attributes), |name + attributes| + 3)
  {
    SoundContent(name, attributes);
    var content := name + attributes;
    var slashed := content + [SLASH];
    QuoteAfterCat(content, [SLASH], None);
    SlashStays();
    hide Lex, QuoteAfter;
    assert slashed[..|slashed| - 1] == content;
    LexTag(slashed, after);
    assert [LT] + slashed + [GT] + after == [LT] + content + [SLASH, GT] + after;
  }

  lemma SlashStays()
    ensures QuoteAfter([SLASH], None) == Some(None)
  {
  }

  lemma LexClose(name: Bytes, after: Bytes)
    requires ValidName(name)
    ensures Lex(EndTag(name) + after) == Tok(Close(name), |name| + 3)
  {
    hide Lex, QuoteAfter;
    var closing := [SLASH] + name;
    assert forall i :: 0 <= i < |name| ==> NameByte(name[i]) && closing[i + 1] == name[i];
    PlainQuote(closing);
    LexTag(closing, after);
    assert closing[1..] == name && TrimEnd(name) == name;
    assert [LT] + closing + [GT] + after == EndTag(name) + after;
  }

  lemma {:induction false} QuoteAfterCat(a: Bytes, b: Bytes, quote: Option<byte>)
    requires QuoteAfter(a, quote).Some?
    ensures QuoteAfter(a + b, quote) == QuoteAfter(b, QuoteAfter(a, quote).value)
  {
    if a == [] {
      assert a + b == b;
    } else {
      assert (a + b)[1..] == a[1..] + b;
      QuoteAfterCat(a[1..], b, NextQuote(a[0], quote));
    }
  }

  // -------------------------------------------------- printing, then reading

  /** Where the content of an element may stop. */
  predicate Closes(s: Bytes) {
    s == [] || (Lex(s).Tok? && Lex(s).token.Close?)
  }

  /** Text needs a bracket behind it, or it would run on. */
  predicate Separated(node: Node, tail: Bytes) {
    node.Characters? && tail != [] ==> tail[0] == LT
  }

  lemma PrintStart(node: Node)
    requires Sound(node)
    ensures Print(node) != [] && (Print(node)[0] == LT <==> !node.Characters?)
  {
    if node.Characters? {
      assert node.data[0] in node.data;
    }
  }

  lemma LexText(data: Bytes, tail: Bytes)
    requires data != [] && LT !in data && (tail != [] ==> tail[0] == LT)
    ensures Lex(data + tail) == Tok(Text, |data|)
  {
    assert forall i :: 0 <= i < |data| ==> (data + tail)[i] == data[i] && data[i] in data;
    TextEndOf(data + tail, |data|);
  }

  lemma {:induction false} ParseOne(node: Node, tail: Bytes)
    requires Sound(node) && Separated(node, tail)
    ensures ParseContent(Print(node) + tail) == Before(node, ParseContent(tail))
    decreases node, 1
  {
    hide Lex, QuoteAfter, SoundTag;
    var s := Print(node) + tail;
    assert s[|Print(node)|..] == tail && s[..|Print(node)|] == Print(node);
    match node
    case Characters(data) =>
      LexText(data, tail);
    case Markup(raw) =>
      LexStable(raw, tail);
    case Element(name, attributes, children) =>
      if children == [] {
        SoundContent(name, attributes);
        LexSelfClosed(name, attributes, tail);
      } else {
        ParseNested(node, tail);
      }
  }

  /** The bytes of an element with children, cut at its tags. */
  lemma NestedBytes(node: Node, tail: Bytes)
    requires node.Element? && node.children != []
    ensures var content, after := node.name + node.attributes, EndTag(node.name) + tail;
            var s := Print(node) + tail;
            && s == [LT] + content + [GT] + (PrintAll(node.children) + after)
            && s[|content| + 2..] == PrintAll(node.children) + after
            && after[|node.name| + 3..] == tail
            && |Print(node)| == |content| + 2 + |PrintAll(node.children)| + |node.name| + 3
  {
    hide PrintAll;
  }

  /** The events around the content of an element with children. */
  lemma NestedEvents(node: Node, tail: Bytes)
    requires node.Element? && node.children != [] && SoundTag(node.name, node.attributes)
    ensures var content, after := node.name + node.attributes, EndTag(node.name) + tail;
            && Lex(Print(node) + tail) == Tok(Open(content), |content| + 2)
            && Lex(after) == Tok(Close(node.name), |node.name| + 3)
            && NameOf(content) == node.name && ElementOf(content, node.children) == node
  {
    hide Lex, QuoteAfter, PrintAll, Print, EndTag;
    NestedBytes(node, tail);
    SoundNames(node.name, node.attributes);
    SoundContent(node.name, node.attributes);
    LexClose(node.name, tail);
    LexOpen(node.name, node.attributes, PrintAll(node.children) + (EndTag(node.name) + tail));
  }

  lemma {:induction false} ParseNested(node: Node, tail: Bytes)
    requires Sound(node) && node.Element? && node.children != []
    ensures ParseContent(Print(node) + tail) == Before(node, ParseContent(tail))
    decreases node, 0
  {
    hide Lex, SoundTag, Print, PrintAll, EndTag, NoTextPairs, NameOf, ElementOf;
    NestedBytes(node, tail);
    NestedEvents(node, tail);
    ParsePrinted(node.children, EndTag(node.name) + tail);
  }

  lemma SoundNames(name: Bytes, attributes: Bytes)
    requires SoundTag(name, attributes)
    ensures ValidName(name)
  {
  }

  /** Reading back what was printed gives the same nodes. */
  lemma {:induction false} ParsePrinted(nodes: seq<Node>, after: Bytes)
    requires SoundAll(nodes) && NoTextPairs(nodes) && Closes(after)
    ensures ParseContent(PrintAll(nodes) + after) == Parsed(nodes, after)
    decreases nodes, 0
  {
    if nodes == [] {
      assert PrintAll(nodes) + after == after;
    } else {
      var tail := PrintAll(nodes[1..]) + after;
      assert PrintAll(nodes) + after == Print(nodes[0]) + tail;
      NextStart(nodes, after);
      ParseOne(nodes[0], tail);
      assert forall i :: 0 <= i < |nodes[1..]| ==> nodes[1..][i] == nodes[i + 1];
      ParsePrinted(nodes[1..], after);
    }
  }

  lemma NextStart(nodes: seq<Node>, after: Bytes)
    requires nodes != [] && SoundAll(nodes) && NoTextPairs(nodes)
    requires after != [] ==> after[0] == LT
    ensures Separated(nodes[0], PrintAll(nodes[1..]) + after)
  {
    if |nodes| > 1 {
      PrintStart(nodes[1]);
      assert nodes[1..][0] == nodes[1];
    }
  }

  /** Printed nodes leave the framer's stack as it was. */
  lemma {:induction false} ScanOne(node: Node, stack: seq<Bytes>, tail: Bytes)
    requires Sound(node) && Separated(node, tail) && |stack| + Height(node) <= MAX_DEPTH
    requires stack != [] || node.Element?
    ensures Scan(Print(node) + tail, stack) ==
            if stack == [] then Frame(|Print(node)|) else Shift(Scan(tail, stack), |Print(node)|)
    decreases node, 1
  {
    hide Lex, QuoteAfter, SoundTag;
    var s := Print(node) + tail;
    assert s[|Print(node)|..] == tail;
    match node
    case Characters(data) =>
      LexText(data, tail);
    case Markup(raw) =>
      LexStable(raw, tail);
    case Element(name, attributes, children) =>
      if children == [] {
        LexSelfClosed(name, attributes, tail);
      } else {
        ScanNested(node, stack, tail);
      }
  }

  lemma {:induction false} ScanNested(node: Node, stack: seq<Bytes>, tail: Bytes)
    requires Sound(node) && node.Element? && node.children != [] && |stack| + Height(node) <= MAX_DEPTH
    ensures Scan(Print(node) + tail, stack) ==
            if stack == [] then Frame(|Print(node)|) else Shift(Scan(tail, stack), |Print(node)|)
    decreases node, 0
  {
    hide Lex, SoundTag, Print, PrintAll, EndTag, NoTextPairs, NameOf, ElementOf, HeightAll;
    var after := EndTag(node.name) + tail;
    NestedBytes(node, tail);
    NestedEvents(node, tail);
    var inner := stack + [node.name];
    StartsWithBracket(after);
    ScanAll(node.children, inner, after);
    assert inner[|inner| - 1] == node.name && inner[..|inner| - 1] == stack;
  }

  lemma StartsWithBracket(s: Bytes)
    requires Lex(s).Tok? && !Lex(s).token.Text?
    ensures s != [] && s[0] == LT
  {
  }

  lemma {:induction false} ScanAll(nodes: seq<Node>, stack: seq<Bytes>, after: Bytes)
    requires SoundAll(nodes) && NoTextPairs(nodes) && stack != [] && |stack| + HeightAll(nodes) <= MAX_DEPTH
    requires after != [] && after[0] == LT
    ensures Scan(PrintAll(nodes) + after, stack) == Shift(Scan(after, stack), |PrintAll(nodes)|)
    decreases nodes, 0
  {
    if nodes == [] {
      assert PrintAll(nodes) + after == after;
    } else {
      var tail := PrintAll(nodes[1..]) + after;
      assert PrintAll(nodes) + after == Print(nodes[0]) + tail;
      NextStart(nodes, after);
      ScanOne(nodes[0], stack, tail);
      assert forall i :: 0 <= i < |nodes[1..]| ==> nodes[1..][i] == nodes[i + 1];
      ScanAll(nodes[1..], stack, after);
    }
  }

  // -------------------------------------------------- reading what was framed

  /** How the content of the innermost open element must end. */
  predicate EndsElement(s: Bytes, stack: seq<Bytes>, size: nat, p: Parsed)
    requires stack != []
  {
    && p.Parsed? && |p.rest| <= |s|
    && var end := Lex(p.rest);
       var used := |s| - |p.rest|;
    && end.Tok? && end.token == Close(stack[|stack| - 1])
    && |stack| + HeightAll(p.nodes) <= MAX_DEPTH
    && if |stack| == 1 then size == used + end.size
       else size >= used + end.size && Scan(p.rest[end.size..], stack[..|stack| - 1]) == Frame(size - used - end.size)
  }

  /** The counting scan and the recursive grammar agree: whatever the framer
      cuts off is properly nested. */
  lemma {:induction false} ScanParses(s: Bytes, stack: seq<Bytes>)
    requires stack != [] && |stack| <= MAX_DEPTH && Scan(s, stack).Frame?
    ensures EndsElement(s, stack, Scan(s, stack).size, ParseContent(s))
    decreases |s|, 1
  {
    hide Lex, HeightAll;
    var lexed := Lex(s);
    NoHeight();
    if lexed.token.Open? {
      ScanParsesOpen(s, stack);
    } else if !lexed.token.Close? {
      ScanParses(s[lexed.size..], stack);
      HeightBefore(ParseContent(s).nodes[0], ParseContent(s[lexed.size..]).nodes);
    }
  }

  lemma {:induction false} ScanParsesOpen(s: Bytes, stack: seq<Bytes>)
    requires stack != [] && |stack| <= MAX_DEPTH && Scan(s, stack).Frame? && Lex(s).Tok? && Lex(s).token.Open?
    ensures EndsElement(s, stack, Scan(s, stack).size, ParseContent(s))
    decreases |s|, 0
  {
    hide Lex, HeightAll, ElementOf;
    var n := Lex(s).size;
    var name := NameOf(Lex(s).token.content);
    var inner := stack + [name];
    assert inner[|inner| - 1] == name && inner[..|inner| - 1] == stack;
    ScanParses(s[n..], inner);
    var p := ParseContent(s[n..]);
    var tail := p.rest[Lex(p.rest).size..];
    ScanParses(tail, stack);
    var element := ElementOf(Lex(s).token.content, p.nodes);
    HeightOfElement(Lex(s).token.content, p.nodes);
    HeightBefore(element, ParseContent(tail).nodes);
  }

  lemma NoHeight()
    ensures HeightAll([]) == 0
  {
  }

  lemma HeightOfElement(content: Bytes, children: seq<Node>)
    ensures Height(ElementOf(content, children)) <= 1 + HeightAll(children)
  {
  }

  lemma HeightBefore(node: Node, nodes: seq<Node>)
    ensures HeightAll([node] + nodes) == if Height(node) > HeightAll(nodes) then Height(node) else HeightAll(nodes)
  {
    assert ([node] + nodes)[1..] == nodes;
  }

  /** The framer and the grammar agree on whole frames: a frame that starts
      with a tag is exactly one element, never more than 64 deep. */
  lemma FrameIsOneElement(f: Bytes)
    requires Whole(f) && !IsStreamTag(f)
    requires Lex(f).Tok? && (Lex(f).token.Open? || Lex(f).token.SelfClosed?)
    ensures var p := ParseContent(f);
            && p.Parsed? && p.rest == [] && |p.nodes| == 1 && p.nodes[0].Element? && Height(p.nodes[0]) <= MAX_DEPTH
  {
    hide Lex, HeightAll;
    var n := Lex(f).size;
    NothingLeft();
    if Lex(f).token.Open? {
      var content := Lex(f).token.content;
      assert [] + [NameOf(content)] == [NameOf(content)];
      ScanParses(f[n..], [NameOf(content)]);
      var p := ParseContent(f[n..]);
      assert p.rest[Lex(p.rest).size..] == [];
      HeightOfElement(content, p.nodes);
    } else {
      assert f[n..] == [];
    }
  }

  lemma NothingLeft()
    ensures ParseContent([]) == Parsed([], [])
  {
  }

  lemma {:induction false} ValidAttributesEnd(s: Bytes, seen: seq<Bytes>)
    requires ValidAttributes(s, seen) && s != []
    ensures s[|s| - 1] != SLASH
    decreases |s|
  {
    var t := SkipSpace(s);
    if t != [] {
      var a := ReadAttribute(t).value;
      if a.rest != [] {
        ValidAttributesEnd(a.rest, seen + [a.key]);
      }
    }
  }

  lemma {:induction false} OpenQuote(s: Bytes, quote: Option<byte>)
    requires quote.Some? ==> quote.value in [APOSTROPHE, QUOTE]
    ensures QuoteAfter(s, quote).Some? && QuoteAfter(s, quote).value.Some? ==>
              QuoteAfter(s, quote).value.value in [APOSTROPHE, QUOTE]
  {
    if s != [] {
      OpenQuote(s[1..], NextQuote(s[0], quote));
    }
  }

  lemma {:induction false} QuotePrefix(a: Bytes, b: Bytes, quote: Option<byte>)
    requires QuoteAfter(a + b, quote).Some?
    ensures QuoteAfter(a, quote).Some?
  {
    if a != [] {
      assert (a + b)[1..] == a[1..] + b;
      QuotePrefix(a[1..], b, NextQuote(a[0], quote));
    }
  }

  /** Quotes are balanced between the brackets of a tag that was read. */
  lemma TagQuotes(s: Bytes, content: Bytes)
    requires Lex(s).Tok? && (Lex(s).token == Open(content) || Lex(s).token == SelfClosed(content))
    ensures QuoteAfter(content, None) == Some(None)
  {
    var n := TagEnd(s, None).value;
    QuoteBeforeTagEnd(s, None);
    assert s[..n - 1][1..] == s[1..n - 1];
    if Lex(s).token.SelfClosed? {
      assert s[1..n - 1] == content + [SLASH];
      QuotePrefix(content, [SLASH], None);
      QuoteAfterCat(content, [SLASH], None);
      OpenQuote(content, None);
    }
  }

  lemma SoundElement(s: Bytes, content: Bytes, children: seq<Node>)
    requires Lex(s).Tok? && (Lex(s).token == Open(content) || Lex(s).token == SelfClosed(content))
    requires SoundAll(children) && NoTextPairs(children)
    ensures ValidTags(ElementOf(content, children)) ==> Sound(ElementOf(content, children))
  {
    hide Lex, QuoteAfter, ValidAttributes;
    TagQuotes(s, content);
    var e := ElementOf(content, children);
    assert e.name + e.attributes == content;
    if ValidTags(e) && e.attributes != [] {
      ValidAttributesEnd(e.attributes, []);
    }
  }

  /** What is read from valid tags is a sound tree: it prints and reads back. */
  lemma {:induction false} ParsedIsSound(s: Bytes)
    requires ParseContent(s).Parsed? && forall node | node in ParseContent(s).nodes :: ValidTags(node)
    ensures SoundAll(ParseContent(s).nodes) && NoTextPairs(ParseContent(s).nodes)
    decreases |s|
  {
    hide Lex, Sound, ValidTags, ElementOf;
    if ParseContent(s).nodes != [] {
      var n := Lex(s).size;
      var node := ParseContent(s).nodes[0];
      var tail := s[n..];
      match Lex(s).token {
        case SelfClosed(content) => SoundElement(s, content, []);
        case Open(content) =>
          var inner := ParseContent(s[n..]);
          ValidChildren(content, inner.nodes);
          ParsedIsSound(s[n..]);
          SoundElement(s, content, inner.nodes);
          tail := inner.rest[Lex(inner.rest).size..];
        case _ => LeafIsSound(s);
      }
      assert ParseContent(s).nodes == [node] + ParseContent(tail).nodes;
      assert forall x :: x in ParseContent(tail).nodes ==> x in ParseContent(s).nodes;
      ParsedIsSound(tail);
      SoundBefore(node, ParseContent(tail).nodes);
    }
  }

  lemma SoundBefore(node: Node, nodes: seq<Node>)
    requires Sound(node) && SoundAll(nodes) && NoTextPairs(nodes)
    requires nodes != [] ==> !(node.Characters? && nodes[0].Characters?)
    ensures SoundAll([node] + nodes) && NoTextPairs([node] + nodes)
  {
    hide Sound;
  }

  lemma ValidChildren(content: Bytes, children: seq<Node>)
    requires ValidTags(ElementOf(content, children))
    ensures forall child | child in children :: ValidTags(child)
  {
  }

  lemma LeafIsSound(s: Bytes)
    requires Lex(s).Tok? && (Lex(s).token.Text? || Lex(s).token.Comment? || Lex(s).token.Pi?)
    ensures var raw := s[..Lex(s).size]; Sound(if Lex(s).token.Text? then Characters(raw) else Markup(raw))
    ensures Lex(s).token.Text? && s[Lex(s).size..] != [] ==> s[Lex(s).size..][0] == LT
  {
    LexCut(s, Lex(s).size);
  }
}
