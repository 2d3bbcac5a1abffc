/** Turning a global presence into an offline one, and leaving everything else
    on the chat stream alone. */
module PresenceRewrite {
  import opened Wrappers
  import opened XmlLexer
  import opened PresenceFraming
  import opened XmlTree

  datatype PresenceMode = Online | Offline

  datatype RewriteError = InvalidAttributes | Uninspectable | Unparsable

  const PRESENCE: Bytes := [112, 114, 101, 115, 101, 110, 99, 101]
  const TO: Bytes := [116, 111]
  const STATUS: Bytes := [115, 116, 97, 116, 117, 115]
  const GAMES: Bytes := [103, 97, 109, 101, 115]
  const SHOW: Bytes := [115, 104, 111, 119]
  const OFFLINE: Bytes := [111, 102, 102, 108, 105, 110, 101]

  // ----------------------------------------------------------- global presence

  /** Whether no attribute directs the presence at somebody. Reading stops at
      the first `to` with a value, or at the first malformed attribute. */
  function Undirected(s: Bytes, seen: seq<Bytes>): (r: Result<bool, RewriteError>)
    decreases |s|
  {
    var t := SkipSpace(s);
    if t == [] then Ok(true)
    else
      match ReadAttribute(t)
      case None => Err(InvalidAttributes)
      case Some(a) =>
        if a.key in seen then Err(InvalidAttributes)
        else if a.key == TO && a.value != [] then Ok(false)
        else Undirected(a.rest, seen + [a.key])
  }

  function GlobalPresence(frame: Bytes): (r: Result<bool, RewriteError>) {
    if StartsWith(frame, STREAM_CLOSE) then Ok(false)
    else
      match Lex(frame)
      case Eof => Ok(false)
      case Incomplete => Err(Uninspectable)
      case Tok(token, _) =>
        if (token.Open? || token.SelfClosed?) && NameOf(token.content) == PRESENCE
        then Undirected(token.content[|PRESENCE|..], [])
        else Ok(false)
  }

  /** Some attribute directs the presence at somebody. */
  predicate Directed(attributes: seq<(Bytes, Bytes)>) {
    exists a | a in attributes :: a.0 == TO && a.1 != []
  }

  lemma {:induction false} UndirectedIs(s: Bytes, seen: seq<Bytes>)
    ensures var (attributes, complete) := AttributesOf(s, seen);
            Undirected(s, seen) == if Directed(attributes) then Ok(false) else if complete then Ok(true) else Err(InvalidAttributes)
    decreases |s|
  {
    hide ReadAttribute;
    var t := SkipSpace(s);
    if t != [] && ReadAttribute(t).Some? && ReadAttribute(t).value.key !in seen {
      var a := ReadAttribute(t).value;
      UndirectedIs(a.rest, seen + [a.key]);
      var later := AttributesOf(a.rest, seen + [a.key]).0;
      assert forall p :: p in [(a.key, a.value)] + later <==> p == (a.key, a.value) || p in later;
    }
  }

  /** The event a frame begins with is a tag of this name. */
  predicate BeginsWithTag(frame: Bytes, name: Bytes) {
    Lex(frame).Tok? && (Lex(frame).token.Open? || Lex(frame).token.SelfClosed?) && NameOf(Lex(frame).token.content) == name
  }

  /** A global presence is a `presence` tag whose attributes can be read and none
      of which is a `to` with a value; one that is directed at somebody is told by
      such a `to` in front of whatever cannot be read; everything else that can
      be read is no presence. */
  lemma GlobalPresenceIff(frame: Bytes)
    ensures StartsWith(frame, STREAM_CLOSE) ==> GlobalPresence(frame) == Ok(false)
    ensures !StartsWith(frame, STREAM_CLOSE) && BeginsWithTag(frame, PRESENCE) ==>
              var (attributes, complete) := AttributesOf(Lex(frame).token.content[|PRESENCE|..], []);
              && (GlobalPresence(frame) == Ok(true) <==> complete && forall a | a in attributes :: a.0 == TO ==> a.1 == [])
              && (GlobalPresence(frame) == Ok(false) <==> exists a | a in attributes :: a.0 == TO && a.1 != [])
              && (GlobalPresence(frame) == Err(InvalidAttributes) <==> !complete && forall a | a in attributes :: a.0 == TO ==> a.1 == [])
    ensures GlobalPresence(frame).Ok? && GlobalPresence(frame).value ==> BeginsWithTag(frame, PRESENCE)
    ensures GlobalPresence(frame) == Err(Uninspectable) <==> !StartsWith(frame, STREAM_CLOSE) && Lex(frame) == Incomplete
    ensures !BeginsWithTag(frame, PRESENCE) && Lex(frame) != Incomplete ==> GlobalPresence(frame) == Ok(false)
  {
    hide Lex, AttributesOf, Undirected, NameOf;
    if BeginsWithTag(frame, PRESENCE) {
      UndirectedIs(Lex(frame).token.content[|PRESENCE|..], []);
    }
  }

  /** The attribute loop, leaving at the first decisive attribute. */
  method InspectPresence(frame: Bytes) returns (r: Result<bool, RewriteError>)
    ensures r == GlobalPresence(frame)
  {
    hide Lex, ReadAttribute, NameOf, StartsWith;
    SkipSpaceForAll();
    if StartsWith(frame, STREAM_CLOSE) {
      return Ok(false);
    }
    var lexed := Lex(frame);
    if lexed.Incomplete? {
      return Err(Uninspectable);
    }
    if !lexed.Tok? || !(lexed.token.Open? || lexed.token.SelfClosed?) || NameOf(lexed.token.content) != PRESENCE {
      return Ok(false);
    }
    var unread, seen := SkipSpace(lexed.token.content[|PRESENCE|..]), [];
    while unread != []
      invariant GlobalPresence(frame) == Undirected(unread, seen)
      invariant unread == SkipSpace(unread)
      decreases |unread|
    {
      var attribute := ReadAttribute(unread);
      if attribute.None? || attribute.value.key in seen {
        return Err(InvalidAttributes);
      }
      if attribute.value.key == TO && attribute.value.value != [] {
        return Ok(false);
      }
      seen := seen + [attribute.value.key];
      unread := SkipSpace(attribute.value.rest);
    }
    r := Ok(true);
  }

  lemma {:induction false} SkipSpaceTwice(s: Bytes)
    ensures SkipSpace(SkipSpace(s)) == SkipSpace(s)
  {
    if s != [] && IsSpace(s[0]) {
      SkipSpaceTwice(s[1..]);
    }
  }

  lemma SkipSpaceForAll()
    ensures forall s :: SkipSpace(SkipSpace(s)) == SkipSpace(s)
  {
    forall s {
      SkipSpaceTwice(s);
    }
  }

  // ------------------------------------------------------------ the offline tree

  /** The part of a name behind its namespace prefix. */
  function LocalName(name: Bytes): (r: Bytes) {
    match IndexOf(name, COLON)
    case None => name
    case Some(i) => name[i + 1..]
  }

  predicate Named(node: Node, name: Bytes) {
    node.Element? && LocalName(node.name) == name
  }

  function WithoutStatus(nodes: seq<Node>): (r: seq<Node>)
    ensures forall node :: node in r <==> node in nodes && !Named(node, STATUS)
  {
    if nodes == [] then []
    else
      var later := WithoutStatus(nodes[1..]);
      if Named(nodes[0], STATUS) then later else [nodes[0]] + later
  }

  function FirstChild(nodes: seq<Node>, name: Bytes): (r: Option<Node>)
    ensures r.Some? ==> r.value in nodes && Named(r.value, name)
    ensures r.None? ==> forall node | node in nodes :: !Named(node, name)
  {
    if nodes == [] then None
    else if Named(nodes[0], name) then Some(nodes[0])
    else FirstChild(nodes[1..], name)
  }

  /** Gives the first child of that name new content. */
  function SetFirst(nodes: seq<Node>, name: Bytes, content: seq<Node>): (r: seq<Node>)
    ensures |r| == |nodes|
  {
    if nodes == [] then []
    else if Named(nodes[0], name) then [nodes[0].(children := content)] + nodes[1..]
    else [nodes[0]] + SetFirst(nodes[1..], name, content)
  }

  const OFFLINE_TEXT: seq<Node> := [Characters(OFFLINE)]

  function OfflineChildren(nodes: seq<Node>): (r: seq<Node>) {
    var cleared := SetFirst(WithoutStatus(nodes), GAMES, []);
    if FirstChild(cleared, SHOW).Some? then SetFirst(cleared, SHOW, OFFLINE_TEXT)
    else cleared + [Element(SHOW, [], OFFLINE_TEXT)]
  }

  function OfflineTree(root: Node): (r: Node)
    requires root.Element?
    ensures r.Element?
  {
    root.(children := OfflineChildren(root.children))
  }

  function Rewrite(frame: Bytes, mode: PresenceMode): (r: Result<Bytes, RewriteError>) {
    if mode.Online? then Ok(frame)
    else
      match GlobalPresence(frame)
      case Err(e) => Err(e)
      case Ok(global) =>
        if !global then Ok(frame)
        else
          match ParseElement(frame)
          case None => Err(Unparsable)
          case Some(root) => Ok(Print(OfflineTree(root)))
  }

  /** The edit as the program makes it: drop, clear, then set or append. */
  method EditOffline(root: Node) returns (edited: Node)
    requires root.Element?
    ensures edited == OfflineTree(root)
  {
    var children: seq<Node> := [];
    assert root.children[0..] == root.children;
    for i := 0 to |root.children|
      invariant children + WithoutStatus(root.children[i..]) == WithoutStatus(root.children)
    {
      assert root.children[i..][0] == root.children[i] && root.children[i..][1..] == root.children[i + 1..];
      if !Named(root.children[i], STATUS) {
        children := children + [root.children[i]];
      }
    }
    assert root.children[|root.children|..] == [] && children + [] == children;
    var kept := children;
    assert kept == WithoutStatus(root.children);
    var games := FindChild(children, GAMES);
    SetAtFirst(kept, GAMES, games, []);
    if games < |children| {
      children := children[games := children[games].(children := [])];
    }
    var cleared := children;
    var show := FindChild(children, SHOW);
    SetAtFirst(cleared, SHOW, show, OFFLINE_TEXT);
    if show < |children| {
      children := children[show := children[show].(children := OFFLINE_TEXT)];
    } else {
      children := children + [Element(SHOW, [], OFFLINE_TEXT)];
    }
    edited := root.(children := children);
  }

  /** The index of the first child of that name, or the number of children. */
  method FindChild(nodes: seq<Node>, name: Bytes) returns (index: nat)
    ensures index <= |nodes|
    ensures forall i :: 0 <= i < index ==> !Named(nodes[i], name)
    ensures index < |nodes| ==> Named(nodes[index], name)
  {
    index := 0;
    while index < |nodes| && !Named(nodes[index], name)
      invariant index <= |nodes|
      invariant forall i :: 0 <= i < index ==> !Named(nodes[i], name)
    {
      index := index + 1;
    }
  }

  lemma {:induction false} SetAtFirst(nodes: seq<Node>, name: Bytes, index: nat, content: seq<Node>)
    requires index <= |nodes|
    requires forall i :: 0 <= i < index ==> !Named(nodes[i], name)
    requires index < |nodes| ==> Named(nodes[index], name)
    ensures SetFirst(nodes, name, content) ==
            if index < |nodes| then nodes[index := nodes[index].(children := content)] else nodes
    ensures FirstChild(nodes, name).Some? <==> index < |nodes|
  {
    hide LocalName;
    if nodes != [] {
      assert [nodes[0]] + nodes[1..] == nodes;
      if index > 0 {
        assert !Named(nodes[0], name);
        assert forall i :: 0 <= i < index - 1 ==> nodes[1..][i] == nodes[i + 1];
        SetAtFirst(nodes[1..], name, index - 1, content);
      }
    }
  }

  method RewriteFrame(frame: Bytes, mode: PresenceMode) returns (r: Result<Bytes, RewriteError>)
    ensures r == Rewrite(frame, mode)
  {
    if mode.Online? {
      return Ok(frame);
    }
    var global := InspectPresence(frame);
    if global.Err? {
      return Err(global.error);
    }
    if !global.value {
      return Ok(frame);
    }
    var root := ParseElement(frame);
    if root.None? {
      return Err(Unparsable);
    }
    var edited := EditOffline(root.value);
    r := Ok(Print(edited));
  }

  // ------------------------------------------------------ what the edit achieves

  /** Nothing about current activity is visible. */
  predicate HidesActivity(nodes: seq<Node>) {
    && (forall node | node in nodes :: !Named(node, STATUS))
    && (FirstChild(nodes, GAMES).Some? ==> FirstChild(nodes, GAMES).value.children == [])
    && FirstChild(nodes, SHOW).Some? && FirstChild(nodes, SHOW).value.children == OFFLINE_TEXT
  }

  function RemoveFirst(nodes: seq<Node>, name: Bytes): (r: seq<Node>) {
    if nodes == [] then []
    else if Named(nodes[0], name) then nodes[1..]
    else [nodes[0]] + RemoveFirst(nodes[1..], name)
  }

  /** The children the edit must not touch, in order. */
  function Untouched(nodes: seq<Node>): (r: seq<Node>) {
    RemoveFirst(RemoveFirst(WithoutStatus(nodes), GAMES), SHOW)
  }

  lemma {:induction false} SetFirstIsFirst(nodes: seq<Node>, name: Bytes, content: seq<Node>, other: Bytes)
    ensures FirstChild(SetFirst(nodes, name, content), other) ==
            if other == name && FirstChild(nodes, name).Some?
            then Some(FirstChild(nodes, name).value.(children := content))
            else FirstChild(nodes, other)
  {
    hide LocalName;
    if nodes != [] && !Named(nodes[0], name) {
      SetFirstIsFirst(nodes[1..], name, content, other);
    }
  }

  lemma {:induction false} SetFirstMembers(nodes: seq<Node>, name: Bytes, content: seq<Node>)
    ensures forall node | node in SetFirst(nodes, name, content) ::
              node in nodes || exists was :: was in nodes && Named(was, name) && node == was.(children := content)
  {
    hide LocalName;
    if nodes != [] && !Named(nodes[0], name) {
      SetFirstMembers(nodes[1..], name, content);
    }
  }

  lemma {:induction false} FirstChildAppend(nodes: seq<Node>, node: Node, name: Bytes)
    ensures FirstChild(nodes + [node], name) ==
            if FirstChild(nodes, name).Some? then FirstChild(nodes, name)
            else if Named(node, name) then Some(node) else None
  {
    hide LocalName;
    if nodes != [] {
      assert (nodes + [node])[1..] == nodes[1..] + [node];
      FirstChildAppend(nodes[1..], node, name);
    }
  }

  lemma ShowIsLocal()
    ensures LocalName(SHOW) == SHOW && SHOW != GAMES && SHOW != STATUS && GAMES != STATUS
  {
    assert SHOW[0] == 115 && SHOW[1] == 104 && GAMES[0] == 103 && STATUS[1] == 116;
    NoColon(SHOW);
  }

  lemma {:induction false} NoColon(s: Bytes)
    requires forall i :: 0 <= i < |s| ==> s[i] != COLON
    ensures IndexOf(s, COLON) == None
  {
    if s != [] {
      NoColon(s[1..]);
    }
  }

  lemma OfflineHidesActivity(nodes: seq<Node>)
    ensures HidesActivity(OfflineChildren(nodes))
  {
    hide LocalName;
    ShowIsLocal();
    var kept := WithoutStatus(nodes);
    var cleared := SetFirst(kept, GAMES, []);
    var show := Element(SHOW, [], OFFLINE_TEXT);
    SetFirstIsFirst(kept, GAMES, [], GAMES);
    SetFirstMembers(kept, GAMES, []);
    SetFirstMembers(cleared, SHOW, OFFLINE_TEXT);
    SetFirstIsFirst(cleared, SHOW, OFFLINE_TEXT, GAMES);
    SetFirstIsFirst(cleared, SHOW, OFFLINE_TEXT, SHOW);
    FirstChildAppend(cleared, show, GAMES);
    FirstChildAppend(cleared, show, SHOW);
    assert forall node | node in cleared :: !Named(node, STATUS);
  }

  lemma {:induction false} RemoveSet(nodes: seq<Node>, name: Bytes, content: seq<Node>, other: Bytes)
    ensures RemoveFirst(SetFirst(nodes, name, content), other) ==
            if other == name then RemoveFirst(nodes, name) else SetFirst(RemoveFirst(nodes, other), name, content)
  {
    hide LocalName;
    if nodes != [] {
      RemoveSet(nodes[1..], name, content, other);
    }
  }

  lemma {:induction false} RemoveAppend(nodes: seq<Node>, node: Node, name: Bytes)
    ensures RemoveFirst(nodes + [node], name) ==
            if FirstChild(nodes, name).None? && Named(node, name) then nodes else RemoveFirst(nodes, name) + [node]
    ensures FirstChild(nodes, name).None? ==> RemoveFirst(nodes, name) == nodes
  {
    hide LocalName;
    if nodes != [] {
      assert (nodes + [node])[1..] == nodes[1..] + [node];
      RemoveAppend(nodes[1..], node, name);
    }
  }

  lemma {:induction false} RemoveOther(nodes: seq<Node>, name: Bytes, other: Bytes)
    requires name != other
    ensures FirstChild(RemoveFirst(nodes, name), other) == FirstChild(nodes, other)
  {
    hide LocalName;
    if nodes != [] && !Named(nodes[0], name) {
      RemoveOther(nodes[1..], name, other);
    }
  }

  lemma {:induction false} WithoutStatusKeeps(nodes: seq<Node>)
    requires forall node | node in nodes :: !Named(node, STATUS)
    ensures WithoutStatus(nodes) == nodes
  {
    hide LocalName;
    if nodes != [] {
      WithoutStatusKeeps(nodes[1..]);
    }
  }

  /** Every other child is kept, unchanged and in order. */
  lemma OfflineKeepsTheRest(nodes: seq<Node>)
    ensures Untouched(OfflineChildren(nodes)) == Untouched(nodes)
  {
    hide LocalName;
    ShowIsLocal();
    var kept := WithoutStatus(nodes);
    var cleared := SetFirst(kept, GAMES, []);
    var show := Element(SHOW, [], OFFLINE_TEXT);
    OfflineHidesActivity(nodes);
    WithoutStatusKeeps(OfflineChildren(nodes));
    RemoveSet(kept, GAMES, [], GAMES);
    var bare := RemoveFirst(kept, GAMES);
    assert RemoveFirst(cleared, GAMES) == bare;
    RemoveOther(cleared, GAMES, SHOW);
    if FirstChild(cleared, SHOW).Some? {
      RemoveSet(cleared, SHOW, OFFLINE_TEXT, GAMES);
      RemoveSet(bare, SHOW, OFFLINE_TEXT, SHOW);
    } else {
      RemoveAppend(cleared, show, GAMES);
      RemoveAppend(bare, show, SHOW);
    }
  }

  /** Dropping `status` is a filter: each child is kept or dropped by itself. */
  lemma {:induction false} WithoutStatusCat(a: seq<Node>, b: seq<Node>)
    ensures WithoutStatus(a + b) == WithoutStatus(a) + WithoutStatus(b)
  {
    hide LocalName;
    if a == [] {
      assert a + b == b;
    } else {
      assert (a + b)[1..] == a[1..] + b;
      WithoutStatusCat(a[1..], b);
    }
  }

  predicate FirstNamed(nodes: seq<Node>, name: Bytes, i: nat)
    requires i < |nodes|
  {
    Named(nodes[i], name) && forall j :: 0 <= j < i ==> !Named(nodes[j], name)
  }

  lemma SetFirstAt(nodes: seq<Node>, name: Bytes, content: seq<Node>, i: nat)
    requires i < |nodes|
    ensures SetFirst(nodes, name, content)[i] == if FirstNamed(nodes, name, i) then nodes[i].(children := content) else nodes[i]
    ensures FirstNamed(nodes, name, i) ==> Named(SetFirst(nodes, name, content)[i], name)
  {
    hide LocalName;
    if exists k :: 0 <= k < |nodes| && Named(nodes[k], name) {
      var k := FirstIndex(nodes, name);
      SetAtFirst(nodes, name, k, content);
    } else {
      SetAtFirst(nodes, name, |nodes|, content);
    }
  }

  lemma {:induction false} FirstIndex(nodes: seq<Node>, name: Bytes) returns (k: nat)
    requires exists i :: 0 <= i < |nodes| && Named(nodes[i], name)
    ensures k < |nodes| && FirstNamed(nodes, name, k)
  {
    hide LocalName;
    if Named(nodes[0], name) {
      k := 0;
    } else {
      var i :| 0 <= i < |nodes| && Named(nodes[i], name);
      assert nodes[1..][i - 1] == nodes[i];
      k := FirstIndex(nodes[1..], name);
      k := k + 1;
    }
  }

  /** The edit child by child: those that are no `status` stay where they are with
      name and attributes; the first `games` loses its content, the first `show`
      says offline, and where there is none one is added at the end. */
  lemma OfflineChildrenAre(nodes: seq<Node>, i: nat)
    ensures var kept, edited := WithoutStatus(nodes), OfflineChildren(nodes);
            && |edited| == (if exists k :: 0 <= k < |kept| && Named(kept[k], SHOW) then |kept| else |kept| + 1)
            && (i < |kept| ==>
                  edited[i] == if FirstNamed(kept, GAMES, i) then kept[i].(children := [])
                               else if FirstNamed(kept, SHOW, i) then kept[i].(children := OFFLINE_TEXT)
                               else kept[i])
            && (i == |kept| < |edited| ==> edited[i] == Element(SHOW, [], OFFLINE_TEXT))
  {
    hide LocalName;
    ShowIsLocal();
    var kept := WithoutStatus(nodes);
    var cleared := SetFirst(kept, GAMES, []);
    forall k: nat | k < |kept|
      ensures cleared[k] == if FirstNamed(kept, GAMES, k) then kept[k].(children := []) else kept[k]
      ensures Named(cleared[k], SHOW) <==> Named(kept[k], SHOW)
    {
      SetFirstAt(kept, GAMES, [], k);
    }
    if i < |kept| {
      SetFirstAt(cleared, SHOW, OFFLINE_TEXT, i);
      assert FirstNamed(cleared, SHOW, i) <==> FirstNamed(kept, SHOW, i);
    }
    assert (exists k :: 0 <= k < |kept| && Named(kept[k], SHOW)) <==> exists k :: 0 <= k < |cleared| && Named(cleared[k], SHOW);
    if FirstChild(cleared, SHOW).Some? {
      var k :| 0 <= k < |cleared| && cleared[k] == FirstChild(cleared, SHOW).value;
    }
  }

  /** A name is compared without its namespace prefix. */
  lemma LocalNameIs(prefix: Bytes, name: Bytes)
    requires COLON !in prefix
    ensures LocalName(prefix + [COLON] + name) == name
    ensures COLON !in name ==> LocalName(name) == name
  {
    IndexOfIs(prefix, COLON, name);
    assert (prefix + [COLON] + name)[|prefix| + 1..] == name;
    if COLON !in name {
      NoColon(name);
    }
  }

  /** When nothing is rewritten: staying online, a frame that is no global
      presence, and one that cannot be read. */
  lemma RewriteLeavesAlone(frame: Bytes, mode: PresenceMode)
    ensures mode == Online || GlobalPresence(frame) == Ok(false) ==> Rewrite(frame, mode) == Ok(frame)
    ensures mode == Offline && GlobalPresence(frame).Err? ==> Rewrite(frame, mode) == Err(GlobalPresence(frame).error)
    ensures mode == Offline && GlobalPresence(frame) == Ok(true) && ParseElement(frame).None? ==> Rewrite(frame, mode) == Err(Unparsable)
  {
    hide GlobalPresence, ParseElement;
  }

  lemma {:induction false} SetFirstFixed(nodes: seq<Node>, name: Bytes, content: seq<Node>)
    requires FirstChild(nodes, name).Some? ==> FirstChild(nodes, name).value.children == content
    ensures SetFirst(nodes, name, content) == nodes
  {
    hide LocalName;
    if nodes != [] {
      assert [nodes[0]] + nodes[1..] == nodes;
      if Named(nodes[0], name) {
        assert nodes[0].(children := content) == nodes[0];
      } else {
        SetFirstFixed(nodes[1..], name, content);
      }
    }
  }

  /** A tree that already hides activity stays as it is. */
  lemma OfflineIsFixed(root: Node)
    requires root.Element? && HidesActivity(root.children)
    ensures OfflineTree(root) == root
  {
    WithoutStatusKeeps(root.children);
    SetFirstFixed(root.children, GAMES, []);
    SetFirstFixed(root.children, SHOW, OFFLINE_TEXT);
  }

  // ------------------------------------------- the rewritten frame, read again

  /** Text on both sides of a dropped child prints as one run of text. */
  function Join(nodes: seq<Node>): (r: seq<Node>) {
    if nodes == [] then []
    else
      var later := Join(nodes[1..]);
      if nodes[0].Characters? && later != [] && later[0].Characters?
      then [Characters(nodes[0].data + later[0].data)] + later[1..]
      else [nodes[0]] + later
  }

  function Joined(root: Node): (r: Node)
    requires root.Element?
    ensures r.Element?
  {
    root.(children := Join(root.children))
  }

  lemma {:induction false} JoinPrints(nodes: seq<Node>)
    ensures PrintAll(Join(nodes)) == PrintAll(nodes)
  {
    if nodes != [] {
      JoinPrints(nodes[1..]);
      var later := Join(nodes[1..]);
      if nodes[0].Characters? && later != [] && later[0].Characters? {
        assert Join(nodes)[1..] == later[1..];
      } else {
        assert Join(nodes)[1..] == later;
      }
    }
  }

  lemma {:induction false} JoinSound(nodes: seq<Node>)
    requires SoundAll(nodes)
    ensures SoundAll(Join(nodes)) && NoTextPairs(Join(nodes)) && HeightAll(Join(nodes)) <= HeightAll(nodes)
    ensures (forall node | node in nodes :: ValidTags(node)) ==> forall node | node in Join(nodes) :: ValidTags(node)
  {
    if nodes != [] {
      JoinSound(nodes[1..]);
      var later := Join(nodes[1..]);
      if nodes[0].Characters? && later != [] && later[0].Characters? {
        var text := Characters(nodes[0].data + later[0].data);
        assert Sound(later[0]) && Sound(nodes[0]);
        assert Join(nodes)[1..] == later[1..];
        assert SoundAll(later[1..]) && NoTextPairs(later[1..]);
        SoundBefore(text, later[1..]);
      } else {
        assert Join(nodes)[1..] == later;
        SoundBefore(nodes[0], later);
      }
    }
  }

  lemma {:induction false} JoinKeepsChildren(nodes: seq<Node>, name: Bytes)
    ensures FirstChild(Join(nodes), name) == FirstChild(nodes, name)
  {
    hide LocalName;
    if nodes != [] {
      JoinKeepsChildren(nodes[1..], name);
      var later := Join(nodes[1..]);
      if nodes[0].Characters? && later != [] && later[0].Characters? {
        assert Join(nodes)[1..] == later[1..];
      } else {
        assert Join(nodes)[1..] == later;
      }
    }
  }

  lemma {:induction false} JoinEmpty(nodes: seq<Node>)
    ensures Join(nodes) == [] <==> nodes == []
  {
  }

  /** The edit keeps every child sound and no deeper than before. */
  lemma OfflineSound(nodes: seq<Node>)
    requires SoundAll(nodes) && (forall node | node in nodes :: ValidTags(node)) && HeightAll(nodes) < MAX_DEPTH
    ensures SoundAll(OfflineChildren(nodes)) && HeightAll(OfflineChildren(nodes)) < MAX_DEPTH
    ensures forall node | node in OfflineChildren(nodes) :: ValidTags(node)
  {
    hide Sound, ValidTags;
    var kept := WithoutStatus(nodes);
    var cleared := SetFirst(kept, GAMES, []);
    WithoutStatusHeight(nodes);
    OfflineTextSound();
    SetFirstSound(kept, GAMES, []);
    SetFirstSound(cleared, SHOW, OFFLINE_TEXT);
    var show := Element(SHOW, [], OFFLINE_TEXT);
    AppendHeight(cleared, show);
  }

  lemma OfflineTextSound()
    ensures SoundAll(OFFLINE_TEXT) && NoTextPairs(OFFLINE_TEXT) && HeightAll(OFFLINE_TEXT) == 0
    ensures forall node | node in OFFLINE_TEXT :: ValidTags(node)
    ensures var show := Element(SHOW, [], OFFLINE_TEXT); Sound(show) && ValidTags(show) && Height(show) == 1
  {
    assert forall i :: 0 <= i < |SHOW| ==> NameByte(SHOW[i]);
    assert SHOW + [] == SHOW;
    PlainQuote(SHOW);
  }

  lemma {:induction false} WithoutStatusHeight(nodes: seq<Node>)
    ensures HeightAll(WithoutStatus(nodes)) <= HeightAll(nodes)
  {
    if nodes != [] {
      WithoutStatusHeight(nodes[1..]);
    }
  }

  lemma {:induction false} AppendHeight(nodes: seq<Node>, node: Node)
    ensures HeightAll(nodes + [node]) == if Height(node) > HeightAll(nodes) then Height(node) else HeightAll(nodes)
  {
    if nodes != [] {
      assert (nodes + [node])[1..] == nodes[1..] + [node];
      AppendHeight(nodes[1..], node);
    }
  }

  lemma {:induction false} SetFirstSound(nodes: seq<Node>, name: Bytes, content: seq<Node>)
    requires SoundAll(nodes) && (forall node | node in nodes :: ValidTags(node))
    requires SoundAll(content) && NoTextPairs(content) && HeightAll(content) == 0
    requires forall node | node in content :: ValidTags(node)
    ensures SoundAll(SetFirst(nodes, name, content))
    ensures forall node | node in SetFirst(nodes, name, content) :: ValidTags(node)
    ensures HeightAll(SetFirst(nodes, name, content)) <= if HeightAll(nodes) > 1 then HeightAll(nodes) else 1
  {
    hide LocalName;
    if nodes != [] {
      if Named(nodes[0], name) {
        assert Sound(nodes[0]) && ValidTags(nodes[0]);
        assert Sound(nodes[0].(children := content)) && ValidTags(nodes[0].(children := content));
      } else {
        SetFirstSound(nodes[1..], name, content);
      }
    }
  }

  lemma NotStreamTag(s: Bytes)
    requires |s| >= 2 && s[1] == PRESENCE[0]
    ensures !IsStreamTag(s) && !StartsWith(s, STREAM_CLOSE)
  {
  }

  /** A complete frame that is a global presence and reads as this tree. */
  predicate IsPresenceOf(frame: Bytes, root: Node) {
    Whole(frame) && GlobalPresence(frame) == Ok(true) && ParseElement(frame) == Some(root)
  }

  predicate SoundPresence(root: Node) {
    && root.Element? && Sound(root) && ValidTags(root) && Height(root) <= MAX_DEPTH
    && root.name == PRESENCE && Undirected(root.attributes, []) == Ok(true)
  }

  /** The tree a global presence was read into. */
  lemma PresenceTree(frame: Bytes, root: Node)
    ensures IsPresenceOf(frame, root) ==> SoundPresence(root)
  {
    hide Lex, Undirected, ValidTags, Sound, Height, Whole, NameOf;
    if IsPresenceOf(frame, root) {
      var content := Lex(frame).token.content;
      PresenceTag(frame, content);
      NotStreamTag(frame);
      FrameIsOneElement(frame);
      ParsedIsSound(frame);
    }
  }

  lemma PresenceTag(s: Bytes, content: Bytes)
    requires Lex(s).Tok? && (Lex(s).token == Open(content) || Lex(s).token == SelfClosed(content))
    requires NameOf(content) == PRESENCE
    ensures |s| >= 2 && s[1] == PRESENCE[0]
  {
    assert content[0] == NameOf(content)[0];
  }

  /** A sound presence prints as one frame and reads back as itself. */
  lemma PresenceFrame(root: Node)
    requires Sound(root) && ValidTags(root) && root.Element? && Height(root) <= MAX_DEPTH
    requires root.name == PRESENCE && root.children != [] && Undirected(root.attributes, []) == Ok(true)
    ensures Whole(Print(root)) && ParseElement(Print(root)) == Some(root) && GlobalPresence(Print(root)) == Ok(true)
  {
    hide Lex, Undirected, ValidTags, Height, Scan, NameOf, PrintAll, EndTag, SoundTag;
    var out := Print(root);
    assert out + [] == out;
    NestedEvents(root, []);
    NestedBytes(root, []);
    assert out[1] == (root.name + root.attributes)[0] == PRESENCE[0];
    NotStreamTag(out);
    ScanOne(root, [], []);
    ParseOne(root, []);
    NothingLeft();
  }

  lemma JoinHides(nodes: seq<Node>)
    requires HidesActivity(nodes)
    ensures HidesActivity(Join(nodes))
  {
    JoinKeepsChildren(nodes, STATUS);
    JoinKeepsChildren(nodes, GAMES);
    JoinKeepsChildren(nodes, SHOW);
  }

  lemma OfflinePresenceSound(root: Node)
    requires Sound(root) && ValidTags(root) && root.Element? && Height(root) <= MAX_DEPTH
    ensures var o := Joined(OfflineTree(root));
            Sound(o) && ValidTags(o) && Height(o) <= MAX_DEPTH && o.children != [] && Print(o) == Print(OfflineTree(root))
  {
    hide SoundTag, ValidAttributes, ValidName, OfflineChildren, Join, HidesActivity;
    NoHeight();
    var edited := OfflineChildren(root.children);
    OfflineSound(root.children);
    JoinSound(edited);
    JoinPrints(edited);
    JoinEmpty(edited);
    OfflineHidesActivity(root.children);
    ShownSomething(edited);
  }

  lemma ShownSomething(nodes: seq<Node>)
    requires HidesActivity(nodes)
    ensures nodes != []
  {
  }

  /** The frame a rewritten presence leaves as: exactly one complete frame,
      which reads back as the edited tree, is a global presence again, and is
      not changed by a second rewrite. */
  lemma RewrittenPresence(frame: Bytes, root: Node)
    ensures IsPresenceOf(frame, root) ==>
              && root.Element?
              && OfflineTree(root).name == root.name && OfflineTree(root).attributes == root.attributes
              && HidesActivity(OfflineTree(root).children)
              && Untouched(OfflineTree(root).children) == Untouched(root.children)
              && var out := Print(OfflineTree(root));
                 && Rewrite(frame, Offline) == Ok(out)
                 && IsPresenceOf(out, Joined(OfflineTree(root)))
                 && Rewrite(out, Offline) == Ok(out)
  {
    hide Whole, GlobalPresence, ParseElement, Sound, ValidTags, Height, Print, HidesActivity, Untouched, OfflineChildren, Join;
    if IsPresenceOf(frame, root) {
      PresenceTree(frame, root);
      OfflineHidesActivity(root.children);
      OfflineKeepsTheRest(root.children);
      OfflinePresenceSound(root);
      var o := Joined(OfflineTree(root));
      PresenceFrame(o);
      JoinHides(OfflineTree(root).children);
      OfflineIsFixed(o);
    }
  }

  /** Every complete global presence is one element; it is rewritten if and only
      if the names and attributes in it are valid, and refused otherwise. */
  lemma RewrittenIffTagsValid(frame: Bytes)
    ensures Whole(frame) && GlobalPresence(frame) == Ok(true) ==>
              var p := ParseContent(frame);
              && p.Parsed? && p.rest == [] && |p.nodes| == 1 && p.nodes[0].Element?
              && (ValidTags(p.nodes[0]) <==> IsPresenceOf(frame, p.nodes[0]))
              && (ValidTags(p.nodes[0]) <==> Rewrite(frame, Offline) != Err(Unparsable))
              && (ValidTags(p.nodes[0]) <==> Rewrite(frame, Offline).Ok?)
  {
    hide Lex, Undirected, ValidTags, Whole, NameOf, ParseContent, Print;
    if Whole(frame) && GlobalPresence(frame) == Ok(true) {
      PresenceTag(frame, Lex(frame).token.content);
      NotStreamTag(frame);
      FrameIsOneElement(frame);
    }
  }

  lemma PlainElement(name: Bytes, child: Node)
    requires ValidName(name) && Sound(child) && ValidTags(child)
    ensures var e := Element(name, [], [child]); Sound(e) && ValidTags(e) && Height(e) == 1 + Height(child)
  {
    assert name + [] == name;
    PlainQuote(name);
    NoHeight();
    assert [child][0] == child && [child][1..] == [];
  }

  lemma OnlyStatus(status: Node)
    requires Named(status, STATUS)
    ensures OfflineChildren([status]) == [Element(SHOW, [], OFFLINE_TEXT)]
  {
    hide LocalName;
    assert [status][1..] == [] && WithoutStatus([]) == [];
    assert WithoutStatus([status]) == [];
    assert SetFirst([], GAMES, []) == [] && FirstChild([], SHOW).None?;
    assert [] + [Element(SHOW, [], OFFLINE_TEXT)] == [Element(SHOW, [], OFFLINE_TEXT)];
  }

  lemma PlainNames()
    ensures ValidName(PRESENCE) && ValidName(STATUS)
    ensures LocalName(STATUS) == STATUS
  {
    assert forall i :: 0 <= i < |PRESENCE| ==> NameByte(PRESENCE[i]);
    assert forall i :: 0 <= i < |STATUS| ==> NameByte(STATUS[i]);
    NoColon(STATUS);
  }

  lemma PlainRoot(root: Node)
    requires root.Element? && root.attributes == []
    ensures Undirected(root.attributes, []) == Ok(true)
  {
  }

  /** A presence with nothing but a status becomes one with nothing but `show`. */
  lemma StatusGivesWayToShow(text: Bytes)
    requires text != [] && LT !in text
    ensures var root := Element(PRESENCE, [], [Element(STATUS, [], [Characters(text)])]);
            && Whole(Print(root)) && GlobalPresence(Print(root)) == Ok(true) && ParseElement(Print(root)) == Some(root)
            && Rewrite(Print(root), Offline) == Ok(Print(Element(PRESENCE, [], [Element(SHOW, [], OFFLINE_TEXT)])))
  {
    var status := Element(STATUS, [], [Characters(text)]);
    var root := Element(PRESENCE, [], [status]);
    PlainNames();
    PlainElement(STATUS, Characters(text));
    PlainElement(PRESENCE, status);
    OnlyStatus(status);
    NoHeight();
    PlainRoot(root);
    hide Sound, ValidTags, Height, ValidName, Whole, GlobalPresence, ParseElement, Print, Undirected, OfflineChildren;
    PresenceFrame(root);
  }
}
