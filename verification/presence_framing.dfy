/** Byte-preserving framing of the outbound chat stream.

    `Frames` is the decoder: bytes are pushed in whatever pieces the socket
    delivers, complete stanzas are drawn off one at a time. `FirstFrame` says
    what a buffer must yield; the rest of the module shows that the pieces do
    not matter. */
module PresenceFraming {
  import opened Wrappers
  import opened XmlLexer

  const MAX_FRAME: nat := 262144
  const MAX_DEPTH: nat := 64
  const STREAM_OPEN: Bytes := [60, 115, 116, 114, 101, 97, 109, 58, 115, 116, 114, 101, 97, 109] // <stream:stream
  const STREAM_CLOSE: Bytes := [60, 47, 115, 116, 114, 101, 97, 109, 58, 115, 116, 114, 101, 97, 109] // </stream:stream

  datatype FrameError = TooDeep | UnexpectedClosingTag | DocumentType | InvalidXml

  datatype Framing = NeedMore | Frame(size: nat) | Fail(error: FrameError)

  function Shift(f: Framing, skipped: nat): (r: Framing) {
    match f
    case Frame(n) => Frame(n + skipped)
    case _ => f
  }

  /** What one event does to the names of the elements still open, outermost
      first. */
  datatype Effect = Continue(stack: seq<Bytes>) | Complete | Reject(error: FrameError)

  function EffectOf(token: Token, stack: seq<Bytes>): (e: Effect) {
    match token
    case Open(content) =>
      if |stack| + 1 > MAX_DEPTH then Reject(TooDeep) else Continue(stack + [NameOf(content)])
    case Close(name) =>
      if stack == [] then Reject(UnexpectedClosingTag)
      else if name != stack[|stack| - 1] then Reject(InvalidXml)
      else if |stack| == 1 then Complete
      else Continue(stack[..|stack| - 1])
    case DocType => Reject(DocumentType)
    case _ => if stack == [] then Complete else Continue(stack)
  }

  /** Reads events until the element opened first is closed again. */
  function Scan(s: Bytes, stack: seq<Bytes>): (f: Framing)
    ensures f.Frame? ==> 0 < f.size <= |s|
    decreases |s|
  {
    var lexed := Lex(s);
    if !lexed.Tok? then NeedMore
    else
      match EffectOf(lexed.token, stack)
      case Reject(e) => Fail(e)
      case Complete => Frame(lexed.size)
      case Continue(rest) => Shift(Scan(s[lexed.size..], rest), lexed.size)
  }

  predicate IsStreamTag(s: Bytes) {
    StartsWith(s, STREAM_OPEN) || StartsWith(s, STREAM_CLOSE)
  }

  /** What the decoder does with the buffer `s`. The stream root stays open for
      the whole connection, so its two tags are frames of their own. */
  function FirstFrame(s: Bytes): (f: Framing)
    ensures f.Frame? ==> 0 < f.size <= |s|
    ensures f.Fail? ==> s != [] && s[0] == LT
  {
    if IsStreamTag(s) then
      match TagEnd(s, None)
      case None => NeedMore
      case Some(n) => Frame(n)
    else Scan(s, [])
  }

  // ---------------------------------------------------------------- decoder

  /** The first `>` outside quotes, found byte by byte. */
  method FindTagEnd(bytes: Bytes) returns (end: Option<nat>)
    ensures end == TagEnd(bytes, None)
  {
    var quote: Option<byte> := None;
    for index := 0 to |bytes|
      invariant TagEnd(bytes, None) ==
                match TagEnd(bytes[index..], quote)
                case None => None
                case Some(n) => Some(n + index)
    {
      assert bytes[index..][1..] == bytes[index + 1..];
      var current := bytes[index];
      if quote.Some? {
        if current == quote.value {
          quote := None;
        }
      } else if current == APOSTROPHE || current == QUOTE {
        quote := Some(current);
      } else if current == GT {
        return Some(index + 1);
      }
    }
    end := None;
  }

  /** The event loop: how far the first complete element, or other top-level
      event, reaches. */
  method ReadElement(bytes: Bytes) returns (framing: Framing)
    ensures framing == Scan(bytes, [])
  {
    hide Lex, EffectOf;
    assert bytes[0..] == bytes;
    var position, stack := 0, [];
    while true
      invariant position <= |bytes|
      invariant Scan(bytes, []) == Shift(Scan(bytes[position..], stack), position)
      decreases |bytes| - position
    {
      var lexed := Lex(bytes[position..]);
      if !lexed.Tok? {
        return NeedMore;
      }
      assert bytes[position..][lexed.size..] == bytes[position + lexed.size..];
      position := position + lexed.size;
      match EffectOf(lexed.token, stack) {
        case Reject(e) => return Fail(e);
        case Complete => return Frame(position);
        case Continue(rest) => stack := rest;
      }
    }
  }

  class Frames {
    var buffer: Bytes

    predicate Valid()
      reads this
    {
      |buffer| <= MAX_FRAME
    }

    constructor ()
      ensures Valid() && buffer == []
    {
      buffer := [];
    }

    /** Refuses bytes that would make the buffer outgrow one frame. */
    method Push(bytes: Bytes) returns (accepted: bool)
      requires Valid()
      modifies this
      ensures Valid()
      ensures accepted <==> |old(buffer)| + |bytes| <= MAX_FRAME
      ensures buffer == if accepted then old(buffer) + bytes else old(buffer)
    {
      if |buffer| + |bytes| > MAX_FRAME {
        return false;
      }
      buffer := buffer + bytes;
      accepted := true;
    }

    method Pending() returns (pending: bool)
      ensures pending <==> buffer != []
    {
      pending := |buffer| != 0;
    }

    method Next() returns (r: Result<Option<Bytes>, FrameError>)
      requires Valid()
      modifies this
      ensures Valid()
      ensures match FirstFrame(old(buffer))
        case NeedMore => r == Ok(None) && buffer == old(buffer)
        case Frame(n) => r == Ok(Some(old(buffer)[..n])) && buffer == old(buffer)[n..]
        case Fail(e) => r == Err(e) && buffer == old(buffer)
    {
      if buffer == [] {
        return Ok(None);
      }
      var framing: Framing;
      if StartsWith(buffer, STREAM_OPEN) || StartsWith(buffer, STREAM_CLOSE) {
        var end := FindTagEnd(buffer);
        framing := if end.Some? then Frame(end.value) else NeedMore;
      } else {
        framing := ReadElement(buffer);
      }
      match framing {
        case NeedMore => r := Ok(None);
        case Fail(e) => r := Err(e);
        case Frame(end) =>
          r := Ok(Some(buffer[..end]));
          buffer := buffer[end..];
      }
    }
  }

  // --------------------------------------------------- what a frame depends on

  lemma {:induction false} ScanStable(s: Bytes, more: Bytes, stack: seq<Bytes>)
    requires Scan(s, stack) != NeedMore
    requires stack != [] || s[0] == LT || Scan(s, stack).size < |s|
    ensures Scan(s + more, stack) == Scan(s, stack)
    decreases |s|
  {
    hide Lex;
    var lexed := Lex(s);
    LexStable(s, more);
    assert (s + more)[lexed.size..] == s[lexed.size..] + more;
    var effect := EffectOf(lexed.token, stack);
    if effect.Continue? {
      ScanStable(s[lexed.size..], more, effect.stack);
    }
  }

  lemma {:induction false} ScanCut(s: Bytes, stack: seq<Bytes>)
    requires Scan(s, stack).Frame?
    ensures Scan(s[..Scan(s, stack).size], stack) == Scan(s, stack)
    decreases |s|
  {
    hide Lex, EffectOf;
    var size := Scan(s, stack).size;
    var lexed := Lex(s);
    LexCut(s, size);
    assert s[..size][lexed.size..] == s[lexed.size..][..size - lexed.size];
    var effect := EffectOf(lexed.token, stack);
    if effect.Continue? {
      ScanCut(s[lexed.size..], effect.stack);
    }
  }

  /** A buffer that only becomes a stream tag later says nothing yet. */
  lemma PartialStreamTag(s: Bytes, more: Bytes)
    requires !IsStreamTag(s) && IsStreamTag(s + more)
    ensures FirstFrame(s) == NeedMore
  {
    var tag := if StartsWith(s + more, STREAM_OPEN) then STREAM_OPEN else STREAM_CLOSE;
    assert (s + more)[..|tag|] == tag;
    forall i | 0 <= i < |s|
      ensures s[i] == tag[i]
    {
      assert s[i] == (s + more)[..|tag|][i];
    }
    assert GT !in s;
  }

  /** A frame is settled by the bytes that made it: nothing that arrives later
      changes it, unless it is text still open at the end of the buffer. */
  lemma FirstFrameStable(s: Bytes, more: Bytes)
    requires FirstFrame(s) != NeedMore
    requires s[0] == LT || FirstFrame(s).size < |s|
    ensures FirstFrame(s + more) == FirstFrame(s)
  {
    if IsStreamTag(s) {
      TagEndStable(s, more, None);
      assert StartsWith(s, STREAM_OPEN) ==> (s + more)[..|STREAM_OPEN|] == s[..|STREAM_OPEN|];
      assert StartsWith(s, STREAM_CLOSE) ==> (s + more)[..|STREAM_CLOSE|] == s[..|STREAM_CLOSE|];
    } else if IsStreamTag(s + more) {
      PartialStreamTag(s, more);
    } else {
      ScanStable(s, more, []);
    }
  }

  /** Framing a frame gives the frame back. */
  lemma FrameAlone(s: Bytes)
    requires FirstFrame(s).Frame?
    ensures FirstFrame(s[..FirstFrame(s).size]) == FirstFrame(s)
  {
    var n := FirstFrame(s).size;
    var alone := s[..n];
    assert alone + s[n..] == s;
    if IsStreamTag(s) {
      StreamTagSize(s);
      TagEndCut(s, n, None);
      assert StartsWith(s, STREAM_OPEN) ==> alone[..|STREAM_OPEN|] == s[..|STREAM_OPEN|];
      assert StartsWith(s, STREAM_CLOSE) ==> alone[..|STREAM_CLOSE|] == s[..|STREAM_CLOSE|];
    } else {
      ScanCut(s, []);
    }
  }

  lemma StreamTagSize(s: Bytes)
    requires IsStreamTag(s) && TagEnd(s, None).Some?
    ensures TagEnd(s, None).value > if StartsWith(s, STREAM_OPEN) then |STREAM_OPEN| else |STREAM_CLOSE|
  {
    var tag := if StartsWith(s, STREAM_OPEN) then STREAM_OPEN else STREAM_CLOSE;
    forall i | 0 <= i < |tag|
      ensures s[i] == tag[i]
    {
      assert s[i] == s[..|tag|][i];
    }
    assert GT !in tag;
  }

  /** No proper prefix of a stanza is a stanza, nor an error: a stanza ends at
      the first place where it can. */
  lemma StanzaIsMinimal(s: Bytes, k: nat)
    requires FirstFrame(s).Frame? && s[0] == LT && k < FirstFrame(s).size
    ensures FirstFrame(s[..k]) == NeedMore
  {
    assert s[..k] + s[k..] == s;
    if FirstFrame(s[..k]) != NeedMore {
      FirstFrameStable(s[..k], s[k..]);
    }
  }

  /** The two tags of the stream root are frames of their own, whatever follows
      and however deep: they end where their tag does. */
  lemma StreamTagsStandAlone(s: Bytes, n: nat)
    requires StartsWith(s, STREAM_OPEN) || StartsWith(s, STREAM_CLOSE)
    ensures FirstFrame(s) == Frame(n) <==> 0 < n <= |s| && s[n - 1] == GT && Quoted(s[..n - 1])
    ensures !FirstFrame(s).Fail?
  {
    hide Quoted, TagEnd;
    TagEndIff(s, n);
  }

  /** The names of the elements left open by the events in the first `k` bytes. */
  function OpenNames(s: Bytes, k: nat, open: seq<Bytes>): (r: seq<Bytes>)
    decreases |s|
  {
    match Lex(s)
    case Tok(token, n) =>
      if k < n then open
      else
        OpenNames(s[n..], k - n,
                  if token.Open? then open + [NameOf(token.content)]
                  else if token.Close? && open != [] then open[..|open| - 1]
                  else open)
    case _ => open
  }

  /** What an error says of the event it came with and of what was open. */
  predicate Explains(e: FrameError, token: Token, open: seq<Bytes>) {
    match e
    case TooDeep => token.Open? && |open| == 64
    case UnexpectedClosingTag => token.Close? && open == []
    case InvalidXml => token.Close? && open != [] && token.name != open[|open| - 1]
    case DocumentType => token.DocType?
  }

  lemma {:induction false} ScanFails(s: Bytes, stack: seq<Bytes>) returns (k: nat)
    requires Scan(s, stack).Fail? && |stack| <= MAX_DEPTH
    ensures k <= |s| && Lex(s[k..]).Tok? && Explains(Scan(s, stack).error, Lex(s[k..]).token, OpenNames(s, k, stack))
    decreases |s|
  {
    hide Lex, NameOf;
    var lexed := Lex(s);
    var effect := EffectOf(lexed.token, stack);
    if effect.Reject? {
      k := 0;
      assert s[0..] == s;
    } else {
      k := ScanFails(s[lexed.size..], effect.stack);
      assert s[lexed.size..][k..] == s[lexed.size + k..];
      k := lexed.size + k;
    }
  }

  /** An error of the decoder names the event at fault: a tag that opens a
      sixty-fifth element, a closing tag with nothing open or with another name
      than what is open, or a document type. */
  lemma ErrorsTell(s: Bytes) returns (k: nat)
    requires FirstFrame(s).Fail?
    ensures k <= |s| && Lex(s[k..]).Tok? && Explains(FirstFrame(s).error, Lex(s[k..]).token, OpenNames(s, k, []))
  {
    k := ScanFails(s, []);
  }

  // ----------------------------------------------------------------- draining

  datatype Drained = Drained(frames: seq<Bytes>, rest: Bytes, error: Option<FrameError>)

  /** Draws frames until the buffer yields no more. */
  function Drain(s: Bytes): (d: Drained)
    decreases |s|
  {
    match FirstFrame(s)
    case NeedMore => Drained([], s, None)
    case Fail(e) => Drained([], s, Some(e))
    case Frame(n) =>
      var later := Drain(s[n..]);
      Drained([s[..n]] + later.frames, later.rest, later.error)
  }

  function Concat(pieces: seq<Bytes>): (s: Bytes) {
    if pieces == [] then [] else pieces[0] + Concat(pieces[1..])
  }

  /** Draining loses, adds and reorders no byte. */
  lemma {:induction false} DrainConserves(s: Bytes)
    ensures Concat(Drain(s).frames) + Drain(s).rest == s
    decreases |s|
  {
    hide FirstFrame;
    if FirstFrame(s).Frame? {
      var n := FirstFrame(s).size;
      DrainConserves(s[n..]);
      var later := Drain(s[n..]);
      assert ([s[..n]] + later.frames)[1..] == later.frames;
      assert Concat(Drain(s).frames) == s[..n] + Concat(later.frames);
      assert s == s[..n] + s[n..] == s[..n] + (Concat(later.frames) + later.rest);
    }
  }

  /** Everything drained is a frame on its own, and what is left is not one. */
  predicate Whole(frame: Bytes) {
    frame != [] && FirstFrame(frame) == Frame(|frame|)
  }

  lemma {:induction false} DrainYieldsFrames(s: Bytes)
    ensures forall f | f in Drain(s).frames :: Whole(f)
    ensures Drain(s).error.None? ==> Drain(Drain(s).rest) == Drained([], Drain(s).rest, None)
    decreases |s|
  {
    if FirstFrame(s).Frame? {
      FrameAlone(s);
      DrainYieldsFrames(s[FirstFrame(s).size..]);
    }
  }

  // ------------------------------------------------------- joining text frames

  predicate IsText(frame: Bytes) {
    frame != [] && frame[0] != LT
  }

  /** Joins neighbouring text frames: text is passed on as soon as it is seen,
      so only its cuts depend on how the bytes arrived. */
  function Coalesce(frames: seq<Bytes>): (r: seq<Bytes>) {
    if frames == [] then []
    else
      var later := Coalesce(frames[1..]);
      if IsText(frames[0]) && later != [] && IsText(later[0]) then [frames[0] + later[0]] + later[1..]
      else [frames[0]] + later
  }

  lemma {:induction false} CoalesceRight(a: seq<Bytes>, b: seq<Bytes>)
    ensures Coalesce(a + Coalesce(b)) == Coalesce(a + b)
  {
    if a == [] {
      CoalesceTwice(b);
      assert a + Coalesce(b) == Coalesce(b) && a + b == b;
    } else {
      assert (a + Coalesce(b))[1..] == a[1..] + Coalesce(b);
      assert (a + b)[1..] == a[1..] + b;
      CoalesceRight(a[1..], b);
    }
  }

  lemma {:induction false} CoalesceTwice(b: seq<Bytes>)
    ensures Coalesce(Coalesce(b)) == Coalesce(b)
  {
    if b != [] {
      var later := Coalesce(b[1..]);
      CoalesceTwice(b[1..]);
      if IsText(b[0]) && later != [] && IsText(later[0]) {
        var joined := b[0] + later[0];
        assert Coalesce(b)[1..] == later[1..];
        CoalesceHead(later);
        assert IsText(joined);
      } else {
        assert Coalesce(b)[1..] == later;
      }
    }
  }

  /** In a joined list nothing is left to join after the first frame. */
  lemma CoalesceHead(joined: seq<Bytes>)
    requires joined != [] && Coalesce(joined) == joined
    ensures Coalesce(joined[1..]) == joined[1..]
    ensures IsText(joined[0]) && |joined| > 1 ==> !IsText(joined[1])
  {
    var later := Coalesce(joined[1..]);
    CoalesceShrinks(joined[1..]);
    if IsText(joined[0]) && later != [] && IsText(later[0]) {
    } else {
      assert joined[1..] == ([joined[0]] + later)[1..] == later;
    }
  }

  lemma {:induction false} CoalesceShrinks(b: seq<Bytes>)
    ensures |Coalesce(b)| <= |b|
  {
    if b != [] {
      CoalesceShrinks(b[1..]);
    }
  }

  lemma {:induction false} CoalesceLeft(a: seq<Bytes>, b: seq<Bytes>)
    ensures Coalesce(Coalesce(a) + b) == Coalesce(a + b)
  {
    if a == [] {
      assert Coalesce(a) + b == b && a + b == b;
    } else {
      assert (a + b)[1..] == a[1..] + b;
      CoalesceLeft(a[1..], b);
      var later := Coalesce(a[1..]);
      if IsText(a[0]) && later != [] && IsText(later[0]) {
        var tail := later[1..] + b;
        assert Coalesce(a) + b == [a[0] + later[0]] + tail;
        assert later + b == [later[0]] + tail;
        JoinText(a[0], later[0], tail);
        assert [a[0]] + ([later[0]] + tail) == [a[0]] + (later + b);
        assert ([a[0]] + (later + b))[1..] == later + b;
      } else {
        assert (Coalesce(a) + b)[1..] == later + b;
      }
    }
  }

  lemma JoinText(a: Bytes, b: Bytes, later: seq<Bytes>)
    requires IsText(a) && IsText(b)
    ensures Coalesce([a] + ([b] + later)) == Coalesce([a + b] + later)
  {
    var joined := Coalesce(later);
    assert ([a] + ([b] + later))[1..] == [b] + later && ([b] + later)[1..] == later && ([a + b] + later)[1..] == later;
    if joined != [] && IsText(joined[0]) {
      assert a + (b + joined[0]) == (a + b) + joined[0];
    }
  }

  function NonText(frames: seq<Bytes>): (r: seq<Bytes>) {
    if frames == [] then []
    else if IsText(frames[0]) then NonText(frames[1..])
    else [frames[0]] + NonText(frames[1..])
  }

  lemma {:induction false} CoalesceKeepsStanzas(frames: seq<Bytes>)
    ensures NonText(Coalesce(frames)) == NonText(frames)
  {
    if frames != [] {
      CoalesceKeepsStanzas(frames[1..]);
      var later := Coalesce(frames[1..]);
      if IsText(frames[0]) && later != [] && IsText(later[0]) {
        assert Coalesce(frames)[1..] == later[1..];
        assert NonText(later) == NonText(later[1..]);
      } else {
        assert Coalesce(frames)[1..] == later;
      }
    }
  }

  // ------------------------------------------------------ chunking is invisible

  predicate SameStream(a: Drained, b: Drained) {
    && Coalesce(a.frames) == Coalesce(b.frames)
    && a.error == b.error
    && (a.error.None? ==> a.rest == b.rest)
  }

  /** Draining early and then going on with what is left. */
  function Resume(first: Drained, more: Bytes): (d: Drained) {
    if first.error.Some? then first
    else
      var later := Drain(first.rest + more);
      Drained(first.frames + later.frames, later.rest, later.error)
  }

  lemma {:induction false} DrainEarly(s: Bytes, more: Bytes)
    ensures SameStream(Drain(s + more), Resume(Drain(s), more))
    decreases |s|
  {
    hide FirstFrame, Coalesce;
    match FirstFrame(s)
    case NeedMore =>
      assert [] + Drain(s + more).frames == Drain(s + more).frames;
    case Fail(e) =>
      FirstFrameStable(s, more);
    case Frame(n) =>
      if s[0] == LT || n < |s| {
        FirstFrameStable(s, more);
        assert (s + more)[n..] == s[n..] + more && (s + more)[..n] == s[..n];
        DrainEarly(s[n..], more);
        var first := [s[..n]];
        var whole, parts := Drain(s[n..] + more), Resume(Drain(s[n..]), more);
        CoalesceRight(first, whole.frames);
        CoalesceRight(first, parts.frames);
        assert Drain(s + more).frames == first + whole.frames;
        assert Resume(Drain(s), more).frames == first + parts.frames;
      } else {
        TextFrame(s);
        DrainOpenText(s, more);
      }
  }

  lemma DrainNothing()
    ensures Drain([]) == Drained([], [], None)
  {
  }

  lemma TextFrame(s: Bytes)
    requires s != [] && s[0] != LT
    ensures FirstFrame(s) == Frame(TextEnd(s))
  {
    hide TagEnd, TextEnd, LexBang;
  }

  function After(frame: Bytes, later: Drained): (d: Drained) {
    Drained([frame] + later.frames, later.rest, later.error)
  }

  lemma DrainText(s: Bytes, n: nat)
    requires 0 < n <= |s| && (forall i :: 0 <= i < n ==> s[i] != LT) && (n < |s| ==> s[n] == LT)
    ensures Drain(s) == After(s[..n], Drain(s[n..]))
  {
    hide FirstFrame;
    TextEndOf(s, n);
    TextFrame(s);
  }

  /** Text at the end of the buffer joins the text that follows it. */
  lemma DrainOpenText(s: Bytes, more: Bytes)
    requires s != [] && s[0] != LT && TextEnd(s) == |s|
    ensures SameStream(Drain(s + more), Resume(Drain(s), more))
  {
    hide Drain, TextEnd, Coalesce, FirstFrame;
    var n := TextEnd(more);
    DrainNothing();
    DrainText(s, |s|);
    DrainText(s + more, |s| + n);
    assert s[|s|..] == [] && s[..|s|] == s && [s] + [] == [s] && [] + more == more;
    assert Resume(Drain(s), more) == After(s, Drain(more));
    assert (s + more)[..|s| + n] == s + more[..n] && (s + more)[|s| + n..] == more[n..];
    if n == 0 {
      assert (s + more)[..|s| + n] == s && (s + more)[|s| + n..] == more;
    } else {
      DrainText(more, n);
      var later := Drain(more[n..]).frames;
      JoinText(s, more[..n], later);
    }
  }

  datatype Status = Running | Failed(error: FrameError) | Refused

  datatype Decoded = Decoded(frames: seq<Bytes>, rest: Bytes, status: Status)

  /** The decoder fed piece by piece, drained after each. */
  function Feed(buffer: Bytes, chunks: seq<Bytes>): (d: Decoded)
    decreases |chunks|
  {
    if chunks == [] then Decoded([], buffer, Running)
    else if |buffer| + |chunks[0]| > MAX_FRAME then Decoded([], buffer, Refused)
    else
      var now := Drain(buffer + chunks[0]);
      if now.error.Some? then Decoded(now.frames, now.rest, Failed(now.error.value))
      else
        var later := Feed(now.rest, chunks[1..]);
        Decoded(now.frames + later.frames, later.rest, later.status)
  }

  predicate Agrees(d: Decoded, whole: Drained) {
    && Coalesce(d.frames) == Coalesce(whole.frames)
    && d.status == (if whole.error.Some? then Failed(whole.error.value) else Running)
    && (d.status.Running? ==> d.rest == whole.rest)
  }

  /** Pieces small enough to be accepted decode like the whole stream at once. */
  lemma {:induction false} FeedIsDrain(buffer: Bytes, chunks: seq<Bytes>)
    requires Drain(buffer) == Drained([], buffer, None)
    requires !Feed(buffer, chunks).status.Refused?
    ensures Agrees(Feed(buffer, chunks), Drain(buffer + Concat(chunks)))
    decreases |chunks|
  {
    hide FirstFrame;
    if chunks == [] {
      assert buffer + Concat(chunks) == buffer;
    } else {
      var now := Drain(buffer + chunks[0]);
      var more := Concat(chunks[1..]);
      assert buffer + Concat(chunks) == (buffer + chunks[0]) + more;
      DrainEarly(buffer + chunks[0], more);
      DrainYieldsFrames(buffer + chunks[0]);
      if now.error.None? {
        FeedIsDrain(now.rest, chunks[1..]);
        var later := Feed(now.rest, chunks[1..]);
        CoalesceRight(now.frames, later.frames);
        CoalesceRight(now.frames, Drain(now.rest + more).frames);
      }
    }
  }

  /** How the socket cut the stream up does not matter: the same stanzas come
      out in the same order, text agrees once joined, and the decoder ends in
      the same error or with the same bytes pending. */
  lemma ChunkingDoesNotMatter(one: seq<Bytes>, other: seq<Bytes>)
    requires Concat(one) == Concat(other)
    requires !Feed([], one).status.Refused? && !Feed([], other).status.Refused?
    ensures NonText(Feed([], one).frames) == NonText(Feed([], other).frames)
    ensures Coalesce(Feed([], one).frames) == Coalesce(Feed([], other).frames)
    ensures Feed([], one).status == Feed([], other).status
    ensures Feed([], one).status.Running? ==> Feed([], one).rest == Feed([], other).rest
  {
    FeedIsDrain([], one);
    FeedIsDrain([], other);
    CoalesceKeepsStanzas(Feed([], one).frames);
    CoalesceKeepsStanzas(Feed([], other).frames);
  }
}
