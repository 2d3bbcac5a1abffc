/** The outbound half of one chat connection: frames are forwarded as they
    complete, and the last original presence is replayed when the mode changes.

    The relay waits at every `await`, and a mode change can arrive at any of
    those points. So one state of the machine is one point between two awaits,
    and an event that the point does not wait for leaves it as it is. */
module PresenceRelay {
  import opened Wrappers
  import opened XmlLexer
  import opened PresenceFraming
  import opened XmlTree
  import opened PresenceRewrite

  datatype RelayError = TooLarge | Framing(framing: FrameError) | Rewriting(rewriting: RewriteError) | PartialStanza

  datatype Phase =
    | Waiting
    | Replaying(frame: Bytes, selected: PresenceMode)
    | Draining
    | Forwarding(frame: Bytes, global: bool, selected: PresenceMode)
    | Closed
    | Broken(error: RelayError)

  /** One completed write: the frame it stands for and the bytes sent. */
  datatype Write =
    | Forwarded(frame: Bytes, global: bool, selected: PresenceMode, bytes: Bytes)
    | Replayed(frame: Bytes, selected: PresenceMode, bytes: Bytes)

  /** `unseen` is the watch channel's flag: a mode was set that the relay has
      not marked as seen. Reading the mode does not clear it. */
  datatype State = State(
    phase: Phase,
    buffer: Bytes,
    original: Option<Bytes>,
    mode: PresenceMode,
    unseen: bool,
    applied: Option<PresenceMode>,
    wire: seq<Write>)

  datatype Event =
    | SetMode(mode: PresenceMode)
    | NoticeChange
    | Read(bytes: Bytes)
    | Proceed
    | EndOfStream

  function Start(mode: PresenceMode): (s: State) {
    State(Waiting, [], None, mode, false, None, [])
  }

  function TakeFrame(s: State): (r: State) {
    match FirstFrame(s.buffer)
    case NeedMore => s.(phase := Waiting)
    case Fail(e) => s.(phase := Broken(Framing(e)))
    case Frame(n) =>
      var frame, rest := s.buffer[..n], s.buffer[n..];
      match GlobalPresence(frame)
      case Err(e) => s.(buffer := rest, phase := Broken(Rewriting(e)))
      case Ok(global) => s.(buffer := rest, phase := Forwarding(frame, global, s.mode))
  }

  function Forward(s: State): (r: State)
    requires s.phase.Forwarding?
  {
    var Forwarding(frame, global, selected) := s.phase;
    match if global then Rewrite(frame, selected) else Ok(frame)
    case Err(e) => s.(phase := Broken(Rewriting(e)))
    case Ok(bytes) =>
      var sent := s.(phase := Draining, wire := s.wire + [Forwarded(frame, global, selected, bytes)]);
      if global then sent.(original := Some(frame), applied := Some(selected)) else sent
  }

  function Replay(s: State): (r: State)
    requires s.phase.Replaying?
  {
    var Replaying(frame, selected) := s.phase;
    match Rewrite(frame, selected)
    case Err(e) => s.(phase := Broken(Rewriting(e)))
    case Ok(bytes) =>
      s.(phase := Waiting, applied := Some(selected), wire := s.wire + [Replayed(frame, selected, bytes)])
  }

  function Next(s: State, event: Event): (r: State) {
    match event
    case SetMode(mode) => s.(mode := mode, unseen := true)
    case NoticeChange =>
      if !s.phase.Waiting? || !s.unseen then s
      else s.(unseen := false, phase := if s.original.Some? then Replaying(s.original.value, s.mode) else Waiting)
    case Read(bytes) =>
      if !s.phase.Waiting? || bytes == [] then s
      else if |s.buffer| + |bytes| > MAX_FRAME then s.(phase := Broken(TooLarge))
      else s.(buffer := s.buffer + bytes, phase := Draining)
    case Proceed =>
      (match s.phase
       case Draining => TakeFrame(s)
       case Forwarding(_, _, _) => Forward(s)
       case Replaying(_, _) => Replay(s)
       case _ => s)
    case EndOfStream =>
      if !s.phase.Waiting? then s
      else s.(phase := if s.buffer == [] then Closed else Broken(PartialStanza))
  }

  /** A whole run, one event after the other. */
  function Run(s: State, events: seq<Event>): (r: State)
    decreases |events|
  {
    if events == [] then s
    else Next(Run(s, events[..|events| - 1]), events[|events| - 1])
  }

  // -------------------------------------------------------------- the program

  class Relay {
    const decoder: Frames
    var phase: Phase
    var original: Option<Bytes>
    var mode: PresenceMode
    var unseen: bool
    var applied: Option<PresenceMode>
    var wire: seq<Write>

    predicate Valid()
      reads this, decoder
    {
      decoder.Valid()
    }

    function Now(): (s: State)
      reads this, decoder
    {
      State(phase, decoder.buffer, original, mode, unseen, applied, wire)
    }

    constructor (initial: PresenceMode)
      ensures Valid() && fresh(decoder)
      ensures Now() == Start(initial)
    {
      decoder := new Frames();
      phase, original, mode, unseen, applied, wire := Waiting, None, initial, false, None, [];
    }

    method ChangeMode(selected: PresenceMode)
      requires Valid()
      modifies this
      ensures Valid() && Now() == Next(old(Now()), SetMode(selected))
    {
      mode, unseen := selected, true;
    }

    method Notice()
      requires Valid()
      modifies this
      ensures Valid() && Now() == Next(old(Now()), NoticeChange)
    {
      if phase.Waiting? && unseen {
        unseen := false;
        if original.Some? {
          phase := Replaying(original.value, mode);
        }
      }
    }

    method Receive(bytes: Bytes)
      requires Valid()
      modifies this, decoder
      ensures Valid() && Now() == Next(old(Now()), Read(bytes))
    {
      if phase.Waiting? && bytes != [] {
        var accepted := decoder.Push(bytes);
        phase := if accepted then Draining else Broken(TooLarge);
      }
    }

    method Continue()
      requires Valid()
      modifies this, decoder
      ensures Valid() && Now() == Next(old(Now()), Proceed)
    {
      match phase {
        case Draining => DrawFrame();
        case Forwarding(frame, global, selected) => SendForward(frame, global, selected);
        case Replaying(frame, selected) => SendReplay(frame, selected);
        case _ =>
      }
    }

    method DrawFrame()
      requires Valid()
      modifies this, decoder
      ensures Valid() && Now() == TakeFrame(old(Now()))
    {
      hide FirstFrame, GlobalPresence;
      var drawn := decoder.Next();
      match drawn {
        case Err(e) => phase := Broken(Framing(e));
        case Ok(None) => phase := Waiting;
        case Ok(Some(frame)) =>
          var global := InspectPresence(frame);
          phase := if global.Ok? then Forwarding(frame, global.value, mode) else Broken(Rewriting(global.error));
      }
    }

    method SendForward(frame: Bytes, global: bool, selected: PresenceMode)
      requires Valid() && phase == Forwarding(frame, global, selected)
      modifies this
      ensures Valid() && Now() == Forward(old(Now()))
    {
      var forwarded: Result<Bytes, RewriteError> := Ok(frame);
      if global {
        forwarded := RewriteFrame(frame, selected);
      }
      if forwarded.Err? {
        phase := Broken(Rewriting(forwarded.error));
        return;
      }
      wire := wire + [Forwarded(frame, global, selected, forwarded.value)];
      phase := Draining;
      if global {
        original, applied := Some(frame), Some(selected);
      }
    }

    method SendReplay(frame: Bytes, selected: PresenceMode)
      requires Valid() && phase == Replaying(frame, selected)
      modifies this
      ensures Valid() && Now() == Replay(old(Now()))
    {
      var rewritten := RewriteFrame(frame, selected);
      if rewritten.Err? {
        phase := Broken(Rewriting(rewritten.error));
        return;
      }
      wire := wire + [Replayed(frame, selected, rewritten.value)];
      phase, applied := Waiting, Some(selected);
    }

    method Close()
      requires Valid()
      modifies this
      ensures Valid() && Now() == Next(old(Now()), EndOfStream)
    {
      if phase.Waiting? {
        var pending := decoder.Pending();
        phase := if pending then Broken(PartialStanza) else Closed;
      }
    }

    /** The select loop over a whole connection. */
    method Serve(events: seq<Event>)
      requires Valid()
      modifies this, decoder
      ensures Valid() && Now() == Run(old(Now()), events)
    {
      hide Next;
      assert events[..0] == [];
      for i := 0 to |events|
        invariant Valid() && Now() == Run(old(Now()), events[..i])
      {
        assert events[..i + 1][..i] == events[..i];
        match events[i] {
          case SetMode(selected) => ChangeMode(selected);
          case NoticeChange => Notice();
          case Read(bytes) => Receive(bytes);
          case Proceed => Continue();
          case EndOfStream => Close();
        }
      }
      assert events[..|events|] == events;
    }
  }

  // -------------------------------------------------- what holds in every state

  /** A forwarded frame is unchanged unless it is a global presence; then, and
      in a replay, it is rewritten under the mode selected for it. */
  predicate Faithful(w: Write) {
    && Whole(w.frame)
    && match w
       case Forwarded(frame, global, selected, bytes) =>
         && GlobalPresence(frame) == Ok(global)
         && (if global then Rewrite(frame, selected) == Ok(bytes) else bytes == frame)
       case Replayed(frame, selected, bytes) =>
         && GlobalPresence(frame) == Ok(true)
         && Rewrite(frame, selected) == Ok(bytes)
  }

  predicate IsPresence(w: Write) {
    w.Replayed? || w.global
  }

  /** The last presence the other end has seen. */
  function LastPresence(wire: seq<Write>): (r: Option<Write>) {
    if wire == [] then None
    else if IsPresence(wire[|wire| - 1]) then Some(wire[|wire| - 1])
    else LastPresence(wire[..|wire| - 1])
  }

  /** The other end has been shown the last original under the current mode. */
  predicate Settled(s: State) {
    s.original.Some? ==>
      && LastPresence(s.wire).Some?
      && LastPresence(s.wire).value.frame == s.original.value
      && LastPresence(s.wire).value.selected == s.mode
      && s.applied == Some(s.mode)
  }

  predicate Consistent(s: State) {
    && (forall w | w in s.wire :: Faithful(w))
    && (s.original.Some? ==> Whole(s.original.value) && GlobalPresence(s.original.value) == Ok(true))
    && match s.phase
       case Replaying(frame, selected) => s.original == Some(frame) && (s.unseen || selected == s.mode)
       case Forwarding(frame, global, selected) =>
         && Whole(frame) && GlobalPresence(frame) == Ok(global)
         && (s.unseen || selected == s.mode)
         && (s.unseen || Settled(s))
       case Broken(_) => true
       case _ => s.unseen || Settled(s)
  }

  lemma LastPresenceAppend(wire: seq<Write>, w: Write)
    ensures LastPresence(wire + [w]) == if IsPresence(w) then Some(w) else LastPresence(wire)
  {
    assert (wire + [w])[..|wire|] == wire;
  }

  lemma ConsistentNext(s: State, event: Event)
    requires Consistent(s)
    ensures Consistent(Next(s, event))
  {
    hide GlobalPresence, Rewrite, FirstFrame, LastPresence, Whole;
    if event.Proceed? {
      match s.phase
      case Draining =>
        if FirstFrame(s.buffer).Frame? {
          FirstFrameIsWhole(s.buffer);
        }
      case Forwarding(frame, global, selected) =>
        var sent := Forward(s);
        if sent.phase.Draining? {
          LastPresenceAppend(s.wire, sent.wire[|s.wire|]);
        }
      case Replaying(frame, selected) =>
        var sent := Replay(s);
        if sent.phase.Waiting? {
          LastPresenceAppend(s.wire, sent.wire[|s.wire|]);
        }
      case _ =>
    }
  }

  lemma FirstFrameIsWhole(s: Bytes)
    requires FirstFrame(s).Frame?
    ensures Whole(s[..FirstFrame(s).size])
  {
    hide FirstFrame;
    FrameAlone(s);
  }

  lemma {:induction false} AlwaysConsistent(mode: PresenceMode, events: seq<Event>)
    ensures Consistent(Run(Start(mode), events))
    decreases |events|
  {
    hide Next, Faithful;
    if events != [] {
      AlwaysConsistent(mode, events[..|events| - 1]);
      ConsistentNext(Run(Start(mode), events[..|events| - 1]), events[|events| - 1]);
    }
  }

  /** Whenever the relay waits with no mode change unseen and a global presence
      read, the last presence on the wire is that presence under the current
      mode, and the mode is reported as applied. Online restores its bytes. */
  lemma SettlesOnTheMode(mode: PresenceMode, events: seq<Event>)
    requires var s := Run(Start(mode), events); s.phase.Waiting? && !s.unseen && s.original.Some?
    ensures var s := Run(Start(mode), events);
            && LastPresence(s.wire).Some?
            && Rewrite(s.original.value, s.mode) == Ok(LastPresence(s.wire).value.bytes)
            && s.applied == Some(s.mode)
            && (s.mode.Online? ==> LastPresence(s.wire).value.bytes == s.original.value)
  {
    hide Next, Run;
    AlwaysConsistent(mode, events);
    LastPresenceIsWritten(Run(Start(mode), events).wire);
  }

  lemma {:induction false} LastPresenceIsWritten(wire: seq<Write>)
    ensures LastPresence(wire).Some? ==> LastPresence(wire).value in wire && IsPresence(LastPresence(wire).value)
  {
    if wire != [] && !IsPresence(wire[|wire| - 1]) {
      LastPresenceIsWritten(wire[..|wire| - 1]);
    }
  }

  // ---------------------------------------------------------- what is forwarded

  /** The wire without the replays. */
  function Forwards(wire: seq<Write>): (r: seq<Write>) {
    if wire == [] then []
    else if wire[|wire| - 1].Replayed? then Forwards(wire[..|wire| - 1])
    else Forwards(wire[..|wire| - 1]) + [wire[|wire| - 1]]
  }

  function FramesOf(wire: seq<Write>): (r: seq<Bytes>)
    ensures |r| == |wire|
  {
    seq(|wire|, i requires 0 <= i < |wire| => wire[i].frame)
  }

  function BytesOf(wire: seq<Write>): (r: seq<Bytes>)
    ensures |r| == |wire|
  {
    seq(|wire|, i requires 0 <= i < |wire| => wire[i].bytes)
  }

  /** The bytes the relay took from the socket during a run. */
  function Received(s: State, events: seq<Event>): (r: Bytes)
    decreases |events|
  {
    if events == [] then []
    else
      var past := events[..|events| - 1];
      var before, event := Run(s, past), events[|events| - 1];
      var taken := event.Read? && before.phase.Waiting? && |before.buffer| + |event.bytes| <= MAX_FRAME;
      Received(s, past) + if taken then event.bytes else []
  }

  function InFlight(s: State): (r: Bytes) {
    if s.phase.Forwarding? then s.phase.frame else []
  }

  lemma {:induction false} ConcatAppend(pieces: seq<Bytes>, piece: Bytes)
    ensures Concat(pieces + [piece]) == Concat(pieces) + piece
  {
    if pieces == [] {
      assert pieces + [piece] == [piece] && [piece][1..] == [];
      assert piece + [] == piece && [] + piece == piece;
    } else {
      assert (pieces + [piece])[1..] == pieces[1..] + [piece];
      ConcatAppend(pieces[1..], piece);
      assert pieces[0] + (Concat(pieces[1..]) + piece) == (pieces[0] + Concat(pieces[1..])) + piece;
    }
  }

  lemma ForwardsAppend(wire: seq<Write>, w: Write)
    ensures Forwards(wire + [w]) == if w.Replayed? then Forwards(wire) else Forwards(wire) + [w]
    ensures w.Forwarded? ==> FramesOf(Forwards(wire + [w])) == FramesOf(Forwards(wire)) + [w.frame]
  {
    assert (wire + [w])[..|wire|] == wire;
  }

  /** The bytes that are out or still held. */
  function Account(s: State): (r: Bytes) {
    Concat(FramesOf(Forwards(s.wire))) + (InFlight(s) + s.buffer)
  }

  predicate Sane(s: State) {
    !s.phase.Broken?
  }

  lemma AccountForward(s: State)
    requires s.phase.Forwarding? && Sane(Forward(s))
    ensures Account(Forward(s)) == Account(s)
  {
    hide GlobalPresence, Rewrite, FirstFrame, Forwards, Concat;
    var sent, frame := FramesOf(Forwards(s.wire)), s.phase.frame;
    ForwardsAppend(s.wire, Forward(s).wire[|s.wire|]);
    ConcatAppend(sent, frame);
    assert (Concat(sent) + frame) + ([] + s.buffer) == Concat(sent) + (frame + s.buffer);
  }

  lemma AccountReplay(s: State)
    requires s.phase.Replaying? && Sane(Replay(s))
    ensures Account(Replay(s)) == Account(s)
  {
    hide Rewrite, Forwards, Concat;
    ForwardsAppend(s.wire, Replay(s).wire[|s.wire|]);
  }

  lemma AccountTakeFrame(s: State)
    requires s.phase.Draining? && Sane(TakeFrame(s))
    ensures Account(TakeFrame(s)) == Account(s)
  {
    hide GlobalPresence, FirstFrame, Forwards, Concat;
    if FirstFrame(s.buffer).Frame? {
      var n := FirstFrame(s.buffer).size;
      assert s.buffer[..n] + s.buffer[n..] == [] + s.buffer;
    }
  }

  lemma AccountNext(s: State, event: Event)
    requires Sane(Next(s, event))
    ensures Sane(s)
    ensures Account(Next(s, event)) ==
            Account(s) + if event.Read? && s.phase.Waiting? && |s.buffer| + |event.bytes| <= MAX_FRAME then event.bytes else []
  {
    hide TakeFrame, Forward, Replay, Forwards, Concat, FramesOf;
    assert Account(s) + [] == Account(s);
    if event.Proceed? {
      match s.phase
      case Draining => AccountTakeFrame(s);
      case Forwarding(_, _, _) => AccountForward(s);
      case Replaying(_, _) => AccountReplay(s);
      case _ =>
    } else if event.Read? && s.phase.Waiting? && event.bytes != [] {
      var sent := Concat(FramesOf(Forwards(s.wire)));
      assert sent + ([] + (s.buffer + event.bytes)) == (sent + ([] + s.buffer)) + event.bytes;
    }
  }

  /** The relay loses, repeats and reorders no byte: what it forwarded, the
      frame on its way and the buffer are together what it took in. */
  lemma {:induction false} ForwardsConserve(mode: PresenceMode, events: seq<Event>)
    requires Sane(Run(Start(mode), events))
    ensures Account(Run(Start(mode), events)) == Received(Start(mode), events)
    decreases |events|
  {
    hide Next;
    if events == [] {
      assert Forwards([]) == [];
    } else {
      var past := events[..|events| - 1];
      AccountNext(Run(Start(mode), past), events[|events| - 1]);
      ForwardsConserve(mode, past);
    }
  }

  /** Where in the run the `k`-th forwarded frame was drawn, and with which
      mode. */
  predicate DrawnAt(s: State, w: Write, k: nat) {
    && s.phase.Draining? && |Forwards(s.wire)| == k
    && FirstFrame(s.buffer).Frame? && s.buffer[..FirstFrame(s.buffer).size] == w.frame
    && s.mode == w.selected
  }

  /** The frame being forwarded counts as the next one. */
  function Begun(s: State): (r: seq<Write>) {
    Forwards(s.wire) + if s.phase.Forwarding? then [Forwarded(s.phase.frame, s.phase.global, s.phase.selected, [])] else []
  }

  lemma BegunNext(s: State, event: Event, k: nat)
    requires k < |Begun(Next(s, event))|
    ensures || DrawnAt(s, Begun(Next(s, event))[k], k)
            || (k < |Begun(s)| && Begun(s)[k].frame == Begun(Next(s, event))[k].frame
                && Begun(s)[k].selected == Begun(Next(s, event))[k].selected)
  {
    hide GlobalPresence, Rewrite, FirstFrame, Forwards;
    var t := Next(s, event);
    if event.Proceed? && (s.phase.Forwarding? || s.phase.Replaying?) && |t.wire| > |s.wire| {
      ForwardsAppend(s.wire, t.wire[|s.wire|]);
    }
  }

  lemma {:induction false} BegunUnderTheModeThen(mode: PresenceMode, events: seq<Event>, k: nat)
    requires k < |Begun(Run(Start(mode), events))|
    ensures exists i :: 0 <= i <= |events| && DrawnAt(Run(Start(mode), events[..i]), Begun(Run(Start(mode), events))[k], k)
    decreases |events|
  {
    hide Next, DrawnAt;
    if events != [] {
      var n := |events| - 1;
      var past := events[..n];
      BegunNext(Run(Start(mode), past), events[n], k);
      if !DrawnAt(Run(Start(mode), past), Begun(Run(Start(mode), events))[k], k) {
        BegunUnderTheModeThen(mode, past, k);
        var i :| 0 <= i <= n && DrawnAt(Run(Start(mode), past[..i]), Begun(Run(Start(mode), past))[k], k);
        assert past[..i] == events[..i];
        SameDraw(Run(Start(mode), past[..i]), Begun(Run(Start(mode), past))[k], Begun(Run(Start(mode), events))[k], k);
      }
    }
  }

  lemma SameDraw(s: State, w: Write, v: Write, k: nat)
    requires DrawnAt(s, w, k) && w.frame == v.frame && w.selected == v.selected
    ensures DrawnAt(s, v, k)
  {
  }

  /** The relay is a per-frame map once its replays are deleted: the `k`-th
      frame forwarded is the `k`-th the decoder gave, sent as it was or, for a
      global presence, rewritten under the mode read at that moment. */
  lemma ForwardsArePerFrame(mode: PresenceMode, events: seq<Event>, k: nat)
    requires k < |Forwards(Run(Start(mode), events).wire)|
    ensures var w := Forwards(Run(Start(mode), events).wire)[k];
            && w.Forwarded?
            && GlobalPresence(w.frame) == Ok(w.global)
            && (if w.global then Rewrite(w.frame, w.selected) == Ok(w.bytes) else w.bytes == w.frame)
            && exists i :: 0 <= i <= |events| && DrawnAt(Run(Start(mode), events[..i]), w, k)
  {
    hide Next, DrawnAt;
    var s := Run(Start(mode), events);
    AlwaysConsistent(mode, events);
    ForwardsAreWritten(s.wire);
    assert Begun(s)[k] == Forwards(s.wire)[k];
    BegunUnderTheModeThen(mode, events, k);
  }

  lemma {:induction false} ForwardsAreWritten(wire: seq<Write>)
    ensures forall w | w in Forwards(wire) :: w in wire && w.Forwarded?
  {
    if wire != [] {
      ForwardsAreWritten(wire[..|wire| - 1]);
    }
  }

  // ------------------------------------------------------------- the whole wire

  lemma FaithfulIsWhole(w: Write)
    ensures Faithful(w) ==> Whole(w.bytes)
  {
    hide GlobalPresence, Whole;
    if Faithful(w) && IsPresence(w) && w.selected.Offline? {
      RewrittenPresence(w.frame, ParseElement(w.frame).value);
    }
  }

  /** Whole frames, one after the other, are framed as they were. */
  lemma {:induction false} DrainWholeFrames(frames: seq<Bytes>, rest: Bytes)
    requires (forall f | f in frames :: Whole(f)) && FirstFrame(rest) == NeedMore
    ensures SameStream(Drain(Concat(frames) + rest), Drained(frames, rest, None))
    decreases |frames|
  {
    hide FirstFrame, Coalesce;
    if frames == [] {
      assert Concat(frames) + rest == rest;
    } else {
      var f, more := frames[0], Concat(frames[1..]) + rest;
      assert Concat(frames) + rest == f + more;
      DrainWhole(f);
      DrainEarly(f, more);
      assert [] + more == more;
      DrainWholeFrames(frames[1..], rest);
      CoalesceRight([f], Drain(more).frames);
      CoalesceRight([f], frames[1..]);
      assert [f] + frames[1..] == frames;
    }
  }

  lemma DrainWhole(f: Bytes)
    requires Whole(f)
    ensures Drain(f) == Drained([f], [], None)
  {
    hide FirstFrame;
    assert f[..|f|] == f && f[|f|..] == [];
    DrainNothing();
  }

  /** Replays fall between frames only: whoever frames the relay's output finds
      exactly its writes, with neighbouring text joined, and nothing pending. */
  lemma OutputReframes(mode: PresenceMode, events: seq<Event>)
    ensures var wire := Run(Start(mode), events).wire;
            SameStream(Drain(Concat(BytesOf(wire))), Drained(BytesOf(wire), [], None))
  {
    hide Next, Faithful, Run, FirstFrame;
    AlwaysConsistent(mode, events);
    var wire := Run(Start(mode), events).wire;
    forall f | f in BytesOf(wire)
      ensures Whole(f)
    {
      var i :| 0 <= i < |wire| && BytesOf(wire)[i] == f;
      FaithfulIsWhole(wire[i]);
    }
    NothingToFrame();
    DrainWholeFrames(BytesOf(wire), []);
    assert Concat(BytesOf(wire)) + [] == Concat(BytesOf(wire));
  }

  lemma NothingToFrame()
    ensures FirstFrame([]) == NeedMore
  {
  }

  /** Once the relay waits, it has forwarded the frames of everything it took
      in, however the socket delivered it. */
  lemma ForwardsTheStream(mode: PresenceMode, events: seq<Event>)
    requires Run(Start(mode), events).phase.Waiting?
    ensures var s := Run(Start(mode), events);
            SameStream(Drain(Received(Start(mode), events)), Drained(FramesOf(Forwards(s.wire)), s.buffer, None))
  {
    hide Next, Faithful, FirstFrame, Forwards, Received;
    var s := Run(Start(mode), events);
    AlwaysConsistent(mode, events);
    ForwardsConserve(mode, events);
    ForwardsAreWritten(s.wire);
    forall f | f in FramesOf(Forwards(s.wire))
      ensures Whole(f)
    {
      var i :| 0 <= i < |Forwards(s.wire)| && FramesOf(Forwards(s.wire))[i] == f;
      FaithfulFrame(Forwards(s.wire)[i]);
    }
    WaitsWithoutFrame(mode, events);
    DrainWholeFrames(FramesOf(Forwards(s.wire)), s.buffer);
    assert [] + s.buffer == s.buffer;
  }

  lemma FaithfulFrame(w: Write)
    ensures Faithful(w) ==> Whole(w.frame)
  {
  }

  /** Outside draining, no complete frame is left in the buffer. */
  predicate Drawn(s: State) {
    s.phase.Waiting? || s.phase.Replaying? ==> FirstFrame(s.buffer) == NeedMore
  }

  lemma {:induction false} WaitsWithoutFrame(mode: PresenceMode, events: seq<Event>)
    ensures Drawn(Run(Start(mode), events))
    decreases |events|
  {
    hide FirstFrame, GlobalPresence, Rewrite;
    if events == [] {
      NothingToFrame();
    } else {
      WaitsWithoutFrame(mode, events[..|events| - 1]);
    }
  }

  // ------------------------------------------------------------ coming to rest

  function Proceeds(n: nat): (events: seq<Event>) {
    seq(n, _ => Proceed)
  }

  lemma {:induction false} RunFirst(s: State, e: Event, events: seq<Event>)
    ensures Run(s, [e] + events) == Run(Next(s, e), events)
    decreases |events|
  {
    hide Next;
    if events == [] {
      assert [e] + events == [e] && [e][..0] == [];
    } else {
      assert ([e] + events)[..|events|] == [e] + events[..|events| - 1];
      RunFirst(s, e, events[..|events| - 1]);
    }
  }

  lemma ProceedFirst(s: State, n: nat)
    ensures Run(s, Proceeds(n + 1)) == Run(Next(s, Proceed), Proceeds(n))
  {
    hide Next, Run;
    assert Proceeds(n + 1) == [Proceed] + Proceeds(n);
    RunFirst(s, Proceed, Proceeds(n));
  }

  /** What is written of these frames under one mode, and the error at the first
      that cannot be inspected or rewritten. */
  datatype Delivery = Delivery(writes: seq<Write>, error: Option<RewriteError>)

  function Delivered(frames: seq<Bytes>, mode: PresenceMode): (d: Delivery) {
    if frames == [] then Delivery([], None)
    else
      var bytes := Rewrite(frames[0], mode);
      if GlobalPresence(frames[0]).Err? then Delivery([], Some(GlobalPresence(frames[0]).error))
      else if GlobalPresence(frames[0]).value && bytes.Err? then Delivery([], Some(bytes.error))
      else
        var global := GlobalPresence(frames[0]).value;
        var later := Delivered(frames[1..], mode);
        Delivery([Forwarded(frames[0], global, mode, if global then bytes.value else frames[0])] + later.writes, later.error)
  }

  /** The last global presence among the writes, or what was there before. */
  function Remembered(writes: seq<Write>, before: Option<Bytes>): (r: Option<Bytes>) {
    if writes == [] then before
    else if writes[0].Forwarded? && writes[0].global then Remembered(writes[1..], Some(writes[0].frame))
    else Remembered(writes[1..], before)
  }

  /** How draining ends: everything that can be delivered is written, in order and
      under the mode of now; the last global presence is remembered. Then the
      relay waits with what is no frame yet, or is broken for the reason there
      is. */
  predicate Rests(s: State, r: State) {
    RestsWith(s, r, Drain(s.buffer), Delivered(Drain(s.buffer).frames, s.mode))
  }

  predicate RestsWith(s: State, r: State, drained: Drained, delivery: Delivery) {
    && r.wire == s.wire + delivery.writes && r.mode == s.mode && r.unseen == s.unseen
    && r.original == Remembered(delivery.writes, s.original)
    && r.applied == (if AnyGlobal(delivery.writes) then Some(s.mode) else s.applied)
    && match delivery.error
       case Some(e) => r.phase == Broken(Rewriting(e))
       case None =>
         r.buffer == drained.rest && r.phase == if drained.error.Some? then Broken(Framing(drained.error.value)) else Waiting
  }

  lemma DeliveredFirst(frame: Bytes, later: seq<Bytes>, mode: PresenceMode)
    requires GlobalPresence(frame).Ok? && (GlobalPresence(frame).value ==> Rewrite(frame, mode).Ok?)
    ensures var global := GlobalPresence(frame).value;
            var first := Forwarded(frame, global, mode, if global then Rewrite(frame, mode).value else frame);
            Delivered([frame] + later, mode) == Delivery([first] + Delivered(later, mode).writes, Delivered(later, mode).error)
  {
    hide GlobalPresence, Rewrite;
    assert ([frame] + later)[1..] == later;
  }

  /** One frame taken and sent. */
  lemma SentIs(s: State, sent: State)
    requires s.phase.Draining? && FirstFrame(s.buffer).Frame?
    requires TakeFrame(s).phase.Forwarding? && sent == Forward(TakeFrame(s)) && sent.phase.Draining?
    ensures var n := FirstFrame(s.buffer).size;
            var frame := s.buffer[..n];
            && GlobalPresence(frame).Ok? && (GlobalPresence(frame).value ==> Rewrite(frame, s.mode).Ok?)
            && var global := GlobalPresence(frame).value;
               && sent.buffer == s.buffer[n..] && sent.mode == s.mode && sent.unseen == s.unseen
               && sent.wire == s.wire + [Forwarded(frame, global, s.mode, if global then Rewrite(frame, s.mode).value else frame)]
               && sent.original == (if global then Some(frame) else s.original)
               && sent.applied == (if global then Some(s.mode) else s.applied)
  {
    hide FirstFrame, GlobalPresence, Rewrite;
  }

  predicate AnyGlobal(writes: seq<Write>) {
    exists w | w in writes :: w.Forwarded? && w.global
  }

  lemma AnyGlobalFirst(w: Write, writes: seq<Write>)
    ensures AnyGlobal([w] + writes) <==> (w.Forwarded? && w.global) || AnyGlobal(writes)
  {
    assert forall v :: v in [w] + writes <==> v == w || v in writes;
  }

  lemma RestsWithFirst(s: State, sent: State, r: State, d: Drained, v: Delivery, frames: seq<Bytes>, first: Write)
    requires RestsWith(sent, r, d, v) && first.Forwarded? && first.selected == s.mode
    requires sent.mode == s.mode && sent.unseen == s.unseen && sent.wire == s.wire + [first]
    requires sent.original == if first.global then Some(first.frame) else s.original
    requires sent.applied == if first.global then Some(s.mode) else s.applied
    ensures RestsWith(s, r, Drained(frames, d.rest, d.error), Delivery([first] + v.writes, v.error))
  {
    AnyGlobalFirst(first, v.writes);
    hide AnyGlobal;
    assert ([first] + v.writes)[1..] == v.writes;
    assert (s.wire + [first]) + v.writes == s.wire + ([first] + v.writes);
  }

  lemma RestsAfter(s: State, sent: State, r: State)
    requires s.phase.Draining? && FirstFrame(s.buffer).Frame?
    requires TakeFrame(s).phase.Forwarding? && sent == Forward(TakeFrame(s)) && sent.phase.Draining? && Rests(sent, r)
    ensures Rests(s, r)
  {
    hide FirstFrame, GlobalPresence, Rewrite, RestsWith;
    SentIs(s, sent);
    hide TakeFrame, Forward;
    var frame, later := s.buffer[..FirstFrame(s.buffer).size], Drain(sent.buffer);
    DeliveredFirst(frame, later.frames, s.mode);
    assert Drain(s.buffer) == Drained([frame] + later.frames, later.rest, later.error);
    hide Delivered, Drain;
    RestsWithFirst(s, sent, r, later, Delivered(later.frames, s.mode), [frame] + later.frames, sent.wire[|s.wire|]);
  }

  /** Left to itself after reading, the relay always comes to rest, having
      delivered what it could. */
  lemma {:induction false} DrainsToRest(s: State) returns (n: nat)
    requires s.phase.Draining?
    ensures Rests(s, Run(s, Proceeds(n)))
    decreases |s.buffer|
  {
    hide FirstFrame, GlobalPresence, Rewrite;
    var taken := TakeFrame(s);
    assert Run(s, Proceeds(0)) == s && Run(taken, Proceeds(0)) == taken;
    assert Next(s, Proceed) == taken;
    ProceedFirst(s, 0);
    if !taken.phase.Forwarding? {
      n := 1;
      assert s.wire + [] == s.wire;
    } else {
      var sent := Forward(taken);
      assert Next(taken, Proceed) == sent;
      if sent.phase.Draining? {
        n := DrainsToRest(sent);
        RestsAfter(s, sent, Run(sent, Proceeds(n)));
        ProceedFirst(taken, n);
        ProceedFirst(s, n + 1);
        n := n + 2;
      } else {
        assert Run(sent, Proceeds(0)) == sent;
        ProceedFirst(taken, 0);
        ProceedFirst(s, 1);
        n := 2;
        assert s.wire + [] == s.wire;
      }
    }
  }

  /** Whatever is read while the relay waits is delivered, unless it outgrows the
      buffer, which ends the connection. */
  lemma ReadIsDelivered(s: State, bytes: Bytes) returns (n: nat)
    requires s.phase.Waiting? && bytes != []
    ensures if |s.buffer| + |bytes| <= MAX_FRAME
            then Rests(s.(buffer := s.buffer + bytes, phase := Draining), Run(s, [Read(bytes)] + Proceeds(n)))
            else Run(s, [Read(bytes)]) == s.(phase := Broken(TooLarge))
  {
    hide Rests;
    n := 0;
    if |s.buffer| + |bytes| <= MAX_FRAME {
      n := DrainsToRest(Next(s, Read(bytes)));
      RunFirst(s, Read(bytes), Proceeds(n));
    } else {
      assert [Read(bytes)][..0] == [];
    }
  }

  /** A mode change the relay sees while it waits is answered: the remembered
      presence goes out again under the mode of now, and the relay waits again. */
  lemma ChangeIsAnswered(s: State)
    requires s.phase.Waiting? && s.unseen && Consistent(s)
    ensures var r := Run(s, [NoticeChange, Proceed]);
            && !r.unseen && r.mode == s.mode && r.buffer == s.buffer && r.original == s.original
            && match s.original
               case None => r == s.(unseen := false)
               case Some(frame) =>
                 match Rewrite(frame, s.mode)
                 case Ok(bytes) =>
                   && r.phase.Waiting? && r.applied == Some(s.mode)
                   && r.wire == s.wire + [Replayed(frame, s.mode, bytes)]
                 case Err(e) => r.phase == Broken(Rewriting(e)) && r.wire == s.wire
  {
    hide Rewrite, GlobalPresence, FirstFrame;
    assert [NoticeChange, Proceed][..1] == [NoticeChange] && [NoticeChange][..0] == [];
    assert Run(s, []) == s;
  }

  /** The relay remembers the last global presence it forwarded. */
  function LastForwarded(wire: seq<Write>): (r: Option<Bytes>) {
    if wire == [] then None
    else if wire[|wire| - 1].Forwarded? && wire[|wire| - 1].global then Some(wire[|wire| - 1].frame)
    else LastForwarded(wire[..|wire| - 1])
  }

  lemma {:induction false} OriginalIsRemembered(mode: PresenceMode, events: seq<Event>)
    ensures Run(Start(mode), events).original == LastForwarded(Run(Start(mode), events).wire)
    decreases |events|
  {
    hide FirstFrame, GlobalPresence, Rewrite;
    if events != [] {
      OriginalIsRemembered(mode, events[..|events| - 1]);
      var s, r := Run(Start(mode), events[..|events| - 1]), Run(Start(mode), events);
      if |r.wire| > |s.wire| {
        assert r.wire[..|r.wire| - 1] == s.wire;
      }
    }
  }

  /** The mode set last, or the one at the start. */
  function LastChosen(mode: PresenceMode, events: seq<Event>): (r: PresenceMode) {
    if events == [] then mode
    else if events[|events| - 1].SetMode? then events[|events| - 1].mode
    else LastChosen(mode, events[..|events| - 1])
  }

  lemma {:induction false} ModeIsTheLastChosen(mode: PresenceMode, events: seq<Event>)
    ensures Run(Start(mode), events).mode == LastChosen(mode, events)
    decreases |events|
  {
    hide FirstFrame, GlobalPresence, Rewrite;
    if events != [] {
      ModeIsTheLastChosen(mode, events[..|events| - 1]);
    }
  }

  /** The end of the stream, met while waiting, is clean exactly if everything
      that was read has been forwarded; otherwise it is a partial stanza. */
  lemma EndOfStreamTells(mode: PresenceMode, events: seq<Event>)
    requires Run(Start(mode), events).phase.Waiting?
    ensures var s := Run(Start(mode), events);
            var r := Next(s, EndOfStream);
            && (r.phase == Closed <==> Concat(FramesOf(Forwards(s.wire))) == Received(Start(mode), events))
            && (r.phase == Closed || r.phase == Broken(PartialStanza))
            && r == s.(phase := r.phase)
  {
    hide Run, Received, Forwards, Concat;
    ForwardsConserve(mode, events);
    var s := Run(Start(mode), events);
    assert [] + s.buffer == s.buffer;
    var forwarded := Concat(FramesOf(Forwards(s.wire)));
    assert |forwarded + s.buffer| == |forwarded| + |s.buffer|;
    assert s.buffer == [] ==> forwarded + s.buffer == forwarded;
  }

  // ------------------------------------------------------------- staying online

  predicate PassesThrough(s: State) {
    && s.mode.Online? && !s.unseen && !s.phase.Replaying?
    && (s.phase.Forwarding? ==> s.phase.selected.Online?)
    && (forall w | w in s.wire :: w.Forwarded? && w.bytes == w.frame)
  }

  lemma {:induction false} OnlinePassesThrough(events: seq<Event>)
    requires forall e | e in events :: !e.SetMode?
    ensures PassesThrough(Run(Start(Online), events))
    decreases |events|
  {
    hide FirstFrame, GlobalPresence;
    if events != [] {
      OnlinePassesThrough(events[..|events| - 1]);
      assert events[|events| - 1] in events;
    }
  }

  lemma {:induction false} AllForwarded(wire: seq<Write>)
    requires forall w | w in wire :: w.Forwarded?
    ensures Forwards(wire) == wire
  {
    if wire != [] {
      assert wire[..|wire| - 1] + [wire[|wire| - 1]] == wire;
      assert wire[|wire| - 1] in wire;
      AllForwarded(wire[..|wire| - 1]);
    }
  }

  /** A run that stays online copies its input byte for byte, up to the frame on
      its way and the bytes still pending. */
  lemma OnlineCopies(events: seq<Event>)
    requires (forall e | e in events :: !e.SetMode?) && Sane(Run(Start(Online), events))
    ensures var s := Run(Start(Online), events);
            Concat(BytesOf(s.wire)) + (InFlight(s) + s.buffer) == Received(Start(Online), events)
  {
    hide Next, Run, Received, Forwards;
    OnlinePassesThrough(events);
    ForwardsConserve(Online, events);
    var s := Run(Start(Online), events);
    AllForwarded(s.wire);
    assert BytesOf(s.wire) == FramesOf(s.wire);
  }
}
