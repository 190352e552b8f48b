/** The writing loop of `send` and the reading loop of `frame` at the two ends of one pipe, byte by
    byte: the reader also waits inside a frame that is still being written
    (scripts/m3_11_frozen_frames.py). */
module FrameSteps {
  import opened Outcomes
  import opened JsonText
  import opened Frames

  /** `sent` messages were begun; `view` is what is left of the last one, `data` what the reader
      has of its current frame. A `broken` writer gave up and writes nothing any more. */
  datatype State = State(sent: nat, view: seq<Byte>, pipe: seq<Byte>, data: seq<Byte>, received: seq<seq<Byte>>,
                         broken: bool)

  datatype Move = Begin | Write(n: nat) | Read | Abandon

  const START := State(0, [], [], [], [], false)

  /** What one move makes of a state; `None` where it is not possible. `lines` are the texts of the
      messages. */
  function Next(lines: seq<seq<Byte>>, s: State, move: Move): Option<State> {
    match move
    case Begin =>
      if !s.broken && s.view == [] && s.sent < |lines| && |lines[s.sent]| <= FRAME_BYTES
      then Some(s.(sent := s.sent + 1, view := lines[s.sent])) else None
    case Write(n) =>
      if !s.broken && 0 < n <= |s.view|
      then Some(s.(pipe := s.pipe + s.view[..n], view := s.view[n..])) else None
    case Read =>
      if |s.data| > FRAME_BYTES || s.pipe == [] then None
      else
        var data := s.data + [s.pipe[0]];
        Some(if s.pipe[0] == NEWLINE then s.(pipe := s.pipe[1..], data := [], received := s.received + [data])
             else s.(pipe := s.pipe[1..], data := data))
    case Abandon => if s.broken then None else Some(s.(broken := true))
  }

  /** Texts that end with their only newline. */
  ghost predicate AllTerminated(lines: seq<seq<Byte>>) {
    forall line <- lines :: |line| <= FRAME_BYTES ==> IsLine(line)
  }

  /** The frames that were received are the first that were sent, and everything on its way is the
      rest of what was begun. */
  ghost predicate Invariant(lines: seq<seq<Byte>>, s: State) {
    && |s.received| <= s.sent <= |lines|
    && s.received == lines[..|s.received|]
    && NEWLINE !in s.data
    && s.data + s.pipe + s.view == Wire(lines[|s.received|..s.sent])
    && forall i :: 0 <= i < s.sent ==> IsLine(lines[i])
  }

  /** The first line of what is on its way. */
  lemma {:induction false} FirstOnItsWay(lines: seq<seq<Byte>>, s: State)
    requires Invariant(lines, s) && |s.received| < s.sent
    ensures var line := lines[|s.received|];
            && IsLine(line) && |s.data| < |line| && |line| <= |s.data + s.pipe + s.view|
            && (s.data + s.pipe + s.view)[..|line|] == line && s.data == line[..|s.data|]
            && (s.data + s.pipe + s.view)[|line|..] == Wire(lines[|s.received| + 1..s.sent])
  {
    var r, flow := |s.received|, s.data + s.pipe + s.view;
    var rest, line := lines[r..s.sent], lines[r];
    assert rest[0] == line && rest[1..] == lines[r + 1..s.sent];
    assert flow[..|line|] == line;
    assert line[|line| - 1] == NEWLINE && forall i :: 0 <= i < |s.data| ==> flow[i] == s.data[i];
    assert s.data == flow[..|s.data|];
  }

  /** Where the next byte of the pipe stands in the first line on its way. */
  lemma {:induction false} ByteOnItsWay(lines: seq<seq<Byte>>, s: State)
    requires Invariant(lines, s) && s.pipe != []
    ensures |s.received| < s.sent
    ensures var data, line := s.data + [s.pipe[0]], lines[|s.received|];
            && (s.pipe[0] == NEWLINE <==> data == line)
            && (data == line ==> s.pipe[1..] + s.view == Wire(lines[|s.received| + 1..s.sent]))
  {
    NothingBegun(lines, s);
    FirstOnItsWay(lines, s);
    assert s.data + s.pipe + s.view == s.data + [s.pipe[0]] + (s.pipe[1..] + s.view);
    LastByte(s.data, s.pipe[0], s.pipe[1..] + s.view, lines[|s.received|]);
  }

  lemma {:induction false} FrameEnds(lines: seq<seq<Byte>>, s: State)
    requires Invariant(lines, s) && s.pipe != [] && s.pipe[0] == NEWLINE
    ensures Invariant(lines, s.(pipe := s.pipe[1..], data := [], received := s.received + [s.data + [s.pipe[0]]]))
  {
    ByteOnItsWay(lines, s);
    assert [] + s.pipe[1..] + s.view == s.pipe[1..] + s.view;
    OneMore(lines, s.received, s.data + [s.pipe[0]]);
  }

  lemma {:induction false} OneMore(lines: seq<seq<Byte>>, received: seq<seq<Byte>>, line: seq<Byte>)
    requires |received| < |lines| && received == lines[..|received|] && line == lines[|received|]
    ensures received + [line] == lines[..|received + [line]|]
  {
  }

  lemma {:induction false} FrameGoesOn(lines: seq<seq<Byte>>, s: State)
    requires Invariant(lines, s) && s.pipe != [] && s.pipe[0] != NEWLINE
    ensures Invariant(lines, s.(pipe := s.pipe[1..], data := s.data + [s.pipe[0]]))
  {
    assert s.data + s.pipe + s.view == s.data + [s.pipe[0]] + s.pipe[1..] + s.view;
  }

  lemma {:induction false} NothingBegun(lines: seq<seq<Byte>>, s: State)
    requires Invariant(lines, s)
    ensures |s.received| == s.sent ==> s.data + s.pipe + s.view == []
  {
  }

  lemma {:induction false} BeginKeeps(lines: seq<seq<Byte>>, s: State)
    requires Invariant(lines, s) && s.view == [] && s.sent < |lines| && IsLine(lines[s.sent])
    ensures Invariant(lines, s.(sent := s.sent + 1, view := lines[s.sent]))
  {
    var r := |s.received|;
    assert lines[r..s.sent + 1] == lines[r..s.sent] + [lines[s.sent]];
    WireSnoc(lines[r..s.sent], lines[s.sent]);
    assert s.data + s.pipe == s.data + s.pipe + s.view;
  }

  lemma {:induction false} NextKeeps(lines: seq<seq<Byte>>, s: State, move: Move)
    requires AllTerminated(lines) && Invariant(lines, s) && Next(lines, s, move).Some?
    ensures Invariant(lines, Next(lines, s, move).value)
  {
    match move
    case Begin =>
      assert lines[s.sent] in lines;
      BeginKeeps(lines, s);
    case Write(n) => assert s.pipe + s.view == s.pipe + s.view[..n] + s.view[n..];
    case Read =>
      if s.pipe[0] == NEWLINE {
        FrameEnds(lines, s);
      } else {
        FrameGoesOn(lines, s);
      }
    case Abandon =>
  }

  /** Any schedule of the two loops. */
  function Run(lines: seq<seq<Byte>>, moves: seq<Move>): Option<State> {
    if moves == [] then Some(START)
    else
      var before := Run(lines, moves[..|moves| - 1]);
      if before.None? then None else Next(lines, before.value, moves[|moves| - 1])
  }

  lemma {:induction false} RunKeeps(lines: seq<seq<Byte>>, moves: seq<Move>)
    requires AllTerminated(lines) && Run(lines, moves).Some?
    ensures Invariant(lines, Run(lines, moves).value)
  {
    if moves != [] {
      var before := moves[..|moves| - 1];
      RunKeeps(lines, before);
      NextKeeps(lines, Run(lines, before).value, moves[|moves| - 1]);
    }
  }

  lemma {:induction false} MessagesTerminated(messages: seq<Value>)
    ensures AllTerminated(Lines(messages))
  {
    forall line | line in Lines(messages)
      ensures |line| <= FRAME_BYTES ==> IsLine(line)
    {
      var i :| 0 <= i < |messages| && line == Lines(messages)[i];
      LineIsLine(messages[i]);
    }
  }

  lemma {:induction false} WithinBound(lines: seq<seq<Byte>>, s: State)
    requires Invariant(lines, s)
    ensures |s.data| <= FRAME_BYTES
  {
    if |s.received| < s.sent {
      FirstOnItsWay(lines, s);
    } else {
      NothingBegun(lines, s);
    }
  }

  /** Under every schedule, and wherever the writer gives up, the reader has exactly the first of
      the messages, and it never meets a frame over its bound. */
  lemma {:induction false} ReceivedAreSent(messages: seq<Value>, moves: seq<Move>)
    requires Run(Lines(messages), moves).Some?
    ensures var s := Run(Lines(messages), moves).value;
            && |s.received| <= |messages| && |s.data| <= FRAME_BYTES
            && forall i :: 0 <= i < |s.received| ==> Decode(s.received[i]) == Some(messages[i])
  {
    var lines := Lines(messages);
    MessagesTerminated(messages);
    RunKeeps(lines, moves);
    LinesDecode(messages);
    WithinBound(lines, Run(lines, moves).value);
  }

  /** What is left to do: messages to begin, bytes to write, bytes to read, and giving up. */
  ghost function Work(lines: seq<seq<Byte>>, s: State): nat
    requires s.sent <= |lines|
  {
    var unwritten := |Wire(lines[s.sent..])| + |s.view|;
    |lines| - s.sent + unwritten + unwritten + |s.pipe| + if s.broken then 0 else 1
  }

  lemma {:induction false} NextWorks(lines: seq<seq<Byte>>, s: State, move: Move)
    requires s.sent <= |lines| && Next(lines, s, move).Some?
    ensures Next(lines, s, move).value.sent <= |lines|
    ensures Work(lines, Next(lines, s, move).value) < Work(lines, s)
  {
    if move.Begin? {
      var rest := lines[s.sent..];
      assert rest[0] == lines[s.sent] && rest[1..] == lines[s.sent + 1..];
    }
  }

  /** No schedule goes on for ever. */
  lemma {:induction false} RunsEnd(lines: seq<seq<Byte>>, moves: seq<Move>)
    requires Run(lines, moves).Some?
    ensures Run(lines, moves).value.sent <= |lines|
    ensures |moves| + Work(lines, Run(lines, moves).value) <= Work(lines, START)
  {
    if moves != [] {
      var before := moves[..|moves| - 1];
      RunsEnd(lines, before);
      NextWorks(lines, Run(lines, before).value, moves[|moves| - 1]);
    }
  }

  /** Nothing is possible any more but to give up. */
  ghost predicate Quiet(lines: seq<seq<Byte>>, s: State) {
    !s.broken && Next(lines, s, Begin).None? && Next(lines, s, Write(1)).None? && Next(lines, s, Read).None?
  }

  lemma {:induction false} QuietHasAll(lines: seq<seq<Byte>>, s: State)
    requires Invariant(lines, s) && Quiet(lines, s)
    ensures forall i :: 0 <= i < |s.received| ==> |lines[i]| <= FRAME_BYTES
    ensures |s.received| < |lines| ==> |lines[|s.received|]| > FRAME_BYTES
  {
    WithinBound(lines, s);
    assert s.view == [] && s.pipe == [];
    if |s.received| < s.sent {
      FirstOnItsWay(lines, s);
    }
  }

  /** A schedule that cannot go on, of a writer that did not give up, has delivered all messages up
      to the first that does not fit a frame. */
  lemma {:induction false} EveryScheduleDelivers(messages: seq<Value>, moves: seq<Move>)
    requires Run(Lines(messages), moves).Some? && Quiet(Lines(messages), Run(Lines(messages), moves).value)
    ensures var received := Run(Lines(messages), moves).value.received;
            && |received| <= |messages|
            && (forall i :: 0 <= i < |received| ==> Decode(received[i]) == Some(messages[i]) && Fits(messages[i]))
            && (|received| < |messages| ==> !Fits(messages[|received|]))
  {
    var lines := Lines(messages);
    MessagesTerminated(messages);
    RunKeeps(lines, moves);
    ReceivedAreSent(messages, moves);
    QuietHasAll(lines, Run(lines, moves).value);
    assert forall i :: 0 <= i < |messages| ==> (Fits(messages[i]) <==> |lines[i]| <= FRAME_BYTES);
  }
}
