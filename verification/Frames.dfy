/** Newline-delimited bounded frames over partial reads and writes
    (scripts/m3_11_frozen_frames.py). */
module Frames {
  import opened Outcomes
  import opened JsonText
  import R = JsonReader

  const NEWLINE: Byte := 10
  const FRAME_BYTES := 1024 * 1024

  /** The bytes of one message. */
  function Line(v: Value): seq<Byte> { Dumps(v) + [NEWLINE] }

  /** The message that a line holds. */
  function Decode(line: seq<Byte>): Option<Value> { R.Loads(line) }

  /** A line is read as the message that it was written for. */
  lemma {:induction false} DecodeInverts(v: Value)
    ensures Decode(Line(v)) == Some(v)
  {
    R.ReadDumps(v, [NEWLINE]);
    assert [NEWLINE][1..] == [];
  }

  /** A message that `frame` returns. */
  predicate IsMessage(line: seq<Byte>) { Decode(line).Some? && Decode(line).value.Object? }

  // ------------------------------------------------------------------- the stream

  predicate IsLine(line: seq<Byte>) {
    0 < |line| <= FRAME_BYTES && line[|line| - 1] == NEWLINE && NEWLINE !in line[..|line| - 1]
  }

  function Wire(lines: seq<seq<Byte>>): seq<Byte> {
    if lines == [] then [] else lines[0] + Wire(lines[1..])
  }

  lemma {:induction false} WireSnoc(lines: seq<seq<Byte>>, line: seq<Byte>)
    ensures Wire(lines + [line]) == Wire(lines) + line
  {
    if lines == [] {
      assert [line][1..] == [];
    } else {
      WireSnoc(lines[1..], line);
      assert (lines + [line])[1..] == lines[1..] + [line];
    }
  }

  lemma {:induction false} WholeLine(lines: seq<seq<Byte>>, line: seq<Byte>)
    requires IsLine(line) && forall other <- lines :: IsLine(other)
    ensures Wire(lines) + [] + line == Wire(lines + [line]) + []
    ensures forall other <- lines + [line] :: IsLine(other)
  {
    WireSnoc(lines, line);
  }

  lemma {:induction false} LineIsLine(v: Value)
    ensures IsLine(Line(v)) <==> |Line(v)| <= FRAME_BYTES
  {
    assert Line(v)[..|Line(v)| - 1] == Dumps(v);
  }

  lemma {:induction false} Unfinished(v: Value, done: nat)
    requires done < |Line(v)|
    ensures NEWLINE !in Line(v)[..done]
  {
    assert forall i :: 0 <= i < done ==> Line(v)[i] == Dumps(v)[i];
  }

  /** The next byte ends the line exactly when it is its last. */
  lemma {:induction false} LastByte(data: seq<Byte>, block: Byte, rest: seq<Byte>, line: seq<Byte>)
    requires IsLine(line) && |data| < |line| <= |data| + 1 + |rest|
    requires (data + [block] + rest)[..|line|] == line
    ensures block == line[|data|] && (block == NEWLINE <==> data + [block] == line)
    ensures block == NEWLINE ==> (data + [block] + rest)[|line|..] == rest
  {
    var flow := data + [block] + rest;
    assert flow[|data|] == block && flow[..|data| + 1] == data + [block];
    assert line[|data|] == flow[|data|];
    assert forall i :: 0 <= i < |line| - 1 ==> line[i] in line[..|line| - 1];
    assert flow[..|line|][..|data| + 1] == flow[..|data| + 1];
  }

  class Channel {
    /** Bytes that were written and not read. */
    var buffer: seq<Byte>
    /** The complete frames among them, and what an abandoned submission left behind them. */
    ghost var lines: seq<seq<Byte>>
    ghost var tail: seq<Byte>

    ghost predicate Valid()
      reads this
    {
      && buffer == Wire(lines) + tail
      && (forall line <- lines :: IsLine(line))
      && NEWLINE !in tail
    }

    constructor ()
      ensures Valid() && lines == [] && tail == []
    {
      buffer, lines, tail := [], [], [];
    }

    /** The writing loop of `send`: `done` bytes are out when it stops. */
    method WriteAll(raw: seq<Byte>, ticks: nat, calm: bool) returns (s: Status, done: nat)
      modifies this`buffer
      ensures done <= |raw| && buffer == old(buffer) + raw[..done]
      ensures s.Ok? <==> done == |raw|
      ensures s.Stop? ==> s.reason.Interrupted? || s.reason.Incomplete?
      ensures calm && ticks >= |raw| ==> s.Ok?
    {
      done := 0;
      var left: nat := ticks;
      while done < |raw|
        invariant done <= |raw| && buffer == old(buffer) + raw[..done]
        invariant calm && ticks >= |raw| ==> left >= |raw| - done
        decreases left
      {
        if left == 0 {
          return Stop(Interrupted), done;
        }
        left := left - 1;
        var blocked: bool, written: nat := *, *;
        written := if written <= |raw| - done then written else |raw| - done;
        if calm {
          blocked, written := false, if written == 0 then 1 else written;
        }
        if !blocked {
          if written == 0 {
            return Stop(Incomplete), done;
          }
          assert raw[..done + written] == raw[..done] + raw[done..done + written];
          buffer := buffer + raw[done..done + written];
          done := done + written;
        }
      }
      s := Ok;
    }

    /** `send`: the frame is written piece by piece, however small the pieces are. A frame over
        the bound is not begun; one that is abandoned leaves no newline. */
    method Send(v: Value, ticks: nat, calm: bool) returns (s: Status)
      requires Valid() && tail == []
      modifies this
      ensures Valid() && old(buffer) <= buffer
      ensures s.Ok? ==> lines == old(lines) + [Line(v)] && tail == []
      ensures s.Stop? ==> lines == old(lines)
      ensures |Line(v)| > 1_048_576 ==> s == Stop(Inadmissible) && buffer == old(buffer)
      ensures calm && ticks >= |Line(v)| ==> (s.Ok? <==> |Line(v)| <= 1_048_576)
    {
      var raw := Line(v);
      LineIsLine(v);
      if |raw| > FRAME_BYTES {
        return Stop(Inadmissible);
      }
      var done;
      s, done := WriteAll(raw, ticks, calm);
      if s.Ok? {
        assert raw[..done] == raw;
        lines := lines + [raw];
        WholeLine(old(lines), raw);
      } else {
        tail := raw[..done];
        Unfinished(v, done);
      }
    }

    /** The reading loop of `frame`: one byte at a time up to the first newline, and nothing past
        it. Every frame that was sent whole is within the bound of the reader. */
    method ReadLine(ticks: nat, calm: bool) returns (s: Status, line: seq<Byte>)
      requires Valid()
      modifies this
      ensures s.Ok? ==> && old(lines) != [] && line == old(lines)[0]
                        && Valid() && lines == old(lines)[1..] && tail == old(tail) && buffer == old(buffer)[|line|..]
      ensures calm && ticks > FRAME_BYTES ==> (s.Ok? <==> old(lines) != [])
      ensures s.Stop? ==> |buffer| <= |old(buffer)| && buffer == old(buffer)[|old(buffer)| - |buffer|..]
    {
      line := [];
      var left: nat := ticks;
      ghost var flow := buffer;
      FirstLeads(lines, tail);
      while |line| <= FRAME_BYTES
        invariant |line| <= |flow| && line == flow[..|line|] && buffer == flow[|line|..] && Leads(flow, old(lines))
        invariant lines == old(lines) && tail == old(tail) && (lines != [] ==> |line| < |lines[0]|)
        invariant left + |line| == ticks
        decreases left
      {
        :- Checkpoint(calm);
        if left == 0 {
          return Stop(Interrupted), line;
        }
        left := left - 1;
        if buffer == [] {
          return Stop(Incomplete), line;
        }
        ByteRead(flow, lines, |line|);
        var block := buffer[0];
        line, buffer := line + [block], buffer[1..];
        if block == NEWLINE {
          lines := lines[1..];
          return Ok, line;
        }
      }
      s := Stop(Inadmissible);
    }

    /** `frame`: the message of the next line, if it is an object. */
    method Frame(ticks: nat, calm: bool) returns (s: Status, value: Value)
      requires Valid()
      modifies this
      ensures s.Ok? ==> && old(lines) != [] && Decode(old(lines)[0]) == Some(value) && value.Object?
                        && Valid() && lines == old(lines)[1..] && tail == old(tail)
      ensures calm && ticks > FRAME_BYTES ==> (s.Ok? <==> old(lines) != [] && IsMessage(old(lines)[0]))
    {
      value := Null;
      var line :- ReadLine(ticks, calm);
      if !IsMessage(line) {
        return Stop(Inadmissible), value;
      }
      return Ok, Decode(line).value;
    }
  }

  /** What is read next: the first line, or no newline at all. */
  ghost predicate Leads(flow: seq<Byte>, lines: seq<seq<Byte>>) {
    if lines == [] then NEWLINE !in flow
    else IsLine(lines[0]) && |lines[0]| <= |flow| && flow[..|lines[0]|] == lines[0]
  }

  lemma {:induction false} FirstLeads(lines: seq<seq<Byte>>, tail: seq<Byte>)
    requires (forall line <- lines :: IsLine(line)) && NEWLINE !in tail
    ensures Leads(Wire(lines) + tail, lines)
    ensures lines != [] ==> (Wire(lines) + tail)[|lines[0]|..] == Wire(lines[1..]) + tail
  {
  }

  /** One more byte of what is read next. */
  lemma {:induction false} ByteRead(flow: seq<Byte>, lines: seq<seq<Byte>>, n: nat)
    requires Leads(flow, lines) && n < |flow| && (lines != [] ==> n < |lines[0]|)
    ensures flow[..n + 1] == flow[..n] + [flow[n]]
    ensures flow[n] == NEWLINE <==> lines != [] && flow[..n + 1] == lines[0]
    ensures lines != [] && flow[n] != NEWLINE ==> n + 1 < |lines[0]|
  {
    if lines != [] {
      assert flow == flow[..n] + [flow[n]] + flow[n + 1..];
      LastByte(flow[..n], flow[n], flow[n + 1..], lines[0]);
    }
  }

  ghost predicate Fits(v: Value) { |Line(v)| <= FRAME_BYTES }

  function Lines(messages: seq<Value>): seq<seq<Byte>> {
    seq(|messages|, i requires 0 <= i < |messages| => Line(messages[i]))
  }

  /** One read of a frame that was sent whole. */
  method Receive(channel: Channel, ghost v: Value, ticks: nat) returns (value: Value)
    requires channel.Valid() && channel.lines != [] && channel.lines[0] == Line(v) && v.Object?
    requires ticks > FRAME_BYTES
    modifies channel
    ensures value == v && channel.Valid() && channel.lines == old(channel.lines)[1..]
    ensures channel.tail == old(channel.tail)
  {
    DecodeInverts(v);
    var s;
    s, value := channel.Frame(ticks, true);
  }

  /** Every order of whole sends and reads, with any pieces, delivers the same messages in order. */
  method Converse(channel: Channel, messages: seq<Value>, ticks: nat) returns (received: seq<Value>)
    requires channel.Valid() && channel.lines == [] && channel.tail == []
    requires ticks > FRAME_BYTES && forall v <- messages :: Fits(v) && v.Object?
    modifies channel
    ensures received == messages && channel.Valid() && channel.buffer == []
  {
    received := [];
    var sent := 0;
    while |received| < |messages|
      invariant 0 <= |received| <= sent <= |messages| && channel.Valid() && channel.tail == []
      invariant received == messages[..|received|]
      invariant channel.lines == Lines(messages)[|received|..sent]
      decreases |messages| - sent, |messages| - |received|
    {
      var write: bool := *;
      if sent < |messages| && (write || |received| == sent) {
        assert Fits(messages[sent]);
        var s := channel.Send(messages[sent], ticks, true);
        sent := sent + 1;
      } else {
        assert channel.lines[0] == Line(messages[|received|]);
        var value := Receive(channel, messages[|received|], ticks);
        received := received + [value];
      }
    }
    assert Wire([]) == [];
  }

  lemma {:induction false} LinesDecode(messages: seq<Value>)
    ensures forall i :: 0 <= i < |messages| ==> Decode(Lines(messages)[i]) == Some(messages[i])
  {
    forall i | 0 <= i < |messages|
      ensures Decode(Lines(messages)[i]) == Some(messages[i])
    {
      DecodeInverts(messages[i]);
    }
  }
}
