/**
  The loop that drains an attached terminal's PTY into the output channel, and the tab-exited event
  after it (terminal_runtime.rs).
*/
module PtyDrain {
  import opened Wrappers
  import opened TmuxServer

  const BUFFER_SIZE: nat := 8192

  type Byte = b: int | 0 <= b < 256

  /** What the reads give in turn. Past the end of the script every read reports end of file. */
  datatype Event = Chunk(bytes: seq<Byte>) | EndOfFile | Interrupted | Broken

  datatype ReadResult = Count(n: nat) | WasInterrupted | WasBroken

  predicate Fits(script: seq<Event>) {
    forall k :: 0 <= k < |script| && script[k].Chunk? ==> 0 < |script[k].bytes| <= BUFFER_SIZE
  }

  class PtyReader {
    var script: seq<Event>

    /** Overwrites the front of the buffer only: the bytes of earlier reads stay behind it. */
    method Read(buf: array<Byte>) returns (r: ReadResult)
      requires buf.Length == BUFFER_SIZE && Fits(script)
      modifies this, buf
      ensures script == if old(script) == [] then [] else old(script)[1..]
      ensures old(script) == [] ==> r == Count(0)
      ensures old(script) != [] ==>
                match old(script)[0]
                case Chunk(bytes) => r == Count(|bytes|) && buf[..|bytes|] == bytes
                    && buf[|bytes|..] == old(buf[..])[|bytes|..]
                case EndOfFile => r == Count(0)
                case Interrupted => r == WasInterrupted
                case Broken => r == WasBroken
    {
      if script == [] {
        return Count(0);
      }
      var event := script[0];
      script := script[1..];
      match event
      case Chunk(bytes) =>
        forall i | 0 <= i < |bytes| {
          buf[i] := bytes[i];
        }
        r := Count(|bytes|);
      case EndOfFile => r := Count(0);
      case Interrupted => r := WasInterrupted;
      case Broken => r := WasBroken;
    }
  }

  /** The output channel takes `room` more chunks before the webview is gone. */
  class OutputChannel {
    var sent: seq<seq<Byte>>
    var room: nat

    method Send(chunk: seq<Byte>) returns (ok: bool)
      modifies this
      ensures ok == (old(room) > 0)
      ensures sent == if ok then old(sent) + [chunk] else old(sent)
      ensures room == if ok then old(room) - 1 else 0
    {
      ok := room > 0;
      if ok {
        sent, room := sent + [chunk], room - 1;
      }
    }
  }

  class TabExitedEmitter {
    var emitted: seq<string>

    method Emit(tabId: string)
      modifies this
      ensures emitted == old(emitted) + [tabId]
    {
      emitted := emitted + [tabId];
    }
  }

  // ---------- the meaning of a script ----------

  datatype Stop = ReachedEof | ChannelClosed | ReadFailed

  /** The chunks forwarded and the reason to stop. */
  datatype Drained = Drained(forwarded: seq<seq<Byte>>, stop: Stop)

  function Drain(script: seq<Event>, room: nat): Drained {
    if script == [] then Drained([], ReachedEof)
    else match script[0]
      case EndOfFile => Drained([], ReachedEof)
      case Broken => Drained([], ReadFailed)
      case Interrupted => Drain(script[1..], room)
      case Chunk(bytes) =>
        if room == 0 then Drained([], ChannelClosed)
        else
          var rest := Drain(script[1..], room - 1);
          Drained([bytes] + rest.forwarded, rest.stop)
  }

  /** The bytes a run of reads delivers. */
  function BytesOf(script: seq<Event>): seq<Byte> {
    if script == [] then []
    else (if script[0].Chunk? then script[0].bytes else []) + BytesOf(script[1..])
  }

  function Joined(chunks: seq<seq<Byte>>): seq<Byte> {
    if chunks == [] then [] else chunks[0] + Joined(chunks[1..])
  }

  function Chunks(script: seq<Event>): nat {
    if script == [] then 0 else (if script[0].Chunk? then 1 else 0) + Chunks(script[1..])
  }

  /** The first `n` reads neither end nor fail, and no chunk among them finds the channel closed. */
  predicate RunsThrough(script: seq<Event>, n: nat, room: nat) {
    && n <= |script|
    && (forall k :: 0 <= k < n ==> script[k].Chunk? || script[k].Interrupted?)
    && Chunks(script[..n]) <= room
  }

  /** The bytes forwarded are exactly those of the reads before the one the loop stops at, one
      send per chunk, and the read it stops at says why it stops. */
  lemma {:induction false} DrainForwardsEverything(script: seq<Event>, room: nat) returns (n: nat)
    ensures RunsThrough(script, n, room)
    ensures var d := Drain(script, room);
            && Joined(d.forwarded) == BytesOf(script[..n])
            && |d.forwarded| == Chunks(script[..n])
            && (d.stop.ReachedEof? <==> n == |script| || script[n].EndOfFile?)
            && (d.stop.ReadFailed? <==> n < |script| && script[n].Broken?)
            && (d.stop.ChannelClosed? <==> n < |script| && script[n].Chunk? && |d.forwarded| == room)
  {
    n := 0;
    if script != [] {
      var tail := script[1..];
      if script[0].Interrupted? || (script[0].Chunk? && room > 0) {
        var m := DrainForwardsEverything(tail, if script[0].Chunk? then room - 1 else room);
        n := m + 1;
        assert script[..n][1..] == tail[..m];
        assert script[..n][0] == script[0];
        if script[0].Chunk? {
          var d := Drain(script, room);
          assert d.forwarded[1..] == Drain(tail, room - 1).forwarded;
        }
      }
    }
  }

  /** Interruptions are invisible. */
  lemma {:induction false} InterruptionsDoNotMatter(before: seq<Event>, after: seq<Event>, room: nat)
    ensures Drain(before + [Interrupted] + after, room) == Drain(before + after, room)
  {
    if before == [] {
      assert ([] + [Interrupted] + after)[1..] == after;
      assert [] + after == after;
    } else {
      assert (before + [Interrupted] + after)[1..] == before[1..] + [Interrupted] + after;
      assert (before + after)[1..] == before[1..] + after;
      InterruptionsDoNotMatter(before[1..], after, room);
      if before[0].Chunk? && room > 0 {
        InterruptionsDoNotMatter(before[1..], after, room - 1);
      }
    }
  }

  /** With an open channel and no failure, every byte up to the end of file is forwarded. */
  lemma {:induction false} NothingIsLost(script: seq<Event>, room: nat)
    requires forall k :: 0 <= k < |script| ==> script[k].Chunk? || script[k].Interrupted?
    requires Chunks(script) <= room
    ensures Drain(script, room).stop.ReachedEof?
    ensures Joined(Drain(script, room).forwarded) == BytesOf(script)
  {
    var n := DrainForwardsEverything(script, room);
    if n < |script| {
      ChunksOfPrefix(script, n);
    }
    assert script[..|script|] == script;
  }

  lemma {:induction false} ChunksOfPrefix(script: seq<Event>, n: nat)
    requires n < |script|
    ensures Chunks(script[..n]) <= Chunks(script)
    ensures script[n].Chunk? ==> Chunks(script[..n]) < Chunks(script)
  {
    if n > 0 {
      ChunksOfPrefix(script[1..], n - 1);
      assert script[..n][1..] == script[1..][..n - 1];
    }
  }

  // ---------- the loop ----------

  method TabExitedIfSessionMissing(hasSession: Result<bool, TmuxError>, tabId: string)
    returns (r: Result<Option<string>, TmuxError>)
    ensures r.Err? <==> hasSession.Err?
    ensures hasSession.Err? ==> r.error == hasSession.error
    ensures r.Ok? ==> r.value == if hasSession.value then None else Some(tabId)
  {
    if hasSession.Err? {
      return Err(hasSession.error);
    }
    r := Ok(if hasSession.value then None else Some(tabId));
  }

  /** The read loop: whether it stopped at end of file. */
  method DrainReader(reader: PtyReader, channel: OutputChannel) returns (reachedEof: bool)
    requires Fits(reader.script)
    modifies reader, channel
    ensures channel.sent == old(channel.sent) + Drain(old(reader.script), old(channel.room)).forwarded
    ensures reachedEof <==> Drain(old(reader.script), old(channel.room)).stop.ReachedEof?
  {
    var buf := new Byte[BUFFER_SIZE](i => 0);
    ghost var goal := Drain(reader.script, channel.room);
    while true
      invariant fresh(buf) && buf.Length == BUFFER_SIZE
      invariant Fits(reader.script)
      invariant channel.sent + Drain(reader.script, channel.room).forwarded == old(channel.sent) + goal.forwarded
      invariant Drain(reader.script, channel.room).stop == goal.stop
      decreases |reader.script|
    {
      var got := reader.Read(buf);
      match got
      case Count(n) =>
        if n == 0 {
          return true;
        }
        var ok := channel.Send(buf[..n]);
        if !ok {
          return false;
        }
      case WasInterrupted =>
      case WasBroken => return false;
    }
  }

  /** `hasSession` is what `tmux has-session` answers if it is asked. */
  method DriveReaderUntilDone(reader: PtyReader, channel: OutputChannel, emitter: TabExitedEmitter,
                              tabId: string, hasSession: Result<bool, TmuxError>)
    returns (r: Result<(), TmuxError>)
    requires Fits(reader.script)
    modifies reader, channel, emitter
    ensures channel.sent == old(channel.sent) + Drain(old(reader.script), old(channel.room)).forwarded
    ensures var eof := Drain(old(reader.script), old(channel.room)).stop.ReachedEof?;
            && r == (if eof && hasSession.Err? then Err(hasSession.error) else Ok(()))
            && emitter.emitted == old(emitter.emitted) + (if eof && hasSession == Ok(false) then [tabId] else [])
  {
    var reachedEof := DrainReader(reader, channel);
    if !reachedEof {
      return Ok(());
    }
    var exited := TabExitedIfSessionMissing(hasSession, tabId);
    if exited.Err? {
      return Err(exited.error);
    }
    if exited.value.Some? {
      emitter.Emit(exited.value.value);
    }
    r := Ok(());
  }
}
