/** The framed relay channel, treated abstractly: a frame is a message type and a payload, and a
    connection is a queue of frames the relay will deliver, the frames written so far, and
    whether it is closed. The byte encoding of a frame is not part of this model. */
module Frames {
  import opened Bytes
  import opened Wrappers

  datatype MsgType =
    | Auth | AuthOk | Error | RegisterDownload | RegisterUpload | PortAlloc | Data | EOF
    | Other(code: nat)

  datatype Frame = Frame(ty: MsgType, payload: seq<byte>)

  /** How a transport operation can fail. `PeerClosed`: the relay has nothing more to send and
      the read sees the connection end; `WriteRefused`: the transport broke before accepting the
      frame; `UseOfClosed`: the operation came after `Close`. */
  datatype ConnError = PeerClosed | WriteRefused | UseOfClosed

  class Conn {
    /** Every frame written so far, oldest first. */
    var written: seq<Frame>
    /** The frames the relay has still to deliver, next first. */
    var incoming: seq<Frame>
    var closed: bool
    /** How many more frames the transport accepts before a write fails. */
    var room: nat

    /** A freshly dialled, open connection. */
    constructor (incoming: seq<Frame>, room: nat)
      ensures this.incoming == incoming && this.room == room
      ensures written == [] && !closed
    {
      this.incoming := incoming;
      this.room := room;
      written := [];
      closed := false;
    }

    /** The number of further frames a write will accept. */
    function Capacity(): nat
      reads this
    {
      if closed then 0 else room
    }

    /** The error a write reports once `Capacity()` is used up. */
    function WriteError(): ConnError
      reads this
    {
      if closed then UseOfClosed else WriteRefused
    }

    /** `relayprotocol.WriteFrame`: one whole frame, or an error and nothing written. */
    method WriteFrame(f: Frame) returns (err: Option<ConnError>)
      modifies this
      ensures incoming == old(incoming) && closed == old(closed)
      ensures old(Capacity()) > 0 ==>
                err == None && written == old(written) + [f] && room == old(room) - 1
      ensures old(Capacity()) == 0 ==>
                err == Some(old(WriteError())) && written == old(written) && room == old(room)
    {
      if closed {
        return Some(UseOfClosed);
      }
      if room == 0 {
        return Some(WriteRefused);
      }
      written := written + [f];
      room := room - 1;
      return None;
    }

    /** `relayprotocol.ReadFrame`: the next frame the relay sends, or an error. */
    method ReadFrame() returns (r: Result<Frame, ConnError>)
      modifies this
      ensures written == old(written) && closed == old(closed) && room == old(room)
      ensures old(closed) ==> r == Failure(UseOfClosed) && incoming == old(incoming)
      ensures !old(closed) && old(incoming) == [] ==> r == Failure(PeerClosed) && incoming == []
      ensures !old(closed) && old(incoming) != [] ==>
                r == Success(old(incoming)[0]) && incoming == old(incoming)[1..]
    {
      if closed {
        return Failure(UseOfClosed);
      }
      if incoming == [] {
        return Failure(PeerClosed);
      }
      r := Success(incoming[0]);
      incoming := incoming[1..];
    }

    /** Closing a connection that is already closed reports `UseOfClosed`. */
    method Close() returns (err: Option<ConnError>)
      modifies this
      ensures closed
      ensures written == old(written) && incoming == old(incoming) && room == old(room)
      ensures err == if old(closed) then Some(UseOfClosed) else None
    {
      err := if closed then Some(UseOfClosed) else None;
      closed := true;
    }
  }

  /** The bytes carried by the Data frames of `fs`, in order; other frames carry none. */
  function DataConcat(fs: seq<Frame>): seq<byte>
  {
    if fs == [] then []
    else (if fs[0].ty == Data then fs[0].payload else []) + DataConcat(fs[1..])
  }

  lemma {:induction false} DataConcatAppend(a: seq<Frame>, b: seq<Frame>)
    ensures DataConcat(a + b) == DataConcat(a) + DataConcat(b)
  {
    if a == [] {
      assert a + b == b;
    } else {
      assert (a + b)[1..] == a[1..] + b;
      DataConcatAppend(a[1..], b);
    }
  }
}
