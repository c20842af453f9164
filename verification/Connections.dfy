/**
 * The connection of src/core/connection.cpp: its two buffers, and the loops that drain the socket into one and
 * the other into the socket. The socket is an oracle: scripts of results for its calls of recv and of send.
 */
module Connections {
  import opened Prelude
  import opened Buffers

  const TEMP_BUF_SIZE := 2048

  /** What one recv call comes back with. */
  datatype RecvResult = Data(bytes: string) | PeerClosed | Interrupted | WouldBlock | Failed

  predicate Ends(r: RecvResult) {
    r.PeerClosed? || r.WouldBlock? || r.Failed?
  }

  /** The calls of one drain: some data and interruptions, then the call that ends it. */
  predicate Drain(script: seq<RecvResult>) {
    && script != [] && Ends(script[|script| - 1])
    && forall i :: 0 <= i < |script| - 1 ==>
         script[i].Interrupted? || (script[i].Data? && 0 < |script[i].bytes| <= TEMP_BUF_SIZE)
  }

  function Received(script: seq<RecvResult>): string {
    if script == [] then ""
    else Received(script[..|script| - 1])
         + if script[|script| - 1].Data? then script[|script| - 1].bytes else ""
  }

  /** What is received is all the data of the calls, in order, and nothing else. */
  lemma {:induction false} ReceivedIs(a: seq<RecvResult>, b: seq<RecvResult>, r: RecvResult)
    ensures Received(a + b) == Received(a) + Received(b)
    ensures Received([r]) == if r.Data? then r.bytes else ""
    decreases |b|
  {
    if b == [] {
      assert a + b == a;
    } else {
      var n := |b| - 1;
      ReceivedIs(a, b[..n], r);
      assert (a + b)[..|a + b| - 1] == a + b[..n];
      Regroup(Received(a), Received(b[..n]), if b[n].Data? then b[n].bytes else "");
    }
    assert [r][..0] == [];
  }

  /** What one send call comes back with: it takes at most `room` bytes of what it is offered, or none, for now or for good. */
  datatype SendResult = Took(room: nat) | Retry | Failed

  /** The calls of one Send, in turn; when they are used up, the socket takes whatever it is offered. */
  type Outlet = seq<SendResult>

  /** How many bytes there is room for before the socket fails for good, if it does. */
  function Room(outlet: Outlet): nat {
    if outlet == [] || outlet[0].Failed? then 0
    else (if outlet[0].Took? then outlet[0].room else 0) + Room(outlet[1..])
  }

  predicate Breaks(outlet: Outlet) {
    exists i :: 0 <= i < |outlet| && outlet[i].Failed?
  }

  /** The socket fails for good before so many bytes are taken. */
  predicate Fails(outlet: Outlet, size: nat) {
    Breaks(outlet) && Room(outlet) < size
  }

  /** What gets through: all of it, or as much as there was room for. */
  function Through(outlet: Outlet, bytes: string): string {
    if Fails(outlet, |bytes|) then bytes[..Room(outlet)] else bytes
  }

  lemma {:induction false} OutletNext(outlet: Outlet)
    requires outlet != [] && !outlet[0].Failed?
    ensures Breaks(outlet) <==> Breaks(outlet[1..])
  {
    if Breaks(outlet) {
      var i :| 0 <= i < |outlet| && outlet[i].Failed?;
      assert outlet[1..][i - 1].Failed?;
    }
  }

  class Connection {
    const readBuffer: Buffer
    const writeBuffer: Buffer
    const socket: nat -> Outlet  // what the calls of each Send come back with
    var sends: nat               // how many Sends there have been
    var sent: string             // all bytes the socket took
    var alive: bool              // still owned by its looper

    ghost predicate Valid() {
      readBuffer != writeBuffer
    }

    constructor (socket: nat -> Outlet)
      ensures Valid() && fresh(readBuffer) && fresh(writeBuffer) && this.socket == socket
      ensures readBuffer.buf == "" && writeBuffer.buf == "" && sent == "" && sends == 0 && alive
    {
      readBuffer := new Buffer();
      writeBuffer := new Buffer();
      this.socket := socket;
      sends, sent, alive := 0, "", true;
    }

    /** Reads until a call ends the drain; the peer is gone unless that call would merely block. */
    method Recv(script: seq<RecvResult>) returns (read: nat, exit: bool)
      requires Drain(script)
      modifies readBuffer
      ensures readBuffer.buf == old(readBuffer.buf) + Received(script)
      ensures read == |Received(script)| && exit == !script[|script| - 1].WouldBlock?
    {
      read := 0;
      var call := 0;
      while true
        invariant call < |script|
        invariant readBuffer.buf == old(readBuffer.buf) + Received(script[..call])
        invariant read == |Received(script[..call])|
        decreases |script| - call
      {
        var result := script[call];
        assert script[..call + 1][..call] == script[..call];
        call := call + 1;
        match result {
          case Data(bytes) =>
            read := read + |bytes|;
            readBuffer.Append(bytes);
          case PeerClosed =>
            assert script[..call] == script;
            return read, true;
          case Interrupted =>
          case WouldBlock =>
            assert script[..call] == script;
            break;
          case Failed =>
            assert script[..call] == script;
            return read, true;
        }
      }
      return read, false;
    }

    /**
     * Writes the whole buffer through any number of partial writes and retries, and clears it. Only if the socket
     * fails for good before all is taken is the rest dropped.
     */
    method Send()
      requires Valid()
      modifies this`sent, this`sends, writeBuffer
      ensures writeBuffer.buf == "" && sends == old(sends) + 1
      ensures sent == old(sent) + Through(socket(old(sends)), old(writeBuffer.buf))
    {
      var outlet, call := socket(sends), 0;
      sends := sends + 1;
      var currWrite := 0;
      var toWrite := |writeBuffer.buf|;
      while currWrite < toWrite
        invariant currWrite <= toWrite == |writeBuffer.buf| && writeBuffer.buf == old(writeBuffer.buf)
        invariant sent == old(sent) + writeBuffer.buf[..currWrite] && sends == old(sends) + 1 && call <= |outlet|
        invariant currWrite < toWrite ==> Room(outlet) == currWrite + Room(outlet[call..])
        invariant currWrite < toWrite ==> (Breaks(outlet) <==> Breaks(outlet[call..]))
        invariant currWrite == toWrite ==> !Fails(outlet, toWrite)
        decreases toWrite - currWrite, |outlet| - call
      {
        var write := toWrite - currWrite;
        if call < |outlet| {
          assert outlet[call..][0] == outlet[call] && outlet[call..][1..] == outlet[call + 1..];
          if outlet[call].Failed? {
            assert outlet[call..][0].Failed? && Fails(outlet, toWrite);
            writeBuffer.Clear();
            return;
          }
          OutletNext(outlet[call..]);
          if outlet[call].Retry? {
            write := 0;
          } else if outlet[call].room < write {
            write := outlet[call].room;
          }
          call := call + 1;
        }
        sent := sent + writeBuffer.buf[currWrite..currWrite + write];
        currWrite := currWrite + write;
      }
      writeBuffer.Clear();
    }
  }
}
