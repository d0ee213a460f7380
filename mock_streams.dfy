/** The test doubles for a duplex byte stream: a transport that buffers
    what is written to it, and a protocol that buffers what it receives and
    holds back what it writes until a transport is attached. */
module MockStreams {

  newtype Byte = x: int | 0 <= x < 256

  type Bytes = seq<Byte>

  /** Python's `assert` statements in the doubles either pass or raise. */
  datatype Outcome = Pass | AssertionFailed

  class MockTransport {
    var buffer: Bytes
    var eofed: bool
    var aborted: bool
    var protocol: MockProtocol?
    var closed: bool

    constructor ()
      ensures buffer == [] && !eofed && !aborted && protocol == null && !closed
    {
      buffer := [];
      eofed := false;
      aborted := false;
      protocol := null;
      closed := false;
    }

    /** Bytes written accumulate in write order. */
    method Write(data: Bytes)
      modifies this`buffer
      ensures buffer == old(buffer) + data
    {
      buffer := buffer + data;
    }

    method WriteEof()
      modifies this`eofed
      ensures eofed
    {
      eofed := true;
    }

    method Abort()
      modifies this`aborted
      ensures aborted
    {
      aborted := true;
    }

    method Close()
      modifies this`closed
      ensures closed
    {
      closed := true;
    }

    method SetProtocol(p: MockProtocol)
      modifies this`protocol
      ensures protocol == p
    {
      protocol := p;
    }

    /** Hands `data` to the attached protocol's `data_received`; with no
        protocol attached the check in `get_protocol` fails instead. */
    method PretendToReceive(data: Bytes) returns (outcome: Outcome)
      modifies protocol
      ensures outcome == (if protocol == null then AssertionFailed else Pass)
      ensures protocol != null ==> protocol.receivedBytes == old(protocol.receivedBytes) + data
      ensures protocol != null ==> protocol.toTransmit == old(protocol.toTransmit)
                                   && protocol.transport == old(protocol.transport)
    {
      if protocol == null {
        outcome := AssertionFailed;
      } else {
        protocol.DataReceived(data);
        outcome := Pass;
      }
    }
  }

  class MockProtocol {
    var toTransmit: Bytes
    var receivedBytes: Bytes
    var transport: MockTransport?

    constructor ()
      ensures toTransmit == [] && receivedBytes == [] && transport == null
    {
      toTransmit := [];
      receivedBytes := [];
      transport := null;
    }

    /** Received bytes accumulate in arrival order. */
    method DataReceived(data: Bytes)
      modifies this`receivedBytes
      ensures receivedBytes == old(receivedBytes) + data
    {
      receivedBytes := receivedBytes + data;
    }

    /** Attaches `t` and flushes the bytes written so far into it. The
        pending bytes are not cleared, so a second attach flushes them again. */
    method ConnectionMade(t: MockTransport)
      modifies this`transport, t`buffer
      ensures transport == t && toTransmit == old(toTransmit)
      ensures t.buffer == old(t.buffer) + toTransmit
    {
      transport := t;
      if toTransmit != [] {
        t.Write(toTransmit);
      }
    }

    /** Forwards to the attached transport, or holds the bytes back while
        there is none. */
    method Write(data: Bytes)
      modifies this`toTransmit, transport
      ensures transport == old(transport)
      ensures transport != null ==> transport.buffer == old(transport.buffer) + data
                                    && toTransmit == old(toTransmit)
      ensures transport != null ==> transport.eofed == old(transport.eofed)
                                    && transport.aborted == old(transport.aborted)
                                    && transport.closed == old(transport.closed)
                                    && transport.protocol == old(transport.protocol)
      ensures transport == null ==> toTransmit == old(toTransmit) + data
    {
      if transport != null {
        transport.Write(data);
      } else {
        toTransmit := toTransmit + data;
      }
    }
  }

  /** Bytes written before and after the transport attaches reach its buffer
      in write order, exactly once each. */
  method WriteOrderAcrossAttach(early: Bytes, late: Bytes) returns (p: MockProtocol, t: MockTransport)
    ensures p.transport == t && t.buffer == early + late
  {
    p := new MockProtocol();
    p.Write(early);
    t := new MockTransport();
    p.ConnectionMade(t);
    p.Write(late);
  }

  /** Because the pending bytes are never cleared, a protocol attached to a
      second transport sends the early bytes to it as well. */
  method ReattachResends(early: Bytes) returns (first: MockTransport, second: MockTransport)
    ensures first.buffer == early && second.buffer == early
  {
    var p := new MockProtocol();
    p.Write(early);
    first := new MockTransport();
    p.ConnectionMade(first);
    second := new MockTransport();
    p.ConnectionMade(second);
  }
}
