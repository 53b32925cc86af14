/**
 * Writing at an offset that moves over a buffer. The buffer may be missing,
 * when only the length is asked for, or too short.
 */
module Buffer {
  import opened Wire

  /** Whether n bytes at an offset are written: there is no buffer to overrun, or they fit. */
  predicate Room(data: array?<Byte>, dataLen: nat, off: nat, n: nat) {
    data == null || off + n <= dataLen
  }

  /** The buffer up to `off'` is what it was up to `off`, followed by s. */
  twostate predicate Wrote(data: array?<Byte>, dataLen: nat, off: nat, off': nat, s: seq<Byte>)
    requires data != null ==> dataLen <= data.Length
    reads data
  {
    Room(data, dataLen, off, |s|) ==>
      && off' == off + |s|
      && (data != null ==> data[..off'] == old(data[..off]) + s)
  }

  /** The offset moves on whether or not there was room. */
  method Put(data: array?<Byte>, dataLen: nat, off: nat, s: seq<Byte>) returns (off': nat)
    requires data != null ==> dataLen <= data.Length
    modifies data
    ensures off' == off + |s| && Wrote(data, dataLen, off, off', s)
  {
    off' := off + |s|;
    if data != null && off + |s| <= dataLen {
      forall k | off <= k < off + |s| {
        data[k] := s[k - off];
      }
      assert data[..off'] == old(data[..off]) + s;
    }
  }
}
