/** Readers and writers as the stream functions use them: a reader is the bytes it still has, and
    whether it then ends or fails; a writer takes so many bytes before it fails. */
module Streams {
  import opened Galois

  datatype ReadEnd = Filled | Ended | Broke

  class Reader {
    var rest: seq<byte>
    const broken: bool

    constructor (bytes: seq<byte>, broken: bool)
      ensures rest == bytes && this.broken == broken
    {
      rest, this.broken := bytes, broken;
    }

    // io.ReadFull: fills dst, or says why it could not.
    method ReadFull(dst: array<byte>) returns (n: nat, end: ReadEnd)
      modifies this, dst
      ensures n == if |old(rest)| < dst.Length then |old(rest)| else dst.Length
      ensures rest == old(rest)[n..] && dst[..n] == old(rest)[..n] && dst[n..] == old(dst[n..])
      ensures end == if n == dst.Length then Filled else if broken then Broke else Ended
    {
      n := if |rest| < dst.Length then |rest| else dst.Length;
      for k := 0 to n
        invariant rest == old(rest) && dst[..k] == rest[..k] && dst[k..] == old(dst[k..])
      {
        dst[k] := rest[k];
      }
      end := if n == dst.Length then Filled else if broken then Broke else Ended;
      rest := rest[n..];
    }
  }

  class Writer {
    var written: seq<byte>
    var room: nat

    constructor (room: nat)
      ensures written == [] && this.room == room
    {
      written, this.room := [], room;
    }

    method Write(p: seq<byte>) returns (ok: bool)
      modifies this
      ensures ok <==> |p| <= old(room)
      ensures ok ==> written == old(written) + p && room == old(room) - |p|
      ensures !ok ==> written == old(written) + p[..old(room)] && room == 0
    {
      ok := |p| <= room;
      if ok {
        written, room := written + p, room - |p|;
      } else {
        written, room := written + p[..room], 0;
      }
    }
  }
}
