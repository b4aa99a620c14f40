/**
 * An in-memory byte stream with a current position, and the fixed-width
 * record reads and writes the layers use on it.
 */
module Streams {
  import opened Binary

  /** The bytes of data after writing bytes at position pos (overwriting, then extending). */
  function Overwrite(data: seq<uint8>, pos: nat, bytes: seq<uint8>): (r: seq<uint8>)
    requires pos <= |data|
    ensures |r| == if pos + |bytes| <= |data| then |data| else pos + |bytes|
    ensures r[..pos] == data[..pos]
    ensures r[pos..pos + |bytes|] == bytes
    ensures pos + |bytes| <= |data| ==> r[pos + |bytes|..] == data[pos + |bytes|..]
  {
    data[..pos] + bytes + (if pos + |bytes| < |data| then data[pos + |bytes|..] else [])
  }

  /** Two consecutive writes leave the stream as one write of both blocks would. */
  lemma OverwriteTwice(data: seq<uint8>, pos: nat, a: seq<uint8>, b: seq<uint8>)
    requires pos <= |data|
    ensures Overwrite(Overwrite(data, pos, a), pos + |a|, b) == Overwrite(data, pos, a + b)
  {
  }

  /** The first n bytes of s, or all of s when it is shorter. */
  function Prefix(s: seq<uint8>, n: nat): (r: seq<uint8>)
    ensures |r| == if |s| < n then |s| else n
    ensures r <= s
  {
    if |s| < n then s else s[..n]
  }

  class MemoryStream {
    var Data: seq<uint8>
    var Position: nat

    ghost predicate Valid()
      reads this
    {
      Position <= |Data|
    }

    /** The bytes a read would see next. */
    function Remaining(): (r: seq<uint8>)
      reads this
      requires Valid()
      ensures Data == Data[..Position] + r
    {
      Data[Position..]
    }

    constructor (data: seq<uint8>)
      ensures Valid() && Data == data && Position == 0
    {
      Data := data;
      Position := 0;
    }

    /** Writes bytes at the current position and moves past them. */
    method Write(bytes: seq<uint8>)
      requires Valid()
      modifies this
      ensures Valid()
      ensures Data == Overwrite(old(Data), old(Position), bytes)
      ensures Position == old(Position) + |bytes|
    {
      Data := Overwrite(Data, Position, bytes);
      Position := Position + |bytes|;
    }

    /** Reads up to count bytes: fewer only when the stream ends first. */
    method Read(count: nat) returns (bytes: seq<uint8>)
      requires Valid()
      modifies this
      ensures Valid() && Data == old(Data)
      ensures bytes == Prefix(old(Remaining()), count)
      ensures Position == old(Position) + |bytes|
    {
      bytes := Prefix(Data[Position..], count);
      Position := Position + |bytes|;
    }
  }

  /**
   * Reads one record of the given width. It succeeds only when the whole
   * record was there; a short read still consumes what was left.
   */
  method TryRead(stream: MemoryStream, size: nat) returns (ok: bool, record: seq<uint8>)
    requires stream.Valid()
    modifies stream
    ensures stream.Valid() && stream.Data == old(stream.Data)
    ensures ok <==> size <= |old(stream.Remaining())|
    ensures ok ==> |record| == size && record == old(stream.Remaining())[..size]
    ensures stream.Position == old(stream.Position) + (if ok then size else |old(stream.Remaining())|)
  {
    record := stream.Read(size);
    ok := |record| == size;
  }
}
