/** A stream connection whose octets arrive in arbitrary fragments. */
module Connection {
  import opened Bytes
  import opened Wire

  function Flatten(fragments: seq<seq<Byte>>): seq<Byte> {
    if fragments == [] then [] else fragments[0] + Flatten(fragments[1..])
  }

  /** Moving a piece of the first fragment to what was read keeps the stream. */
  lemma TakeFirst(got: seq<Byte>, piece: seq<Byte>, left: seq<Byte>, fragments: seq<seq<Byte>>)
    requires fragments != [] && fragments[0] == piece + left
    ensures var after := if left == [] then fragments[1..] else [left] + fragments[1..];
            got + piece + Flatten(after) == got + Flatten(fragments)
  {
    var more := Flatten(fragments[1..]);
    assert [left] + fragments[1..] != [] && ([left] + fragments[1..])[1..] == fragments[1..];
    assert got + piece + (left + more) == got + (piece + left + more);
  }

  class Conn {
    /** What the peer has sent and this side has not read, cut as single reads will deliver it. */
    var fragments: seq<seq<Byte>>
    /** What this side has sent. */
    var sent: seq<Byte>
    /** How many more writes succeed before the connection breaks. */
    var writes: nat

    constructor (fragments: seq<seq<Byte>>, writes: nat)
      ensures this.fragments == fragments && this.sent == [] && this.writes == writes
    {
      this.fragments, this.sent, this.writes := fragments, [], writes;
    }

    ghost function Unread(): seq<Byte>
      reads this
    {
      Flatten(fragments)
    }

    /** readExactly: io.ReadFull keeps reading until the buffer is full or the stream ends. */
    method ReadExactly(size: nat) returns (buf: Option<seq<Byte>>)
      modifies this`fragments
      ensures match Exactly(old(Unread()), size)
              case None => buf == None && Unread() == []
              case Some(Chunk(bytes, rest)) => buf == Some(bytes) && Unread() == rest
    {
      var got: seq<Byte> := [];
      while |got| < size
        invariant |got| <= size
        invariant got + Unread() == old(Unread())
        decreases size - |got|, |fragments|
      {
        if fragments == [] {
          return None;
        }
        var n := if |fragments[0]| <= size - |got| then |fragments[0]| else size - |got|;
        var piece, left := fragments[0][..n], fragments[0][n..];
        TakeFirst(got, piece, left, fragments);
        got := got + piece;
        fragments := if left == [] then fragments[1..] else [left] + fragments[1..];
      }
      ExactlyOf(got, Unread());
      return Some(got);
    }

    method Write(b: seq<Byte>) returns (ok: bool)
      modifies this`sent, this`writes
      ensures ok <==> 0 < old(writes)
      ensures ok ==> sent == old(sent) + b && writes == old(writes) - 1
      ensures !ok ==> sent == old(sent) && writes == 0
    {
      if writes == 0 {
        return false;
      }
      sent, writes := sent + b, writes - 1;
      return true;
    }
  }
}
