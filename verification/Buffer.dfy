/** The connection buffer: one growing array with a read and a write position, refining a byte queue. */
module Buffer {

  const CHEAP_PREPEND: nat := 8
  const INITIAL_SIZE: nat := 1024
  const EXTRA_BUFFER: nat := 65536

  class Buffer {
    var data: array<char>
    var reader: nat
    var writer: nat

    ghost predicate Valid()
      reads this
    {
      CHEAP_PREPEND <= reader <= writer <= data.Length
    }

    /** The bytes that were put in and not taken out, in order. */
    function Contents(): string
      requires Valid()
      reads this, data
    {
      data[reader..writer]
    }

    constructor ()
      ensures Valid() && fresh(data) && Contents() == ""
    {
      data := new char[CHEAP_PREPEND + INITIAL_SIZE];
      reader, writer := CHEAP_PREPEND, CHEAP_PREPEND;
    }

    method Retrieve(n: nat)
      requires Valid()
      modifies this
      ensures Valid() && data == old(data)
      ensures Contents() == if n < |old(Contents())| then old(Contents())[n..] else ""
    {
      if n < writer - reader {
        reader := reader + n;
      } else {
        RetrieveAll();
      }
    }

    method RetrieveAll()
      requires Valid()
      modifies this
      ensures Valid() && data == old(data) && Contents() == ""
    {
      reader, writer := CHEAP_PREPEND, CHEAP_PREPEND;
    }

    /** `retrieveAsString`. */
    method TakeAll() returns (s: string)
      requires Valid()
      modifies this
      ensures Valid() && data == old(data) && s == old(Contents()) && Contents() == ""
    {
      s := data[reader..writer];
      RetrieveAll();
    }

    method Append(s: string)
      requires Valid()
      modifies this, data
      ensures Valid() && (data == old(data) || fresh(data))
      ensures Contents() == old(Contents()) + s
    {
      if data.Length - writer < |s| { MakeSpace(|s|); }
      Fill(s);
    }

    /** The copy into the free end of the array. */
    method Fill(s: string)
      requires Valid() && |s| <= data.Length - writer
      modifies `writer, data
      ensures Valid() && Contents() == old(Contents()) + s
    {
      ghost var was := Contents();
      var w := writer;
      forall i | 0 <= i < |s| { data[w + i] := s[i]; }
      writer := writer + |s|;
      assert data[w..writer] == s;
      assert data[reader..w] == was;
      assert data[reader..writer] == data[reader..w] + data[w..writer];
    }

    /** Make room for `n` more bytes: grow, or move the contents to the front when that is enough. */
    method MakeSpace(n: nat)
      requires Valid() && data.Length - writer < n
      modifies this, data
      ensures Valid() && (data == old(data) || fresh(data))
      ensures Contents() == old(Contents()) && n <= data.Length - writer
      ensures data == old(data) <==> |old(Contents())| + n + CHEAP_PREPEND <= old(data.Length)
      ensures data != old(data) ==> data.Length == old(writer) + n
    {
      if data.Length - writer + reader < n + CHEAP_PREPEND {
        var grown := new char[writer + n];
        forall i | 0 <= i < data.Length { grown[i] := data[i]; }
        assert grown[reader..writer] == data[reader..writer];
        data := grown;
      } else {
        Compact();
      }
    }

    /** The forward copy to the front; source and target may overlap. */
    method Compact()
      requires Valid()
      modifies this, data
      ensures Valid() && data == old(data) && reader == CHEAP_PREPEND && Contents() == old(Contents())
    {
      ghost var was := Contents();
      var readable, i := writer - reader, 0;
      while i < readable
        invariant 0 <= i <= readable && Valid() && data == old(data) && reader == old(reader) && writer == old(writer)
        invariant data[CHEAP_PREPEND..CHEAP_PREPEND + i] == was[..i]
        invariant forall k :: reader + i <= k < writer ==> data[k] == old(data[k])
      {
        data[CHEAP_PREPEND + i] := data[reader + i];
        assert was[..i + 1] == was[..i] + [was[i]];
        assert data[CHEAP_PREPEND..CHEAP_PREPEND + i + 1] == data[CHEAP_PREPEND..CHEAP_PREPEND + i] + [was[i]];
        i := i + 1;
      }
      reader := CHEAP_PREPEND;
      writer := reader + readable;
    }

    /** `readFd` when `readv` delivered the bytes `s`: what fits goes in place, the rest by way of the stack buffer. */
    method ReadFd(s: string)
      requires Valid() && |s| <= data.Length - writer + EXTRA_BUFFER
      modifies this, data
      ensures Valid() && (data == old(data) || fresh(data))
      ensures Contents() == old(Contents()) + s
    {
      var writable := data.Length - writer;
      var first := if |s| <= writable then |s| else writable;
      assert s == s[..first] + s[first..];
      Fill(s[..first]);
      if |s| > writable { Append(s[writable..]); }
    }
  }
}
