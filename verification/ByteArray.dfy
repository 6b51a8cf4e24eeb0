/** byte_array.cc: a read cursor over given bytes and a byte sink that grows by
    doubling.  Allocation succeeds, and sizes do not reach the limits of size_t. */
module ByteArray {
  import opened Octets

  class ReadableByteArray {
    const bytes: seq<byte>
    var cur: nat

    ghost predicate Valid()
      reads this
    {
      cur <= |bytes|
    }

    /** What has not been read yet. */
    ghost function Rest(): seq<byte>
      requires Valid()
      reads this
    {
      bytes[cur..]
    }

    constructor (data: seq<byte>)
      ensures Valid() && Rest() == data && bytes == data && cur == 0
    {
      bytes, cur := data, 0;
    }

    /** `read`: the next `size` bytes, or false and nothing moves. */
    method Read(size: nat) returns (ok: bool, data: seq<byte>)
      requires Valid()
      modifies this
      ensures Valid() && (ok <==> size <= |old(Rest())|)
      ensures ok ==> data == old(Rest())[..size] && Rest() == old(Rest())[size..] && cur == old(cur) + size
      ensures !ok ==> data == [] && Rest() == old(Rest())
    {
      if cur + size > |bytes| {
        return false, [];
      }
      data := bytes[cur..cur + size];
      cur := cur + size;
      ok := true;
    }

    method Remain() returns (data: seq<byte>)
      requires Valid()
      ensures data == Rest()
    {
      data := bytes[cur..];
    }
  }

  const SMALL_BUFFER_SIZE := 128

  class WriteableByteArray {
    var bytes: array<byte>
    var size: nat
    var cur: nat

    ghost predicate Valid()
      reads this
    {
      bytes.Length == size && cur <= size
    }

    ghost function Contents(): seq<byte>
      requires Valid()
      reads this, bytes
    {
      bytes[..cur]
    }

    /** With `userFree` the first buffer is allocated on demand; otherwise it is the
        small one inside the object. */
    constructor (userFree: bool)
      ensures Valid() && Contents() == [] && fresh(bytes) && size == if userFree then 0 else 128
    {
      var capacity := if userFree then 0 else SMALL_BUFFER_SIZE;
      bytes := new byte[capacity](_ => 0);
      size, cur := capacity, 0;
    }

    /** Room for n more bytes, from address addr on.  What was written before is still
        there, in the old buffer or copied into one at least twice as large. */
    method Allocate(n: nat) returns (addr: nat)
      requires Valid()
      modifies this
      ensures Valid() && addr == old(cur) && cur == old(cur) + n
      ensures bytes[..addr] == old(Contents())
      ensures bytes == old(bytes) || (fresh(bytes) && size >= 2 * old(size))
      ensures bytes == old(bytes) <==> old(cur) + n <= old(size)
      ensures bytes != old(bytes) && size != 2 * (if old(size) == 0 then SMALL_BUFFER_SIZE else old(size)) ==> size < 2 * cur
    {
      if cur + n > size {
        if size == 0 {
          size := SMALL_BUFFER_SIZE;
        }
        var next := size * 2;
        while cur + n > next
          invariant next >= size * 2 && next >= 1 && (next == size * 2 || next < 2 * (cur + n))
          decreases cur + n - next
        {
          next := next * 2;
        }
        var buffer := new byte[next](_ => 0);
        var k := 0;
        while k < cur
          invariant 0 <= k <= cur && size == (if old(size) == 0 then SMALL_BUFFER_SIZE else old(size))
          invariant bytes == old(bytes) && cur == old(cur) && buffer[..k] == bytes[..k]
          modifies buffer
        {
          buffer[k] := bytes[k];
          k := k + 1;
        }
        bytes := buffer;
        size := next;
      }
      addr := cur;
      cur := cur + n;
    }

    /** `write`: the sink holds what it held, and then the data. */
    method Write(data: seq<byte>)
      requires Valid()
      modifies this, bytes
      ensures Valid() && Contents() == old(Contents()) + data
      ensures bytes == old(bytes) || fresh(bytes)
    {
      var addr := Allocate(|data|);
      ghost var before := bytes[..addr];
      var k := 0;
      while k < |data|
        invariant 0 <= k <= |data| && Valid() && cur == addr + |data|
        invariant bytes[..addr] == before && bytes[addr..addr + k] == data[..k]
        modifies bytes
      {
        bytes[addr + k] := data[k];
        k := k + 1;
      }
      assert bytes[..cur] == bytes[..addr] + bytes[addr..addr + k];
    }

    method Data() returns (data: seq<byte>)
      requires Valid()
      ensures data == Contents()
    {
      data := bytes[..cur];
    }
  }
}
