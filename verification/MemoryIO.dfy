/** MemoryIOWriter and MemoryIOReader: a growable byte buffer and a cursor over one. Sizes are
    unbounded here.
 */
module MemoryIO {
  import opened Arith
  import opened Bits

  const MAGIC_NUM := 2

  class MemoryIOWriter {
    var data: array?<byte>
    var total: nat
    var rp: nat
    /** Bytes copied by regrowing so far. */
    ghost var moved: nat

    /** Besides the shape: everything ever moved fits the current buffer, which is never more
        than twice what has been written. */
    ghost predicate Valid()
      reads this
    {
      && (data == null ==> total == 0 && rp == 0 && moved == 0)
      && (data != null ==> data.Length == total && rp <= total && moved <= total <= MAGIC_NUM * rp)
    }

    ghost function Contents(): (s: seq<byte>)
      requires Valid()
      reads this, data
      ensures |s| == rp
    {
      if data == null then [] else data[..rp]
    }

    constructor ()
      ensures Valid() && data == null && Contents() == []
    {
      data, total, rp, moved := null, 0, 0, 0;
    }

    /** operator(): appends size * nitems bytes, doubling the need when the buffer is too small. */
    method Write(src: seq<byte>, size: nat, nitems: nat) returns (written: nat)
      requires Valid() && |src| == size * nitems
      modifies this, data
      ensures Valid() && written == nitems
      ensures Contents() == old(Contents()) + src
      ensures data == null || data == old(data) || fresh(data)
    {
      var totalNeed := |src| + rp;
      if data == null {
        total := totalNeed * MAGIC_NUM;
        rp := |src|;
        data := new byte[total](_ => 0);
        CopyIn(data, 0, src);
        assert data[..rp] == data[0..|src|];
        return nitems;
      }
      ghost var before := data[..rp];
      if totalNeed > total {
        total := totalNeed * MAGIC_NUM;
        var grown := new byte[total](_ => 0);
        CopyIn(grown, 0, data[..rp]);
        moved := moved + rp;
        data := grown;
        assert data[..rp] == data[0..rp];
      }
      assert data[..rp] == before;
      CopyIn(data, rp, src);
      rp := totalNeed;
      assert data[..rp] == before + src;
      written := nitems;
    }
  }

  /** memcpy into a buffer. */
  method CopyIn(dst: array<byte>, at: nat, src: seq<byte>)
    requires at + |src| <= dst.Length
    modifies dst
    ensures dst[..at] == old(dst[..at]) && dst[at..at + |src|] == src
    ensures dst[at + |src|..] == old(dst[at + |src|..])
  {
    forall k | 0 <= k < |src| {
      dst[at + k] := src[k];
    }
  }

  /** Regrowing copies at most twice the bytes written, over any sequence of writes. */
  lemma AmortisedMoves(writer: MemoryIOWriter)
    requires writer.Valid()
    ensures writer.moved <= MAGIC_NUM * |writer.Contents()|
  {
  }

  class MemoryIOReader {
    const data: seq<byte>
    const total: nat
    var rp: nat

    ghost predicate Valid() {
      total <= |data|
    }

    constructor (data: seq<byte>, size: nat)
      requires size <= |data|
      ensures Valid() && this.data == data && total == size && rp == 0
    {
      this.data, total, rp := data, size, 0;
    }

    /** operator(): as many whole items as remain, up to the number asked for. */
    method Read(size: nat, nitems: nat) returns (bytes: seq<byte>, count: nat)
      requires Valid() && (rp < total ==> size > 0)
      modifies this`rp
      ensures rp == old(rp) + size * count
      ensures old(rp) >= total ==> bytes == [] && count == 0
      ensures old(rp) < total ==> rp <= total && bytes == data[old(rp)..rp]
      ensures old(rp) < total ==>
                count == if (total - old(rp)) / size < nitems then (total - old(rp)) / size else nitems
    {
      if rp >= total {
        return [], 0;
      }
      count := (total - rp) / size;
      if nitems < count {
        count := nitems;
      }
      MulMono(count, (total - rp) / size, size);
      MulMono(0, count, size);
      assert size * ((total - rp) / size) <= total - rp;
      bytes := data[rp..rp + size * count];
      rp := rp + size * count;
    }

    method Advance(size: nat) returns (at: nat)
      requires Valid()
      modifies this`rp
      ensures rp == at == if old(rp) + size > total then total else old(rp) + size
    {
      rp := rp + size;
      if rp > total {
        rp := total;
      }
      at := rp;
    }
  }

  // ---------------------------------------------------------------------------
  // Round trip
  // ---------------------------------------------------------------------------

  /** One write: nitems items of size bytes each. */
  datatype Item = Item(size: nat, nitems: nat, bytes: seq<byte>)

  predicate WellFormed(item: Item) {
    |item.bytes| == item.size * item.nitems
  }

  /** The reader divides by the item size. */
  predicate Readable(item: Item) {
    WellFormed(item) && item.size > 0
  }

  function Concat(items: seq<Item>): seq<byte> {
    if |items| == 0 then [] else Concat(items[..|items| - 1]) + items[|items| - 1].bytes
  }

  lemma {:induction false} ConcatPrefix(items: seq<Item>, k: nat)
    requires k <= |items|
    ensures Concat(items[..k]) <= Concat(items)
  {
    if k < |items| {
      var n := |items| - 1;
      assert items[..n][..k] == items[..k];
      ConcatPrefix(items[..n], k);
    } else {
      assert items[..k] == items;
    }
  }

  method WriteAll(items: seq<Item>) returns (writer: MemoryIOWriter)
    requires forall k :: 0 <= k < |items| ==> WellFormed(items[k])
    ensures fresh(writer) && writer.Valid() && writer.Contents() == Concat(items)
    ensures writer.moved <= MAGIC_NUM * |Concat(items)|
  {
    writer := new MemoryIOWriter();
    for k := 0 to |items|
      invariant fresh(writer) && writer.Valid() && (writer.data == null || fresh(writer.data))
      invariant writer.Contents() == Concat(items[..k])
    {
      assert items[..k + 1][..k] == items[..k];
      var n := writer.Write(items[k].bytes, items[k].size, items[k].nitems);
    }
    assert items[..|items|] == items;
    AmortisedMoves(writer);
  }

  lemma EnoughLeft(avail: nat, item: Item)
    requires Readable(item) && |item.bytes| <= avail
    ensures avail / item.size >= item.nitems
    ensures avail == 0 ==> item.nitems == 0
  {
    var fits := avail / item.size;
    assert avail == item.size * fits + avail % item.size;
    assert item.size * (fits + 1) == item.size * fits + item.size;
    if fits + 1 <= item.nitems {
      MulMono(fits + 1, item.nitems, item.size);
    }
  }

  /** Reading, at the offset where it was written, an item of known size returns it unchanged. */
  method ReadItem(reader: MemoryIOReader, item: Item) returns (out: Item)
    requires reader.Valid() && Readable(item) && reader.rp + |item.bytes| <= reader.total
    requires reader.data[reader.rp..reader.rp + |item.bytes|] == item.bytes
    modifies reader`rp
    ensures out == item && reader.rp == old(reader.rp) + |item.bytes|
  {
    EnoughLeft(reader.total - reader.rp, item);
    var bytes, count := reader.Read(item.size, item.nitems);
    out := Item(item.size, count, bytes);
  }

  lemma NextSlice(items: seq<Item>, k: nat)
    requires k < |items|
    ensures
      var at := |Concat(items[..k])|;
      && |Concat(items[..k + 1])| == at + |items[k].bytes| <= |Concat(items)|
      && Concat(items)[at..at + |items[k].bytes|] == items[k].bytes
  {
    ConcatPrefix(items, k + 1);
    assert items[..k + 1][..k] == items[..k];
    var at, all := |Concat(items[..k])|, Concat(items);
    assert all[..at + |items[k].bytes|] == Concat(items[..k]) + items[k].bytes;
  }

  /** Writing any items and replaying their sizes over the written bytes returns every one. */
  method RoundTrip(items: seq<Item>) returns (out: seq<Item>)
    requires forall k :: 0 <= k < |items| ==> Readable(items[k])
    ensures out == items
  {
    var writer := WriteAll(items);
    var written := if writer.data == null then [] else writer.data[..writer.rp];
    var reader := new MemoryIOReader(written, |written|);
    out := [];
    for k := 0 to |items|
      invariant reader.Valid() && reader.data == written == Concat(items) && reader.total == |written|
      invariant out == items[..k] && reader.rp == |Concat(items[..k])|
    {
      NextSlice(items, k);
      var item := ReadItem(reader, items[k]);
      out := out + [item];
    }
  }
}
