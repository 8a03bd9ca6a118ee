/** BitsetView: which ids are filtered out. A view may map internal ids to bit positions
    (`outIds`) and may be offset into a shared bitset. Counting and first-valid search scan
    64-bit words and then bytes; the meaning is given by `Test`, one bit at a time.
 */
module Bitset {
  import opened Bits
  import opened Options

  // ---------------------------------------------------------------------------
  // Byte popcount
  // ---------------------------------------------------------------------------

  /** The lambda popcount8: pairwise, then nibble-wise, then byte-wise sums. */
  function Popcount8(b: byte): byte {
    var x1 := (b & 0x55) + ((b >> 1) & 0x55);
    var x2 := (x1 & 0x33) + ((x1 >> 2) & 0x33);
    (x2 & 0x0F) + ((x2 >> 4) & 0x0F)
  }

  function One(b: byte, j: nat): byte
    requires j < 8
  {
    if BitOf(b, j) then 1 else 0
  }

  /** Adding one bit in byte arithmetic is adding it in the integers while the byte has room. */
  lemma AddBit(c: byte, bit: bool)
    requires c as int < 255
    ensures (c + (if bit then 1 else 0)) as int == c as int + (if bit then 1 else 0)
  {
  }

  /** The first n bits added up in byte arithmetic. */
  function Ones(b: byte, n: nat): byte
    requires n <= 8
  {
    if n == 0 then 0 else Ones(b, n - 1) + One(b, n - 1)
  }

  lemma {:induction false} OnesCount(b: byte, n: nat)
    requires n <= 8
    ensures Ones(b, n) as int == Popcount(ByteBits(b)[..n])
  {
    if n > 0 {
      OnesCount(b, n - 1);
      AddOne(b, Ones(b, n - 1), n - 1);
    }
  }

  lemma OnesStep(b: byte, n: nat)
    requires n < 8
    ensures Ones(b, n + 1) == Ones(b, n) + One(b, n) && (n == 0 ==> Ones(b, n + 1) == One(b, n))
  {
  }

  /** All shifts and masks of the folding trick at once. */
  lemma Popcount8Folds(b: byte)
    ensures Popcount8(b) == Ones(b, 8)
  {
    OnesStep(b, 0);
    OnesStep(b, 1);
    OnesStep(b, 2);
    OnesStep(b, 3);
    OnesStep(b, 4);
    OnesStep(b, 5);
    OnesStep(b, 6);
    OnesStep(b, 7);
  }

  lemma AddOne(b: byte, c: byte, j: nat)
    requires j < 8 && c as int == Popcount(ByteBits(b)[..j])
    ensures (c + One(b, j)) as int == Popcount(ByteBits(b)[..j + 1])
  {
    var bits := ByteBits(b);
    assert bits[..j + 1][..j] == bits[..j];
    PopcountZero(bits[..j]);
    AddBit(c, bits[j]);
  }

  /** The folding trick counts the set bits of a byte. */
  lemma Popcount8Counts(b: byte)
    ensures Popcount8(b) as int == Popcount(ByteBits(b))
  {
    Popcount8Folds(b);
    OnesCount(b, 8);
    assert ByteBits(b)[..8] == ByteBits(b);
  }

  // ---------------------------------------------------------------------------
  // Word-wise scans of raw bits
  // ---------------------------------------------------------------------------

  /** The least clear bit, if any. */
  function FirstClear(s: seq<bool>): (r: Option<nat>)
    ensures r.Some? ==> r.value < |s| && !s[r.value] && forall i :: 0 <= i < r.value ==> s[i]
    ensures r.None? ==> forall i :: 0 <= i < |s| ==> s[i]
  {
    if |s| == 0 then None
    else
      var r := FirstClear(s[..|s| - 1]);
      if r.Some? then r else if s[|s| - 1] then None else Some(|s| - 1)
  }

  function Shifted(r: Option<nat>, k: nat): Option<nat> {
    if r.Some? then Some(k + r.value) else None
  }

  lemma {:induction false} FirstClearConcat(a: seq<bool>, b: seq<bool>)
    ensures FirstClear(a + b) == if FirstClear(a).Some? then FirstClear(a) else Shifted(FirstClear(b), |a|)
  {
    if |b| == 0 {
      assert a + b == a;
    } else {
      assert (a + b)[..|a + b| - 1] == a + b[..|b| - 1];
      FirstClearConcat(a, b[..|b| - 1]);
    }
  }

  function Count(bits: seq<byte>): nat {
    Popcount(Load(bits))
  }

  function FirstClearIn(bits: seq<byte>): Option<nat> {
    FirstClear(Load(bits))
  }

  lemma CountStep(bits: seq<byte>, lo: nat, hi: nat)
    requires lo <= hi <= |bits|
    ensures Count(bits[..hi]) == Count(bits[..lo]) + Count(bits[lo..hi])
  {
    assert bits[..hi] == bits[..lo] + bits[lo..hi];
    LoadConcat(bits[..lo], bits[lo..hi]);
    PopcountConcat(Load(bits[..lo]), Load(bits[lo..hi]));
  }

  lemma FirstClearStep(bits: seq<byte>, lo: nat, hi: nat)
    requires lo <= hi <= |bits|
    ensures FirstClearIn(bits[..hi])
         == if FirstClearIn(bits[..lo]).Some? then FirstClearIn(bits[..lo])
           else Shifted(FirstClearIn(bits[lo..hi]), 8 * lo)
  {
    assert bits[..hi] == bits[..lo] + bits[lo..hi];
    LoadConcat(bits[..lo], bits[lo..hi]);
    FirstClearConcat(Load(bits[..lo]), Load(bits[lo..hi]));
  }

  /** A clear bit found in a prefix is the first clear bit of the whole. */
  lemma FirstClearPrefix(bits: seq<byte>, n: nat)
    requires n <= |bits| && FirstClearIn(bits[..n]).Some?
    ensures FirstClearIn(bits) == FirstClearIn(bits[..n])
  {
    FirstClearStep(bits, n, |bits|);
    assert bits[..|bits|] == bits;
  }

  lemma OneByte(bits: seq<byte>, i: nat)
    requires i < |bits|
    ensures Load(bits[i..i + 1]) == ByteBits(bits[i])
  {
    assert bits[i..i + 1][..0] == [];
    assert bits[i..i + 1][0] == bits[i];
  }

  /** popcount64 of one word. */
  method CountWord(bits: seq<byte>, at: nat) returns (n: nat)
    requires at + 8 <= |bits|
    ensures Count(bits[..at + 8]) == Count(bits[..at]) + n
  {
    CountStep(bits, at, at + 8);
    n := Popcount(Load(bits[at..at + 8]));
  }

  /** popcount8 of one byte. */
  method CountByte(bits: seq<byte>, at: nat) returns (n: nat)
    requires at < |bits|
    ensures Count(bits[..at + 1]) == Count(bits[..at]) + n
  {
    CountStep(bits, at, at + 1);
    OneByte(bits, at);
    Popcount8Counts(bits[at]);
    n := Popcount8(bits[at]) as int;
  }

  /** The unmapped branch of get_filtered_out_num_: popcount of words, then of bytes. */
  method CountBits(bits: seq<byte>) returns (ret: nat)
    ensures ret == Count(bits)
  {
    ret := 0;
    var words := |bits| / 8;
    for i := 0 to words
      invariant ret == Count(bits[..8 * i])
    {
      var n := CountWord(bits, 8 * i);
      ret := ret + n;
    }
    for i := 8 * words to |bits|
      invariant ret == Count(bits[..i])
    {
      var n := CountByte(bits, i);
      ret := ret + n;
    }
    assert bits[..|bits|] == bits;
  }

  /** The unmapped branch of get_first_valid_index: ctz of the first inverted word that is not
      zero, then of the first such byte. */
  method ScanFirstClear(bits: seq<byte>, numBits: nat) returns (index: nat)
    ensures index == if FirstClearIn(bits).Some? then FirstClearIn(bits).value else numBits
  {
    var words := |bits| / 8;
    var r := ScanWords(bits, words);
    if r.Some? {
      return r.value;
    }
    r := ScanBytes(bits, words);
    index := if r.Some? then r.value else numBits;
  }

  method ScanWords(bits: seq<byte>, words: nat) returns (r: Option<nat>)
    requires 8 * words <= |bits|
    ensures r.Some? ==> r == FirstClearIn(bits)
    ensures r.None? ==> FirstClearIn(bits[..8 * words]).None?
  {
    for i := 0 to words
      invariant FirstClearIn(bits[..8 * i]).None?
    {
      FirstClearStep(bits, 8 * i, 8 * i + 8);
      var hit := FirstClear(Load(bits[8 * i..8 * i + 8]));
      if hit.Some? {
        FirstClearPrefix(bits, 8 * i + 8);
        return Some(i * 64 + hit.value);
      }
    }
    r := None;
  }

  method ScanBytes(bits: seq<byte>, words: nat) returns (r: Option<nat>)
    requires 8 * words <= |bits| && FirstClearIn(bits[..8 * words]).None?
    ensures r == FirstClearIn(bits)
  {
    for i := 8 * words to |bits|
      invariant FirstClearIn(bits[..i]).None?
    {
      r := ScanByte(bits, i);
      if r.Some? {
        return;
      }
    }
    assert bits[..|bits|] == bits;
    r := None;
  }

  method ScanByte(bits: seq<byte>, at: nat) returns (r: Option<nat>)
    requires at < |bits| && FirstClearIn(bits[..at]).None?
    ensures r.Some? ==> r == FirstClearIn(bits)
    ensures r.None? ==> FirstClearIn(bits[..at + 1]).None?
  {
    FirstClearByte(bits, at);
    r := Shifted(FirstClear(ByteBits(bits[at])), at * 8);
    if r.Some? {
      FirstClearPrefix(bits, at + 1);
    }
  }

  lemma FirstClearByte(bits: seq<byte>, at: nat)
    requires at < |bits| && FirstClearIn(bits[..at]).None?
    ensures FirstClearIn(bits[..at + 1]) == Shifted(FirstClear(ByteBits(bits[at])), at * 8)
  {
    OneByte(bits, at);
    FirstClearStep(bits, at, at + 1);
  }

  // ---------------------------------------------------------------------------
  // Views
  // ---------------------------------------------------------------------------

  function ByteSize(numBits: nat): nat {
    (numBits + 7) / 8
  }

  /** BitsetView::test on the view's parts: positions past the end count as filtered out. */
  predicate TestParts(bits: seq<byte>, numBits: nat, idOffset: nat, outIds: Option<seq<nat>>, index: nat)
    requires ByteSize(numBits) <= |bits|
    requires outIds.Some? ==> index + idOffset < |outIds.value|
  {
    var outId := if outIds.Some? then outIds.value[index + idOffset] else index + idOffset;
    outId >= numBits || TestBit(bits, outId)
  }

  /** How many of the first n positions are filtered out. */
  function TestCount(bits: seq<byte>, numBits: nat, idOffset: nat, outIds: Option<seq<nat>>, n: nat): nat
    requires ByteSize(numBits) <= |bits|
    requires outIds.Some? ==> n + idOffset <= |outIds.value|
  {
    if n == 0 then 0
    else
      TestCount(bits, numBits, idOffset, outIds, n - 1)
      + (if TestParts(bits, numBits, idOffset, outIds, n - 1) then 1 else 0)
  }

  class BitsetView {
    var bits: seq<byte>
    var numBits: nat
    var numFilteredOutBits: nat
    var idOffset: nat
    var outIds: Option<seq<nat>>
    var numInternalIds: nat
    var numFilteredOutIds: nat

    ghost predicate Valid()
      reads this
    {
      ByteSize(numBits) <= |bits| && (outIds.Some? ==> numInternalIds + idOffset <= |outIds.value|)
    }

    constructor (bits: seq<byte>, numBits: nat, numFilteredOutBits: nat, idOffset: nat)
      ensures Valid() <==> ByteSize(numBits) <= |bits|
      ensures this.bits == bits && this.numBits == numBits && this.idOffset == idOffset && outIds == None
      ensures this.numFilteredOutBits == numFilteredOutBits
    {
      this.bits, this.numBits, this.numFilteredOutBits, this.idOffset := bits, numBits, numFilteredOutBits, idOffset;
      outIds, numInternalIds, numFilteredOutIds := None, 0, 0;
    }

    predicate Test(index: nat)
      requires Valid() && (outIds.Some? ==> index + idOffset < |outIds.value|)
      reads this
    {
      TestParts(bits, numBits, idOffset, outIds, index)
    }

    function Size(): nat
      reads this
    {
      if outIds.Some? then numInternalIds else numBits
    }

    function FilteredCount(): nat
      reads this
    {
      if outIds.Some? then numFilteredOutIds else numFilteredOutBits
    }

    /** get_filtered_out_num_: id by id when mapped, otherwise every set bit of the bytes in use. */
    method FilteredOutNum() returns (ret: nat)
      requires Valid()
      ensures numBits == 0 ==> ret == 0
      ensures numBits > 0 && outIds.Some? ==> ret == TestCount(bits, numBits, idOffset, outIds, numInternalIds)
      ensures numBits > 0 && outIds.None? ==> ret == Count(bits[..ByteSize(numBits)])
    {
      if numBits == 0 {
        return 0;
      }
      if outIds.Some? {
        ret := 0;
        for i := 0 to numInternalIds
          invariant ret == TestCount(bits, numBits, idOffset, outIds, i)
        {
          if Test(i) {
            ret := ret + 1;
          }
        }
      } else {
        ret := CountBits(bits[..ByteSize(numBits)]);
      }
    }

    /** get_first_valid_index */
    method FirstValidIndex() returns (ret: nat)
      requires Valid()
      ensures outIds.Some? ==>
                ret <= numInternalIds && (forall i :: 0 <= i < ret ==> Test(i)) && (ret < numInternalIds ==> !Test(ret))
      ensures outIds.None? ==>
        var first := FirstClearIn(bits[..ByteSize(numBits)]);
        ret == if first.Some? then first.value else numBits
    {
      if outIds.Some? {
        for i := 0 to numInternalIds
          invariant forall k :: 0 <= k < i ==> Test(k)
        {
          if !Test(i) {
            return i;
          }
        }
        return numInternalIds;
      }
      ret := ScanFirstClear(bits[..ByteSize(numBits)], numBits);
    }

    /** set_out_ids: a count of zero means "not provided" and is computed. */
    method SetOutIds(ids: seq<nat>, internalIds: nat, filteredOutIds: nat)
      requires Valid() && internalIds + idOffset <= |ids|
      modifies this
      ensures Valid() && outIds == Some(ids) && numInternalIds == internalIds
      ensures bits == old(bits) && numBits == old(numBits) && idOffset == old(idOffset)
      ensures numFilteredOutBits == old(numFilteredOutBits)
      ensures numFilteredOutIds == if filteredOutIds > 0 then filteredOutIds
                                   else if numBits == 0 then 0
                                   else TestCount(bits, numBits, idOffset, Some(ids), internalIds)
    {
      outIds, numInternalIds := Some(ids), internalIds;
      if filteredOutIds > 0 {
        numFilteredOutIds := filteredOutIds;
      } else {
        numFilteredOutIds := FilteredOutNum();
      }
    }

    /** The view Index::Search hands down: rebuilt from data and size when the count is zero. The
        rebuilt view may not cover its own size; where it does, it filters the same ids exactly
        under the conditions stated. */
    method ForSearch() returns (view: BitsetView)
      requires Valid()
      ensures outIds.Some? && numFilteredOutIds > 0 ==> view == this
      ensures outIds.None? && numFilteredOutBits > 0 ==> view == this
      ensures FilteredCount() != 0 ==> view == this
      ensures FilteredCount() == 0 ==>
        fresh(view) && view.bits == bits && view.numBits == Size() && view.idOffset == 0 && view.outIds == None
      ensures FilteredCount() == 0 ==> (view.Valid() <==> ByteSize(Size()) <= |bits|)
      ensures FilteredCount() == 0 && outIds.None? ==>
        view.Valid() && ((forall i: nat :: view.Test(i) == Test(i)) <==> idOffset == 0 || AllSet(bits, numBits))
      ensures FilteredCount() == 0 && outIds.Some? && view.Valid() && numBits == 0 ==>
        ((forall i: nat :: i < numInternalIds ==> view.Test(i) == Test(i)) <==> AllSet(bits, numInternalIds))
      ensures FilteredCount() == 0 && outIds.Some? && view.Valid()
              && TestCount(bits, numBits, idOffset, outIds, numInternalIds) == 0 ==>
        ((forall i: nat :: i < numInternalIds ==> view.Test(i) == Test(i)) <==> NoneSet(bits, numInternalIds))
    {
      if FilteredCount() == 0 {
        var filtered := FilteredOutNum();
        view := new BitsetView(bits, Size(), filtered, 0);
        ghost var n := Size();
        assert outIds.None? ==>
          forall i: nat :: view.Test(i) == TestParts(bits, n, 0, None, i)
            && Test(i) == TestParts(bits, n, idOffset, None, i);
        assert view.Valid() && outIds.Some? ==> forall i: nat :: i < n ==>
          view.Test(i) == TestParts(bits, n, 0, None, i) && Test(i) == TestParts(bits, numBits, idOffset, outIds, i);
        if outIds.None? {
          RebuildUnmapped(bits, numBits, idOffset);
          assert (forall i: nat :: view.Test(i) == Test(i)) <==> SameUnmapped(bits, numBits, idOffset);
        } else if ByteSize(Size()) <= |bits| {
          RebuildMapped(bits, numBits, idOffset, outIds.value, numInternalIds);
          assert (forall i: nat :: i < n ==> view.Test(i) == Test(i))
            <==> SameMapped(bits, numBits, idOffset, outIds.value, n);
        }
      } else {
        view := this;
      }
    }
  }

  // ---------------------------------------------------------------------------
  // When a rebuilt view filters the same ids
  // ---------------------------------------------------------------------------

  ghost predicate AllSet(bits: seq<byte>, n: nat)
    requires ByteSize(n) <= |bits|
  {
    forall i: nat :: i < n ==> TestBit(bits, i)
  }

  ghost predicate NoneSet(bits: seq<byte>, n: nat)
    requires ByteSize(n) <= |bits|
  {
    forall i: nat :: i < n ==> !TestBit(bits, i)
  }

  /** The two views agree on every id. */
  ghost predicate SameUnmapped(bits: seq<byte>, numBits: nat, idOffset: nat)
    requires ByteSize(numBits) <= |bits|
  {
    forall i: nat :: TestParts(bits, numBits, 0, None, i) == TestParts(bits, numBits, idOffset, None, i)
  }

  /** A clear bit would have to repeat every `idOffset` positions, past the end. */
  lemma {:induction false} ClearBitRepeats(bits: seq<byte>, numBits: nat, idOffset: nat, i: nat)
    requires ByteSize(numBits) <= |bits| && idOffset > 0 && i < numBits && SameUnmapped(bits, numBits, idOffset)
    ensures TestBit(bits, i)
    decreases numBits - i
  {
    assert TestParts(bits, numBits, 0, None, i) == TestParts(bits, numBits, idOffset, None, i);
    if i + idOffset < numBits {
      ClearBitRepeats(bits, numBits, idOffset, i + idOffset);
    }
  }

  /** Without a mapping the rebuilt view filters the same ids exactly when there was no offset
      or everything is filtered anyway. */
  lemma RebuildUnmapped(bits: seq<byte>, numBits: nat, idOffset: nat)
    requires ByteSize(numBits) <= |bits|
    ensures SameUnmapped(bits, numBits, idOffset) <==> idOffset == 0 || AllSet(bits, numBits)
  {
    if SameUnmapped(bits, numBits, idOffset) && idOffset > 0 {
      forall i: nat | i < numBits ensures TestBit(bits, i) {
        ClearBitRepeats(bits, numBits, idOffset, i);
      }
    }
  }

  ghost predicate SameMapped(bits: seq<byte>, numBits: nat, idOffset: nat, ids: seq<nat>, n: nat)
    requires ByteSize(numBits) <= |bits| && ByteSize(n) <= |bits| && n + idOffset <= |ids|
  {
    forall i: nat :: i < n ==> TestParts(bits, n, 0, None, i) == TestParts(bits, numBits, idOffset, Some(ids), i)
  }

  /** A count of zero means that every id passes. */
  lemma {:induction false} NoneCounted(bits: seq<byte>, numBits: nat, idOffset: nat, ids: seq<nat>, n: nat, i: nat)
    requires ByteSize(numBits) <= |bits| && n + idOffset <= |ids| && i < n
    requires TestCount(bits, numBits, idOffset, Some(ids), n) == 0
    ensures !TestParts(bits, numBits, idOffset, Some(ids), i)
  {
    if i < n - 1 {
      NoneCounted(bits, numBits, idOffset, ids, n - 1, i);
    }
  }

  /** With a mapping and no filtered id the rebuilt view agrees exactly when no raw bit below its
      size is set; an empty bitset filters every id yet counts none, and then the rebuilt view
      agrees exactly when all of those bits are set. */
  lemma RebuildMapped(bits: seq<byte>, numBits: nat, idOffset: nat, ids: seq<nat>, n: nat)
    requires ByteSize(numBits) <= |bits| && ByteSize(n) <= |bits| && n + idOffset <= |ids|
    ensures TestCount(bits, numBits, idOffset, Some(ids), n) == 0 ==>
              (SameMapped(bits, numBits, idOffset, ids, n) <==> NoneSet(bits, n))
    ensures numBits == 0 ==> (SameMapped(bits, numBits, idOffset, ids, n) <==> AllSet(bits, n))
  {
    forall i: nat | i < n ensures TestParts(bits, n, 0, None, i) == TestBit(bits, i) {
    }
    if TestCount(bits, numBits, idOffset, Some(ids), n) == 0 {
      forall i: nat | i < n ensures !TestParts(bits, numBits, idOffset, Some(ids), i) {
        NoneCounted(bits, numBits, idOffset, ids, n, i);
      }
    }
  }

  /** Every id below n is read inside the buffer exactly when the buffer covers n bits. */
  lemma ReadsInBounds(bits: seq<byte>, n: nat)
    ensures (forall i: nat :: i < n ==> i / 8 < |bits|) <==> ByteSize(n) <= |bits|
  {
    if n > 0 {
      assert (n - 1) / 8 + 1 == ByteSize(n);
      if ByteSize(n) <= |bits| {
        forall i: nat | i < n ensures i / 8 < |bits| {
        }
      } else {
        var last: nat := n - 1;
        assert !(last / 8 < |bits|);
      }
    }
  }

  // ---------------------------------------------------------------------------
  // When the fast scans agree with Test
  // ---------------------------------------------------------------------------

  ghost predicate PaddingClear(bits: seq<byte>, numBits: nat)
    requires ByteSize(numBits) <= |bits|
  {
    forall i :: numBits <= i < 8 * ByteSize(numBits) ==> !TestBit(bits, i)
  }

  lemma LoadPrefixAt(bits: seq<byte>, n: nat, i: nat)
    requires n <= |bits| && i < 8 * n
    ensures Load(bits[..n])[i] == TestBit(bits, i)
  {
    LoadAt(bits[..n], i);
  }

  lemma {:induction false} TestCountIsPopcount(bits: seq<byte>, numBits: nat, n: nat)
    requires ByteSize(numBits) <= |bits| && n <= numBits
    ensures TestCount(bits, numBits, 0, None, n) == Popcount(Load(bits[..ByteSize(numBits)])[..n])
  {
    if n > 0 {
      TestCountIsPopcount(bits, numBits, n - 1);
      var all := Load(bits[..ByteSize(numBits)]);
      assert all[..n][..n - 1] == all[..n - 1];
      LoadPrefixAt(bits, ByteSize(numBits), n - 1);
    }
  }

  /** The word-wise count is the number of filtered positions exactly when the padding bits of
      the last byte are clear. */
  lemma CountExact(bits: seq<byte>, numBits: nat)
    requires ByteSize(numBits) <= |bits|
    ensures Count(bits[..ByteSize(numBits)]) == TestCount(bits, numBits, 0, None, numBits)
       <==> PaddingClear(bits, numBits)
  {
    var n := ByteSize(numBits);
    var all := Load(bits[..n]);
    TestCountIsPopcount(bits, numBits, numBits);
    PopcountConcat(all[..numBits], all[numBits..]);
    assert all[..numBits] + all[numBits..] == all;
    PopcountZero(all[numBits..]);
    forall i | numBits <= i < 8 * n ensures TestBit(bits, i) == all[numBits..][i - numBits] {
      LoadPrefixAt(bits, n, i);
    }
    if PaddingClear(bits, numBits) {
      forall i | 0 <= i < |all[numBits..]| ensures !all[numBits..][i] {
        assert !TestBit(bits, numBits + i);
      }
    }
  }

  /** What get_first_valid_index promises: the least position that passes, or the size. */
  ghost predicate IsFirstValid(bits: seq<byte>, numBits: nat, r: nat)
    requires ByteSize(numBits) <= |bits|
  {
    && r <= numBits
    && (forall i :: 0 <= i < r ==> TestBit(bits, i))
    && (r < numBits ==> !TestBit(bits, r))
  }

  /** The word-wise search keeps that promise exactly when some position passes, or the first
      padding bit is clear, or no padding bit is. */
  lemma FirstValidExact(bits: seq<byte>, numBits: nat)
    requires ByteSize(numBits) <= |bits|
    ensures
      var n := 8 * ByteSize(numBits);
      var first := FirstClearIn(bits[..ByteSize(numBits)]);
      IsFirstValid(bits, numBits, if first.Some? then first.value else numBits)
      <==> (exists i :: 0 <= i < numBits && !TestBit(bits, i))
           || (numBits < n && !TestBit(bits, numBits))
           || (forall i :: numBits <= i < n ==> TestBit(bits, i))
  {
    var n := ByteSize(numBits);
    var all := Load(bits[..n]);
    assert |all| == 8 * n >= numBits;
    forall i | 0 <= i < 8 * n ensures all[i] == TestBit(bits, i) {
      LoadPrefixAt(bits, n, i);
    }
    var first := FirstClear(all);
    if first.Some? && first.value > numBits {
      assert TestBit(bits, numBits) == all[numBits];
      assert TestBit(bits, first.value) == all[first.value];
    }
  }

  /** With an id mapping the rebuilt view can filter out an id the original lets through. */
  lemma RebuildIgnoresMapping()
    ensures !TestParts([0x01], 2, 0, Some([1]), 0)
    ensures TestCount([0x01], 2, 0, Some([1]), 1) == 0
    ensures TestParts([0x01], 1, 0, None, 0)
  {
    assert TestCount([0x01], 2, 0, Some([1]), 1)
        == TestCount([0x01], 2, 0, Some([1]), 0) + (if TestParts([0x01], 2, 0, Some([1]), 0) then 1 else 0);
  }

  /** With an offset it can let through an id the original filters out. */
  lemma RebuildIgnoresOffset()
    ensures TestParts([0x02], 2, 1, None, 0) && !TestParts([0x02], 2, 0, None, 0)
    ensures !SameUnmapped([0x02], 2, 1)
  {
    assert TestParts([0x02], 2, 1, None, 0) != TestParts([0x02], 2, 0, None, 0);
  }
}
