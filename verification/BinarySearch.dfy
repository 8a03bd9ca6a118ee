/** u64_binary_search_eq / _ge: the scalar references and the AVX-512 versions, which compare
    eight keys at a time around the midpoint. Chunks are aligned down, so they may start left
    of the current range. The `ge` search runs on 32-bit ints, whose ranges are proof
    obligations here; the `eq` search runs on `intptr_t`.
 */
module BinarySearch {
  import opened Int32

  const CHUNK := 8
  const MAX_SIZE := 0x7FFF_FFFF

  ghost predicate Sorted(s: seq<nat>) {
    forall i, j :: 0 <= i <= j < |s| ==> s[i] <= s[j]
  }

  /** The least index whose key is at least the target, or -1. */
  ghost predicate IsLowerBound(s: seq<nat>, target: nat, r: int) {
    if r == -1 then forall i :: 0 <= i < |s| ==> s[i] < target
    else 0 <= r < |s| && s[r] >= target && forall i :: 0 <= i < r ==> s[i] < target
  }

  /** An index holding the key, or -1 when there is none. */
  ghost predicate IsFound(s: seq<nat>, key: nat, r: int) {
    if r == -1 then key !in s else 0 <= r < |s| && s[r] == key
  }

  /** The first index holding the key, or -1. */
  ghost predicate IsFirst(s: seq<nat>, key: nat, r: int) {
    IsFound(s, key, r) && (r != -1 ==> forall i :: 0 <= i < r ==> s[i] != key)
  }

  lemma FirstUnique(s: seq<nat>, key: nat, a: int, b: int)
    requires IsFirst(s, key, a) && IsFirst(s, key, b)
    ensures a == b
  {
  }

  lemma LowerBoundUnique(s: seq<nat>, target: nat, a: int, b: int)
    requires IsLowerBound(s, target, a) && IsLowerBound(s, target, b)
    ensures a == b
  {
  }

  // ---------------------------------------------------------------------------
  // References
  // ---------------------------------------------------------------------------

  /** u64_binary_search_ge_ref */
  method GeReference(data: seq<nat>, target: nat) returns (result: int32)
    requires Sorted(data) && |data| <= MAX_SIZE
    ensures IsLowerBound(data, target, result)
  {
    result := GeRange(data, target, 0, |data| - 1);
  }

  /** The closing loop of both `ge` searches: everything left of the range is below the
      target, and unless the range reaches the end its last key is not. */
  method GeRange(data: seq<nat>, target: nat, left0: int32, right0: int32) returns (result: int32)
    requires Sorted(data) && |data| <= MAX_SIZE
    requires 0 <= left0 <= right0 + 1 <= |data|
    requires forall i :: 0 <= i < left0 ==> data[i] < target
    requires right0 == |data| - 1 || (left0 <= right0 && data[right0] >= target)
    ensures IsLowerBound(data, target, result)
  {
    var left, right := left0, right0;
    result := -1;
    while left <= right
      invariant 0 <= left <= right + 1 <= |data|
      invariant forall i :: 0 <= i < left ==> data[i] < target
      invariant result == -1 ==> right == |data| - 1 || (left <= right && data[right] >= target)
      invariant result != -1 ==> result == right + 1 < |data| && data[result] >= target
    {
      var mid: int32 := left + (right - left) / 2;
      if data[mid] >= target {
        result := mid;
        right := mid - 1;
      } else {
        left := mid + 1;
      }
    }
  }

  /** u64_binary_search_eq_ref: the leftmost match. */
  method EqReference(data: seq<nat>, target: nat) returns (result: int32)
    requires Sorted(data) && |data| <= MAX_SIZE
    ensures IsFirst(data, target, result)
  {
    var left: int32, right: int32 := 0, |data| - 1;
    result := -1;
    while left <= right
      invariant 0 <= left <= right + 1 <= |data|
      invariant forall i :: 0 <= i < left ==> data[i] < target
      invariant result == -1 ==> forall i :: right < i < |data| ==> data[i] > target
      invariant result != -1 ==> result == right + 1 < |data| && data[result] == target
    {
      var mid: int32 := left + (right - left) / 2;
      if data[mid] < target {
        left := mid + 1;
      } else if target < data[mid] {
        right := mid - 1;
      } else {
        result := mid;
        right := mid - 1;
      }
    }
  }

  // ---------------------------------------------------------------------------
  // AVX-512
  // ---------------------------------------------------------------------------

  /** _mm512_cmpge_epu64_mask against a broadcast target. */
  function GeMask(data: seq<nat>, at: nat, target: nat): (m: seq<bool>)
    requires at + CHUNK <= |data|
    ensures |m| == CHUNK && forall k :: 0 <= k < CHUNK ==> m[k] == (data[at + k] >= target)
  {
    seq(CHUNK, k requires 0 <= k < CHUNK => data[at + k] >= target)
  }

  /** _mm512_cmpeq_epu64_mask */
  function EqMask(data: seq<nat>, at: nat, key: nat): (m: seq<bool>)
    requires at + CHUNK <= |data|
    ensures |m| == CHUNK && forall k :: 0 <= k < CHUNK ==> m[k] == (data[at + k] == key)
  {
    seq(CHUNK, k requires 0 <= k < CHUNK => data[at + k] == key)
  }

  /** __builtin_ctz of a non-zero mask. */
  function Ctz(m: seq<bool>): (k: nat)
    requires true in m
    ensures k < |m| && m[k] && forall i :: 0 <= i < k ==> !m[i]
  {
    if m[0] then 0 else 1 + Ctz(m[1..])
  }

  /** Where the `ge` search puts its chunk: aligned down, clipped to the array and to `left`. */
  function ChunkAt(size: int32, left: int32, mid: int32): int32
    requires 0 <= left <= mid < size
  {
    var aligned: int32 := mid / CHUNK * CHUNK;
    var clipped: int32 := if aligned + CHUNK - 1 >= size then size - CHUNK else aligned;
    if clipped < left then left else clipped
  }

  /** With at least 32 keys left the clipped chunk always fits and leaves room on both sides,
      so the scalar fallback behind the fit test never runs and every step makes progress. */
  lemma ChunkFits(size: int32, left: int32, right: int32)
    requires 0 <= left && right < size && right - left + 1 >= 4 * CHUNK
    ensures
      var mid := left + (right - left) / 2;
      var at := ChunkAt(size, left, mid);
      left <= at && at + CHUNK <= size && at + CHUNK - 1 < right
  {
  }

  /** u64_binary_search_ge_avx512: the same least index as the reference, for every sorted array. */
  method GeAvx512(data: seq<nat>, target: nat) returns (result: int32)
    requires Sorted(data) && |data| <= MAX_SIZE
    ensures IsLowerBound(data, target, result)
  {
    if |data| == 0 {
      return -1;
    }
    var size: int32 := |data|;
    var left: int32, right: int32 := 0, size - 1;
    while right - left + 1 >= CHUNK * 4
      invariant 0 <= left <= right + 1 <= size
      invariant forall i :: 0 <= i < left ==> data[i] < target
      invariant right == size - 1 || (left <= right && data[right] >= target)
      decreases right - left
    {
      var mid: int32 := left + (right - left) / 2;
      var at := ChunkAt(size, left, mid);
      ChunkFits(size, left, right);
      if at + CHUNK <= size {
        var geMask := GeMask(data, at, target);
        if true in geMask {
          ghost var k := Ctz(geMask);
          assert data[at + k] <= data[at + CHUNK - 1];
          right := at + CHUNK - 1;
        } else {
          assert !geMask[CHUNK - 1];
          left := at + CHUNK;
        }
      } else {
        assert false; // the scalar fallback of the source
      }
    }
    result := GeRange(data, target, left, right);
  }

  lemma NoMatch(data: seq<nat>, at: nat, key: nat)
    requires at + CHUNK <= |data| && true !in EqMask(data, at, key)
    ensures forall i :: at <= i < at + CHUNK ==> data[i] != key
  {
    forall i | at <= i < at + CHUNK ensures data[i] != key {
      assert EqMask(data, at, key)[i - at] == (data[at + (i - at)] == key);
    }
  }

  lemma FirstInChunk(arr: seq<nat>, at: nat, key: nat)
    requires at + CHUNK <= |arr| && key !in arr[..at] && true in EqMask(arr, at, key)
    ensures IsFirst(arr, key, at + Ctz(EqMask(arr, at, key)))
  {
    var k := Ctz(EqMask(arr, at, key));
    forall i | 0 <= i < at + k ensures arr[i] != key {
      if i < at {
        assert arr[i] == arr[..at][i];
      } else {
        assert !EqMask(arr, at, key)[i - at];
      }
    }
  }

  /** Small arrays: whole chunks, then single keys. */
  method EqLinear(arr: seq<nat>, key: nat) returns (result: int)
    ensures IsFirst(arr, key, result)
  {
    var i: nat := 0;
    while i + CHUNK <= |arr|
      invariant i <= |arr| && i % CHUNK == 0 && key !in arr[..i]
    {
      var eqMask := EqMask(arr, i, key);
      if true in eqMask {
        FirstInChunk(arr, i, key);
        return i + Ctz(eqMask);
      }
      NoMatch(arr, i, key);
      i := i + CHUNK;
    }
    assert i == |arr| / CHUNK * CHUNK;
    while i < |arr|
      invariant i <= |arr| && key !in arr[..i]
    {
      if arr[i] == key {
        return i;
      }
      i := i + 1;
    }
    result := -1;
  }

  ghost predicate Narrowed(arr: seq<nat>, key: nat, left: int, right: int) {
    && 0 <= left <= |arr| && -1 <= right < |arr|
    && (forall i :: 0 <= i < |arr| && arr[i] == key ==> left <= i <= right)
  }

  /** A chunk without the key rules out one side of it, judged by its fifth key alone. */
  lemma ChunkRulesOut(arr: seq<nat>, key: nat, at: nat)
    requires Sorted(arr) && at + CHUNK <= |arr| && true !in EqMask(arr, at, key)
    ensures arr[at + CHUNK / 2] != key
    ensures arr[at + CHUNK / 2] < key ==> forall i :: 0 <= i < at + CHUNK ==> arr[i] != key
    ensures arr[at + CHUNK / 2] > key ==> forall i :: at <= i < |arr| ==> arr[i] != key
  {
    NoMatch(arr, at, key);
  }

  /** Where the `eq` search puts its chunk: half of it before the middle, then aligned down. It may
      start left of `left`; its end still lies strictly inside the range. */
  function EqChunkAt(left: nat, right: nat): (at: nat)
    requires right - left + 1 >= CHUNK * 2
    ensures left < at + CHUNK && at + CHUNK - 1 < right
  {
    var mid := left + (right - left) / 2;
    var from := if left > mid - CHUNK / 2 then left else mid - CHUNK / 2;
    from / CHUNK * CHUNK
  }

  /** Where plain bisection lands. */
  function Bisected(arr: seq<nat>, key: nat, left: int, right: int): int
    requires 0 <= left && right < |arr|
    decreases right - left + 1
  {
    if left > right then -1
    else
      var mid := left + (right - left) / 2;
      if arr[mid] == key then mid
      else if arr[mid] < key then Bisected(arr, key, mid + 1, right)
      else Bisected(arr, key, left, mid - 1)
  }

  /** Where chunked bisection lands. */
  function ChunkBisected(arr: seq<nat>, key: nat, left: int, right: int): int
    requires 0 <= left && right < |arr|
    decreases right - left + 1
  {
    if right - left + 1 < CHUNK * 2 then Bisected(arr, key, left, right)
    else
      var at := EqChunkAt(left, right);
      var eqMask := EqMask(arr, at, key);
      if true in eqMask then at + Ctz(eqMask)
      else if arr[at + CHUNK / 2] < key then ChunkBisected(arr, key, at + CHUNK, right)
      else ChunkBisected(arr, key, left, at - 1)
  }

  /** The chunked phase for arrays of more than 128 keys: an index, or a narrower range. The scalar
      fallback behind the fit test never runs here either. */
  method EqChunked(arr: seq<nat>, key: nat) returns (result: int, left: int, right: int)
    requires Sorted(arr) && |arr| > 0
    ensures result != -1 ==> IsFound(arr, key, result) && result == ChunkBisected(arr, key, 0, |arr| - 1)
    ensures result == -1 ==> Narrowed(arr, key, left, right)
    ensures result == -1 ==> Bisected(arr, key, left, right) == ChunkBisected(arr, key, 0, |arr| - 1)
  {
    result, left, right := -1, 0, |arr| - 1;
    while right - left + 1 >= CHUNK * 2
      invariant Narrowed(arr, key, left, right)
      invariant ChunkBisected(arr, key, left, right) == ChunkBisected(arr, key, 0, |arr| - 1)
      decreases right - left
    {
      result, left, right := EqChunk(arr, key, left, right);
      if result != -1 {
        return;
      }
    }
  }

  method EqChunk(arr: seq<nat>, key: nat, left0: int, right0: int) returns (result: int, left: int, right: int)
    requires Sorted(arr) && Narrowed(arr, key, left0, right0) && right0 - left0 + 1 >= CHUNK * 2
    ensures result != -1 ==> IsFound(arr, key, result) && result == ChunkBisected(arr, key, left0, right0)
    ensures result == -1 ==> Narrowed(arr, key, left, right) && right - left < right0 - left0
    ensures result == -1 ==> ChunkBisected(arr, key, left, right) == ChunkBisected(arr, key, left0, right0)
  {
    result, left, right := -1, left0, right0;
    var mid := left + (right - left) / 2;
    var from := if left > mid - CHUNK / 2 then left else mid - CHUNK / 2;
    var at := from / CHUNK * CHUNK;
    assert at == EqChunkAt(left, right);
    if at + CHUNK <= |arr| && at + CHUNK - 1 <= right {
      var eqMask := EqMask(arr, at, key);
      if true in eqMask {
        result := at + Ctz(eqMask);
        return;
      }
      ChunkRulesOut(arr, key, at);
      if arr[at + CHUNK / 2] < key {
        left := at + CHUNK;
      } else {
        right := at - 1;
      }
    } else {
      assert false; // the scalar fallback of the source
    }
  }

  /** The closing bisection. */
  method EqBisect(arr: seq<nat>, key: nat, left0: int, right0: int) returns (result: int)
    requires Sorted(arr) && Narrowed(arr, key, left0, right0)
    ensures IsFound(arr, key, result) && result == Bisected(arr, key, left0, right0)
  {
    var left, right := left0, right0;
    while left <= right
      invariant Narrowed(arr, key, left, right) && Bisected(arr, key, left, right) == Bisected(arr, key, left0, right0)
    {
      var mid := left + (right - left) / 2;
      if arr[mid] == key {
        return mid;
      } else if arr[mid] < key {
        left := mid + 1;
      } else {
        right := mid - 1;
      }
    }
    result := -1;
  }

  /** u64_binary_search_eq_avx512: an index holding the key exactly when one exists; the first one
      for short arrays, otherwise the one bisection lands on. */
  method EqAvx512(arr: seq<nat>, key: nat) returns (result: int32)
    requires Sorted(arr) && |arr| <= MAX_SIZE
    ensures IsFound(arr, key, result) && IsSearched(arr, key, result)
  {
    if |arr| == 0 {
      return -1;
    }
    if |arr| <= 32 {
      result := EqLinear(arr, key);
      return;
    }
    var left, right := 0, |arr| - 1;
    if |arr| > 128 {
      var found;
      found, left, right := EqChunked(arr, key);
      if found != -1 {
        return found;
      }
    }
    result := EqBisect(arr, key, left, right);
  }

  // ---------------------------------------------------------------------------
  // Which of several equal keys
  // ---------------------------------------------------------------------------

  /** What the AVX-512 search returns. */
  ghost predicate IsSearched(arr: seq<nat>, key: nat, r: int) {
    if |arr| <= 32 then IsFirst(arr, key, r)
    else if |arr| <= 128 then r == Bisected(arr, key, 0, |arr| - 1)
    else r == ChunkBisected(arr, key, 0, |arr| - 1)
  }

  /** A key that occurs at most once is found where the reference finds it. */
  lemma AgreesOnSingleKeys(arr: seq<nat>, key: nat, r: int)
    requires IsFound(arr, key, r) && forall i, j :: 0 <= i < j < |arr| && arr[i] == key ==> arr[j] != key
    ensures IsFirst(arr, key, r)
  {
  }

  /** Bisection lands in the middle of equal keys: on the middle one, or, chunked, on the first of the
      aligned block of eight that starts at most four before it. */
  lemma MissesFirst(n: nat, key: nat, r: int)
    requires n > 32 && IsSearched(seq(n, _ => key), key, r)
    ensures r > 0 && IsFirst(seq(n, _ => key), key, 0)
    ensures n <= 128 ==> r == (n - 1) / 2
    ensures n > 128 ==> r % 8 == 0 && r <= (n - 1) / 2 - 4 < r + 8
  {
    var arr := seq(n, _ => key);
    if n > 128 {
      var at := EqChunkAt(0, n - 1);
      assert EqMask(arr, at, key)[0];
    }
  }

  /** Every search over n keys ends where the reference's does. */
  ghost predicate AlwaysFirst(n: nat) {
    forall arr, key, r :: |arr| == n && Sorted(arr) && IsFound(arr, key, r) && IsSearched(arr, key, r) ==>
                            IsFirst(arr, key, r)
  }

  /** That is so exactly up to 32 keys. */
  lemma AgreesExactly(n: nat)
    ensures AlwaysFirst(n) <==> n <= 32
  {
    if n > 32 {
      var arr: seq<nat> := seq(n, _ => 0);
      var r := if n <= 128 then Bisected(arr, 0, 0, n - 1) else ChunkBisected(arr, 0, 0, n - 1);
      MissesFirst(n, 0, r);
      if n > 128 {
        var at := EqChunkAt(0, n - 1);
        assert EqMask(arr, at, 0)[0];
      }
      assert IsFound(arr, 0, r) && !IsFirst(arr, 0, r);
    }
  }
}
