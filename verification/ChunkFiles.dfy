/** The files of one upload on disk: confirmed parts, final.uploading and the final file. */
module ChunkFiles {
  import opened Common
  import opened Grid

  datatype Files = Files(parts: map<int, Bytes>, temp: Option<Bytes>, final: Option<Bytes>)

  const NoFiles := Files(map[], None, None)

  predicate Matches(content: Bytes, part: Part) {
    |content| == part.size && Sha256(content) == part.sha
  }

  predicate Stored(files: Files, index: int, part: Part) {
    index in files.parts && Matches(files.parts[index], part)
  }

  /** The first n parts are all there as recorded. */
  ghost predicate AllStored(files: Files, parts: map<int, Part>, n: nat) {
    && (forall k :: 0 <= k < n ==> k in parts && Stored(files, k, parts[k]))
    && (forall k :: 0 <= k < n ==> k in files.parts)
  }

  /** The file is there with this size and this digest. */
  predicate IsCopy(file: Option<Bytes>, size: int, sha: Option<Digest>) {
    file.Some? && |file.value| == size && sha == Some(Sha256(file.value))
  }

  /** The first n part files one after the other. */
  ghost function Concat(contents: map<int, Bytes>, n: nat): Bytes
    requires forall i :: 0 <= i < n ==> i in contents
  {
    if n == 0 then [] else Concat(contents, n - 1) + contents[n - 1]
  }

  /** The bytes of a source file that belong to a slot of its grid. */
  function Slice(source: Bytes, chunk: int, index: int): Bytes
    requires chunk > 0 && 0 <= index && index * chunk < |source|
  {
    SlotIsInside(|source|, chunk, index);
    source[index * chunk..SlotEnd(|source|, chunk, index) + 1]
  }

  lemma {:induction false} ConcatLength(contents: map<int, Bytes>, n: nat, size: int, chunk: int)
    requires chunk > 0 && size > 0
    requires n > 0 ==> (n - 1) * chunk < size
    requires forall i :: 0 <= i < n ==> i in contents && |contents[i]| == SlotSize(size, chunk, i)
    ensures |Concat(contents, n)| == GridBytes(size, chunk, n)
  {
    if n > 0 {
      GridBytesStep(size, chunk, n - 1);
      EarlierStart(size, chunk, n - 1);
      ConcatLength(contents, n - 1, size, chunk);
    }
  }

  /** Byte b of the assembled file is byte (b mod chunk) of part (b div chunk). */
  lemma {:induction false} ConcatByte(contents: map<int, Bytes>, n: nat, size: int, chunk: int, b: int)
    requires chunk > 0 && size > 0
    requires n > 0 ==> (n - 1) * chunk < size
    requires forall i :: 0 <= i < n ==> i in contents && |contents[i]| == SlotSize(size, chunk, i)
    requires 0 <= b < GridBytes(size, chunk, n)
    ensures |Concat(contents, n)| == GridBytes(size, chunk, n)
    ensures 0 <= b / chunk < n && b % chunk < |contents[b / chunk]|
    ensures Concat(contents, n)[b] == contents[b / chunk][b % chunk]
    decreases n
  {
    ConcatLength(contents, n, size, chunk);
    if n > 0 {
      GridBytesStep(size, chunk, n - 1);
      EarlierStart(size, chunk, n - 1);
      ConcatLength(contents, n - 1, size, chunk);
      if b < GridBytes(size, chunk, n - 1) {
        ConcatByte(contents, n - 1, size, chunk, b);
      } else {
        QuotientInSlot(b, chunk, n - 1);
      }
    }
  }

  lemma QuotientInSlot(b: int, chunk: int, index: int)
    requires chunk > 0 && 0 <= index && index * chunk <= b < index * chunk + chunk
    ensures b / chunk == index && b % chunk == b - index * chunk
  {
    var q, r := b / chunk, b % chunk;
    assert b == q * chunk + r;
    if q < index {
      SlotsDisjoint(chunk, q, index);
    } else if index < q {
      SlotsDisjoint(chunk, index, q);
    }
  }

  ghost predicate IsSlice(contents: map<int, Bytes>, source: Bytes, chunk: int, index: int) {
    && chunk > 0 && 0 <= index && index * chunk < |source|
    && index in contents
    && contents[index] == Slice(source, chunk, index)
  }

  lemma NextSlice(source: Bytes, chunk: int, index: int)
    requires chunk > 0 && 0 <= index && index * chunk < |source|
    ensures 0 <= GridBytes(|source|, chunk, index) <= GridBytes(|source|, chunk, index + 1) <= |source|
    ensures source[..GridBytes(|source|, chunk, index)] + Slice(source, chunk, index)
         == source[..GridBytes(|source|, chunk, index + 1)]
  {
    GridBytesStep(|source|, chunk, index);
    SlotIsInside(|source|, chunk, index);
  }

  /** Parts that are the slices of one source concatenate to its beginning, and all of them to the source. */
  lemma {:induction false} ConcatOfSlices(contents: map<int, Bytes>, n: nat, source: Bytes, chunk: int)
    requires chunk > 0
    requires forall i :: 0 <= i < n ==> i in contents
    requires forall i :: 0 <= i < n ==> IsSlice(contents, source, chunk, i)
    ensures 0 <= GridBytes(|source|, chunk, n) <= |source|
    ensures Concat(contents, n) == source[..GridBytes(|source|, chunk, n)]
  {
    if n > 0 {
      assert IsSlice(contents, source, chunk, n - 1);
      ConcatOfSlices(contents, n - 1, source, chunk);
      NextSlice(source, chunk, n - 1);
    }
  }

  // ---- The structural checks of assemble ----

  /** Where the next part has to start once the first k parts are accepted. */
  function Reach(parts: map<int, Part>, k: nat): int {
    if k == 0 || k - 1 !in parts then 0 else parts[k - 1].end + 1
  }

  ghost predicate Follows(parts: map<int, Part>, k: nat) {
    && k in parts
    && parts[k].start == Reach(parts, k)
    && parts[k].end >= parts[k].start
    && parts[k].size == parts[k].end - parts[k].start + 1
  }

  ghost predicate Structured(parts: map<int, Part>, size: int) {
    && (forall k :: 0 <= k < |parts| ==> Follows(parts, k))
    && Reach(parts, |parts|) == size
  }

  lemma {:induction false} IntervalCardinality(s: set<int>, n: nat)
    requires forall i :: i in s <==> 0 <= i < n
    ensures |s| == n
  {
    if n == 0 {
      assert forall i :: i !in s;
    } else {
      IntervalCardinality(s - {n - 1}, n - 1);
    }
  }

  lemma FullCount(parts: map<int, Part>, size: int, chunk: int)
    requires chunk > 0 && size > 0
    requires GridRows(parts, size, chunk) && Full(parts, size, chunk)
    ensures |parts| == PartCount(size, chunk) > 0
    ensures forall k :: k in parts <==> 0 <= k < |parts|
  {
    GridTheorem(parts, size, chunk);
    InGrid(size, chunk, 0);
    IntervalCardinality(parts.Keys, PartCount(size, chunk));
    assert |parts| == |parts.Keys|;
  }

  /**
   * Rows that pass begin_completion cannot fail a structural check of assemble, so the branches of complete that
   * handle an integrity error without a part index are never taken.
   */
  lemma StructureCannotFail(parts: map<int, Part>, size: int, chunk: int)
    requires chunk > 0 && size > 0
    requires GridRows(parts, size, chunk) && Tiles(parts, size)
    ensures Structured(parts, size)
    ensures |parts| == PartCount(size, chunk) > 0
    ensures forall k :: k in parts <==> 0 <= k < |parts|
    ensures (|parts| - 1) * chunk < size && GridBytes(size, chunk, |parts|) == size
  {
    GridTheorem(parts, size, chunk);
    FullCount(parts, size, chunk);
    var n := |parts|;
    InGrid(size, chunk, n - 1);
    InGrid(size, chunk, n);
    GridBytesStep(size, chunk, n - 1);
    forall k | 0 <= k < n
      ensures Follows(parts, k)
    {
      FollowsOnGrid(parts, size, chunk, k);
    }
    assert OnSlot(parts[n - 1], size, chunk, n - 1);
  }

  lemma FollowsOnGrid(parts: map<int, Part>, size: int, chunk: int, k: nat)
    requires chunk > 0 && size > 0
    requires GridRows(parts, size, chunk)
    requires k in parts && (k > 0 ==> k - 1 in parts)
    ensures Follows(parts, k)
  {
    assert OnSlot(parts[k], size, chunk, k);
    SlotIsInside(size, chunk, k);
    if k > 0 {
      assert OnSlot(parts[k - 1], size, chunk, k - 1);
      GridBytesStep(size, chunk, k - 1);
    }
  }
}
