/** ChunkStorage: the buffered loops that write, assemble and re-read files, and the unlinks. */
module ChunkStorage {
  import opened Common
  import opened Grid
  import opened ChunkFiles
  import opened UploadRows

  datatype WriteError = SizeMismatch | DigestMismatch | PartConflict

  datatype AssemblyError =
    | BadStructure(part: Option<int>)
    | BadPart(index: int, missing: bool)
    | TemporaryExists

  function Joined(chunks: seq<Bytes>): Bytes {
    if chunks == [] then [] else Joined(chunks[..|chunks| - 1]) + chunks[|chunks| - 1]
  }

  lemma JoinedPrefixShorter(chunks: seq<Bytes>, n: nat)
    requires n <= |chunks|
    ensures |Joined(chunks[..n])| <= |Joined(chunks)|
    decreases |chunks| - n
  {
    if n == |chunks| {
      assert chunks[..n] == chunks;
    } else {
      assert chunks[..n + 1][..n] == chunks[..n];
      JoinedPrefixShorter(chunks, n + 1);
    }
  }

  /**
   * What assembling means for the files of one upload. The four outcomes exclude one another, and the copy is the
   * concatenation of the part files, each with the recorded size and digest.
   */
  ghost predicate Assembly(before: Files, after: Files, size: int, parts: map<int, Part>, result: Result<Pending, AssemblyError>) {
    match result
    case Ok(pending) =>
      && Structured(parts, size) && before.temp.None? && AllStored(before, parts, |parts|)
      && var whole := Concat(before.parts, |parts|);
         after == before.(temp := Some(whole)) && pending == Pending(|whole|, Sha256(whole))
    case Err(BadStructure(part)) => !Structured(parts, size) && after == before
    case Err(TemporaryExists) => Structured(parts, size) && before.temp.Some? && after == before.(temp := None)
    case Err(BadPart(index, missing)) =>
      && Structured(parts, size) && before.temp.None? && after == before
      && 0 <= index < |parts| && AllStored(before, parts, index)
      && index in parts && !Stored(before, index, parts[index])
      && (missing <==> index !in before.parts)
  }

  class ChunkStorage {
    const bufferSize: nat
    var disk: map<Id, Files>

    constructor (bufferSize: nat)
      requires bufferSize > 0
      ensures this.bufferSize == bufferSize && disk == map[]
    {
      this.bufferSize := bufferSize;
      disk := map[];
    }

    function FilesOf(id: Id): Files
      reads this
    {
      if id in disk then disk[id] else NoFiles
    }

    /**
     * Streams the request body into an incoming file, checks length and digest, and links it as the part.
     * The outcome depends only on the joined body, not on how it was cut into chunks or buffers, and a part that
     * is already there is never overwritten.
     */
    method WritePart(id: Id, index: int, chunks: seq<Bytes>, expectedSize: nat, expectedSha: Digest)
      returns (result: Result<Pending, WriteError>)
      requires bufferSize > 0
      modifies this
      ensures var body := Joined(chunks);
              var before := old(FilesOf(id));
              result == if |body| != expectedSize then Err(SizeMismatch)
                        else if Sha256(body) != expectedSha then Err(DigestMismatch)
                        else if index in before.parts
                                && (|before.parts[index]| != expectedSize || Sha256(before.parts[index]) != expectedSha)
                             then Err(PartConflict)
                        else Ok(Pending(expectedSize, expectedSha))
      ensures var before := old(FilesOf(id));
              disk == if result.Ok? && index !in before.parts
                      then old(disk)[id := before.(parts := before.parts[index := Joined(chunks)])]
                      else old(disk)
    {
      var incoming: Bytes := [];
      var c := 0;
      while c < |chunks|
        invariant 0 <= c <= |chunks|
        invariant incoming == Joined(chunks[..c])
        invariant |incoming| <= expectedSize
        invariant disk == old(disk)
      {
        var offset := 0;
        while offset < |chunks[c]|
          invariant 0 <= offset <= |chunks[c]|
          invariant incoming == Joined(chunks[..c]) + chunks[c][..offset]
          invariant |incoming| <= expectedSize
          invariant disk == old(disk)
        {
          var end := Min(offset + bufferSize, |chunks[c]|);
          var piece := chunks[c][offset..end];
          if |incoming| + |piece| > expectedSize {
            assert chunks[..c + 1][..c] == chunks[..c];
            JoinedPrefixShorter(chunks, c + 1);
            return Err(SizeMismatch);
          }
          incoming := incoming + piece;
          offset := end;
        }
        assert chunks[..c + 1][..c] == chunks[..c];
        assert chunks[c][..offset] == chunks[c];
        c := c + 1;
      }
      assert chunks[..c] == chunks;
      if |incoming| != expectedSize {
        return Err(SizeMismatch);
      }
      if Sha256(incoming) != expectedSha {
        return Err(DigestMismatch);
      }
      var files := FilesOf(id);
      if index in files.parts {
        var existing := ReadAll(files.parts[index]);
        if |existing| != expectedSize || Sha256(existing) != expectedSha {
          return Err(PartConflict);
        }
      } else {
        disk := disk[id := files.(parts := files.parts[index := incoming])];
      }
      result := Ok(Pending(expectedSize, expectedSha));
    }

    /** while chunk := source.read(buffer_size) */
    method ReadAll(source: Bytes) returns (read: Bytes)
      requires bufferSize > 0
      ensures read == source
    {
      read := [];
      while |read| < |source|
        invariant |read| <= |source|
        invariant read == source[..|read|]
      {
        var end := Min(|read| + bufferSize, |source|);
        read := read + source[|read|..end];
      }
    }

    /** The checks on the part records: contiguous indexes, contiguous ranges, recorded lengths, full coverage. */
    method CheckStructure(size: int, parts: map<int, Part>) returns (fault: Option<AssemblyError>)
      ensures fault.None? <==> Structured(parts, size)
      ensures fault.Some? ==> fault.value.BadStructure?
    {
      var k := 0;
      while k < |parts|
        invariant 0 <= k <= |parts|
        invariant forall j :: 0 <= j < k ==> j in parts
      {
        if k !in parts {
          assert !Follows(parts, k);
          return Some(BadStructure(None));
        }
        k := k + 1;
      }
      var expectedStart := 0;
      k := 0;
      while k < |parts|
        invariant 0 <= k <= |parts|
        invariant expectedStart == Reach(parts, k)
        invariant forall j :: 0 <= j < k ==> Follows(parts, j)
      {
        var part := parts[k];
        if part.start != expectedStart || part.end < part.start || part.size != part.end - part.start + 1 {
          assert !Follows(parts, k);
          return Some(BadStructure(Some(k)));
        }
        expectedStart := part.end + 1;
        k := k + 1;
      }
      fault := if expectedStart != size then Some(BadStructure(None)) else None;
    }

    /** Copies the verified parts in index order into final.uploading, or removes it and names the first bad part. */
    method Assemble(id: Id, size: int, parts: map<int, Part>) returns (result: Result<Pending, AssemblyError>)
      requires bufferSize > 0
      modifies this
      ensures disk == old(disk) || disk == old(disk)[id := FilesOf(id)]
      ensures Assembly(old(FilesOf(id)), FilesOf(id), size, parts, result)
    {
      var fault := CheckStructure(size, parts);
      if fault.Some? {
        return Err(fault.value);
      }
      var files := FilesOf(id);
      if files.temp.Some? {
        disk := disk[id := files.(temp := None)];
        return Err(TemporaryExists);
      }
      var written: Bytes := [];
      var k := 0;
      while k < |parts|
        invariant 0 <= k <= |parts|
        invariant AllStored(files, parts, k)
        invariant written == Concat(files.parts, k)
        invariant disk == old(disk)
      {
        assert ChunkFiles.Follows(parts, k);
        if k !in files.parts {
          disk := disk[id := files];
          return Err(BadPart(k, true));
        }
        var content := ReadAll(files.parts[k]);
        if |content| != parts[k].size || Sha256(content) != parts[k].sha {
          disk := disk[id := files];
          return Err(BadPart(k, false));
        }
        written := written + content;
        k := k + 1;
      }
      disk := disk[id := files.(temp := Some(written))];
      result := Ok(Pending(|written|, Sha256(written)));
    }

    /** Re-reads the temporary or the final copy and accepts it only with the recorded size and digest. */
    method PendingFromSession(id: Id, session: Session, published: bool) returns (result: Result<Pending, ()>)
      requires bufferSize > 0
      ensures var file := if published then FilesOf(id).final else FilesOf(id).temp;
              result == if IsCopy(file, session.meta.size, session.fileSha)
                        then Ok(Pending(session.meta.size, session.fileSha.value))
                        else Err(())
    {
      var file := if published then FilesOf(id).final else FilesOf(id).temp;
      if file.None? {
        return Err(());
      }
      var content := ReadAll(file.value);
      if |content| != session.meta.size || session.fileSha != Some(Sha256(content)) {
        return Err(());
      }
      result := Ok(Pending(|content|, Sha256(content)));
    }

    method DiscardAssembled(id: Id)
      modifies this
      ensures disk == old(disk)[id := old(FilesOf(id)).(temp := None)]
    {
      disk := disk[id := FilesOf(id).(temp := None)];
    }

    method DiscardPart(id: Id, index: int)
      modifies this
      ensures disk == old(disk)[id := old(FilesOf(id)).(parts := old(FilesOf(id)).parts - {index})]
    {
      disk := disk[id := FilesOf(id).(parts := FilesOf(id).parts - {index})];
    }

    /** Removes the session directory: all parts and final.uploading, not the final file. */
    method CleanupSession(id: Id)
      modifies this
      ensures disk == old(disk)[id := Files(map[], None, old(FilesOf(id)).final)]
    {
      disk := disk[id := Files(map[], None, FilesOf(id).final)];
    }

    /** Atomic rename of final.uploading over the final file; false when the rename fails. */
    method Publish(id: Id, renameWorks: bool) returns (done: bool)
      requires FilesOf(id).temp.Some?
      modifies this
      ensures done == renameWorks
      ensures disk == if done then old(disk)[id := old(FilesOf(id)).(final := old(FilesOf(id)).temp, temp := None)] else old(disk)
    {
      if renameWorks {
        disk := disk[id := FilesOf(id).(final := FilesOf(id).temp, temp := None)];
      }
      done := renameWorks;
    }

    /** quarantine_verified_file: the final file is gone, or stays where it is when the removal is refused. */
    method DiscardFinal(id: Id, removalWorks: bool)
      modifies this
      ensures disk == if removalWorks then old(disk)[id := old(FilesOf(id)).(final := None)] else old(disk)
    {
      if removalWorks {
        disk := disk[id := FilesOf(id).(final := None)];
      }
    }
  }
}
