/** The chunked file scans of src/monitor.rs against their unchunked meaning. */
module MonitorScan {
  import opened Wrappers
  import opened Bytes

  const READ_CHUNK_BYTES: nat := 16 * 1024
  const FNV_OFFSET_BASIS: bv64 := 0xcbf29ce484222325
  const FNV_PRIME: bv64 := 0x100000001b3

  /**
   * Where a poll must stop: past the last newline of the poll window, else past the
   * first newline after the window, else where it started.
   */
  function CompleteEnd(file: Bytes, start: nat, maxPollBytes: nat): (end: nat)
    requires start <= |file|
    ensures start <= end <= |file|
  {
    var pollEnd := Min(|file|, start + maxPollBytes);
    var inWindow := PastLastNewline(file[start..pollEnd]);
    var beyond := pollEnd + FirstNewline(file[pollEnd..]);
    if inWindow > 0 then start + inWindow
    else if beyond < |file| then beyond + 1
    else start
  }

  predicate NewlineFree(file: Bytes, lo: nat, hi: nat)
    requires lo <= hi <= |file|
  {
    forall i :: lo <= i < hi ==> file[i] != NEWLINE
  }

  lemma SplitNewlineFree(file: Bytes, lo: nat, hi: nat)
    requires lo <= hi <= |file|
    ensures PastLastNewline(file[lo..hi]) == 0 <==> NewlineFree(file, lo, hi)
  {
    var s := file[lo..hi];
    PastLastNewlineIs(s);
    assert forall i :: lo <= i < hi ==> file[i] == s[i - lo];
    if NewlineFree(file, lo, hi) {
      PastLastNewlineAt(s, 0);
    }
  }

  lemma LastNewlineInChunk(file: Bytes, start: nat, chunkStart: nat, cursor: nat, pollEnd: nat)
    requires start <= chunkStart <= cursor <= pollEnd <= |file|
    requires NewlineFree(file, cursor, pollEnd)
    requires PastLastNewline(file[chunkStart..cursor]) > 0
    ensures PastLastNewline(file[start..pollEnd]) == chunkStart + PastLastNewline(file[chunkStart..cursor]) - start
  {
    var chunk := file[chunkStart..cursor];
    PastLastNewlineIs(chunk);
    var p := PastLastNewline(chunk);
    assert forall i :: chunkStart <= i < cursor ==> file[i] == chunk[i - chunkStart];
    PastLastNewlineAt(file[start..pollEnd], chunkStart + p - start);
  }

  lemma FirstNewlineInChunk(file: Bytes, pollEnd: nat, cursor: nat, length: nat)
    requires pollEnd <= cursor && cursor + length <= |file|
    requires NewlineFree(file, pollEnd, cursor)
    ensures var n := FirstNewline(file[cursor..cursor + length]);
            if n < length then FirstNewline(file[pollEnd..]) == cursor + n - pollEnd
            else NewlineFree(file, pollEnd, cursor + length)
  {
    var chunk := file[cursor..cursor + length];
    FirstNewlineIs(chunk);
    var n := FirstNewline(chunk);
    assert forall i :: cursor <= i < cursor + length ==> file[i] == chunk[i - cursor];
    if n < length {
      FirstNewlineAt(file[pollEnd..], cursor + n - pollEnd);
    }
  }

  /** The backward scan of the poll window, then the forward scan past it, chunk by chunk. */
  method ScanCompleteEnd(file: Bytes, start: nat, maxPollBytes: nat) returns (end: nat)
    requires start <= |file|
    ensures end == CompleteEnd(file, start, maxPollBytes)
  {
    var size := |file|;
    var pollEnd := Min(size, start + maxPollBytes);
    var cursor := pollEnd;
    while cursor > start
      invariant start <= cursor <= pollEnd
      invariant NewlineFree(file, cursor, pollEnd)
    {
      var chunkStart := if cursor >= start + READ_CHUNK_BYTES then cursor - READ_CHUNK_BYTES else start;
      var index := PastLastNewline(file[chunkStart..cursor]);
      if index > 0 {
        LastNewlineInChunk(file, start, chunkStart, cursor, pollEnd);
        return chunkStart + index;
      }
      SplitNewlineFree(file, chunkStart, cursor);
      cursor := chunkStart;
    }
    SplitNewlineFree(file, start, pollEnd);
    cursor := pollEnd;
    while cursor < size
      invariant pollEnd <= cursor <= size
      invariant NewlineFree(file, pollEnd, cursor)
    {
      var length := Min(size - cursor, READ_CHUNK_BYTES);
      FirstNewlineInChunk(file, pollEnd, cursor, length);
      var index := FirstNewline(file[cursor..cursor + length]);
      if index < length {
        return cursor + index + 1;
      }
      cursor := cursor + length;
    }
    FirstNewlineAt(file[pollEnd..], size - pollEnd);
    return start;
  }

  /** A poll moves exactly when a newline follows its start, and it stops just past a newline. */
  lemma CompleteEndProgress(file: Bytes, start: nat, maxPollBytes: nat)
    requires start <= |file|
    ensures CompleteEnd(file, start, maxPollBytes) > start <==> NEWLINE in file[start..]
    ensures var end := CompleteEnd(file, start, maxPollBytes); end > start ==> file[end - 1] == NEWLINE
  {
    var pollEnd := Min(|file|, start + maxPollBytes);
    var window, tail := file[start..pollEnd], file[pollEnd..];
    assert file[start..] == window + tail;
    PastLastNewlineIs(window);
    FirstNewlineIs(tail);
    var end := CompleteEnd(file, start, maxPollBytes);
    if end > start {
      assert file[end - 1] == file[start..][end - 1 - start];
    }
  }

  /** A poll takes in all lines that end in its window, or else the one line that goes on beyond it. */
  lemma CompleteEndIs(file: Bytes, start: nat, maxPollBytes: nat)
    requires start <= |file|
    ensures var pollEnd, end := Min(|file|, start + maxPollBytes), CompleteEnd(file, start, maxPollBytes);
            && (NEWLINE in file[start..pollEnd] ==> end <= pollEnd && NEWLINE !in file[end..pollEnd])
            && (NEWLINE !in file[start..pollEnd] && end > start ==> NEWLINE !in file[start..end - 1])
  {
    var pollEnd, end := Min(|file|, start + maxPollBytes), CompleteEnd(file, start, maxPollBytes);
    var window, tail := file[start..pollEnd], file[pollEnd..];
    PastLastNewlineIs(window);
    FirstNewlineIs(tail);
    if NEWLINE in window {
      assert forall i :: end <= i < pollEnd ==> file[i] == window[i - start];
    } else {
      assert forall i :: start <= i < pollEnd ==> file[i] == window[i - start];
      assert forall i :: pollEnd <= i < |file| ==> file[i] == tail[i - pollEnd];
    }
  }

  /** No poll ever goes past the last newline of the file. */
  lemma CompleteEndBound(file: Bytes, start: nat, maxPollBytes: nat)
    requires start <= PastLastNewline(file)
    ensures CompleteEnd(file, start, maxPollBytes) <= PastLastNewline(file)
    ensures CompleteEnd(file, start, maxPollBytes) == start <==> start == PastLastNewline(file)
  {
    CompleteEndProgress(file, start, maxPollBytes);
    PastLastNewlineIs(file);
    var end := CompleteEnd(file, start, maxPollBytes);
    var last := PastLastNewline(file);
    assert forall i :: start <= i < |file| ==> file[i] == file[start..][i - start];
    if start < last {
      assert file[start..][last - 1 - start] == NEWLINE;
    }
  }

  /** Reads return any non-empty part of what is left. */
  method Read(rest: Bytes, atMost: nat) returns (n: nat)
    requires atMost > 0
    ensures n <= atMost && n <= |rest|
    ensures n == 0 <==> rest == []
  {
    if rest == [] {
      return 0;
    }
    n :| 1 <= n <= atMost && n <= |rest|;
  }

  method CountNewlinesBetween(file: Bytes, start: nat, end: nat) returns (count: nat)
    requires start <= end <= |file|
    ensures count == CountNewlines(file[start..end])
  {
    var rest := file[start..end];
    count := 0;
    while true
      invariant count + CountNewlines(rest) == CountNewlines(file[start..end])
      decreases |rest|
    {
      var read := Read(rest, READ_CHUNK_BYTES);
      if read == 0 {
        return;
      }
      assert rest == rest[..read] + rest[read..];
      CountNewlinesConcat(rest[..read], rest[read..]);
      count := count + CountNewlines(rest[..read]);
      rest := rest[read..];
    }
  }

  /** FNV-1a over one byte. */
  function DigestByte(digest: bv64, b: byte): bv64
  {
    (digest ^ (b as bv64)) * FNV_PRIME
  }

  function UpdateDigest(digest: bv64, s: Bytes): bv64
    decreases |s|
  {
    if s == [] then digest else UpdateDigest(DigestByte(digest, s[0]), s[1..])
  }

  function Digest(s: Bytes): bv64
  {
    UpdateDigest(FNV_OFFSET_BASIS, s)
  }

  lemma {:induction false} UpdateDigestConcat(digest: bv64, a: Bytes, b: Bytes)
    ensures UpdateDigest(digest, a + b) == UpdateDigest(UpdateDigest(digest, a), b)
    decreases |a|
  {
    if a == [] {
      assert a + b == b;
    } else {
      assert (a + b)[1..] == a[1..] + b;
      UpdateDigestConcat(DigestByte(digest, a[0]), a[1..], b);
    }
  }

  lemma EmptyDigest()
    ensures Digest([]) == FNV_OFFSET_BASIS
  {
  }

  /** The digests that FNV-1a is published with, of nothing and of "a". */
  lemma KnownDigests()
    ensures Digest([]) == 0xcbf29ce484222325 && Digest([97]) == 0xaf63dc4c8601ec8c
  {
    EmptyDigest();
    OneByte(FNV_OFFSET_BASIS, 97);
  }

  lemma OneByte(digest: bv64, b: byte)
    ensures UpdateDigest(digest, [b]) == DigestByte(digest, b)
  {
    assert [b][1..] == [];
  }

  /** The digest of a prefix, read in pieces of any size; fails exactly when the file is shorter. */
  method PrefixDigest(file: Bytes, length: nat) returns (r: Option<bv64>)
    ensures r == if length <= |file| then Some(Digest(file[..length])) else None
  {
    hide UpdateDigest;
    assert Digest([]) == FNV_OFFSET_BASIS by { EmptyDigest(); }
    var remaining := length;
    var position: nat := 0;
    var digest := FNV_OFFSET_BASIS;
    while remaining > 0
      invariant position + remaining == length && position <= |file|
      invariant digest == Digest(file[..position])
      decreases remaining
    {
      var requested := Min(remaining, READ_CHUNK_BYTES);
      var read := Read(file[position..], requested);
      if read == 0 {
        return None;
      }
      var piece := file[position..position + read];
      assert file[..position + read] == file[..position] + piece;
      UpdateDigestConcat(FNV_OFFSET_BASIS, file[..position], piece);
      digest := UpdateDigest(digest, piece);
      position := position + read;
      remaining := remaining - read;
    }
    return Some(digest);
  }
}
