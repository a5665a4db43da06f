/**
 Image uploads (nanokvm/components/storage.py): the Pro's chunked upload with its cleanup, and the non-Pro's
 streamed body. Everything the client does towards the device and the progress callback is logged.
 */
module ImageUpload {
  import opened Common
  import opened Version
  import opened ImageRemote

  datatype UploadError = NotRegular | BadChunkSize | BadDigest | NotSupported | Empty | BadName | Exists | Failed

  // ------------------------------------------------------------ what is sent

  function TotalChunks(total: nat, size: nat): nat
    requires size > 0
  {
    var n := (total + size - 1) / size;
    if n > 1 then n else 1
  }

  /** `k * size`, by repeated addition. */
  function Offset(size: nat, k: nat): nat {
    if k == 0 then 0 else Offset(size, k - 1) + size
  }

  /** The bytes in the first `k` chunks. */
  function Upto(total: nat, size: nat, k: nat): nat {
    Min(Offset(size, k), total)
  }

  /** Chunk `k` of an image of `total` bytes, as far as the file has it. */
  function Chunk(content: Bytes, total: nat, size: nat, k: nat): Bytes {
    content[Min(Upto(total, size, k), |content|)..Min(Upto(total, size, k + 1), |content|)]
  }

  function ChunkPost(name: string, content: Bytes, total: nat, size: nat, k: nat): Action
    requires size > 0
  {
    Post(name, k, TotalChunks(total, size), Chunk(content, total, size, k))
  }

  /** The log of the first `k` chunks: each one posted, then reported. */
  function Transferred(callback: bool, name: string, content: Bytes, total: nat, size: nat, k: nat): seq<Action>
    requires size > 0
  {
    if k == 0 then []
    else
      Transferred(callback, name, content, total, size, k - 1)
      + [ChunkPost(name, content, total, size, k - 1)]
      + Report(callback, Upto(total, size, k))
  }

  /** The log of a whole upload. */
  function WholeUpload(callback: bool, name: string, content: Bytes, total: nat, size: nat): seq<Action>
    requires size > 0
  {
    Transferred(callback, name, content, total, size, TotalChunks(total, size))
  }

  // ------------------------------------------------- what a whole upload means

  function Posted(log: seq<Action>): seq<Bytes> {
    if log == [] then []
    else
      var n := |log| - 1;
      Posted(log[..n]) + if log[n].Post? then [log[n].chunk] else []
  }

  function Concat(parts: seq<Bytes>): Bytes {
    if parts == [] then [] else Concat(parts[..|parts| - 1]) + parts[|parts| - 1]
  }

  function Reported(log: seq<Action>): seq<nat> {
    if log == [] then []
    else
      var n := |log| - 1;
      Reported(log[..n]) + if log[n].Progress? then [log[n].count] else []
  }

  lemma {:induction false} OffsetIsProduct(size: nat, k: nat)
    ensures Offset(size, k) == k * size
  {
    if k > 0 {
      OffsetIsProduct(size, k - 1);
      assert (k - 1) * size + size == k * size;
    }
  }

  lemma {:induction false} OffsetGrows(size: nat, i: nat, j: nat)
    requires i <= j
    ensures Offset(size, i) <= Offset(size, j)
    ensures size > 0 && i < j ==> Offset(size, i) < Offset(size, j)
  {
    if i < j {
      OffsetGrows(size, i, j - 1);
    }
  }

  /** The number of chunks is the ceiling of `total / size`. */
  lemma CeilingChunks(total: nat, size: nat)
    requires size > 0 && total > 0
    ensures var n := TotalChunks(total, size); n >= 1 && Offset(size, n - 1) < total <= Offset(size, n)
  {
    var n := (total + size - 1) / size;
    assert total + size - 1 == n * size + (total + size - 1) % size;
    assert n >= 1;
    OffsetIsProduct(size, n);
    OffsetIsProduct(size, n - 1);
    assert (n - 1) * size == n * size - size;
  }

  lemma PostedStep(log: seq<Action>, post: Action, callback: bool, count: nat)
    requires post.Post?
    ensures Posted(log + [post]) == Posted(log) + [post.chunk]
    ensures Posted(log + [post] + Report(callback, count)) == Posted(log) + [post.chunk]
  {
    var a := log + [post];
    assert a[..|a| - 1] == log;
    var b := a + Report(callback, count);
    assert if callback then b[..|b| - 1] == a else b == a;
  }

  lemma ReportedStep(log: seq<Action>, post: Action, count: nat)
    requires post.Post?
    ensures Reported(log + [post] + Report(true, count)) == Reported(log) + [count]
  {
    var a := log + [post];
    assert a[..|a| - 1] == log;
    var b := a + Report(true, count);
    assert b[..|b| - 1] == a;
  }

  /** The first `k` chunks. */
  function Chunks(content: Bytes, total: nat, size: nat, k: nat): (r: seq<Bytes>)
    ensures |r| == k
    ensures forall i :: 0 <= i < k ==> r[i] == Chunk(content, total, size, i)
  {
    if k == 0 then [] else Chunks(content, total, size, k - 1) + [Chunk(content, total, size, k - 1)]
  }

  lemma {:induction false} TransferredPosts(callback: bool, name: string, content: Bytes, total: nat, size: nat, k: nat)
    requires size > 0
    ensures Posted(Transferred(callback, name, content, total, size, k)) == Chunks(content, total, size, k)
  {
    if k > 0 {
      TransferredPosts(callback, name, content, total, size, k - 1);
      var before := Transferred(callback, name, content, total, size, k - 1);
      PostedStep(before, ChunkPost(name, content, total, size, k - 1), callback, Upto(total, size, k));
    }
  }

  lemma ConcatSnoc(parts: seq<Bytes>, part: Bytes)
    ensures Concat(parts + [part]) == Concat(parts) + part
  {
    assert (parts + [part])[..|parts|] == parts;
  }

  lemma Slices(content: Bytes, lo: nat, hi: nat)
    requires lo <= hi <= |content|
    ensures content[..lo] + content[lo..hi] == content[..hi]
  {
  }

  lemma {:induction false} ConcatChunks(content: Bytes, size: nat, k: nat)
    ensures Concat(Chunks(content, |content|, size, k)) == content[..Upto(|content|, size, k)]
  {
    if k > 0 {
      ConcatChunks(content, size, k - 1);
      ConcatSnoc(Chunks(content, |content|, size, k - 1), Chunk(content, |content|, size, k - 1));
      Slices(content, Upto(|content|, size, k - 1), Upto(|content|, size, k));
    }
  }

  lemma ChunkSizes(content: Bytes, size: nat, n: nat, i: nat)
    requires size > 0 && n >= 1 && Offset(size, n - 1) < |content| <= Offset(size, n) && i < n
    ensures i < n - 1 ==> |Chunk(content, |content|, size, i)| == size
    ensures i == n - 1 ==> 1 <= |Chunk(content, |content|, size, i)| <= size
  {
    OffsetGrows(size, i, n - 1);
    if i < n - 1 {
      OffsetGrows(size, i + 1, n - 1);
    }
  }

  lemma ChunksSized(content: Bytes, size: nat, n: nat)
    requires size > 0 && n >= 1 && Offset(size, n - 1) < |content| <= Offset(size, n)
    ensures var posted := Chunks(content, |content|, size, n);
            (forall i :: 0 <= i < n - 1 ==> |posted[i]| == size) && 1 <= |posted[n - 1]| <= size
  {
    forall i: nat | i < n
      ensures i < n - 1 ==> |Chunk(content, |content|, size, i)| == size
      ensures i == n - 1 ==> 1 <= |Chunk(content, |content|, size, i)| <= size
    {
      ChunkSizes(content, size, n, i);
    }
  }

  lemma ChunksAreExact(content: Bytes, size: nat, n: nat)
    requires size > 0 && n >= 1 && Offset(size, n - 1) < |content| <= Offset(size, n)
    ensures var posted := Chunks(content, |content|, size, n);
            && (n - 1) * size < |content| <= n * size
            && Concat(posted) == content
            && (forall i :: 0 <= i < n - 1 ==> |posted[i]| == size)
            && 1 <= |posted[n - 1]| <= size
  {
    ConcatChunks(content, size, n);
    assert content[..|content|] == content;
    OffsetIsProduct(size, n);
    OffsetIsProduct(size, n - 1);
    ChunksSized(content, size, n);
  }

  /** The chunks of a whole upload: `ceil(total / size)` of them, all full but the last, which has 1 to `size` bytes. */
  lemma WholeUploadIsExact(callback: bool, name: string, content: Bytes, size: nat)
    requires size > 0 && content != []
    ensures var posted := Posted(WholeUpload(callback, name, content, |content|, size));
            && |posted| >= 1 && (|posted| - 1) * size < |content| <= |posted| * size
            && Concat(posted) == content
            && (forall i :: 0 <= i < |posted| - 1 ==> |posted[i]| == size)
            && 1 <= |posted[|posted| - 1]| <= size
  {
    var n := TotalChunks(|content|, size);
    CeilingChunks(|content|, size);
    TransferredPosts(callback, name, content, |content|, size, n);
    ChunksAreExact(content, size, n);
  }

  lemma {:induction false} TransferredReports(name: string, content: Bytes, size: nat, k: nat)
    requires size > 0 && (k == 0 || Offset(size, k - 1) < |content|)
    ensures var reported := Reported(Transferred(true, name, content, |content|, size, k));
            |reported| == k && forall i :: 0 <= i < k ==> reported[i] == Upto(|content|, size, i + 1)
  {
    if k > 0 {
      var total := |content|;
      if k > 1 {
        OffsetGrows(size, k - 2, k - 1);
      }
      TransferredReports(name, content, size, k - 1);
      var before := Transferred(true, name, content, total, size, k - 1);
      ReportedStep(before, ChunkPost(name, content, total, size, k - 1), Upto(total, size, k));
    }
  }

  /** Progress rises strictly from above 0 and reaches the total with the last report only. */
  lemma WholeUploadProgress(name: string, content: Bytes, size: nat)
    requires size > 0 && content != []
    ensures var reported := Reported(WholeUpload(true, name, content, |content|, size));
            && |reported| == TotalChunks(|content|, size) >= 1
            && reported[0] > 0 && reported[|reported| - 1] == |content|
            && (forall i, j :: 0 <= i < j < |reported| ==> reported[i] < reported[j])
  {
    var n := TotalChunks(|content|, size);
    CeilingChunks(|content|, size);
    TransferredReports(name, content, size, n);
    var reported := Reported(WholeUpload(true, name, content, |content|, size));
    forall i, j | 0 <= i < j < n
      ensures reported[i] < reported[j]
    {
      OffsetGrows(size, i + 1, n - 1);
      OffsetGrows(size, i + 1, j + 1);
    }
    assert Offset(size, 1) == size;
  }

  /** Progress tells the truth: each report counts exactly the bytes of the chunks posted before it. */
  ghost predicate HonestReports(log: seq<Action>) {
    forall i :: 0 <= i < |log| && log[i].Progress? ==> log[i].count == |Concat(Posted(log[..i]))|
  }

  lemma HonestStep(log: seq<Action>, post: Action, callback: bool, count: nat)
    requires HonestReports(log) && post.Post? && count == |Concat(Posted(log + [post]))|
    ensures HonestReports(log + [post] + Report(callback, count))
  {
    var r := log + [post] + Report(callback, count);
    forall i | 0 <= i < |r| && r[i].Progress?
      ensures r[i].count == |Concat(Posted(r[..i]))|
    {
      if i < |log| {
        assert r[..i] == log[..i];
      } else {
        assert r[..i] == log + [post];
      }
    }
  }

  lemma {:induction false} TransferredIsHonest(callback: bool, name: string, content: Bytes, size: nat, k: nat)
    requires size > 0 && (k == 0 || Offset(size, k - 1) < |content|)
    ensures HonestReports(Transferred(callback, name, content, |content|, size, k))
  {
    if k > 0 {
      var total := |content|;
      if k > 1 {
        OffsetGrows(size, k - 2, k - 1);
      }
      TransferredIsHonest(callback, name, content, size, k - 1);
      TransferredPosts(callback, name, content, total, size, k);
      ConcatChunks(content, size, k);
      var before := Transferred(callback, name, content, total, size, k - 1);
      var post := ChunkPost(name, content, total, size, k - 1);
      PostedStep(before, post, callback, Upto(total, size, k));
      HonestStep(before, post, callback, Upto(total, size, k));
    }
  }

  /** Every report of a whole upload counts exactly the bytes accepted before it. */
  lemma WholeUploadIsHonest(callback: bool, name: string, content: Bytes, size: nat)
    requires size > 0 && content != []
    ensures HonestReports(WholeUpload(callback, name, content, |content|, size))
  {
    CeilingChunks(|content|, size);
    TransferredIsHonest(callback, name, content, size, TotalChunks(|content|, size));
  }

  // ------------------------------------------------------------- Pro upload

  /** The inner loop: read until the chunk is full or the file ends. */
  method ReadChunk(file: ImageFile, remote: Remote, expected: nat) returns (ok: bool, chunk: Bytes)
    requires file.Valid()
    modifies file, remote`past, remote`session
    ensures file.Valid() && old(file.pos) <= file.pos
    ensures ok ==> chunk == file.content[old(file.pos)..file.pos] && file.pos == Min(old(file.pos) + expected, |file.content|)
    ensures remote.Calm() ==> ok && remote.session.live == old(remote.session.live)
    ensures Kept(remote.env, old(remote.session), remote.session)
  {
    chunk := [];
    ghost var start := file.pos;
    while |chunk| < expected
      invariant file.Valid() && start <= file.pos <= start + expected
      invariant chunk == file.content[start..file.pos]
      invariant remote.Calm() ==> remote.session.live == old(remote.session.live)
      invariant Kept(remote.env, old(remote.session), remote.session)
      decreases expected - |chunk|
    {
      ok := remote.Await();
      if !ok {
        return;
      }
      var part := file.Read(expected - |chunk|);
      if part == [] {
        break;
      }
      chunk := chunk + part;
    }
    ok := true;
  }

  /** A posted chunk has its full size, and the last one is posted only for a file of exactly `total` bytes. */
  predicate FullPost(a: Action, content: Bytes, total: nat, size: nat)
    requires size > 0
  {
    a.Post? ==>
      && |a.chunk| == Upto(total, size, a.index + 1) - Upto(total, size, a.index)
      && (a.index + 1 == TotalChunks(total, size) ==> |content| == total)
  }

  predicate FullPosts(entries: seq<Action>, content: Bytes, total: nat, size: nat)
    requires size > 0
  {
    entries == []
    || (FullPosts(entries[..|entries| - 1], content, total, size) && FullPost(entries[|entries| - 1], content, total, size))
  }

  lemma {:induction false} FullPostsMean(entries: seq<Action>, content: Bytes, total: nat, size: nat, i: nat)
    requires size > 0 && FullPosts(entries, content, total, size) && i < |entries|
    ensures FullPost(entries[i], content, total, size)
  {
    if i < |entries| - 1 {
      FullPostsMean(entries[..|entries| - 1], content, total, size, i);
    }
  }

  lemma FullPostsSnoc(entries: seq<Action>, a: Action, content: Bytes, total: nat, size: nat)
    requires size > 0 && FullPosts(entries, content, total, size) && FullPost(a, content, total, size)
    ensures FullPosts(entries + [a], content, total, size)
  {
    assert (entries + [a])[..|entries|] == entries;
  }

  /** The log `entries` is the start of a whole upload, in which every posted chunk is a full one. */
  ghost predicate PartialUpload(callback: bool, name: string, content: Bytes, total: nat, size: nat, entries: seq<Action>)
    requires size > 0
  {
    && entries <= WholeUpload(callback, name, content, total, size)
    && FullPosts(entries, content, total, size)
  }

  lemma {:induction false} TransferredPrefix(callback: bool, name: string, content: Bytes, total: nat, size: nat, k: nat, n: nat)
    requires size > 0 && k <= n
    ensures Transferred(callback, name, content, total, size, k) <= Transferred(callback, name, content, total, size, n)
  {
    if k < n {
      TransferredPrefix(callback, name, content, total, size, k, n - 1);
    }
  }

  lemma PartialExtends(callback: bool, name: string, content: Bytes, total: nat, size: nat, k: nat)
    requires size > 0 && k < TotalChunks(total, size)
    requires PartialUpload(callback, name, content, total, size, Transferred(callback, name, content, total, size, k))
    requires FullPost(ChunkPost(name, content, total, size, k), content, total, size)
    ensures PartialUpload(callback, name, content, total, size,
              Transferred(callback, name, content, total, size, k) + [ChunkPost(name, content, total, size, k)])
    ensures PartialUpload(callback, name, content, total, size, Transferred(callback, name, content, total, size, k + 1))
  {
    TransferredPrefix(callback, name, content, total, size, k + 1, TotalChunks(total, size));
    var done := Transferred(callback, name, content, total, size, k);
    var post := ChunkPost(name, content, total, size, k);
    FullPostsSnoc(done, post, content, total, size);
    if callback {
      FullPostsSnoc(done + [post], Progress(Upto(total, size, k + 1)), content, total, size);
    } else {
      assert done + [post] + [] == done + [post];
    }
  }

  /** The log after `k` whole chunks, and perhaps the post of the next one. */
  function UploadLog(before: seq<Action>, callback: bool, name: string, content: Bytes, total: nat, size: nat, k: nat,
                     posting: bool): seq<Action>
    requires size > 0
  {
    before + (Transferred(callback, name, content, total, size, k)
              + if posting then [ChunkPost(name, content, total, size, k)] else [])
  }

  ghost predicate UploadedTo(log: seq<Action>, before: seq<Action>, callback: bool, name: string,
                             content: Bytes, total: nat, size: nat, k: nat, posting: bool)
    requires size > 0
  {
    log == UploadLog(before, callback, name, content, total, size, k, posting)
  }

  lemma ChunkReported(log: seq<Action>, before: seq<Action>, callback: bool, name: string,
                      content: Bytes, total: nat, size: nat, k: nat)
    requires size > 0 && UploadedTo(log, before, callback, name, content, total, size, k, true)
    ensures UploadedTo(log + Report(callback, Upto(total, size, k + 1)), before, callback, name, content, total, size, k + 1, false)
  {
    var done := Transferred(callback, name, content, total, size, k) + [ChunkPost(name, content, total, size, k)];
    assert before + done + Report(callback, Upto(total, size, k + 1)) == before + (done + Report(callback, Upto(total, size, k + 1)));
  }

  /** Reading one chunk and checking that the file still has the size it was listed with. */
  method NextChunk(file: ImageFile, remote: Remote, total: nat, size: nat, k: nat) returns (ok: bool, chunk: Bytes)
    requires file.Valid() && size > 0 && k < TotalChunks(total, size)
    requires file.pos == Upto(total, size, k) <= |file.content| && Upto(total, size, k) < total
    requires Upto(total, size, k + 1) == total <==> k + 1 == TotalChunks(total, size)
    modifies file, remote`past, remote`session
    ensures file.Valid()
    ensures ok ==> chunk == Chunk(file.content, total, size, k) && file.pos == Upto(total, size, k + 1) <= |file.content|
    ensures ok ==> |chunk| == Upto(total, size, k + 1) - Upto(total, size, k)
    ensures ok && k + 1 == TotalChunks(total, size) ==> |file.content| == total
    ensures remote.Calm() ==> remote.session.live == old(remote.session.live) && (|file.content| == total ==> ok)
    ensures Kept(remote.env, old(remote.session), remote.session)
  {
    var expected := Min(size, total - Upto(total, size, k));
    ok, chunk := ReadChunk(file, remote, expected);
    if !ok {
      return;
    }
    if |chunk| != expected {
      ok := false;
      return;
    }
    if k + 1 == TotalChunks(total, size) {
      ok := remote.Await();
      if !ok {
        return;
      }
      var extra := file.Read(1);
      ok := extra == [];
    }
  }

  /** One round of the loop: read and check the chunk, post it, report it. */
  method TransferChunk(file: ImageFile, remote: Remote, callback: bool, name: string, total: nat, size: nat, k: nat,
                       ghost before: seq<Action>)
    returns (ok: bool, started: bool, ghost posted: bool, ghost reported: bool)
    requires file.Valid() && size > 0 && k < TotalChunks(total, size)
    requires file.pos == Upto(total, size, k) <= |file.content| && Upto(total, size, k) < total
    requires Upto(total, size, k + 1) == total <==> k + 1 == TotalChunks(total, size)
    requires UploadedTo(remote.log, before, callback, name, file.content, total, size, k, false)
    modifies file, remote
    ensures file.Valid()
    ensures posted ==> started
    ensures reported ==> posted && UploadedTo(remote.log, before, callback, name, file.content, total, size, k + 1, false)
    ensures !reported ==> !ok && UploadedTo(remote.log, before, callback, name, file.content, total, size, k, posted)
    ensures posted ==> FullPost(ChunkPost(name, file.content, total, size, k), file.content, total, size)
    ensures ok ==> reported && file.pos == Upto(total, size, k + 1) <= |file.content|
    ensures var post := ChunkPost(name, file.content, total, size, k);
            && (remote.Calm() && old(remote.session.live) && |file.content| == total ==> posted)
            && (remote.Calm() && old(remote.session.live) && |file.content| == total && remote.Accepts(post) ==> ok && remote.session.live)
            && (remote.Calm() && old(remote.session.live) && |file.content| == total && remote.Refuses(post) ==>
                  !ok && !reported && !remote.session.live)
            && (remote.Calm() && old(remote.session.live) && |file.content| == total && remote.Fails(post) ==>
                  !ok && !reported && remote.session.live)
    ensures Kept(remote.env, old(remote.session), remote.session)
  {
    started, posted, reported := false, false, false;
    var chunk;
    ok, chunk := NextChunk(file, remote, total, size, k);
    if !ok {
      return;
    }
    started, posted := true, remote.session.live;
    ok := remote.Request(Post(name, k, TotalChunks(total, size), chunk));
    assert UploadedTo(remote.log, before, callback, name, file.content, total, size, k, posted);
    if !ok {
      return;
    }
    ChunkReported(remote.log, before, callback, name, file.content, total, size, k);
    reported := true;
    ok := remote.ReportProgress(callback, Upto(total, size, k + 1));
  }

  lemma RoundIsPartial(log: seq<Action>, before: seq<Action>, callback: bool, name: string,
                       content: Bytes, total: nat, size: nat, k: nat, posted: bool, reported: bool)
    requires size > 0 && k < TotalChunks(total, size)
    requires PartialUpload(callback, name, content, total, size, Transferred(callback, name, content, total, size, k))
    requires posted ==> FullPost(ChunkPost(name, content, total, size, k), content, total, size)
    requires reported ==> posted
    requires if reported then UploadedTo(log, before, callback, name, content, total, size, k + 1, false)
             else UploadedTo(log, before, callback, name, content, total, size, k, posted)
    ensures before <= log && PartialUpload(callback, name, content, total, size, log[|before|..])
    ensures log[|before|..] != [] <==> posted || k > 0
    ensures reported ==> PartialUpload(callback, name, content, total, size, Transferred(callback, name, content, total, size, k + 1))
  {
    var done := Transferred(callback, name, content, total, size, k);
    assert k > 0 <==> done != [];
    assert done + [] == done;
    if posted {
      PartialExtends(callback, name, content, total, size, k);
    }
    var next := Transferred(callback, name, content, total, size, k + 1);
    assert next + [] == next;
  }

  /** The bounds one round needs, and that the last chunk is the one that ends at `total`. */
  lemma RoundBounds(total: nat, size: nat, k: nat)
    requires size > 0 && total > 0 && k < TotalChunks(total, size)
    ensures Upto(total, size, k) < total
    ensures Upto(total, size, k + 1) == total <==> k + 1 == TotalChunks(total, size)
  {
    var chunks := TotalChunks(total, size);
    CeilingChunks(total, size);
    OffsetGrows(size, k, chunks - 1);
    if k + 1 < chunks {
      OffsetGrows(size, k + 1, chunks - 1);
    }
  }

  /** The device accepts the POSTs of the first `k` chunks. */
  ghost predicate AcceptsFirst(remote: Remote, name: string, content: Bytes, total: nat, size: nat, k: nat)
    requires size > 0
  {
    k > 0 ==>
      AcceptsFirst(remote, name, content, total, size, k - 1) && remote.Accepts(ChunkPost(name, content, total, size, k - 1))
  }

  lemma {:induction false} AcceptsEach(remote: Remote, name: string, content: Bytes, total: nat, size: nat, k: nat, j: nat)
    requires size > 0 && j < k && AcceptsFirst(remote, name, content, total, size, k)
    ensures remote.Accepts(ChunkPost(name, content, total, size, j))
  {
    if j < k - 1 {
      AcceptsEach(remote, name, content, total, size, k - 1, j);
    }
  }

  /** It accepts the first `k`; the next POST is answered with 401, or raises without ending the session. */
  ghost predicate StopsAt(remote: Remote, name: string, content: Bytes, total: nat, size: nat, k: nat)
    requires size > 0
  {
    var post := ChunkPost(name, content, total, size, k);
    AcceptsFirst(remote, name, content, total, size, k) && (remote.Refuses(post) || remote.Fails(post))
  }

  /**
   The loop over the chunks: on success the whole upload, on any failure the start of one. When only the POST of
   chunk `stop` raises, it is the last action, and the session is gone exactly if that was a 401.
   */
  method TransferChunks(file: ImageFile, remote: Remote, callback: bool, name: string, total: nat, size: nat, ghost stop: nat)
    returns (ok: bool, started: bool)
    requires file.Valid() && file.pos == 0 && total > 0 && size > 0
    modifies file, remote
    ensures old(remote.log) <= remote.log
    ensures PartialUpload(callback, name, file.content, total, size, remote.log[|old(remote.log)|..])
    ensures ok ==> remote.log == old(remote.log) + WholeUpload(callback, name, file.content, total, size) && |file.content| == total
    ensures remote.log != old(remote.log) ==> started
    ensures remote.Calm() && old(remote.session.live) && AcceptsFirst(remote, name, file.content, total, size, TotalChunks(total, size)) ==>
              (ok <==> |file.content| == total)
    ensures remote.Calm() && old(remote.session.live) && |file.content| == total && stop < TotalChunks(total, size)
            && StopsAt(remote, name, file.content, total, size, stop) ==>
              && !ok && started && (remote.session.live <==> remote.Fails(ChunkPost(name, file.content, total, size, stop)))
              && UploadedTo(remote.log, old(remote.log), callback, name, file.content, total, size, stop, true)
    ensures Kept(remote.env, old(remote.session), remote.session)
  {
    ghost var before := remote.log;
    started := false;
    NothingUploaded(before, callback, name, file.content, total, size);
    ok := remote.Await();
    if ok {
      ok, started := PostChunks(file, remote, callback, name, total, size, stop, before);
    }
  }

  lemma NothingUploaded(before: seq<Action>, callback: bool, name: string, content: Bytes, total: nat, size: nat)
    requires size > 0
    ensures before[|before|..] == [] && PartialUpload(callback, name, content, total, size, [])
    ensures UploadedTo(before, before, callback, name, content, total, size, 0, false)
  {
    assert before + [] == before;
  }

  /** What holds between two rounds, with `k` chunks posted. */
  ghost predicate Between(file: ImageFile, remote: Remote, before: seq<Action>, callback: bool, name: string,
                          total: nat, size: nat, k: nat)
    requires size > 0
    reads file, remote
  {
    && file.Valid() && file.pos == Upto(total, size, k) <= |file.content|
    && UploadedTo(remote.log, before, callback, name, file.content, total, size, k, false)
    && FullPosts(Transferred(callback, name, file.content, total, size, k), file.content, total, size)
    && (k == TotalChunks(total, size) ==> |file.content| == total)
  }

  method PostChunks(file: ImageFile, remote: Remote, callback: bool, name: string, total: nat, size: nat, ghost stop: nat,
                    ghost before: seq<Action>)
    returns (ok: bool, started: bool)
    requires file.Valid() && file.pos == 0 && total > 0 && size > 0 && remote.log == before
    modifies file, remote
    ensures before <= remote.log
    ensures PartialUpload(callback, name, file.content, total, size, remote.log[|before|..])
    ensures ok ==> remote.log == before + WholeUpload(callback, name, file.content, total, size) && |file.content| == total
    ensures remote.log != before ==> started
    ensures remote.Calm() && old(remote.session.live) && AcceptsFirst(remote, name, file.content, total, size, TotalChunks(total, size)) ==>
              (ok <==> |file.content| == total)
    ensures remote.Calm() && old(remote.session.live) && |file.content| == total && stop < TotalChunks(total, size)
            && StopsAt(remote, name, file.content, total, size, stop) ==>
              && !ok && started && (remote.session.live <==> remote.Fails(ChunkPost(name, file.content, total, size, stop)))
              && UploadedTo(remote.log, before, callback, name, file.content, total, size, stop, true)
    ensures Kept(remote.env, old(remote.session), remote.session)
  {
    var chunks := TotalChunks(total, size);
    ghost var smooth := remote.Calm() && remote.session.live && |file.content| == total;
    ghost var all := AcceptsFirst(remote, name, file.content, total, size, chunks);
    ghost var stops := stop < chunks && StopsAt(remote, name, file.content, total, size, stop);
    ghost var last := ChunkPost(name, file.content, total, size, stop);
    ghost var refusal, failing := stops && remote.Refuses(last), stops && remote.Fails(last);
    started := false;
    NothingUploaded(before, callback, name, file.content, total, size);
    ok := true;
    for k := 0 to chunks
      invariant ok && Between(file, remote, before, callback, name, total, size, k)
      invariant k > 0 ==> started
      invariant smooth && all ==> remote.session.live
      invariant smooth && stops ==> k <= stop && remote.session.live
      invariant Kept(remote.env, old(remote.session), remote.session)
    {
      ghost var post := ChunkPost(name, file.content, total, size, k);
      ghost var accepts, refuses, fails := all || (stops && k < stop), refusal && k == stop, failing && k == stop;
      if accepts {
        AcceptsEach(remote, name, file.content, total, size, if all then chunks else stop, k);
      }
      var began;
      ok, began := Round(file, remote, callback, name, total, size, k, before, accepts, refuses, fails);
      started := started || began;
      if !ok {
        return;
      }
    }
    WholeUploaded(remote.log, before, callback, name, file.content, total, size);
  }

  lemma WholeUploaded(log: seq<Action>, before: seq<Action>, callback: bool, name: string, content: Bytes, total: nat, size: nat)
    requires size > 0 && UploadedTo(log, before, callback, name, content, total, size, TotalChunks(total, size), false)
    ensures log == before + WholeUpload(callback, name, content, total, size)
    ensures before <= log && log[|before|..] == WholeUpload(callback, name, content, total, size)
  {
    var whole := WholeUpload(callback, name, content, total, size);
    assert whole + [] == whole;
  }

  /** One round, from one state between rounds to the next, or to a failure. */
  method Round(file: ImageFile, remote: Remote, callback: bool, name: string, total: nat, size: nat, k: nat, ghost before: seq<Action>,
               ghost accepts: bool, ghost refuses: bool, ghost fails: bool)
    returns (ok: bool, started: bool)
    requires total > 0 && size > 0 && k < TotalChunks(total, size)
    requires var post := ChunkPost(name, file.content, total, size, k);
             (accepts ==> remote.Accepts(post)) && (refuses ==> remote.Refuses(post)) && (fails ==> remote.Fails(post))
    requires Between(file, remote, before, callback, name, total, size, k)
    modifies file, remote
    ensures ok ==> started && Between(file, remote, before, callback, name, total, size, k + 1)
    ensures before <= remote.log && PartialUpload(callback, name, file.content, total, size, remote.log[|before|..])
    ensures remote.log != before ==> started || k > 0
    ensures remote.Calm() && old(remote.session.live) && |file.content| == total ==>
              && (accepts ==> ok && remote.session.live)
              && (refuses ==> !remote.session.live) && (fails ==> remote.session.live)
              && (refuses || fails ==>
                    !ok && started && UploadedTo(remote.log, before, callback, name, file.content, total, size, k, true))
    ensures Kept(remote.env, old(remote.session), remote.session)
  {
    RoundBounds(total, size, k);
    TransferredPrefix(callback, name, file.content, total, size, k, TotalChunks(total, size));
    ghost var posted, reported;
    ok, started, posted, reported := TransferChunk(file, remote, callback, name, total, size, k, before);
    RoundIsPartial(remote.log, before, callback, name, file.content, total, size, k, posted, reported);
  }

  // ------------------------------------------------------------ non-Pro upload

  function Written(log: seq<Action>): seq<Bytes> {
    if log == [] then []
    else
      var n := |log| - 1;
      Written(log[..n]) + if log[n].Write? then [log[n].part] else []
  }

  predicate Rising(counts: seq<nat>, low: int, high: int) {
    && (forall i :: 0 <= i < |counts| ==> low < counts[i] <= high)
    && (forall i, j :: 0 <= i < j < |counts| ==> counts[i] < counts[j])
  }

  predicate Below(counts: seq<nat>, limit: int) {
    forall i :: 0 <= i < |counts| ==> counts[i] < limit
  }

  /** Each report of a streamed body counts exactly the bytes written before it. */
  predicate HonestStream(entries: seq<Action>) {
    entries == [] ||
    var front, last := entries[..|entries| - 1], entries[|entries| - 1];
    HonestStream(front) && (last.Progress? ==> last.count == |Concat(Written(front))|)
  }

  lemma {:induction false} HonestStreamMeans(entries: seq<Action>, i: nat)
    requires HonestStream(entries) && i < |entries| && entries[i].Progress?
    ensures entries[i].count == |Concat(Written(entries[..i]))|
  {
    var n := |entries| - 1;
    if i < n {
      HonestStreamMeans(entries[..n], i);
      assert entries[..n][..i] == entries[..i];
    }
  }

  /**
   The log of a stream that has got `bytes` bytes into the file: parts of at most `size` bytes, each the file's next
   bytes, with at most one report after each, of the bytes so far and never of the total.
   */
  predicate StreamedTo(entries: seq<Action>, content: Bytes, total: nat, size: nat, bytes: int) {
    if entries == [] then bytes == 0
    else
      var front := entries[..|entries| - 1];
      match entries[|entries| - 1]
      case Write(part) =>
        && 1 <= |part| <= size && |part| <= bytes <= |content| && bytes <= total
        && part == content[bytes - |part|..bytes]
        && StreamedTo(front, content, total, size, bytes - |part|)
      case Progress(count) =>
        && count == bytes < total && front != [] && front[|front| - 1].Write?
        && StreamedTo(front, content, total, size, bytes)
      case _ => false
  }

  /** Such a log wrote the first `bytes` bytes, and its reports rise, tell the truth and stay below the total. */
  ghost predicate StreamMeans(entries: seq<Action>, content: Bytes, total: nat, size: nat, bytes: nat) {
    && bytes <= |content| && bytes <= total
    && Concat(Written(entries)) == content[..bytes]
    && (forall i :: 0 <= i < |Written(entries)| ==> 1 <= |Written(entries)[i]| <= size)
    && Rising(Reported(entries), 0, Min(bytes, total - 1))
    && HonestStream(entries)
    && Posted(entries) == []
  }

  lemma WriteStreams(entries: seq<Action>, part: Bytes, content: Bytes, total: nat, size: nat, bytes: nat)
    requires StreamMeans(entries, content, total, size, bytes) && 0 < |part| <= size
    requires bytes + |part| <= |content| && bytes + |part| <= total && part == content[bytes..bytes + |part|]
    ensures StreamMeans(entries + [Write(part)], content, total, size, bytes + |part|)
    ensures Below(Reported(entries + [Write(part)]), bytes + |part|)
  {
    var r := entries + [Write(part)];
    assert r[..|r| - 1] == entries;
    ConcatSnoc(Written(entries), part);
    Slices(content, bytes, bytes + |part|);
    assert Reported(r) == Reported(entries) && Posted(r) == Posted(entries);
  }

  /** The writes since the last report make the next one larger. */
  lemma ReportStreams(entries: seq<Action>, content: Bytes, total: nat, size: nat, bytes: nat)
    requires StreamMeans(entries, content, total, size, bytes) && 0 < bytes < total
    requires Below(Reported(entries), bytes)
    ensures StreamMeans(entries + [Progress(bytes)], content, total, size, bytes)
  {
    var r := entries + [Progress(bytes)];
    assert r[..|r| - 1] == entries;
    assert Written(r) == Written(entries) && Posted(r) == Posted(entries);
  }

  lemma {:induction false} StreamedMeans(entries: seq<Action>, content: Bytes, total: nat, size: nat, bytes: nat)
    requires StreamedTo(entries, content, total, size, bytes) && total > 0
    ensures StreamMeans(entries, content, total, size, bytes)
    decreases entries, 1
  {
    if entries != [] {
      var n := |entries| - 1;
      if entries[n].Write? {
        WriteMeans(entries, content, total, size, bytes);
      } else {
        WriteMeans(entries[..n], content, total, size, bytes);
        ReportStreams(entries[..n], content, total, size, bytes);
        assert entries == entries[..n] + [Progress(bytes)];
      }
    }
  }

  lemma {:induction false} WriteMeans(entries: seq<Action>, content: Bytes, total: nat, size: nat, bytes: nat)
    requires StreamedTo(entries, content, total, size, bytes) && total > 0
    requires entries != [] && entries[|entries| - 1].Write?
    ensures StreamMeans(entries, content, total, size, bytes) && Below(Reported(entries), bytes) && bytes > 0
    decreases entries, 0
  {
    var front, part := entries[..|entries| - 1], entries[|entries| - 1].part;
    assert front + [Write(part)] == entries;
    StreamedMeans(front, content, total, size, bytes - |part|);
    WriteStreams(front, part, content, total, size, bytes - |part|);
  }

  /** The log after one round: a write, and perhaps a report. An empty part is no round. */
  function AfterRound(log: seq<Action>, part: Bytes, bytes: nat, reported: bool): seq<Action> {
    if part == [] then log
    else if reported then log + [Write(part)] + [Progress(bytes + |part|)]
    else log + [Write(part)]
  }

  lemma RoundStreams(entries: seq<Action>, part: Bytes, content: Bytes, total: nat, size: nat, bytes: nat, reported: bool)
    requires StreamedTo(entries, content, total, size, bytes) && |part| <= size
    requires bytes + |part| <= |content| && bytes + |part| <= total && part == content[bytes..bytes + |part|]
    requires reported ==> bytes + |part| < total
    ensures StreamedTo(AfterRound(entries, part, bytes, reported), content, total, size, bytes + |part|)
  {
    if part != [] {
      var written := entries + [Write(part)];
      assert written[..|written| - 1] == entries;
      assert StreamedTo(written, content, total, size, bytes + |part|);
      if reported {
        var r := written + [Progress(bytes + |part|)];
        assert r[..|r| - 1] == written;
      }
    }
  }

  /** The log is `before` and then a stream of `bytes` bytes. */
  ghost predicate StreamedAfter(before: seq<Action>, log: seq<Action>, content: Bytes, total: nat, size: nat, bytes: nat) {
    before <= log && StreamedTo(log[|before|..], content, total, size, bytes)
  }

  lemma StreamStarts(before: seq<Action>, content: Bytes, total: nat, size: nat)
    ensures StreamedAfter(before, before, content, total, size, 0)
  {
    assert before[|before|..] == [];
  }

  lemma RoundStreamsAfter(before: seq<Action>, log: seq<Action>, part: Bytes, content: Bytes, total: nat, size: nat,
                          bytes: nat, reported: bool)
    requires StreamedAfter(before, log, content, total, size, bytes) && |part| <= size
    requires bytes + |part| <= |content| && bytes + |part| <= total && part == content[bytes..bytes + |part|]
    requires reported ==> bytes + |part| < total
    ensures StreamedAfter(before, AfterRound(log, part, bytes, reported), content, total, size, bytes + |part|)
  {
    var entries := log[|before|..];
    RoundStreams(entries, part, content, total, size, bytes, reported);
    RoundAfter(before, log, part, bytes, reported);
  }

  lemma RoundAfter(before: seq<Action>, log: seq<Action>, part: Bytes, bytes: nat, reported: bool)
    requires before <= log
    ensures before <= AfterRound(log, part, bytes, reported)
    ensures AfterRound(log, part, bytes, reported)[|before|..] == AfterRound(log[|before|..], part, bytes, reported)
  {
  }

  /** `_ImageProgressPayload.write`: stream the file in bounded reads, reporting every point but the end. */
  method StreamBody(file: ImageFile, remote: Remote, callback: bool, total: nat, size: nat)
    returns (ok: bool, ghost bytes: nat)
    requires file.Valid() && file.pos == 0 && total > 0 && size > 0
    modifies file, remote
    ensures old(remote.log) <= remote.log
    ensures StreamedTo(remote.log[|old(remote.log)|..], file.content, total, size, bytes)
    ensures ok ==> |file.content| == total == bytes
    ensures remote.Calm() ==> (ok <==> |file.content| == total)
  {
    ok, bytes := StreamParts(file, remote, callback, total, size);
    if !ok {
      return;
    }
    ok := remote.Await();
    if !ok {
      return;
    }
    var extra := file.Read(1);
    ok := extra == [];
  }

  /** The loop; `bytes` is how far it gets. */
  method StreamParts(file: ImageFile, remote: Remote, callback: bool, total: nat, size: nat)
    returns (ok: bool, ghost bytes: nat)
    requires file.Valid() && file.pos == 0 && total > 0 && size > 0
    modifies file, remote
    ensures file.Valid() && StreamedAfter(old(remote.log), remote.log, file.content, total, size, bytes)
    ensures ok ==> file.pos == bytes == total
    ensures remote.Calm() ==> (ok <==> |file.content| >= total)
  {
    bytes := 0;
    StreamStarts(remote.log, file.content, total, size);
    ok := remote.Await();
    if !ok {
      return;
    }
    var transferred := 0;
    while transferred < total
      invariant ok && file.Valid() && file.pos == transferred == bytes <= total
      invariant StreamedAfter(old(remote.log), remote.log, file.content, total, size, transferred)
      decreases total - transferred
    {
      var count;
      ok, count := StreamRound(file, remote, callback, total, size, transferred, old(remote.log));
      transferred := transferred + count;
      bytes := transferred;
      if !ok {
        return;
      }
    }
  }

  /** One round, as it extends what has been streamed so far. */
  method StreamRound(file: ImageFile, remote: Remote, callback: bool, total: nat, size: nat, transferred: nat, ghost before: seq<Action>)
    returns (ok: bool, count: nat)
    requires file.Valid() && file.pos == transferred < total && size > 0
    requires StreamedAfter(before, remote.log, file.content, total, size, transferred)
    modifies file, remote
    ensures file.Valid() && transferred + count <= total
    ensures StreamedAfter(before, remote.log, file.content, total, size, transferred + count)
    ensures ok ==> count > 0 && file.pos == transferred + count
    ensures remote.Calm() ==> (ok <==> transferred < |file.content|)
  {
    ghost var log := remote.log;
    var part;
    ghost var reported;
    ok, part, reported := StreamPart(file, remote, callback, total, size, transferred);
    RoundStreamsAfter(before, log, part, file.content, total, size, transferred, reported);
    count := |part|;
  }

  /** Read, write, and report unless the end is reached. */
  method StreamPart(file: ImageFile, remote: Remote, callback: bool, total: nat, size: nat, transferred: nat)
    returns (ok: bool, part: Bytes, ghost reported: bool)
    requires file.Valid() && file.pos == transferred < total && size > 0
    modifies file, remote
    ensures file.Valid() && remote.log == AfterRound(old(remote.log), part, transferred, reported)
    ensures |part| <= size && transferred + |part| <= total && transferred + |part| <= |file.content|
    ensures part == file.content[transferred..transferred + |part|]
    ensures ok ==> part != [] && file.pos == transferred + |part|
    ensures reported ==> callback && transferred + |part| < total
    ensures ok && callback && transferred + |part| < total ==> reported
    ensures remote.Calm() ==> (ok <==> transferred < |file.content|)
  {
    part, reported := [], false;
    ok := remote.Await();
    if !ok {
      return;
    }
    part := file.Read(Min(size, total - transferred));
    if part == [] {
      ok := false;
      return;
    }
    ok := remote.Do(Write(part));
    if !ok {
      return;
    }
    var bytes := transferred + |part|;
    if bytes < total && callback {
      reported := true;
      ok := remote.ReportProgress(callback, bytes);
    }
  }

  // ---------------------------------------------------------------- upload_image

  /** The digest argument: none, one that is not a SHA-256 in hexadecimal, or one that is. */
  datatype Digest = NoDigest | Malformed | Sha256

  /** What `upload_image` is called with, and what the device lists. `name` is the remote file name. */
  datatype Request = Request(
    regular: bool, total: nat, chunkSize: int, digest: Digest, isPro: Option<bool>, nameOk: bool,
    name: string, listed: set<string>, callback: bool, overwrite: bool)

  /** What precedes the transfer: on Pro an existing image is deleted first, then 0 is reported. */
  function Preamble(req: Request): seq<Action> {
    (if req.isPro == Some(true) && req.name in req.listed then [Delete(req.name)] else []) + Report(req.callback, 0)
  }

  /** Where a transfer failed: the session then, and the number of awaits so far. */
  datatype Failure = Failure(session: Session, at: nat)

  /** The session one turn of the event loop later. */
  function NextTurn(env: Env, f: Failure): Session {
    After(env, f.session, env.turn(f.at, None).changes)
  }

  /** The cleanup, which runs one turn later, sends the DELETE: its version check passes, and the session is live after it. */
  predicate DeleteDue(env: Env, f: Failure) {
    DeleteGoes(env, NextTurn(env, f), f.at + 1)
  }

  /** All there has been since the failure is the cleanup: its turn, its version request if any, its DELETE if due. */
  ghost predicate CleanedUp(remote: Remote, name: string, f: Failure)
    reads remote
  {
    && f.at <= |remote.past|
    && remote.past[f.at..]
       == [Awaited(None, f.session)] + DeleteAwaits(remote.env, NextTurn(remote.env, f), f.at + 1, name)
  }

  /** There is only one failure after which that can be. */
  lemma FailureIsUnique(env: Env, past: seq<Awaited>, name: string, f: Failure, f': Failure)
    requires f.at <= |past| && past[f.at..] == [Awaited(None, f.session)] + DeleteAwaits(env, NextTurn(env, f), f.at + 1, name)
    requires f'.at <= |past| && past[f'.at..] == [Awaited(None, f'.session)] + DeleteAwaits(env, NextTurn(env, f'), f'.at + 1, name)
    ensures f == f'
  {
    assert past[f.at] == past[f.at..][0] && past[f'.at] == past[f'.at..][0];
  }

  /** The cleanup of a session that is kept, whose version request does not raise, is up to the device's version. */
  lemma DeleteDueByDevice(env: Env, f: Failure)
    requires f.session.live && Knows(env, f.session) && KeepsSession(env) && !env.turn(f.at + 1, Some(Detect)).raises
    ensures DeleteDue(env, f) <==> VersionAtLeast(env.device, DELETE_MINIMUM)
  {
    AfterKeeps(env, f.session, env.turn(f.at, None).changes);
    DeleteGoesByDevice(env, NextTurn(env, f), f.at + 1);
  }

  /**
   The log of a Pro upload. It succeeded with the whole file; or it failed before any chunk was posted; or it failed
   after that, and a DELETE follows what was posted exactly when it is due.
   */
  ghost predicate ProLog(req: Request, content: Bytes, env: Env, log: seq<Action>, ok: bool,
                         failure: Option<Failure>)
    requires req.chunkSize > 0
  {
    if ok then
      && failure.None? && |content| == req.total
      && log == Preamble(req) + WholeUpload(req.callback, req.name, content, req.total, req.chunkSize)
    else
      match failure
      case None => log <= Preamble(req)
      case Some(f) =>
        exists entries: seq<Action> ::
          && PartialUpload(req.callback, req.name, content, req.total, req.chunkSize, entries)
          && log == Preamble(req) + entries + if DeleteDue(env, f) then [Delete(req.name)] else []
  }

  /** The log when only the POST of chunk `k` raised: everything up to it, and the DELETE if `deleted`. */
  ghost predicate StoppedLog(req: Request, content: Bytes, log: seq<Action>, k: nat, deleted: bool)
    requires req.chunkSize > 0
  {
    exists posted ::
      && UploadedTo(posted, Preamble(req), req.callback, req.name, content, req.total, req.chunkSize, k, true)
      && log == posted + if deleted then [Delete(req.name)] else []
  }

  ghost predicate NonProLog(req: Request, content: Bytes, log: seq<Action>, ok: bool)
    requires req.chunkSize > 0
  {
    || (!ok && log <= Preamble(req) + [StreamPost(req.name)])
    || exists entries: seq<Action>, bytes: nat ::
         && StreamedTo(entries, content, req.total, req.chunkSize, bytes)
         && (ok ==> bytes == req.total == |content|)
         && (log == Preamble(req) + [StreamPost(req.name)] + entries
             || (bytes == req.total == |content|
                 && log == Preamble(req) + [StreamPost(req.name)] + entries + Report(req.callback, req.total)))
         && (ok ==> log == Preamble(req) + [StreamPost(req.name)] + entries + Report(req.callback, req.total))
  }

  /** The checks before anything is sent. */
  function Preflight(req: Request): Option<UploadError> {
    if !req.regular then Some(NotRegular)
    else if req.chunkSize <= 0 then Some(BadChunkSize)
    else if req.digest.Malformed? then Some(BadDigest)
    else if req.isPro.None? then Some(NotSupported)
    else if req.total == 0 then Some(Empty)
    else if req.isPro == Some(true) && req.digest.Sha256? then Some(NotSupported)
    else if !req.nameOk then Some(BadName)
    else None
  }

  /** Nothing is wrong with the request, and its name may be used. */
  predicate Acceptable(req: Request) {
    && req.regular && req.chunkSize > 0 && !req.digest.Malformed? && req.isPro.Some? && req.total > 0 && req.nameOk
    && (req.isPro.value ==> req.digest.NoDigest?) && (req.name in req.listed ==> req.overwrite)
  }

  /** An error says what is wrong with the request, or that a version is too old, or that something raised. */
  predicate ForCause(req: Request, error: UploadError) {
    match error
    case NotRegular => !req.regular
    case BadChunkSize => req.chunkSize <= 0
    case BadDigest => req.digest.Malformed?
    case Empty => req.total == 0
    case BadName => !req.nameOk
    case Exists => req.name in req.listed && !req.overwrite
    case NotSupported => req.isPro != Some(true) || req.digest.Sha256? || req.name in req.listed
    case Failed => true
  }

  /** The request passes the checks, and its name may be used. */
  predicate Admitted(req: Request) {
    Preflight(req).None? && (req.name !in req.listed || req.overwrite)
  }

  /** The device and the session give no trouble at all. */
  ghost predicate Smooth(remote: Remote, req: Request, content: Bytes)
    requires req.chunkSize > 0
  {
    remote.Calm() && AcceptsFirst(remote, req.name, content, req.total, req.chunkSize, TotalChunks(req.total, req.chunkSize))
  }

  /** The only trouble is that the POST of chunk `k` of an unchanged file raises, by a 401 or otherwise. */
  ghost predicate OnlyStops(remote: Remote, req: Request, content: Bytes, k: nat)
    requires req.chunkSize > 0
  {
    && remote.Calm() && |content| == req.total && k < TotalChunks(req.total, req.chunkSize)
    && StopsAt(remote, req.name, content, req.total, req.chunkSize, k)
  }

  /** That POST is not answered with 401, and the device is one that `delete_image` supports. */
  ghost predicate DeletesAt(remote: Remote, req: Request, content: Bytes, k: nat)
    requires req.chunkSize > 0
  {
    && remote.Fails(ChunkPost(req.name, content, req.total, req.chunkSize, k))
    && VersionAtLeast(remote.env.device, DELETE_MINIMUM)
  }

  /** The device's version meets what the upload itself requires, a Pro's only when it overwrites. */
  predicate Supports(req: Request, device: string) {
    if req.isPro == Some(true) then req.name in req.listed ==> VersionAtLeast(device, DELETE_MINIMUM)
    else VersionAtLeast(device, "2.3.1") && (req.digest.Sha256? ==> VersionAtLeast(device, "2.5.0"))
  }

  method UploadImage(req: Request, file: ImageFile, remote: Remote, ghost stop: nat)
    returns (r: Result<(), UploadError>, ghost failure: Option<Failure>)
    requires file.Valid() && file.pos == 0 && remote.log == []
    modifies file, remote
    ensures Preflight(req).Some? ==> r == Err(Preflight(req).value) && remote.log == []
    ensures r.Ok? || remote.log != [] ==> Acceptable(req)
    ensures r.Ok? && old(Begins(remote.env, remote.session)) && KeepsSession(remote.env) ==>
              if req.isPro.value then req.name in req.listed ==> VersionAtLeast(remote.env.device, "1.1.6")
              else VersionAtLeast(remote.env.device, "2.3.1") && (req.digest.Sha256? ==> VersionAtLeast(remote.env.device, "2.5.0"))
    ensures r.Err? ==> ForCause(req, r.error)
    ensures Preflight(req).None? && req.name in req.listed && !req.overwrite ==> remote.log == [] && r.Err?
    ensures Preflight(req).None? && req.isPro == Some(true) ==> ProLog(req, file.content, remote.env, remote.log, r.Ok?, failure)
    ensures failure.Some? ==> CleanedUp(remote, req.name, failure.value)
    ensures failure.Some? && Reliable(remote.env, old(remote.session)) ==>
              (DeleteDue(remote.env, failure.value) <==> VersionAtLeast(remote.env.device, DELETE_MINIMUM))
    ensures Preflight(req).None? && req.isPro == Some(false) ==> NonProLog(req, file.content, remote.log, r.Ok?)
    ensures Admitted(req) && Begins(remote.env, old(remote.session)) && Smooth(remote, req, file.content) ==>
              if Supports(req, remote.env.device) then r.Ok? <==> |file.content| == req.total
              else r == Err(NotSupported) && remote.log == []
    ensures Admitted(req) && Begins(remote.env, old(remote.session)) && req.isPro == Some(true)
            && Supports(req, remote.env.device) && OnlyStops(remote, req, file.content, stop) ==>
              r == Err(Failed) && StoppedLog(req, file.content, remote.log, stop, DeletesAt(remote, req, file.content, stop))
  {
    failure := None;
    var error := CheckRequest(req);
    if error.Some? {
      return Err(error.value), None;
    }
    var pro := req.isPro.value;
    error := CheckVersions(req, remote);
    if error.Some? {
      return Err(error.value), None;
    }
    var ok := remote.Get();
    if !ok {
      return Err(Failed), None;
    }
    if req.name in req.listed && !req.overwrite {
      return Err(Exists), None;
    }
    error := Prepare(req, remote);
    if error.Some? {
      return Err(error.value), None;
    }
    if pro {
      ok, failure := UploadToPro(req, file, remote, stop);
    } else {
      ok := UploadToNonPro(req, file, remote);
    }
    r := if ok then Ok(()) else Err(Failed);
  }

  /** The checks before anything is asked of the device. */
  method CheckRequest(req: Request) returns (error: Option<UploadError>)
    ensures error == Preflight(req)
    ensures error.None? && (req.name in req.listed ==> req.overwrite) <==> Acceptable(req)
    ensures error.Some? ==> ForCause(req, error.value)
  {
    if !req.regular {
      return Some(NotRegular);
    }
    if req.chunkSize <= 0 {
      return Some(BadChunkSize);
    }
    if req.digest.Malformed? {
      return Some(BadDigest);
    }
    if req.isPro.None? {
      return Some(NotSupported);
    }
    if req.total == 0 {
      return Some(Empty);
    }
    if req.isPro == Some(true) && req.digest.Sha256? {
      return Some(NotSupported);
    }
    if !req.nameOk {
      return Some(BadName);
    }
    error := None;
  }

  /** The upload begins with a live session, in which a cached version is the device's. */
  predicate Begins(env: Env, s: Session) {
    s.live && Knows(env, s)
  }

  /** So it does; it is never lost, and no version request raises. Anything else may raise, at any await. */
  ghost predicate Reliable(env: Env, s: Session) {
    Begins(env, s) && KeepsSession(env) && forall i :: !env.turn(i, Some(Detect)).raises
  }

  /** What a version check that was not passed raises: its own error, or the request's. */
  function Unsupported(passed: Option<bool>): Option<UploadError> {
    match passed
    case None => Some(Failed)
    case Some(false) => Some(NotSupported)
    case Some(true) => None
  }

  /** The non-Pro's version requirements, the second one only with a digest. */
  method CheckVersions(req: Request, remote: Remote) returns (error: Option<UploadError>)
    requires req.isPro.Some?
    modifies remote`past, remote`session
    ensures remote.Calm() && old(Begins(remote.env, remote.session)) ==>
              && Begins(remote.env, remote.session)
              && error == (if req.isPro.value || Supports(req, remote.env.device) then None else Some(NotSupported))
    ensures KeepsSession(remote.env) && old(Begins(remote.env, remote.session)) && error.None? && !req.isPro.value ==>
              VersionAtLeast(remote.env.device, "2.3.1") && (req.digest.Sha256? ==> VersionAtLeast(remote.env.device, "2.5.0"))
    ensures error.Some? ==> error.value.Failed? || (error.value.NotSupported? && !req.isPro.value)
    ensures Kept(remote.env, old(remote.session), remote.session)
  {
    error := None;
    if !req.isPro.value {
      AfterLost(remote.env, remote.session);
      var passed := remote.AtLeast("2.3.1");
      error := Unsupported(passed);
      if error.None? && req.digest.Sha256? {
        AfterLost(remote.env, remote.session);
        passed := remote.AtLeast("2.5.0");
        error := Unsupported(passed);
      }
    }
  }

  /** What precedes the transfer. On a Pro an image to overwrite is deleted, if its version is known to support that. */
  method Prepare(req: Request, remote: Remote) returns (error: Option<UploadError>)
    requires remote.log == []
    modifies remote
    ensures remote.log <= Preamble(req) && (error.None? ==> remote.log == Preamble(req))
    ensures remote.Calm() && old(Begins(remote.env, remote.session)) ==>
              && Begins(remote.env, remote.session)
              && if req.isPro == Some(true) && !Supports(req, remote.env.device) then error == Some(NotSupported) && remote.log == []
                 else error.None?
    ensures KeepsSession(remote.env) && old(Begins(remote.env, remote.session)) && error.None? ==>
              (req.isPro == Some(true) && req.name in req.listed ==> VersionAtLeast(remote.env.device, "1.1.6"))
    ensures error.Some? ==> error.value.Failed? || (error.value.NotSupported? && req.name in req.listed)
    ensures Kept(remote.env, old(remote.session), remote.session)
  {
    if req.name in req.listed && req.isPro == Some(true) {
      var deleted := remote.DeleteImage(req.name);
      if deleted != Some(true) {
        return Unsupported(deleted);
      }
    }
    var ok := remote.ReportProgress(req.callback, 0);
    error := if ok then None else Some(Failed);
  }

  /** The Pro's transfer, and the cleanup that any exception starts once the first chunk was to be posted. */
  method UploadToPro(req: Request, file: ImageFile, remote: Remote, ghost stop: nat)
    returns (ok: bool, ghost failure: Option<Failure>)
    requires file.Valid() && file.pos == 0 && req.total > 0 && req.chunkSize > 0 && remote.log == Preamble(req)
    modifies file, remote
    ensures ProLog(req, file.content, remote.env, remote.log, ok, failure)
    ensures failure.Some? ==> CleanedUp(remote, req.name, failure.value)
    ensures failure.Some? && Reliable(remote.env, old(remote.session)) ==>
              (DeleteDue(remote.env, failure.value) <==> VersionAtLeast(remote.env.device, DELETE_MINIMUM))
    ensures old(remote.session.live) && Smooth(remote, req, file.content) ==> (ok <==> |file.content| == req.total)
    ensures old(Begins(remote.env, remote.session)) && OnlyStops(remote, req, file.content, stop) ==>
              !ok && StoppedLog(req, file.content, remote.log, stop, DeletesAt(remote, req, file.content, stop))
  {
    failure := None;
    ghost var head := remote.log;
    var started;
    ok, started := TransferChunks(file, remote, req.callback, req.name, req.total, req.chunkSize, stop);
    if !ok && started {
      ghost var posted := remote.log;
      ghost var entries := remote.log[|head|..];
      assert posted == head + entries;
      ghost var f := Failure(remote.session, |remote.past|);
      failure := Some(f);
      AfterLost(remote.env, remote.session);
      remote.Cleanup(req.name);
      assert remote.log == posted + if DeleteDue(remote.env, f) then [Delete(req.name)] else [];
      if Reliable(remote.env, old(remote.session)) {
        DeleteDueByDevice(remote.env, f);
      }
    }
  }

  method UploadToNonPro(req: Request, file: ImageFile, remote: Remote) returns (ok: bool)
    requires file.Valid() && file.pos == 0 && req.total > 0 && req.chunkSize > 0 && remote.log == Preamble(req)
    modifies file, remote
    ensures NonProLog(req, file.content, remote.log, ok)
    ensures remote.Calm() && old(remote.session.live) ==> (ok <==> |file.content| == req.total)
  {
    ok := remote.Request(StreamPost(req.name));
    if !ok {
      return;
    }
    ghost var head := remote.log;
    ghost var bytes;
    ok, bytes := StreamBody(file, remote, req.callback, req.total, req.chunkSize);
    ghost var entries := remote.log[|head|..];
    assert remote.log == head + entries;
    if !ok {
      return;
    }
    ok := remote.Await();
    if !ok {
      return;
    }
    ok := remote.ReportProgress(req.callback, req.total);
    assert remote.log == Preamble(req) + [StreamPost(req.name)] + entries + Report(req.callback, req.total);
  }

  // ------------------------------------------------------------ what the logs mean

  /**
   A Pro upload that sent a chunk either finishes the whole file, or its last action is the DELETE of that name
   exactly when the session is live one turn after the failure.
   */
  lemma StartedUploadEnds(req: Request, content: Bytes, env: Env, log: seq<Action>, ok: bool,
                          failure: Option<Failure>)
    requires req.chunkSize > 0 && req.total > 0 && ProLog(req, content, env, log, ok, failure) && Posted(log) != []
    ensures if ok then |content| == req.total && Concat(Posted(log)) == content
            else failure.Some? && (log[|log| - 1] == Delete(req.name) <==> DeleteDue(env, failure.value))
  {
    PreamblePostsNothing(req, log);
    if ok {
      WholeLogPosts(req, content);
    } else {
      assert failure.Some?;
      var entries: seq<Action> :| PartialUpload(req.callback, req.name, content, req.total, req.chunkSize, entries)
        && log == Preamble(req) + entries + if DeleteDue(env, failure.value) then [Delete(req.name)] else [];
      if !DeleteDue(env, failure.value) {
        assert log == Preamble(req) + entries;
        if entries == [] {
          PreamblePostsNothing(req, log);
        }
        NoDeletes(req.callback, req.name, content, req.total, req.chunkSize, TotalChunks(req.total, req.chunkSize));
        assert entries[|entries| - 1] in WholeUpload(req.callback, req.name, content, req.total, req.chunkSize);
      }
    }
  }

  /** No chunk has been posted in these actions. */
  predicate NothingPosted(actions: seq<Action>) {
    forall i :: 0 <= i < |actions| ==> !actions[i].Post?
  }

  lemma {:induction false} TransferStarts(callback: bool, name: string, content: Bytes, total: nat, size: nat, k: nat)
    requires size > 0 && k > 0
    ensures var sent := Transferred(callback, name, content, total, size, k);
            sent != [] && sent[0] == ChunkPost(name, content, total, size, 0)
  {
    if k > 1 {
      TransferStarts(callback, name, content, total, size, k - 1);
    }
  }

  /** A log is the preamble, then what was posted and reported, beginning with the first chunk, then perhaps the cleanup's DELETE. */
  lemma ProLogParts(req: Request, content: Bytes, env: Env, log: seq<Action>, ok: bool, failure: Option<Failure>)
    returns (entries: seq<Action>, cleanup: seq<Action>)
    requires req.chunkSize > 0 && req.total > 0 && ProLog(req, content, env, log, ok, failure)
    ensures log == Preamble(req) + entries + cleanup || (log <= Preamble(req) && entries == cleanup == [])
    ensures (entries != [] ==> entries[0].Post?) && forall a :: a in entries ==> !a.Delete?
    ensures cleanup == if failure.Some? && DeleteDue(env, failure.value) then [Delete(req.name)] else []
  {
    entries, cleanup := [], [];
    var whole := WholeUpload(req.callback, req.name, content, req.total, req.chunkSize);
    NoDeletes(req.callback, req.name, content, req.total, req.chunkSize, TotalChunks(req.total, req.chunkSize));
    if TotalChunks(req.total, req.chunkSize) > 0 {
      TransferStarts(req.callback, req.name, content, req.total, req.chunkSize, TotalChunks(req.total, req.chunkSize));
    }
    if ok {
      entries := whole;
      assert log == Preamble(req) + entries + [];
    } else if failure.Some? {
      cleanup := if DeleteDue(env, failure.value) then [Delete(req.name)] else [];
      entries :| PartialUpload(req.callback, req.name, content, req.total, req.chunkSize, entries)
        && log == Preamble(req) + entries + cleanup;
    }
  }

  /**
   A Pro upload that does anything deletes a listed image of that name first. Any other DELETE is the cleanup's, and the
   last action. Before the first chunk 0 is reported exactly when there is a callback.
   */
  lemma OverwriteDeletesFirst(req: Request, content: Bytes, env: Env, log: seq<Action>, ok: bool, failure: Option<Failure>)
    requires req.chunkSize > 0 && req.total > 0 && req.isPro == Some(true) && ProLog(req, content, env, log, ok, failure)
    ensures req.name in req.listed && log != [] ==> log[0] == Delete(req.name)
    ensures forall i :: 0 <= i < |log| && log[i].Delete? ==>
              && log[i] == Delete(req.name)
              && ((i == 0 && req.name in req.listed)
                  || (i == |log| - 1 && failure.Some? && DeleteDue(env, failure.value)))
    ensures forall i :: 0 <= i < |log| && log[i].Post? && NothingPosted(log[..i]) ==>
              (Progress(0) in log[..i] <==> req.callback)
  {
    var entries, cleanup := ProLogParts(req, content, env, log, ok, failure);
    DeletesIn(Preamble(req), entries, cleanup, log, req.name);
    forall i | 0 <= i < |log| && log[i].Post? && NothingPosted(log[..i])
      ensures Progress(0) in log[..i] <==> req.callback
    {
      assert forall j :: 0 <= j < i ==> log[j] == log[..i][j];
      FirstPost(Preamble(req), entries, cleanup, log, i);
    }
  }

  /** The deletes of a log whose middle part has none. */
  lemma DeletesIn(head: seq<Action>, entries: seq<Action>, cleanup: seq<Action>, log: seq<Action>, name: string)
    requires log == head + entries + cleanup || (log <= head && entries == cleanup == [])
    requires (forall a :: a in entries ==> !a.Delete?) && (forall i :: 1 <= i < |head| ==> !head[i].Delete?)
    requires cleanup == [] || cleanup == [Delete(name)]
    ensures forall i :: 0 <= i < |log| && log[i].Delete? ==>
              (i == 0 && head != [] && log[i] == head[0]) || (i == |log| - 1 && log[i] == Delete(name) && cleanup != [])
  {
    assert forall i :: 0 <= i < |log| && i < |head| ==> log[i] == head[i];
    assert forall i :: |head| <= i < |log| && i < |head| + |entries| ==> log[i] == entries[i - |head|];
  }

  lemma FirstPost(head: seq<Action>, entries: seq<Action>, cleanup: seq<Action>, log: seq<Action>, i: nat)
    requires log == head + entries + cleanup || (log <= head && entries == cleanup == [])
    requires NothingPosted(head) && (entries != [] ==> entries[0].Post?) && NothingPosted(cleanup)
    requires i < |log| && log[i].Post? && forall j :: 0 <= j < i ==> !log[j].Post?
    ensures log[..i] == head
  {
    assert forall j :: 0 <= j < |head| && j < |log| ==> log[j] == head[j];
    assert log == head + entries + cleanup && entries != [] ==> log[|head|] == entries[0];
  }

  lemma {:induction false} StreamedActions(entries: seq<Action>, content: Bytes, total: nat, size: nat, bytes: int)
    requires StreamedTo(entries, content, total, size, bytes)
    ensures forall i :: 0 <= i < |entries| ==> entries[i].Write? || entries[i].Progress?
  {
    if entries != [] {
      var last := entries[|entries| - 1];
      StreamedActions(entries[..|entries| - 1], content, total, size, if last.Write? then bytes - |last.part| else bytes);
    }
  }

  /** A non-Pro upload deletes nothing, and posts no chunk. Before its one POST it reports 0 exactly when there is a callback. */
  lemma StreamDeletesNothing(req: Request, content: Bytes, log: seq<Action>, ok: bool)
    requires req.chunkSize > 0 && req.isPro == Some(false) && NonProLog(req, content, log, ok)
    ensures forall a :: a in log ==> !a.Delete? && !a.Post?
    ensures forall i :: 0 <= i < |log| && log[i].StreamPost? ==>
              log[i] == StreamPost(req.name) && log[..i] == if req.callback then [Progress(0)] else []
  {
    if log <= Preamble(req) + [StreamPost(req.name)] {
      assert forall i :: 0 <= i < |log| ==> log[i] == (Preamble(req) + [StreamPost(req.name)])[i];
    } else {
      var entries: seq<Action>, bytes: nat :| StreamedTo(entries, content, req.total, req.chunkSize, bytes)
        && (log == Preamble(req) + [StreamPost(req.name)] + entries
            || log == Preamble(req) + [StreamPost(req.name)] + entries + Report(req.callback, req.total));
      StreamedActions(entries, content, req.total, req.chunkSize, bytes);
      if log == Preamble(req) + [StreamPost(req.name)] + entries {
        OnePost(Preamble(req), StreamPost(req.name), entries);
      } else {
        assert log == Preamble(req) + [StreamPost(req.name)] + (entries + Report(req.callback, req.total));
        OnePost(Preamble(req), StreamPost(req.name), entries + Report(req.callback, req.total));
      }
    }
  }

  lemma OnePost(head: seq<Action>, post: Action, rest: seq<Action>)
    requires post.StreamPost? && forall i :: 0 <= i < |head| ==> head[i].Progress?
    requires forall i :: 0 <= i < |rest| ==> rest[i].Write? || rest[i].Progress?
    ensures var log := head + [post] + rest;
            && (forall a :: a in log ==> !a.Delete? && !a.Post?)
            && forall i :: 0 <= i < |log| && log[i].StreamPost? ==> log[i] == post && log[..i] == head
  {
    var log := head + [post] + rest;
    assert forall i :: |head| < i < |log| ==> log[i] == rest[i - |head| - 1];
    assert log[..|head|] == head;
    assert forall i :: 0 <= i < |head| ==> log[i] == head[i];
  }

  lemma {:induction false} NoDeletes(callback: bool, name: string, content: Bytes, total: nat, size: nat, k: nat)
    requires size > 0
    ensures forall a :: a in Transferred(callback, name, content, total, size, k) ==> !a.Delete?
  {
    if k > 0 {
      NoDeletes(callback, name, content, total, size, k - 1);
    }
  }

  /**
   When only the POST of one chunk raises, the chunks up to that one were sent. Without a DELETE after them the partial
   file stays, and an image that was overwritten is gone as well.
   */
  lemma StoppedUploadEnds(req: Request, content: Bytes, log: seq<Action>, k: nat, deleted: bool)
    requires req.chunkSize > 0 && StoppedLog(req, content, log, k, deleted)
    ensures |Posted(log)| == k + 1
    ensures if deleted then log[|log| - 1] == Delete(req.name)
            else
              && log[|log| - 1] == ChunkPost(req.name, content, req.total, req.chunkSize, k)
              && forall i :: |Preamble(req)| <= i < |log| ==> !log[i].Delete?
  {
    var posted :| UploadedTo(posted, Preamble(req), req.callback, req.name, content, req.total, req.chunkSize, k, true)
      && log == posted + if deleted then [Delete(req.name)] else [];
    RefusedPosts(req, content, k);
    if deleted {
      PostedAppend(posted, [Delete(req.name)]);
      NoPosts([Delete(req.name)]);
    } else {
      assert log == posted;
      LastIsPost(req, content, log, k);
    }
  }

  /** Application 1.1.5 is older than what `delete_image` requires, and 1.1.6 is not. */
  lemma OldPro()
    ensures !VersionAtLeast("1.1.5", DELETE_MINIMUM) && VersionAtLeast("1.1.6", DELETE_MINIMUM)
  {
    PlainVersion(1, 1, 5, "1.1.5");
    PlainVersion(1, 1, 6, "1.1.6");
    assert [1, 1, 5] + Zeros(0) == [1, 1, 5] && [1, 1, 6] + Zeros(0) == [1, 1, 6];
    assert [1, 1, 5][1..] == [1, 5] && [1, 1, 6][1..] == [1, 6] && [1, 5][1..] == [5] && [1, 6][1..] == [6];
  }

  /** Every chunk's POST raises, the session stays, and nothing else goes wrong. */
  function OnlyPostsRaise(i: nat, a: Option<Action>): Turn {
    Turn(a.Some? && a.value.Post?, [])
  }

  lemma FirstPostStops(remote: Remote, req: Request, byte: Byte)
    requires remote.env.turn == OnlyPostsRaise && req.chunkSize == 1 && req.total == 1
    ensures OnlyStops(remote, req, [byte], 0)
    ensures remote.Fails(ChunkPost(req.name, [byte], req.total, req.chunkSize, 0))
  {
  }

  /** One new image of one byte. */
  const ONE_BYTE := Request(true, 1, 1, NoDigest, Some(true), true, "/data/image.iso", {}, false, false)

  lemma OneByteLog(byte: Byte, log: seq<Action>)
    requires StoppedLog(ONE_BYTE, [byte], log, 0, false)
    ensures log == [Post(ONE_BYTE.name, 0, 1, [byte])]
  {
    var posted :| UploadedTo(posted, Preamble(ONE_BYTE), false, ONE_BYTE.name, [byte], 1, 1, 0, true) && log == posted + [];
    assert Offset(1, 0) == 0 && Offset(1, 1) == 1;
    assert [byte][0..1] == [byte];
  }

  /**
   A new image on a Pro with application 1.1.5, its version unknown so far: the one POST raises, the session stays, and
   that POST is all there was. The partial file is not deleted.
   */
  method OldProRun(byte: Byte) returns (remote: Remote)
    ensures remote.log == [Post(ONE_BYTE.name, 0, 1, [byte])]
  {
    var file := new ImageFile([byte], (i: nat) => 0);
    remote := new Remote(Env(OnlyPostsRaise, "1.1.5"), Session(true, None));
    OldPro();
    FirstPostStops(remote, ONE_BYTE, byte);
    var _, _ := UploadImage(ONE_BYTE, file, remote, 0);
    OneByteLog(byte, remote.log);
  }

  lemma LastIsPost(req: Request, content: Bytes, log: seq<Action>, k: nat)
    requires req.chunkSize > 0
    requires UploadedTo(log, Preamble(req), req.callback, req.name, content, req.total, req.chunkSize, k, true)
    ensures log != [] && log[|log| - 1] == ChunkPost(req.name, content, req.total, req.chunkSize, k)
    ensures forall i :: |Preamble(req)| <= i < |log| ==> !log[i].Delete?
  {
    var sent := Transferred(req.callback, req.name, content, req.total, req.chunkSize, k);
    var post := ChunkPost(req.name, content, req.total, req.chunkSize, k);
    NoDeletes(req.callback, req.name, content, req.total, req.chunkSize, k);
    LastOfBoth(Preamble(req), sent + [post]);
    forall i | |Preamble(req)| <= i < |log|
      ensures !log[i].Delete?
    {
      assert log[i] == (sent + [post])[i - |Preamble(req)|];
    }
  }

  lemma RefusedPosts(req: Request, content: Bytes, k: nat)
    requires req.chunkSize > 0
    ensures var sent := Transferred(req.callback, req.name, content, req.total, req.chunkSize, k);
            |Posted(Preamble(req) + (sent + [ChunkPost(req.name, content, req.total, req.chunkSize, k)]))| == k + 1
  {
    var sent := Transferred(req.callback, req.name, content, req.total, req.chunkSize, k);
    var post := ChunkPost(req.name, content, req.total, req.chunkSize, k);
    PreamblePostsNothing(req, Preamble(req));
    PostedAppend(Preamble(req), sent + [post]);
    PostedStep(sent, post, false, 0);
    TransferredPosts(req.callback, req.name, content, req.total, req.chunkSize, k);
  }

  lemma WholeLogPosts(req: Request, content: Bytes)
    requires req.chunkSize > 0 && |content| == req.total > 0
    ensures var whole := WholeUpload(req.callback, req.name, content, req.total, req.chunkSize);
            Concat(Posted(Preamble(req) + whole)) == content
  {
    var whole := WholeUpload(req.callback, req.name, content, req.total, req.chunkSize);
    PreamblePostsNothing(req, Preamble(req));
    PostedAppend(Preamble(req), whole);
    assert [] + Posted(whole) == Posted(whole);
    WholeUploadIsExact(req.callback, req.name, content, req.chunkSize);
  }

  lemma {:induction false} PostedAppend(a: seq<Action>, b: seq<Action>)
    ensures Posted(a + b) == Posted(a) + Posted(b)
  {
    if b == [] {
      assert a + b == a;
    } else {
      LastOfBoth(a, b);
      PostedAppend(a, b[..|b| - 1]);
    }
  }

  lemma PreamblePostsNothing(req: Request, log: seq<Action>)
    ensures log <= Preamble(req) ==> Posted(log) == []
  {
    if log <= Preamble(req) {
      assert |log| <= 2;
      assert forall i :: 0 <= i < |log| ==> log[i] == Preamble(req)[i] && !log[i].Post?;
      NoPosts(log);
    }
  }

  lemma {:induction false} NoPosts(log: seq<Action>)
    requires forall i :: 0 <= i < |log| ==> !log[i].Post?
    ensures Posted(log) == []
  {
    if log != [] {
      NoPosts(log[..|log| - 1]);
    }
  }

  /**
   A successful non-Pro upload wrote exactly the file, in bounded parts, and reported the total once, after all of
   it; every earlier report rose, told the truth and stayed below the total.
   */
  lemma StreamedUploadIsExact(req: Request, content: Bytes, log: seq<Action>)
    requires req.chunkSize > 0 && req.total > 0 && NonProLog(req, content, log, true)
    ensures |content| == req.total
    ensures exists body ::
              && log == Preamble(req) + [StreamPost(req.name)] + body + Report(req.callback, req.total)
              && StreamMeans(body, content, req.total, req.chunkSize, req.total)
              && Concat(Written(body)) == content
  {
    var body: seq<Action>, bytes: nat :| StreamedTo(body, content, req.total, req.chunkSize, bytes)
      && bytes == req.total == |content|
      && log == Preamble(req) + [StreamPost(req.name)] + body + Report(req.callback, req.total);
    StreamedMeans(body, content, req.total, req.chunkSize, bytes);
    assert content[..bytes] == content;
  }
}
