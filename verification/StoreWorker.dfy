/** One worker's handling of one request, whole: move the bytes, give up the
    extents, publish the status (`Impl::run` in src/backends/nvme_backend.cpp). */
module StoreWorker {
  import opened Collections
  import opened Words
  import opened ExtentLists
  import opened ExtentStore
  import opened StoreIo

  /** What the transfer of `bytes` comes to, given its answers. */
  function Result(answers: seq<Answer>, bytes: nat): Option<nat> {
    if Judge(answers, bytes).Done? then Some(bytes) else None
  }

  /** Where a request's bytes lie in the file, behind the header page. */
  function OffsetIn(c: Request, pageSize: nat): nat {
    (c.first + 1) * pageSize
  }

  /** The worker is at request `i`, with the store file and the caller's buffer. */
  ghost predicate AtWork(n: NvmeBackend, i: nat, file: array<Byte>, buf: array<Byte>)
    reads n
  {
    && n.Core() && n.isOpen && i < |n.running| && file != buf && file.Length == n.fileSize
    && buf.Length == n.running[i].count * n.pageSize
  }

  lemma BytesInFile(n: NvmeBackend, i: nat, file: array<Byte>, buf: array<Byte>)
    requires AtWork(n, i, file, buf)
    ensures n.pageSize <= OffsetIn(n.running[i], n.pageSize)
    ensures OffsetIn(n.running[i], n.pageSize) + buf.Length <= file.Length
  {
    hide OpsOk, ListsFree, CountUsed, Recorded;
    var c := n.running[i];
    assert (n.queue + n.running)[|n.queue| + i] == c;
    assert InUse(n.used, c);
    MulMonotone(1, c.first + 1, n.pageSize);
    MulMonotone(c.first + 1 + c.count, n.extentCount + 1, n.pageSize);
    assert (c.first + 1 + c.count) * n.pageSize == (c.first + 1) * n.pageSize + c.count * n.pageSize;
  }

  /** The published status says what happened to the bytes: complete, with the
      full count, and the file range is the buffer; failed when the transfer
      broke off. Whatever happens, the header page and all other extents are as
      they were. A worker that is still at it has published nothing. */
  method RunWrite(n: NvmeBackend, i: nat, file: array<Byte>, buf: array<Byte>, answers: seq<Answer>)
    returns (verdict: Verdict)
    requires AtWork(n, i, file, buf)
    modifies n`running, n`settling, n`pending, n`activeIo, n`status, file
    ensures n.Core() && verdict == Judge(answers, buf.Length)
    ensures !verdict.Unfinished? ==> Published(old(n.running), i, old(n.status), n.running, n.status,
                                               if verdict.Done? then Complete(buf.Length) else Failed)
    ensures !verdict.Unfinished? ==> n.status[old(n.running)[i].op] == Worked(Result(answers, buf.Length))
    ensures verdict.Unfinished? ==> n.running == old(n.running) && n.status == old(n.status)
    ensures var start := OffsetIn(old(n.running)[i], n.pageSize);
      && n.pageSize <= start && start + buf.Length <= file.Length
      && (verdict.Done? ==> file[start..start + buf.Length] == buf[..])
      && file[..start] == old(file[..])[..start] && file[start + buf.Length..] == old(file[..])[start + buf.Length..]
  {
    hide NvmeBackend.Core;
    BytesInFile(n, i, file, buf);
    var start := OffsetIn(n.running[i], n.pageSize);
    ghost var moved;
    verdict, moved := WriteAll(file, buf, start, answers);
    Parts(old(file[..]), buf[..], start, moved, file[..]);
    if !verdict.Unfinished? {
      Finish(n, i, if verdict.Done? then Complete(buf.Length) else Failed);
    }
  }

  method RunRead(n: NvmeBackend, i: nat, file: array<Byte>, buf: array<Byte>, answers: seq<Answer>)
    returns (verdict: Verdict)
    requires AtWork(n, i, file, buf)
    modifies n`running, n`settling, n`pending, n`activeIo, n`status, buf
    ensures n.Core() && verdict == Judge(answers, buf.Length)
    ensures !verdict.Unfinished? ==> Published(old(n.running), i, old(n.status), n.running, n.status,
                                               if verdict.Done? then Complete(buf.Length) else Failed)
    ensures !verdict.Unfinished? ==> n.status[old(n.running)[i].op] == Worked(Result(answers, buf.Length))
    ensures verdict.Unfinished? ==> n.running == old(n.running) && n.status == old(n.status)
    ensures var start := OffsetIn(old(n.running)[i], n.pageSize);
      start + buf.Length <= file.Length && (verdict.Done? ==> buf[..] == file[start..start + buf.Length])
  {
    hide NvmeBackend.Core;
    BytesInFile(n, i, file, buf);
    var start := OffsetIn(n.running[i], n.pageSize);
    ghost var moved;
    verdict, moved := ReadAll(file, buf, start, answers);
    assert verdict.Done? ==> buf[..] == file[start..start + buf.Length];
    if !verdict.Unfinished? {
      Finish(n, i, if verdict.Done? then Complete(buf.Length) else Failed);
    }
  }

  /** The request is no longer running and its operation has this status. */
  ghost predicate Published(running: seq<Request>, i: nat, status: map<nat, Status>, running': seq<Request>,
                            status': map<nat, Status>, done: Status)
  {
    i < |running| && running' == Without(running, i) && status' == status[running[i].op := done]
  }

  /** Retirement, then settlement. */
  method Finish(n: NvmeBackend, i: nat, done: Status)
    requires n.Core() && i < |n.running| && !done.Pending?
    modifies n`running, n`settling, n`pending, n`activeIo, n`status
    ensures n.Core() && n.settling == old(n.settling)
    ensures Published(old(n.running), i, old(n.status), n.running, n.status, done)
  {
    hide NvmeBackend.Core;
    n.Retire(i);
    n.Settle(|n.settling| - 1, done);
  }

  lemma Parts(before: seq<Byte>, buf: seq<Byte>, offset: nat, moved: nat, after: seq<Byte>)
    requires offset + |buf| <= |before| && moved <= |buf|
    requires after == before[..offset] + buf[..moved] + before[offset + moved..]
    ensures |after| == |before| && after[..offset] == before[..offset]
    ensures after[offset + |buf|..] == before[offset + |buf|..]
    ensures moved == |buf| ==> after[offset..offset + |buf|] == buf
  {}
}
