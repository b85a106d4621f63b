/** The transfer loop of a store worker (`Impl::run` in
    src/backends/nvme_backend.cpp): positional reads and writes that may be
    interrupted, fall short or fail, repeated until all bytes have moved. */
module StoreIo {
  import opened Collections
  import opened Words
  import opened ExtentLists

  /** What one `pread` or `pwrite` answers: interrupted, failed, or a number of
      bytes, zero at the end of the file. */
  datatype Answer = Interrupted | Refused | Moved(count: nat)

  /** How the loop stands once the answers are used up. */
  datatype Verdict = Done | Broken | Unfinished

  /** The kernel moves no more than it was asked to. */
  function Took(a: Answer, need: nat): nat {
    if a.Moved? then (if a.count <= need then a.count else need) else 0
  }

  /** The fate of a transfer of `need` bytes, from the answers alone. */
  function Judge(answers: seq<Answer>, need: nat): Verdict {
    if need == 0 then Done
    else if |answers| == 0 then Unfinished
    else if answers[0].Interrupted? then Judge(answers[1..], need)
    else if Took(answers[0], need) == 0 then Broken
    else Judge(answers[1..], need - Took(answers[0], need))
  }

  /** A store write: bytes of `buf` go to the file at `offset`. */
  method WriteAll(file: array<Byte>, buf: array<Byte>, offset: nat, answers: seq<Answer>)
    returns (verdict: Verdict, ghost moved: nat)
    requires file != buf && offset + buf.Length <= file.Length
    modifies file
    ensures verdict == Judge(answers, buf.Length)
    ensures moved <= buf.Length && (verdict.Done? <==> moved == buf.Length)
    ensures file[..] == old(file[..offset]) + buf[..moved] + old(file[offset + moved..])
  {
    var total, k := 0, 0;
    ghost var before := file[..];
    while total < buf.Length
      invariant 0 <= total <= buf.Length && 0 <= k <= |answers|
      invariant Judge(answers, buf.Length) == Judge(answers[k..], buf.Length - total)
      invariant file[..] == before[..offset] + buf[..total] + before[offset + total..]
      decreases |answers| - k
    {
      if k == |answers| { return Unfinished, total; }
      var a := answers[k];
      assert answers[k..][1..] == answers[k + 1..];
      k := k + 1;
      if a.Interrupted? { continue; }
      var r := Took(a, buf.Length - total);
      if r == 0 { return Broken, total; }
      CopyOut(file, buf, offset, total, r, before);
      total := total + r;
    }
    return Done, total;
  }

  /** One `pwrite` of `r` bytes. */
  method CopyOut(file: array<Byte>, buf: array<Byte>, offset: nat, total: nat, r: nat, ghost before: seq<Byte>)
    requires file != buf && offset + buf.Length <= file.Length == |before| && total + r <= buf.Length
    requires file[..] == before[..offset] + buf[..total] + before[offset + total..]
    modifies file
    ensures file[..] == before[..offset] + buf[..total + r] + before[offset + total + r..]
  {
    ghost var f := file[..];
    forall i | 0 <= i < r {
      file[offset + total + i] := buf[total + i];
    }
    assert forall i :: 0 <= i < offset + total ==> file[i] == f[i];
    assert forall i :: offset + total + r <= i < file.Length ==> file[i] == f[i];
  }

  /** A store read: bytes of the file at `offset` fill `buf`. */
  method ReadAll(file: array<Byte>, buf: array<Byte>, offset: nat, answers: seq<Answer>)
    returns (verdict: Verdict, ghost moved: nat)
    requires file != buf && offset + buf.Length <= file.Length
    modifies buf
    ensures verdict == Judge(answers, buf.Length)
    ensures moved <= buf.Length && (verdict.Done? <==> moved == buf.Length)
    ensures buf[..] == file[offset..offset + buf.Length][..moved] + old(buf[moved..])
  {
    var total, k := 0, 0;
    ghost var before, stored := buf[..], file[offset..offset + buf.Length];
    while total < buf.Length
      invariant 0 <= total <= buf.Length && 0 <= k <= |answers|
      invariant Judge(answers, buf.Length) == Judge(answers[k..], buf.Length - total)
      invariant buf[..] == stored[..total] + before[total..]
      decreases |answers| - k
    {
      if k == |answers| { return Unfinished, total; }
      var a := answers[k];
      assert answers[k..][1..] == answers[k + 1..];
      k := k + 1;
      if a.Interrupted? { continue; }
      var r := Took(a, buf.Length - total);
      if r == 0 { return Broken, total; }
      CopyIn(file, buf, offset, total, r, before, stored);
      total := total + r;
    }
    return Done, total;
  }

  /** One `pread` of `r` bytes. */
  method CopyIn(file: array<Byte>, buf: array<Byte>, offset: nat, total: nat, r: nat, ghost before: seq<Byte>,
                ghost stored: seq<Byte>)
    requires file != buf && offset + buf.Length <= file.Length && |before| == buf.Length && total + r <= buf.Length
    requires stored == file[offset..offset + buf.Length]
    requires buf[..] == stored[..total] + before[total..]
    modifies buf
    ensures buf[..] == stored[..total + r] + before[total + r..]
  {
    ghost var b := buf[..];
    forall i | 0 <= i < r {
      buf[total + i] := file[offset + total + i];
    }
    assert forall i :: 0 <= i < total ==> buf[i] == b[i];
    assert forall i :: total + r <= i < buf.Length ==> buf[i] == b[i];
  }

  /** Interruptions cost nothing: the verdict is that of the other answers. */
  lemma {:induction false} InterruptionsAreInvisible(answers: seq<Answer>, need: nat)
    ensures Judge(answers, need) == Judge(Uninterrupted(answers), need)
    decreases |answers|
  {
    if need > 0 && |answers| > 0 {
      var rest := answers[1..];
      var kept := Uninterrupted(answers);
      if answers[0].Interrupted? {
        assert kept == Uninterrupted(rest);
        InterruptionsAreInvisible(rest, need);
      } else {
        assert kept[0] == answers[0] && kept[1..] == Uninterrupted(rest);
        InterruptionsAreInvisible(rest, need - Took(answers[0], need));
      }
    }
  }

  function Uninterrupted(answers: seq<Answer>): seq<Answer> {
    if |answers| == 0 then []
    else (if answers[0].Interrupted? then [] else [answers[0]]) + Uninterrupted(answers[1..])
  }

  function Sum(answers: seq<Answer>): nat {
    if |answers| == 0 then 0 else (if answers[0].Moved? then answers[0].count else 0) + Sum(answers[1..])
  }

  /** The answers up to the first failure: a refusal, or the end of the file. */
  function Good(answers: seq<Answer>): (k: nat)
    ensures k <= |answers|
  {
    if |answers| == 0 || answers[0].Refused? || answers[0] == Moved(0) then 0 else 1 + Good(answers[1..])
  }

  /** Every outcome, for any answers: done when the bytes moved before the first
      failure cover the need, broken when they do not and there is one, and
      otherwise still at it. */
  lemma {:induction false} JudgedExactly(answers: seq<Answer>, need: nat)
    ensures Judge(answers, need) ==
      if need <= Sum(answers[..Good(answers)]) then Done
      else if Good(answers) < |answers| then Broken
      else Unfinished
    decreases |answers|
  {
    var k := Good(answers);
    if need > 0 && k > 0 {
      var rest := answers[1..];
      assert answers[..k][1..] == rest[..k - 1];
      JudgedExactly(rest, need - Took(answers[0], need));
    }
  }

  /** A device that always makes some progress finishes every transfer, however
      it is cut up, exactly when it has been asked often enough. */
  lemma {:induction false} ProgressFinishes(answers: seq<Answer>, need: nat)
    requires forall i :: 0 <= i < |answers| ==> answers[i].Interrupted? || (answers[i].Moved? && answers[i].count > 0)
    ensures Judge(answers, need) == if need <= Sum(answers) then Done else Unfinished
    decreases |answers|
  {
    if need > 0 && |answers| > 0 {
      ProgressFinishes(answers[1..], need - Took(answers[0], need));
    }
  }

  // ------------------------------------------------------------ where bytes go

  /** Requests over different extents move different bytes of the file, and
      none of them the header page. */
  lemma DisjointBytes(a: Request, b: Request, pageSize: nat)
    requires pageSize > 0
    requires forall k: nat :: !(Touches(a, k) && Touches(b, k))
    requires a.count > 0 && b.count > 0
    ensures (a.first + 1) * pageSize >= pageSize
    ensures (a.first + 1 + a.count) * pageSize <= (b.first + 1) * pageSize
         || (b.first + 1 + b.count) * pageSize <= (a.first + 1) * pageSize
  {
    assert !(Touches(a, a.first) && Touches(b, a.first));
    assert !(Touches(a, b.first) && Touches(b, b.first));
    assert a.first + a.count <= b.first || b.first + b.count <= a.first;
    if a.first + a.count <= b.first {
      MulMonotone(a.first + 1 + a.count, b.first + 1, pageSize);
    } else {
      MulMonotone(b.first + 1 + b.count, a.first + 1, pageSize);
    }
    MulMonotone(1, a.first + 1, pageSize);
  }
}
