/** A buffered writer whose writes to the file, other than explicit flushes, end on page boundaries. */
module PageWriter {
  import opened Arithmetic
  import opened Basics

  /** Bytes from an offset to the end of its page; a whole page if the offset is a boundary. */
  function Slack(pageBytes: nat, offset: nat): (r: nat)
    requires pageBytes > 0
    ensures 1 <= r <= pageBytes
  {
    pageBytes - offset % pageBytes
  }

  lemma SlackAligns(pageBytes: nat, offset: nat)
    requires pageBytes > 0
    ensures (offset + Slack(pageBytes, offset)) % pageBytes == 0
  {
    AddMultiple(pageBytes, 0, offset / pageBytes + 1);
    assert offset == pageBytes * (offset / pageBytes) + offset % pageBytes;
    assert offset + Slack(pageBytes, offset) == 0 + pageBytes * (offset / pageBytes + 1);
  }

  lemma AddMultiple(m: nat, a: nat, k: nat)
    requires m > 0
    ensures (a + m * k) % m == a % m
    decreases k
  {
    if k > 0 {
      AddMultiple(m, a, k - 1);
      assert a + m * k == (a + m * (k - 1)) + m;
      AddOnce(m, a + m * (k - 1));
    }
  }

  lemma AddOnce(m: nat, a: nat)
    requires m > 0
    ensures (a + m) % m == a % m
  {
    var q, r := a / m, a % m;
    assert a + m == m * (q + 1) + r;
    DivUnique(a + m, m, q + 1, r);
  }

  /** Offsets that agree modulo the page do so after moving on by the same distance. */
  lemma SameShift(m: nat, a: nat, b: nat, d: nat)
    requires m > 0 && a % m == b % m
    ensures (a + d) % m == (b + d) % m
  {
    var r := a % m;
    assert a == m * (a / m) + r && b == m * (b / m) + r;
    assert a + d == (r + d) + m * (a / m) && b + d == (r + d) + m * (b / m);
    AddMultiple(m, r + d, a / m);
    AddMultiple(m, r + d, b / m);
  }

  /** `sink` is what the file has received; `marks` the file's length after each write to it. */
  class PageWriterImpl {
    var sink: seq<byte>
    var marks: seq<nat>
    var pageOffset: nat
    const pageBytes: nat
    var bufferedBytes: nat
    var buf: array<byte>
    const bufWatermarkBytes: nat
    ghost const base: nat

    ghost predicate Core()
      reads this
    {
      && 0 < pageBytes <= bufWatermarkBytes && buf.Length == bufWatermarkBytes + pageBytes
      && pageOffset % pageBytes == (base + |sink|) % pageBytes
      && bufferedBytes <= buf.Length
    }

    /** Past the watermark, the buffer still has room to complete the page it is in. */
    ghost predicate Valid()
      reads this
    {
      && Core()
      && (|| bufferedBytes <= bufWatermarkBytes
          || (&& Slack(pageBytes, pageOffset + bufferedBytes) < pageBytes
              && bufferedBytes + Slack(pageBytes, pageOffset + bufferedBytes) <= buf.Length))
    }

    /** Everything written so far: what the file has and what is still buffered. */
    ghost function Contents(): seq<byte>
      reads this, buf
      requires Core()
    {
      sink + buf[..bufferedBytes]
    }

    /** The file is at `offset` when the writer takes over. */
    constructor (bufferBytes: nat, pageBytes: nat, offset: nat)
      requires 0 < pageBytes <= bufferBytes
      ensures Valid() && fresh(buf) && Contents() == [] && sink == [] && marks == []
      ensures this.pageBytes == pageBytes && base == offset
    {
      sink, marks, pageOffset, this.pageBytes, bufferedBytes := [], [], offset, pageBytes, 0;
      buf := new byte[bufferBytes + pageBytes];
      bufWatermarkBytes := bufferBytes;
      base := offset;
    }

    method Append(p: seq<byte>)
      requires Core() && bufferedBytes + |p| <= buf.Length
      modifies this`bufferedBytes, buf
      ensures Core() && Contents() == old(Contents()) + p && bufferedBytes == old(bufferedBytes) + |p|
    {
      ghost var before := buf[..bufferedBytes];
      forall i | 0 <= i < |p| {
        buf[bufferedBytes + i] := p[i];
      }
      bufferedBytes := bufferedBytes + |p|;
      assert buf[..bufferedBytes] == before + p;
    }

    method WriteSink(p: seq<byte>)
      modifies this`sink, this`marks
      ensures sink == old(sink) + p && marks == old(marks) + [|sink|]
    {
      sink := sink + p;
      marks := marks + [|sink|];
    }

    method Flush()
      requires Core()
      modifies this`sink, this`marks, this`pageOffset, this`bufferedBytes
      ensures Valid() && Contents() == old(Contents()) == sink && bufferedBytes == 0
      ensures marks == if old(bufferedBytes) == 0 then old(marks) else old(marks) + [|sink|]
      ensures pageOffset % pageBytes == (old(pageOffset) + old(bufferedBytes)) % pageBytes
    {
      if bufferedBytes == 0 {
        return;
      }
      SameShift(pageBytes, pageOffset, base + |sink|, bufferedBytes);
      WriteSink(buf[..bufferedBytes]);
      pageOffset := (pageOffset + bufferedBytes) % pageBytes;
      bufferedBytes := 0;
      ModIdempotent(old(pageOffset) + old(bufferedBytes), pageBytes);
    }

    /** All file lengths noted since the first `from` marks lie on a page boundary. */
    ghost predicate AlignedSince(from: nat)
      reads this
    {
      pageBytes > 0 && forall i :: from <= i < |marks| ==> (base + marks[i]) % pageBytes == 0
    }

    /** With nothing buffered and the file on a page boundary, writes the complete pages of `p`, if it is
        longer than a page, and returns the rest. */
    method WritePages(p: seq<byte>) returns (rest: seq<byte>)
      requires Valid() && bufferedBytes == 0 && (base + |sink|) % pageBytes == 0
      modifies this`sink, this`marks
      ensures Valid() && Contents() + rest == old(Contents()) + p && |rest| <= pageBytes && |rest| <= |p|
      ensures |p| > pageBytes ==> |rest| < |p|
      ensures old(marks) <= marks && AlignedSince(|old(marks)|)
    {
      rest := p;
      if |p| > pageBytes {
        var pages := |p| / pageBytes;
        WholePages(pageBytes, |p|, base + |sink|);
        var whole := pages * pageBytes;
        WriteSink(p[..whole]);
        rest := p[whole..];
        assert p == p[..whole] + rest;
      }
    }

    /** Completes the page in the buffer, or as much of it as `p` allows, and empties the buffer if the page
        is complete. */
    method CompletePage(p: seq<byte>) returns (rest: seq<byte>, partial: bool)
      requires Valid() && |p| + bufferedBytes > bufWatermarkBytes
      modifies this`sink, this`marks, this`pageOffset, this`bufferedBytes, buf
      ensures Valid() && Contents() + rest == old(Contents()) + p && |rest| <= |p|
      ensures partial ==> rest == []
      ensures !partial ==> bufferedBytes == 0 && (base + |sink|) % pageBytes == 0
      ensures old(marks) <= marks && AlignedSince(|old(marks)|)
    {
      rest, partial := p, false;
      var slack := Slack(pageBytes, pageOffset + bufferedBytes);
      SlackAligns(pageBytes, pageOffset + bufferedBytes);
      if slack != pageBytes {
        partial := slack > |p|;
        if partial {
          SlackShrinks(pageBytes, pageOffset + bufferedBytes, |p|);
          Append(p);
          return [], true;
        }
        Append(p[..slack]);
        rest := p[slack..];
      }
      Flush();
    }

    /** Takes all of `p`; the file is only written up to page boundaries. */
    method Write(p: seq<byte>) returns (n: nat)
      requires Valid()
      modifies this`sink, this`marks, this`pageOffset, this`bufferedBytes, buf
      ensures Valid() && Contents() == old(Contents()) + p && n == |p|
      ensures old(marks) <= marks && AlignedSince(|old(marks)|)
      decreases |p|, bufferedBytes
    {
      if |p| + bufferedBytes <= bufWatermarkBytes {
        Append(p);
        return |p|;
      }
      var rest, partial := CompletePage(p);
      if partial {
        return |p|;
      }
      n := |p| - |rest|;
      ghost var m1 := marks;
      var tail := WritePages(rest);
      n := n + (|rest| - |tail|);
      ghost var m2 := marks;
      var c := Write(tail);
      n := n + c;
      assert m1 <= m2 <= marks;
    }
  }

  lemma ModIdempotent(a: nat, m: nat)
    requires m > 0
    ensures a % m % m == a % m
  {
    DivUnique(a % m, m, 0, a % m);
  }

  /** Moving part of the way to the end of the page shortens the way by as much. */
  lemma SlackShrinks(pageBytes: nat, offset: nat, d: nat)
    requires pageBytes > 0 && d < Slack(pageBytes, offset) < pageBytes
    ensures Slack(pageBytes, offset + d) == Slack(pageBytes, offset) - d
  {
    var q, r := offset / pageBytes, offset % pageBytes;
    assert offset + d == pageBytes * q + (r + d);
    DivUnique(offset + d, pageBytes, q, r + d);
  }

  lemma WholePages(pageBytes: nat, n: nat, offset: nat)
    requires pageBytes > 0 && n > pageBytes && offset % pageBytes == 0
    ensures pageBytes <= n / pageBytes * pageBytes <= n && n - n / pageBytes * pageBytes < pageBytes
    ensures (offset + n / pageBytes * pageBytes) % pageBytes == 0
  {
    var q := n / pageBytes;
    assert n == pageBytes * q + n % pageBytes;
    assert q >= 1;
    assert pageBytes * q >= pageBytes by { MulAtLeast(pageBytes, q); }
    AddMultiple(pageBytes, offset, q);
  }

}
