/** The chained reader that presents all files of a build as one stream. */
module Streams {
  import opened Types
  import opened Seqs

  datatype ReaderLink = ReaderLink(content: Bytes, done: bool)

  /** The contents of the links from k on. */
  function Tail(chain: seq<ReaderLink>, k: nat): Bytes
    requires k <= |chain|
    decreases |chain| - k
  {
    if k == |chain| then [] else chain[k].content + Tail(chain, k + 1)
  }

  lemma {:induction false} TailIgnoresDone(a: seq<ReaderLink>, b: seq<ReaderLink>, k: nat)
    requires k <= |a| == |b| && forall i | k <= i < |a| :: a[i].content == b[i].content
    ensures Tail(a, k) == Tail(b, k)
    decreases |a| - k
  {
    if k < |a| {
      TailIgnoresDone(a, b, k + 1);
    }
  }

  lemma {:induction false} TailPush(a: seq<ReaderLink>, x: ReaderLink, k: nat)
    requires k <= |a|
    ensures Tail(a + [x], k) == Tail(a, k) + x.content
    decreases |a| - k
  {
    if k < |a| {
      TailPush(a, x, k + 1);
    }
  }

  class FilesystemStream {
    var chain: seq<ReaderLink>
    /** The read position in the open file, if one is open. */
    var current: Option<nat>
    /** The first link that is not done. */
    ghost var at: nat

    /** The done flags form a prefix; an open file belongs to the first link after it. */
    ghost predicate Valid()
      reads this
    {
      && at <= |chain|
      && (forall i | 0 <= i < |chain| :: chain[i].done <==> i < at)
      && (current.Some? ==> at < |chain| && current.value <= |chain[at].content|)
    }

    ghost function Position(): nat
      reads this
    {
      if current.Some? then current.value else 0
    }

    /** What is still to come. */
    ghost function Remaining(): Bytes
      requires Valid()
      reads this
    {
      if at == |chain| then [] else chain[at].content[Position()..] + Tail(chain, at + 1)
    }

    constructor ()
      ensures Valid() && Remaining() == []
    {
      chain, current, at := [], None, 0;
    }

    method Push(content: Bytes)
      requires Valid()
      modifies this
      ensures Valid() && Remaining() == old(Remaining()) + content
    {
      if at < |chain| {
        TailPush(chain, ReaderLink(content, false), at + 1);
      }
      chain := chain + [ReaderLink(content, false)];
    }

    /**
     * One read with any buffer, from files that may deliver fewer bytes than asked for.  The bytes
     * returned are the next of the stream, and zero bytes into a non-empty buffer mean its end.
     */
    method Read(buf: array<Byte>) returns (n: nat)
      requires Valid()
      modifies this, buf
      ensures Valid()
      ensures n <= buf.Length && n <= |old(Remaining())|
      ensures buf[..n] == old(Remaining())[..n] && buf[n..] == old(buf[n..])
      ensures Remaining() == old(Remaining())[n..]
      ensures n == 0 && buf.Length > 0 ==> old(Remaining()) == []
    {
      ghost var was := Remaining();
      var i := 0;
      while i < |chain|
        invariant Valid() && 0 <= i <= |chain| && i <= at
        invariant Remaining() == was && buf[..] == old(buf[..])
        decreases |chain| - i
      {
        if chain[i].done {
          i := i + 1;
          continue;
        }
        if current.None? {
          current := Some(0);
        }
        n := ReadFile(chain[i].content, current.value, buf);
        if n == 0 && buf.Length > 0 {
          NextFile(i);
        } else {
          current := Some(current.value + n);
          return;
        }
        i := i + 1;
      }
      n := 0;
    }

    /** The current file is exhausted. */
    method NextFile(i: nat)
      requires Valid() && i == at && current.Some? && current.value == |chain[at].content|
      modifies this
      ensures Valid() && Remaining() == old(Remaining()) && |chain| == old(|chain|) && at == old(at) + 1
    {
      ghost var next := at + 1;
      TailIgnoresDone(chain, chain[i := chain[i].(done := true)], next);
      assert Remaining() == Tail(chain, next);
      chain := chain[i := chain[i].(done := true)];
      current := None;
      at := next;
      assert Remaining() == Tail(chain, next);
    }

    /** Reads until a read returns zero; the k-th buffer may have any size. */
    method ReadToEnd(size: nat -> nat) returns (out: Bytes)
      requires Valid() && forall k :: size(k) > 0
      modifies this
      ensures Valid() && out == old(Remaining()) && Remaining() == []
    {
      out := [];
      var k := 0;
      ghost var was, rest := Remaining(), Remaining();
      while true
        invariant Valid() && Remaining() == rest && was == out + rest
        decreases |rest|
      {
        var more := ReadSome(size(k));
        if more == [] {
          break;
        }
        MoveOver(out, rest, |more|);
        out := out + more;
        rest := rest[|more|..];
        k := k + 1;
      }
    }

    /** One read into a fresh buffer. */
    method ReadSome(bufferSize: nat) returns (more: Bytes)
      requires Valid() && bufferSize > 0
      modifies this
      ensures Valid() && more <= old(Remaining()) && Remaining() == old(Remaining())[|more|..]
      ensures more == [] ==> old(Remaining()) == []
    {
      var buf := new Byte[bufferSize];
      var n := Read(buf);
      more := buf[..n];
    }
  }

  /** A host file's read: at least one byte while there is room and data, possibly fewer than fit. */
  method ReadFile(content: Bytes, pos: nat, buf: array<Byte>) returns (n: nat)
    requires pos <= |content|
    modifies buf
    ensures n <= buf.Length && n <= |content| - pos
    ensures n == 0 <==> buf.Length == 0 || pos == |content|
    ensures buf[..n] == content[pos..pos + n] && buf[n..] == old(buf[n..])
  {
    var room := Min(buf.Length, |content| - pos);
    n :| 0 <= n <= room && (n == 0 <==> room == 0);
    var k := 0;
    while k < n
      invariant 0 <= k <= n
      invariant buf[..k] == content[pos..pos + k] && buf[k..] == old(buf[k..])
    {
      buf[k] := content[pos + k];
      k := k + 1;
    }
  }
}
