// xv6 pipes (CLab/xv6/kernel/pipe.c): a ring of bytes with 32-bit counters. Each method
// is what one call does under the pipe's lock, until it returns or sleeps.

module Pipes {
  const PIPESIZE := 512
  const UINT := 0x1_0000_0000

  type Bytes = seq<int>

  /** A call has returned a value, or sleeps and will go on where it is. */
  datatype Outcome = Returned(value: int) | Asleep

  /** Proof state: all the bytes ever accepted from writers and taken out by readers. */
  datatype Pipe = Pipe(data: Bytes, nread: int, nwrite: int, readOpen: bool, writeOpen: bool,
                       ghost accepted: Bytes, ghost consumed: Bytes)

  /** What is taken out is a prefix of what was accepted, in order; the bytes in between
      are in the ring, and the counters are the two lengths, wrapped. */
  ghost predicate Ok(p: Pipe) {
    && |p.data| == PIPESIZE
    && p.consumed <= p.accepted && |p.accepted| - |p.consumed| <= PIPESIZE
    && p.nread == |p.consumed| % UINT && p.nwrite == |p.accepted| % UINT
    && forall k :: |p.consumed| <= k < |p.accepted| ==> p.data[k % PIPESIZE] == p.accepted[k]
  }

  lemma Wrapped(a: nat, c: nat)
    requires c <= a <= c + PIPESIZE
    ensures a % UINT == (c % UINT + PIPESIZE) % UINT <==> a == c + PIPESIZE
    ensures a % UINT == c % UINT <==> a == c
  {
    assert (c % UINT + PIPESIZE) % UINT == (c + PIPESIZE) % UINT;
  }

  lemma Slot(a: nat)
    ensures a % UINT % PIPESIZE == a % PIPESIZE && (a % UINT + 1) % UINT == (a + 1) % UINT
  {
  }

  lemma SlotsApart(c: nat, k: nat, a: nat)
    requires c <= k < a < c + PIPESIZE
    ensures k % PIPESIZE != a % PIPESIZE
  {
  }

  /** The counters say exactly when the ring is full and when it is empty. */
  lemma Counters(p: Pipe)
    requires Ok(p)
    ensures p.nwrite == (p.nread + PIPESIZE) % UINT <==> |p.accepted| == |p.consumed| + PIPESIZE
    ensures p.nread == p.nwrite <==> p.accepted == p.consumed
  {
    Wrapped(|p.accepted|, |p.consumed|);
  }

  ghost function Put(p: Pipe, ch: int): Pipe
    requires |p.data| == PIPESIZE
  {
    p.(data := p.data[p.nwrite % PIPESIZE := ch], nwrite := (p.nwrite + 1) % UINT, accepted := p.accepted + [ch])
  }

  lemma PutOk(p: Pipe, ch: int)
    requires Ok(p) && |p.accepted| < |p.consumed| + PIPESIZE
    ensures Ok(Put(p, ch))
  {
    var a, c := |p.accepted|, |p.consumed|;
    Slot(a);
    forall k | c <= k < a ensures k % PIPESIZE != a % PIPESIZE {
      SlotsApart(c, k, a);
    }
  }

  ghost function Taken(p: Pipe): Pipe
    requires |p.consumed| < |p.accepted|
  {
    p.(nread := (p.nread + 1) % UINT, consumed := p.accepted[..|p.consumed| + 1])
  }

  lemma TakenOk(p: Pipe)
    requires Ok(p) && |p.consumed| < |p.accepted|
    ensures Ok(Taken(p)) && p.data[p.nread % PIPESIZE] == p.accepted[|p.consumed|]
    ensures Taken(p).consumed == p.consumed + [p.accepted[|p.consumed|]]
  {
    Slot(|p.consumed|);
  }

  class PipeDev {
    var p: Pipe

    /** pipealloc */
    constructor ()
      ensures Ok(p) && p.accepted == p.consumed == [] && p.readOpen && p.writeOpen
    {
      p := Pipe(seq(PIPESIZE, _ => 0), 0, 0, true, true, [], []);
    }

    /** pipewrite from byte i on; copyin fails at byte bad. */
    method Write(src: Bytes, i0: nat, killed: bool, bad: nat) returns (r: Outcome, i: nat)
      requires Ok(p) && i0 <= |src| && i0 <= bad
      modifies this
      ensures Ok(p) && i0 <= i <= |src| && i <= bad
      ensures p.accepted == old(p).accepted + src[i0..i]
      ensures p.consumed == old(p).consumed && p.readOpen == old(p).readOpen && p.writeOpen == old(p).writeOpen
      ensures r == Asleep ==> i < |src| && |p.accepted| == |p.consumed| + PIPESIZE && p.readOpen && !killed
      ensures r == Returned(-1) <==> i0 < |src| && (!p.readOpen || killed)
      ensures r != Asleep && r != Returned(-1) ==> r == Returned(i) && (i == |src| || i == bad)
    {
      hide Ok;
      i := i0;
      while i < |src|
        invariant Ok(p) && i0 <= i <= |src| && i <= bad && p.accepted == old(p).accepted + src[i0..i]
        invariant p.consumed == old(p).consumed && p.readOpen == old(p).readOpen && p.writeOpen == old(p).writeOpen
        invariant i > i0 ==> p.readOpen && !killed
      {
        if !p.readOpen || killed {
          return Returned(-1), i;
        }
        Counters(p);
        RoomOf(p);
        if p.nwrite == (p.nread + PIPESIZE) % UINT {
          return Asleep, i;
        } else {
          if i == bad {
            break;
          }
          PutOk(p, src[i]);
          ghost var q := p;
          p := p.(data := p.data[p.nwrite % PIPESIZE := src[i]]);
          p := p.(nwrite := (p.nwrite + 1) % UINT, accepted := p.accepted + [src[i]]);
          assert p == Put(q, src[i]);
          i := i + 1;
        }
      }
      r := Returned(i);
    }

    /** piperead of n bytes; copyout fails at byte bad, which is then lost. */
    method Read(n: nat, killed: bool, bad: nat) returns (r: Outcome, out: Bytes)
      requires Ok(p)
      modifies this
      ensures Ok(p) && p.accepted == old(p).accepted && p.readOpen == old(p).readOpen && p.writeOpen == old(p).writeOpen
      ensures old(p).consumed + out <= p.consumed && |out| <= n && |out| <= bad
      ensures |p.consumed| == |old(p).consumed| + |out| +
                              if r == Returned(bad) && bad < n && |old(p).consumed| + bad < |p.accepted| then 1 else 0
      ensures r == Asleep || r == Returned(-1) ==> p == old(p) && out == [] && p.accepted == p.consumed && p.writeOpen
      ensures r == Asleep ==> !killed
      ensures r == Returned(-1) ==> killed
      ensures r != Asleep && r != Returned(-1) ==>
        r == Returned(|out|) && (|out| == n || |out| == bad || p.consumed == p.accepted)
    {
      hide Ok;
      Counters(p);
      RoomOf(p);
      out := [];
      if p.nread == p.nwrite && p.writeOpen {
        if killed {
          return Returned(-1), out;
        }
        return Asleep, out;
      }
      var i := 0;
      while i < n
        invariant Ok(p) && 0 <= i <= n && |out| == i && i <= bad
        invariant p == old(p).(nread := p.nread, consumed := p.consumed) && p.consumed == old(p).consumed + out
      {
        Counters(p);
        RoomOf(p);
        if p.nread == p.nwrite {
          break;
        }
        TakenOk(p);
        ghost var q := p;
        var ch := p.data[p.nread % PIPESIZE];
        p := p.(nread := (p.nread + 1) % UINT, consumed := p.accepted[..|p.consumed| + 1]);
        assert p == Taken(q);
        if i == bad {
          break;
        }
        out := out + [ch];
        i := i + 1;
      }
      r := Returned(|out|);
    }

    /** pipeclose: the page goes back with the second end. */
    method Close(writable: bool) returns (freed: bool)
      requires Ok(p)
      modifies this
      ensures Ok(p) && p.accepted == old(p).accepted && p.consumed == old(p).consumed
      ensures p.writeOpen == (old(p).writeOpen && !writable) && p.readOpen == (old(p).readOpen && writable)
      ensures freed <==> !p.readOpen && !p.writeOpen
    {
      if writable {
        p := p.(writeOpen := false);
      } else {
        p := p.(readOpen := false);
      }
      freed := !p.readOpen && !p.writeOpen;
    }
  }

  lemma RoomOf(p: Pipe)
    requires Ok(p)
    ensures |p.data| == PIPESIZE && 0 <= p.nread && 0 <= p.nwrite
    ensures |p.consumed| <= |p.accepted| <= |p.consumed| + PIPESIZE && p.consumed <= p.accepted
  {
  }
}
