/** pipe.c: a 512-byte ring with 32-bit counters that wrap, shared by readers and writers that
    sleep and wake each other.  The pipe's lock is given up only when a process sleeps or returns,
    so what one process does between two such points is a single burst. */
module Pipe {
  import opened Params

  const PIPESIZE: int := 512

  type byte = x: int | 0 <= x < 256

  /** The bytes in the pipe in order, and who sleeps on &nread and on &nwrite. */
  datatype PipeState = PipeState(q: seq<byte>, readopen: bool, writeopen: bool, readers: set<int>, writers: set<int>)

  /** How a burst ends: the call returns a count, it returns -1, or the process goes to sleep. */
  datatype Outcome = Done(n: int) | Failed | Asleep

  datatype Burst = Burst(s: PipeState, moved: seq<byte>, out: Outcome)

  /** pipewrite by process p with `bytes` still to store, until it gives up the lock. */
  function WriteBurst(s: PipeState, p: int, bytes: seq<byte>, total: int, killed: bool): Burst
    requires |s.q| <= PIPESIZE
  {
    var room := PIPESIZE - |s.q|;
    if |bytes| <= room then Burst(s.(q := s.q + bytes, readers := {}), bytes, Done(total))
    else if !s.readopen || killed then Burst(s.(q := s.q + bytes[..room]), bytes[..room], Failed)
    else Burst(s.(q := s.q + bytes[..room], readers := {}, writers := s.writers + {p}), bytes[..room], Asleep)
  }

  /** piperead of n bytes by process p, until it gives up the lock. */
  function ReadBurst(s: PipeState, p: int, n: int, killed: bool): Burst {
    if s.q == [] && s.writeopen then
      if killed then Burst(s, [], Failed) else Burst(s.(readers := s.readers + {p}), [], Asleep)
    else
      var count := if n < 0 then 0 else if n < |s.q| then n else |s.q|;
      Burst(s.(q := s.q[count..], writers := {}), s.q[..count], Done(count))
  }

  lemma ReadWaits(s: PipeState, p: int, n: int, killed: bool)
    requires s.q == [] && s.writeopen
    ensures ReadBurst(s, p, n, killed) == if killed then Burst(s, [], Failed)
      else Burst(s.(readers := s.readers + {p}), [], Asleep)
  {
  }

  /** When a read stops: at the count asked for, or at the end of what is there. */
  lemma ReadStops(s: PipeState, p: int, n: int, killed: bool, i: nat)
    requires !(s.q == [] && s.writeopen) && i <= |s.q| && (i >= n || i == |s.q|) && (i == 0 || i <= n)
    ensures ReadBurst(s, p, n, killed) == Burst(s.(q := s.q[i..], writers := {}), s.q[..i], Done(i))
  {
  }

  function Closed(s: PipeState, writable: bool): PipeState {
    if writable then s.(writeopen := false, readers := {}) else s.(readopen := false, writers := {})
  }

  // ----- runs -----

  datatype Event =
    | Write(p: int, bytes: seq<byte>, total: int, killed: bool)
    | Read(p: int, n: int, killed: bool)
    | Close(writable: bool)

  function Next(s: PipeState, e: Event): PipeState
    requires |s.q| <= PIPESIZE
  {
    match e
    case Write(p, bytes, total, killed) => WriteBurst(s, p, bytes, total, killed).s
    case Read(p, n, killed) => ReadBurst(s, p, n, killed).s
    case Close(w) => Closed(s, w)
  }

  ghost predicate IsRun(ss: seq<PipeState>, es: seq<Event>) {
    && |ss| == |es| + 1 && ss[0] == PipeState([], true, true, {}, {})
    && forall i | 0 <= i < |es| :: |ss[i].q| <= PIPESIZE && ss[i + 1] == Next(ss[i], es[i])
  }

  /** What one event stores, and what it hands to a reader. */
  function StoredBy(s: PipeState, e: Event): seq<byte>
    requires |s.q| <= PIPESIZE
  {
    if e.Write? then WriteBurst(s, e.p, e.bytes, e.total, e.killed).moved else []
  }

  function DeliveredBy(s: PipeState, e: Event): seq<byte> {
    if e.Read? then ReadBurst(s, e.p, e.n, e.killed).moved else []
  }

  lemma NextConserves(s: PipeState, e: Event)
    requires |s.q| <= PIPESIZE
    ensures |Next(s, e).q| <= PIPESIZE && DeliveredBy(s, e) + Next(s, e).q == s.q + StoredBy(s, e)
  {
    match e {
      case Write(p, bytes, total, killed) => {
        var room := PIPESIZE - |s.q|;
        if |bytes| > room { assert |s.q + bytes[..room]| == PIPESIZE; }
      }
      case Read(p, n, killed) => {
        var b := ReadBurst(s, p, n, killed);
        assert b.moved + b.s.q == s.q;
      }
      case Close(w) => {}
    }
  }

  /** Everything stored, and everything handed to readers, in the first n steps. */
  ghost function Stored(ss: seq<PipeState>, es: seq<Event>, n: nat): seq<byte>
    requires n <= |es| < |ss| && forall i | 0 <= i < |es| :: |ss[i].q| <= PIPESIZE
  {
    if n == 0 then [] else Stored(ss, es, n - 1) + StoredBy(ss[n - 1], es[n - 1])
  }

  ghost function Delivered(ss: seq<PipeState>, es: seq<Event>, n: nat): seq<byte>
    requires n <= |es| < |ss|
  {
    if n == 0 then [] else Delivered(ss, es, n - 1) + DeliveredBy(ss[n - 1], es[n - 1])
  }

  /** A pipe is a FIFO over every interleaving of partial reads and writes: what was delivered,
      followed by what is still in the ring, is exactly what was stored, in order. */
  lemma {:induction false} FirstInFirstOut(ss: seq<PipeState>, es: seq<Event>, n: nat)
    requires IsRun(ss, es) && n <= |es|
    ensures Delivered(ss, es, n) + ss[n].q == Stored(ss, es, n)
    ensures Delivered(ss, es, n) <= Stored(ss, es, n) && |ss[n].q| <= PIPESIZE
  {
    hide Next, DeliveredBy, StoredBy;
    if n > 0 {
      FirstInFirstOut(ss, es, n - 1);
      var s, e := ss[n - 1], es[n - 1];
      assert ss[n - 1 + 1] == Next(s, e);
      NextConserves(s, e);
      var d := Delivered(ss, es, n - 1);
      assert (d + DeliveredBy(s, e)) + ss[n].q == d + (DeliveredBy(s, e) + ss[n].q);
      assert d + (s.q + StoredBy(s, e)) == (d + s.q) + StoredBy(s, e);
    }
  }

  // ----- what a call returns -----

  /** Step m of a run is a burst of process p's pipewrite of `total` bytes. */
  ghost predicate IsBurst(ss: seq<PipeState>, es: seq<Event>, m: nat, p: int, total: int) {
    m < |es| < |ss| && |ss[m].q| <= PIPESIZE && es[m].Write? && es[m].p == p && es[m].total == total
  }

  ghost function BurstAt(ss: seq<PipeState>, es: seq<Event>, m: nat): (b: Burst)
    requires m < |es| < |ss| && |ss[m].q| <= PIPESIZE && es[m].Write?
    ensures |b.moved| <= |es[m].bytes|
  {
    WriteBurst(ss[m], es[m].p, es[m].bytes, es[m].total, es[m].killed)
  }

  /** The bursts of one pipewrite of `addr` by process p are the steps ms of the run: each but the last
      ends asleep, and the next goes on with the bytes not yet stored. */
  ghost predicate WriteCall(ss: seq<PipeState>, es: seq<Event>, ms: seq<nat>, p: int, addr: seq<byte>)
    decreases |ms|
  {
    && ms != [] && IsBurst(ss, es, ms[|ms| - 1], p, |addr|)
    && if |ms| == 1 then es[ms[0]].bytes == addr
       else
         && WriteCall(ss, es, ms[..|ms| - 1], p, addr)
         && IsBurst(ss, es, ms[|ms| - 2], p, |addr|) && ms[|ms| - 2] < ms[|ms| - 1]
         && BurstAt(ss, es, ms[|ms| - 2]).out == Asleep
         && es[ms[|ms| - 1]].bytes == es[ms[|ms| - 2]].bytes[|BurstAt(ss, es, ms[|ms| - 2]).moved|..]
  }

  /** What the bursts of the call have stored. */
  ghost function StoredInCall(ss: seq<PipeState>, es: seq<Event>, ms: seq<nat>, p: int, addr: seq<byte>): seq<byte>
    requires WriteCall(ss, es, ms, p, addr)
    decreases |ms|
  {
    (if |ms| == 1 then [] else StoredInCall(ss, es, ms[..|ms| - 1], p, addr)) + BurstAt(ss, es, ms[|ms| - 1]).moved
  }

  lemma BurstStores(s: PipeState, p: int, bytes: seq<byte>, total: int, killed: bool)
    requires |s.q| <= PIPESIZE
    ensures var b := WriteBurst(s, p, bytes, total, killed);
      && b.moved <= bytes && b.s.q == s.q + b.moved
      && (b.out.Done? ==> b.out.n == total && b.moved == bytes) && (!b.out.Done? ==> |b.moved| < |bytes|)
  {
  }

  /** The bytes that the last burst leaves are the ones the call has not stored. */
  lemma {:induction false} CallGoesOn(ss: seq<PipeState>, es: seq<Event>, ms: seq<nat>, p: int, addr: seq<byte>)
    requires WriteCall(ss, es, ms, p, addr)
    ensures var m := ms[|ms| - 1];
      StoredInCall(ss, es, ms, p, addr) + es[m].bytes[|BurstAt(ss, es, m).moved|..] == addr
    decreases |ms|
  {
    hide WriteBurst;
    var n := |ms| - 1;
    var e, b := es[ms[n]], BurstAt(ss, es, ms[n]);
    BurstStores(ss[ms[n]], p, e.bytes, |addr|, e.killed);
    assert e.bytes == b.moved + e.bytes[|b.moved|..];
    if n > 0 {
      CallGoesOn(ss, es, ms[..n], p, addr);
      assert StoredInCall(ss, es, ms[..n], p, addr) + (b.moved + e.bytes[|b.moved|..]) == addr;
    }
  }

  /** pipewrite returns a count if and only if all its bytes have been stored, sleeps included, and
      then it is their number; what it has stored is a prefix of them in any case. */
  lemma WriteReturnsStored(ss: seq<PipeState>, es: seq<Event>, ms: seq<nat>, p: int, addr: seq<byte>)
    requires WriteCall(ss, es, ms, p, addr)
    ensures var out := BurstAt(ss, es, ms[|ms| - 1]).out;
      var stored := StoredInCall(ss, es, ms, p, addr);
      && stored <= addr && (out.Done? <==> stored == addr) && (out.Done? ==> out.n == |addr| == |stored|)
  {
    hide WriteBurst, StoredInCall;
    var m := ms[|ms| - 1];
    CallGoesOn(ss, es, ms, p, addr);
    BurstStores(ss[m], p, es[m].bytes, |addr|, es[m].killed);
  }

  /** piperead returns the number of bytes it delivers: all it asked for, or all there are; none only
      at the end of the data; while it sleeps or when it fails it delivers nothing. */
  lemma ReadReturnsDelivered(s: PipeState, p: int, n: int, killed: bool)
    ensures var b := ReadBurst(s, p, n, killed);
      && b.moved <= s.q && b.moved + b.s.q == s.q
      && (b.out.Done? ==> b.out.n == |b.moved|)
      && (b.out.Done? ==> |b.moved| == n || (n < 0 && b.moved == []) || (|b.moved| < n && b.s.q == []))
      && (b.out.Done? ==> s.q != [] || !s.writeopen)
      && (!b.out.Done? ==> b.moved == [] && s.q == [] && s.writeopen && (b.out.Failed? <==> killed))
  {
  }

  // ----- wakeups -----

  /** Readers sleep only on an empty pipe that can still be written; writers only on a full one
      that can still be read. */
  ghost predicate NoLostWakeup(s: PipeState) {
    && (s.readers != {} ==> s.q == [] && s.writeopen)
    && (s.writers != {} ==> |s.q| == PIPESIZE && s.readopen)
  }

  /** The writer that returns -1 at a full pipe leaves sleeping readers asleep. */
  predicate ForgetsReaders(s: PipeState, e: Event)
    requires |s.q| <= PIPESIZE
  {
    e.Write? && s.readers != {} && WriteBurst(s, e.p, e.bytes, e.total, e.killed).out.Failed?
  }

  /** Every burst keeps the wakeup discipline, except exactly the failing write. */
  lemma WakeupKeptIff(s: PipeState, e: Event)
    requires |s.q| <= PIPESIZE && NoLostWakeup(s)
    ensures NoLostWakeup(Next(s, e)) <==> !ForgetsReaders(s, e)
  {
  }

  /** The failing write needs a pipe whose read end is closed or a writer that was killed, and more
      bytes than the ring holds. */
  lemma WhoForgetsReaders(s: PipeState, e: Event)
    requires |s.q| <= PIPESIZE && NoLostWakeup(s)
    ensures ForgetsReaders(s, e) <==> e.Write? && s.readers != {} && |e.bytes| > PIPESIZE && (e.killed || !s.readopen)
  {
  }

  /** A killed writer of 513 bytes: a reader sleeps beside a full pipe. */
  lemma KilledWriterForgets(bytes: seq<byte>)
    requires |bytes| == 513
    ensures var s := Next(PipeState([], true, true, {}, {}), Read(7, 1, false));
      var t := Next(s, Write(8, bytes, 513, true));
      && NoLostWakeup(s) && 7 in t.readers && |t.q| == PIPESIZE && !NoLostWakeup(t)
  {
  }

  /** In a run without such a write, readers and writers never sleep at the same time, and whoever
      sleeps has reason to. */
  lemma {:induction false} RunsKeepWakeups(ss: seq<PipeState>, es: seq<Event>, n: nat)
    requires IsRun(ss, es) && n <= |es|
    requires forall i | 0 <= i < n :: !ForgetsReaders(ss[i], es[i])
    ensures NoLostWakeup(ss[n]) && (ss[n].readers == {} || ss[n].writers == {})
  {
    if n > 0 {
      RunsKeepWakeups(ss, es, n - 1);
      assert ss[n - 1 + 1] == Next(ss[n - 1], es[n - 1]);
      assert !ForgetsReaders(ss[n - 1], es[n - 1]);
      WakeupKeptIff(ss[n - 1], es[n - 1]);
    }
  }

  // ----- the ring -----

  /** Positions in the whole stream and their 32-bit counters agree on the slot of the ring,
      because 512 divides 2^32. */
  lemma SlotOfCounter(k: int)
    requires 0 <= k
    ensures k % UINT % PIPESIZE == k % PIPESIZE
  {
    var h := k / UINT;
    assert k == h * UINT + k % UINT;
    assert h * UINT == PIPESIZE * (h * 0x80_0000);
    SameSlot(k % UINT, h * 0x80_0000);
  }

  lemma SameSlot(r: int, q: int)
    ensures (PIPESIZE * q + r) % PIPESIZE == r % PIPESIZE
  {
    var a, b := (PIPESIZE * q + r) / PIPESIZE, r / PIPESIZE;
    assert PIPESIZE * (a - b - q) == r % PIPESIZE - (PIPESIZE * q + r) % PIPESIZE;
  }

  lemma CounterNext(k: int)
    requires 0 <= k
    ensures (k % UINT + 1) % UINT == (k + 1) % UINT
  {
  }

  lemma WrapAdd(r: int, d: int)
    requires 0 <= r && 0 <= d <= PIPESIZE
    ensures (r + d) % UINT == (if r % UINT + d < UINT then r % UINT + d else r % UINT + d - UINT)
  {
    var q := r / UINT;
    assert r + d == q * UINT + (r % UINT + d);
  }

  /** The tests for full and empty on the counters are exact. */
  lemma CountersCompare(w: int, r: int)
    requires 0 <= r <= w <= r + PIPESIZE
    ensures w % UINT == (r % UINT + PIPESIZE) % UINT <==> w == r + PIPESIZE
    ensures r % UINT == w % UINT <==> w == r
  {
    WrapAdd(r, w - r);
    WrapAdd(r % UINT, PIPESIZE);
  }

  lemma SlotsApart(k: int, w: int)
    requires w - PIPESIZE < k < w
    ensures k % PIPESIZE != w % PIPESIZE
  {
  }

  ghost predicate InRing(data: seq<byte>, stream: seq<byte>, taken: int)
    requires |data| == PIPESIZE && 0 <= taken
  {
    forall k | taken <= k < |stream| :: data[k % PIPESIZE] == stream[k]
  }

  class Ring {
    const data: array<byte>
    var nread: int
    var nwrite: int
    var readopen: bool
    var writeopen: bool
    ghost var readers: set<int>
    ghost var writers: set<int>
    /** Everything ever stored, and how much of it was read. */
    ghost var stream: seq<byte>
    ghost var taken: int

    ghost predicate Valid()
      reads this, data
    {
      && data.Length == PIPESIZE && 0 <= taken <= |stream| <= taken + PIPESIZE
      && nread == taken % UINT && nwrite == |stream| % UINT
      && InRing(data[..], stream, taken)
    }

    ghost function Abs(): PipeState
      reads this
      requires 0 <= taken <= |stream|
    {
      PipeState(stream[taken..], readopen, writeopen, readers, writers)
    }

    /** pipealloc. */
    constructor ()
      ensures Valid() && Abs() == PipeState([], true, true, {}, {}) && stream == []
    {
      data := new byte[PIPESIZE];
      nread, nwrite, readopen, writeopen := 0, 0, true, true;
      readers, writers, stream, taken := {}, {}, [], 0;
    }

    method Pipeclose(writable: bool) returns (freed: bool)
      requires Valid()
      modifies this`readopen, this`writeopen, this`readers, this`writers
      ensures Valid() && Abs() == Closed(old(Abs()), writable)
      ensures writeopen == (old(writeopen) && !writable) && readopen == (old(readopen) && writable)
      ensures if writable then readers == {} else writers == {}
      ensures freed <==> !readopen && !writeopen
    {
      if writable {
        writeopen := false;
        readers := {};
      } else {
        readopen := false;
        writers := {};
      }
      freed := !readopen && !writeopen;
    }

    method Store(c: byte)
      requires Valid() && |stream| < taken + PIPESIZE
      modifies data, this`nwrite, this`stream
      ensures Valid() && stream == old(stream) + [c]
    {
      SlotOfCounter(|stream|);
      CounterNext(|stream|);
      forall k | taken <= k < |stream|
        ensures k % PIPESIZE != |stream| % PIPESIZE
      {
        SlotsApart(k, |stream|);
      }
      data[nwrite % PIPESIZE] := c;
      nwrite := (nwrite + 1) % UINT;
      stream := stream + [c];
    }

    method Fetch() returns (c: byte)
      requires Valid() && taken < |stream|
      modifies this`nread, this`taken
      ensures Valid() && taken == old(taken) + 1 && c == stream[old(taken)]
    {
      SlotOfCounter(taken);
      CounterNext(taken);
      c := data[nread % PIPESIZE];
      nread := (nread + 1) % UINT;
      taken := taken + 1;
    }

    /** pipewrite from byte i on: until it returns, or sleeps with byte `next` still to store. */
    method Pipewrite(p: int, addr: seq<byte>, i: nat, killed: bool) returns (next: nat, out: Outcome)
      requires Valid() && i <= |addr|
      modifies this, data
      ensures Valid() && i <= next <= |addr|
      ensures var b := WriteBurst(old(Abs()), p, addr[i..], |addr|, killed);
        Abs() == b.s && addr[i..next] == b.moved && out == b.out
      ensures stream == old(stream) + addr[i..next] && taken == old(taken)
      ensures out.Done? <==> next == |addr|
      ensures out.Done? ==> out.n == |addr| && readers == {}
      ensures next < |addr| ==> |stream| == taken + PIPESIZE && (out.Failed? <==> !readopen || killed)
      ensures out == Asleep ==> readers == {} && writers == old(writers) + {p}
    {
      hide InRing;
      next := i;
      while next < |addr|
        invariant i <= next <= |addr| && Valid()
        invariant stream == old(stream) + addr[i..next]
        invariant taken == old(taken) && readopen == old(readopen) && writeopen == old(writeopen)
        invariant readers == old(readers) && writers == old(writers)
      {
        CountersCompare(|stream|, taken);
        if nwrite == (nread + PIPESIZE) % UINT {
          ghost var room := PIPESIZE - (old(|stream|) - taken);
          assert next == i + room && addr[i..][..room] == addr[i..next];
          assert stream[taken..] == old(stream[taken..]) + addr[i..next];
          if !readopen || killed { return next, Failed; }
          readers := {};
          writers := writers + {p};
          return next, Asleep;
        }
        Store(addr[next]);
        next := next + 1;
      }
      assert addr[i..next] == addr[i..];
      assert stream[taken..] == old(stream[taken..]) + addr[i..];
      readers := {};
      return next, Done(|addr|);
    }

    /** piperead from where it tests for an empty pipe: until it returns or sleeps. */
    method Piperead(p: int, n: int, killed: bool) returns (bytes: seq<byte>, out: Outcome)
      requires Valid()
      modifies this
      ensures Valid()
      ensures var b := ReadBurst(old(Abs()), p, n, killed); Abs() == b.s && bytes == b.moved && out == b.out
      ensures stream == old(stream) && taken == old(taken) + |bytes|
      ensures bytes == stream[old(taken)..taken]
      ensures out.Done? <==> old(taken) < |stream| || !writeopen
      ensures out.Done? ==> out.n == |bytes| && writers == {}
      ensures out.Done? ==> |bytes| == n || (n < 0 && bytes == []) || (|bytes| < n && taken == |stream|)
      ensures out.Failed? ==> killed
      ensures out == Asleep ==> !killed && readers == old(readers) + {p}
    {
      hide ReadBurst, InRing;
      ghost var s := Abs();
      ghost var t0 := taken;
      bytes := [];
      CountersCompare(|stream|, taken);
      if nread == nwrite && writeopen {
        ReadWaits(s, p, n, killed);
        if killed { return bytes, Failed; }
        readers := readers + {p};
        return bytes, Asleep;
      }
      var i := 0;
      while i < n
        invariant 0 <= i && (i == 0 || i <= n) && |bytes| == i && Valid() && taken == t0 + i <= |stream|
        invariant bytes == stream[t0..taken] && stream == old(stream)
        invariant readopen == s.readopen && writeopen == s.writeopen && readers == s.readers
      {
        CountersCompare(|stream|, taken);
        if nread == nwrite { break; }
        var c := Fetch();
        bytes := bytes + [c];
        i := i + 1;
      }
      writers := {};
      Slices(stream, t0, i);
      ReadStops(s, p, n, killed, i);
      return bytes, Done(i);
    }
  }

  lemma Slices(t: seq<byte>, a: int, i: int)
    requires 0 <= a <= a + i <= |t| && 0 <= i
    ensures t[a..][..i] == t[a..a + i] && t[a..][i..] == t[a + i..]
  {
  }
}
