/** Sector-aligned parallel reads of one file span into one arena: how the span is cut, what one
    reader's loop does under short reads, and what any interleaving of the readers leaves. */
module UnbufferedReader {
  import opened Wrappers

  type Byte = bv8

  const SECTOR := 4096

  /** `x & ~(SECTOR - 1)`. */
  function AlignDown(x: nat): (r: nat)
    ensures r <= x < r + SECTOR && r % SECTOR == 0
  {
    x - x % SECTOR
  }

  function AlignUp(x: nat): (r: nat)
    ensures x <= r < x + SECTOR && r % SECTOR == 0
  {
    AlignDown(x + SECTOR - 1)
  }

  /** The tensors of a shard lie in `[lo, hi)` of a file; the arena starts at the aligned `lo`. */
  datatype Span = Span(lo: nat, hi: nat) {
    predicate Valid(fileSize: nat) { lo < hi <= fileSize }
    function Low(): nat { AlignDown(lo) }
    function High(): nat { AlignUp(hi) }
  }

  datatype Range = Range(a: nat, b: nat, off: nat)

  // ----- cutting the span -----

  function Times(a: nat, b: nat): nat { a * b }

  /** `size * p // parts`. */
  function Portion(size: nat, p: nat, parts: nat): nat
    requires 0 < parts
  {
    Times(size, p) / parts
  }

  /** Where part `p` of `parts` begins. */
  function Cut(low: nat, high: nat, parts: nat, p: nat): nat
    requires low <= high && 0 < parts
  {
    low + AlignDown(Portion(high - low, p, parts))
  }

  function PartRange(low: nat, high: nat, parts: nat, p: nat): Range
    requires low <= high && 0 < parts
  {
    Range(Cut(low, high, parts, p), Cut(low, high, parts, p + 1), Cut(low, high, parts, p) - low)
  }

  /** `ranges`: the last part always ends at the end of the span. */
  method Ranges(low: nat, high: nat, parts: nat) returns (out: seq<Range>)
    requires low <= high && low % SECTOR == 0 && high % SECTOR == 0 && 0 < parts
    ensures |out| == parts && forall p :: 0 <= p < parts ==> out[p] == PartRange(low, high, parts, p)
  {
    hide AlignDown, Portion;
    var size := high - low;
    LastCut(low, high, parts);
    out := [];
    for part := 0 to parts
      invariant |out| == part && forall p :: 0 <= p < part ==> out[p] == PartRange(low, high, parts, p)
    {
      var a := low + AlignDown(Portion(size, part, parts));
      var b := if part == parts - 1 then high else low + AlignDown(Portion(size, part + 1, parts));
      out := out + [Range(a, b, a - low)];
    }
  }

  lemma LastCut(low: nat, high: nat, parts: nat)
    requires low <= high && low % SECTOR == 0 && high % SECTOR == 0 && 0 < parts
    ensures Cut(low, high, parts, parts) == high && Cut(low, high, parts, 0) == low
  {
    hide Portion;
    var size := high - low;
    WholeQuotient(size, parts);
    NoQuotient(size, parts);
    assert size % SECTOR == 0;
  }

  lemma Multiples(a: nat, b: nat, d: nat)
    requires a <= b
    ensures a * d <= b * d
  {
    assert (b - a) * d >= 0;
  }

  lemma QuotientIs(x: nat, q: nat, d: nat)
    requires 0 < d && q * d <= x < (q + 1) * d
    ensures x / d == q
  {
    var k := x / d;
    assert k * d <= x < (k + 1) * d;
    if k < q {
      Multiples(k + 1, q, d);
    } else if q < k {
      Multiples(q + 1, k, d);
    }
  }

  lemma WholeQuotient(size: nat, parts: nat)
    requires 0 < parts
    ensures Portion(size, parts, parts) == size
  {
    assert (size + 1) * parts == size * parts + parts;
    QuotientIs(size * parts, size, parts);
  }

  lemma NoQuotient(size: nat, parts: nat)
    requires 0 < parts
    ensures Portion(size, 0, parts) == 0
  {
    QuotientIs(0, 0, parts);
  }

  lemma QuotientMonotone(a: nat, b: nat, parts: nat)
    requires 0 < parts && a <= b
    ensures a / parts <= b / parts
  {
    var j, k := a / parts, b / parts;
    assert j * parts <= a && b < (k + 1) * parts;
    if k < j {
      Multiples(k + 1, j, parts);
    }
  }

  lemma QuotientBelow(x: nat, q: nat, d: nat)
    requires 0 < d && x < q * d
    ensures x / d < q
  {
    var k := x / d;
    assert k * d <= x;
    if q <= k {
      Multiples(q, k, d);
    }
  }

  lemma PortionBelow(size: nat, parts: nat)
    requires 0 < parts && 0 < size
    ensures Portion(size, parts - 1, parts) < size
  {
    assert size * (parts - 1) == size * parts - size;
    QuotientBelow(Times(size, parts - 1), size, parts);
  }

  lemma StepsApart(a: nat, b: nat)
    requires a % SECTOR == 0 && b % SECTOR == 0 && a < b
    ensures a + SECTOR <= b
  {}

  lemma LastPartIsNotEmpty(low: nat, high: nat, parts: nat)
    requires low < high && low % SECTOR == 0 && high % SECTOR == 0 && 0 < parts
    ensures Cut(low, high, parts, parts - 1) + SECTOR <= high
  {
    hide Portion;
    PortionBelow(high - low, parts);
    StepsApart(AlignDown(Portion(high - low, parts - 1, parts)), high - low);
  }

  lemma AlignMonotone(a: nat, b: nat)
    requires a <= b
    ensures AlignDown(a) <= AlignDown(b)
  {}

  lemma CutsRise(low: nat, high: nat, parts: nat, p: nat, q: nat)
    requires low <= high && 0 < parts && p <= q
    ensures Cut(low, high, parts, p) <= Cut(low, high, parts, q)
  {
    hide AlignDown;
    var size := high - low;
    Multiples(p, q, size);
    assert Times(size, p) <= Times(size, q);
    QuotientMonotone(Times(size, p), Times(size, q), parts);
    AlignMonotone(Portion(size, p, parts), Portion(size, q, parts));
  }

  /** The part an address belongs to. */
  lemma {:induction false} SomePart(low: nat, high: nat, parts: nat, x: nat, n: nat) returns (p: nat)
    requires low <= high && low % SECTOR == 0 && high % SECTOR == 0 && 0 < parts && 0 < n <= parts
    requires low <= x < Cut(low, high, parts, n)
    ensures p < n && Cut(low, high, parts, p) <= x < Cut(low, high, parts, p + 1)
  {
    LastCut(low, high, parts);
    if Cut(low, high, parts, n - 1) <= x {
      p := n - 1;
    } else {
      p := SomePart(low, high, parts, x, n - 1);
    }
  }

  predicate InPart(low: nat, high: nat, parts: nat, p: nat, x: nat)
    requires low <= high && 0 < parts
  {
    p < parts && Cut(low, high, parts, p) <= x < Cut(low, high, parts, p + 1)
  }

  /** Every cut is sector-aligned, and every address of the aligned span is in exactly one part. */
  lemma PartsPartition(span: Span, fileSize: nat, parts: nat, x: nat)
    requires span.Valid(fileSize) && 0 < parts
    ensures span.Low() <= span.lo && span.hi <= span.High()
    ensures forall p: nat :: p <= parts ==> Cut(span.Low(), span.High(), parts, p) % SECTOR == 0
    ensures span.Low() <= x < span.High() <==> exists p: nat :: InPart(span.Low(), span.High(), parts, p, x)
    ensures forall p: nat, q: nat ::
              InPart(span.Low(), span.High(), parts, p, x) && InPart(span.Low(), span.High(), parts, q, x) ==> p == q
  {
    hide Cut;
    var low, high := span.Low(), span.High();
    CutsAligned(low, high, parts);
    LastCut(low, high, parts);
    if low <= x < high {
      var p := SomePart(low, high, parts, x, parts);
      assert InPart(low, high, parts, p, x);
    }
    forall p: nat | InPart(low, high, parts, p, x) ensures low <= x < high {
      CutsRise(low, high, parts, 0, p);
      CutsRise(low, high, parts, p + 1, parts);
    }
    forall p: nat, q: nat | InPart(low, high, parts, p, x) && InPart(low, high, parts, q, x) ensures p == q {
      if p < q {
        CutsRise(low, high, parts, p + 1, q);
      } else if q < p {
        CutsRise(low, high, parts, q + 1, p);
      }
    }
  }

  lemma CutsAligned(low: nat, high: nat, parts: nat)
    requires low <= high && low % SECTOR == 0 && 0 < parts
    ensures forall p: nat :: Cut(low, high, parts, p) % SECTOR == 0
  {
    hide AlignDown, Portion;
    forall p: nat ensures Cut(low, high, parts, p) % SECTOR == 0 {
      AlignedSum(low, AlignDown(Portion(high - low, p, parts)));
    }
  }

  // ----- one reader -----

  datatype ReadError = ReadNothing(at: nat) | WrongCount(read: nat)

  function Min(a: int, b: int): int { if a <= b then a else b }

  /** A file handle. How many bytes a read returns is up to `mood`: any number from 1 to what was
      asked for and the file still holds, and none at the end of the file. */
  class Handle {
    const file: seq<Byte>
    const mood: nat -> nat
    var position: nat
    var calls: nat

    constructor (file: seq<Byte>, mood: nat -> nat)
      ensures this.file == file && this.mood == mood && position == 0
    {
      this.file, this.mood := file, mood;
      position, calls := 0, 0;
    }

    method Seek(to: nat)
      modifies this
      ensures position == to
    {
      position := to;
    }

    /** `ReadFile` into the arena at `at`. */
    method Read(arena: array<Byte>, at: nat, want: nat) returns (got: nat)
      requires at + want <= arena.Length
      modifies this, arena
      ensures got <= want && position == old(position) + got
      ensures got == 0 <==> want == 0 || old(position) >= |file|
      ensures got > 0 ==> old(position) + got <= |file|
      ensures forall i :: 0 <= i < arena.Length ==>
                arena[i] == if at <= i < at + got then file[old(position) + (i - at)] else old(arena[i])
    {
      var most: nat := if position >= |file| then 0 else Min(want, |file| - position);
      got := if most == 0 then 0 else 1 + mood(calls) % most;
      calls := calls + 1;
      var i := 0;
      while i < got
        invariant i <= got && position == old(position)
        invariant forall k :: 0 <= k < arena.Length ==>
                    arena[k] == if at <= k < at + i then file[position + (k - at)] else old(arena[k])
      {
        arena[at + i] := file[position + i];
        i := i + 1;
      }
      position := position + got;
    }
  }

  /** The bytes the file holds in `[offset, offset + length)`. */
  function Held(fileSize: nat, offset: nat, length: nat): nat {
    if fileSize <= offset then 0 else Min(length, fileSize - offset)
  }

  /** The size of the next request, `done` bytes into the part. */
  function Want(length: nat, done: nat, chunk: int): nat
    requires done <= length
  {
    if chunk <= 0 then length - done else Min(chunk, length - done)
  }

  /** `read_unbuffered`: under any short reads it ends with exactly the expected bytes when those are
      what the file holds there; asked for more it fails at the end of the file, and in every other
      case a count that does not match is an error too. */
  method ReadUnbuffered(handle: Handle, arena: array<Byte>, offset: nat, ptr: nat, length: nat, expected: int,
                        chunk: int)
    returns (error: Option<ReadError>)
    requires ptr + length <= arena.Length
    modifies handle, arena
    ensures expected == Held(|handle.file|, offset, length) ==> error.None?
    ensures expected > Held(|handle.file|, offset, length) ==>
              error == Some(ReadNothing(offset + Held(|handle.file|, offset, length)))
    ensures error.None? ==>
              && 0 <= expected <= Held(|handle.file|, offset, length)
              && forall i :: 0 <= i < arena.Length ==>
                   arena[i] == if ptr <= i < ptr + expected then handle.file[offset + (i - ptr)] else old(arena[i])
  {
    handle.Seek(offset);
    var done := 0;
    ghost var held := Held(|handle.file|, offset, length);
    while done < expected
      invariant done <= held && handle.position == offset + done
      invariant held > 0 ==> offset + held <= |handle.file|
      invariant forall i :: 0 <= i < arena.Length ==>
                  arena[i] == if ptr <= i < ptr + done then handle.file[offset + (i - ptr)] else old(arena[i])
      decreases held - done
    {
      var want := Want(length, done, chunk);
      var got := handle.Read(arena, ptr + done, want);
      if got == 0 {
        return Some(ReadNothing(offset + done));
      }
      done := done + got;
    }
    if done != expected {
      return Some(WrongCount(done));
    }
    return None;
  }

  // ----- all readers, in any order -----

  /** The arena and how far each reader has come. */
  datatype Progress = Progress(arena: seq<Byte>, done: seq<nat>)

  /** The job of all readers together: one file span cut into parts, fetched by `chunk` a request. */
  datatype Job = Job(file: seq<Byte>, span: Span, parts: nat, chunk: int) {
    predicate Valid() { span.Valid(|file|) && 0 < parts }
    function Low(): nat { span.Low() }
    function High(): nat { span.High() }
    function PartAt(p: nat): Range
      requires Valid()
    {
      PartRange(Low(), High(), parts, p)
    }

    /** The bytes reader `p` has to fetch. */
    function Expected(p: nat): int
      requires Valid()
    {
      Min(PartAt(p).b, |file|) - PartAt(p).a
    }

    /** What reader `p` asks for next. */
    function Request(p: nat, done: nat): nat
      requires Valid() && done < Expected(p)
    {
      Want(PartAt(p).b - PartAt(p).a, done, chunk)
    }
  }

  /** What a reader is told to expect is exactly what the file holds in its part, so none of them fails. */
  lemma ExpectedIsHeld(job: Job, p: nat)
    requires job.Valid() && p < job.parts
    ensures job.PartAt(p).a <= job.PartAt(p).b
    ensures job.Expected(p) == Held(|job.file|, job.PartAt(p).a, job.PartAt(p).b - job.PartAt(p).a)
  {
    hide Cut;
    var low, high := job.Low(), job.High();
    CutsRise(low, high, job.parts, p, job.parts - 1);
    CutsRise(low, high, job.parts, p, p + 1);
    LastPartIsNotEmpty(low, high, job.parts);
  }

  /** A read that returned: which reader, and how many bytes. */
  datatype Returned = Returned(reader: nat, got: nat)

  /** A reader that goes on, with the request its loop makes next: any short read of it. */
  predicate CanReturn(job: Job, s: Progress, e: Returned)
    requires job.Valid()
  {
    && e.reader < job.parts == |s.done| && |s.arena| >= job.High() - job.Low()
    && s.done[e.reader] < job.Expected(e.reader)
    && 0 < e.got <= job.Request(e.reader, s.done[e.reader])
    && job.PartAt(e.reader).a + s.done[e.reader] + e.got <= |job.file|
  }

  function Copy(arena: seq<Byte>, at: nat, bytes: seq<Byte>): (r: seq<Byte>)
    requires at + |bytes| <= |arena|
    ensures |r| == |arena|
    ensures forall i :: 0 <= i < |r| ==> r[i] == if at <= i < at + |bytes| then bytes[i - at] else arena[i]
  {
    arena[..at] + bytes + arena[at + |bytes|..]
  }

  lemma ReturnFits(job: Job, s: Progress, e: Returned)
    requires job.Valid() && CanReturn(job, s, e)
    ensures var r := job.PartAt(e.reader);
            && job.Low() <= r.a && r.off == r.a - job.Low()
            && r.a + s.done[e.reader] + e.got <= |job.file|
            && r.a + s.done[e.reader] + e.got <= job.High()
  {
    hide Cut;
    CutsRise(job.Low(), job.High(), job.parts, 0, e.reader);
    CutsRise(job.Low(), job.High(), job.parts, e.reader + 1, job.parts);
    LastCut(job.Low(), job.High(), job.parts);
  }

  /** One turn of one reader's loop. */
  function AfterReturn(job: Job, s: Progress, e: Returned): (r: Progress)
    requires job.Valid() && CanReturn(job, s, e)
    ensures |r.arena| == |s.arena| && |r.done| == |s.done|
  {
    ReturnFits(job, s, e);
    var part, done := job.PartAt(e.reader), s.done[e.reader];
    Progress(Copy(s.arena, part.off + done, job.file[part.a + done..part.a + done + e.got]),
             s.done[e.reader := done + e.got])
  }

  /** The readers' returns in the order in which they come, from one state to another. */
  ghost predicate Runs(job: Job, start: Progress, events: seq<Returned>, s: Progress)
    requires job.Valid()
    decreases |events|
  {
    if events == [] then s == start
    else CanReturn(job, start, events[0]) && Runs(job, AfterReturn(job, start, events[0]), events[1..], s)
  }

  /** Whatever a handle may answer to the request a reader's loop makes, it is one of the returns,
      and the arena it leaves is the one after that return. */
  lemma TurnIsReturn(job: Job, s: Progress, p: nat, got: nat, arena: seq<Byte>)
    requires job.Valid() && p < job.parts == |s.done| && |s.arena| >= job.High() - job.Low()
    requires s.done[p] < job.Expected(p) && |arena| == |s.arena|
    requires var r, done := job.PartAt(p), s.done[p];
             && got <= job.Request(p, done)
             && (got == 0 <==> job.Request(p, done) == 0 || r.a + done >= |job.file|)
             && (got > 0 ==> r.a + done + got <= |job.file|)
             && forall i :: 0 <= i < |arena| ==>
                  arena[i] == if r.off + done <= i < r.off + done + got then job.file[r.a + done + (i - (r.off + done))]
                              else s.arena[i]
    ensures CanReturn(job, s, Returned(p, got)) && AfterReturn(job, s, Returned(p, got)).arena == arena
  {
    hide Cut, AlignDown, AlignUp;
    var e := Returned(p, got);
    ReturnFits(job, s, e);
  }

  /** `run_unbuf`: one reader alone fetches its part and nothing else, and never fails. */
  method RunUnbuf(job: Job, p: nat, handle: Handle, arena: array<Byte>) returns (error: Option<ReadError>)
    requires job.Valid() && p < job.parts && handle.file == job.file && arena.Length >= job.High() - job.Low()
    modifies handle, arena
    ensures error.None?
    ensures var r, expected := job.PartAt(p), job.Expected(p);
            && 0 <= expected <= r.b - r.a && job.Low() <= r.a && r.a + expected <= |job.file|
            && forall i :: 0 <= i < arena.Length ==>
                 arena[i] == if r.off <= i < r.off + expected then job.file[r.a + (i - r.off)] else old(arena[i])
  {
    hide Cut, AlignDown, AlignUp;
    ExpectedIsHeld(job, p);
    PartInside(job, p);
    var r := job.PartAt(p);
    error := ReadUnbuffered(handle, arena, r.a, r.off, r.b - r.a, job.Expected(p), job.chunk);
  }

  lemma PartInside(job: Job, p: nat)
    requires job.Valid() && p < job.parts
    ensures job.Low() <= job.PartAt(p).a && job.PartAt(p).b <= job.High() && 0 <= job.Expected(p)
  {
    hide Cut;
    CutsRise(job.Low(), job.High(), job.parts, 0, p);
    CutsRise(job.Low(), job.High(), job.parts, p + 1, job.parts);
    LastCut(job.Low(), job.High(), job.parts);
    ExpectedIsHeld(job, p);
  }

  // ----- whatever the order -----

  /** Address `x` was fetched by some reader. */
  ghost predicate Fetched(job: Job, s: Progress, x: nat)
    requires job.Valid()
  {
    exists p: nat :: FetchedBy(job, s, p, x)
  }

  predicate FetchedBy(job: Job, s: Progress, p: nat, x: nat)
    requires job.Valid()
  {
    p < |s.done| && job.PartAt(p).a <= x < job.PartAt(p).a + s.done[p]
  }

  function Origin(job: Job, arena: seq<Byte>): Progress
    requires job.Valid()
  {
    Progress(arena, seq(job.parts, _ => 0))
  }

  ghost predicate InBounds(job: Job, s: Progress)
    requires job.Valid()
  {
    |s.done| == job.parts && forall p :: 0 <= p < job.parts ==> s.done[p] == 0 || s.done[p] <= job.Expected(p)
  }

  /** The arena holds the file at every fetched address and is untouched elsewhere. */
  ghost predicate Faithful(job: Job, start: seq<Byte>, s: Progress)
    requires job.Valid()
  {
    && |s.arena| == |start| >= job.High() - job.Low()
    && forall x: nat :: job.Low() <= x < job.Low() + |start| ==>
         if Fetched(job, s, x) then x < |job.file| && s.arena[x - job.Low()] == job.file[x]
         else s.arena[x - job.Low()] == start[x - job.Low()]
  }

  lemma NothingFetched(job: Job, arena: seq<Byte>)
    requires job.Valid() && |arena| >= job.High() - job.Low()
    ensures Faithful(job, arena, Origin(job, arena)) && InBounds(job, Origin(job, arena))
  {}

  lemma FetchedGrows(job: Job, s: Progress, e: Returned, x: nat)
    requires job.Valid() && CanReturn(job, s, e)
    ensures var a := job.PartAt(e.reader).a + s.done[e.reader];
            Fetched(job, AfterReturn(job, s, e), x) <==> Fetched(job, s, x) || a <= x < a + e.got
  {
    hide Cut, Copy, Min;
    var after := AfterReturn(job, s, e);
    if p: nat :| FetchedBy(job, s, p, x) {
      assert FetchedBy(job, after, p, x);
    }
    var a := job.PartAt(e.reader).a + s.done[e.reader];
    if a <= x < a + e.got {
      assert FetchedBy(job, after, e.reader, x);
    }
    if p: nat :| FetchedBy(job, after, p, x) {
      assert p != e.reader ==> FetchedBy(job, s, p, x);
      assert p == e.reader && x < a ==> FetchedBy(job, s, p, x);
    }
  }

  /** What a return leaves at one position of the arena. */
  lemma ReturnAt(job: Job, s: Progress, e: Returned, x: nat)
    requires job.Valid() && CanReturn(job, s, e) && job.Low() <= x < job.Low() + |s.arena|
    ensures var a := job.PartAt(e.reader).a + s.done[e.reader];
            && a + e.got <= |job.file|
            && AfterReturn(job, s, e).arena[x - job.Low()]
               == if a <= x < a + e.got then job.file[x] else s.arena[x - job.Low()]
  {
    hide Cut, Copy, Min, AlignDown, AlignUp;
    ReturnFits(job, s, e);
  }

  lemma ReturnWithinExpected(job: Job, s: Progress, e: Returned)
    requires job.Valid() && CanReturn(job, s, e)
    ensures s.done[e.reader] + e.got <= job.Expected(e.reader)
  {
    hide Cut;
  }

  lemma ReturnKeepsBounds(job: Job, s: Progress, e: Returned)
    requires job.Valid() && CanReturn(job, s, e) && InBounds(job, s)
    ensures InBounds(job, AfterReturn(job, s, e))
  {
    hide Cut, Copy, Min, AlignDown, AlignUp, CanReturn;
    ReturnWithinExpected(job, s, e);
  }

  lemma ReturnKeepsFaithful(job: Job, start: seq<Byte>, s: Progress, e: Returned)
    requires job.Valid() && CanReturn(job, s, e) && Faithful(job, start, s)
    ensures Faithful(job, start, AfterReturn(job, s, e))
  {
    hide Fetched, AfterReturn, AlignDown, AlignUp;
    var after := AfterReturn(job, s, e);
    forall x: nat | job.Low() <= x < job.Low() + |start|
      ensures if Fetched(job, after, x) then x < |job.file| && after.arena[x - job.Low()] == job.file[x]
              else after.arena[x - job.Low()] == start[x - job.Low()]
    {
      FetchedGrows(job, s, e, x);
      ReturnAt(job, s, e, x);
    }
  }

  lemma {:induction false} RunIsFaithful(job: Job, start: seq<Byte>, from: Progress, events: seq<Returned>, s: Progress)
    requires job.Valid() && Faithful(job, start, from) && InBounds(job, from)
    requires Runs(job, from, events, s)
    ensures Faithful(job, start, s) && InBounds(job, s)
    decreases |events|
  {
    hide Faithful, InBounds, AfterReturn, CanReturn;
    if events != [] {
      ReturnKeepsFaithful(job, start, from, events[0]);
      ReturnKeepsBounds(job, from, events[0]);
      RunIsFaithful(job, start, AfterReturn(job, from, events[0]), events[1..], s);
    }
  }

  /** Every reader has what it expected. */
  predicate AllDone(job: Job, s: Progress)
    requires job.Valid()
  {
    |s.done| == job.parts && forall p :: 0 <= p < job.parts ==> s.done[p] >= job.Expected(p)
  }

  lemma DoneFetchesAll(job: Job, s: Progress, x: nat)
    requires job.Valid() && InBounds(job, s) && AllDone(job, s)
    ensures Fetched(job, s, x) <==> job.Low() <= x < job.High() && x < |job.file|
  {
    hide Cut;
    PartsPartition(job.span, |job.file|, job.parts, x);
    if job.Low() <= x < job.High() && x < |job.file| {
      var p: nat :| InPart(job.Low(), job.High(), job.parts, p, x);
      assert FetchedBy(job, s, p, x);
    }
    if p: nat :| FetchedBy(job, s, p, x) {
      assert s.done[p] <= job.Expected(p);
      assert InPart(job.Low(), job.High(), job.parts, p, x);
    }
  }

  /** Whatever the file, the span, the number of readers and the order and size of their reads: once
      every reader is done the arena is the file over the whole aligned span, up to the end of the
      file, and untouched beyond it. */
  lemma ArenaIsFile(job: Job, start: seq<Byte>, events: seq<Returned>, s: Progress)
    requires job.Valid() && |start| >= job.High() - job.Low()
    requires Runs(job, Origin(job, start), events, s) && AllDone(job, s)
    ensures |s.arena| == |start|
    ensures forall x: nat :: job.Low() <= x < job.Low() + |start| ==>
              s.arena[x - job.Low()] == if x < job.High() && x < |job.file| then job.file[x] else start[x - job.Low()]
  {
    hide Cut, Fetched, Runs;
    NothingFetched(job, start);
    RunIsFaithful(job, start, Origin(job, start), events, s);
    forall x: nat | job.Low() <= x < job.Low() + |start|
      ensures s.arena[x - job.Low()] == if x < job.High() && x < |job.file| then job.file[x] else start[x - job.Low()]
    {
      DoneFetchesAll(job, s, x);
    }
  }

  // ----- no reader can block the others, and all of them finish -----

  function TotalDone(xs: seq<nat>): nat {
    if xs == [] then 0 else TotalDone(xs[..|xs| - 1]) + xs[|xs| - 1]
  }

  lemma {:induction false} TotalUpdate(xs: seq<nat>, i: nat, more: nat)
    requires i < |xs|
    ensures TotalDone(xs[i := xs[i] + more]) == TotalDone(xs) + more
  {
    var ys, k := xs[i := xs[i] + more], |xs| - 1;
    if i == k {
      assert ys[..k] == xs[..k];
    } else {
      assert ys[..k] == xs[..k][i := xs[..k][i] + more];
      TotalUpdate(xs[..k], i, more);
    }
  }

  /** Every return brings a byte, so a run has at most as many returns as bytes were fetched. */
  lemma {:induction false} RunIsFinite(job: Job, from: Progress, events: seq<Returned>, s: Progress)
    requires job.Valid() && Runs(job, from, events, s)
    ensures TotalDone(from.done) + |events| <= TotalDone(s.done)
    decreases |events|
  {
    hide Copy, Cut, Min;
    if events != [] {
      TotalUpdate(from.done, events[0].reader, events[0].got);
      RunIsFinite(job, AfterReturn(job, from, events[0]), events[1..], s);
    }
  }

  /** As long as some reader is not done, one more return is possible. */
  lemma NoDeadlock(job: Job, s: Progress) returns (e: Returned)
    requires job.Valid() && InBounds(job, s) && !AllDone(job, s) && |s.arena| >= job.High() - job.Low()
    ensures CanReturn(job, s, e)
  {
    hide Cut;
    var p :| 0 <= p < job.parts && s.done[p] < job.Expected(p);
    e := Returned(p, 1);
  }

  // ----- sectors -----

  /** A short read ends on a sector or at the end of the file. */
  predicate SectorReturn(job: Job, s: Progress, e: Returned)
    requires job.Valid() && CanReturn(job, s, e)
  {
    e.got % SECTOR == 0 || job.PartAt(e.reader).a + s.done[e.reader] + e.got == |job.file|
  }

  ghost predicate SectorReturns(job: Job, start: Progress, events: seq<Returned>)
    requires job.Valid()
    decreases |events|
  {
    events == [] || (CanReturn(job, start, events[0]) && SectorReturn(job, start, events[0])
                     && SectorReturns(job, AfterReturn(job, start, events[0]), events[1..]))
  }

  /** Every reader that goes on has come a whole number of sectors. */
  ghost predicate OnSectors(job: Job, s: Progress)
    requires job.Valid()
  {
    |s.done| == job.parts && forall p :: 0 <= p < job.parts && s.done[p] < job.Expected(p) ==> s.done[p] % SECTOR == 0
  }

  lemma AlignedSum(a: nat, b: nat)
    requires a % SECTOR == 0 && b % SECTOR == 0
    ensures (a + b) % SECTOR == 0 && (b <= a ==> (a - b) % SECTOR == 0)
  {}

  lemma ReturnKeepsSectors(job: Job, s: Progress, e: Returned)
    requires job.Valid() && CanReturn(job, s, e) && SectorReturn(job, s, e) && OnSectors(job, s)
    ensures OnSectors(job, AfterReturn(job, s, e))
  {
    hide Cut, Copy, AlignDown, AlignUp;
    if e.got % SECTOR == 0 {
      AlignedSum(s.done[e.reader], e.got);
    }
  }

  lemma {:induction false} RunKeepsSectors(job: Job, from: Progress, events: seq<Returned>, s: Progress)
    requires job.Valid() && Runs(job, from, events, s) && SectorReturns(job, from, events) && OnSectors(job, from)
    ensures OnSectors(job, s)
    decreases |events|
  {
    hide OnSectors, AfterReturn, CanReturn, SectorReturn;
    if events != [] {
      ReturnKeepsSectors(job, from, events[0]);
      RunKeepsSectors(job, AfterReturn(job, from, events[0]), events[1..], s);
    }
  }

  /** In every run on a device that returns whole sectors, every request of every reader starts on
      a sector of the file and of the arena and is a whole number of sectors long. */
  lemma RequestsAreAligned(job: Job, arena: seq<Byte>, events: seq<Returned>, s: Progress, p: nat)
    requires job.Valid() && job.chunk % SECTOR == 0
    requires Runs(job, Origin(job, arena), events, s) && SectorReturns(job, Origin(job, arena), events)
    requires p < job.parts
    ensures |s.done| == job.parts
    ensures s.done[p] < job.Expected(p) ==>
              && job.Low() <= job.PartAt(p).a
              && (job.PartAt(p).a + s.done[p]) % SECTOR == 0 && (job.PartAt(p).off + s.done[p]) % SECTOR == 0
              && job.Request(p, s.done[p]) % SECTOR == 0
  {
    hide Cut, Runs, SectorReturns, AlignDown, AlignUp;
    RunKeepsSectors(job, Origin(job, arena), events, s);
    if s.done[p] < job.Expected(p) {
      var r, done := job.PartAt(p), s.done[p];
      assert job.Low() % SECTOR == 0 && job.High() % SECTOR == 0;
      CutsAligned(job.Low(), job.High(), job.parts);
      PartInside(job, p);
      ExpectedIsHeld(job, p);
      AlignedSum(r.a, done);
      AlignedSum(r.a, job.Low());
      AlignedSum(r.a - job.Low(), done);
      AlignedSum(r.b, r.a);
      AlignedSum(r.b - r.a, done);
    }
  }
}
