/**
 LwRB with one producer and one consumer and no lock. Every index load, every
 byte copy and every index store is one step; a run is any interleaving of the
 two sides. Each side decides on a copy of the other side's index that may be
 stale by the time it is used.
 */
module LwrbSpsc {
  import opened LwrbIndex

  type Byte = bv8

  /** Program points of `lwrb_write_ex`. */
  datatype Writer =
    | WriterIdle
    | WriterHasW(data: seq<Byte>, all: bool, w: nat)       // get_free has loaded w
    | WriterSized(data: seq<Byte>)                         // data already cut to what fits
    | WriterCopying(data: seq<Byte>, ptr: nat, k: nat)     // k bytes copied

  /** Program points of `lwrb_read_ex`; `seen` is history: the stream length when w was loaded. */
  datatype Reader =
    | ReaderIdle
    | ReaderHasW(btr: nat, all: bool, w: nat, seen: nat)   // get_full has loaded w
    | ReaderSized(n: nat)
    | ReaderCopying(n: nat, ptr: nat, out: seq<Byte>)

  /** `written` and `read` are history: the bytes of all published writes and reads. */
  datatype Ring = Ring(size: nat, buff: seq<Byte>, w: nat, r: nat,
                       writer: Writer, reader: Reader,
                       written: seq<Byte>, read: seq<Byte>)

  datatype Action =
    | BeginWrite(data: seq<Byte>, all: bool)
    | WriterStep
    | BeginRead(btr: nat, all: bool)
    | ReaderStep

  ghost predicate Typed(s: Ring) {
    && 0 < s.size == |s.buff|
    && s.w < s.size && s.r < s.size
    && match s.writer {
         case WriterIdle => true
         case WriterHasW(data, _, w) => data != [] && w < s.size
         case WriterSized(data) => 0 < |data| < s.size
         case WriterCopying(data, ptr, k) => k <= |data| < s.size && ptr < s.size && data != []
       }
    && match s.reader {
         case ReaderIdle => true
         case ReaderHasW(btr, _, w, _) => btr > 0 && w < s.size
         case ReaderSized(n) => 0 < n < s.size
         case ReaderCopying(n, ptr, out) => |out| <= n < s.size && ptr < s.size && n > 0
       }
  }

  ghost function Initial(size: nat, memory: seq<Byte>): (s: Ring)
    requires 0 < size == |memory|
  {
    Ring(size, memory, 0, 0, WriterIdle, ReaderIdle, [], [])
  }

  ghost function StepWriter(s: Ring): (s': Ring)
    requires Typed(s)
  {
    match s.writer
    case WriterIdle => s
    case WriterHasW(data, all, w) =>
      var free := FreeFrom(s.size, w, s.r);
      if free == 0 || (free < |data| && all) then s.(writer := WriterIdle)
      else s.(writer := WriterSized(data[..Min(free, |data|)]))
    case WriterSized(data) => s.(writer := WriterCopying(data, s.w, 0))
    case WriterCopying(data, ptr, k) =>
      if k < |data| then
        s.(buff := s.buff[CellOf(s.size, ptr, |data|, k) := data[k]],
           writer := WriterCopying(data, ptr, k + 1))
      else
        s.(w := IndexAfter(s.size, ptr, |data|), writer := WriterIdle, written := s.written + data)
  }

  ghost function StepReader(s: Ring): (s': Ring)
    requires Typed(s)
  {
    match s.reader
    case ReaderIdle => s
    case ReaderHasW(btr, all, w, _) =>
      var full := FullFrom(s.size, w, s.r);
      if full == 0 || (full < btr && all) then s.(reader := ReaderIdle)
      else s.(reader := ReaderSized(Min(full, btr)))
    case ReaderSized(n) => s.(reader := ReaderCopying(n, s.r, []))
    case ReaderCopying(n, ptr, out) =>
      if |out| < n then
        s.(reader := ReaderCopying(n, ptr, out + [s.buff[CellOf(s.size, ptr, n, |out|)]]))
      else
        s.(r := IndexAfter(s.size, ptr, n), reader := ReaderIdle, read := s.read + out)
  }

  ghost function Step(s: Ring, a: Action): (s': Ring)
    requires Typed(s)
  {
    match a
    case BeginWrite(data, all) =>
      if s.writer.WriterIdle? && data != [] then s.(writer := WriterHasW(data, all, s.w)) else s
    case WriterStep => StepWriter(s)
    case BeginRead(btr, all) =>
      if s.reader.ReaderIdle? && btr > 0 then s.(reader := ReaderHasW(btr, all, s.w, |s.written|)) else s
    case ReaderStep => StepReader(s)
  }

  /** Bytes the reader has copied out, published or not. */
  ghost function ReadSoFar(s: Ring): seq<Byte> {
    s.read + if s.reader.ReaderCopying? then s.reader.out else []
  }

  /** Every byte that was published and is still unread sits in its own cell. */
  ghost predicate UnreadIntact(s: Ring)
    requires Typed(s)
  {
    |s.read| <= |s.written|
    && forall j :: |s.read| <= j < |s.written| ==> s.buff[j % s.size] == s.written[j]
  }

  ghost predicate WriterInv(s: Ring)
    requires Typed(s) && |s.read| <= |s.written|
  {
    var held := |s.written| - |s.read|;
    match s.writer
    case WriterIdle => true
    case WriterHasW(_, _, w) => w == s.w
    case WriterSized(data) => held + |data| < s.size
    case WriterCopying(data, ptr, k) =>
      && ptr == s.w && held + |data| < s.size
      && forall i :: 0 <= i < k ==> s.buff[(|s.written| + i) % s.size] == data[i]
  }

  ghost predicate ReaderInv(s: Ring)
    requires Typed(s) && |s.read| <= |s.written|
  {
    match s.reader
    case ReaderIdle => true
    case ReaderHasW(_, _, w, seen) => |s.read| <= seen <= |s.written| && w == seen % s.size
    case ReaderSized(n) => |s.read| + n <= |s.written|
    case ReaderCopying(n, ptr, out) =>
      && ptr == s.r && |s.read| + n <= |s.written|
      && out == s.written[|s.read|..|s.read| + |out|]
  }

  ghost predicate Inv(s: Ring) {
    && Typed(s)
    && |s.read| <= |s.written| < |s.read| + s.size
    && s.w == |s.written| % s.size && s.r == |s.read| % s.size
    && s.read == s.written[..|s.read|]
    && UnreadIntact(s) && WriterInv(s) && ReaderInv(s)
  }

  lemma CopyInKeeps(s: Ring)
    requires Inv(s) && s.writer.WriterCopying? && s.writer.k < |s.writer.data|
    ensures Inv(StepWriter(s))
  {
    var WriterCopying(data, ptr, k) := s.writer;
    CopiedIn(s.size, s.buff, s.written, |s.read|, data, k);
    WritesCell(s);
    ByteIn(s, StepWriter(s).buff);
  }

  lemma WritesCell(s: Ring)
    requires Inv(s) && s.writer.WriterCopying? && s.writer.k < |s.writer.data|
    ensures var WriterCopying(data, ptr, k) := s.writer;
            StepWriter(s) == s.(buff := s.buff[(|s.written| + k) % s.size := data[k]], writer := WriterCopying(data, ptr, k + 1))
  {
    Transfer(s.size, |s.written|, |s.writer.data|);
  }

  lemma ByteIn(s: Ring, buff: seq<Byte>)
    requires Inv(s) && s.writer.WriterCopying? && s.writer.k < |s.writer.data| && |buff| == |s.buff|
    requires forall j :: |s.read| <= j < |s.written| ==> buff[j % s.size] == s.written[j]
    requires forall i :: 0 <= i < s.writer.k + 1 ==> buff[(|s.written| + i) % s.size] == s.writer.data[i]
    ensures Inv(s.(buff := buff, writer := WriterCopying(s.writer.data, s.writer.ptr, s.writer.k + 1)))
  {
  }

  /** Byte `k` of `data` goes to its cell; unread bytes and the bytes before it stay where they are. */
  lemma CopiedIn(size: nat, buff: seq<Byte>, written: seq<Byte>, from: nat, data: seq<Byte>, k: nat)
    requires 0 < size == |buff| && k < |data| && from <= |written| && |written| - from + |data| < size
    requires forall j :: from <= j < |written| ==> buff[j % size] == written[j]
    requires forall i :: 0 <= i < k ==> buff[(|written| + i) % size] == data[i]
    ensures var buff' := buff[(|written| + k) % size := data[k]];
            && (forall j :: from <= j < |written| ==> buff'[j % size] == written[j])
            && (forall i :: 0 <= i < k + 1 ==> buff'[(|written| + i) % size] == data[i])
  {
    var at := |written|;
    forall j | from <= j < at ensures buff[(at + k) % size := data[k]][j % size] == written[j] {
      DistinctCells(size, j, at + k);
    }
    forall i | 0 <= i < k + 1 ensures buff[(at + k) % size := data[k]][(at + i) % size] == data[i] {
      if i < k { DistinctCells(size, at + i, at + k); }
    }
  }

  lemma PublishWriteKeeps(s: Ring)
    requires Inv(s) && s.writer.WriterCopying? && s.writer.k == |s.writer.data|
    ensures Inv(StepWriter(s))
  {
    var data := s.writer.data;
    var at := |s.written|;
    Transfer(s.size, at, |data|);
    var s' := StepWriter(s);
    forall j | |s.read| <= j < |s'.written| ensures s'.buff[j % s.size] == s'.written[j] {
      if at <= j {
        assert s.buff[(at + (j - at)) % s.size] == data[j - at];
      }
    }
    if s.reader.ReaderCopying? {
      var b := |s.read| + |s.reader.out|;
      assert s'.written[|s.read|..b] == s.written[|s.read|..b];
    }
  }

  lemma WriterKeeps(s: Ring)
    requires Inv(s)
    ensures Inv(StepWriter(s))
  {
    match s.writer {
      case WriterIdle =>
      case WriterHasW(data, all, w) => WriterDecides(s);
      case WriterSized(data) => WriterPoints(s);
      case WriterCopying(data, ptr, k) =>
        if k < |data| { CopyInKeeps(s); } else { PublishWriteKeeps(s); }
    }
  }

  lemma WriterDecides(s: Ring)
    requires Inv(s) && s.writer.WriterHasW?
    ensures Inv(StepWriter(s))
  {
    Level(s.size, |s.read|, |s.written|);
  }

  lemma WriterPoints(s: Ring)
    requires Inv(s) && s.writer.WriterSized?
    ensures Inv(StepWriter(s))
  {
  }

  lemma CopyOutKeeps(s: Ring)
    requires Inv(s) && s.reader.ReaderCopying? && |s.reader.out| < s.reader.n
    ensures Inv(StepReader(s))
  {
    var ReaderCopying(n, ptr, out) := s.reader;
    var at := |s.read|;
    Transfer(s.size, at, n);
    assert s.buff[(at + |out|) % s.size] == s.written[at + |out|];
    assert s.written[at..at + |out|] + [s.written[at + |out|]] == s.written[at..at + |out| + 1];
  }

  lemma PublishReadKeeps(s: Ring)
    requires Inv(s) && s.reader.ReaderCopying? && |s.reader.out| == s.reader.n
    ensures Inv(StepReader(s))
  {
    var ReaderCopying(n, ptr, out) := s.reader;
    var at := |s.read|;
    Transfer(s.size, at, n);
    assert s.read + out == s.written[..at + n];
  }

  lemma ReaderKeeps(s: Ring)
    requires Inv(s)
    ensures Inv(StepReader(s))
  {
    match s.reader {
      case ReaderIdle =>
      case ReaderHasW(btr, all, w, seen) => ReaderDecides(s);
      case ReaderSized(n) => ReaderPoints(s);
      case ReaderCopying(n, ptr, out) =>
        if |out| < n { CopyOutKeeps(s); } else { PublishReadKeeps(s); }
    }
  }

  lemma ReaderDecides(s: Ring)
    requires Inv(s) && s.reader.ReaderHasW?
    ensures Inv(StepReader(s))
  {
    Level(s.size, |s.read|, s.reader.seen);
  }

  lemma ReaderPoints(s: Ring)
    requires Inv(s) && s.reader.ReaderSized?
    ensures Inv(StepReader(s))
  {
    assert s.written[|s.read|..|s.read|] == [];
  }

  lemma StepKeeps(s: Ring, a: Action)
    requires Inv(s)
    ensures Inv(Step(s, a))
  {
    match a {
      case WriterStep => WriterKeeps(s);
      case ReaderStep => ReaderKeeps(s);
      case _ =>
    }
  }

  /** States reachable by a sequence of steps. */
  ghost predicate Run(s: Ring, acts: seq<Action>, s': Ring)
    decreases |acts|
  {
    if acts == [] then s' == s
    else Typed(s) && Run(Step(s, acts[0]), acts[1..], s')
  }

  lemma {:induction false} RunKeeps(s: Ring, acts: seq<Action>, s': Ring)
    requires Inv(s) && Run(s, acts, s')
    ensures Inv(s')
    decreases |acts|
  {
    if acts != [] {
      StepKeeps(s, acts[0]);
      RunKeeps(Step(s, acts[0]), acts[1..], s');
    }
  }

  /** Main result: over every interleaving the bytes read are a prefix of the bytes
      written, nothing unread is overwritten, and at most size - 1 bytes are held. */
  lemma FifoAcrossInterleavings(size: nat, memory: seq<Byte>, acts: seq<Action>, s: Ring)
    requires 0 < size == |memory|
    requires Run(Initial(size, memory), acts, s)
    ensures ReadSoFar(s) <= s.written
    ensures Typed(s) && UnreadIntact(s)
    ensures |s.written| - |s.read| <= size - 1 && s.size == size
    ensures FullFrom(size, s.w, s.r) == |s.written| - |s.read|
  {
    RunKeeps(Initial(size, memory), acts, s);
    SizeFixed(Initial(size, memory), acts, s);
    Level(s.size, |s.read|, |s.written|);
    if s.reader.ReaderCopying? {
      var b := |s.read| + |s.reader.out|;
      assert s.written[..|s.read|] + s.written[|s.read|..b] == s.written[..b];
    }
  }

  lemma {:induction false} SizeFixed(s: Ring, acts: seq<Action>, s': Ring)
    requires Run(s, acts, s')
    ensures s'.size == s.size
    decreases |acts|
  {
    if acts != [] { SizeFixed(Step(s, acts[0]), acts[1..], s'); }
  }

  ghost function Repeat(s: Ring, a: Action, times: nat): (s': Ring)
    requires Inv(s)
    ensures Inv(s')
    decreases times
  {
    if times == 0 then s else
      StepKeeps(s, a);
      Repeat(Step(s, a), a, times - 1)
  }

  lemma {:induction false} CopyInCompletes(s: Ring)
    requires Inv(s) && s.writer.WriterCopying?
    ensures var s' := Repeat(s, WriterStep, |s.writer.data| - s.writer.k + 1);
            s'.writer.WriterIdle? && s'.written == s.written + s.writer.data
            && s'.read == s.read && s'.reader == s.reader
    decreases |s.writer.data| - s.writer.k
  {
    StepKeeps(s, WriterStep);
    var s1 := Step(s, WriterStep);
    if s.writer.k < |s.writer.data| {
      CopyInCompletes(s1);
      assert Repeat(s, WriterStep, |s.writer.data| - s.writer.k + 1)
          == Repeat(s1, WriterStep, |s.writer.data| - s.writer.k);
    } else {
      assert Repeat(s, WriterStep, 1) == Repeat(s1, WriterStep, 0);
    }
  }

  lemma {:induction false} CopyOutCompletes(s: Ring)
    requires Inv(s) && s.reader.ReaderCopying?
    ensures var s' := Repeat(s, ReaderStep, s.reader.n - |s.reader.out| + 1);
            s'.reader.ReaderIdle? && |s'.read| == |s.read| + s.reader.n
            && s'.written == s.written && s'.writer == s.writer
    decreases s.reader.n - |s.reader.out|
  {
    StepKeeps(s, ReaderStep);
    var s1 := Step(s, ReaderStep);
    if |s.reader.out| < s.reader.n {
      CopyOutCompletes(s1);
      assert Repeat(s, ReaderStep, s.reader.n - |s.reader.out| + 1)
          == Repeat(s1, ReaderStep, s.reader.n - |s.reader.out|);
    } else {
      assert Repeat(s, ReaderStep, 1) == Repeat(s1, ReaderStep, 0);
    }
  }

  /** `begin`, then `times` steps of one side with no step of the other in between. */
  ghost function Alone(s: Ring, begin: Action, step: Action, times: nat): (s': Ring)
    requires Inv(s)
    ensures Inv(s')
  {
    StepKeeps(s, begin);
    Repeat(Step(s, begin), step, times)
  }

  /** A write left alone publishes as much of its data as fits, or nothing when all of it is wanted and does not fit. */
  lemma WriteCompletes(s: Ring, data: seq<Byte>, all: bool)
    requires Inv(s) && s.writer.WriterIdle? && data != []
    ensures var free := s.size - 1 - (|s.written| - |s.read|);
            var n := if free < |data| && all then 0 else Min(free, |data|);
            var s' := Alone(s, BeginWrite(data, all), WriterStep, if n == 0 then 1 else n + 3);
            s'.writer.WriterIdle? && s'.written == s.written + data[..n]
  {
    var free := s.size - 1 - (|s.written| - |s.read|);
    var n := if free < |data| && all then 0 else Min(free, |data|);
    WriteDecision(s, data, all, n);
    FirstAlone(s, BeginWrite(data, all), WriterStep, if n == 0 then 1 else n + 3);
    if n != 0 {
      SizedWriteCompletes(s.(writer := WriterSized(data[..n])));
    } else {
      assert data[..n] == [];
    }
  }

  lemma FirstAlone(s: Ring, begin: Action, step: Action, times: nat)
    requires Inv(s) && times > 0
    ensures Inv(Step(s, begin)) && Inv(Step(Step(s, begin), step))
    ensures Alone(s, begin, step, times) == Repeat(Step(Step(s, begin), step), step, times - 1)
  {
    StepKeeps(s, begin);
    Unroll(Step(s, begin), step, times);
  }

  lemma Unroll(s: Ring, a: Action, times: nat)
    requires Inv(s) && times > 0
    ensures Inv(Step(s, a))
    ensures Repeat(s, a, times) == Repeat(Step(s, a), a, times - 1)
  {
    StepKeeps(s, a);
  }

  lemma WriteDecision(s: Ring, data: seq<Byte>, all: bool, n: nat)
    requires Inv(s) && s.writer.WriterIdle? && data != []
    requires var free := s.size - 1 - (|s.written| - |s.read|);
             n == if free < |data| && all then 0 else Min(free, |data|)
    ensures var s1 := s.(writer := WriterHasW(data, all, s.w));
            && Inv(s1) && Step(s, BeginWrite(data, all)) == s1
            && Step(s1, WriterStep) == s.(writer := if n == 0 then WriterIdle else WriterSized(data[..n]))
  {
    Level(s.size, |s.read|, |s.written|);
  }

  /** A read left alone takes as much as is held, or nothing when all of it is wanted and is not there. */
  lemma ReadCompletes(s: Ring, btr: nat, all: bool)
    requires Inv(s) && s.reader.ReaderIdle? && btr > 0
    ensures var full := |s.written| - |s.read|;
            var n := if full < btr && all then 0 else Min(full, btr);
            var s' := Alone(s, BeginRead(btr, all), ReaderStep, if n == 0 then 1 else n + 3);
            s'.reader.ReaderIdle? && s'.read == s.written[..|s.read| + n]
  {
    var full := |s.written| - |s.read|;
    var n := if full < btr && all then 0 else Min(full, btr);
    ReadDecision(s, btr, all, n);
    FirstAlone(s, BeginRead(btr, all), ReaderStep, if n == 0 then 1 else n + 3);
    if n != 0 {
      SizedReadCompletes(s.(reader := ReaderSized(n)));
    }
  }

  lemma ReadDecision(s: Ring, btr: nat, all: bool, n: nat)
    requires Inv(s) && s.reader.ReaderIdle? && btr > 0
    requires var full := |s.written| - |s.read|;
             n == if full < btr && all then 0 else Min(full, btr)
    ensures var s1 := s.(reader := ReaderHasW(btr, all, s.w, |s.written|));
            && Inv(s1) && Step(s, BeginRead(btr, all)) == s1
            && Step(s1, ReaderStep) == s.(reader := if n == 0 then ReaderIdle else ReaderSized(n))
  {
    Level(s.size, |s.read|, |s.written|);
  }

  lemma SizedWriteCompletes(s: Ring)
    requires Inv(s) && s.writer.WriterSized?
    ensures var s' := Repeat(s, WriterStep, |s.writer.data| + 2);
            s'.writer.WriterIdle? && s'.written == s.written + s.writer.data
  {
    Unroll(s, WriterStep, |s.writer.data| + 2);
    CopyInCompletes(Step(s, WriterStep));
  }

  lemma SizedReadCompletes(s: Ring)
    requires Inv(s) && s.reader.ReaderSized?
    ensures var s' := Repeat(s, ReaderStep, s.reader.n + 2);
            s'.reader.ReaderIdle? && s'.read == s.written[..|s.read| + s.reader.n]
  {
    Unroll(s, ReaderStep, s.reader.n + 2);
    CopyOutCompletes(Step(s, ReaderStep));
  }
}
