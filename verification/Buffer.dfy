/** The growing byte queue of src/include/cppev/buffer.h. */
module ByteBuffer {

  newtype byte = x: int | 0 <= x < 256

  const INT_MAX: int := 0x7fff_ffff

  function Max(a: int, b: int): int {
    if a < b then b else a
  }

  /** The capacity that doubling reaches when room for want bytes is asked for. */
  function Grown(cap: int, want: int): (r: int)
    requires cap >= 1
    ensures r >= cap && r >= want
    ensures cap >= want ==> r == cap
    ensures cap < want ==> 2 * cap <= r < 2 * want
    decreases want - cap
  {
    if cap >= want then cap else Grown(2 * cap, want)
  }

  function Doubled(cap: int, k: nat): int {
    if k == 0 then cap else 2 * Doubled(cap, k - 1)
  }

  lemma {:induction false} DoubledOnce(cap: int, k: nat)
    ensures Doubled(2 * cap, k) == Doubled(cap, k + 1)
  {
    if k > 0 {
      DoubledOnce(cap, k - 1);
    }
  }

  /** A capacity grows by doubling, the least number of times that suffices. */
  lemma {:induction false} GrownIsDoubled(cap: int, want: int) returns (k: nat)
    requires cap >= 1
    ensures Grown(cap, want) == Doubled(cap, k) && (k > 0 ==> Doubled(cap, k - 1) < want)
    decreases want - cap
  {
    if cap >= want {
      k := 0;
    } else {
      var j := GrownIsDoubled(2 * cap, want);
      k := j + 1;
      DoubledOnce(cap, j);
      if j > 0 {
        DoubledOnce(cap, j - 1);
      }
    }
  }

  /**
   * The abstract state of a buffer: its capacity, the offset of its first unconsumed byte and the
   * unconsumed bytes; and, as history, the initial capacity, the number of bytes that growing has
   * copied so far, and the largest size ever asked for.
   */
  datatype State = State(cap: int, start: nat, bytes: seq<byte>, cap0: int, copied: nat, peak: int)

  /** The calls that change a buffer. */
  datatype Op =
    | Resize(want: int)
    | Tiny
    | Clear
    | Produce(bytes: seq<byte>)
    | Consume(len: nat)

  ghost predicate InBounds(s: State) {
    1 <= s.cap0 <= s.cap <= INT_MAX && s.start + |s.bytes| <= s.cap
  }

  /** What the code asks of its callers: not to consume what is not there, nor to overflow int. */
  ghost predicate Legal(s: State, op: Op) {
    && InBounds(s)
    && match op
       case Resize(want) => Grown(s.cap, want) <= INT_MAX
       case Produce(p) => Grown(s.cap, s.start + |s.bytes| + |p|) <= INT_MAX
       case Consume(len) => len <= |s.bytes|
       case _ => true
  }

  ghost function Resized(s: State, want: int): State
    requires s.cap >= 1
  {
    if s.cap >= want then s.(peak := Max(s.peak, want))
    else s.(cap := Grown(s.cap, want), copied := s.copied + |s.bytes|, peak := Max(s.peak, want))
  }

  ghost function Step(s: State, op: Op): State
    requires Legal(s, op)
  {
    match op
    case Resize(want) => Resized(s, want)
    case Tiny => s.(start := 0)
    case Clear => s.(start := 0, bytes := [])
    case Produce(p) => Resized(s, s.start + |s.bytes| + |p|).(bytes := s.bytes + p)
    case Consume(len) => s.(start := if len == |s.bytes| then 0 else s.start + len, bytes := s.bytes[len..])
  }

  /** The bytes a call removes from the front of the buffer. */
  ghost function Removed(s: State, op: Op): seq<byte>
    requires Legal(s, op)
  {
    match op
    case Clear => s.bytes
    case Consume(len) => s.bytes[..len]
    case _ => []
  }

  ghost function Added(op: Op): seq<byte> {
    if op.Produce? then op.bytes else []
  }

  ghost predicate LegalRun(s: State, ops: seq<Op>)
    decreases |ops|
  {
    ops != [] ==> Legal(s, ops[0]) && LegalRun(Step(s, ops[0]), ops[1..])
  }

  ghost function Run(s: State, ops: seq<Op>): State
    requires LegalRun(s, ops)
    decreases |ops|
  {
    if ops == [] then s else Run(Step(s, ops[0]), ops[1..])
  }

  ghost function AllRemoved(s: State, ops: seq<Op>): seq<byte>
    requires LegalRun(s, ops)
    decreases |ops|
  {
    if ops == [] then [] else Removed(s, ops[0]) + AllRemoved(Step(s, ops[0]), ops[1..])
  }

  ghost function AllAdded(ops: seq<Op>): seq<byte> {
    if ops == [] then [] else Added(ops[0]) + AllAdded(ops[1..])
  }

  lemma Chain(out: seq<byte>, mid: seq<byte>, from: seq<byte>, add: seq<byte>,
              rest: seq<byte>, end: seq<byte>, more: seq<byte>)
    requires out + mid == from + add && rest + end == mid + more
    ensures (out + rest) + end == from + (add + more)
  {
    assert (out + rest) + end == out + (rest + end);
    assert out + (mid + more) == (out + mid) + more;
    assert (from + add) + more == from + (add + more);
  }

  lemma OpConserves(s: State, op: Op)
    requires Legal(s, op)
    ensures Removed(s, op) + Step(s, op).bytes == s.bytes + Added(op)
  {
  }

  /**
   * Moving to the front, clearing, and consuming everything give the room before the contents back: what is
   * produced next grows the buffer only as far as the contents and the new bytes need.
   */
  lemma RoomIsReclaimed(s: State, op: Op, p: seq<byte>)
    requires Legal(s, op) && (op.Tiny? || op.Clear? || op == Consume(|s.bytes|))
    requires Legal(Step(s, op), Produce(p))
    ensures var r := Step(Step(s, op), Produce(p));
      && r.bytes == (if op.Tiny? then s.bytes else []) + p
      && r.cap == Grown(s.cap, (if op.Tiny? then |s.bytes| else 0) + |p|)
  {
    hide Grown, Legal, Step;
    Rewound(s, op);
    ProduceAtFront(Step(s, op), p);
  }

  lemma Rewound(s: State, op: Op)
    requires Legal(s, op) && (op.Tiny? || op.Clear? || op == Consume(|s.bytes|))
    ensures var r := Step(s, op); r.start == 0 && r.cap == s.cap && r.bytes == if op.Tiny? then s.bytes else []
  {
    hide Grown;
  }

  lemma ProduceAtFront(s: State, p: seq<byte>)
    requires s.start == 0 && Legal(s, Produce(p))
    ensures var r := Step(s, Produce(p)); r.bytes == s.bytes + p && r.cap == Grown(s.cap, |s.bytes| + |p|)
  {
    hide Grown;
  }

  /** Consuming less than everything leaves the rest where it is; only clearing and consuming remove bytes. */
  lemma RemovesAsAsked(s: State, op: Op)
    requires Legal(s, op)
    ensures |Removed(s, op)| == match op
      case Clear => |s.bytes|
      case Consume(len) => len
      case _ => 0
    ensures op.Consume? && op.len < |s.bytes| ==> Step(s, op).start + |Step(s, op).bytes| == s.start + |s.bytes|
  {
  }

  /** Bytes are copied exactly when storage is replaced: then all that are there, and no others. */
  lemma GrowthCopies(s: State, op: Op)
    requires Legal(s, op)
    ensures var r := Step(s, op); r.copied == s.copied + if r.cap != s.cap then |s.bytes| else 0
  {
    hide Grown;
    GrownIsMore(s.cap, Asked(s, op));
  }

  lemma GrownIsMore(cap: int, want: int)
    requires cap >= 1
    ensures Grown(cap, want) == cap <==> cap >= want
  {
  }

  /** First in, first out, nothing lost or duplicated, over every run of calls. */
  lemma {:induction false} Fifo(s: State, ops: seq<Op>)
    requires LegalRun(s, ops)
    ensures AllRemoved(s, ops) + Run(s, ops).bytes == s.bytes + AllAdded(ops)
    decreases |ops|
  {
    if ops != [] {
      var s', more := Step(s, ops[0]), AllAdded(ops[1..]);
      Fifo(s', ops[1..]);
      OpConserves(s, ops[0]);
      hide Step, Legal, Removed, Added;
      Chain(Removed(s, ops[0]), s'.bytes, s.bytes, Added(ops[0]),
            AllRemoved(s', ops[1..]), Run(s', ops[1..]).bytes, more);
    }
  }

  /** Growing has copied no more than it has added capacity, and has at most doubled the demand. */
  ghost predicate Amortised(s: State) {
    && InBounds(s)
    && s.copied <= s.cap - s.cap0
    && (s.cap == s.cap0 || s.cap < 2 * s.peak)
  }

  /** The size a call asks for. */
  ghost function Asked(s: State, op: Op): int {
    match op
    case Resize(want) => want
    case Produce(p) => s.start + |s.bytes| + |p|
    case _ => 0
  }

  ghost function Demand(s: State, ops: seq<Op>): int
    requires LegalRun(s, ops)
    decreases |ops|
  {
    if ops == [] then 0 else Max(Asked(s, ops[0]), Demand(Step(s, ops[0]), ops[1..]))
  }

  lemma AmortisedStep(s: State, op: Op)
    requires Amortised(s) && s.peak >= 0 && Legal(s, op)
    ensures var s' := Step(s, op);
      Amortised(s') && s'.cap0 == s.cap0 && s'.peak == Max(s.peak, Asked(s, op))
  {
  }

  /** Over every run from a new buffer, copying is linear in the largest size asked for. */
  lemma {:induction false} AmortisedGrowth(s: State, ops: seq<Op>)
    requires Amortised(s) && s.peak >= 0 && LegalRun(s, ops)
    ensures Amortised(Run(s, ops))
    ensures Run(s, ops).cap0 == s.cap0
    ensures Run(s, ops).peak == Max(s.peak, Demand(s, ops))
    decreases |ops|
  {
    if ops != [] {
      AmortisedStep(s, ops[0]);
      hide Step, Legal, Asked;
      AmortisedGrowth(Step(s, ops[0]), ops[1..]);
    }
  }

  lemma CopyingIsLinear(cap: int, ops: seq<Op>)
    requires 1 <= cap <= INT_MAX && LegalRun(State(cap, 0, [], cap, 0, 0), ops)
    ensures var s := State(cap, 0, [], cap, 0, 0);
      Run(s, ops).copied <= Max(0, 2 * Demand(s, ops) - cap)
  {
    hide Step, Legal;
    AmortisedGrowth(State(cap, 0, [], cap, 0, 0), ops);
  }

  lemma Appended(now: seq<byte>, was: seq<byte>, start: nat, first: nat, p: seq<byte>)
    requires start <= first <= |was| && first + |p| <= |now|
    requires forall j :: start <= j < first ==> now[j] == was[j]
    requires forall j :: first <= j < first + |p| ==> now[j] == p[j - first]
    ensures now[start..first + |p|] == was[start..first] + p
  {
  }

  class Buffer {
    var cap: int
    var start: int
    var offset: int
    var data: array<byte>

    ghost var cap0: int
    ghost var copied: nat
    ghost var peak: int

    /** The representation invariant; the unused tail is zero. */
    ghost predicate Valid()
      reads this, data
    {
      && 1 <= cap0 <= cap <= INT_MAX
      && data.Length == cap
      && 0 <= start <= offset <= cap
      && forall i :: offset <= i < cap ==> data[i] == 0
    }

    ghost function View(): State
      reads this, data
      requires Valid()
    {
      State(cap, start, data[start..offset], cap0, copied, peak)
    }

    constructor (capacity: int)
      requires 1 <= capacity <= INT_MAX
      ensures Valid() && fresh(data)
      ensures View() == State(capacity, 0, [], capacity, 0, 0)
    {
      cap, start, offset := capacity, 0, 0;
      data := new byte[capacity](_ => 0);
      cap0, copied, peak := capacity, 0, 0;
    }

    /** The copy: the same bytes at the same place, in storage of its own; copying itself changes nothing. */
    method CopyFrom(other: Buffer)
      requires Valid() && other.Valid()
      modifies this
      ensures Valid() && View() == old(other.View())
      ensures if other == this then data == old(data) else fresh(data) && other.View() == old(other.View())
    {
      if other == this {
        return;
      }
      var copy := new byte[other.cap];
      forall i | 0 <= i < other.cap {
        copy[i] := other.data[i];
      }
      assert copy[..] == other.data[..];
      assert copy[other.start..other.offset] == copy[..][other.start..other.offset];
      assert other.data[other.start..other.offset] == other.data[..][other.start..other.offset];
      cap, start, offset, data := other.cap, other.start, other.offset, copy;
      cap0, copied, peak := other.cap0, other.copied, other.peak;
    }

    method Size() returns (n: int)
      requires Valid()
      ensures n == |View().bytes|
    {
      n := offset - start;
    }

    method ResizeTo(want: int)
      requires Valid() && Legal(View(), Resize(want))
      modifies this
      ensures Valid() && (data == old(data) || fresh(data))
      ensures View() == Step(old(View()), Resize(want))
      ensures start == old(start) && offset == old(offset)
    {
      peak := Max(peak, want);
      if cap >= want {
        return;
      }
      Double(want);
      var nbuffer := new byte[cap](_ => 0);
      for i := start to offset
        invariant forall j :: start <= j < i ==> nbuffer[j] == data[j]
        invariant forall j :: i <= j < cap ==> nbuffer[j] == 0
        modifies nbuffer
      {
        nbuffer[i] := data[i];
      }
      assert nbuffer[start..offset] == data[start..offset];
      data := nbuffer;
      copied := copied + (offset - start);
    }

    /** The doubling loop of resize. */
    method Double(want: int)
      requires cap >= 1
      modifies `cap
      ensures cap == Grown(old(cap), want)
    {
      while cap < want
        invariant cap >= 1 && Grown(cap, want) == Grown(old(cap), want)
        decreases want - cap
      {
        cap := cap * 2;
      }
    }

    /** Moves the unconsumed bytes to the front, in place; source and target may overlap. */
    method MoveToFront()
      requires Valid()
      modifies this, data
      ensures Valid() && data == old(data)
      ensures View() == Step(old(View()), Tiny)
    {
      if start == 0 {
        return;
      }
      var len := offset - start;
      ghost var was, kept := data[..], data[start..offset];
      for i := 0 to len
        invariant forall j :: 0 <= j < i ==> data[j] == kept[j]
        invariant forall j :: i <= j < cap ==> data[j] == was[j]
        modifies data
      {
        data[i] := data[i + start];
      }
      forall i | len <= i < len + start {
        data[i] := 0;
      }
      start := 0;
      offset := len;
      assert data[0..len] == kept;
    }

    method Reset()
      requires Valid()
      modifies this, data
      ensures Valid() && data == old(data)
      ensures View() == Step(old(View()), Clear)
    {
      forall i | 0 <= i < cap {
        data[i] := 0;
      }
      start := 0;
      offset := 0;
    }

    method PutString(p: seq<byte>)
      requires Valid() && Legal(View(), Produce(p))
      modifies this, data
      ensures Valid() && (data == old(data) || fresh(data))
      ensures View() == Step(old(View()), Produce(p))
    {
      ResizeTo(offset + |p|);
      hide Valid;
      Store(p);
    }

    /** The copying loop of produce. */
    method Store(p: seq<byte>)
      requires Valid() && offset + |p| <= cap
      modifies `offset, data
      ensures Valid()
      ensures View() == old(View()).(bytes := old(View()).bytes + p)
    {
      ghost var was, first := data[..], offset;
      for i := 0 to |p|
        invariant offset == first + i
        invariant forall j :: start <= j < first ==> data[j] == was[j]
        invariant forall j :: first <= j < offset ==> data[j] == p[j - first]
        invariant forall j :: offset <= j < cap ==> data[j] == 0
        modifies `offset, data
      {
        data[offset] := p[i];
        offset := offset + 1;
      }
      Appended(data[..], was, start, first, p);
      assert data[start..offset] == data[..][start..offset] && was[start..first] == old(data[start..offset]);
    }

    /** consume; -1 stands for everything. */
    method Drop(len0: int)
      requires Valid() && -1 <= len0 <= |View().bytes|
      modifies this, data
      ensures Valid() && data == old(data)
      ensures View() == Step(old(View()), Consume(if len0 == -1 then |old(View()).bytes| else len0))
    {
      var len := len0;
      if len == -1 {
        len := offset - start;
      }
      ghost var bytes := data[start..offset];
      start := start + len;
      assert data[start..offset] == bytes[len..];
      if start == offset {
        Reset();
      }
    }

    /**
     * get_string; -1 stands for everything. Without removal it may look past the contents, up to
     * the capacity, and finds zeros there.
     */
    method GetString(len0: int, remove: bool) returns (str: seq<byte>)
      requires Valid() && -1 <= len0 && start + len0 <= cap
      requires remove ==> len0 <= |View().bytes|
      modifies this, data
      ensures Valid() && data == old(data)
      ensures var bytes := old(View()).bytes;
        var len := if len0 == -1 then |bytes| else len0;
        && str == (if len <= |bytes| then bytes[..len] else bytes + seq(len - |bytes|, _ => 0))
        && View() == if remove then Step(old(View()), Consume(len)) else old(View())
    {
      var len := len0;
      if len == -1 {
        len := offset - start;
      }
      str := data[start..start + len];
      if remove {
        Drop(len);
      }
    }
  }
}
