/** The ring buffer behind a mutex (AtomicQueueMutexT): a class over an array, with 32-bit counters. Calls are
    serialised by the mutex, so each method is one critical section. */
module MutexRing {
  import opened Wrappers
  import opened Bits
  import opened IndexMap
  import AtomicQueue
  import opened Ledger
  import Word32

  /** The contents of the object: counters in [0, 2^32) and the storage array. */
  datatype Ring<T> = Ring(slots: seq<nat>, head: nat, tail: nat, cells: seq<T>)

  function Size<T>(r: Ring<T>): nat { |r.cells| }

  ghost predicate WellFormed<T>(r: Ring<T>) {
    && 0 < Size(r) < WORD && |r.slots| == Size(r) && OneToOne(r.slots)
    && r.head < WORD && r.tail < WORD
    && Live(r) <= Size(r)
  }

  /** `head_ - tail_` in unsigned arithmetic. */
  function Live<T>(r: Ring<T>): nat { (r.head - r.tail) % WORD }

  ghost function Place(slots: seq<nat>, ticket: nat): (i: nat)
    requires |slots| > 0 && OneToOne(slots)
    ensures i < |slots|
  {
    slots[ticket % |slots|]
  }

  ghost function Push<T>(r: Ring<T>, x: T): Ring<T>
    requires WellFormed(r)
  {
    if Live(r) < Size(r) then
      r.(cells := r.cells[Place(r.slots, r.head) := x], head := (r.head + 1) % WORD)
    else r
  }

  ghost function Front<T>(r: Ring<T>): T
    requires WellFormed(r)
  {
    r.cells[Place(r.slots, r.tail)]
  }

  /** `residue` is what moving an element out leaves behind. */
  ghost function Pop<T>(r: Ring<T>, residue: T): Ring<T>
    requires WellFormed(r)
  {
    if r.head != r.tail then
      r.(cells := r.cells[Place(r.slots, r.tail) := residue], tail := (r.tail + 1) % WORD)
    else r
  }

  // ---------------------------------------------------------------- the class

  class AtomicQueueMutex<T(0)> {
    const bits: nat
    const q: array<T>
    var head: nat
    var tail: nat

    ghost function View(): Ring<T>
      reads this, q
    {
      Ring(Placement(q.Length, bits), head, tail, q[..])
    }

    ghost predicate Valid()
      reads this, q
    {
      WellFormed(View())
    }

    constructor (size: nat, bits: nat)
      requires 0 < size < WORD && Permutes(bits, size)
      ensures Valid() && fresh(q)
      ensures View().head == View().tail == 0 && View().slots == Placement(size, bits)
    {
      this.bits := bits;
      q := new T[size];
      head, tail := 0, 0;
      PlacementIsOneToOne(size, bits);
    }

    method TryPush(x: T) returns (ok: bool)
      requires Valid()
      modifies this`head, q
      ensures Valid()
      ensures View() == Push(old(View()), x)
      ensures ok == (old(Live(View())) < q.Length)
    {
      if (head - tail) % WORD < q.Length {
        LiveAfterPush(View());
        ghost var i := Place(View().slots, head);
        q[RemapIndex(bits, head % q.Length)] := x;
        head := (head + 1) % WORD;
        return true;
      }
      return false;
    }

    method TryPop(residue: T) returns (element: Option<T>)
      requires Valid()
      modifies this`tail, q
      ensures Valid()
      ensures View() == Pop(old(View()), residue)
      ensures element == if old(head != tail) then Some(old(Front(View()))) else None
    {
      if head != tail {
        LiveAfterPop(View());
        ghost var place := Place(View().slots, tail);
        var i := RemapIndex(bits, tail % q.Length);
        element := Some(q[i]);
        q[i] := residue;
        tail := (tail + 1) % WORD;
        return;
      }
      return None;
    }
  }

  lemma LiveAfterPush<T>(r: Ring<T>)
    requires r.head < WORD && r.tail < WORD && Live(r) < WORD - 1
    ensures ((r.head + 1) % WORD - r.tail) % WORD == Live(r) + 1
  {
  }

  lemma LiveAfterPop<T>(r: Ring<T>)
    requires r.head < WORD && r.tail < WORD && r.head != r.tail
    ensures (r.head - (r.tail + 1) % WORD) % WORD == Live(r) - 1
  {
  }

  // ---------------------------------------------------------------- refinement of a bounded sequence

  /** The elements from tail to head, oldest first. */
  ghost function Contents<T>(r: Ring<T>): (s: seq<T>)
    requires WellFormed(r)
    ensures |s| == Live(r)
  {
    seq(Live(r), k requires 0 <= k < Live(r) => At(r, k))
  }

  ghost function At<T>(r: Ring<T>, k: nat): T
    requires WellFormed(r)
  {
    r.cells[Place(r.slots, (r.tail + k) % WORD)]
  }

  lemma SamePlace(slots: seq<nat>, a: nat, b: nat)
    requires |slots| > 0 && OneToOne(slots)
    ensures Place(slots, a) == Place(slots, b) <==> a % |slots| == b % |slots|
  {
    var x, y := a % |slots|, b % |slots|;
    if x < y { assert slots[x] != slots[y]; }
    if y < x { assert slots[y] != slots[x]; }
  }

  /** When the size divides 2^32, the places of live tickets are distinct even across a wrap. */
  lemma PlacesDiffer(slots: seq<nat>, base: nat, j: nat, k: nat)
    requires 0 < |slots| && OneToOne(slots) && WORD % |slots| == 0
    requires j < k < j + |slots|
    ensures Place(slots, (base + j) % WORD) != Place(slots, (base + k) % WORD)
  {
    Word32.RemainderOfRemainder(base + j, |slots|, WORD);
    Word32.RemainderOfRemainder(base + k, |slots|, WORD);
    DistinctRemainders(base + j, base + k, |slots|);
    SamePlace(slots, (base + j) % WORD, (base + k) % WORD);
  }

  lemma HeadIsPastLast<T>(r: Ring<T>)
    requires r.head < WORD && r.tail < WORD
    ensures (r.tail + Live(r)) % WORD == r.head
  {
  }

  lemma PushAt<T>(r: Ring<T>, x: T, k: nat)
    requires WellFormed(r) && WORD % Size(r) == 0 && Live(r) < Size(r) && k <= Live(r)
    requires WellFormed(Push(r, x))
    ensures At(Push(r, x), k) == if k < Live(r) then At(r, k) else x
  {
    HeadIsPastLast(r);
    if k < Live(r) { PlacesDiffer(r.slots, r.tail, k, Live(r)); }
  }

  lemma PushAppends<T>(r: Ring<T>, x: T)
    requires WellFormed(r) && WORD % Size(r) == 0
    ensures WellFormed(Push(r, x))
    ensures Contents(Push(r, x)) == if |Contents(r)| < Size(r) then Contents(r) + [x] else Contents(r)
  {
    RingStaysWellFormed(r, TryPush(x));
    if Live(r) < Size(r) {
      LiveAfterPush(r);
      forall k: nat | k <= Live(r) ensures At(Push(r, x), k) == if k < Live(r) then At(r, k) else x {
        PushAt(r, x, k);
      }
      assert Contents(Push(r, x)) == Contents(r) + [x];
    }
  }

  lemma NextTicket(tail: nat, k: nat)
    ensures ((tail + 1) % WORD + k) % WORD == (tail + (k + 1)) % WORD
  {
  }

  lemma PopAt<T>(r: Ring<T>, residue: T, k: nat)
    requires WellFormed(r) && WORD % Size(r) == 0 && r.head != r.tail && k + 1 < Live(r)
    requires WellFormed(Pop(r, residue))
    ensures At(Pop(r, residue), k) == At(r, k + 1)
  {
    NextTicket(r.tail, k);
    PlacesDiffer(r.slots, r.tail, 0, k + 1);
    QuotientIs(r.tail, WORD, 0, r.tail);
  }

  lemma FrontIsFirst<T>(r: Ring<T>)
    requires WellFormed(r) && Live(r) > 0
    ensures At(r, 0) == Front(r)
  {
    SmallWord(r.tail);
  }

  lemma SmallWord(x: nat)
    requires x < WORD
    ensures (x + 0) % WORD == x
  {
  }

  lemma FirstAndRest<T>(s: seq<T>, f: T, t: seq<T>)
    requires |s| == |t| + 1 && s[0] == f && forall k | 0 <= k < |t| :: t[k] == s[k + 1]
    ensures s == [f] + t
  {
  }

  lemma PopRemovesFirst<T>(r: Ring<T>, residue: T)
    requires WellFormed(r) && WORD % Size(r) == 0
    ensures WellFormed(Pop(r, residue))
    ensures r.head != r.tail <==> Contents(r) != []
    ensures r.head != r.tail ==> Contents(r) == [Front(r)] + Contents(Pop(r, residue))
  {
    PopStaysWellFormed(r, residue);
    HeadIsPastLast(r);
    if r.head != r.tail {
      LiveAfterPop(r);
      FrontIsFirst(r);
      var r' := Pop(r, residue);
      forall k | 0 <= k < Live(r') ensures Contents(r')[k] == Contents(r)[k + 1] {
        PopAt(r, residue, k);
      }
      FirstAndRest(Contents(r), Front(r), Contents(r'));
    }
  }

  // ---------------------------------------------------------------- whole runs, and when they are right

  datatype Op<T> = TryPush(x: T) | TryPop(residue: T)

  datatype Answer<T> = Accepted | Refused | Got(value: T) | Empty

  ghost function RingDo<T>(r: Ring<T>, op: Op<T>): Ring<T>
    requires WellFormed(r)
  {
    match op case TryPush(x) => Push(r, x) case TryPop(z) => Pop(r, z)
  }

  ghost function RingAnswer<T>(r: Ring<T>, op: Op<T>): Answer<T>
    requires WellFormed(r)
  {
    match op
    case TryPush(_) => if Live(r) < Size(r) then Accepted else Refused
    case TryPop(_) => if r.head != r.tail then Got(Front(r)) else Empty
  }

  ghost function FifoDo<T>(q: seq<T>, capacity: nat, op: Op<T>): seq<T> {
    match op
    case TryPush(x) => if |q| < capacity then q + [x] else q
    case TryPop(_) => if q != [] then q[1..] else q
  }

  ghost function FifoAnswer<T>(q: seq<T>, capacity: nat, op: Op<T>): Answer<T> {
    match op
    case TryPush(_) => if |q| < capacity then Accepted else Refused
    case TryPop(_) => if q != [] then Got(q[0]) else Empty
  }

  lemma PushStaysWellFormed<T>(r: Ring<T>, x: T)
    requires WellFormed(r)
    ensures WellFormed(Push(r, x)) && Push(r, x).slots == r.slots
  {
    if Live(r) < Size(r) { LiveAfterPush(r); }
  }

  lemma PopStaysWellFormed<T>(r: Ring<T>, residue: T)
    requires WellFormed(r)
    ensures WellFormed(Pop(r, residue)) && Pop(r, residue).slots == r.slots
  {
    if r.head != r.tail { LiveAfterPop(r); }
  }

  lemma RingStaysWellFormed<T>(r: Ring<T>, op: Op<T>)
    requires WellFormed(r)
    ensures WellFormed(RingDo(r, op)) && RingDo(r, op).slots == r.slots
  {
    match op
    case TryPush(x) => PushStaysWellFormed(r, x);
    case TryPop(z) => PopStaysWellFormed(r, z);
  }

  ghost function RingAfter<T>(r: Ring<T>, ops: seq<Op<T>>): (r': Ring<T>)
    requires WellFormed(r)
    ensures WellFormed(r') && r'.slots == r.slots
  {
    if ops == [] then r
    else
      var p := RingAfter(r, ops[..|ops| - 1]);
      RingStaysWellFormed(p, ops[|ops| - 1]);
      RingDo(p, ops[|ops| - 1])
  }

  ghost function FifoAfter<T>(capacity: nat, ops: seq<Op<T>>): seq<T> {
    if ops == [] then [] else FifoDo(FifoAfter(capacity, ops[..|ops| - 1]), capacity, ops[|ops| - 1])
  }

  ghost predicate Fresh<T>(r: Ring<T>) { WellFormed(r) && r.head == 0 && r.tail == 0 }

  /** After any operations, the next one is answered as a bounded first-in first-out queue would. */
  ghost predicate IsFifo<T(!new)>(r: Ring<T>)
    requires WellFormed(r)
  {
    forall ops, op :: RingAnswer(RingAfter(r, ops), op) == FifoAnswer(FifoAfter(Size(r), ops), Size(r), op)
  }

  lemma {:induction false} RingFollowsFifo<T>(r: Ring<T>, ops: seq<Op<T>>)
    requires Fresh(r) && WORD % Size(r) == 0
    ensures Contents(RingAfter(r, ops)) == FifoAfter(Size(r), ops)
  {
    if ops != [] {
      var init, op := ops[..|ops| - 1], ops[|ops| - 1];
      RingFollowsFifo(r, init);
      var p := RingAfter(r, init);
      match op
      case TryPush(x) => PushAppends(p, x);
      case TryPop(z) => PopRemovesFirst(p, z);
    }
  }

  lemma DividingSizesAreFifo<T(!new)>(r: Ring<T>)
    requires Fresh(r) && WORD % Size(r) == 0
    ensures IsFifo(r)
  {
    forall ops, op ensures RingAnswer(RingAfter(r, ops), op) == FifoAnswer(FifoAfter(Size(r), ops), Size(r), op) {
      RingFollowsFifo(r, ops);
      var p := RingAfter(r, ops);
      match op
      case TryPush(x) =>
      case TryPop(z) => PopRemovesFirst(p, z);
    }
  }

  // A size that does not divide 2^32: the run that exposes it.

  ghost function Warm<T>(a: T, n: nat): seq<Op<T>> {
    if n == 0 then [] else Warm(a, n - 1) + [TryPush(a)] + [TryPop(a)]
  }

  lemma AfterSnoc<T>(r: Ring<T>, ops: seq<Op<T>>, op: Op<T>)
    requires WellFormed(r)
    ensures RingAfter(r, ops + [op]) == RingDo(RingAfter(r, ops), op)
  {
    assert (ops + [op])[..|ops|] == ops;
  }

  lemma FifoAfterSnoc<T>(capacity: nat, ops: seq<Op<T>>, op: Op<T>)
    ensures FifoAfter(capacity, ops + [op]) == FifoDo(FifoAfter(capacity, ops), capacity, op)
  {
    assert (ops + [op])[..|ops|] == ops;
  }

  lemma {:induction false} FifoAfterWarm<T>(capacity: nat, a: T, n: nat)
    requires capacity > 0
    ensures FifoAfter(capacity, Warm(a, n)) == []
  {
    if n > 0 {
      FifoAfterWarm(capacity, a, n - 1);
      FifoAfterSnoc(capacity, Warm(a, n - 1), TryPush(a));
      FifoAfterSnoc(capacity, Warm(a, n - 1) + [TryPush(a)], TryPop(a));
    }
  }

  /** Pushing into and popping from an empty ring moves both counters on by one. */
  lemma PushPop<T>(r: Ring<T>, a: T)
    requires WellFormed(r) && r.head == r.tail < WORD - 1
    ensures WellFormed(Push(r, a))
    ensures Pop(Push(r, a), a).head == Pop(Push(r, a), a).tail == r.head + 1
  {
    PushStaysWellFormed(r, a);
    assert Live(r) == 0;
    assert Push(r, a).head == r.head + 1 && Push(r, a).tail == r.tail;
  }

  lemma {:induction false} AfterWarm<T>(r: Ring<T>, a: T, n: nat)
    requires Fresh(r) && n < WORD
    ensures RingAfter(r, Warm(a, n)).head == RingAfter(r, Warm(a, n)).tail == n
  {
    if n > 0 {
      var ops := Warm(a, n - 1);
      AfterWarm(r, a, n - 1);
      AfterSnoc(r, ops, TryPush(a));
      AfterSnoc(r, ops + [TryPush(a)], TryPop(a));
      PushPop(RingAfter(r, ops), a);
    }
  }

  /** Push `a` on the last ticket before the wrap, then `b` `n` times. */
  ghost function AcrossWrap<T>(a: T, b: T, n: nat): seq<Op<T>> {
    if n == 0 then Warm(a, WORD - 1) + [TryPush(a)] else AcrossWrap(a, b, n - 1) + [TryPush(b)]
  }

  /** The ring after `n` pushes of `b` past the wrap, in a size that leaves remainder `rem`: the last `b`
      falls on the place of the `a` still to be popped. */
  ghost predicate Overrun<T>(p: Ring<T>, a: T, b: T, n: nat, rem: nat) {
    && WellFormed(p) && p.head == n && p.tail == WORD - 1
    && Front(p) == if n < rem then a else b
  }

  lemma OverrunStep<T>(p: Ring<T>, a: T, b: T, n: nat, rem: nat)
    requires Size(p) > 0 && n < rem == WORD % Size(p) && Overrun(p, a, b, n, rem)
    ensures Live(p) == n + 1 < Size(p) + 1
    ensures Overrun(Push(p, b), a, b, n + 1, rem)
  {
    LiveAcrossWrap(n);
    PlaceAcrossWrap(p.slots, n, rem);
    PushFields(p, b);
  }

  lemma LiveAcrossWrap(n: nat)
    requires n < WORD - 1
    ensures (n - (WORD - 1)) % WORD == n + 1
  {
  }

  lemma PushFields<T>(p: Ring<T>, x: T)
    requires WellFormed(p) && Live(p) < Size(p) && p.head < WORD - 1
    ensures var r := Push(p, x);
            && WellFormed(r) && r.head == p.head + 1 && r.tail == p.tail && Size(r) == Size(p)
            && Front(r) == if Place(p.slots, p.head) == Place(p.slots, p.tail) then x else Front(p)
  {
    PushStaysWellFormed(p, x);
  }

  lemma PlaceAcrossWrap(slots: seq<nat>, n: nat, rem: nat)
    requires 0 < |slots| && OneToOne(slots) && n < rem == WORD % |slots|
    ensures Place(slots, n) == Place(slots, WORD - 1) <==> n == rem - 1
  {
    LastBeforeWrap(|slots|);
    QuotientIs(n, |slots|, 0, n);
    SamePlace(slots, n, WORD - 1);
  }

  lemma LastBeforeWrap(size: nat)
    requires size > 0 && WORD % size != 0
    ensures (WORD - 1) % size == WORD % size - 1
  {
    QuotientIs(WORD - 1, size, WORD / size, WORD % size - 1);
  }

  lemma OverrunStart<T>(p: Ring<T>, a: T, b: T, rem: nat)
    requires WellFormed(p) && p.head == p.tail == WORD - 1 && rem > 0
    ensures Overrun(Push(p, a), a, b, 0, rem)
  {
    PushStaysWellFormed(p, a);
  }

  lemma {:induction false} RingAcrossWrap<T>(r: Ring<T>, a: T, b: T, n: nat, rem: nat)
    requires Fresh(r) && n <= rem == WORD % Size(r) && rem > 0
    ensures Overrun(RingAfter(r, AcrossWrap(a, b, n)), a, b, n, rem)
  {
    if n == 0 {
      AfterWarm(r, a, WORD - 1);
      AfterSnoc(r, Warm(a, WORD - 1), TryPush(a));
      OverrunStart(RingAfter(r, Warm(a, WORD - 1)), a, b, rem);
    } else {
      var ops := AcrossWrap(a, b, n - 1);
      RingAcrossWrap(r, a, b, n - 1, rem);
      AfterSnoc(r, ops, TryPush(b));
      OverrunStep(RingAfter(r, ops), a, b, n - 1, rem);
    }
  }

  lemma {:induction false} FifoAcrossWrap<T>(capacity: nat, a: T, b: T, n: nat)
    requires n < capacity
    ensures var q := FifoAfter(capacity, AcrossWrap(a, b, n)); |q| == n + 1 && q[0] == a
  {
    if n == 0 {
      FifoAfterWarm(capacity, a, WORD - 1);
      FifoAfterSnoc(capacity, Warm(a, WORD - 1), TryPush(a));
    } else {
      FifoAcrossWrap(capacity, a, b, n - 1);
      FifoAfterSnoc(capacity, AcrossWrap(a, b, n - 1), TryPush(b));
    }
  }

  /** The ring is a first-in first-out queue for ever exactly when its size divides 2^32. */
  lemma FifoIffSizeDivides<T(!new)>(r: Ring<T>, a: T, b: T)
    requires Fresh(r) && a != b
    ensures IsFifo(r) <==> WORD % Size(r) == 0
  {
    if WORD % Size(r) == 0 {
      DividingSizesAreFifo(r);
    } else {
      var rem := WORD % Size(r);
      var ops := AcrossWrap(a, b, rem);
      RingAcrossWrap(r, a, b, rem, rem);
      FifoAcrossWrap(Size(r), a, b, rem);
      assert RingAnswer(RingAfter(r, ops), TryPop(a)) == Got(b);
      assert FifoAnswer(FifoAfter(Size(r), ops), Size(r), TryPop(a)) == Got(a);
    }
  }

  /** Every size the queue rounds to when it minimises contention is such a size. */
  lemma RoundedSizesAreFifo<T(!new)>(r: Ring<T>, requested: nat, perLine: nat)
    requires requested < WORD && Fresh(r) && Size(r) == StaticSize(true, requested)
    requires r.slots == Placement(Size(r), ShuffleBits(true, Size(r), perLine))
    ensures IsFifo(r)
  {
    StaticSizeIsSound(true, requested, perLine);
    var k: nat :| Size(r) == Pow2(k);
    Pow2Of32();
    Pow2Below(k, 32);
    Word32.Pow2DividesWord(k);
    DividingSizesAreFifo(r);
  }

  // ---------------------------------------------------------------- was_empty and was_full

  function WasEmpty<T>(r: Ring<T>): bool { AtomicQueue.Signed(Live(r)) <= 0 }

  function WasFull<T>(r: Ring<T>): bool { AtomicQueue.Signed(Live(r)) >= AtomicQueue.Signed(Size(r) % WORD) }

  /** Both answers are right in every state of rings of fewer than 2^31 slots, and only of those: a bigger
      ring always claims to be full when it is empty. */
  lemma SignedAnswersAreExact<T>(r: Ring<T>)
    requires WellFormed(r)
    ensures Size(r) < WORD / 2 ==> (WasEmpty(r) <==> Contents(r) == []) && (WasFull(r) <==> |Contents(r)| == Size(r))
    ensures Size(r) >= WORD / 2 && Contents(r) == [] ==> WasFull(r)
  {
    assert Contents(r) == [] <==> Live(r) == 0;
  }
}
