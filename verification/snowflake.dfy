/** The three migration scripts' id generators: milliseconds since an epoch, a worker number
    and a 12-bit sequence, put together with shifts and `|` on unbounded integers. Workers
    1024 and 1025 do not fit their ten bits: bit 22 is shared with the time. */
module Snowflake {

  const EPOCH_MS: int := 1_767_225_600_000

  datatype Script = Passwords | Google | Backfill

  function Worker(s: Script): nat {
    match s
    case Passwords => 1023
    case Google => 1024
    case Backfill => 1025
  }

  function Magnitude(a: int): nat {
    if a < 0 then -a else a
  }

  /** Bitwise or, two's complement for negative numbers; `/` and `%` by 2 round down. */
  function Or(a: int, b: int): int
    decreases Magnitude(a) + Magnitude(b)
  {
    if a == 0 then b else if b == 0 then a
    else if a == -1 || b == -1 then -1
    else 2 * Or(a / 2, b / 2) + (if a % 2 == 1 || b % 2 == 1 then 1 else 0)
  }

  predicate Bit(a: int, k: nat)
    decreases k
  {
    if k == 0 then a % 2 == 1 else Bit(a / 2, k - 1)
  }

  lemma {:induction false} ConstantBits(k: nat)
    ensures !Bit(0, k) && Bit(-1, k)
  {
    if k > 0 {
      ConstantBits(k - 1);
    }
  }

  lemma OrHalves(a: int, b: int)
    requires a != 0 && b != 0 && a != -1 && b != -1
    ensures Or(a, b) / 2 == Or(a / 2, b / 2)
    ensures Or(a, b) % 2 == 1 <==> a % 2 == 1 || b % 2 == 1
  {
    var high, low := Or(a / 2, b / 2), if a % 2 == 1 || b % 2 == 1 then 1 else 0;
    assert Or(a, b) == 2 * high + low;
    Halved(high, low);
  }

  lemma Halved(high: int, low: nat)
    requires low <= 1
    ensures (2 * high + low) / 2 == high && (2 * high + low) % 2 == low
  {
  }

  lemma {:induction false} OrIsBitwise(a: int, b: int, k: nat)
    ensures Bit(Or(a, b), k) <==> Bit(a, k) || Bit(b, k)
    decreases k
  {
    if a == 0 || b == 0 || a == -1 || b == -1 {
      ConstantBits(k);
    } else {
      OrHalves(a, b);
      if k > 0 {
        OrIsBitwise(a / 2, b / 2, k - 1);
      }
    }
  }

  function Shl(a: int, n: nat): int {
    if n == 0 then a else 2 * Shl(a, n - 1)
  }

  /** The id at `ts` milliseconds past the epoch. */
  function Id(s: Script, ts: int, sequence: nat): int {
    Or(Or(Shl(ts, 22), Shl(Worker(s), 12)), sequence)
  }

  // ------------------------------------------------------------- what an id holds

  lemma OrDouble(a: int, b: int, d: nat)
    requires d <= 1
    ensures Or(2 * a, 2 * b + d) == 2 * Or(a, b) + d
  {
    assert 2 * a / 2 == a && (2 * b + d) / 2 == b && 2 * a % 2 == 0 && (2 * b + d) % 2 == d;
  }

  lemma {:induction false} OrAboveLowBits(a: int, b: int, c: nat, n: nat)
    requires c < Shl(1, n)
    ensures Or(Shl(a, n), Shl(b, n) + c) == Shl(Or(a, b), n) + c
  {
    if n > 0 {
      OrAboveLowBits(a, b, c / 2, n - 1);
      OrDouble(Shl(a, n - 1), Shl(b, n - 1) + c / 2, c % 2);
    }
  }

  lemma {:induction false} ShlMultiplies(a: int, n: nat)
    ensures Shl(a, n) == a * Shl(1, n)
  {
    if n > 0 {
      ShlMultiplies(a, n - 1);
      assert 2 * (a * Shl(1, n - 1)) == a * (2 * Shl(1, n - 1));
    }
  }

  lemma ShiftBy12(a: int)
    ensures Shl(a, 12) == 4096 * a
  {
    ShlMultiplies(a, 12);
    assert Shl(1, 12) == 4096;
  }

  lemma ShiftBy22(a: int)
    ensures Shl(a, 22) == 4194304 * a
  {
    ShlMultiplies(a, 22);
    assert Shl(1, 6) == 64 && Shl(1, 10) == 1024 && Shl(1, 14) == 16384 && Shl(1, 18) == 262144 && Shl(1, 22) == 4194304;
  }

  /** What of the time an id keeps. */
  function Slot(s: Script, ts: int): int {
    if s.Passwords? then ts else ts / 2
  }

  /** Worker 1023 leaves the time alone; workers 1024 and 1025 set its lowest bit. */
  function TimeField(s: Script, ts: int): int {
    if s.Passwords? then ts else 2 * Slot(s, ts) + 1
  }

  function WorkerField(s: Script): nat {
    Worker(s) % 1024
  }

  lemma IdFields(s: Script, ts: int, sequence: nat)
    requires sequence < 4096
    ensures Id(s, ts, sequence) == 4194304 * TimeField(s, ts) + 4096 * WorkerField(s) + sequence
  {
    var bit22 := Worker(s) / 1024;
    ShiftBy12(Worker(s));
    ShiftBy22(1);
    ShiftBy22(bit22);
    OrAboveLowBits(ts, bit22, 4096 * WorkerField(s), 22);
    assert Or(ts / 2, 0) == ts / 2;
    assert Or(ts, bit22) == TimeField(s, ts);
    ShiftBy22(Or(ts, bit22));
    var high := 1024 * TimeField(s, ts) + WorkerField(s);
    ShiftBy12(high);
    ShiftBy12(0);
    ShiftBy12(1);
    OrAboveLowBits(high, 0, sequence, 12);
  }

  lemma FieldsDecide(t: int, w: nat, q: nat, t': int, w': nat, q': nat)
    requires w < 1024 && w' < 1024 && q < 4096 && q' < 4096
    ensures 4194304 * t + 4096 * w + q == 4194304 * t' + 4096 * w' + q' <==> t == t' && w == w' && q == q'
  {
    var x, x' := 1024 * t + w, 1024 * t' + w';
    if 4096 * x + q == 4096 * x' + q' {
      assert x == x';
    }
  }

  lemma SameIdSameSlot(s: Script, ts: int, sequence: nat, ts': int, sequence': nat)
    requires sequence < 4096 && sequence' < 4096
    ensures Id(s, ts, sequence) == Id(s, ts', sequence') <==> Slot(s, ts) == Slot(s, ts') && sequence == sequence'
  {
    IdFields(s, ts, sequence);
    IdFields(s, ts', sequence');
    FieldsDecide(TimeField(s, ts), WorkerField(s), sequence, TimeField(s, ts'), WorkerField(s), sequence');
  }

  lemma ScriptsNeverCollide(s: Script, ts: int, sequence: nat, s': Script, ts': int, sequence': nat)
    requires s != s' && sequence < 4096 && sequence' < 4096
    ensures Id(s, ts, sequence) != Id(s', ts', sequence')
  {
    IdFields(s, ts, sequence);
    IdFields(s', ts', sequence');
    FieldsDecide(TimeField(s, ts), WorkerField(s), sequence, TimeField(s', ts'), WorkerField(s'), sequence');
  }

  // ------------------------------------------------------------- a run of a script

  /** The i-th id of a run whose draws happen at the times `ts`. */
  function Drawn(s: Script, ts: seq<int>, i: nat): int
    requires i < |ts|
  {
    Id(s, ts[i], (i + 1) % 4096)
  }

  predicate Nondecreasing(ts: seq<int>) {
    forall i, j | 0 <= i <= j < |ts| :: ts[i] <= ts[j]
  }

  /** With a clock that does not go back, the ids of a run are distinct if and only if every
      4096 draws move the kept part of the time on. */
  lemma DistinctExactly(s: Script, ts: seq<int>)
    requires Nondecreasing(ts)
    ensures (forall i, j | 0 <= i < j < |ts| :: Drawn(s, ts, i) != Drawn(s, ts, j))
            <==> (forall i | 0 <= i < |ts| - 4096 :: Slot(s, ts[i]) < Slot(s, ts[i + 4096]))
  {
    if forall i | 0 <= i < |ts| - 4096 :: Slot(s, ts[i]) < Slot(s, ts[i + 4096]) {
      forall i, j | 0 <= i < j < |ts| ensures Drawn(s, ts, i) != Drawn(s, ts, j) {
        SameIdSameSlot(s, ts[i], (i + 1) % 4096, ts[j], (j + 1) % 4096);
        if (i + 1) % 4096 == (j + 1) % 4096 {
          assert j >= i + 4096;
          assert Slot(s, ts[i]) < Slot(s, ts[i + 4096]) && ts[i + 4096] <= ts[j];
        }
      }
    } else {
      var i :| 0 <= i < |ts| - 4096 && !(Slot(s, ts[i]) < Slot(s, ts[i + 4096]));
      assert ts[i] <= ts[i + 4096];
      SameIdSameSlot(s, ts[i], (i + 1) % 4096, ts[i + 4096], (i + 4096 + 1) % 4096);
      assert Drawn(s, ts, i) == Drawn(s, ts, i + 4096);
    }
  }

  /** So 4096 draws a millisecond are safe with worker 1023, and 4096 in two milliseconds with
      workers 1024 and 1025. */
  lemma DistinctAtFullRate(s: Script, ts: seq<int>)
    requires Nondecreasing(ts)
    requires forall i | 0 <= i < |ts| - 4096 :: ts[i + 4096] >= ts[i] + if s.Passwords? then 1 else 2
    ensures forall i, j | 0 <= i < j < |ts| :: Drawn(s, ts, i) != Drawn(s, ts, j)
  {
    forall i | 0 <= i < |ts| - 4096 ensures Slot(s, ts[i]) < Slot(s, ts[i + 4096]) {
      assert ts[i + 4096] >= ts[i] + if s.Passwords? then 1 else 2;
    }
    DistinctExactly(s, ts);
  }

  /** One millisecond is not enough for workers 1024 and 1025: with a time that is even, the
      draw 4096 places and one millisecond later gives the same id. */
  lemma OneMillisecondIsNotEnough(s: Script, ts: int, sequence: nat)
    requires !s.Passwords? && sequence < 4096
    ensures Id(s, ts, sequence) == Id(s, ts + 1, sequence) <==> ts % 2 == 0
  {
    SameIdSameSlot(s, ts, sequence, ts + 1, sequence);
  }

  class Generator {
    const script: Script
    var last: nat
    ghost var times: seq<int>

    ghost predicate Valid()
      reads this
    {
      last == |times| % 4096
    }

    constructor (script: Script)
      ensures Valid() && times == [] && this.script == script
    {
      this.script, last, times := script, 0, [];
    }

    method Draw(nowMs: int) returns (id: int)
      requires Valid()
      modifies this
      ensures Valid() && times == old(times) + [nowMs - EPOCH_MS]
      ensures id == Drawn(script, times, |old(times)|)
    {
      var ts := nowMs - EPOCH_MS;
      last := (last + 1) % 4096;
      times := times + [ts];
      id := Or(Or(Shl(ts, 22), Shl(Worker(script), 12)), last);
    }
  }
}
