/**
  Memory as JVMTI hands it out: bytes at 64-bit addresses, and blocks of them that are allocated or not. Where a block
  is put, and what is in it at first, is up to the virtual machine.
 */
module RawMemory {
  import opened Wrappers
  import opened Utf8

  const SPACE := 0x1_0000_0000_0000_0000

  datatype Owner = Agent | Vm
  datatype Block = Block(size: nat, owner: Owner)
  datatype Memory = Memory(cells: map<nat, byte>, live: map<nat, Block>)

  /** The answer to a request for memory. */
  datatype Answer = Refused | At(base: nat, junk: seq<byte>)

  predicate Mapped(m: Memory, a: nat, n: nat) { forall x :: a <= x < a + n ==> x in m.cells }

  /** The addresses are real and none of them is in use; in particular 0 is not among them. */
  predicate Free(m: Memory, a: nat, n: nat) {
    0 < a && a + n <= SPACE && forall x :: a <= x < a + n ==> x !in m.cells
  }

  function ByteAt(a: nat, bs: seq<byte>, x: nat): byte
    requires a <= x < a + |bs|
  {
    bs[x - a]
  }

  /** The bytes `bs` from address `a` on. */
  function Cells(a: nat, bs: seq<byte>): map<nat, byte> {
    map x | a <= x < a + |bs| :: ByteAt(a, bs, x)
  }

  predicate Disjoint(a: nat, n: nat, b: nat, k: nat) { a + n <= b || b + k <= a }

  ghost predicate Valid(m: Memory) {
    && (forall a :: a in m.live ==>
          0 < m.live[a].size && a + m.live[a].size <= SPACE && a > 0 && Mapped(m, a, m.live[a].size))
    && (forall a, b :: a in m.live && b in m.live && a != b ==> Disjoint(a, m.live[a].size, b, m.live[b].size))
  }

  /** `Allocate`: None when the machine has no memory. An answer that is not a free block of the right size is no
      answer the interface allows; it counts as a refusal. A request for nothing is answered by null. */
  function Allocate(m: Memory, n: nat, owner: Owner, r: Answer): Option<(Memory, nat)> {
    if n == 0 then Some((m, 0))
    else if r.Refused? || |r.junk| != n || !Free(m, r.base, n) then None
    else Some((Memory(m.cells + Cells(r.base, r.junk), m.live[r.base := Block(n, owner)]), r.base))
  }

  function Deallocate(m: Memory, a: nat): Memory
    requires a in m.live
  {
    Memory(map x | x in m.cells && !(a <= x < a + m.live[a].size) :: m.cells[x], m.live - {a})
  }

  function Store(m: Memory, a: nat, bs: seq<byte>): Memory {
    m.(cells := m.cells + Cells(a, bs))
  }

  function Load(m: Memory, a: nat, n: nat): (r: seq<byte>)
    requires Mapped(m, a, n)
    ensures |r| == n && forall i :: 0 <= i < n ==> r[i] == m.cells[a + i]
  {
    seq(n, i requires 0 <= i < n && a + i in m.cells => m.cells[a + i])
  }

  function OwnedBy(m: Memory, owner: Owner): set<nat> {
    set a | a in m.live && m.live[a].owner == owner
  }

  // ---------------------------------------------------------------- what an operation leaves alone

  /** `m'` has the same `n` bytes at `a`. */
  predicate SameBytes(m: Memory, m': Memory, a: nat, n: nat) {
    forall x :: a <= x < a + n && x in m.cells ==> x in m'.cells && m'.cells[x] == m.cells[x]
  }

  /** Every block of `owner` is still there, with the same contents. */
  ghost predicate Keeps(m: Memory, m': Memory, owner: Owner) {
    forall a :: a in m.live && m.live[a].owner == owner ==>
      a in m'.live && m'.live[a] == m.live[a] && SameBytes(m, m', a, m.live[a].size)
  }

  lemma {:induction false} KeepsTrans(m: Memory, m1: Memory, m2: Memory, owner: Owner)
    requires Valid(m) && Keeps(m, m1, owner) && Keeps(m1, m2, owner)
    ensures Keeps(m, m2, owner)
  {
    forall a | a in m.live && m.live[a].owner == owner
      ensures a in m2.live && m2.live[a] == m.live[a] && SameBytes(m, m2, a, m.live[a].size)
    {
      assert SameBytes(m, m1, a, m.live[a].size) && SameBytes(m1, m2, a, m1.live[a].size);
    }
  }

  /** When the machine provides memory: a request for nothing always succeeds, with null; any other exactly if the
      answer is a real, unused stretch of addresses of that length. Its cells hold what the answer says. */
  lemma {:induction false} AllocateSucceedsIff(m: Memory, n: nat, owner: Owner, base: nat, junk: seq<byte>)
    ensures Allocate(m, n, owner, Refused).Some? <==> n == 0
    ensures Allocate(m, 0, owner, At(base, junk)) == Some((m, 0))
    ensures n > 0 ==> (Allocate(m, n, owner, At(base, junk)).Some? <==>
              && |junk| == n && base > 0 && base + n <= 0x1_0000_0000_0000_0000
              && forall x :: base <= x < base + n ==> x !in m.cells)
    ensures n > 0 && Allocate(m, n, owner, At(base, junk)).Some? ==>
              var (m', p) := Allocate(m, n, owner, At(base, junk)).value;
              && p == base && m'.live == m.live[base := Block(n, owner)]
              && (forall x :: x in m'.cells <==> x in m.cells || base <= x < base + n)
              && (forall x :: base <= x < base + n ==> m'.cells[x] == junk[x - base])
              && (forall x :: x in m.cells ==> m'.cells[x] == m.cells[x])
  {}

  /** Memory that is given back can be given out again, and only that: every other cell and block stays. */
  lemma {:induction false} DeallocateFrees(m: Memory, a: nat)
    requires Valid(m) && a in m.live
    ensures var m', n := Deallocate(m, a), m.live[a].size;
            && m'.live == m.live - {a}
            && (forall x :: x in m'.cells <==> x in m.cells && !(a <= x < a + n))
            && (forall x :: x in m'.cells ==> m'.cells[x] == m.cells[x])
            && forall owner, junk :: |junk| == n ==> Allocate(m', n, owner, At(a, junk)).Some?
  {}

  lemma {:induction false} AllocateKeeps(m: Memory, n: nat, owner: Owner, r: Answer)
    requires Valid(m) && Allocate(m, n, owner, r).Some?
    ensures var (m', p) := Allocate(m, n, owner, r).value;
            && Valid(m') && Keeps(m, m', Agent) && Keeps(m, m', Vm)
            && (n > 0 ==> p !in m.live && m'.live == m.live[p := Block(n, owner)])
  {
    if n > 0 {
      var (m', p) := Allocate(m, n, owner, r).value;
      forall a | a in m.live ensures a != p && Disjoint(a, m.live[a].size, p, n)
          && SameBytes(m, m', a, m.live[a].size) {
        FreeIsDisjoint(m, a, p, n);
      }
      forall a | a in m'.live ensures Mapped(m', a, m'.live[a].size) {
      }
    }
  }

  lemma {:induction false} FreeIsDisjoint(m: Memory, a: nat, p: nat, n: nat)
    requires Valid(m) && a in m.live && Free(m, p, n) && n > 0
    ensures a != p && Disjoint(a, m.live[a].size, p, n)
  {
    assert Mapped(m, a, m.live[a].size);
    if a <= p {
      assert p in m.cells <== p < a + m.live[a].size;
    } else {
      assert a in m.cells;
    }
  }

  lemma {:induction false} DeallocateKeeps(m: Memory, a: nat, owner: Owner)
    requires Valid(m) && a in m.live && m.live[a].owner != owner
    ensures Valid(Deallocate(m, a)) && Keeps(m, Deallocate(m, a), owner)
  {
    DeallocateValid(m, a);
    forall b | b in m.live && b != a ensures SameBytes(m, Deallocate(m, a), b, m.live[b].size) {
      assert Disjoint(a, m.live[a].size, b, m.live[b].size);
    }
  }

  lemma {:induction false} DeallocateValid(m: Memory, a: nat)
    requires Valid(m) && a in m.live
    ensures Valid(Deallocate(m, a))
  {
    var m' := Deallocate(m, a);
    forall b | b in m'.live ensures Mapped(m', b, m'.live[b].size) {
      assert Disjoint(a, m.live[a].size, b, m.live[b].size) && Mapped(m, b, m.live[b].size);
    }
  }

  /** Writing inside a block leaves every other block alone. */
  lemma {:induction false} StoreKeeps(m: Memory, a: nat, off: nat, bs: seq<byte>, owner: Owner)
    requires Valid(m) && a in m.live && off + |bs| <= m.live[a].size && m.live[a].owner != owner
    ensures Valid(Store(m, a + off, bs)) && Keeps(m, Store(m, a + off, bs), owner)
  {
    StoreValid(m, a + off, bs);
    forall b | b in m.live && m.live[b].owner == owner ensures SameBytes(m, Store(m, a + off, bs), b, m.live[b].size) {
      assert Disjoint(a, m.live[a].size, b, m.live[b].size);
    }
  }

  lemma {:induction false} StoreValid(m: Memory, a: nat, bs: seq<byte>)
    requires Valid(m)
    ensures Valid(Store(m, a, bs))
  {
    var m' := Store(m, a, bs);
    forall b | b in m'.live ensures Mapped(m', b, m'.live[b].size) {
      assert Mapped(m, b, m.live[b].size);
    }
  }

  /** What is written is read back, and what lies elsewhere is not changed. */
  lemma {:induction false} LoadStored(m: Memory, a: nat, bs: seq<byte>)
    ensures Mapped(Store(m, a, bs), a, |bs|) && Load(Store(m, a, bs), a, |bs|) == bs
  {}

  lemma {:induction false} LoadSame(m: Memory, m': Memory, a: nat, n: nat)
    requires Mapped(m, a, n) && SameBytes(m, m', a, n)
    ensures Mapped(m', a, n) && Load(m', a, n) == Load(m, a, n)
  {}

  /** The bytes `bs` are at address `a`. */
  predicate Holds(m: Memory, a: nat, bs: seq<byte>) {
    forall x :: a <= x < a + |bs| ==> x in m.cells && m.cells[x] == ByteAt(a, bs, x)
  }

  lemma {:induction false} StoreHolds(m: Memory, a: nat, bs: seq<byte>)
    ensures Holds(Store(m, a, bs), a, bs)
  {}

  lemma {:induction false} StoreElsewhere(m: Memory, a: nat, bs: seq<byte>, b: nat, cs: seq<byte>)
    requires Holds(m, b, cs) && Disjoint(a, |bs|, b, |cs|)
    ensures Holds(Store(m, a, bs), b, cs)
  {}

  lemma {:induction false} LoadPart(m: Memory, p: nat, n: nat, off: nat, bs: seq<byte>)
    requires Mapped(m, p, n) && off + |bs| <= n && Holds(m, p + off, bs)
    ensures Load(m, p, n)[off..off + |bs|] == bs
  {
    var part := Load(m, p, n)[off..off + |bs|];
    forall i | 0 <= i < |bs| ensures part[i] == bs[i] {
      assert m.cells[p + off + i] == ByteAt(p + off, bs, p + off + i);
    }
  }

  /** Nothing outside `n` bytes at `p` is different in `m'`. */
  predicate SameOutside(m: Memory, m': Memory, p: nat, n: nat) {
    m'.live == m.live && m.cells.Keys <= m'.cells.Keys && forall x :: x in m.cells && !(p <= x < p + n) ==>
          m'.cells[x] == m.cells[x]
  }

  lemma {:induction false} SameAsItself(m: Memory, p: nat, n: nat)
    ensures SameOutside(m, m, p, n)
  {}

  lemma {:induction false} StoreInside(m: Memory, m1: Memory, p: nat, n: nat, off: nat, bs: seq<byte>)
    requires SameOutside(m, m1, p, n) && off + |bs| <= n
    ensures SameOutside(m, Store(m1, p + off, bs), p, n)
  {}

  lemma {:induction false} OutsideValid(m: Memory, m': Memory, p: nat, n: nat)
    requires Valid(m) && SameOutside(m, m', p, n)
    ensures Valid(m')
  {
    forall b | b in m'.live ensures Mapped(m', b, m'.live[b].size) {
      assert Mapped(m, b, m.live[b].size);
    }
  }
}
