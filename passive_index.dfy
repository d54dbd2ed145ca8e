/** Mapping of a logical passive-quantity index (advected scalars, then species,
    then auxiliary quantities) to its slot in the conserved (U) or primitive (Q)
    state layout: upassmap and qpassmap. */
module PassiveIndex {

  datatype Option<T> = None | Some(value: T)

  /** NumAdv, NumSpec and the number of auxiliary quantities. */
  datatype Counts = Counts(numAdv: nat, numSpec: nat, numAux: nat)

  /** Where one layout's advected, species and auxiliary blocks start
      (UFA, UFS, UFX for the conserved layout; QFA, QFS, QFX for the primitive one). */
  datatype Bases = Bases(adv: int, spec: int, aux: int)

  /** The state-layout configuration: the counts and both layouts' block bases. */
  datatype Layout = Layout(counts: Counts, cons: Bases, prim: Bases)

  datatype Category = Advected | Species | Auxiliary

  /** Number of passive quantities of all three kinds. */
  function Total(n: Counts): nat
  {
    n.numAdv + n.numSpec + n.numAux
  }

  /** The category a logical index falls into, by the source's two comparisons. */
  function CategoryOf(n: Counts, p: int): Category
  {
    if p < n.numAdv then Advected
    else if p < n.numAdv + n.numSpec then Species
    else Auxiliary
  }

  /** First logical index of a category. */
  function FirstIndex(n: Counts, c: Category): nat
  {
    match c
    case Advected => 0
    case Species => n.numAdv
    case Auxiliary => n.numAdv + n.numSpec
  }

  function CategorySize(n: Counts, c: Category): nat
  {
    match c
    case Advected => n.numAdv
    case Species => n.numSpec
    case Auxiliary => n.numAux
  }

  function Base(b: Bases, c: Category): int
  {
    match c
    case Advected => b.adv
    case Species => b.spec
    case Auxiliary => b.aux
  }

  /** The three blocks of one layout do not overlap. */
  predicate BlocksDisjoint(n: Counts, b: Bases)
  {
    && Apart(b.adv, n.numAdv, b.spec, n.numSpec)
    && Apart(b.adv, n.numAdv, b.aux, n.numAux)
    && Apart(b.spec, n.numSpec, b.aux, n.numAux)
  }

  /** The ranges [a, a+m) and [c, c+k) share no slot. */
  predicate Apart(a: int, m: nat, c: int, k: nat)
  {
    a + m <= c || c + k <= a || m == 0 || k == 0
  }

  /** The common shape of upassmap and qpassmap: the category's block base
      plus the index's offset within its category. No range check on p. */
  function PassMap(n: Counts, b: Bases, p: int): (slot: int)
    ensures slot == Base(b, CategoryOf(n, p)) + (p - FirstIndex(n, CategoryOf(n, p)))
    ensures 0 <= p < Total(n) ==>
              Base(b, CategoryOf(n, p)) <= slot < Base(b, CategoryOf(n, p)) + CategorySize(n, CategoryOf(n, p))
  {
    if p < n.numAdv then b.adv + p
    else if p < n.numAdv + n.numSpec then b.spec + p - n.numAdv
    else b.aux + p - n.numAdv - n.numSpec
  }

  /** Inverse of PassMap: which logical index, if any, is stored in slot s. */
  function SlotOwner(n: Counts, b: Bases, s: int): Option<int>
  {
    if b.adv <= s < b.adv + n.numAdv then Some(s - b.adv)
    else if b.spec <= s < b.spec + n.numSpec then Some(n.numAdv + (s - b.spec))
    else if b.aux <= s < b.aux + n.numAux then Some(n.numAdv + n.numSpec + (s - b.aux))
    else None
  }

  /** Every valid logical index is recovered from its slot when the blocks are disjoint. */
  lemma SlotOwnerOfPassMap(n: Counts, b: Bases, p: int)
    requires BlocksDisjoint(n, b)
    requires 0 <= p < Total(n)
    ensures SlotOwner(n, b, PassMap(n, b, p)) == Some(p)
  {
  }

  /** Every slot of the three blocks is the image of a valid logical index. */
  lemma PassMapOfSlotOwner(n: Counts, b: Bases, s: int)
    requires SlotOwner(n, b, s).Some?
    ensures 0 <= SlotOwner(n, b, s).value < Total(n)
    ensures PassMap(n, b, SlotOwner(n, b, s).value) == s
  {
  }

  /** Distinct valid logical indices occupy distinct slots. */
  lemma PassMapInjective(n: Counts, b: Bases, p: int, q: int)
    requires BlocksDisjoint(n, b)
    requires 0 <= p < Total(n) && 0 <= q < Total(n)
    requires PassMap(n, b, p) == PassMap(n, b, q)
    ensures p == q
  {
    SlotOwnerOfPassMap(n, b, p);
    SlotOwnerOfPassMap(n, b, q);
  }

  /** Within one category the slot grows strictly with the logical index. */
  lemma PassMapIncreasing(n: Counts, b: Bases, p: int, q: int)
    requires CategoryOf(n, p) == CategoryOf(n, q)
    requires p < q
    ensures PassMap(n, b, p) < PassMap(n, b, q)
  {
  }

  /** upassmap: slot of passive index p in the conserved-state layout. */
  function UPassMap(l: Layout, p: int): (slot: int)
    ensures BlocksDisjoint(l.counts, l.cons) && 0 <= p < Total(l.counts) ==>
              SlotOwner(l.counts, l.cons, slot) == Some(p)
  {
    PassMap(l.counts, l.cons, p)
  }

  /** qpassmap: slot of passive index p in the primitive-state layout. */
  function QPassMap(l: Layout, p: int): (slot: int)
    ensures BlocksDisjoint(l.counts, l.prim) && 0 <= p < Total(l.counts) ==>
              SlotOwner(l.counts, l.prim, slot) == Some(p)
  {
    PassMap(l.counts, l.prim, p)
  }
}
