/**
 The CPUID cache (src/libos/src/exception/cpuid.rs): a table of CPUID answers filled
 once, from which the exception handler then answers every query. Leaf numbers follow
 the Intel 64 and IA-32 Software Developer's Manual, Volume 2A, Chapter 3, "CPUID".

 The processor is a function from leaf and sub-leaf to an answer; leaves and sub-leaves
 are 32-bit numbers.
 */
module CpuId {

  datatype CpuIdInput = CpuIdInput(leaf: nat, subleaf: nat)

  datatype CpuIdResult = CpuIdResult(eax: bv32, ebx: bv32, ecx: bv32, edx: bv32)

  type Oracle = (nat, nat) -> CpuIdResult

  const ZERO := CpuIdResult(0, 0, 0, 0)
  const MIN_EXTEND_LEAF: nat := 0x8000_0000
  const MAX_SUBLEAF: nat := 0xFFFF_FFFF

  // ---- Which sub-leaves exist

  /** Leaves whose sub-leaf bound is found by looking at each answer in turn. */
  predicate Dynamic(leaf: nat) {
    leaf in {0x4, 0xB, 0x12, 0x1B, 0x1F}
  }

  /** The bound announced by sub-leaf 0. */
  function FirstBound(leaf: nat, r: CpuIdResult): (max: nat)
    ensures max <= MAX_SUBLEAF
  {
    if leaf in {0x7, 0x14, 0x17, 0x18} then r.eax as nat
    else if leaf == 0xF then ((r.edx & 0x2) >> 1) as nat
    else if leaf == 0x10 then
      if r.ebx & 0xE in {0x8, 0xA, 0xC, 0xE} then 3
      else if r.ebx & 0xE in {0x4, 0x6} then 2
      else if r.ebx & 0xE == 0x2 then 1
      else 0
    else if leaf == 0xD then 63
    else if Dynamic(leaf) then MAX_SUBLEAF
    else 0
  }

  /** The answer for this sub-leaf of a dynamic leaf says that it is the last. */
  predicate Stops(leaf: nat, subleaf: nat, r: CpuIdResult) {
    || (leaf == 0x4 && r.eax & 0x1F == 0)
    || (leaf == 0xB && r.ecx & 0xFF00 == 0)
    || (leaf == 0x12 && subleaf >= 2 && r.eax & 0xF == 0)
    || (leaf == 0x1B && r.eax == 0)
    || (leaf == 0x1F && r.ecx & 0xFF00 == 0)
  }

  /** The first sub-leaf from `n` on that stops, or the greatest number there is. */
  function FirstStop(oracle: Oracle, leaf: nat, n: nat): (max: nat)
    requires n <= MAX_SUBLEAF
    ensures n <= max <= MAX_SUBLEAF
    decreases MAX_SUBLEAF - n
  {
    if n == MAX_SUBLEAF || Stops(leaf, n, oracle(leaf, n)) then n else FirstStop(oracle, leaf, n + 1)
  }

  /** The last sub-leaf of a leaf that the generator asks for. */
  function MaxSubleaf(oracle: Oracle, leaf: nat): nat {
    if Dynamic(leaf) then FirstStop(oracle, leaf, 0) else FirstBound(leaf, oracle(leaf, 0))
  }

  /** SGX and PCONFIG leaves are left out unless leaf 7 announces them. */
  predicate Skipped(oracle: Oracle, leaf: nat) {
    || (leaf == 0x12 && oracle(0x7, 0).ebx & 0x4 == 0)
    || (leaf == 0x1B && oracle(0x7, 0).edx & 0x40000 == 0)
  }

  predicate HasSubleaves(leaf: nat) {
    leaf in [0x4, 0x7, 0xB, 0xD, 0xF, 0x10, 0x12, 0x14, 0x17, 0x18, 0x1B, 0x1F]
  }

  /** Before sub-leaf `n`: the announced bound is in force and no dynamic leaf has stopped. */
  ghost predicate OnTrack(oracle: Oracle, leaf: nat, n: nat, max: nat) {
    && n <= MAX_SUBLEAF
    && (n > 0 ==> max == FirstBound(leaf, oracle(leaf, 0)))
    && (Dynamic(leaf) ==> MaxSubleaf(oracle, leaf) == FirstStop(oracle, leaf, n))
  }

  /** The two matches on the leaf in the loop body; the loop then ends at the right place. */
  method UpdateBound(leaf: nat, subleaf: nat, max: nat, r: CpuIdResult, ghost oracle: Oracle) returns (max': nat)
    requires r == oracle(leaf, subleaf) && OnTrack(oracle, leaf, subleaf, max)
    requires subleaf <= MaxSubleaf(oracle, leaf)
    ensures subleaf == max' <==> subleaf == MaxSubleaf(oracle, leaf)
    ensures subleaf < MaxSubleaf(oracle, leaf) ==> OnTrack(oracle, leaf, subleaf + 1, max')
  {
    max' := max;
    if subleaf == 0 {
      max' := FirstBound(leaf, r);
    }
    if max' == MAX_SUBLEAF && Stops(leaf, subleaf, r) {
      max' := subleaf;
    }
  }

  // ---- The table

  type Table = map<CpuIdInput, CpuIdResult>

  /** The keys of one basic leaf, unless it is skipped. */
  ghost function LeafKeys(oracle: Oracle, leaf: nat): iset<CpuIdInput> {
    iset k: CpuIdInput | k.leaf == leaf && !Skipped(oracle, leaf) && k.subleaf <= MaxSubleaf(oracle, leaf) :: k
  }

  /** The keys of all basic leaves below `leaf`. */
  ghost function BasicKeys(oracle: Oracle, leaf: nat): iset<CpuIdInput> {
    iset k: CpuIdInput | k.leaf < leaf && k in LeafKeys(oracle, k.leaf) :: k
  }

  ghost function SubleafKeys(leaf: nat, subleaf: nat): iset<CpuIdInput> {
    iset k: CpuIdInput | k.leaf == leaf && k.subleaf < subleaf :: k
  }

  /** The keys of the extended leaves below `leaf`. */
  ghost function ExtendedKeys(leaf: nat): iset<CpuIdInput> {
    iset k: CpuIdInput | MIN_EXTEND_LEAF <= k.leaf < leaf && k.subleaf == 0 :: k
  }

  /** The table holds, of what was asked, the answers that are not all zero. */
  ghost predicate Holds(inner: Table, oracle: Oracle, asked: iset<CpuIdInput>) {
    && (forall k :: k in inner <==> k in asked && oracle(k.leaf, k.subleaf) != ZERO)
    && (forall k :: k in inner ==> inner[k] == oracle(k.leaf, k.subleaf))
  }

  function Inserted(inner: Table, key: CpuIdInput, value: CpuIdResult): Table {
    if value == ZERO then inner else inner[key := value]
  }

  lemma HoldsInsert(inner: Table, oracle: Oracle, asked: iset<CpuIdInput>, k: CpuIdInput)
    requires Holds(inner, oracle, asked)
    ensures Holds(Inserted(inner, k, oracle(k.leaf, k.subleaf)), oracle, asked + iset{k})
  {
  }

  lemma OrZero(r: CpuIdResult)
    ensures r.eax | r.ebx | r.ecx | r.edx == 0 <==> r == ZERO
  {
  }

  class CpuIdCache {
    var inner: map<CpuIdInput, CpuIdResult>

    constructor ()
      ensures inner == map[]
    {
      inner := map[];
    }

    method Insert(key: CpuIdInput, value: CpuIdResult)
      modifies this
      ensures inner == Inserted(old(inner), key, value)
    {
      OrZero(value);
      if value.eax | value.ebx | value.ecx | value.edx != 0 {
        inner := inner[key := value];
      }
    }

    method Ask(oracle: Oracle, leaf: nat, subleaf: nat, ghost asked: iset<CpuIdInput>) returns (r: CpuIdResult)
      requires Holds(inner, oracle, asked)
      modifies this
      ensures r == oracle(leaf, subleaf) && Holds(inner, oracle, asked + iset{CpuIdInput(leaf, subleaf)})
    {
      HoldsInsert(inner, oracle, asked, CpuIdInput(leaf, subleaf));
      r := oracle(leaf, subleaf);
      Insert(CpuIdInput(leaf, subleaf), r);
    }

    /**
     The loop over the sub-leaves of one leaf. Its counter never passes the bound; the
     range iterator, which computes the next value early, overflows only if the bound
     is the greatest 32-bit number.
     */
    method GenerateLeaf(oracle: Oracle, leaf: nat, ghost asked: iset<CpuIdInput>) returns (overflow: bool)
      requires Holds(inner, oracle, asked)
      modifies this
      ensures Holds(inner, oracle, asked + SubleafKeys(leaf, MaxSubleaf(oracle, leaf) + 1))
      ensures overflow <==> MaxSubleaf(oracle, leaf) == MAX_SUBLEAF
    {
      var subleaf, max := 0, 0;
      overflow := false;
      ghost var last := MaxSubleaf(oracle, leaf);
      assert asked + SubleafKeys(leaf, 0) == asked;
      while true
        invariant 0 <= subleaf <= last && !overflow
        invariant Holds(inner, oracle, asked + SubleafKeys(leaf, subleaf))
        invariant OnTrack(oracle, leaf, subleaf, max)
        decreases last - subleaf
      {
        overflow := subleaf == MAX_SUBLEAF;
        var r := Ask(oracle, leaf, subleaf, asked + SubleafKeys(leaf, subleaf));
        assert asked + SubleafKeys(leaf, subleaf) + iset{CpuIdInput(leaf, subleaf)} == asked + SubleafKeys(leaf, subleaf + 1);
        max := UpdateBound(leaf, subleaf, max, r, oracle);
        if subleaf == max {
          break;
        }
        subleaf := subleaf + 1;
      }
    }

    /** The basic leaves; skipping depends on what leaf 7 answered on the way. */
    method GenerateBasic(oracle: Oracle, maxBasic: nat) returns (overflow: bool)
      requires inner == map[]
      modifies this
      ensures Holds(inner, oracle, BasicKeys(oracle, maxBasic + 1))
      ensures overflow <==> exists leaf :: 0 <= leaf <= maxBasic && RunsOver(oracle, leaf)
    {
      var sgx, pconfig := false, false;
      overflow := false;
      var leaf := 0;
      while leaf <= maxBasic
        invariant 0 <= leaf <= maxBasic + 1
        invariant Holds(inner, oracle, BasicKeys(oracle, leaf))
        invariant sgx == (leaf > 0x7 && oracle(0x7, 0).ebx & 0x4 != 0)
        invariant pconfig == (leaf > 0x7 && oracle(0x7, 0).edx & 0x40000 != 0)
        invariant overflow <==> exists l :: 0 <= l < leaf && RunsOver(oracle, l)
      {
        ghost var before := overflow;
        var skip := (leaf == 0x12 && !sgx) || (leaf == 0x1B && !pconfig);
        assert skip == Skipped(oracle, leaf);
        if !skip {
          var ran := GenerateLeaf(oracle, leaf, BasicKeys(oracle, leaf));
          overflow := overflow || ran;
          if leaf == 0x7 {
            sgx := oracle(0x7, 0).ebx & 0x4 != 0;
            pconfig := oracle(0x7, 0).edx & 0x40000 != 0;
          }
        }
        NextLeaf(oracle, leaf);
        assert overflow <==> before || RunsOver(oracle, leaf);
        leaf := leaf + 1;
      }
    }

    /**
     Fills the table for a processor with these highest leaves. Generation terminates
     for every processor; `overflow` tells whether the sub-leaf range ran over. From
     then on every lookup gives the direct answer.
     */
    method GenerateCpuidCache(oracle: Oracle, maxBasic: nat, maxExtended: nat) returns (overflow: bool)
      requires inner == map[]
      modifies this
      ensures Generated(inner, oracle, maxBasic, maxExtended)
      ensures forall leaf, subleaf ::
        GetCpuidInfo(inner, maxBasic, maxExtended, leaf, subleaf) == Direct(oracle, maxBasic, maxExtended, leaf, subleaf)
      ensures overflow <==> exists leaf :: 0 <= leaf <= maxBasic && RunsOver(oracle, leaf)
    {
      overflow := GenerateBasic(oracle, maxBasic);
      ghost var basic := BasicKeys(oracle, maxBasic + 1);
      var leaf := MIN_EXTEND_LEAF;
      assert basic + ExtendedKeys(leaf) == basic;
      while leaf <= maxExtended
        invariant MIN_EXTEND_LEAF <= leaf
        invariant leaf <= maxExtended + 1 || leaf == MIN_EXTEND_LEAF
        invariant Holds(inner, oracle, basic + ExtendedKeys(leaf))
      {
        var _ := Ask(oracle, leaf, 0, basic + ExtendedKeys(leaf));
        assert basic + ExtendedKeys(leaf) + iset{CpuIdInput(leaf, 0)} == basic + ExtendedKeys(leaf + 1);
        leaf := leaf + 1;
      }
      assert ExtendedKeys(leaf) == ExtendedKeys(maxExtended + 1);
      AllAgree(inner, oracle, maxBasic, maxExtended);
    }
  }

  /** The sub-leaf range of this leaf reaches the greatest 32-bit number. */
  predicate RunsOver(oracle: Oracle, leaf: nat) {
    !Skipped(oracle, leaf) && MaxSubleaf(oracle, leaf) == MAX_SUBLEAF
  }

  lemma NextLeaf(oracle: Oracle, leaf: nat)
    ensures BasicKeys(oracle, leaf + 1) ==
      if Skipped(oracle, leaf) then BasicKeys(oracle, leaf)
      else BasicKeys(oracle, leaf) + SubleafKeys(leaf, MaxSubleaf(oracle, leaf) + 1)
  {
  }

  // ---- Lookup

  predicate InRange(maxBasic: nat, maxExtended: nat, leaf: nat) {
    leaf <= maxBasic || MIN_EXTEND_LEAF <= leaf <= maxExtended
  }

  /** `get_cpuid_info`: the answer the exception handler gives. */
  function GetCpuidInfo(inner: Table, maxBasic: nat, maxExtended: nat, leaf: nat, subleaf: nat): CpuIdResult {
    var fixedLeaf := if InRange(maxBasic, maxExtended, leaf) then leaf else maxBasic;
    var fixedSubleaf := if HasSubleaves(fixedLeaf) then subleaf else 0;
    var key := CpuIdInput(fixedLeaf, fixedSubleaf);
    if key in inner then inner[key] else ZERO
  }

  /** Every key the generator asks for. */
  ghost function Enumerated(oracle: Oracle, maxBasic: nat, maxExtended: nat): iset<CpuIdInput> {
    BasicKeys(oracle, maxBasic + 1) + ExtendedKeys(maxExtended + 1)
  }

  ghost predicate Generated(inner: Table, oracle: Oracle, maxBasic: nat, maxExtended: nat) {
    Holds(inner, oracle, Enumerated(oracle, maxBasic, maxExtended))
  }

  /** On some processor the generator asks for this leaf past sub-leaf 0. */
  ghost predicate Splits(leaf: nat) {
    exists oracle: Oracle :: !Skipped(oracle, leaf) && MaxSubleaf(oracle, leaf) > 0
  }

  lemma {:induction false} FirstStopPositive(oracle: Oracle, leaf: nat)
    requires !Stops(leaf, 0, oracle(leaf, 0))
    ensures FirstStop(oracle, leaf, 0) > 0
  {
  }

  /** The sub-leaf table lists exactly the leaves that split on some processor. */
  lemma SubleafTableExact(leaf: nat)
    ensures HasSubleaves(leaf) <==> Splits(leaf)
  {
    if HasSubleaves(leaf) {
      var oracle: Oracle := (l, s) => CpuIdResult(1, 6, 0x100, 0x40002);
      if Dynamic(leaf) {
        FirstStopPositive(oracle, leaf);
      }
      assert !Skipped(oracle, leaf) && MaxSubleaf(oracle, leaf) > 0;
    }
  }

  // ---- What a lookup should answer, leaf by leaf

  /** Leaves 0x12 and 0x1B exist if leaf 7 announces SGX (EBX bit 2) and PCONFIG (EDX bit 18). */
  predicate Announced(oracle: Oracle, leaf: nat) {
    && (leaf == 0x12 ==> (oracle(0x7, 0).ebx >> 2) % 2 == 1)
    && (leaf == 0x1B ==> (oracle(0x7, 0).edx >> 18) % 2 == 1)
  }

  /** EAX[4:0] of leaf 4, ECX[15:8] of 0xB and 0x1F, EAX[3:0] of 0x12 from sub-leaf 2 on, EAX of 0x1B are zero. */
  predicate LastOne(leaf: nat, n: nat, r: CpuIdResult) {
    match leaf
    case 0x4 => r.eax << 27 == 0
    case 0xB => (r.ecx >> 8) << 24 == 0
    case 0x1F => (r.ecx >> 8) << 24 == 0
    case 0x12 => n >= 2 && r.eax << 28 == 0
    case _ => r.eax == 0
  }

  /** The leaf has a sub-leaf `n`. */
  predicate HasSubleaf(oracle: Oracle, leaf: nat, n: nat) {
    var first := oracle(leaf, 0);
    match leaf
    case 0xD => n <= 63
    case 0x7 => n <= first.eax as nat
    case 0x14 => n <= first.eax as nat
    case 0x17 => n <= first.eax as nat
    case 0x18 => n <= first.eax as nat
    case 0xF => n == 0 || (n == 1 && (first.edx >> 1) % 2 == 1)
    case 0x10 => n == 0 || (n <= 3 && exists bit :: n <= bit <= 3 && ResourceBit(first.ebx, bit))
    case _ => n <= 0xFFFF_FFFF && forall m :: 0 <= m < n ==> !LastOne(leaf, m, oracle(leaf, m))
  }

  /** Resource bits 1 to 3 of leaf 0x10. */
  predicate ResourceBit(ebx: bv32, bit: nat) {
    match bit
    case 1 => (ebx >> 1) % 2 == 1
    case 2 => (ebx >> 2) % 2 == 1
    case 3 => (ebx >> 3) % 2 == 1
    case _ => false
  }

  /**
   The answer a query should get, by the meaning of each leaf and not by the
   generator's own tables: out-of-range leaves read as the highest basic leaf; a leaf
   with sub-leaves gives the processor's answer for those it has and zeros for others,
   or zeros only if it is not announced; any other leaf ignores the sub-leaf.
   */
  ghost function Direct(oracle: Oracle, maxBasic: nat, maxExtended: nat, leaf: nat, subleaf: nat): CpuIdResult {
    var l := if leaf <= maxBasic || 0x8000_0000 <= leaf <= maxExtended then leaf else maxBasic;
    if l !in {0x4, 0x7, 0xB, 0xD, 0xF, 0x10, 0x12, 0x14, 0x17, 0x18, 0x1B, 0x1F} then oracle(l, 0)
    else if Announced(oracle, l) && HasSubleaf(oracle, l, subleaf) then oracle(l, subleaf)
    else ZERO
  }

  lemma {:induction false} FirstStopExact(oracle: Oracle, leaf: nat, from: nat, n: nat)
    requires Dynamic(leaf) && from <= MAX_SUBLEAF && from <= n
    ensures n <= FirstStop(oracle, leaf, from) <==>
      n <= MAX_SUBLEAF && forall m :: from <= m < n ==> !Stops(leaf, m, oracle(leaf, m))
    decreases n - from
  {
    if from < n && from < MAX_SUBLEAF && !Stops(leaf, from, oracle(leaf, from)) {
      FirstStopExact(oracle, leaf, from + 1, n);
    }
  }

  lemma StopsExact(leaf: nat, m: nat, r: CpuIdResult)
    requires Dynamic(leaf)
    ensures Stops(leaf, m, r) <==> LastOne(leaf, m, r)
  {
    LowBits(r.eax);
    MiddleBits(r.ecx);
  }

  lemma LowBits(x: bv32)
    ensures x & 0x1F == 0 <==> x << 27 == 0
    ensures x & 0xF == 0 <==> x << 28 == 0
  {
  }

  lemma MiddleBits(x: bv32)
    ensures x & 0xFF00 == 0 <==> (x >> 8) << 24 == 0
  {
  }

  lemma AnnouncedExact(oracle: Oracle, leaf: nat)
    ensures Announced(oracle, leaf) <==> !Skipped(oracle, leaf)
  {
    BitTwo(oracle(0x7, 0).ebx);
    BitEighteen(oracle(0x7, 0).edx);
  }

  lemma BitTwo(x: bv32)
    ensures (x >> 2) % 2 == 1 <==> x & 0x4 != 0
  {
  }

  lemma BitEighteen(x: bv32)
    ensures (x >> 18) % 2 == 1 <==> x & 0x40000 != 0
  {
  }

  lemma MonitoringBit(x: bv32)
    ensures (x & 0x2) >> 1 == if (x >> 1) % 2 == 1 then 1 else 0
  {
  }

  lemma AllocationBits(x: bv32)
    ensures x & 0xE in {0x8, 0xA, 0xC, 0xE} <==> (x >> 3) % 2 == 1
    ensures (x >> 3) % 2 == 0 ==> (x & 0xE in {0x4, 0x6} <==> (x >> 2) % 2 == 1)
    ensures (x >> 3) % 2 == 0 && (x >> 2) % 2 == 0 ==> (x & 0xE == 0x2 <==> (x >> 1) % 2 == 1)
  {
  }

  lemma AllocationBound(oracle: Oracle, n: nat)
    ensures HasSubleaf(oracle, 0x10, n) <==> n <= MaxSubleaf(oracle, 0x10)
  {
    var ebx := oracle(0x10, 0).ebx;
    AllocationBits(ebx);
    assert ResourceBit(ebx, 3) <==> (ebx >> 3) % 2 == 1;
    assert ResourceBit(ebx, 2) <==> (ebx >> 2) % 2 == 1;
    assert ResourceBit(ebx, 1) <==> (ebx >> 1) % 2 == 1;
  }

  /** The generator's bound for a leaf is the last sub-leaf it has. */
  lemma SubleavesExact(oracle: Oracle, leaf: nat, n: nat)
    requires HasSubleaves(leaf)
    ensures HasSubleaf(oracle, leaf, n) <==> n <= MaxSubleaf(oracle, leaf)
  {
    if Dynamic(leaf) {
      FirstStopExact(oracle, leaf, 0, n);
      forall m: nat
        ensures Stops(leaf, m, oracle(leaf, m)) <==> LastOne(leaf, m, oracle(leaf, m))
      {
        StopsExact(leaf, m, oracle(leaf, m));
      }
    } else if leaf == 0x10 {
      AllocationBound(oracle, n);
    } else if leaf == 0xF {
      MonitoringBit(oracle(leaf, 0).edx);
    }
  }

  /** A key the generator asked for is looked up under itself, also where its answer is all zero. */
  lemma EnumeratedAnswer(inner: Table, oracle: Oracle, maxBasic: nat, maxExtended: nat, k: CpuIdInput)
    requires Generated(inner, oracle, maxBasic, maxExtended) && k in Enumerated(oracle, maxBasic, maxExtended)
    ensures GetCpuidInfo(inner, maxBasic, maxExtended, k.leaf, k.subleaf) == oracle(k.leaf, k.subleaf)
  {
    SubleafTableExact(k.leaf);
  }

  lemma OtherAnswer(inner: Table, oracle: Oracle, maxBasic: nat, maxExtended: nat, k: CpuIdInput)
    requires Generated(inner, oracle, maxBasic, maxExtended) && InRange(maxBasic, maxExtended, k.leaf)
    requires k !in Enumerated(oracle, maxBasic, maxExtended)
    ensures GetCpuidInfo(inner, maxBasic, maxExtended, k.leaf, k.subleaf) ==
      if HasSubleaves(k.leaf) then ZERO else oracle(k.leaf, 0)
  {
    if !HasSubleaves(k.leaf) {
      assert CpuIdInput(k.leaf, 0) in Enumerated(oracle, maxBasic, maxExtended);
    }
  }

  lemma EnumeratedExact(oracle: Oracle, maxBasic: nat, maxExtended: nat, k: CpuIdInput)
    requires InRange(maxBasic, maxExtended, k.leaf) && HasSubleaves(k.leaf)
    ensures k in Enumerated(oracle, maxBasic, maxExtended) <==>
      k.leaf <= maxBasic && Announced(oracle, k.leaf) && HasSubleaf(oracle, k.leaf, k.subleaf)
  {
    AnnouncedExact(oracle, k.leaf);
    SubleavesExact(oracle, k.leaf, k.subleaf);
  }

  /** For every processor and every query the cached answer is the direct one. */
  lemma CacheAgrees(inner: Table, oracle: Oracle, maxBasic: nat, maxExtended: nat, leaf: nat, subleaf: nat)
    requires Generated(inner, oracle, maxBasic, maxExtended)
    ensures GetCpuidInfo(inner, maxBasic, maxExtended, leaf, subleaf) == Direct(oracle, maxBasic, maxExtended, leaf, subleaf)
  {
    var k := CpuIdInput(if InRange(maxBasic, maxExtended, leaf) then leaf else maxBasic, subleaf);
    if HasSubleaves(k.leaf) {
      EnumeratedExact(oracle, maxBasic, maxExtended, k);
    }
    if k in Enumerated(oracle, maxBasic, maxExtended) {
      EnumeratedAnswer(inner, oracle, maxBasic, maxExtended, k);
    } else {
      OtherAnswer(inner, oracle, maxBasic, maxExtended, k);
    }
  }

  lemma AllAgree(inner: Table, oracle: Oracle, maxBasic: nat, maxExtended: nat)
    requires Generated(inner, oracle, maxBasic, maxExtended)
    ensures forall leaf, subleaf ::
      GetCpuidInfo(inner, maxBasic, maxExtended, leaf, subleaf) == Direct(oracle, maxBasic, maxExtended, leaf, subleaf)
  {
    forall leaf: nat, subleaf: nat
      ensures GetCpuidInfo(inner, maxBasic, maxExtended, leaf, subleaf) ==
        Direct(oracle, maxBasic, maxExtended, leaf, subleaf)
    {
      CacheAgrees(inner, oracle, maxBasic, maxExtended, leaf, subleaf);
    }
  }

  /** The generator runs over on a leaf exactly if the leaf has the greatest sub-leaf there is. */
  lemma RunsOverExact(oracle: Oracle, leaf: nat)
    ensures RunsOver(oracle, leaf) <==>
      && leaf in {0x4, 0x7, 0xB, 0xD, 0xF, 0x10, 0x12, 0x14, 0x17, 0x18, 0x1B, 0x1F}
      && Announced(oracle, leaf) && HasSubleaf(oracle, leaf, 0xFFFF_FFFF)
  {
    AnnouncedExact(oracle, leaf);
    if HasSubleaves(leaf) {
      SubleavesExact(oracle, leaf, 0xFFFF_FFFF);
    }
  }

  /** A processor that announces the greatest sub-leaf for leaf 7 makes the generator run over. */
  lemma SubleafOverflows() returns (oracle: Oracle)
    ensures RunsOver(oracle, 0x7)
  {
    oracle := (l, s) => CpuIdResult(0xFFFF_FFFF, 0, 0, 0);
    assert FirstBound(0x7, oracle(0x7, 0)) == MAX_SUBLEAF;
  }
}
