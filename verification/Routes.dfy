/** Longest-prefix match over the kernel's routing table, as the gateway lookup and the interface lookup do it.
    Addresses and masks are 32-bit words; the table prints them in little-endian byte order. */
module Routes {
  import opened Basics

  /** A row of the table: None stands for a field that does not parse. */
  datatype Row = Row(iface: string, destination: Option<bv32>, gateway: Option<bv32>, flags: bv16,
                     metric: Option<nat>, mask: Option<bv32>)

  // ---------------------------------------------------------------- masks

  /** Reverses the bytes. */
  function Swap(v: bv32): bv32 {
    (v >> 24) | ((v >> 8) & 0x0000_ff00) | ((v << 8) & 0x00ff_0000) | (v << 24)
  }

  function Half(v: bv32): bv32 { v >> 1 }

  function Meet(a: bv32, b: bv32): bv32 { a & b }

  function Join(a: bv32, b: bv32): bv32 { a | b }

  /** The bit p places from the front. */
  function Bit(p: nat): bv32 { if p == 0 then 0x8000_0000 else Half(Bit(p - 1)) }

  /** The mask with p leading ones. */
  function Mask(p: nat): bv32
    requires p <= 32
  {
    if p == 0 then 0 else Join(Mask(p - 1), Bit(p - 1))
  }

  /** The table's byte order is the opposite one. */
  lemma SwapBytes()
    ensures Swap(0xc0a8_6401) == 0x0164_a8c0
  {
  }

  lemma SwapTwice(v: bv32)
    ensures Swap(Swap(v)) == v
  {
  }

  lemma SwapMeet(a: bv32, b: bv32)
    ensures Swap(Meet(a, b)) == Meet(Swap(a), Swap(b))
  {
  }

  predicate Odd(v: bv32) { v & 1 == 1 }

  function Cleared(v: bv32): bv32 { v & (v - 1) }

  /** How many of the last k bits are set. */
  function OnesIn(v: bv32, k: nat): nat {
    if k == 0 then 0 else OnesIn(Half(v), k - 1) + (if Odd(v) then 1 else 0)
  }

  function Ones(v: bv32): nat { OnesIn(v, 32) }

  function Longer(low: bv32): bv32 { (low << 1) | 1 }

  /** The word with its last k bits set. */
  function Low(k: nat): bv32 { if k == 0 then 0 else Longer(Low(k - 1)) }

  predicate Fits(v: bv32, k: nat) { Meet(v, Low(k)) == v }

  lemma HalfLow(v: bv32, low: bv32)
    requires Meet(v, Longer(low)) == v
    ensures Meet(Half(v), low) == Half(v)
  {
  }

  lemma MaskedOut(v: bv32)
    ensures Meet(v, 0) == 0
  {
  }

  lemma FitsStep(v: bv32, k: nat)
    requires Fits(v, k) && v != 0
    ensures k > 0 && Fits(Half(v), k - 1)
  {
    hide Meet, Longer, Half;
    if k > 0 {
      HalfLow(v, Low(k - 1));
    } else {
      MaskedOut(v);
    }
  }

  lemma ClearOdd(v: bv32)
    requires Odd(v)
    ensures Half(Cleared(v)) == Half(v) && !Odd(Cleared(v))
  {
  }

  lemma ClearEven(v: bv32)
    requires !Odd(v) && v != 0
    ensures Half(v) != 0 && !Odd(Cleared(v)) && Half(Cleared(v)) == Cleared(Half(v))
  {
  }

  /** Clearing the lowest set bit takes away one of the ones. */
  lemma {:induction false} ClearLowestIn(v: bv32, k: nat)
    requires v != 0 && Fits(v, k)
    ensures OnesIn(Cleared(v), k) + 1 == OnesIn(v, k)
    decreases k
  {
    hide Half, Odd, Cleared, Fits;
    FitsStep(v, k);
    if Odd(v) {
      ClearOdd(v);
    } else {
      ClearEven(v);
      ClearLowestIn(Half(v), k - 1);
    }
  }

  lemma FitsAll(v: bv32)
    ensures Fits(v, 32)
  {
    assert Low(8) == 0xff;
    assert Low(16) == 0xffff;
    assert Low(24) == 0xff_ffff;
    assert Low(32) == 0xffff_ffff;
    assert Meet(v, 0xffff_ffff) == v;
  }

  lemma ClearLowest(v: bv32)
    requires v != 0
    ensures Ones(Cleared(v)) + 1 == Ones(v)
  {
    FitsAll(v);
    ClearLowestIn(v, 32);
  }

  lemma {:induction false} NoOnes(k: nat)
    ensures OnesIn(0, k) == 0
  {
    assert !Odd(0) && Half(0) == 0;
    if k > 0 {
      NoOnes(k - 1);
    }
  }

  /** The bit-clearing loop counts the ones of any mask. */
  method CountBits(mask: bv32) returns (bits: nat)
    ensures bits == Ones(mask)
  {
    hide Ones;
    bits := 0;
    var value := mask;
    while value != 0
      invariant bits + Ones(value) == Ones(mask)
      decreases Ones(value)
    {
      ClearLowest(value);
      value := value & (value - 1);
      bits := bits + 1;
    }
    NoneLeft();
  }

  lemma NoneLeft()
    ensures Ones(0) == 0
  {
    NoOnes(32);
  }

  // ---------------------------------------------------------------- contiguous masks

  predicate OneBit(b: bv32) { b != 0 && b & (b - 1) == 0 }

  /** Everything in front of a bit. */
  function Above(b: bv32): bv32 { !(b | (b - 1)) }

  lemma {:induction false} ZeroStays(p: nat, q: nat)
    requires p <= q && Bit(p) == 0
    ensures Bit(q) == 0
  {
    if p < q {
      ZeroStays(p, q - 1);
      HalfZero();
    }
  }

  lemma HalfZero()
    ensures Half(0) == 0 && Half(1) == 0
  {
  }

  lemma LastBit()
    ensures Bit(31) == 1
  {
    assert Bit(8) == 0x80_0000;
    assert Bit(16) == 0x8000;
    assert Bit(24) == 0x80;
  }

  lemma HalfBit(b: bv32)
    requires OneBit(b) && b != 1
    ensures OneBit(Half(b)) && Above(Half(b)) == Join(Above(b), b)
  {
  }

  lemma TopBit()
    ensures OneBit(0x8000_0000) && Above(0x8000_0000) == 0
  {
  }

  /** The mask is everything in front of the next bit. */
  lemma {:induction false} MaskShape(p: nat)
    requires p < 32
    ensures OneBit(Bit(p)) && Mask(p) == Above(Bit(p))
  {
    hide OneBit, Above, Join, Half;
    if p == 0 {
      TopBit();
    } else {
      MaskShape(p - 1);
      if Bit(p - 1) == 1 {
        HalfZero();
        ZeroStays(p, 31);
        LastBit();
        assert false;
      }
      HalfBit(Bit(p - 1));
    }
  }

  lemma JoinFacts(b: bv32)
    requires OneBit(b)
    ensures Join(Above(b), b) != 0 && Cleared(Join(Above(b), b)) == Above(b)
    ensures Meet(Swap(Above(b)), Swap(Join(Above(b), b))) == Swap(Above(b)) && Swap(Above(b)) != Swap(Join(Above(b), b))
  {
  }

  /** A contiguous mask has as many ones as its prefix is long. */
  lemma {:induction false} MaskOnes(p: nat)
    requires p <= 32
    ensures Ones(Mask(p)) == p
  {
    hide OneBit, Above, Join, Cleared, Ones;
    if p == 0 {
      NoneLeft();
    } else {
      MaskShape(p - 1);
      JoinFacts(Bit(p - 1));
      ClearLowest(Mask(p));
      MaskOnes(p - 1);
    }
  }

  /** The last k bits of a word read as a number, as an integer comparison does. */
  function NumberIn(v: bv32, k: nat): nat {
    if k == 0 then 0 else 2 * NumberIn(Half(v), k - 1) + (if Odd(v) then 1 else 0)
  }

  function Number(v: bv32): nat { NumberIn(v, 32) }

  lemma HalfMeet(a: bv32, b: bv32)
    requires Meet(a, b) == a
    ensures Meet(Half(a), Half(b)) == Half(a) && (Odd(a) ==> Odd(b))
  {
  }

  lemma HalvesDiffer(a: bv32, b: bv32)
    requires a != b
    ensures Half(a) != Half(b) || Odd(a) != Odd(b)
  {
  }

  /** More bits, greater number. */
  lemma {:induction false} MoreBits(a: bv32, b: bv32, k: nat)
    requires Meet(a, b) == a && Fits(a, k) && Fits(b, k)
    ensures NumberIn(a, k) <= NumberIn(b, k) && (a != b ==> NumberIn(a, k) < NumberIn(b, k))
    decreases k
  {
    hide Meet, Half, Odd, Fits;
    if k == 0 {
      FitsNothing(a);
      FitsNothing(b);
    } else {
      HalfMeet(a, b);
      FitsHalf(a, k);
      FitsHalf(b, k);
      MoreBits(Half(a), Half(b), k - 1);
      if a != b {
        HalvesDiffer(a, b);
      }
    }
  }

  lemma FitsNothing(v: bv32)
    requires Fits(v, 0)
    ensures v == 0
  {
    MaskedOut(v);
  }

  lemma FitsHalf(v: bv32, k: nat)
    requires Fits(v, k) && k > 0
    ensures Fits(Half(v), k - 1)
  {
    hide Meet, Longer, Half;
    HalfLow(v, Low(k - 1));
  }

  lemma MaskNext(p: nat)
    requires p < 32
    ensures Number(Swap(Mask(p))) < Number(Swap(Mask(p + 1)))
  {
    hide OneBit, Above, Join, Swap, Bit, Meet, Fits, NumberIn;
    assert Mask(p + 1) == Join(Mask(p), Bit(p));
    hide Mask;
    MaskShape(p);
    JoinFacts(Bit(p));
    FitsAll(Swap(Mask(p)));
    FitsAll(Swap(Mask(p + 1)));
    MoreBits(Swap(Mask(p)), Swap(Mask(p + 1)), 32);
  }

  lemma {:induction false} MaskGrows(p: nat, q: nat)
    requires p < q <= 32
    ensures Number(Swap(Mask(p))) < Number(Swap(Mask(q)))
  {
    hide Number, Swap, Mask;
    MaskNext(q - 1);
    if p < q - 1 {
      MaskGrows(p, q - 1);
    }
  }

  /** In the table's byte order contiguous masks are ordered as their prefix lengths. */
  lemma MaskOrder(p: nat, q: nat)
    requires p <= 32 && q <= 32
    ensures Number(Swap(Mask(p))) < Number(Swap(Mask(q))) <==> p < q
    ensures Number(Swap(Mask(p))) == Number(Swap(Mask(q))) <==> p == q
  {
    hide Swap, Mask, Number;
    if p < q {
      MaskGrows(p, q);
    } else if q < p {
      MaskGrows(q, p);
    }
  }

  predicate HasBit(v: bv32, b: bv32) { v & b != 0 }

  /** The first p bits agree. */
  predicate SamePrefix(a: bv32, b: bv32, p: nat) { forall i :: 0 <= i < p ==> (HasBit(a, Bit(i)) <==> HasBit(b, Bit(i))) }

  lemma JoinMeets(a: bv32, b: bv32, m: bv32, bit: bv32)
    requires OneBit(bit)
    ensures Meet(a, Join(m, bit)) == Meet(b, Join(m, bit))
       <==> Meet(a, m) == Meet(b, m) && (HasBit(a, bit) <==> HasBit(b, bit))
  {
    JoinSplits(a, b, m, bit);
    BitOrNothing(a, bit);
    BitOrNothing(b, bit);
  }

  lemma JoinSplits(a: bv32, b: bv32, m: bv32, n: bv32)
    ensures Meet(a, Join(m, n)) == Meet(b, Join(m, n)) <==> Meet(a, m) == Meet(b, m) && Meet(a, n) == Meet(b, n)
  {
    Differs(a, b, m);
    Differs(a, b, n);
    Differs(a, b, Join(m, n));
    NothingInJoin(a ^ b, m, n);
    hide Meet, Join;
  }

  lemma Differs(a: bv32, b: bv32, m: bv32)
    ensures Meet(a, m) == Meet(b, m) <==> Meet(a ^ b, m) == 0
  {
    if Meet(a, m) == Meet(b, m) {
      EqualMeets(a, b, m);
    }
    if Meet(a ^ b, m) == 0 {
      NoDifference(a, b, m);
    }
  }

  lemma EqualMeets(a: bv32, b: bv32, m: bv32)
    requires Meet(a, m) == Meet(b, m)
    ensures Meet(a ^ b, m) == 0
  {
  }

  lemma NoDifference(a: bv32, b: bv32, m: bv32)
    requires Meet(a ^ b, m) == 0
    ensures Meet(a, m) == Meet(b, m)
  {
  }

  lemma NothingInJoin(v: bv32, m: bv32, n: bv32)
    ensures Meet(v, Join(m, n)) == 0 <==> Meet(v, m) == 0 && Meet(v, n) == 0
  {
    JoinApart(v, m, n);
    NothingInEither(Meet(v, m), Meet(v, n));
    hide Meet, Join;
  }

  lemma JoinApart(v: bv32, m: bv32, n: bv32)
    ensures Meet(v, Join(m, n)) == Join(Meet(v, m), Meet(v, n))
  {
  }

  lemma NothingInEither(a: bv32, b: bv32)
    ensures Join(a, b) == 0 <==> a == 0 && b == 0
  {
  }

  lemma BitOrNothing(v: bv32, bit: bv32)
    requires OneBit(bit)
    ensures Meet(v, bit) == if HasBit(v, bit) then bit else 0
  {
  }

  /** Masking compares prefixes. */
  lemma {:induction false} MaskCompares(a: bv32, b: bv32, p: nat)
    requires p <= 32
    ensures Meet(a, Mask(p)) == Meet(b, Mask(p)) <==> SamePrefix(a, b, p)
  {
    hide OneBit, Join, HasBit, Half, Above, Meet;
    if p == 0 {
      MaskedOut(a);
      MaskedOut(b);
    } else {
      MaskCompares(a, b, p - 1);
      MaskShape(p - 1);
      JoinMeets(a, b, Mask(p - 1), Bit(p - 1));
    }
  }

  // ---------------------------------------------------------------- the gateway lookup

  const GATEWAY: bv16 := 2

  predicate IsGateway(r: Row) { r.flags & GATEWAY != 0 }

  predicate Readable(r: Row) { r.destination.Some? && r.gateway.Some? && r.metric.Some? && r.mask.Some? && r.gateway.value != 0 }

  lemma GatewayFlag(r: Row)
    ensures IsGateway(r) <==> r.flags & 2 == 2
  {
  }

  /** A gateway row that matches the target, all in the table's byte order. */
  predicate Eligible(r: Row, target: bv32) {
    IsGateway(r) && Readable(r) && Meet(target, r.mask.value) == Meet(r.destination.value, r.mask.value)
  }

  predicate Before(a: Row, b: Row)
    requires a.mask.Some? && a.metric.Some? && b.mask.Some? && b.metric.Some?
  {
    Number(a.mask.value) > Number(b.mask.value) || (Number(a.mask.value) == Number(b.mask.value) && a.metric.value <= b.metric.value)
  }

  predicate BestGateway(rows: seq<Row>, target: bv32, k: nat)
    requires k < |rows|
  {
    && Eligible(rows[k], target)
    && (forall j :: 0 <= j < |rows| && Eligible(rows[j], target) ==> Before(rows[k], rows[j]))
    && (forall j :: 0 <= j < k && Eligible(rows[j], target) ==> !Before(rows[j], rows[k]))
  }

  lemma BeforeOrder(a: Row, b: Row, c: Row)
    requires Readable(a) && Readable(b) && Readable(c)
    ensures Before(a, b) || Before(b, a)
    ensures Before(a, b) && Before(b, c) ==> Before(a, c)
  {
    hide Number;
  }

  lemma GatewayTaken(rows: seq<Row>, target: bv32, r: Row, k: nat)
    requires k < |rows| && BestGateway(rows, target, k) && Eligible(r, target) && !Before(rows[k], r)
    ensures BestGateway(rows + [r], target, |rows|)
  {
    hide Before;
    BeforeOrder(r, r, r);
    forall j | 0 <= j < |rows| && Eligible(rows[j], target) ensures Before(r, rows[j]) && !Before(rows[j], r) {
      BeforeOrder(r, rows[k], rows[j]);
      BeforeOrder(rows[k], rows[j], r);
    }
  }

  lemma GatewayKept(rows: seq<Row>, target: bv32, r: Row, k: nat)
    requires k < |rows| && BestGateway(rows, target, k) && (Eligible(r, target) ==> Before(rows[k], r))
    ensures BestGateway(rows + [r], target, k)
  {
    hide Before, Eligible;
  }

  lemma GatewayFirst(rows: seq<Row>, target: bv32, r: Row)
    requires Eligible(r, target) && forall j :: 0 <= j < |rows| ==> !Eligible(rows[j], target)
    ensures BestGateway(rows + [r], target, |rows|)
  {
    BeforeOrder(r, r, r);
    hide Before, Eligible;
  }

  method GatewayForDestination(rows: seq<Row>, target: bv32) returns (gateway: Option<bv32>)
    ensures gateway.None? <==> forall j :: 0 <= j < |rows| ==> !Eligible(rows[j], target)
    ensures gateway.Some? ==> exists k :: 0 <= k < |rows| && BestGateway(rows, target, k) && gateway == rows[k].gateway
  {
    hide Meet, IsGateway, BestGateway, Number;
    var bestGateway: bv32, bestMask, bestMetric := 0, 0, 0xffff_ffff_ffff_ffff;
    var found := false;
    ghost var chosen := 0;
    for i := 0 to |rows|
      invariant !found ==> forall j :: 0 <= j < i ==> !Eligible(rows[j], target)
      invariant found ==> chosen < i && Readable(rows[chosen]) && BestGateway(rows[..i], target, chosen)
      invariant found ==> rows[chosen].gateway.value == bestGateway && Number(rows[chosen].mask.value) == bestMask
                          && rows[chosen].metric.value == bestMetric
    {
      var r := rows[i];
      assert rows[..i + 1] == rows[..i] + [r];
      assert found ==> rows[..i][chosen] == rows[chosen];
      if !IsGateway(r) || !Readable(r) || Meet(target, r.mask.value) != Meet(r.destination.value, r.mask.value) {
        if found {
          GatewayKept(rows[..i], target, r, chosen);
        }
        continue;
      }
      var mask := Number(r.mask.value);
      if found && (mask < bestMask || (mask == bestMask && r.metric.value >= bestMetric)) {
        GatewayKept(rows[..i], target, r, chosen);
        continue;
      }
      if found {
        GatewayTaken(rows[..i], target, r, chosen);
      } else {
        GatewayFirst(rows[..i], target, r);
      }
      found, bestGateway, bestMask, bestMetric := true, r.gateway.value, mask, r.metric.value;
      chosen := i;
    }
    assert rows[..|rows|] == rows;
    gateway := if found then Some(bestGateway) else None;
    if found {
      GatewayEligible(rows, target, chosen);
    }
  }

  lemma GatewayEligible(rows: seq<Row>, target: bv32, k: nat)
    requires k < |rows| && BestGateway(rows, target, k)
    ensures Eligible(rows[k], target)
  {
  }

  /** Every mask in the table is contiguous: p gives the prefix lengths. */
  predicate Contiguous(rows: seq<Row>, p: seq<nat>) {
    |p| == |rows| && forall i :: 0 <= i < |rows| && rows[i].mask.Some? ==> p[i] <= 32 && rows[i].mask.value == Swap(Mask(p[i]))
  }

  /** A gateway row whose first p bits are the target's. */
  predicate Covers(r: Row, target: bv32, p: nat) {
    IsGateway(r) && Readable(r) && SamePrefix(Swap(target), Swap(r.destination.value), p)
  }

  lemma EligibleCovers(r: Row, target: bv32, p: nat)
    requires p <= 32 && (r.mask.Some? ==> r.mask.value == Swap(Mask(p)))
    ensures Eligible(r, target) <==> Covers(r, target, p)
  {
    hide SamePrefix, IsGateway, Mask;
    if Readable(r) {
      SwapMeet(target, r.mask.value);
      SwapMeet(r.destination.value, r.mask.value);
      SwapTwice(Mask(p));
      SwapInjective(Meet(target, r.mask.value), Meet(r.destination.value, r.mask.value));
      hide Meet, Swap;
      MaskCompares(Swap(target), Swap(r.destination.value), p);
    }
  }

  lemma SwapInjective(a: bv32, b: bv32)
    ensures Swap(a) == Swap(b) <==> a == b
  {
    SwapTwice(a);
    SwapTwice(b);
  }

  /** The gateway chosen has the longest matching prefix and, among those of that length, the least metric;
      the first such row wins. */
  lemma LongestGateway(rows: seq<Row>, p: seq<nat>, target: bv32, k: nat)
    requires Contiguous(rows, p) && k < |rows| && BestGateway(rows, target, k)
    ensures Covers(rows[k], target, p[k])
    ensures forall j :: 0 <= j < |rows| && Covers(rows[j], target, p[j]) ==>
              p[j] < p[k] || (p[j] == p[k] && rows[k].metric.value <= rows[j].metric.value)
    ensures forall j :: 0 <= j < k && Covers(rows[j], target, p[j]) ==>
              p[j] < p[k] || (p[j] == p[k] && rows[k].metric.value < rows[j].metric.value)
  {
    EligibleCovers(rows[k], target, p[k]);
    hide Covers, Swap, Mask, Meet, IsGateway, Number;
    forall j | 0 <= j < |rows| && Covers(rows[j], target, p[j])
      ensures p[j] < p[k] || (p[j] == p[k] && rows[k].metric.value <= rows[j].metric.value)
      ensures j < k ==> p[j] < p[k] || (p[j] == p[k] && rows[k].metric.value < rows[j].metric.value)
    {
      EligibleCovers(rows[j], target, p[j]);
      MaskOrder(p[j], p[k]);
    }
  }

  // ---------------------------------------------------------------- the interface lookup

  /** Both fields are turned into network byte order; the destination must have nothing behind its mask. */
  predicate Routed(r: Row, address: bv32) {
    r.destination.Some? && r.mask.Some? && Meet(address, Swap(r.mask.value)) == Swap(r.destination.value)
  }

  function Length(r: Row): nat
    requires r.mask.Some?
  {
    Ones(Swap(r.mask.value))
  }

  predicate FirstLongest(rows: seq<Row>, address: bv32, k: nat)
    requires k < |rows|
  {
    && Routed(rows[k], address)
    && (forall j :: 0 <= j < |rows| && Routed(rows[j], address) ==> Length(rows[j]) <= Length(rows[k]))
    && (forall j :: 0 <= j < k && Routed(rows[j], address) ==> Length(rows[j]) < Length(rows[k]))
  }

  method RouteInterface(rows: seq<Row>, address: bv32) returns (name: string)
    ensures (forall j :: 0 <= j < |rows| ==> !Routed(rows[j], address)) ==> name == ""
    ensures (exists j :: 0 <= j < |rows| && Routed(rows[j], address)) ==>
              exists k :: 0 <= k < |rows| && FirstLongest(rows, address, k) && name == rows[k].iface
  {
    hide Meet, Swap, Ones;
    var bestBits: int := -1;
    name := "";
    ghost var chosen: Option<nat> := None;
    for i := 0 to |rows|
      invariant chosen.None? ==> bestBits == -1 && name == "" && forall j :: 0 <= j < i ==> !Routed(rows[j], address)
      invariant chosen.Some? ==> chosen.value < i && FirstLongest(rows[..i], address, chosen.value)
      invariant chosen.Some? ==> name == rows[chosen.value].iface && bestBits == Length(rows[chosen.value])
    {
      var r := rows[i];
      assert rows[..i + 1] == rows[..i] + [r];
      if r.destination.None? || r.mask.None? {
        continue;
      }
      var destination, mask := Swap(r.destination.value), Swap(r.mask.value);
      if Meet(address, mask) != destination {
        continue;
      }
      var bits := CountBits(mask);
      if bits > bestBits {
        name, bestBits := r.iface, bits;
        chosen := Some(i);
      }
    }
    assert rows[..|rows|] == rows;
  }

  /** Nothing is set behind the prefix. */
  predicate Trimmed(destination: bv32, p: nat)
    requires p <= 32
  {
    Meet(destination, Mask(p)) == destination
  }

  lemma MeetTwice(a: bv32, m: bv32)
    ensures Meet(Meet(a, m), m) == Meet(a, m)
  {
  }

  lemma RoutedCovers(r: Row, address: bv32, p: nat)
    requires p <= 32 && r.mask == Some(Swap(Mask(p))) && r.destination.Some?
    ensures Routed(r, address)
       <==> Trimmed(Swap(r.destination.value), p) && SamePrefix(address, Swap(r.destination.value), p)
    ensures Length(r) == p
  {
    hide Mask, SamePrefix, Ones;
    SwapTwice(Mask(p));
    hide Swap, Meet;
    MaskOnes(p);
    MaskCompares(address, Swap(r.destination.value), p);
    MeetTwice(address, Mask(p));
  }

  predicate Leads(r: Row, address: bv32, p: nat)
    requires p <= 32
  {
    r.destination.Some? && r.mask.Some? && Trimmed(Swap(r.destination.value), p)
    && SamePrefix(address, Swap(r.destination.value), p)
  }

  /** The interface is that of the first row with the longest matching prefix. */
  lemma LongestInterface(rows: seq<Row>, p: seq<nat>, address: bv32, k: nat)
    requires Contiguous(rows, p) && k < |rows| && FirstLongest(rows, address, k)
    ensures p[k] <= 32 && Leads(rows[k], address, p[k])
    ensures forall j :: 0 <= j < |rows| && p[j] <= 32 && Leads(rows[j], address, p[j]) ==> p[j] <= p[k] && (j < k ==> p[j] < p[k])
  {
    hide Swap, Mask, SamePrefix, Ones, Meet;
    RoutedCovers(rows[k], address, p[k]);
    forall j | 0 <= j < |rows| && p[j] <= 32 && Leads(rows[j], address, p[j]) ensures p[j] <= p[k] && (j < k ==> p[j] < p[k]) {
      RoutedCovers(rows[j], address, p[j]);
    }
  }

  /** Over one table the interface lookup never settles for a shorter prefix than the gateway lookup, as long
      as the gateway's row has nothing behind its mask. */
  lemma LookupsAgree(rows: seq<Row>, p: seq<nat>, target: bv32, g: nat, i: nat)
    requires Contiguous(rows, p) && g < |rows| && i < |rows|
    requires BestGateway(rows, target, g) && FirstLongest(rows, Swap(target), i)
    requires rows[g].mask.Some? && rows[g].destination.Some? ==> Trimmed(Swap(rows[g].destination.value), p[g])
    ensures p[g] <= p[i]
  {
    hide Swap, Mask, SamePrefix, Ones, Meet, IsGateway;
    EligibleCovers(rows[g], target, p[g]);
    LongestInterface(rows, p, Swap(target), i);
  }
}
