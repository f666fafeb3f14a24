/** ICE candidate priorities: section 4.1.2.1 of RFC 5245, packed with shifts and ORs. */
module CandidatePriority {
  import opened Basics

  const MAX_TURN_SERVERS: nat := 32

  // ---------------------------------------------------------------- bitwise or

  /** Bitwise or, bit by bit from the lowest. */
  function Or(a: nat, b: nat): nat {
    if a == 0 && b == 0 then 0
    else 2 * Or(a / 2, b / 2) + if a % 2 == 1 || b % 2 == 1 then 1 else 0
  }

  function Pow2(k: nat): nat {
    if k == 0 then 1 else 2 * Pow2(k - 1)
  }

  function ShiftLeft(x: nat, k: nat): nat {
    x * Pow2(k)
  }

  lemma {:induction false} OrZero(a: nat)
    ensures Or(a, 0) == a
  {
    if a != 0 {
      OrZero(a / 2);
    }
  }

  /** A shifted number and one that fits below the shift share no bit: or adds them. */
  lemma {:induction false} OrBelowShift(q: nat, b: nat, k: nat)
    requires b < Pow2(k)
    ensures Or(ShiftLeft(q, k), b) == ShiftLeft(q, k) + b
  {
    if k == 0 {
      OrZero(q);
    } else {
      var y := ShiftLeft(q, k - 1);
      assert ShiftLeft(q, k) == 2 * y;
      OrBelowShift(q, b / 2, k - 1);
    }
  }

  lemma Powers()
    ensures Pow2(8) == 0x100 && Pow2(24) == 0x1000000
  {
    assert Pow2(2) == 4 && Pow2(4) == 16 && Pow2(6) == 64 && Pow2(8) == 256;
    assert Pow2(10) == 1024 && Pow2(12) == 4096 && Pow2(14) == 16384 && Pow2(16) == 65536;
    assert Pow2(18) == 262144 && Pow2(20) == 1048576 && Pow2(22) == 4194304;
  }

  // ---------------------------------------------------------------- the computation

  /** What a priority is computed from. relayed tells whether the candidate has a relay protocol. */
  datatype Inputs = Inputs(
    typePreference: nat,
    adapterPreference: nat,
    addressPrecedence: nat,
    relayPreference: nat,
    component: nat,
    relayed: bool,
    adjust: bool)

  /** The ranges of section 4.1.2.1 and of the callers. */
  predicate InRange(x: Inputs) {
    && x.typePreference <= 126
    && x.adapterPreference <= 127
    && x.addressPrecedence <= 255
    && x.relayPreference <= 32
    && 1 <= x.component <= 256
  }

  function BasePreference(x: Inputs): nat {
    Or(ShiftLeft(x.adapterPreference, 8), x.addressPrecedence) + x.relayPreference
  }

  function LocalPreference(x: Inputs): nat {
    if x.adjust && !x.relayed then BasePreference(x) + MAX_TURN_SERVERS else BasePreference(x)
  }

  function GetPriority(x: Inputs): Outcome<nat>
    requires x.component <= 256
  {
    if BasePreference(x) + MAX_TURN_SERVERS >= 0x10000 then CheckFailed
    else Ok(Pack(x.typePreference, LocalPreference(x), x.component))
  }

  function Pack(typePreference: nat, localPreference: nat, component: nat): nat
    requires component <= 256
  {
    Or(Or(ShiftLeft(typePreference, 24), ShiftLeft(localPreference, 8)), 256 - component)
  }

  // ---------------------------------------------------------------- the weighted sum

  /** In range, the local preference fits its 16 bits and the check passes. */
  lemma LocalPreferenceFits(x: Inputs)
    requires InRange(x)
    ensures BasePreference(x) == 256 * x.adapterPreference + x.addressPrecedence + x.relayPreference
    ensures LocalPreference(x) < 0x10000
    ensures GetPriority(x) == Ok(Pack(x.typePreference, LocalPreference(x), x.component))
  {
    Powers();
    OrBelowShift(x.adapterPreference, x.addressPrecedence, 8);
  }

  /** The ORs add up to the weighted sum of the RFC. */
  lemma PackIsWeightedSum(t: nat, l: nat, c: nat)
    requires l < 0x10000 && 1 <= c <= 256
    ensures Pack(t, l, c) == 0x1000000 * t + 0x100 * l + (256 - c)
  {
    HighPart(t, l);
    Powers();
    OrBelowShift(0x10000 * t + l, 256 - c, 8);
  }

  /** Component 0 spills into the local preference: the ORs then add up exactly if that is even. */
  lemma ComponentZeroSpills(t: nat, l: nat)
    requires l < 0x10000
    ensures Pack(t, l, 0) == 0x1000000 * t + 0x100 * l + 256 <==> l % 2 == 0
  {
    PackOfComponentZero(t, l);
  }

  lemma SameParity(t: nat, l: nat)
    ensures (0x10000 * t + l) % 2 == l % 2
  {
    assert 0x10000 * t + l == 2 * (0x8000 * t) + l;
  }

  lemma PackOfComponentZero(t: nat, l: nat)
    requires l < 0x10000
    ensures Pack(t, l, 0) == 0x1000000 * t + 0x100 * l + 0x100 * (1 - l % 2)
  {
    var high := 0x10000 * t + l;
    HighPart(t, l);
    OrOfShifted(high, 1, 8);
    Powers();
    OrOne(high);
    SameParity(t, l);
  }

  /** Type and local preference, put together and shifted as one. */
  lemma HighPart(t: nat, l: nat)
    requires l < 0x10000
    ensures Or(ShiftLeft(t, 24), ShiftLeft(l, 8)) == ShiftLeft(0x10000 * t + l, 8)
  {
    Powers();
    OrBelowShift(t, ShiftLeft(l, 8), 24);
  }

  lemma OrOfDoubles(a: nat, b: nat)
    ensures Or(2 * a, 2 * b) == 2 * Or(a, b)
  {
  }

  lemma {:induction false} OrOfShifted(a: nat, b: nat, k: nat)
    ensures Or(ShiftLeft(a, k), ShiftLeft(b, k)) == ShiftLeft(Or(a, b), k)
  {
    if k > 0 {
      OrOfShifted(a, b, k - 1);
      OrOfDoubles(ShiftLeft(a, k - 1), ShiftLeft(b, k - 1));
      Doubling(a, k);
      Doubling(b, k);
      Doubling(Or(a, b), k);
    }
  }

  lemma Doubling(a: nat, k: nat)
    requires k > 0
    ensures ShiftLeft(a, k) == 2 * ShiftLeft(a, k - 1)
  {
  }

  lemma OrOne(a: nat)
    ensures Or(a, 1) == a + 1 - a % 2
  {
    OrZero(a / 2);
  }

  lemma Digits(t: nat, l: nat, d: nat, s: nat)
    requires l < 0x10000 && d < 0x100 && s == 0x1000000 * t + 0x100 * l + d
    ensures s % 0x100 == d && s / 0x100 == 0x10000 * t + l
    ensures s % 0x1000000 == 0x100 * l + d && s / 0x1000000 == t
  {
    LowByte(s, 0x10000 * t + l, d);
    LowThreeBytes(s, t, 0x100 * l + d);
  }

  lemma LowByte(s: nat, q: nat, r: nat)
    requires s == 0x100 * q + r && r < 0x100
    ensures s % 0x100 == r && s / 0x100 == q
  {
  }

  lemma LowTwoBytes(s: nat, q: nat, r: nat)
    requires s == 0x10000 * q + r && r < 0x10000
    ensures s % 0x10000 == r && s / 0x10000 == q
  {
  }

  lemma LowThreeBytes(s: nat, q: nat, r: nat)
    requires s == 0x1000000 * q + r && r < 0x1000000
    ensures s % 0x1000000 == r && s / 0x1000000 == q
  {
  }

  lemma SumDecodes(t: nat, l: nat, d: nat, s: nat)
    requires l < 0x10000 && d < 0x100 && s == 0x1000000 * t + 0x100 * l + d
    ensures s / 0x1000000 == t && s / 0x100 % 0x10000 == l && s % 0x100 == d
  {
    Digits(t, l, d, s);
    LowTwoBytes(s / 0x100, t, l);
  }

  /** The three fields can be read back. */
  lemma PackDecodes(t: nat, l: nat, c: nat)
    requires l < 0x10000 && 1 <= c <= 256
    ensures Pack(t, l, c) / 0x1000000 == t
    ensures Pack(t, l, c) / 0x100 % 0x10000 == l
    ensures 256 - Pack(t, l, c) % 0x100 == c
  {
    PackIsWeightedSum(t, l, c);
    SumDecodes(t, l, 256 - c, Pack(t, l, c));
  }

  /** A priority is the weighted sum, fits 31 bits, and determines type preference, local preference and component. */
  lemma PriorityIsTheWeightedSum(x: Inputs)
    requires InRange(x)
    ensures GetPriority(x) == Ok(0x1000000 * x.typePreference + 0x100 * LocalPreference(x) + (256 - x.component))
    ensures GetPriority(x).value < 0x80000000
  {
    LocalPreferenceFits(x);
    PackIsWeightedSum(x.typePreference, LocalPreference(x), x.component);
  }

  /** The same on the inputs: the local preference is made of adapter, address and server preference, and with the
      adjustment candidates that are not relayed are put ahead by the 32 servers there can be. */
  lemma PriorityOnInputs(x: Inputs)
    requires InRange(x)
    ensures var local := 256 * x.adapterPreference + x.addressPrecedence + x.relayPreference +
                         if x.adjust && !x.relayed then 32 else 0;
            GetPriority(x) == Ok(0x1000000 * x.typePreference + 0x100 * local + 256 - x.component)
  {
    LocalPreferenceFits(x);
    PriorityIsTheWeightedSum(x);
  }

  /** The check on the local preference fires exactly if 32 more would not fit its 16 bits. */
  lemma PriorityIsRefusedExactlyWhen(x: Inputs)
    requires x.component <= 256 && x.addressPrecedence <= 255
    ensures GetPriority(x).CheckFailed? <==>
            256 * x.adapterPreference + x.addressPrecedence + x.relayPreference + 32 > 65535
  {
    Powers();
    OrBelowShift(x.adapterPreference, x.addressPrecedence, 8);
  }

  /** Priorities compare by type preference, then local preference, then lower component. */
  lemma PriorityIsLexicographic(x: Inputs, y: Inputs)
    requires InRange(x) && InRange(y)
    ensures GetPriority(x).Ok? && GetPriority(y).Ok?
    ensures GetPriority(x).value < GetPriority(y).value <==>
            || x.typePreference < y.typePreference
            || (x.typePreference == y.typePreference &&
                (|| LocalPreference(x) < LocalPreference(y)
                 || (LocalPreference(x) == LocalPreference(y) && x.component > y.component)))
    ensures GetPriority(x) == GetPriority(y) <==>
            && x.typePreference == y.typePreference
            && LocalPreference(x) == LocalPreference(y) && x.component == y.component
  {
    LocalPreferenceFits(x);
    LocalPreferenceFits(y);
    PriorityIsTheWeightedSum(x);
    PriorityIsTheWeightedSum(y);
  }

  // ---------------------------------------------------------------- relays

  /** The STUN priority attribute of section 7.1.2.1: the peer-reflexive type preference over the low 24 bits. */
  function StunPriority(peerReflexivePreference: nat, priority: nat): nat {
    Or(ShiftLeft(peerReflexivePreference, 24), priority % 0x1000000)
  }

  lemma StunPriorityIsSum(p: nat, x: Inputs)
    requires InRange(x)
    ensures GetPriority(x).Ok?
    ensures StunPriority(p, GetPriority(x).value) == 0x1000000 * p + 0x100 * LocalPreference(x) + (256 - x.component)
  {
    LocalPreferenceFits(x);
    PriorityIsTheWeightedSum(x);
    var s := GetPriority(x).value;
    Digits(x.typePreference, LocalPreference(x), 256 - x.component, s);
    Powers();
    OrBelowShift(p, s % 0x1000000, 24);
  }

  /** Between a relay and a non-relay candidate with equal adapter, address and component, the relay's attribute is no
      higher exactly if the adjustment is on or its server preference is no higher. */
  lemma RelayIsNotAheadExactlyWhen(relay: Inputs, direct: Inputs, p: nat)
    requires InRange(relay) && InRange(direct) && relay.relayed && !direct.relayed
    requires relay.adapterPreference == direct.adapterPreference
    requires relay.addressPrecedence == direct.addressPrecedence && relay.component == direct.component
    requires relay.adjust == direct.adjust
    ensures GetPriority(relay).Ok? && GetPriority(direct).Ok?
    ensures StunPriority(p, GetPriority(relay).value) <= StunPriority(p, GetPriority(direct).value) <==>
            relay.adjust || relay.relayPreference <= direct.relayPreference
  {
    LocalPreferenceFits(relay);
    LocalPreferenceFits(direct);
    PriorityIsTheWeightedSum(relay);
    PriorityIsTheWeightedSum(direct);
    StunPriorityIsSum(p, relay);
    StunPriorityIsSum(p, direct);
  }
}
