/** Identifiers of statistics reports: when two are equal, and when they print the same. */
module StatsIds {

  datatype StatsType =
    | Session | Transport | ComponentType | CandidatePairType | Bwe | Ssrc | RemoteSsrc | Track
    | IceLocalCandidate | IceRemoteCandidate | Certificate | DataChannel

  datatype Direction = Send | Receive

  /** One constructor per class of identifier. */
  datatype Id =
    | BandwidthEstimationId
    | TypedId(statsType: StatsType, id: string)
    | TypedIntId(statsType: StatsType, number: int)
    | IdWithDirection(statsType: StatsType, id: string, direction: Direction)
    | CandidateId(local: bool, id: string)
    | ComponentId(contentName: string, component: int)
    | CandidatePairId(contentName: string, component: int, index: int)

  function TypeOf(a: Id): StatsType {
    match a
    case BandwidthEstimationId => Bwe
    case TypedId(t, _) => t
    case TypedIntId(t, _) => t
    case IdWithDirection(t, _, _) => t
    case CandidateId(local, _) => if local then IceLocalCandidate else IceRemoteCandidate
    case ComponentId(_, _) => ComponentType
    case CandidatePairId(_, _, _) => CandidatePairType
  }

  /** The class of an identifier is fixed by its type, as the collector of these statistics uses them. */
  predicate Valid(a: Id) {
    match a
    case TypedId(t, _) => t in {Session, Transport, Track, Certificate}
    case TypedIntId(t, _) => t == DataChannel
    case IdWithDirection(t, _, _) => t in {Ssrc, RemoteSsrc}
    case _ => true
  }

  /** Equals: each class first compares the types and then casts the other to itself. */
  predicate Equals(a: Id, b: Id)
    requires Valid(a) && Valid(b)
  {
    TypeOf(a) == TypeOf(b) &&
    match a
    case BandwidthEstimationId => true
    case TypedId(_, id) => b.id == id
    case TypedIntId(_, n) => b.number == n
    case IdWithDirection(_, id, d) => b.id == id && b.direction == d
    case CandidateId(_, id) => b.id == id
    case ComponentId(name, c) => b.component == c && b.contentName == name
    case CandidatePairId(name, c, i) => b.component == c && b.contentName == name && b.index == i
  }

  lemma EqualsIsEquality(a: Id, b: Id)
    requires Valid(a) && Valid(b)
    ensures Equals(a, b) <==> a == b
  {
  }

  // ---------------------------------------------------------------- printing

  function TypeToString(t: StatsType): string {
    match t
    case Session => "googLibjingleSession"
    case Bwe => "VideoBwe"
    case RemoteSsrc => "remoteSsrc"
    case Ssrc => "ssrc"
    case Track => "googTrack"
    case IceLocalCandidate => "localcandidate"
    case IceRemoteCandidate => "remotecandidate"
    case Transport => "transport"
    case ComponentType => "googComponent"
    case CandidatePairType => "googCandidatePair"
    case Certificate => "googCertificate"
    case DataChannel => "datachannel"
  }

  function Digit(n: nat): char
    requires n < 10
  {
    "0123456789"[n]
  }

  function NatToString(n: nat): string {
    if n < 10 then [Digit(n)] else NatToString(n / 10) + [Digit(n % 10)]
  }

  function IntToString(n: int): string {
    if n < 0 then "-" + NatToString(-n) else NatToString(n)
  }

  function ToString(a: Id): string {
    match a
    case BandwidthEstimationId => "bweforvideo"
    case TypedId(t, id) => TypeToString(t) + "_" + id
    case TypedIntId(t, n) => TypeToString(t) + "_" + IntToString(n)
    case IdWithDirection(t, id, d) => TypeToString(t) + "_" + id + "_" + if d.Send? then "send" else "recv"
    case CandidateId(_, id) => "Cand-" + id
    case ComponentId(name, c) => "Channel-" + name + "-" + IntToString(c)
    case CandidatePairId(name, c, i) => "Conn-" + name + "-" + IntToString(c) + "-" + IntToString(i)
  }

  // ---------------------------------------------------------------- splitting printed forms

  /** A text is cut at its last separator in one way only. */
  lemma LastSeparator(c: char, x: string, a: string, y: string, b: string)
    requires c !in a && c !in b
    requires x + [c] + a == y + [c] + b
    ensures x == y && a == b
  {
    var s, t := x + [c] + a, y + [c] + b;
    assert s[|x|] == c && t[|y|] == c;
    assert |x| == |y|;
    assert x == s[..|x|] == t[..|y|] == y;
    assert a == s[|x| + 1..] == t[|y| + 1..] == b;
  }

  /** And at its first. */
  lemma FirstSeparator(c: char, a: string, x: string, b: string, y: string)
    requires c !in a && c !in b
    requires a + [c] + x == b + [c] + y
    ensures a == b && x == y
  {
    var s, t := a + [c] + x, b + [c] + y;
    assert s[|a|] == c && t[|b|] == c;
    assert |a| == |b|;
    assert a == s[..|a|] == t[..|b|] == b;
    assert x == s[|a| + 1..] == t[|b| + 1..] == y;
  }

  predicate AllDigits(s: string) {
    forall i :: 0 <= i < |s| ==> '0' <= s[i] <= '9'
  }

  lemma {:induction false} NatPrintsDigits(n: nat)
    ensures NatToString(n) != [] && AllDigits(NatToString(n))
  {
    if n >= 10 {
      NatPrintsDigits(n / 10);
    }
  }

  /** The number a string of digits stands for; reading back what was printed. */
  function Reading(s: string): nat
    requires AllDigits(s)
  {
    if s == [] then 0
    else
      10 * Reading(s[..|s| - 1]) + (s[|s| - 1] as int - '0' as int)
  }

  lemma {:induction false} NatReadsBack(n: nat)
    ensures AllDigits(NatToString(n)) && Reading(NatToString(n)) == n
  {
    NatPrintsDigits(n);
    if n >= 10 {
      NatReadsBack(n / 10);
      var s := NatToString(n);
      assert s[..|s| - 1] == NatToString(n / 10);
    }
  }

  function Abs(n: int): nat {
    if n < 0 then -n else n
  }

  /** The sign of a negative number reads as the end of whatever is printed before it. */
  function Signed(s: string, n: int): string {
    if n < 0 then s + "-" else s
  }

  lemma DashedNumber(x: string, m: int, y: string, n: int)
    ensures x + "-" + IntToString(m) == y + "-" + IntToString(n) <==> Signed(x, m) == Signed(y, n) && Abs(m) == Abs(n)
  {
    var a, b := NatToString(Abs(m)), NatToString(Abs(n));
    NatReadsBack(Abs(m));
    NatReadsBack(Abs(n));
    assert '-' !in a && '-' !in b;
    assert x + "-" + IntToString(m) == Signed(x, m) + "-" + a;
    assert y + "-" + IntToString(n) == Signed(y, n) + "-" + b;
    if Signed(x, m) + "-" + a == Signed(y, n) + "-" + b {
      LastSeparator('-', Signed(x, m), a, Signed(y, n), b);
    }
  }

  // ---------------------------------------------------------------- which identifiers print the same

  /** A negative component prints like its absolute value after a name that ends in a dash. */
  predicate ComponentsClash(x: string, m: int, y: string, n: int) {
    m == -n && ((m < 0 && y == x + "-") || (n < 0 && x == y + "-"))
  }

  /** The distinct identifiers that share a printed form. */
  predicate Clash(a: Id, b: Id) {
    || (a.CandidateId? && b.CandidateId? && a.id == b.id && a.local != b.local)
    || (a.ComponentId? && b.ComponentId? && ComponentsClash(a.contentName, a.component, b.contentName, b.component))
    || (a.CandidatePairId? && b.CandidatePairId? && a.index == b.index
        && ComponentsClash(a.contentName, a.component, b.contentName, b.component))
  }

  lemma ComponentsPrintTheSameExactlyWhen(x: string, m: int, y: string, n: int)
    ensures x + "-" + IntToString(m) == y + "-" + IntToString(n) <==>
            (x == y && m == n) || ComponentsClash(x, m, y, n)
  {
    DashedNumber(x, m, y, n);
    if m < 0 && n < 0 && x + "-" == y + "-" {
      assert x == (x + "-")[..|x|] == (y + "-")[..|y|] == y;
    }
  }

  lemma EndsInADigit(x: string, m: int)
    ensures var s := x + "-" + IntToString(m);
            s[|s| - 1] != '-'
  {
    NatPrintsDigits(Abs(m));
  }

  lemma PairsPrintTheSameExactlyWhen(x: string, m: int, i: int, y: string, n: int, j: int)
    ensures x + "-" + IntToString(m) + "-" + IntToString(i) == y + "-" + IntToString(n) + "-" + IntToString(j) <==>
            i == j && ((x == y && m == n) || ComponentsClash(x, m, y, n))
  {
    var s, t := x + "-" + IntToString(m), y + "-" + IntToString(n);
    DashedNumber(s, i, t, j);
    ComponentsPrintTheSameExactlyWhen(x, m, y, n);
    EndsInADigit(x, m);
    EndsInADigit(y, n);
    assert (s + "-")[|s|] == '-' && (t + "-")[|t|] == '-';
    if i < 0 && j < 0 && s + "-" == t + "-" {
      assert s == (s + "-")[..|s|] == (t + "-")[..|t|] == t;
    }
  }

  /** Cutting off the same beginning. */
  lemma SamePrefix(p: string, x: string, y: string)
    ensures p + x == p + y <==> x == y
  {
    assert (p + x)[|p|..] == x && (p + y)[|p|..] == y;
  }

  lemma SameSuffixLength(x: string, a: string, y: string, b: string)
    requires |a| == |b|
    ensures x + a == y + b <==> x == y && a == b
  {
    if x + a == y + b {
      assert x == (x + a)[..|x|] && y == (y + b)[..|y|];
      assert a == (x + a)[|x|..] && b == (y + b)[|y|..];
    }
  }

  predicate Tagged(a: Id) {
    a.TypedId? || a.TypedIntId? || a.IdWithDirection?
  }

  /** What a tagged identifier prints after its tag. */
  function Body(a: Id): string
    requires Tagged(a)
  {
    match a
    case TypedId(_, id) => id
    case TypedIntId(_, n) => IntToString(n)
    case IdWithDirection(_, id, d) => id + "_" + if d.Send? then "send" else "recv"
  }

  /** Length and first letter tell the tags apart. */
  function TagShape(t: StatsType): (nat, char) {
    match t
    case Session => (20, 'g')
    case Bwe => (8, 'V')
    case RemoteSsrc => (10, 'r')
    case Ssrc => (4, 's')
    case Track => (9, 'g')
    case IceLocalCandidate => (14, 'l')
    case IceRemoteCandidate => (15, 'r')
    case Transport => (9, 't')
    case ComponentType => (13, 'g')
    case CandidatePairType => (17, 'g')
    case Certificate => (15, 'g')
    case DataChannel => (11, 'd')
  }

  lemma TagHasShape(t: StatsType)
    ensures (|TypeToString(t)|, TypeToString(t)[0]) == TagShape(t) && '_' !in TypeToString(t)
  {
    match t
    case Session =>
    case Bwe =>
    case RemoteSsrc =>
    case Ssrc =>
    case Track =>
    case IceLocalCandidate =>
    case IceRemoteCandidate =>
    case Transport =>
    case ComponentType =>
    case CandidatePairType =>
    case Certificate =>
    case DataChannel =>
  }

  lemma ShapesDiffer(t: StatsType, u: StatsType)
    ensures TagShape(t) == TagShape(u) ==> t == u
    ensures TagShape(t).1 != 'C' && TagShape(t).1 != 'b' && TagShape(t).0 >= 2
  {
  }

  lemma TagsDiffer(t: StatsType, u: StatsType)
    ensures TypeToString(t) == TypeToString(u) ==> t == u
    ensures |TypeToString(t)| >= 2
    ensures '_' !in TypeToString(t) && TypeToString(t)[0] != 'C' && TypeToString(t)[0] != 'b'
  {
    TagHasShape(t);
    TagHasShape(u);
    ShapesDiffer(t, u);
  }

  lemma TaggedPrintTheSameExactlyWhen(a: Id, b: Id)
    requires Tagged(a) && Tagged(b) && Valid(a) && Valid(b)
    ensures ToString(a) == ToString(b) <==> a == b
  {
    var s, t := TypeToString(TypeOf(a)), TypeToString(TypeOf(b));
    TaggedText(a);
    TaggedText(b);
    TagsDiffer(TypeOf(a), TypeOf(b));
    TagsDiffer(TypeOf(b), TypeOf(a));
    if ToString(a) == ToString(b) {
      FirstSeparator('_', s, Body(a), t, Body(b));
      match a
      case TypedId(_, _) =>
      case TypedIntId(_, n) => DashedNumber("", n, "", b.number);
      case IdWithDirection(_, id, d) =>
        SameSuffixLength(id + "_", if d.Send? then "send" else "recv",
                         b.id + "_", if b.direction.Send? then "send" else "recv");
        SameSuffixLength(id, "_", b.id, "_");
    }
  }

  /** Identifiers of different families start differently. */
  lemma PrintedStart(a: Id)
    requires Valid(a)
    ensures |ToString(a)| >= 2
    ensures match a
            case BandwidthEstimationId => ToString(a)[0] == 'b'
            case CandidateId(_, _) => ToString(a)[0] == 'C' && ToString(a)[1] == 'a'
            case ComponentId(_, _) => ToString(a)[0] == 'C' && ToString(a)[1] == 'h'
            case CandidatePairId(_, _, _) => ToString(a)[0] == 'C' && ToString(a)[1] == 'o'
            case _ => ToString(a)[0] != 'C' && ToString(a)[0] != 'b'
  {
    match a
    case CandidateId(_, id) => assert ToString(a) == "Cand-" + id;
    case ComponentId(x, m) => ChannelText(x, m);
    case CandidatePairId(x, m, i) => ConnText(x, m, i);
    case BandwidthEstimationId =>
    case _ =>
      TagsDiffer(TypeOf(a), TypeOf(a));
      TaggedText(a);
  }

  lemma ChannelText(x: string, m: int)
    ensures ToString(ComponentId(x, m)) == "Channel-" + (x + "-" + IntToString(m))
  {
  }

  lemma ConnText(x: string, m: int, i: int)
    ensures ToString(CandidatePairId(x, m, i)) == "Conn-" + (x + "-" + IntToString(m) + "-" + IntToString(i))
  {
  }

  lemma TaggedText(a: Id)
    requires Tagged(a)
    ensures ToString(a) == TypeToString(TypeOf(a)) + "_" + Body(a)
  {
  }

  lemma ComponentIdsPrintTheSameExactlyWhen(a: Id, b: Id)
    requires a.ComponentId? && b.ComponentId?
    ensures ToString(a) == ToString(b) <==> a == b || Clash(a, b)
  {
    var x, y := a.contentName + "-" + IntToString(a.component), b.contentName + "-" + IntToString(b.component);
    ChannelText(a.contentName, a.component);
    ChannelText(b.contentName, b.component);
    SamePrefix("Channel-", x, y);
    ComponentsPrintTheSameExactlyWhen(a.contentName, a.component, b.contentName, b.component);
  }

  lemma CandidatePairIdsPrintTheSameExactlyWhen(a: Id, b: Id)
    requires a.CandidatePairId? && b.CandidatePairId?
    ensures ToString(a) == ToString(b) <==> a == b || Clash(a, b)
  {
    var x := a.contentName + "-" + IntToString(a.component) + "-" + IntToString(a.index);
    var y := b.contentName + "-" + IntToString(b.component) + "-" + IntToString(b.index);
    ConnText(a.contentName, a.component, a.index);
    ConnText(b.contentName, b.component, b.index);
    SamePrefix("Conn-", x, y);
    PairsPrintTheSameExactlyWhen(a.contentName, a.component, a.index, b.contentName, b.component, b.index);
  }

  /** One printed form of every class. */
  lemma PrintedTexts()
    ensures ToString(BandwidthEstimationId) == "bweforvideo"
    ensures ToString(TypedId(Session, "s")) == "googLibjingleSession_s"
    ensures ToString(IdWithDirection(Ssrc, "7", Send)) == "ssrc_7_send"
    ensures ToString(IdWithDirection(RemoteSsrc, "7", Receive)) == "remoteSsrc_7_recv"
    ensures ToString(CandidateId(true, "x")) == "Cand-x"
  {
  }

  lemma PrintedNumbers()
    ensures IntToString(12) == "12" && IntToString(-3) == "-3" && IntToString(0) == "0"
  {
  }

  lemma PrintedIds()
    ensures ToString(TypedIntId(DataChannel, -3)) == "datachannel_-3"
    ensures ToString(ComponentId("audio", 12)) == "Channel-audio-12"
    ensures ToString(CandidatePairId("audio", 12, 0)) == "Conn-audio-12-0"
  {
    PrintedNumbers();
  }

  /** Distinct identifiers that do share a printed form. */
  lemma ClashesOccur()
    ensures var a, b := CandidateId(true, "x"), CandidateId(false, "x");
            !Equals(a, b) && ToString(a) == ToString(b)
    ensures var a, b := ComponentId("audio", -1), ComponentId("audio-", 1);
            !Equals(a, b) && ToString(a) == ToString(b)
    ensures var a, b := CandidatePairId("audio", -1, 0), CandidatePairId("audio-", 1, 0);
            !Equals(a, b) && ToString(a) == ToString(b)
  {
    ComponentIdsPrintTheSameExactlyWhen(ComponentId("audio", -1), ComponentId("audio-", 1));
    CandidatePairIdsPrintTheSameExactlyWhen(CandidatePairId("audio", -1, 0), CandidatePairId("audio-", 1, 0));
  }

  /** Two identifiers print the same exactly if they are equal or one of the listed clashes. */
  lemma PrintedFormsAreUniqueExceptFor(a: Id, b: Id)
    requires Valid(a) && Valid(b)
    ensures ToString(a) == ToString(b) <==> a == b || Clash(a, b)
  {
    PrintedStart(a);
    PrintedStart(b);
    if Tagged(a) && Tagged(b) {
      TaggedPrintTheSameExactlyWhen(a, b);
    } else if a.CandidateId? && b.CandidateId? {
      SamePrefix("Cand-", a.id, b.id);
    } else if a.ComponentId? && b.ComponentId? {
      ComponentIdsPrintTheSameExactlyWhen(a, b);
    } else if a.CandidatePairId? && b.CandidatePairId? {
      CandidatePairIdsPrintTheSameExactlyWhen(a, b);
    }
  }

  /** With components that count from zero only candidates clash: a local and a remote one of the same id. */
  lemma NonNegativeComponentsNeverClash(a: Id, b: Id)
    requires Valid(a) && Valid(b)
    requires a.ComponentId? || a.CandidatePairId? ==> 0 <= a.component
    requires b.ComponentId? || b.CandidatePairId? ==> 0 <= b.component
    ensures ToString(a) == ToString(b) <==> a == b || (a.CandidateId? && b.CandidateId? && a.id == b.id)
  {
    PrintedFormsAreUniqueExceptFor(a, b);
  }
}
