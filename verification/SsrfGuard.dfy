/**
 The address parsers of the outbound-request guard, and its private ranges.

 Accepted texts are characterised by independent grammars, in both directions.
 */
module IPv4 {
  import opened Wrappers
  import opened Words
  import opened Powers
  import opened Text

  /** A decimal octet in its canonical spelling. */
  function Octet(part: string): Option<nat> {
    match ParseInt(part)
    case None => None
    case Some(octet) => if octet < 0 || octet > 255 || ToString(octet) != part then None else Some(octet)
  }

  /** The number so far moved up a byte, with the octet in the low bits. */
  function Absorb(num: nat, octet: nat): nat {
    Or(ShiftLeft(num, 8), octet)
  }

  function Absorbed(octets: seq<nat>, absorb: (nat, nat) -> nat): nat {
    if octets == [] then 0
    else absorb(Absorbed(octets[..|octets| - 1], absorb), octets[|octets| - 1])
  }

  /** Four parts, read and absorbed one after the other. */
  function ParseWith(ip: string, read: string -> Option<nat>, absorb: (nat, nat) -> nat): Option<nat> {
    var parts := Split(ip, '.');
    var octets := ReadAll(parts, read);
    if |parts| != 4 || octets.None? then None else Some(Absorbed(octets.value, absorb))
  }

  function ParseIPv4(ip: string): Option<nat> {
    ParseWith(ip, Octet, Absorb)
  }

  /** The parser: it accepts exactly the printed words. */
  method Parse(ip: string) returns (r: Option<nat>)
    ensures r == ParseIPv4(ip)
    ensures r.Some? ==> IsWord(r.value) && ip == Print(r.value)
    ensures r.None? ==> forall n :: IsWord(n) ==> ip != Print(n)
  {
    ParsesPrinted(ip);
    r := ParseParts(ip, Octet, Absorb);
  }

  /** Its loop over the parts, which stops at the first that does not read. */
  method ParseParts(ip: string, read: string -> Option<nat>, absorb: (nat, nat) -> nat) returns (r: Option<nat>)
    ensures r == ParseWith(ip, read, absorb)
  {
    var parts := Split(ip, '.');
    if |parts| != 4 { return None; }
    var num := 0;
    ReadAllIff(parts, read);
    for i := 0 to |parts|
      invariant ReadAll(parts[..i], read).Some? && num == Absorbed(ReadAll(parts[..i], read).value, absorb)
    {
      assert parts[..i + 1] == parts[..i] + [parts[i]];
      var octet := read(parts[i]);
      if octet.None? { return None; }
      ReadAllGrows(parts[..i], parts[i], read);
      ghost var before := ReadAll(parts[..i], read).value;
      assert (before + [octet.value])[..|before|] == before;
      num := absorb(num, octet.value);
    }
    assert parts[..|parts|] == parts;
    return Some(num);
  }

  lemma ParsesPrinted(ip: string)
    ensures ParseIPv4(ip).Some? ==> IsWord(ParseIPv4(ip).value) && ip == Print(ParseIPv4(ip).value)
    ensures ParseIPv4(ip).None? ==> forall n :: IsWord(n) ==> ip != Print(n)
  {
    if ParseIPv4(ip).Some? {
      AcceptsExactlyPrinted(ip, ParseIPv4(ip).value);
    } else {
      forall n | IsWord(n)
        ensures ip != Print(n)
      {
        AcceptsExactlyPrinted(ip, n);
      }
    }
  }

  // ----- The printer -----

  function Number(a: nat, b: nat, c: nat, d: nat): nat {
    ((a * 256 + b) * 256 + c) * 256 + d
  }

  function Quad(a: nat, b: nat, c: nat, d: nat): seq<string> {
    [Decimal(a), Decimal(b), Decimal(c), Decimal(d)]
  }

  /** The canonical dotted quad of a word; other numbers have none. */
  function Print(n: int): string {
    if !IsWord(n) then "" else Join(Quad(n / 0x100_0000, n / 0x1_0000 % 256, n / 256 % 256, n % 256), '.')
  }

  lemma OctetIsCanonical(part: string, v: nat)
    ensures Octet(part) == Some(v) <==> v <= 255 && part == Decimal(v)
  {
    if v <= 255 && part == Decimal(v) {
      ParseIntOfDecimal(v);
    }
  }

  /** Whether absorbing is multiply and add while the number has room. */
  ghost predicate Adds(absorb: (nat, nat) -> nat) {
    forall num: nat, octet: nat :: num < 0x100_0000 && octet <= 255 ==> absorb(num, octet) == num * 256 + octet
  }

  lemma AbsorbAdds()
    ensures Adds(Absorb)
  {
    forall num: nat, octet: nat | num < 0x100_0000 && octet <= 255
      ensures Absorb(num, octet) == num * 256 + octet
    {
      ShiftInByte(num, octet);
    }
  }

  lemma AbsorbFour(absorb: (nat, nat) -> nat, a: nat, b: nat, c: nat, d: nat)
    requires Adds(absorb) && a <= 255 && b <= 255 && c <= 255 && d <= 255
    ensures Absorbed([a, b, c, d], absorb) == Number(a, b, c, d)
  {
    assert [a][..0] == [] && [a, b][..1] == [a] && [a, b, c][..2] == [a, b] && [a, b, c, d][..3] == [a, b, c];
    assert Absorbed([a], absorb) == absorb(0, a);
    assert Absorbed([a, b], absorb) == absorb(a, b);
    assert Absorbed([a, b, c], absorb) == absorb(a * 256 + b, c);
  }

  lemma OctetsOfNumber(a: nat, b: nat, c: nat, d: nat)
    requires a <= 255 && b <= 255 && c <= 255 && d <= 255
    ensures var n := Number(a, b, c, d);
            IsWord(n) && n / 0x100_0000 == a && n / 0x1_0000 % 256 == b && n / 256 % 256 == c && n % 256 == d
  {
  }

  lemma NumberOfOctets(n: nat)
    requires IsWord(n)
    ensures n == Number(n / 0x100_0000, n / 0x1_0000 % 256, n / 256 % 256, n % 256) && n / 0x100_0000 <= 255
  {
    assert n / 0x1_0000 == n / 256 / 256 && n / 0x100_0000 == n / 0x1_0000 / 256;
  }

  lemma DigitsOnly(n: nat, c: char)
    requires !IsDigit(c)
    ensures c !in Decimal(n)
  {
  }

  /** Whether a reader accepts exactly the canonical octets. */
  ghost predicate Canonical(read: string -> Option<nat>) {
    forall part, v :: read(part) == Some(v) <==> v <= 255 && part == Decimal(v)
  }

  lemma OctetsAreCanonical()
    ensures Canonical(Octet)
  {
    forall part, v
      ensures Octet(part) == Some(v) <==> v <= 255 && part == Decimal(v)
    {
      OctetIsCanonical(part, v);
    }
  }

  lemma ReadsQuadWith(a: nat, b: nat, c: nat, d: nat, read: string -> Option<nat>, absorb: (nat, nat) -> nat)
    requires a <= 255 && b <= 255 && c <= 255 && d <= 255 && Canonical(read) && Adds(absorb)
    ensures ParseWith(Join(Quad(a, b, c, d), '.'), read, absorb) == Some(Number(a, b, c, d))
  {
    var quad := Quad(a, b, c, d);
    DigitsOnly(a, '.');
    DigitsOnly(b, '.');
    DigitsOnly(c, '.');
    DigitsOnly(d, '.');
    SplitOfJoin(quad, '.');
    ReadAllIff(quad, read);
    assert read(quad[0]) == Some(a) && read(quad[1]) == Some(b) && read(quad[2]) == Some(c) && read(quad[3]) == Some(d);
    assert ReadAll(quad, read).value == [a, b, c, d];
    AbsorbFour(absorb, a, b, c, d);
  }

  /** A joined quad reads as its number. */
  lemma ReadsQuad(a: nat, b: nat, c: nat, d: nat)
    requires a <= 255 && b <= 255 && c <= 255 && d <= 255
    ensures ParseIPv4(Join(Quad(a, b, c, d), '.')) == Some(Number(a, b, c, d))
  {
    OctetsAreCanonical();
    AbsorbAdds();
    ReadsQuadWith(a, b, c, d, Octet, Absorb);
  }

  /** A text that reads is a quad of octets. */
  lemma ReadIsQuad(ip: string, read: string -> Option<nat>, absorb: (nat, nat) -> nat) returns (a: nat, b: nat, c: nat, d: nat)
    requires Canonical(read) && Adds(absorb) && ParseWith(ip, read, absorb).Some?
    ensures a <= 255 && b <= 255 && c <= 255 && d <= 255
    ensures ip == Join(Quad(a, b, c, d), '.') && ParseWith(ip, read, absorb) == Some(Number(a, b, c, d))
  {
    var parts := Split(ip, '.');
    ReadAllIff(parts, read);
    var octets := ReadAll(parts, read).value;
    a, b, c, d := octets[0], octets[1], octets[2], octets[3];
    assert read(parts[0]) == Some(a) && read(parts[1]) == Some(b) && read(parts[2]) == Some(c) && read(parts[3]) == Some(d);
    assert octets == [a, b, c, d];
    AbsorbFour(absorb, a, b, c, d);
    assert parts == Quad(a, b, c, d);
    JoinOfSplit(ip, '.');
  }

  /** The parser accepts exactly the canonical dotted quads, and inverts their printer both ways. */
  lemma AcceptsExactlyPrinted(ip: string, n: nat)
    ensures ParseIPv4(ip) == Some(n) <==> IsWord(n) && ip == Print(n)
  {
    if IsWord(n) && ip == Print(n) {
      NumberOfOctets(n);
      ReadsQuad(n / 0x100_0000, n / 0x1_0000 % 256, n / 256 % 256, n % 256);
    }
    if ParseIPv4(ip) == Some(n) {
      OctetsAreCanonical();
      AbsorbAdds();
      var a, b, c, d := ReadIsQuad(ip, Octet, Absorb);
      OctetsOfNumber(a, b, c, d);
    }
  }

  // ----- Private ranges -----

  datatype Range = Range(network: string, prefix: nat)

  const PrivateRanges: seq<Range> := [
    Range("127.0.0.0", 8),
    Range("10.0.0.0", 8),
    Range("172.16.0.0", 12),
    Range("192.168.0.0", 16),
    Range("169.254.0.0", 16),
    Range("0.0.0.0", 8),
    Range("100.64.0.0", 10)
  ]

  predicate InOne(n: nat, r: Range) {
    r.prefix <= 32 && ParseIPv4(r.network).Some? && InRange(n, ParseIPv4(r.network).value, r.prefix)
  }

  predicate AnyRange(test: Range -> bool) {
    exists r :: r in PrivateRanges && test(r)
  }

  predicate IsPrivateWord(n: nat) {
    AnyRange((r: Range) => InOne(n, r))
  }

  predicate IsPrivateIPv4(ip: string) {
    var n := ParseIPv4(ip);
    n.Some? && IsPrivateWord(n.value)
  }

  /** The private quads, by their octets. */
  predicate PrivateOctets(a: nat, b: nat) {
    a == 127 || a == 10 || (a == 172 && 16 <= b < 32) || (a == 192 && b == 168) || (a == 169 && b == 254)
    || a == 0 || (a == 100 && 64 <= b < 128)
  }

  lemma Network(text: string, a: nat, b: nat)
    requires a <= 255 && b <= 255 && text == Decimal(a) + "." + Decimal(b) + ".0.0"
    ensures ParseIPv4(text) == Some(Number(a, b, 0, 0))
  {
    var quad := Quad(a, b, 0, 0);
    assert Decimal(0) == "0";
    assert quad[1..][1..] == ["0", "0"] && quad[1..][1..][1..] == ["0"];
    assert Join(["0", "0"], '.') == "0.0";
    assert Join(quad[1..], '.') == Decimal(b) + "." + "0.0";
    assert text == Join(quad, '.');
    ReadsQuad(a, b, 0, 0);
  }

  lemma PowersUsed()
    ensures Pow2(16) == 0x1_0000 && Pow2(20) == 0x10_0000 && Pow2(22) == 0x40_0000 && Pow2(24) == 0x100_0000
  {
    Scale16(0);
    assert Pow2(18) == 0x4_0000;
    assert Pow2(20) == 0x10_0000;
    assert Pow2(22) == 0x40_0000;
  }

  /** Being in a range is agreeing with its network on the leading octets and bits. */
  lemma InOneIff(n: nat, text: string, prefix: nat, divisor: nat, a: nat, b: nat)
    requires IsWord(n) && prefix <= 32 && divisor == Pow2(32 - prefix)
    requires a <= 255 && b <= 255 && text == Decimal(a) + "." + Decimal(b) + ".0.0"
    ensures InOne(n, Range(text, prefix)) <==> n / divisor == Number(a, b, 0, 0) / divisor
  {
    Network(text, a, b);
    OctetsOfNumber(a, b, 0, 0);
    InRangeIsQuotient(n, Number(a, b, 0, 0), prefix);
  }

  lemma InLoopbackText()
    ensures "127.0.0.0" == Decimal(127) + "." + Decimal(0) + ".0.0"
  {
  }

  lemma InLoopback(n: nat)
    requires IsWord(n)
    ensures InOne(n, Range("127.0.0.0", 8)) <==> n / 0x100_0000 == 127
  {
    PowersUsed();
    InLoopbackText();
    InOneIff(n, "127.0.0.0", 8, 0x100_0000, 127, 0);
  }

  lemma InTenText()
    ensures "10.0.0.0" == Decimal(10) + "." + Decimal(0) + ".0.0"
  {
  }

  lemma InTen(n: nat)
    requires IsWord(n)
    ensures InOne(n, Range("10.0.0.0", 8)) <==> n / 0x100_0000 == 10
  {
    PowersUsed();
    InTenText();
    InOneIff(n, "10.0.0.0", 8, 0x100_0000, 10, 0);
  }

  lemma InZeroText()
    ensures "0.0.0.0" == Decimal(0) + "." + Decimal(0) + ".0.0"
  {
  }

  lemma InZero(n: nat)
    requires IsWord(n)
    ensures InOne(n, Range("0.0.0.0", 8)) <==> n / 0x100_0000 == 0
  {
    PowersUsed();
    InZeroText();
    InOneIff(n, "0.0.0.0", 8, 0x100_0000, 0, 0);
  }

  lemma InOneSevenTwoText()
    ensures "172.16.0.0" == Decimal(172) + "." + Decimal(16) + ".0.0"
  {
  }

  lemma InOneSevenTwo(n: nat)
    requires IsWord(n)
    ensures InOne(n, Range("172.16.0.0", 12)) <==> n / 0x10_0000 == 172 * 16 + 1
  {
    PowersUsed();
    InOneSevenTwoText();
    InOneIff(n, "172.16.0.0", 12, 0x10_0000, 172, 16);
  }

  lemma InOneNineTwoText()
    ensures "192.168.0.0" == Decimal(192) + "." + Decimal(168) + ".0.0"
  {
  }

  lemma InOneNineTwo(n: nat)
    requires IsWord(n)
    ensures InOne(n, Range("192.168.0.0", 16)) <==> n / 0x1_0000 == 192 * 256 + 168
  {
    PowersUsed();
    InOneNineTwoText();
    InOneIff(n, "192.168.0.0", 16, 0x1_0000, 192, 168);
  }

  lemma InLinkLocalText()
    ensures "169.254.0.0" == Decimal(169) + "." + Decimal(254) + ".0.0"
  {
  }

  lemma InLinkLocal(n: nat)
    requires IsWord(n)
    ensures InOne(n, Range("169.254.0.0", 16)) <==> n / 0x1_0000 == 169 * 256 + 254
  {
    PowersUsed();
    InLinkLocalText();
    InOneIff(n, "169.254.0.0", 16, 0x1_0000, 169, 254);
  }

  lemma InSharedText()
    ensures "100.64.0.0" == Decimal(100) + "." + Decimal(64) + ".0.0"
  {
  }

  lemma InShared(n: nat)
    requires IsWord(n)
    ensures InOne(n, Range("100.64.0.0", 10)) <==> n / 0x40_0000 == 100 * 4 + 1
  {
    PowersUsed();
    InSharedText();
    InOneIff(n, "100.64.0.0", 10, 0x40_0000, 100, 64);
  }

  /** The masks test the first octets: which quads are private. */
  lemma PrivateIff(a: nat, b: nat, c: nat, d: nat)
    requires a <= 255 && b <= 255 && c <= 255 && d <= 255
    ensures IsPrivateWord(Number(a, b, c, d)) <==> PrivateOctets(a, b)
  {
    var n := Number(a, b, c, d);
    OctetsOfNumber(a, b, c, d);
    InLoopback(n);
    InTen(n);
    InZero(n);
    InOneSevenTwo(n);
    InOneNineTwo(n);
    InLinkLocal(n);
    InShared(n);
    LeadingBits(a, b, c, d);
    AnyOfSeven((r: Range) => InOne(n, r));
  }

  lemma LeadingBits(a: nat, b: nat, c: nat, d: nat)
    requires a <= 255 && b <= 255 && c <= 255 && d <= 255
    ensures var n := Number(a, b, c, d);
            && n / 0x100_0000 == a && n / 0x1_0000 == a * 256 + b
            && n / 0x10_0000 == a * 16 + b / 16 && n / 0x40_0000 == a * 4 + b / 64
  {
  }

  lemma AnyOfSeven(test: Range -> bool)
    ensures AnyRange(test) <==>
            || test(Range("127.0.0.0", 8)) || test(Range("10.0.0.0", 8)) || test(Range("172.16.0.0", 12))
            || test(Range("192.168.0.0", 16)) || test(Range("169.254.0.0", 16)) || test(Range("0.0.0.0", 8))
            || test(Range("100.64.0.0", 10))
  {
  }
}

module IPv6 {
  import opened Wrappers
  import opened Words
  import opened Powers
  import opened Text
  import IPv4

  /** A group of one to four hexadecimal digits. */
  function Group(text: string): Option<nat> {
    if IsGroup(text) then Some(GroupValue(text)) else None
  }

  function ParseGroups(s: string): Option<seq<nat>> {
    if s == "" then Some([]) else ReadAll(Split(s, ':'), Group)
  }

  /** The group parser. */
  method Parse(s: string) returns (r: Option<seq<nat>>)
    ensures r == ParseGroups(s)
  {
    if s == "" { return Some([]); }
    r := ParseEach(Split(s, ':'), Group);
  }

  /** Its loop, for any reader of one group. */
  method ParseEach(groups: seq<string>, read: string -> Option<nat>) returns (r: Option<seq<nat>>)
    ensures r == ReadAll(groups, read)
  {
    var parsed := [];
    ReadAllIff(groups, read);
    for i := 0 to |groups|
      invariant ReadAll(groups[..i], read) == Some(parsed)
    {
      assert groups[..i + 1] == groups[..i] + [groups[i]];
      ReadAllGrows(groups[..i], groups[i], read);
      var g := read(groups[i]);
      if g.None? { return None; }
      parsed := parsed + [g.value];
    }
    assert groups[..|groups|] == groups;
    return Some(parsed);
  }

  /** The index of the first double colon, or the length. */
  function DoubleColon(s: string): (i: nat)
    ensures i <= |s|
    ensures i < |s| ==> i + 1 < |s| && s[i] == ':' && s[i + 1] == ':'
    ensures forall j :: 0 <= j < i && j + 1 < |s| ==> !(s[j] == ':' && s[j + 1] == ':')
  {
    if s == "" then 0
    else if |s| >= 2 && s[0] == ':' && s[1] == ':' then 0
    else 1 + DoubleColon(s[1..])
  }

  /** The halves around double colons. */
  function Halves(s: string): (parts: seq<string>)
    ensures |parts| > 0
    decreases |s|
  {
    var i := DoubleColon(s);
    if i == |s| then [s] else [s[..i]] + Halves(s[i + 2..])
  }

  function Zeros(n: nat): seq<nat> {
    seq(n, _ => 0)
  }

  /** The groups of a text without quad, followed by those of the quad: eight in all. */
  function ExpandHead(head: string, tail: seq<nat>, parse: string -> Option<seq<nat>>): Option<seq<nat>> {
    var halves := Halves(head);
    if |halves| > 2 then None
    else if |halves| == 1 then
      var groups := parse(halves[0]);
      if groups.Some? && |groups.value + tail| == 8 then Some(groups.value + tail) else None
    else
      var left, right := parse(halves[0]), parse(halves[1]);
      if left.None? || right.None? || |left.value| + |right.value| + |tail| > 8 then None
      else Some(left.value + Zeros(8 - |left.value| - |right.value| - |tail|) + right.value + tail)
  }

  /** The index of the last colon, or -1. */
  function LastColon(s: string): (k: int)
    ensures -1 <= k < |s|
    ensures k >= 0 ==> s[k] == ':'
    ensures forall j :: k < j < |s| ==> s[j] != ':'
  {
    if s == "" then -1
    else if s[|s| - 1] == ':' then |s| - 1
    else LastColon(s[..|s| - 1])
  }

  function QuadGroups(v: nat): seq<nat> {
    [And(ShiftRight(v, 16), 0xffff), And(v, 0xffff)]
  }

  function ExpandIPv6(ip: string): Option<seq<nat>> {
    var k := LastColon(ip);
    if k != -1 && '.' in ip[k..] then
      match IPv4.ParseIPv4(ip[k + 1..])
      case None => None
      case Some(v) => ExpandHead(ip[..k], QuadGroups(v), ParseGroups)
    else ExpandHead(ip, [], ParseGroups)
  }

  // ----- The grammar -----

  ghost predicate AllGroups(texts: seq<string>) {
    forall i :: 0 <= i < |texts| ==> IsGroup(texts[i])
  }

  function Values(texts: seq<string>): seq<nat>
    requires forall i :: 0 <= i < |texts| ==> IsGroup(texts[i])
  {
    seq(|texts|, i requires 0 <= i < |texts| && IsGroup(texts[i]) => GroupValue(texts[i]))
  }

  ghost predicate Full(head: string, count: nat, texts: seq<string>) {
    |texts| == count && AllGroups(texts) && head == Join(texts, ':')
  }

  ghost predicate Gapped(head: string, count: nat, left: seq<string>, right: seq<string>) {
    && |left| + |right| <= count && AllGroups(left) && AllGroups(right)
    && head == Join(left, ':') + "::" + Join(right, ':')
  }

  /** A text of a fixed number of groups, written in full or with one gap standing for the missing zeros. */
  ghost predicate Denotes(head: string, count: nat, groups: seq<nat>) {
    || (exists texts :: Full(head, count, texts) && groups == Values(texts))
    || (exists left, right :: Gapped(head, count, left, right)
                              && groups == Values(left) + Zeros(count - |left| - |right|) + Values(right))
  }

  /** Group texts: hexadecimal digits between single colons. */
  ghost predicate Spaced(s: string) {
    && (forall i :: 0 <= i < |s| ==> s[i] == ':' || HexValue(s[i]).Some?)
    && (forall i :: 0 <= i < |s| - 1 ==> !(s[i] == ':' && s[i + 1] == ':'))
    && (s != "" ==> s[0] != ':' && s[|s| - 1] != ':')
  }

  lemma {:induction false} JoinedIsSpaced(texts: seq<string>)
    requires AllGroups(texts)
    ensures Spaced(Join(texts, ':')) && (Join(texts, ':') == "" <==> texts == [])
  {
    if |texts| == 1 {
      GroupIsSpaced(texts[0]);
    } else if texts != [] {
      GroupIsSpaced(texts[0]);
      JoinedIsSpaced(texts[1..]);
      SpacedJoin(texts[0], Join(texts[1..], ':'));
    }
  }

  lemma GroupIsSpaced(text: string)
    requires IsGroup(text)
    ensures Spaced(text) && text != "" && ':' !in text
  {
  }

  lemma SpacedJoin(a: string, b: string)
    requires Spaced(a) && Spaced(b) && a != "" && b != ""
    ensures Spaced(a + ":" + b)
  {
  }

  lemma NoHalves(s: string)
    requires Spaced(s)
    ensures Halves(s) == [s]
  {
  }

  lemma TwoHalves(a: string, b: string)
    requires Spaced(a) && Spaced(b)
    ensures Halves(a + "::" + b) == [a, b]
  {
    var s := a + "::" + b;
    assert s[|a|] == ':' && s[|a| + 1] == ':';
    assert forall i :: 0 <= i < |a| ==> s[i] == a[i];
    assert DoubleColon(s) == |a|;
    assert s[..|a|] == a && s[|a| + 2..] == b;
    NoHalves(b);
  }

  lemma JoinHalves(s: string)
    ensures |Halves(s)| == 1 ==> Halves(s) == [s]
    ensures |Halves(s)| == 2 ==> s == Halves(s)[0] + "::" + Halves(s)[1]
  {
  }

  /** Whether a parser reads exactly the joined groups. */
  ghost predicate ReadsGroups(parse: string -> Option<seq<nat>>) {
    && (forall texts :: AllGroups(texts) ==> parse(Join(texts, ':')) == Some(Values(texts)))
    && (forall s :: parse(s).Some? ==> exists texts :: AllGroups(texts) && s == Join(texts, ':'))
  }

  lemma ParsesJoined(texts: seq<string>)
    requires AllGroups(texts)
    ensures ParseGroups(Join(texts, ':')) == Some(Values(texts))
  {
    JoinedIsSpaced(texts);
    if texts != [] {
      forall i | 0 <= i < |texts| ensures ':' !in texts[i] { GroupIsSpaced(texts[i]); }
      SplitOfJoin(texts, ':');
      ReadAllIff(texts, Group);
      assert ReadAll(texts, Group).value == Values(texts);
    } else {
      assert Values(texts) == [];
    }
  }

  lemma ParsedIsJoined(s: string)
    requires ParseGroups(s).Some?
    ensures exists texts :: AllGroups(texts) && s == Join(texts, ':')
  {
    if s == "" {
      assert AllGroups([]) && s == Join([], ':');
    } else {
      JoinOfSplit(s, ':');
      ReadAllIff(Split(s, ':'), Group);
      assert AllGroups(Split(s, ':'));
    }
  }

  lemma ParserReadsGroups()
    ensures ReadsGroups(ParseGroups)
  {
    forall texts | AllGroups(texts)
      ensures ParseGroups(Join(texts, ':')) == Some(Values(texts))
    {
      ParsesJoined(texts);
    }
    forall s | ParseGroups(s).Some?
      ensures exists texts :: AllGroups(texts) && s == Join(texts, ':')
    {
      ParsedIsJoined(s);
    }
  }

  lemma ExpandsFull(head: string, tail: seq<nat>, texts: seq<string>, parse: string -> Option<seq<nat>>)
    requires |tail| <= 8 && Full(head, 8 - |tail|, texts) && ReadsGroups(parse)
    ensures ExpandHead(head, tail, parse) == Some(Values(texts) + tail)
  {
    JoinedIsSpaced(texts);
    NoHalves(head);
  }

  lemma ExpandsGapped(head: string, tail: seq<nat>, left: seq<string>, right: seq<string>, parse: string -> Option<seq<nat>>)
    requires |tail| <= 8 && Gapped(head, 8 - |tail|, left, right) && ReadsGroups(parse)
    ensures ExpandHead(head, tail, parse)
            == Some(Values(left) + Zeros(8 - |tail| - |left| - |right|) + Values(right) + tail)
  {
    JoinedIsSpaced(left);
    JoinedIsSpaced(right);
    TwoHalves(Join(left, ':'), Join(right, ':'));
  }

  /** Any denoted head expands to its groups followed by the tail. */
  lemma ExpandsDenoted(head: string, tail: seq<nat>, groups: seq<nat>, parse: string -> Option<seq<nat>>)
    requires |tail| <= 8 && Denotes(head, 8 - |tail|, groups) && ReadsGroups(parse)
    ensures ExpandHead(head, tail, parse) == Some(groups + tail)
  {
    if texts :| Full(head, 8 - |tail|, texts) && groups == Values(texts) {
      ExpandsFull(head, tail, texts, parse);
    } else {
      var left, right :| Gapped(head, 8 - |tail|, left, right)
                         && groups == Values(left) + Zeros(8 - |tail| - |left| - |right|) + Values(right);
      ExpandsGapped(head, tail, left, right, parse);
    }
  }

  lemma TextsOf(s: string, parse: string -> Option<seq<nat>>) returns (texts: seq<string>)
    requires ReadsGroups(parse) && parse(s).Some?
    ensures AllGroups(texts) && s == Join(texts, ':') && parse(s) == Some(Values(texts))
  {
    texts :| AllGroups(texts) && s == Join(texts, ':');
  }

  /** Whatever expands is denoted. */
  lemma DenotesExpanded(head: string, tail: seq<nat>, parse: string -> Option<seq<nat>>) returns (groups: seq<nat>)
    requires |tail| <= 8 && ExpandHead(head, tail, parse).Some? && ReadsGroups(parse)
    ensures Denotes(head, 8 - |tail|, groups) && ExpandHead(head, tail, parse) == Some(groups + tail)
  {
    JoinHalves(head);
    if |Halves(head)| == 1 {
      var texts := TextsOf(head, parse);
      groups := Values(texts);
      assert Full(head, 8 - |tail|, texts);
    } else {
      groups := DenotesHalves(head, tail, parse);
    }
  }

  lemma TwoHalvesExpand(head: string, tail: seq<nat>, parse: string -> Option<seq<nat>>)
    requires |Halves(head)| == 2 && ExpandHead(head, tail, parse).Some?
    ensures var left, right := parse(Halves(head)[0]), parse(Halves(head)[1]);
            && left.Some? && right.Some? && |left.value| + |right.value| + |tail| <= 8
            && ExpandHead(head, tail, parse)
               == Some(left.value + Zeros(8 - |left.value| - |right.value| - |tail|) + right.value + tail)
  {
  }

  lemma DenotesHalves(head: string, tail: seq<nat>, parse: string -> Option<seq<nat>>) returns (groups: seq<nat>)
    requires |tail| <= 8 && ExpandHead(head, tail, parse).Some? && ReadsGroups(parse)
    requires |Halves(head)| == 2
    ensures Denotes(head, 8 - |tail|, groups) && ExpandHead(head, tail, parse) == Some(groups + tail)
  {
    TwoHalvesExpand(head, tail, parse);
    JoinHalves(head);
    var left := TextsOf(Halves(head)[0], parse);
    var right := TextsOf(Halves(head)[1], parse);
    groups := DenotesGapped(head, 8 - |tail|, left, right);
  }

  lemma DenotesGapped(head: string, count: nat, left: seq<string>, right: seq<string>) returns (groups: seq<nat>)
    requires Gapped(head, count, left, right)
    ensures groups == Values(left) + Zeros(count - |left| - |right|) + Values(right) && Denotes(head, count, groups)
  {
    groups := Values(left) + Zeros(count - |left| - |right|) + Values(right);
  }

  // ----- Addresses -----

  /** An address of eight groups, or of six followed by a colon and a dotted quad. */
  ghost predicate IsAddress(ip: string, groups: seq<nat>) {
    || Denotes(ip, 8, groups)
    || exists head, v, high :: WithQuad(ip, head, v) && Denotes(head, 6, high) && groups == high + TwoGroups(v)
  }

  /** A word as two 16-bit groups. */
  function TwoGroups(v: nat): seq<nat> {
    [v / 0x1_0000, v % 0x1_0000]
  }

  ghost predicate WithQuad(ip: string, head: string, v: nat) {
    IsWord(v) && ip == head + ":" + IPv4.Print(v)
  }

  lemma {:induction false} HeadCharacters(head: string, count: nat, groups: seq<nat>)
    requires Denotes(head, count, groups)
    ensures '.' !in head
  {
    assert HexValue('.').None?;
    if texts :| Full(head, count, texts) {
      JoinedIsSpaced(texts);
    } else {
      var left, right :| Gapped(head, count, left, right);
      JoinedIsSpaced(left);
      JoinedIsSpaced(right);
    }
  }

  lemma QuadCharacters(v: nat)
    requires IsWord(v)
    ensures ':' !in IPv4.Print(v) && '.' in IPv4.Print(v)
  {
    var a, b, c, d := v / 0x100_0000, v / 0x1_0000 % 256, v / 256 % 256, v % 256;
    var quad := IPv4.Quad(a, b, c, d);
    IPv4.DigitsOnly(a, ':');
    IPv4.DigitsOnly(b, ':');
    IPv4.DigitsOnly(c, ':');
    IPv4.DigitsOnly(d, ':');
    JoinHas(quad, '.', ':');
    assert Join(quad, '.') == quad[0] + "." + Join(quad[1..], '.');
    assert (quad[0] + "." + Join(quad[1..], '.'))[|quad[0]|] == '.';
  }

  lemma {:induction false} JoinHas(parts: seq<string>, sep: char, c: char)
    requires c != sep && forall i :: 0 <= i < |parts| ==> c !in parts[i]
    ensures c !in Join(parts, sep)
  {
    if |parts| > 1 {
      JoinHas(parts[1..], sep, c);
    }
  }

  lemma LastColonBefore(head: string, quad: string)
    requires ':' !in quad && '.' in quad
    ensures var ip := head + ":" + quad;
            LastColon(ip) == |head| && '.' in ip[|head|..] && ip[|head| + 1..] == quad && ip[..|head|] == head
  {
    var ip := head + ":" + quad;
    assert ip[|head|] == ':';
    assert forall j :: |head| < j < |ip| ==> ip[j] == quad[j - |head| - 1];
    assert ip[|head|..] == ":" + quad;
  }

  lemma LastColonBeforeQuad(ip: string, head: string, v: nat)
    requires WithQuad(ip, head, v)
    ensures LastColon(ip) == |head|
    ensures '.' in ip[|head|..] && ip[|head| + 1..] == IPv4.Print(v) && ip[..|head|] == head
  {
    QuadCharacters(v);
    LastColonBefore(head, IPv4.Print(v));
  }

  /** The expansion of an address with a quad is that of its head with the quad's two groups. */
  lemma ExpandsWithQuad(ip: string, head: string, v: nat)
    requires WithQuad(ip, head, v)
    ensures ExpandIPv6(ip) == ExpandHead(head, TwoGroups(v), ParseGroups)
  {
    LastColonBeforeQuad(ip, head, v);
    IPv4.AcceptsExactlyPrinted(IPv4.Print(v), v);
    GroupsOfWord(v);
  }

  /** Exactly the addresses of the grammar expand, and to the groups they denote. */
  lemma ExpandsExactlyAddresses(ip: string, groups: seq<nat>)
    ensures ExpandIPv6(ip) == Some(groups) <==> IsAddress(ip, groups)
  {
    if IsAddress(ip, groups) {
      AddressExpands(ip, groups);
    }
    if ExpandIPv6(ip) == Some(groups) {
      ExpandedIsAddress(ip);
    }
  }

  lemma AddressExpands(ip: string, groups: seq<nat>)
    requires IsAddress(ip, groups)
    ensures ExpandIPv6(ip) == Some(groups)
  {
    ParserReadsGroups();
    if Denotes(ip, 8, groups) {
      HeadCharacters(ip, 8, groups);
      ExpandsDenoted(ip, [], groups, ParseGroups);
      assert groups + [] == groups;
    } else {
      var head, v: nat, high :| WithQuad(ip, head, v) && Denotes(head, 6, high) && groups == high + TwoGroups(v);
      ExpandsWithQuad(ip, head, v);
      ExpandsDenoted(head, TwoGroups(v), high, ParseGroups);
    }
  }

  lemma ExpandedIsAddress(ip: string)
    requires ExpandIPv6(ip).Some?
    ensures IsAddress(ip, ExpandIPv6(ip).value)
  {
    ParserReadsGroups();
    var k := LastColon(ip);
    if k != -1 && '.' in ip[k..] {
      var v := QuadOf(ip, k);
      QuadIsAddress(ip, ip[..k], v, ParseGroups);
    } else {
      var groups := DenotesExpanded(ip, [], ParseGroups);
      assert groups + [] == groups;
    }
  }

  lemma QuadIsAddress(ip: string, head: string, v: nat, parse: string -> Option<seq<nat>>)
    requires WithQuad(ip, head, v) && ReadsGroups(parse) && ExpandHead(head, TwoGroups(v), parse).Some?
    ensures IsAddress(ip, ExpandHead(head, TwoGroups(v), parse).value)
  {
    var high := DenotesExpanded(head, TwoGroups(v), parse);
  }

  /** The quad behind the last colon of a text that expands. */
  lemma QuadOf(ip: string, k: nat) returns (v: nat)
    requires k < |ip| && ip[k] == ':' && IPv4.ParseIPv4(ip[k + 1..]).Some?
    ensures WithQuad(ip, ip[..k], v)
    ensures ExpandIPv6(ip) == ExpandHead(ip[..k], TwoGroups(v), ParseGroups)
  {
    v := IPv4.ParseIPv4(ip[k + 1..]).value;
    IPv4.AcceptsExactlyPrinted(ip[k + 1..], v);
    assert ip == ip[..k] + ":" + ip[k + 1..];
    ExpandsWithQuad(ip, ip[..k], v);
  }

  // ----- Round trips -----

  /** Eight group texts in full expand to their values. */
  lemma FullRoundTrip(texts: seq<string>)
    requires |texts| == 8 && AllGroups(texts)
    ensures ExpandIPv6(Join(texts, ':')) == Some(Values(texts))
  {
    assert Full(Join(texts, ':'), 8, texts);
    AddressExpands(Join(texts, ':'), Values(texts));
  }

  /** Any run of zero groups may be replaced by "::" (section 2.2 of RFC 4291); a run may be empty. */
  lemma CompressedRoundTrip(texts: seq<string>, from: nat, to: nat)
    requires |texts| == 8 && AllGroups(texts) && from <= to <= 8
    requires forall i :: from <= i < to ==> GroupValue(texts[i]) == 0
    ensures ExpandIPv6(Join(texts[..from], ':') + "::" + Join(texts[to..], ':')) == Some(Values(texts))
  {
    var ip := Join(texts[..from], ':') + "::" + Join(texts[to..], ':');
    assert Gapped(ip, 8, texts[..from], texts[to..]);
    var groups := Values(texts[..from]) + Zeros(8 - from - (8 - to)) + Values(texts[to..]);
    assert groups == Values(texts);
    AddressExpands(ip, groups);
  }

  /** Six group texts, any zero run among the last but one compressed, before a dotted quad. */
  lemma QuadRoundTrip(texts: seq<string>, from: nat, to: nat, v: nat)
    requires |texts| == 6 && AllGroups(texts) && from <= to < 6 && IsWord(v)
    requires forall i :: from <= i < to ==> GroupValue(texts[i]) == 0
    ensures ExpandIPv6(Join(texts[..from], ':') + "::" + Join(texts[to..], ':') + ":" + IPv4.Print(v))
            == Some(Values(texts) + TwoGroups(v))
  {
    var head := Join(texts[..from], ':') + "::" + Join(texts[to..], ':');
    assert Gapped(head, 6, texts[..from], texts[to..]);
    assert Values(texts[..from]) + Zeros(6 - from - (6 - to)) + Values(texts[to..]) == Values(texts);
    assert Denotes(head, 6, Values(texts));
    assert WithQuad(head + ":" + IPv4.Print(v), head, v);
    AddressExpands(head + ":" + IPv4.Print(v), Values(texts) + TwoGroups(v));
  }

  /** A quad directly after the gap is refused. */
  lemma QuadAfterGapFails(left: seq<string>, v: nat)
    requires AllGroups(left) && IsWord(v)
    ensures ExpandIPv6(Join(left, ':') + "::" + IPv4.Print(v)) == None
  {
    var joined, quad := Join(left, ':'), IPv4.Print(v);
    JoinedIsSpaced(left);
    assert joined + "::" + quad == (joined + ":") + ":" + quad;
    ExpandsWithQuad(joined + "::" + quad, joined + ":", v);
    TrailingColon(joined, TwoGroups(v));
  }

  lemma ThreeColons(a: string, b: string)
    ensures a + ":::" + b == (a + "::") + ":" + b && a + "::" == a + "::" + Join([], ':')
  {
  }

  /** With a third colon it is read as the address that was meant. */
  lemma QuadAfterThreeColons(left: seq<string>, v: nat)
    requires AllGroups(left) && IsWord(v) && |left| <= 6
    ensures ExpandIPv6(Join(left, ':') + ":::" + IPv4.Print(v)) == Some(Values(left) + Zeros(6 - |left|) + TwoGroups(v))
  {
    ThreeColons(Join(left, ':'), IPv4.Print(v));
    ExpandsGapBeforeQuad(Join(left, ':') + "::", left, v);
  }

  lemma ExpandsGapBeforeQuad(head: string, left: seq<string>, v: nat)
    requires Gapped(head, 6, left, []) && IsWord(v)
    ensures ExpandIPv6(head + ":" + IPv4.Print(v)) == Some(Values(left) + Zeros(6 - |left|) + TwoGroups(v))
  {
    var high := DenotesGapped(head, 6, left, []);
    assert high == Values(left) + Zeros(6 - |left|);
    assert WithQuad(head + ":" + IPv4.Print(v), head, v);
    AddressExpands(head + ":" + IPv4.Print(v), high + TwoGroups(v));
  }

  lemma TrailingColon(joined: string, tail: seq<nat>)
    requires Spaced(joined)
    ensures ExpandHead(joined + ":", tail, ParseGroups) == None
  {
    var s := joined + ":";
    assert forall i :: 0 <= i < |joined| ==> s[i] == joined[i];
    assert Halves(s) == [s];
    assert !Spaced(s);
    if ParseGroups(s).Some? {
      ParsedIsJoined(s);
      var texts :| AllGroups(texts) && s == Join(texts, ':');
      JoinedIsSpaced(texts);
    }
  }

  // ----- Classification -----

  predicate LinkLocal(first: nat) {
    And(first, 0xffc0) == 0xfe80
  }

  predicate UniqueLocal(first: nat) {
    And(first, 0xfe00) == 0xfc00
  }

  function Embedded(high: nat, low: nat): nat {
    Or(ShiftLeft(high, 16), low)
  }

  /** The guard's tests in its order, given the outcome of the mask tests. */
  predicate Classified(groups: seq<nat>, linkLocal: bool, uniqueLocal: bool, embedded: bool)
    requires |groups| == 8
  {
    var leading := forall i :: 0 <= i < 5 ==> groups[i] == 0;
    var isMapped := leading && groups[5] == 0xffff;
    var isCompat := leading && groups[5] == 0 && groups[6] != 0;
    if (forall i :: 0 <= i < 7 ==> groups[i] == 0) && groups[7] == 1 then true
    else if forall i :: 0 <= i < 8 ==> groups[i] == 0 then true
    else if linkLocal then true
    else if uniqueLocal then true
    else if isMapped || isCompat then embedded
    else false
  }

  predicate IsPrivateGroups(groups: seq<nat>)
    requires |groups| == 8
  {
    Classified(groups, LinkLocal(groups[0]), UniqueLocal(groups[0]), IPv4.IsPrivateWord(Embedded(groups[6], groups[7])))
  }

  lemma ExpandsToEight(ip: string)
    ensures ExpandIPv6(ip).Some? ==> |ExpandIPv6(ip).value| == 8
  {
  }

  predicate IsPrivateIPv6(ip: string) {
    ExpandsToEight(ip);
    var groups := ExpandIPv6(ip);
    groups.Some? && IsPrivateGroups(groups.value)
  }

  lemma MappedClassified(high: nat, low: nat, embedded: bool)
    ensures Classified([0, 0, 0, 0, 0, 0xffff, high, low], false, false, embedded) <==> embedded
  {
    var groups := [0, 0, 0, 0, 0, 0xffff, high, low];
    assert groups[0] == groups[1] == groups[2] == groups[3] == groups[4] == 0 && groups[5] == 0xffff;
  }

  lemma MappedGroups(v: nat)
    requires IsWord(v)
    ensures IsPrivateGroups([0, 0, 0, 0, 0, 0xffff] + TwoGroups(v)) <==> IPv4.IsPrivateWord(v)
  {
    var groups := [0, 0, 0, 0, 0, 0xffff] + TwoGroups(v);
    assert groups == [0, 0, 0, 0, 0, 0xffff, v / 0x1_0000, v % 0x1_0000];
    WordOfGroups(v);
    AndOfZero();
    MappedClassified(v / 0x1_0000, v % 0x1_0000, IPv4.IsPrivateWord(v));
  }

  lemma WordOfGroups(v: nat)
    requires IsWord(v)
    ensures Embedded(v / 0x1_0000, v % 0x1_0000) == v
  {
    ShiftInGroup(v / 0x1_0000, v % 0x1_0000);
    assert v == 0x1_0000 * (v / 0x1_0000) + v % 0x1_0000;
  }

  lemma AndOfZero()
    ensures !LinkLocal(0) && !UniqueLocal(0)
  {
  }

  /**
   The mapped address of a word is private exactly when its dotted quad is, in its dotted and in any
   hexadecimal spelling (section 2.5.5.2 of RFC 4291).
   */
  lemma MappedIsPrivateIff(v: nat, mapped: string, high: string, low: string)
    requires IsWord(v) && IsGroup(mapped) && GroupValue(mapped) == 0xffff
    requires IsGroup(high) && GroupValue(high) == v / 0x1_0000 && IsGroup(low) && GroupValue(low) == v % 0x1_0000
    ensures IsPrivateIPv6("::" + mapped + ":" + IPv4.Print(v)) <==> IPv4.IsPrivateIPv4(IPv4.Print(v))
    ensures IsPrivateIPv6("::" + mapped + ":" + high + ":" + low) <==> IPv4.IsPrivateIPv4(IPv4.Print(v))
  {
    IPv4.AcceptsExactlyPrinted(IPv4.Print(v), v);
    MappedGroups(v);
    DottedMapped(v, mapped);
    HexMapped(v, mapped, high, low);
  }

  lemma DottedMapped(v: nat, mapped: string)
    requires IsWord(v) && IsGroup(mapped) && GroupValue(mapped) == 0xffff
    ensures ExpandIPv6("::" + mapped + ":" + IPv4.Print(v)) == Some([0, 0, 0, 0, 0, 0xffff] + TwoGroups(v))
  {
    var head := "::" + mapped;
    assert head == Join([], ':') + "::" + Join([mapped], ':');
    assert Gapped(head, 6, [], [mapped]);
    assert Values([]) + Zeros(5) + Values([mapped]) == [0, 0, 0, 0, 0, 0xffff];
    assert Denotes(head, 6, [0, 0, 0, 0, 0, 0xffff]);
    assert WithQuad("::" + mapped + ":" + IPv4.Print(v), head, v);
    AddressExpands("::" + mapped + ":" + IPv4.Print(v), [0, 0, 0, 0, 0, 0xffff] + TwoGroups(v));
  }

  lemma HexMapped(v: nat, mapped: string, high: string, low: string)
    requires IsWord(v) && IsGroup(mapped) && GroupValue(mapped) == 0xffff
    requires IsGroup(high) && GroupValue(high) == v / 0x1_0000 && IsGroup(low) && GroupValue(low) == v % 0x1_0000
    ensures ExpandIPv6("::" + mapped + ":" + high + ":" + low) == Some([0, 0, 0, 0, 0, 0xffff] + TwoGroups(v))
  {
    var right := [mapped, high, low];
    JoinMore(high, [low], ':');
    JoinMore(mapped, [high, low], ':');
    assert [high] + [low] == [high, low] && [mapped] + [high, low] == right;
    var ip := "::" + mapped + ":" + high + ":" + low;
    assert ip == Join([], ':') + "::" + Join(right, ':');
    assert Gapped(ip, 8, [], right);
    var groups := [0, 0, 0, 0, 0, 0xffff] + TwoGroups(v);
    assert Values([]) + Zeros(5) + Values(right) == groups;
    AddressExpands(ip, groups);
  }

  // ----- Prefixes of the first group -----

  lemma TopBits(g: nat, p: nat, k: nat)
    requires p + k == 16 && g < 0x1_0000
    ensures And(g, Scale(Pow2(p) - 1, k)) == Scale(MoveDown(g, k), k)
  {
    Scale16(0);
    AndHigh(g, Pow2(p) - 1, k);
    HighPartFits(g, p, k);
    AndOnes(MoveDown(g, k), p);
  }

  lemma SmallPowers(a: nat)
    ensures Pow2(6) == 64 && Scale(a, 6) == 64 * a && Pow2(9) == 512 && Scale(a, 9) == 512 * a
  {
    assert Scale(a, 1) == 2 * a;
    assert Scale(a, 3) == 8 * a;
    assert Scale(a, 5) == 32 * a;
    assert Scale(a, 7) == 128 * a;
  }

  lemma LocalMasks()
    ensures Scale(Pow2(10) - 1, 6) == 0xffc0 && Scale(Pow2(7) - 1, 9) == 0xfe00
  {
  }

  lemma TopOf(g: nat, top: nat, unit: nat, low: nat)
    requires unit > 0 && g == unit * top + low && low < unit
    ensures forall t: nat :: unit * top == unit * t <==> unit * t <= g < unit * t + unit
  {
    forall t: nat
      ensures unit * top == unit * t <==> unit * t <= g < unit * t + unit
    {
      var e := top - t;
      assert unit * top - unit * t == e * unit;
      Factor(e, unit);
    }
  }

  /** The link-local mask selects the groups fe80 to febf. */
  lemma LinkLocalPrefix(g: nat)
    requires g < 0x1_0000
    ensures LinkLocal(g) <==> 0xfe80 <= g <= 0xfebf
  {
    LocalMasks();
    TopBits(g, 10, 6);
    LowAndHigh(g, 6);
    SmallPowers(MoveDown(g, 6));
    TopOf(g, MoveDown(g, 6), 64, LowPart(g, 6));
    assert 64 * 0x3fa == 0xfe80;
  }

  /** The unique-local mask selects the groups fc00 to fdff. */
  lemma UniqueLocalPrefix(g: nat)
    requires g < 0x1_0000
    ensures UniqueLocal(g) <==> 0xfc00 <= g <= 0xfdff
  {
    LocalMasks();
    TopBits(g, 7, 9);
    LowAndHigh(g, 9);
    SmallPowers(MoveDown(g, 9));
    TopOf(g, MoveDown(g, 9), 512, LowPart(g, 9));
    assert 512 * 0x7e == 0xfc00;
  }

  /** What the guard calls private, without masks: by the ranges of the groups and the embedded octets. */
  lemma PrivateGroupsIff(groups: seq<nat>)
    requires |groups| == 8 && forall i :: 0 <= i < 8 ==> groups[i] < 0x1_0000
    ensures IsPrivateGroups(groups) <==>
            Classified(groups, 0xfe80 <= groups[0] <= 0xfebf, 0xfc00 <= groups[0] <= 0xfdff,
                       IPv4.PrivateOctets(groups[6] / 256, groups[6] % 256))
  {
    LinkLocalPrefix(groups[0]);
    UniqueLocalPrefix(groups[0]);
    EmbeddedPrivateIff(groups[6], groups[7]);
  }

  lemma EmbeddedPrivateIff(high: nat, low: nat)
    requires high < 0x1_0000 && low < 0x1_0000
    ensures IPv4.IsPrivateWord(Embedded(high, low)) <==> IPv4.PrivateOctets(high / 256, high % 256)
  {
    EmbeddedOctets(high, low);
    IPv4.PrivateIff(high / 256, high % 256, low / 256, low % 256);
  }

  lemma EmbeddedOctets(high: nat, low: nat)
    requires high < 0x1_0000 && low < 0x1_0000
    ensures Embedded(high, low) == IPv4.Number(high / 256, high % 256, low / 256, low % 256)
  {
    ShiftInGroup(high, low);
  }

  // ----- Classification of texts -----

  ghost predicate Fits(groups: seq<nat>) {
    forall i :: 0 <= i < |groups| ==> groups[i] < 0x1_0000
  }

  lemma ValuesFit(texts: seq<string>)
    requires AllGroups(texts)
    ensures Fits(Values(texts))
  {
    forall i | 0 <= i < |texts|
      ensures Values(texts)[i] < 0x1_0000
    {
      GroupFits(texts[i]);
    }
  }

  lemma DenotedFits(head: string, count: nat, groups: seq<nat>)
    requires Denotes(head, count, groups)
    ensures Fits(groups) && |groups| == count
  {
    if texts :| Full(head, count, texts) && groups == Values(texts) {
      ValuesFit(texts);
    } else {
      var left, right :| Gapped(head, count, left, right)
                         && groups == Values(left) + Zeros(count - |left| - |right|) + Values(right);
      ValuesFit(left);
      ValuesFit(right);
    }
  }

  /** Whatever expands, expands to eight 16-bit groups. */
  lemma ExpandedFits(ip: string)
    requires ExpandIPv6(ip).Some?
    ensures |ExpandIPv6(ip).value| == 8 && Fits(ExpandIPv6(ip).value)
  {
    ExpandedIsAddress(ip);
    AddressFits(ip, ExpandIPv6(ip).value);
  }

  lemma AddressFits(ip: string, groups: seq<nat>)
    requires IsAddress(ip, groups)
    ensures |groups| == 8 && Fits(groups)
  {
    if Denotes(ip, 8, groups) {
      DenotedFits(ip, 8, groups);
    } else {
      var head, v: nat, high :| WithQuad(ip, head, v) && Denotes(head, 6, high) && groups == high + TwoGroups(v);
      DenotedFits(head, 6, high);
    }
  }

  /** A text is private exactly when it is an address whose groups are in the private ranges. */
  lemma PrivateAddressIff(ip: string)
    ensures IsPrivateIPv6(ip) <==>
            exists groups :: IsAddress(ip, groups) && InPrivateRanges(groups)
  {
    if ExpandIPv6(ip).Some? {
      var groups := ExpandIPv6(ip).value;
      ExpandedFits(ip);
      ExpandedIsAddress(ip);
      PrivateGroupsIff(groups);
      forall other | IsAddress(ip, other)
        ensures other == groups
      {
        AddressExpands(ip, other);
      }
    } else {
      forall groups
        ensures !IsAddress(ip, groups)
      {
        ExpandsExactlyAddresses(ip, groups);
      }
    }
  }

  ghost predicate InPrivateRanges(groups: seq<nat>) {
    |groups| == 8
    && Classified(groups, 0xfe80 <= groups[0] <= 0xfebf, 0xfc00 <= groups[0] <= 0xfdff,
                  IPv4.PrivateOctets(groups[6] / 256, groups[6] % 256))
  }
}
