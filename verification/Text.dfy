/** Splitting, joining and reading numbers in text. */
module Text {
  import opened Wrappers

  /** The first index of c, or the length of s. */
  function IndexOf(s: string, c: char): (i: nat)
    ensures i <= |s|
    ensures i < |s| ==> s[i] == c
    ensures forall j :: 0 <= j < i ==> s[j] != c
  {
    if s == "" || s[0] == c then 0 else 1 + IndexOf(s[1..], c)
  }

  function Split(s: string, c: char): (parts: seq<string>)
    ensures |parts| > 0
    decreases |s|
  {
    var i := IndexOf(s, c);
    if i == |s| then [s] else [s[..i]] + Split(s[i + 1..], c)
  }

  function Join(parts: seq<string>, c: char): string {
    if parts == [] then ""
    else if |parts| == 1 then parts[0]
    else parts[0] + [c] + Join(parts[1..], c)
  }

  ghost predicate NoneContains(parts: seq<string>, c: char) {
    forall i :: 0 <= i < |parts| ==> c !in parts[i]
  }

  lemma FirstIndex(a: string, c: char, b: string)
    requires c !in a
    ensures IndexOf(a + [c] + b, c) == |a|
  {
    var s := a + [c] + b;
    assert s[|a|] == c;
    assert forall j :: 0 <= j < |a| ==> s[j] == a[j];
  }

  lemma AbsentIndex(s: string, c: char)
    requires c !in s
    ensures IndexOf(s, c) == |s|
  {
  }

  /** Joining parts free of the separator loses nothing. */
  lemma {:induction false} SplitOfJoin(parts: seq<string>, c: char)
    requires parts != [] && NoneContains(parts, c)
    ensures Split(Join(parts, c), c) == parts
  {
    if |parts| == 1 {
      AbsentIndex(parts[0], c);
    } else {
      var rest := Join(parts[1..], c);
      assert Join(parts, c) == parts[0] + [c] + rest;
      FirstIndex(parts[0], c, rest);
      assert (parts[0] + [c] + rest)[|parts[0]| + 1..] == rest;
      assert (parts[0] + [c] + rest)[..|parts[0]|] == parts[0];
      SplitOfJoin(parts[1..], c);
    }
  }

  lemma JoinMore(part: string, rest: seq<string>, c: char)
    requires rest != []
    ensures Join([part] + rest, c) == part + [c] + Join(rest, c)
  {
  }

  /** Splitting loses nothing, and its parts are free of the separator. */
  lemma {:induction false} JoinOfSplit(s: string, c: char)
    ensures Join(Split(s, c), c) == s && NoneContains(Split(s, c), c)
    decreases |s|
  {
    var i := IndexOf(s, c);
    if i < |s| {
      var rest := s[i + 1..];
      JoinOfSplit(rest, c);
      JoinMore(s[..i], Split(rest, c), c);
      assert s == s[..i] + [c] + rest;
    } else {
      assert s[..i] == s;
    }
  }

  // ----- Reading every part -----

  /** The numbers of all parts, if every part reads as one. */
  function ReadAll(parts: seq<string>, read: string -> Option<nat>): Option<seq<nat>> {
    if parts == [] then Some([])
    else
      var last := |parts| - 1;
      var before, number := ReadAll(parts[..last], read), read(parts[last]);
      if before.None? || number.None? then None else Some(before.value + [number.value])
  }

  lemma {:induction false} ReadAllIff(parts: seq<string>, read: string -> Option<nat>)
    ensures ReadAll(parts, read).Some? <==> forall i :: 0 <= i < |parts| ==> read(parts[i]).Some?
    ensures ReadAll(parts, read).Some? ==>
              && |ReadAll(parts, read).value| == |parts|
              && forall i :: 0 <= i < |parts| ==> read(parts[i]) == Some(ReadAll(parts, read).value[i])
  {
    if parts != [] {
      var last := |parts| - 1;
      ReadAllIff(parts[..last], read);
      assert forall i :: 0 <= i < last ==> parts[..last][i] == parts[i];
    }
  }

  lemma ReadAllGrows(parts: seq<string>, part: string, read: string -> Option<nat>)
    ensures ReadAll(parts + [part], read)
            == if ReadAll(parts, read).None? || read(part).None? then None
               else Some(ReadAll(parts, read).value + [read(part).value])
  {
  }

  // ----- Decimal numbers -----

  predicate IsDigit(c: char) {
    '0' <= c <= '9'
  }

  function DigitValue(c: char): (d: nat)
    requires IsDigit(c)
    ensures d < 10
  {
    c as int - '0' as int
  }

  function Digit(d: nat): (c: char)
    requires d < 10
    ensures IsDigit(c) && DigitValue(c) == d
  {
    (d + '0' as int) as char
  }

  /** The usual decimal form, without leading zeros. */
  function Decimal(n: nat): (s: string)
    ensures s != "" && forall i :: 0 <= i < |s| ==> IsDigit(s[i])
  {
    if n < 10 then [Digit(n)] else Decimal(n / 10) + [Digit(n % 10)]
  }

  function ToString(n: int): string {
    if n < 0 then "-" + Decimal(-n) else Decimal(n)
  }

  function DigitsValue(s: string): nat
    requires forall i :: 0 <= i < |s| ==> IsDigit(s[i])
  {
    if s == "" then 0 else 10 * DigitsValue(s[..|s| - 1]) + DigitValue(s[|s| - 1])
  }

  /** How many leading characters are digits. */
  function DigitCount(s: string): (k: nat)
    ensures k <= |s|
    ensures forall i :: 0 <= i < k ==> IsDigit(s[i])
  {
    if s == "" || !IsDigit(s[0]) then 0 else 1 + DigitCount(s[1..])
  }

  predicate IsSpace(c: char) {
    || '\t' <= c <= '\r' || c == ' ' || c == '\U{00A0}' || c == '\U{1680}' || '\U{2000}' <= c <= '\U{200A}'
    || c == '\U{2028}' || c == '\U{2029}' || c == '\U{202F}' || c == '\U{205F}' || c == '\U{3000}' || c == '\U{FEFF}'
  }

  function TrimStart(s: string): string {
    if s != "" && IsSpace(s[0]) then TrimStart(s[1..]) else s
  }

  /** The lenient integer reader: spaces, a sign, then as many digits as there are. */
  function ParseInt(s: string): Option<int> {
    var t := TrimStart(s);
    var signed := t != "" && (t[0] == '-' || t[0] == '+');
    var body := if signed then t[1..] else t;
    var k := DigitCount(body);
    if k == 0 then None
    else
      var value: int := DigitsValue(body[..k]);
      Some(if signed && t[0] == '-' then -value else value)
  }

  lemma {:induction false} DecimalReadsBack(n: nat)
    ensures DigitsValue(Decimal(n)) == n
  {
    if n >= 10 {
      DecimalReadsBack(n / 10);
      assert Decimal(n)[..|Decimal(n)| - 1] == Decimal(n / 10);
    } else {
      assert Decimal(n)[..0] == "";
    }
  }

  lemma {:induction false} AllDigits(s: string)
    requires forall i :: 0 <= i < |s| ==> IsDigit(s[i])
    ensures DigitCount(s) == |s|
  {
    if s != "" {
      AllDigits(s[1..]);
    }
  }

  lemma ParseIntOfDecimal(n: nat)
    ensures ParseInt(Decimal(n)) == Some(n)
  {
    var s := Decimal(n);
    assert IsDigit(s[0]);
    assert TrimStart(s) == s;
    AllDigits(s);
    assert s[..|s|] == s;
    DecimalReadsBack(n);
  }

  lemma ParseIntOfToString(n: int)
    ensures ParseInt(ToString(n)) == Some(n)
  {
    if n >= 0 {
      ParseIntOfDecimal(n);
    } else {
      var s := Decimal(-n);
      assert TrimStart("-" + s) == "-" + s;
      assert ("-" + s)[1..] == s;
      AllDigits(s);
      assert s[..|s|] == s;
      DecimalReadsBack(-n);
    }
  }

  lemma NumberHasNo(n: int, c: char)
    requires !IsDigit(c) && c != '-'
    ensures c !in ToString(n)
  {
  }

  // ----- Hexadecimal groups -----

  function HexValue(c: char): Option<nat> {
    if '0' <= c <= '9' then Some(c as int - '0' as int)
    else if 'a' <= c <= 'f' then Some(c as int - 'a' as int + 10)
    else if 'A' <= c <= 'F' then Some(c as int - 'A' as int + 10)
    else None
  }

  /** One to four hexadecimal digits of either case. */
  predicate IsGroup(s: string) {
    1 <= |s| <= 4 && forall i :: 0 <= i < |s| ==> HexValue(s[i]).Some?
  }

  function GroupValue(s: string): nat
    requires forall i :: 0 <= i < |s| ==> HexValue(s[i]).Some?
  {
    if s == "" then 0 else 16 * GroupValue(s[..|s| - 1]) + HexValue(s[|s| - 1]).value
  }

  lemma GroupFits(s: string)
    requires IsGroup(s)
    ensures GroupValue(s) < 0x1_0000
  {
    var n := |s|;
    assert forall i :: 0 <= i < |s| ==> HexValue(s[i]).value < 16;
    assert s[..n - 1][..|s[..n - 1]|] == s[..n - 1];
    if n > 1 {
      assert GroupValue(s) == 16 * GroupValue(s[..n - 1]) + HexValue(s[n - 1]).value;
      GroupBound(s[..n - 1]);
    }
  }

  lemma {:induction false} GroupBound(s: string)
    requires |s| <= 3 && forall i :: 0 <= i < |s| ==> HexValue(s[i]).Some?
    ensures GroupValue(s) < if |s| == 0 then 1 else if |s| == 1 then 16 else if |s| == 2 then 256 else 4096
  {
    if s != "" {
      GroupBound(s[..|s| - 1]);
    }
  }
}
