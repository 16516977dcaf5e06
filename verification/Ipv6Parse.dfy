/** Reading the text forms of an IPv6 address (section 2.2 of RFC 4291), and that it undoes
    the printer. */
module Ipv6Parse {
  import opened Config
  import opened Text
  import opened Ipv6

  /** One to four hexadecimal digits. */
  function ParseGroup(s: string): (r: Option<nat>)
    ensures r.Some? ==> r.value < 0x1_0000
  {
    if |s| > 4 then None
    else
      match Value(s, Hexadecimal)
      case None => None
      case Some(v) => if v < 0x1_0000 then Some(v) else None
  }

  function ParseOctet(s: string): Option<nat> {
    match Value(s, Decimal)
    case None => None
    case Some(v) => if v < 0x100 then Some(v) else None
  }

  /** The last two groups may be written as an IPv4 address. */
  function ParseDotted(s: string): (r: Option<seq<nat>>)
    ensures r.Some? ==> |r.value| == 2 && forall k :: 0 <= k < 2 ==> r.value[k] < 0x1_0000
  {
    var parts := Split(s, '.');
    if |parts| != 4 then None
    else
      match (ParseOctet(parts[0]), ParseOctet(parts[1]), ParseOctet(parts[2]), ParseOctet(parts[3]))
      case (Some(a), Some(b), Some(c), Some(d)) =>
        if a < 0x100 && b < 0x100 && c < 0x100 && d < 0x100 then Some([0x100 * a + b, 0x100 * c + d]) else None
      case _ => None
  }

  function ParseParts(parts: seq<string>, last: bool): (r: Option<seq<nat>>)
    ensures r.Some? ==> forall k :: 0 <= k < |r.value| ==> r.value[k] < 0x1_0000
  {
    if parts == [] then Some([])
    else if last && |parts| == 1 && '.' in parts[0] then ParseDotted(parts[0])
    else
      match (ParseGroup(parts[0]), ParseParts(parts[1..], last))
      case (Some(v), Some(rest)) => Some([v] + rest)
      case _ => None
  }

  /** The groups on one side of a "::", none if that side is empty. */
  function ParseSide(s: string, last: bool): (r: Option<seq<nat>>)
    ensures r.Some? ==> forall k :: 0 <= k < |r.value| ==> r.value[k] < 0x1_0000
  {
    if s == "" then Some([]) else ParseParts(Split(s, ':'), last)
  }

  /** The first "::". */
  function DoubleColon(s: string): (r: Option<nat>)
    ensures r.Some? ==> r.value + 1 < |s| && s[r.value] == ':' && s[r.value + 1] == ':'
  {
    if |s| < 2 then None
    else if s[0] == ':' && s[1] == ':' then Some(0)
    else
      match DoubleColon(s[1..])
      case None => None
      case Some(i) => Some(i + 1)
  }

  function Zeros(n: nat): (z: seq<nat>)
    ensures |z| == n && forall k :: 0 <= k < n ==> z[k] == 0
  {
    seq(n, _ => 0)
  }

  function ParseText(s: string): (r: Option<seq<nat>>)
    ensures r.Some? ==> IsGroups(r.value)
  {
    match DoubleColon(s)
    case None =>
      (match ParseSide(s, true)
       case Some(g) => if |g| == 8 then Some(g) else None
       case None => None)
    case Some(i) =>
      match (ParseSide(s[..i], false), ParseSide(s[i + 2..], true))
      case (Some(l), Some(r)) => if |l| + |r| <= 7 then Some(l + Zeros(8 - |l| - |r|) + r) else None
      case _ => None
  }

  // --- Reading what was printed ---

  ghost predicate Small(g: seq<nat>) {
    forall k :: 0 <= k < |g| ==> g[k] < 0x1_0000
  }

  lemma HexLength(v: nat)
    requires v < 0x1_0000
    ensures |Hex(v)| <= 4
  {
    var a := v / 0x10;
    var b := a / 0x10;
    assert |Hex(b / 0x10)| == 1;
    assert |Hex(b)| <= 2;
    assert |Hex(a)| <= 3;
  }

  lemma GroupOfHex(v: nat)
    requires v < 0x1_0000
    ensures ParseGroup(Hex(v)) == Some(v)
  {
    HexLength(v);
    ValueOfNumeral(v, Hexadecimal);
  }

  lemma {:induction false} HexPartsArePlain(g: seq<nat>)
    ensures PlainParts(HexParts(g), ':')
    ensures forall i :: 0 <= i < |g| ==> Uses(HexParts(g)[i], DIGITS)
    ensures Small(g) ==> forall i :: 0 <= i < |g| ==> |HexParts(g)[i]| <= 4
  {
    if g != [] {
      NumeralUsesDigits(g[0], Hexadecimal);
      HexPartsArePlain(g[1..]);
      if Small(g) {
        HexLength(g[0]);
      }
    }
  }

  lemma {:induction false} PartsOfHex(g: seq<nat>, last: bool)
    requires Small(g)
    ensures ParseParts(HexParts(g), last) == Some(g)
  {
    if g != [] {
      GroupOfHex(g[0]);
      NumeralUsesDigits(g[0], Hexadecimal);
      assert '.' !in DIGITS && '.' !in Hex(g[0]);
      PartsOfHex(g[1..], last);
      assert HexParts(g)[1..] == HexParts(g[1..]);
      assert [g[0]] + g[1..] == g;
    }
  }

  lemma SideOfHex(g: seq<nat>, last: bool)
    requires Small(g)
    ensures ParseSide(HexJoin(g), last) == Some(g)
    ensures HexJoin(g) == "" <==> g == []
  {
    if g != [] {
      HexPartsArePlain(g);
      JoinIsTidy(HexParts(g), ':');
      SplitJoin(HexParts(g), ':');
      PartsOfHex(g, last);
    }
  }

  ghost predicate NoDouble(s: string) {
    forall i :: 0 <= i < |s| - 1 ==> !(s[i] == ':' && s[i + 1] == ':')
  }

  lemma {:induction false} NoDoubleNoColons(s: string)
    requires NoDouble(s)
    ensures DoubleColon(s) == None
  {
    if |s| >= 2 {
      NoDoubleNoColons(s[1..]);
    }
  }

  lemma {:induction false} DoubleAfter(s: string, t: string)
    requires NoDouble(s) && (s == "" || s[|s| - 1] != ':')
    ensures DoubleColon(s + "::" + t) == Some(|s|)
  {
    var whole := s + "::" + t;
    if s != "" {
      assert whole[0] == s[0];
      assert |s| > 1 ==> whole[1] == s[1];
      assert whole[1..] == s[1..] + "::" + t;
      DoubleAfter(s[1..], t);
    }
  }

  lemma HexJoinIsTidy(g: seq<nat>)
    ensures NoDouble(HexJoin(g)) && (HexJoin(g) == "" || HexJoin(g)[|HexJoin(g)| - 1] != ':')
  {
    if g != [] {
      HexPartsArePlain(g);
      JoinIsTidy(HexParts(g), ':');
    }
  }

  lemma ParseAround(s: string, i: nat, l: seq<nat>, r: seq<nat>)
    requires DoubleColon(s) == Some(i) && |l| + |r| <= 7
    requires ParseSide(s[..i], false) == Some(l) && ParseSide(s[i + 2..], true) == Some(r)
    ensures ParseText(s) == Some(l + Zeros(8 - |l| - |r|) + r)
  {
  }

  lemma CutAround(a: string, b: string)
    ensures (a + "::" + b)[..|a|] == a && (a + "::" + b)[|a| + 2..] == b
  {
  }

  lemma CompressedParses(l: seq<nat>, r: seq<nat>)
    requires Small(l) && Small(r) && |l| + |r| <= 7
    ensures ParseText(Compressed(l, r)) == Some(l + Zeros(8 - |l| - |r|) + r)
  {
    var a, b := HexJoin(l), HexJoin(r);
    HexJoinIsTidy(l);
    DoubleAfter(a, b);
    SideOfHex(l, false);
    SideOfHex(r, true);
    CutAround(a, b);
    ParseAround(a + "::" + b, |a|, l, r);
  }

  lemma PlainParses(g: seq<nat>)
    requires IsGroups(g)
    ensures ParseText(HexJoin(g)) == Some(g)
  {
    HexJoinIsTidy(g);
    NoDoubleNoColons(HexJoin(g));
    SideOfHex(g, true);
  }

  lemma RunIsCut(g: seq<nat>, b: nat, n: nat)
    requires b + n <= |g| && forall k :: b <= k < b + n ==> g[k] == 0
    ensures g[..b] + Zeros(n) + g[b + n..] == g
  {
  }

  /** Reading the printed text gives back the address, for every address. */
  lemma RenderParses(g: seq<nat>)
    requires IsGroups(g)
    ensures ParseText(Render(g)) == Some(g)
  {
    var b := BestStart(g, 0);
    var n := RunLength(g, b);
    if n >= 2 {
      RenderCompressed(g, b, n);
      RunIsZeros(g, b);
      RunIsCut(g, b, n);
      CompressedParses(g[..b], g[b + n..]);
    } else {
      RenderPlain(g);
      PlainParses(g);
    }
  }

  /** The same on octets, and hence: no two addresses have the same text. */
  lemma RoundTrip(p: seq<nat>)
    requires IsAddress(p)
    ensures ParseText(Render(Groups(p))).Some? && Octets(ParseText(Render(Groups(p))).value) == p
  {
    OctetsOfGroups(p);
    RenderParses(Groups(p));
  }

  lemma PrinterIsInjective(p: seq<nat>, q: seq<nat>)
    requires IsAddress(p) && IsAddress(q) && Render(Groups(p)) == Render(Groups(q))
    ensures p == q
  {
    RoundTrip(p);
    RoundTrip(q);
  }
}
