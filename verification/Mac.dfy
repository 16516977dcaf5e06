/** Canonical text of hardware addresses, read with or without leading zeros. */
module Mac {
  import opened Config
  import opened Text
  import opened Ipv6

  const MAC_LEN: nat := 6

  /** One or more hexadecimal digits for a value of at most eight bits. */
  function Byte(s: string): (r: Option<nat>)
    ensures r.Some? ==> r.value < 0x100
  {
    match Value(s, Hexadecimal)
    case None => None
    case Some(v) => if v < 0x100 then Some(v) else None
  }

  /** The text is the bytes p separated by colons, each in one or more hexadecimal digits. */
  ghost predicate ReadsAs(mac: string, p: seq<nat>) {
    var parts := Split(mac, ':');
    |parts| == |p| && forall i :: 0 <= i < |p| ==> Byte(parts[i]) == Some(p[i])
  }

  ghost predicate IsMac48(mac: string, p: seq<nat>) {
    |p| == MAC_LEN && ReadsAs(mac, p)
  }

  /** Reads six bytes separated by colons; nothing else is accepted. */
  method ParseMac48(mac: string) returns (r: Option<seq<nat>>)
    ensures r.Some? ==> IsMac48(mac, r.value) && IsOctets(r.value)
    ensures r.None? ==> forall p :: !IsMac48(mac, p)
  {
    var melem := Split(mac, ':');
    if |melem| != MAC_LEN {
      return None;
    }
    var hwaddr := new nat[MAC_LEN];
    var i := 0;
    while i < |melem|
      invariant 0 <= i <= |melem|
      invariant forall k :: 0 <= k < i ==> Byte(melem[k]) == Some(hwaddr[k])
    {
      var a := Byte(melem[i]);
      if a.None? {
        return None;
      }
      hwaddr[i] := a.value;
      i := i + 1;
    }
    r := Some(hwaddr[..]);
  }

  // --- The canonical text ---

  function HexPair(b: nat): string
    requires b < 0x100
  {
    [DIGITS[b / 16], DIGITS[b % 16]]
  }

  function HexPairs(p: seq<nat>): (parts: seq<string>)
    requires IsOctets(p)
    ensures |parts| == |p| && forall i :: 0 <= i < |p| ==> parts[i] == HexPair(p[i])
  {
    seq(|p|, i requires 0 <= i < |p| => HexPair(p[i]))
  }

  function MacText(p: seq<nat>): string
    requires IsOctets(p)
  {
    Join(HexPairs(p), ':')
  }

  lemma PairIsByte(b: nat)
    requires b < 0x100
    ensures Byte(HexPair(b)) == Some(b) && ':' !in HexPair(b)
  {
    var s := HexPair(b);
    DigitsHaveValues(b / 16);
    DigitsHaveValues(b % 16);
    assert s[..1] == [DIGITS[b / 16]];
    assert Value(s[..1], Hexadecimal) == Some(b / 16);
    assert ':' !in DIGITS;
  }

  lemma PartsOfText(p: seq<nat>)
    requires p != [] && IsOctets(p)
    ensures Split(MacText(p), ':') == HexPairs(p)
    ensures forall i :: 0 <= i < |p| ==> Byte(HexPairs(p)[i]) == Some(p[i])
  {
    var parts := HexPairs(p);
    forall i | 0 <= i < |p| ensures Byte(parts[i]) == Some(p[i]) && parts[i] != "" && ':' !in parts[i] {
      PairIsByte(p[i]);
    }
    SplitJoin(parts, ':');
  }

  /** The canonical text of any octets reads as those octets, and as no others. */
  lemma MacTextReads(p: seq<nat>, q: seq<nat>)
    requires p != [] && IsOctets(p)
    ensures ReadsAs(MacText(p), q) <==> q == p
  {
    PartsOfText(p);
  }

  /** So different octets have different texts, however many they are. */
  lemma MacTextIsInjective(p: seq<nat>, q: seq<nat>)
    requires p != [] && q != [] && IsOctets(p) && IsOctets(q)
    ensures MacText(p) == MacText(q) <==> p == q
  {
    MacTextReads(p, q);
    MacTextReads(q, q);
  }

  // --- Normalising ---

  /** The lengths of the address forms that the library reads. */
  predicate IsLength(n: nat) {
    n == 6 || n == 8 || n == 20
  }

  ghost predicate IsHardware(p: seq<nat>) {
    IsLength(|p|) && IsOctets(p)
  }

  /** What is relied on in the library's parser: it yields hardware addresses and it reads their
      canonical text. */
  ghost predicate IsMacParser(parse: string -> Option<seq<nat>>) {
    && (forall s :: parse(s).Some? ==> IsHardware(parse(s).value))
    && (forall p :: IsHardware(p) ==> parse(MacText(p)) == Some(p))
  }

  function Bytes(parts: seq<string>): (r: Option<seq<nat>>)
    ensures r.Some? ==> |r.value| == |parts| && IsOctets(r.value)
    ensures r.Some? <==> forall i :: 0 <= i < |parts| ==> |parts[i]| == 2 && Byte(parts[i]).Some?
    ensures r.Some? ==> forall i :: 0 <= i < |parts| ==> Byte(parts[i]) == Some(r.value[i])
  {
    if parts == [] then Some([])
    else
      assert parts == [parts[0]] + parts[1..];
      match (if |parts[0]| == 2 then Byte(parts[0]) else None, Bytes(parts[1..]))
      case (Some(b), Some(rest)) => Some([b] + rest)
      case _ => None
  }

  /** A reader of six, eight or twenty bytes of two digits each, separated by colons. */
  function ParseColons(s: string): (r: Option<seq<nat>>)
    ensures r.Some? ==> IsHardware(r.value)
  {
    var parts := Split(s, ':');
    if IsLength(|parts|) then Bytes(parts) else None
  }

  /** The theorems apply to that reader. */
  lemma ColonsQualify()
    ensures IsMacParser(ParseColons)
  {
    forall p | IsHardware(p) ensures ParseColons(MacText(p)) == Some(p) {
      PartsOfText(p);
      assert Bytes(HexPairs(p)).value == p;
    }
  }

  /** The address a token stands for, if any; the library's reading comes first. */
  ghost predicate Stands(parse: string -> Option<seq<nat>>, token: string, p: seq<nat>) {
    parse(token) == Some(p) || (parse(token).None? && IsMac48(token, p))
  }

  method NormalizeMac(parse: string -> Option<seq<nat>>, token: string) returns (t: string)
    requires IsMacParser(parse)
    ensures forall p :: Stands(parse, token, p) ==> IsOctets(p) && t == MacText(p)
    ensures (forall p :: !Stands(parse, token, p)) ==> t == token
  {
    var hw := parse(token);
    if hw.Some? {
      assert Stands(parse, token, hw.value);
      return MacText(hw.value);
    }
    var hw48 := ParseMac48(token);
    if hw48.Some? {
      assert Stands(parse, token, hw48.value);
      forall p | Stands(parse, token, p) ensures p == hw48.value {
        assert forall i :: 0 <= i < MAC_LEN ==> p[i] == hw48.value[i];
      }
      return MacText(hw48.value);
    }
    return token;
  }

  /** Two tokens that stand for addresses are normalised alike exactly when the addresses are
      equal, and a normalised token is normalised to itself. */
  lemma MacsAreCanonical(parse: string -> Option<seq<nat>>, a: string, b: string, p: seq<nat>, q: seq<nat>)
    requires IsMacParser(parse) && Stands(parse, a, p) && Stands(parse, b, q)
    ensures IsHardware(p) && IsHardware(q)
    ensures MacText(p) == MacText(q) <==> p == q
    ensures Stands(parse, MacText(p), p) && forall o :: Stands(parse, MacText(p), o) ==> o == p
  {
    StandsForHardware(parse, a, p);
    StandsForHardware(parse, b, q);
    MacTextIsInjective(p, q);
  }

  lemma StandsForHardware(parse: string -> Option<seq<nat>>, token: string, p: seq<nat>)
    requires IsMacParser(parse) && Stands(parse, token, p)
    ensures IsHardware(p)
  {
    if parse(token).None? {
      forall i | 0 <= i < |p| ensures p[i] < 0x100 {
        assert Byte(Split(token, ':')[i]) == Some(p[i]);
      }
    }
  }
}
