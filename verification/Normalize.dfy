/** Canonical text of numbers, addresses and prefixes of either address family. */
module Normalize {
  import opened Config
  import opened Text
  import opened Ipv6
  import opened Ipv6Parse

  const MAX_UINT64: nat := 0xFFFF_FFFF_FFFF_FFFF

  function ParseUint(s: string): (r: Option<nat>)
    ensures r.Some? ==> r.value <= MAX_UINT64
  {
    match Value(s, Decimal)
    case None => None
    case Some(v) => if v <= MAX_UINT64 then Some(v) else None
  }

  function NormalizeNumber(token: string): string {
    match ParseUint(token)
    case None => token
    case Some(v) => Numeral(v, Decimal)
  }

  lemma NumberParses(v: nat)
    requires v <= MAX_UINT64
    ensures ParseUint(Numeral(v, Decimal)) == Some(v)
    ensures '/' !in Numeral(v, Decimal) && ':' !in Numeral(v, Decimal)
  {
    ValueOfNumeral(v, Decimal);
    NumeralUsesDigits(v, Decimal);
    assert '/' !in DIGITS && ':' !in DIGITS;
  }

  /** Numbers normalise to the same text exactly when they are equal, and once is enough. */
  lemma NumbersAreCanonical(a: string, b: string)
    ensures NormalizeNumber(NormalizeNumber(a)) == NormalizeNumber(a)
    ensures ParseUint(a).Some? && ParseUint(b).Some? ==>
              (NormalizeNumber(a) == NormalizeNumber(b) <==> ParseUint(a) == ParseUint(b))
  {
    if ParseUint(a).Some? { NumberParses(ParseUint(a).value); }
    if ParseUint(b).Some? { NumberParses(ParseUint(b).value); }
  }

  // --- Masks ---

  /** A number of w bits with all but its first k bits cleared. */
  function Keep(b: nat, w: nat, k: nat): nat
    requires k <= w
  {
    if k == w then b else 2 * Keep(b / 2, w - 1, k)
  }

  /** Bit j of a number of w bits, the first being the most significant. */
  function BitOf(b: nat, w: nat, j: nat): nat
    requires j < w
  {
    if j == w - 1 then b % 2 else BitOf(b / 2, w - 1, j)
  }

  function Pow2(w: nat): nat {
    if w == 0 then 1 else 2 * Pow2(w - 1)
  }

  lemma {:induction false} BitOfKeep(b: nat, w: nat, k: nat, j: nat)
    requires j < w && k <= w
    ensures BitOf(Keep(b, w, k), w, j) == if j < k then BitOf(b, w, j) else 0
  {
    if k < w && j < w - 1 {
      BitOfKeep(b / 2, w - 1, k, j);
    }
  }

  lemma {:induction false} KeepIsSmaller(b: nat, w: nat, k: nat)
    requires k <= w
    ensures Keep(b, w, k) <= b
  {
    if k < w {
      KeepIsSmaller(b / 2, w - 1, k);
    }
  }

  predicate SameBit(b: nat, c: nat, w: nat, j: nat)
    requires j < w
  {
    BitOf(b, w, j) == BitOf(c, w, j)
  }

  /** A number is determined by its bits. */
  lemma {:induction false} BitsDetermine(b: nat, c: nat, w: nat)
    requires b < Pow2(w) && c < Pow2(w)
    requires forall j :: 0 <= j < w ==> SameBit(b, c, w, j)
    ensures b == c
  {
    if w > 0 {
      assert SameBit(b, c, w, w - 1);
      var v := w - 1;
      forall j | 0 <= j < v ensures SameBit(b / 2, c / 2, v, j) {
        assert SameBit(b, c, w, j);
      }
      BitsDetermine(b / 2, c / 2, v);
    }
  }

  /** How many of the first n bits of an address fall into octet i. */
  function Kept(n: nat, i: nat): (k: nat)
    ensures k <= 8
  {
    if n <= 8 * i then 0 else if n - 8 * i >= 8 then 8 else n - 8 * i
  }

  function Mask(p: seq<nat>, n: nat): (m: seq<nat>)
    ensures |m| == |p|
  {
    seq(|p|, i requires 0 <= i < |p| => Keep(p[i], 8, Kept(n, i)))
  }

  function Bit(p: seq<nat>, i: nat): nat
    requires i < 8 * |p|
  {
    BitOf(p[i / 8], 8, i % 8)
  }

  lemma MaskIsOctets(p: seq<nat>, n: nat)
    requires IsOctets(p)
    ensures IsOctets(Mask(p, n))
  {
    forall i | 0 <= i < |p| ensures Mask(p, n)[i] < 0x100 {
      KeepIsSmaller(p[i], 8, Kept(n, i));
    }
  }

  /** Masking keeps the first n bits and clears the rest. */
  lemma BitOfMask(p: seq<nat>, n: nat, i: nat)
    requires i < 8 * |p|
    ensures Bit(Mask(p, n), i) == if i < n then Bit(p, i) else 0
  {
    BitOfKeep(p[i / 8], 8, Kept(n, i / 8), i % 8);
  }

  lemma SameBitsSameAddress(p: seq<nat>, q: seq<nat>)
    requires IsOctets(p) && IsOctets(q) && |p| == |q|
    requires forall i :: 0 <= i < 8 * |p| ==> Bit(p, i) == Bit(q, i)
    ensures p == q
  {
    forall k | 0 <= k < |p| ensures p[k] == q[k] {
      forall j | 0 <= j < 8 ensures SameBit(p[k], q[k], 8, j) {
        assert Bit(p, 8 * k + j) == Bit(q, 8 * k + j);
      }
      assert Pow2(4) == 16 && Pow2(8) == 256;
      BitsDetermine(p[k], q[k], 8);
    }
  }

  ghost predicate AgreeOn(p: seq<nat>, q: seq<nat>, n: nat)
    requires |p| == |q|
  {
    forall i :: 0 <= i < n && i < 8 * |p| ==> Bit(p, i) == Bit(q, i)
  }

  /** Two masked addresses are equal exactly when their first n bits agree. */
  lemma MasksCompareBits(p: seq<nat>, q: seq<nat>, n: nat)
    requires IsOctets(p) && IsOctets(q) && |p| == |q|
    ensures Mask(p, n) == Mask(q, n) <==> AgreeOn(p, q, n)
  {
    MaskIsOctets(p, n);
    MaskIsOctets(q, n);
    forall i | 0 <= i < 8 * |p|
      ensures Bit(Mask(p, n), i) == if i < n then Bit(p, i) else 0
      ensures Bit(Mask(q, n), i) == if i < n then Bit(q, i) else 0
    {
      BitOfMask(p, n, i);
      BitOfMask(q, n, i);
    }
    if AgreeOn(p, q, n) {
      SameBitsSameAddress(Mask(p, n), Mask(q, n));
    }
  }

  lemma MaskTwice(p: seq<nat>, n: nat)
    requires IsOctets(p)
    ensures Mask(Mask(p, n), n) == Mask(p, n)
  {
    MaskIsOctets(p, n);
    forall i | 0 <= i < n && i < 8 * |p| ensures Bit(Mask(p, n), i) == Bit(p, i) {
      BitOfMask(p, n, i);
    }
    MasksCompareBits(Mask(p, n), p, n);
  }

  // --- Prefixes of either family ---

  datatype Family = V4 | V6 {
    function Octets(): nat {
      if V4? then 4 else 16
    }

    function Bits(): nat {
      8 * Octets()
    }

    /** An IPv6 token has a colon, an IPv4 token has none. */
    predicate Applies(token: string) {
      if V4? then ':' !in token else ':' in token
    }
  }

  function DottedParts(p: seq<nat>): (parts: seq<string>)
    ensures |parts| == |p|
  {
    if p == [] then [] else [Numeral(p[0], Decimal)] + DottedParts(p[1..])
  }

  function RenderAddress(f: Family, p: seq<nat>): string
    requires |p| == f.Octets()
  {
    if f.V4? then Join(DottedParts(p), '.') else Render(Groups(p))
  }

  ghost predicate OfFamily(f: Family, p: seq<nat>) {
    |p| == f.Octets() && IsOctets(p)
  }

  /** What the canonicaliser relies on in a parser of addresses: it yields addresses of the
      family, none for a text with a slash, and it reads the canonical text. */
  ghost predicate IsParser(f: Family, parse: string -> Option<seq<nat>>) {
    && (forall s :: parse(s).Some? ==> OfFamily(f, parse(s).value) && '/' !in s)
    && (forall p :: OfFamily(f, p) ==> parse(RenderAddress(f, p)) == Some(p))
  }

  function Slashed(a: string, n: nat): string {
    a + ['/'] + Numeral(n, Decimal)
  }

  function NormalizePrefix(f: Family, parse: string -> Option<seq<nat>>, token: string): string
    requires forall s :: parse(s).Some? ==> |parse(s).value| == f.Octets()
  {
    if !f.Applies(token) then token
    else
      match Index(token, '/')
      case None => token
      case Some(i) =>
        match (parse(token[..i]), ParseUint(token[i + 1..]))
        case (Some(p), Some(n)) =>
          if n > f.Bits() then Slashed(RenderAddress(f, p), n)
          else Slashed(RenderAddress(f, Mask(p, n)), n)
        case _ => token
  }

  const ADDRESS_CHARACTERS := "0123456789abcdef:"
  const DOTTED_CHARACTERS := "0123456789abcdef."

  lemma {:induction false} DottedPartsArePlain(p: seq<nat>)
    ensures PlainParts(DottedParts(p), '.')
    ensures forall i :: 0 <= i < |p| ==> Uses(DottedParts(p)[i], DIGITS)
    ensures forall i :: 0 <= i < |p| ==> DottedParts(p)[i] == Numeral(p[i], Decimal)
  {
    if p != [] {
      NumeralUsesDigits(p[0], Decimal);
      DottedPartsArePlain(p[1..]);
    }
  }

  lemma HexJoinUses(g: seq<nat>)
    ensures Uses(HexJoin(g), ADDRESS_CHARACTERS)
  {
    HexPartsArePlain(g);
    assert Uses(DIGITS, ADDRESS_CHARACTERS);
    JoinUses(HexParts(g), ':', ADDRESS_CHARACTERS);
  }

  lemma RenderUses(g: seq<nat>)
    ensures Uses(Render(g), ADDRESS_CHARACTERS)
  {
    var b := BestStart(g, 0);
    var n := RunLength(g, b);
    if n >= 2 {
      RenderCompressed(g, b, n);
      HexJoinUses(g[..b]);
      HexJoinUses(g[b + n..]);
    } else {
      RenderPlain(g);
      HexJoinUses(g);
    }
  }

  lemma RenderHasColon(g: seq<nat>)
    requires |g| == 8
    ensures ':' in Render(g)
  {
    var b := BestStart(g, 0);
    var n := RunLength(g, b);
    if n >= 2 {
      RenderCompressed(g, b, n);
      assert Compressed(g[..b], g[b + n..])[|HexJoin(g[..b])|] == ':';
    } else {
      RenderPlain(g);
      var parts := HexParts(g);
      assert Join(parts, ':')[|parts[0]|] == ':';
    }
  }

  /** The canonical text of an address belongs to its family and has no slash. */
  lemma RenderedBelongs(f: Family, p: seq<nat>)
    requires |p| == f.Octets()
    ensures f.Applies(RenderAddress(f, p)) && '/' !in RenderAddress(f, p)
  {
    if f.V4? {
      DottedPartsArePlain(p);
      assert Uses(DIGITS, DOTTED_CHARACTERS);
      JoinUses(DottedParts(p), '.', DOTTED_CHARACTERS);
      assert ':' !in DOTTED_CHARACTERS && '/' !in DOTTED_CHARACTERS;
    } else {
      RenderHasColon(Groups(p));
      RenderUses(Groups(p));
      assert '/' !in ADDRESS_CHARACTERS;
    }
  }

  /** The address a canonical prefix shows. */
  function Shown(f: Family, p: seq<nat>, n: nat): seq<nat> {
    if n > f.Bits() then p else Mask(p, n)
  }

  /** What a canonical prefix normalises to. */
  lemma SlashedNormalizes(f: Family, parse: string -> Option<seq<nat>>, p: seq<nat>, n: nat)
    requires IsParser(f, parse) && OfFamily(f, p) && n <= MAX_UINT64
    ensures NormalizePrefix(f, parse, Slashed(RenderAddress(f, p), n))
         == Slashed(RenderAddress(f, Shown(f, p, n)), n)
  {
    var a := RenderAddress(f, p);
    var m := Numeral(n, Decimal);
    var token := Slashed(a, n);
    RenderedBelongs(f, p);
    NumberParses(n);
    IndexIsFirst(a, m, '/');
    assert token[..|a|] == a && token[|a| + 1..] == m;
    assert f.Applies(token);
  }

  /** The parts of a token that is normalised. */
  ghost predicate Reads(f: Family, parse: string -> Option<seq<nat>>, token: string, p: seq<nat>, n: nat) {
    && f.Applies(token)
    && Index(token, '/').Some?
    && parse(token[..Index(token, '/').value]) == Some(p)
    && ParseUint(token[Index(token, '/').value + 1..]) == Some(n)
  }

  ghost predicate Parses(f: Family, parse: string -> Option<seq<nat>>, token: string) {
    && f.Applies(token)
    && Index(token, '/').Some?
    && parse(token[..Index(token, '/').value]).Some?
    && ParseUint(token[Index(token, '/').value + 1..]).Some?
  }

  lemma PrefixLeftAlone(f: Family, parse: string -> Option<seq<nat>>, token: string)
    requires forall s :: parse(s).Some? ==> |parse(s).value| == f.Octets()
    requires !Parses(f, parse, token)
    ensures NormalizePrefix(f, parse, token) == token
  {
  }

  lemma PrefixRewritten(f: Family, parse: string -> Option<seq<nat>>, token: string, p: seq<nat>, n: nat)
    requires IsParser(f, parse) && Reads(f, parse, token, p, n)
    ensures OfFamily(f, p) && OfFamily(f, Shown(f, p, n)) && n <= MAX_UINT64
    ensures NormalizePrefix(f, parse, token) == Slashed(RenderAddress(f, Shown(f, p, n)), n)
  {
    MaskIsOctets(p, n);
  }

  lemma ShownTwice(f: Family, p: seq<nat>, n: nat)
    requires OfFamily(f, p)
    ensures Shown(f, Shown(f, p, n), n) == Shown(f, p, n)
  {
    MaskTwice(p, n);
  }

  /** Normalising a prefix once is enough, for every string. */
  lemma PrefixIsIdempotent(f: Family, parse: string -> Option<seq<nat>>, token: string)
    requires IsParser(f, parse)
    ensures NormalizePrefix(f, parse, NormalizePrefix(f, parse, token)) == NormalizePrefix(f, parse, token)
  {
    if Parses(f, parse, token) {
      var i := Index(token, '/').value;
      var p, n := parse(token[..i]).value, ParseUint(token[i + 1..]).value;
      PrefixRewritten(f, parse, token, p, n);
      SlashedNormalizes(f, parse, Shown(f, p, n), n);
      ShownTwice(f, p, n);
    } else {
      PrefixLeftAlone(f, parse, token);
    }
  }

  lemma SlashedIsInjective(a: string, b: string, n: nat, m: nat)
    requires '/' !in a && '/' !in b && Slashed(a, n) == Slashed(b, m)
    ensures a == b && Numeral(n, Decimal) == Numeral(m, Decimal)
  {
    IndexIsFirst(a, Numeral(n, Decimal), '/');
    IndexIsFirst(b, Numeral(m, Decimal), '/');
    assert a == Slashed(a, n)[..|a|] && b == Slashed(b, m)[..|b|];
    assert Numeral(n, Decimal) == Slashed(a, n)[|a| + 1..];
    assert Numeral(m, Decimal) == Slashed(b, m)[|b| + 1..];
  }

  lemma RenderedIsInjective(f: Family, parse: string -> Option<seq<nat>>, p: seq<nat>, q: seq<nat>)
    requires IsParser(f, parse) && OfFamily(f, p) && OfFamily(f, q)
    requires RenderAddress(f, p) == RenderAddress(f, q)
    ensures p == q
  {
    assert parse(RenderAddress(f, p)) == Some(p);
    assert parse(RenderAddress(f, q)) == Some(q);
  }

  /** A length beyond the last bit masks nothing. */
  lemma ShownIsMasked(f: Family, p: seq<nat>, n: nat)
    requires OfFamily(f, p)
    ensures Shown(f, p, n) == Mask(p, n)
  {
    if n > f.Bits() {
      forall i | 0 <= i < |p| ensures Mask(p, n)[i] == p[i] {
        assert Kept(n, i) == 8;
      }
    }
  }

  /** Prefixes are canonical: two tokens, however written, normalise to the same text exactly
      when their lengths are equal and the addresses agree on that many bits; on all of them
      when the length is beyond the last bit. */
  lemma PrefixesAreCanonical(f: Family, parse: string -> Option<seq<nat>>, s: string, t: string,
                             p: seq<nat>, n: nat, q: seq<nat>, m: nat)
    requires IsParser(f, parse) && Reads(f, parse, s, p, n) && Reads(f, parse, t, q, m)
    ensures NormalizePrefix(f, parse, s) == NormalizePrefix(f, parse, t) <==> n == m && AgreeOn(p, q, n)
  {
    PrefixRewritten(f, parse, s, p, n);
    PrefixRewritten(f, parse, t, q, m);
    ShownIsMasked(f, p, n);
    ShownIsMasked(f, q, m);
    var a, b := RenderAddress(f, Mask(p, n)), RenderAddress(f, Mask(q, m));
    MasksCompareBits(p, q, n);
    if Slashed(a, n) == Slashed(b, m) {
      RenderedBelongs(f, Mask(p, n));
      RenderedBelongs(f, Mask(q, m));
      SlashedIsInjective(a, b, n, m);
      NumberParses(n);
      NumberParses(m);
      RenderedIsInjective(f, parse, Mask(p, n), Mask(q, m));
    }
  }

  // --- Addresses with or without a length ---

  function NormalizeAddress(f: Family, parse: string -> Option<seq<nat>>, token: string): string
    requires forall s :: parse(s).Some? ==> |parse(s).value| == f.Octets()
    decreases |token|
  {
    if !f.Applies(token) then token
    else
      match parse(token)
      case Some(p) => RenderAddress(f, p)
      case None =>
        match Index(token, '/')
        case None => token
        case Some(i) => NormalizeAddress(f, parse, token[..i]) + ['/'] + NormalizeNumber(token[i + 1..])
  }

  lemma BareAddress(f: Family, parse: string -> Option<seq<nat>>, a: string)
    requires IsParser(f, parse) && '/' !in a
    ensures var t := NormalizeAddress(f, parse, a);
            && '/' !in t && NormalizeAddress(f, parse, t) == t
            && (f.Applies(t) <==> f.Applies(a))
  {
    if f.Applies(a) && parse(a).Some? {
      RenderedBelongs(f, parse(a).value);
      assert parse(RenderAddress(f, parse(a).value)) == parse(a);
    }
  }

  lemma NumberApplies(s: string)
    ensures ':' in NormalizeNumber(s) <==> ':' in s
  {
    if ParseUint(s).Some? {
      NumberParses(ParseUint(s).value);
      ValueHasNoColon(s);
    }
  }

  lemma {:induction false} ValueHasNoColon(s: string)
    requires Value(s, Decimal).Some?
    ensures ':' !in s
  {
    var n := |s| - 1;
    assert s == s[..n] + [s[n]];
    if n > 0 {
      ValueHasNoColon(s[..n]);
    }
  }

  /** An address and a length are normalised apart. */
  lemma AddressInParts(f: Family, parse: string -> Option<seq<nat>>, a: string, m: string)
    requires IsParser(f, parse) && '/' !in a && f.Applies(a + ['/'] + m)
    ensures NormalizeAddress(f, parse, a + ['/'] + m)
         == NormalizeAddress(f, parse, a) + ['/'] + NormalizeNumber(m)
  {
    var token := a + ['/'] + m;
    IndexIsFirst(a, m, '/');
    assert token[|a|] == '/';
    assert parse(token).None?;
    assert token[..|a|] == a && token[|a| + 1..] == m;
  }

  lemma PartsApply(f: Family, parse: string -> Option<seq<nat>>, a: string, m: string)
    requires IsParser(f, parse) && '/' !in a && f.Applies(a + ['/'] + m)
    ensures f.Applies(NormalizeAddress(f, parse, a) + ['/'] + NormalizeNumber(m))
  {
    BareAddress(f, parse, a);
    NumberApplies(m);
    assert f.V4? ==> f.Applies(a) && ':' !in m by {
      if f.V4? { InParts(a, m); }
    }
    assert f.V6? ==> f.Applies(a) || ':' in m;
    InParts(NormalizeAddress(f, parse, a), NormalizeNumber(m));
  }

  lemma InParts(a: string, m: string)
    ensures ':' in a + ['/'] + m <==> ':' in a || ':' in m
  {
    var t := a + ['/'] + m;
    if ':' in a {
      var i :| 0 <= i < |a| && a[i] == ':';
      assert t[i] == ':';
    } else if ':' in m {
      var i :| 0 <= i < |m| && m[i] == ':';
      assert t[|a| + 1 + i] == ':';
    }
  }

  /** Normalising an address, with or without a length, once is enough. */
  lemma AddressIsIdempotent(f: Family, parse: string -> Option<seq<nat>>, token: string)
    requires IsParser(f, parse)
    ensures NormalizeAddress(f, parse, NormalizeAddress(f, parse, token)) == NormalizeAddress(f, parse, token)
  {
    if '/' !in token {
      BareAddress(f, parse, token);
    } else if f.Applies(token) {
      var i := Index(token, '/').value;
      var a, m := token[..i], token[i + 1..];
      assert token == a + ['/'] + m;
      AddressInParts(f, parse, a, m);
      PartsApply(f, parse, a, m);
      BareAddress(f, parse, a);
      AddressInParts(f, parse, NormalizeAddress(f, parse, a), NormalizeNumber(m));
      NumbersAreCanonical(m, m);
    }
  }

  // --- The parsers of the standard text forms qualify ---

  function ParseV6(s: string): Option<seq<nat>> {
    if '/' in s then None
    else
      match ParseText(s)
      case None => None
      case Some(g) => Some(Ipv6.Octets(g))
  }

  function ParseV4(s: string): (r: Option<seq<nat>>)
    ensures r.Some? ==> OfFamily(V4, r.value)
  {
    if '/' in s then None
    else
      var parts := Split(s, '.');
      if |parts| != 4 then None
      else
        match (ParseOctet(parts[0]), ParseOctet(parts[1]), ParseOctet(parts[2]), ParseOctet(parts[3]))
        case (Some(a), Some(b), Some(c), Some(d)) =>
          if a < 0x100 && b < 0x100 && c < 0x100 && d < 0x100 then Some([a, b, c, d]) else None
        case _ => None
  }

  lemma V6Qualifies()
    ensures IsParser(V6, ParseV6)
  {
    forall s | ParseV6(s).Some? ensures OfFamily(V6, ParseV6(s).value) && '/' !in s {
      GroupsOfOctets(ParseText(s).value);
    }
    forall p | OfFamily(V6, p) ensures ParseV6(RenderAddress(V6, p)) == Some(p) {
      RoundTrip(p);
      RenderedBelongs(V6, p);
    }
  }

  lemma DottedParses(p: seq<nat>)
    requires OfFamily(V4, p)
    ensures ParseV4(RenderAddress(V4, p)) == Some(p)
  {
    RenderedBelongs(V4, p);
    DottedPartsArePlain(p);
    SplitJoin(DottedParts(p), '.');
    forall i | 0 <= i < 4 ensures ParseOctet(DottedParts(p)[i]) == Some(p[i]) {
      ValueOfNumeral(p[i], Decimal);
    }
    assert p == [p[0], p[1], p[2], p[3]];
  }

  lemma V4Qualifies()
    ensures IsParser(V4, ParseV4)
  {
    forall p | OfFamily(V4, p) ensures ParseV4(RenderAddress(V4, p)) == Some(p) {
      DottedParses(p);
    }
  }

  // --- The shape of the canonical text ---

  lemma HexJoinLength(g: seq<nat>)
    requires Small(g) && g != []
    ensures |HexJoin(g)| <= 5 * |g| - 1
  {
    HexPartsArePlain(g);
    JoinLength(HexParts(g), ':', 4);
  }

  /** At most 39 characters, and no second "::" after the first. */
  lemma CanonicalShape(g: seq<nat>)
    requires IsGroups(g)
    ensures |Render(g)| <= 39
    ensures match DoubleColon(Render(g))
            case None => true
            case Some(i) => NoDouble(Render(g)[i + 1..])
  {
    var b := BestStart(g, 0);
    var n := RunLength(g, b);
    if n >= 2 {
      var l, r := g[..b], g[b + n..];
      RenderCompressed(g, b, n);
      if l != [] { HexJoinLength(l); }
      if r != [] { HexJoinLength(r); }
      CompressedShape(l, r);
    } else {
      RenderPlain(g);
      HexJoinLength(g);
      HexJoinIsTidy(g);
      NoDoubleNoColons(HexJoin(g));
    }
  }

  lemma CompressedShape(l: seq<nat>, r: seq<nat>)
    ensures DoubleColon(Compressed(l, r)) == Some(|HexJoin(l)|)
    ensures NoDouble(Compressed(l, r)[|HexJoin(l)| + 1..])
  {
    var a, b := HexJoin(l), HexJoin(r);
    HexJoinIsTidy(l);
    HexJoinIsTidy(r);
    DoubleAfter(a, b);
    assert (a + "::" + b)[|a| + 1..] == ":" + b;
    if r != [] {
      HexPartsArePlain(r);
      JoinIsTidy(HexParts(r), ':');
    }
  }
}
