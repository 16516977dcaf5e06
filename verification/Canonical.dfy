/** The canonical texts, said of their characters, and that each is the only one of its kind
    (section 4 of RFC 5952). */
module Canonical {
  import opened Config
  import opened Text
  import opened Ipv6
  import opened Ipv6Parse
  import opened Mac
  import opened Normalize

  // --- Numbers ---

  /** Lower-case digits, and no zero in front of another digit. */
  ghost predicate Shortest(s: string) {
    s != "" && Uses(s, DIGITS) && (s[0] == '0' ==> |s| == 1)
  }

  lemma NumeralsAreShortest(n: nat, base: Base)
    ensures Shortest(Numeral(n, base)) && Value(Numeral(n, base), base) == Some(n)
  {
    NumeralUsesDigits(n, base);
    NumeralIsShortest(n, base);
    ValueOfNumeral(n, base);
  }

  lemma DigitOfValue(c: char)
    requires c in DIGITS
    ensures DigitValue(c) < 16 && DIGITS[DigitValue(c)] == c
  {
    var i :| 0 <= i < |DIGITS| && DIGITS[i] == c;
    DigitsHaveValues(i);
  }

  lemma {:induction false} ShortestIsPositive(s: string, base: Base)
    requires Value(s, base).Some? && Uses(s, DIGITS) && s[0] != '0'
    ensures Value(s, base).value > 0
  {
    var n := |s| - 1;
    assert s[n] in s && s[0] in s;
    DigitOfValue(s[0]);
    if n > 0 {
      assert forall c :: c in s[..n] ==> c in s;
      ShortestIsPositive(s[..n], base);
    }
  }

  lemma ExtendUndone(v: nat, d: nat, base: Base)
    requires d < base.Size()
    ensures base.Rest(base.Extend(v, d)) == v && base.Last(base.Extend(v, d)) == d
    ensures v > 0 ==> base.Extend(v, d) >= base.Size()
  {
  }

  lemma ValueInSteps(s: string, k: nat, base: Base)
    requires |s| == k + 1 && k > 0 && Value(s, base).Some?
    ensures DigitValue(s[k]) < base.Size() && Value(s[..k], base).Some?
    ensures Value(s, base).value == base.Extend(Value(s[..k], base).value, DigitValue(s[k]))
  {
  }

  lemma ShorterIsShortest(s: string, k: nat)
    requires Shortest(s) && |s| == k + 1 && k > 0
    ensures Shortest(s[..k]) && s[..k][0] != '0' && s[k] in DIGITS
  {
    assert s[k] in s;
    assert forall c :: c in s[..k] ==> c in s;
  }

  /** The numeral is the only shortest text of its value. */
  lemma {:induction false} NumeralIsOnly(s: string, n: nat, base: Base)
    requires Shortest(s) && Value(s, base) == Some(n)
    ensures s == Numeral(n, base)
    decreases |s|
  {
    var k := |s| - 1;
    if k == 0 {
      DigitIsOnly(s, n, base);
    } else {
      ShorterIsShortest(s, k);
      ValueInSteps(s, k, base);
      ShortestIsPositive(s[..k], base);
      NumeralIsOnly(s[..k], Value(s[..k], base).value, base);
      LastDigit(s, k, Value(s[..k], base).value, base);
    }
  }

  lemma DigitIsOnly(s: string, n: nat, base: Base)
    requires |s| == 1 && Shortest(s) && Value(s, base) == Some(n)
    ensures s == Numeral(n, base)
  {
    assert s[0] in s;
    DigitOfValue(s[0]);
  }

  lemma LastDigit(s: string, k: nat, v: nat, base: Base)
    requires |s| == k + 1 && s[k] in DIGITS && s[..k] == Numeral(v, base) && v > 0 && DigitValue(s[k]) < base.Size()
    ensures s == Numeral(base.Extend(v, DigitValue(s[k])), base)
  {
    DigitOfValue(s[k]);
    NumeralGrows(v, DigitValue(s[k]), base);
    assert s == s[..k] + [s[k]];
  }

  lemma NumeralGrows(v: nat, d: nat, base: Base)
    requires v > 0 && d < base.Size()
    ensures Numeral(base.Extend(v, d), base) == Numeral(v, base) + [DIGITS[d]]
  {
    ExtendUndone(v, d, base);
  }

  /** A token that is a number of at most 64 bits becomes the shortest decimal text of it, which there
      is only one of; any other token stays. */
  lemma NumberBecomesShortest(token: string, v: nat)
    requires v <= MAX_UINT64
    ensures Value(token, Decimal) == Some(v) ==>
              && Shortest(NormalizeNumber(token)) && Value(NormalizeNumber(token), Decimal) == Some(v)
              && forall s :: Shortest(s) && Value(s, Decimal) == Some(v) ==> s == NormalizeNumber(token)
    ensures (Value(token, Decimal).Some? ==> Value(token, Decimal).value > MAX_UINT64) ==>
              NormalizeNumber(token) == token
  {
    NumeralsAreShortest(v, Decimal);
    forall s | Shortest(s) && Value(s, Decimal) == Some(v) ensures s == Numeral(v, Decimal) {
      NumeralIsOnly(s, v, Decimal);
    }
  }

  // --- Texts in parts ---

  lemma {:induction false} JoinSplit(s: string, sep: char)
    ensures Join(Split(s, sep), sep) == s
    decreases |s|
  {
    if Index(s, sep).Some? {
      var i := Index(s, sep).value;
      JoinSplit(s[i + 1..], sep);
      assert s == s[..i] + [sep] + s[i + 1..];
    }
  }

  lemma {:induction false} JoinSameParts(a: seq<string>, b: seq<string>, sep: char)
    requires |a| == |b| && forall i :: 0 <= i < |a| ==> a[i] == b[i]
    ensures Join(a, sep) == Join(b, sep)
  {
    assert a == b;
  }

  // --- IPv6 addresses ---

  /** A '0' that starts the text or follows a colon, and is followed by a digit. */
  predicate PaddedAt(s: string, i: int) {
    0 <= i < |s| - 1 && s[i] == '0' && (i == 0 || s[i - 1] == ':') && s[i + 1] in DIGITS
  }

  ghost predicate NoLeadingZeros(s: string) {
    forall i :: !PaddedAt(s, i)
  }

  /** Lower-case digits and colons. */
  ghost predicate LowerCase(s: string) {
    forall c :: c in s ==> c in DIGITS || c == ':'
  }

  lemma ColonIsNoDigit()
    ensures ':' !in DIGITS && '.' !in DIGITS && '.' != ':'
  {
  }

  lemma GlueWithColon(a: string, b: string)
    requires NoLeadingZeros(a) && NoLeadingZeros(b)
    ensures NoLeadingZeros(a + ":" + b)
  {
    var s := a + ":" + b;
    ColonIsNoDigit();
    forall i ensures !PaddedAt(s, i) {
      assert !PaddedAt(a, i) && !PaddedAt(b, i - |a| - 1);
    }
  }

  lemma {:induction false} HexJoinHasNoLeadingZeros(g: seq<nat>)
    ensures NoLeadingZeros(HexJoin(g)) && LowerCase(HexJoin(g))
  {
    HexJoinUses(g);
    if g != [] {
      NumeralsAreShortest(g[0], Hexadecimal);
      HexJoinHasNoLeadingZeros(g[1..]);
      var first := HexParts(g)[0];
      assert first == Numeral(g[0], Hexadecimal);
      assert forall i :: 0 <= i < |first| ==> first[i] in first;
      ColonIsNoDigit();
      assert NoLeadingZeros(first);
      if |g| > 1 {
        GlueWithColon(first, HexJoin(g[1..]));
        assert HexJoin(g) == first + ":" + HexJoin(g[1..]);
      }
    }
  }

  lemma CompressedHasNoLeadingZeros(l: seq<nat>, r: seq<nat>)
    ensures NoLeadingZeros(Compressed(l, r)) && LowerCase(Compressed(l, r))
  {
    HexJoinHasNoLeadingZeros(l);
    HexJoinHasNoLeadingZeros(r);
    GlueWithColon("", HexJoin(r));
    GlueWithColon(HexJoin(l), "" + ":" + HexJoin(r));
    assert Compressed(l, r) == HexJoin(l) + ":" + ("" + ":" + HexJoin(r));
  }

  /** The canonical text of an address is in lower case and has no leading zeros. */
  lemma RenderHasNoLeadingZeros(g: seq<nat>)
    ensures NoLeadingZeros(Render(g)) && LowerCase(Render(g))
  {
    var b := BestStart(g, 0);
    var n := RunLength(g, b);
    if n >= 2 {
      RenderCompressed(g, b, n);
      CompressedHasNoLeadingZeros(g[..b], g[b + n..]);
    } else {
      RenderPlain(g);
      HexJoinHasNoLeadingZeros(g);
    }
  }

  lemma FirstPartIsShortest(s: string, i: nat)
    requires 0 < i <= |s| && ':' !in s[..i] && NoLeadingZeros(s) && LowerCase(s)
    ensures Shortest(s[..i])
  {
    forall c | c in s[..i] ensures c in DIGITS {
      var k :| 0 <= k < i && s[..i][k] == c;
      assert s[k] in s;
    }
    if i > 1 {
      assert s[1] == s[..i][1] && s[1] in s[..i];
      assert !PaddedAt(s, 0);
    }
  }

  lemma RestHasNoLeadingZeros(s: string, i: nat)
    requires i < |s| && s[i] == ':' && NoLeadingZeros(s) && LowerCase(s)
    ensures NoLeadingZeros(s[i + 1..]) && LowerCase(s[i + 1..])
  {
    var t := s[i + 1..];
    forall j ensures !PaddedAt(t, j) {
      assert !PaddedAt(s, i + 1 + j);
    }
  }

  lemma PrefixHasNoLeadingZeros(s: string, i: nat)
    requires i <= |s| && NoLeadingZeros(s) && LowerCase(s)
    ensures NoLeadingZeros(s[..i]) && LowerCase(s[..i])
  {
    forall j ensures !PaddedAt(s[..i], j) {
      assert !PaddedAt(s, j);
    }
  }

  lemma GroupIsOnly(s: string, v: nat)
    requires ParseGroup(s) == Some(v) && Shortest(s)
    ensures s == Hex(v)
  {
    NumeralIsOnly(s, v, Hexadecimal);
  }

  lemma NoDots(s: string)
    requires LowerCase(s)
    ensures '.' !in s
  {
    ColonIsNoDigit();
  }

  lemma OnePart(s: string, last: bool, g: seq<nat>)
    requires ParseParts([s], last) == Some(g) && '.' !in s
    ensures |g| == 1 && ParseGroup(s) == Some(g[0])
  {
    assert [s][1..] == [];
    assert ParseParts([], last) == Some([]);
  }

  lemma FirstOfParts(first: string, rest: seq<string>, last: bool, g: seq<nat>)
    requires ParseParts([first] + rest, last) == Some(g) && rest != []
    ensures g != [] && ParseGroup(first) == Some(g[0]) && ParseParts(rest, last) == Some(g[1..])
  {
    assert ([first] + rest)[1..] == rest;
  }

  lemma HexJoinFirst(g: seq<nat>)
    requires g != []
    ensures HexJoin(g) == if |g| == 1 then Hex(g[0]) else Hex(g[0]) + [':'] + HexJoin(g[1..])
  {
    assert HexParts(g)[1..] == HexParts(g[1..]);
  }

  lemma LastIsOnly(s: string, last: bool, g: seq<nat>)
    requires ParseParts([s], last) == Some(g) && NoLeadingZeros(s) && LowerCase(s) && ':' !in s
    ensures g != [] && s == HexJoin(g)
  {
    NoDots(s);
    OnePart(s, last, g);
    assert s[..|s|] == s;
    assert s != "" by { assert ParseGroup("").None?; }
    FirstPartIsShortest(s, |s|);
    GroupIsOnly(s, g[0]);
    HexJoinFirst(g);
  }

  lemma FirstIsOnly(s: string, i: nat, v: nat)
    requires i <= |s| && ':' !in s[..i] && NoLeadingZeros(s) && LowerCase(s) && ParseGroup(s[..i]) == Some(v)
    ensures s[..i] == Hex(v)
  {
    assert s[..i] != "" by { assert ParseGroup("").None?; }
    FirstPartIsShortest(s, i);
    GroupIsOnly(s[..i], v);
  }

  /** Groups in lower case without leading zeros are written as the printer writes them. */
  lemma {:induction false} PartsAreOnly(s: string, last: bool, g: seq<nat>)
    requires ParseParts(Split(s, ':'), last) == Some(g) && NoLeadingZeros(s) && LowerCase(s)
    ensures g != [] && s == HexJoin(g)
    decreases |s|
  {
    if ':' !in s {
      SplitOne(s, ':');
      LastIsOnly(s, last, g);
    } else {
      var i := SplitFirst(s, ':');
      FirstOfParts(s[..i], Split(s[i + 1..], ':'), last, g);
      FirstIsOnly(s, i, g[0]);
      RestHasNoLeadingZeros(s, i);
      PartsAreOnly(s[i + 1..], last, g[1..]);
      HexJoinGlued(g, s[..i], s[i + 1..]);
    }
  }

  lemma SplitOne(s: string, sep: char)
    requires sep !in s
    ensures Split(s, sep) == [s]
  {
  }

  lemma SplitFirst(s: string, sep: char) returns (i: nat)
    requires sep in s
    ensures i < |s| && s[i] == sep && sep !in s[..i]
    ensures s == s[..i] + [sep] + s[i + 1..] && Split(s, sep) == [s[..i]] + Split(s[i + 1..], sep)
  {
    i := Index(s, sep).value;
  }

  lemma HexJoinGlued(g: seq<nat>, first: string, rest: string)
    requires |g| > 1 && first == Hex(g[0]) && rest == HexJoin(g[1..])
    ensures HexJoin(g) == first + [':'] + rest
  {
    HexJoinFirst(g);
  }

  lemma SideIsOnly(s: string, last: bool, g: seq<nat>)
    requires ParseSide(s, last) == Some(g) && NoLeadingZeros(s) && LowerCase(s)
    ensures s == HexJoin(g)
  {
    if s != "" {
      PartsAreOnly(s, last, g);
    }
  }

  /** A run of at least two zero groups, as long as any and further left than any as long. */
  ghost predicate IsChosenRun(g: seq<nat>, b: nat, n: nat) {
    && n >= 2 && b + n <= |g|
    && (forall k :: b <= k < b + n ==> g[k] == 0) && (b + n < |g| ==> g[b + n] != 0)
    && forall a :: 0 <= a < |g| ==> RunLength(g, a) <= n && (RunLength(g, a) == n ==> b <= a)
  }

  /** The "::" at i stands for the chosen run. */
  ghost predicate ChosenAt(s: string, i: nat, g: seq<nat>)
    requires i + 2 <= |s|
  {
    && ParseSide(s[..i], false).Some? && ParseSide(s[i + 2..], true).Some?
    && var l, r := |ParseSide(s[..i], false).value|, |ParseSide(s[i + 2..], true).value|;
       l + r <= |g| && IsChosenRun(g, l, |g| - l - r)
  }

  /** The text has a "::" for the chosen run of zero groups, none if there is no run of two. */
  ghost predicate CompressesWell(s: string, g: seq<nat>) {
    if DoubleColon(s).Some? then ChosenAt(s, DoubleColon(s).value, g)
    else forall a :: 0 <= a < |g| ==> RunLength(g, a) < 2
  }

  lemma {:induction false} ZerosRun(g: seq<nat>, b: nat, n: nat)
    requires b + n <= |g| && (forall k :: b <= k < b + n ==> g[k] == 0) && (b + n < |g| ==> g[b + n] != 0)
    ensures RunLength(g, b) == n
    decreases n
  {
    if n > 0 {
      ZerosRun(g, b + 1, n - 1);
    }
  }

  lemma ChosenIsBest(g: seq<nat>, b: nat, n: nat)
    requires IsChosenRun(g, b, n)
    ensures b == BestStart(g, 0) && n == RunLength(g, BestStart(g, 0))
  {
    ZerosRun(g, b, n);
    BestIsLeftmostLongest(g, 0, b);
    var s := BestStart(g, 0);
    assert s <= b;
  }

  lemma BestIsChosen(g: seq<nat>)
    requires RunLength(g, BestStart(g, 0)) >= 2
    ensures IsChosenRun(g, BestStart(g, 0), RunLength(g, BestStart(g, 0)))
  {
    RunIsZeros(g, BestStart(g, 0));
    forall a | 0 <= a < |g|
      ensures RunLength(g, a) <= RunLength(g, BestStart(g, 0))
      ensures RunLength(g, a) == RunLength(g, BestStart(g, 0)) ==> BestStart(g, 0) <= a
    {
      BestIsLeftmostLongest(g, 0, a);
    }
  }

  lemma PlainText(s: string, g: seq<nat>)
    requires ParseText(s) == Some(g) && DoubleColon(s).None?
    ensures ParseSide(s, true) == Some(g) && |g| == 8
  {
  }

  lemma CompressedText(s: string, i: nat, l: seq<nat>, r: seq<nat>, g: seq<nat>)
    requires ParseText(s) == Some(g) && DoubleColon(s) == Some(i)
    requires ParseSide(s[..i], false) == Some(l) && ParseSide(s[i + 2..], true) == Some(r)
    ensures |l| + |r| <= 7 && g == l + Zeros(8 - |l| - |r|) + r
  {
  }

  lemma RenderIsOnly(s: string, g: seq<nat>)
    requires ParseText(s) == Some(g) && LowerCase(s) && NoLeadingZeros(s) && CompressesWell(s, g)
    ensures s == Render(g)
  {
    if DoubleColon(s).Some? {
      var i := DoubleColon(s).value;
      var l, r := ParseSide(s[..i], false).value, ParseSide(s[i + 2..], true).value;
      CompressedText(s, i, l, r, g);
      CompressedIsOnly(s, i, l, r, g);
    } else {
      PlainText(s, g);
      PlainIsOnly(s, g);
    }
  }

  lemma PlainIsOnly(s: string, g: seq<nat>)
    requires ParseSide(s, true) == Some(g) && LowerCase(s) && NoLeadingZeros(s)
    requires forall a :: 0 <= a < |g| ==> RunLength(g, a) < 2
    ensures s == Render(g)
  {
    SideIsOnly(s, true, g);
    RenderPlain(g);
  }

  lemma CompressedIsOnly(s: string, i: nat, l: seq<nat>, r: seq<nat>, g: seq<nat>)
    requires i + 1 < |s| && s[i] == ':' && s[i + 1] == ':' && LowerCase(s) && NoLeadingZeros(s)
    requires ParseSide(s[..i], false) == Some(l) && ParseSide(s[i + 2..], true) == Some(r)
    requires |l| + |r| <= 8 && g == l + Zeros(8 - |l| - |r|) + r
    requires IsChosenRun(g, |l|, |g| - |l| - |r|)
    ensures s == Render(g)
  {
    PrefixHasNoLeadingZeros(s, i);
    RestHasNoLeadingZeros(s, i + 1);
    SideIsOnly(s[..i], false, l);
    SideIsOnly(s[i + 2..], true, r);
    ChosenIsBest(g, |l|, 8 - |l| - |r|);
    RenderCompressed(g, |l|, 8 - |l| - |r|);
    SidesOf(l, 8 - |l| - |r|, r);
    InThree(s, i);
  }

  lemma SidesOf(l: seq<nat>, n: nat, r: seq<nat>)
    ensures var g := l + Zeros(n) + r; g[..|l|] == l && g[|l| + n..] == r
  {
  }

  lemma InThree(s: string, i: nat)
    requires i + 1 < |s| && s[i] == ':' && s[i + 1] == ':'
    ensures s == s[..i] + "::" + s[i + 2..]
  {
  }

  lemma CompressedSides(l: seq<nat>, r: seq<nat>)
    requires Small(l) && Small(r)
    ensures var s, i := Compressed(l, r), |HexJoin(l)|;
            && DoubleColon(s) == Some(i)
            && ParseSide(s[..i], false) == Some(l) && ParseSide(s[i + 2..], true) == Some(r)
  {
    HexJoinIsTidy(l);
    DoubleAfter(HexJoin(l), HexJoin(r));
    CutAround(HexJoin(l), HexJoin(r));
    SideOfHex(l, false);
    SideOfHex(r, true);
  }

  lemma RenderCompressesWell(g: seq<nat>)
    requires IsGroups(g)
    ensures CompressesWell(Render(g), g)
  {
    var b := BestStart(g, 0);
    var n := RunLength(g, b);
    if n >= 2 {
      var l, r := g[..b], g[b + n..];
      RenderCompressed(g, b, n);
      CompressedSides(l, r);
      BestIsChosen(g);
    } else {
      RenderPlain(g);
      HexJoinIsTidy(g);
      NoDoubleNoColons(HexJoin(g));
      forall a | 0 <= a < |g| ensures RunLength(g, a) < 2 {
        BestIsLeftmostLongest(g, 0, a);
      }
    }
  }

  /** The canonical text is exactly the one that reads as the address, is in lower case, has no leading
      zeros, and compresses the leftmost longest run of two or more zero groups. */
  lemma CanonicalExactly(s: string, g: seq<nat>)
    requires IsGroups(g)
    ensures s == Render(g)
       <==> ParseText(s) == Some(g) && LowerCase(s) && NoLeadingZeros(s) && CompressesWell(s, g)
  {
    if s == Render(g) {
      RenderParses(g);
      RenderHasNoLeadingZeros(g);
      RenderCompressesWell(g);
    } else if ParseText(s) == Some(g) && LowerCase(s) && NoLeadingZeros(s) && CompressesWell(s, g) {
      RenderIsOnly(s, g);
    }
  }

  // --- IPv4 addresses and lengths ---

  /** Four shortest decimal numbers between dots, and this text only. */
  lemma DottedIsOnly(p: seq<nat>, s: string)
    requires OfFamily(V4, p)
    ensures var parts := Split(RenderAddress(V4, p), '.');
            |parts| == 4 && forall i :: 0 <= i < 4 ==> Shortest(parts[i]) && Value(parts[i], Decimal) == Some(p[i])
    ensures |Split(s, '.')| == 4
            && (forall i :: 0 <= i < 4 ==> Shortest(Split(s, '.')[i]) && Value(Split(s, '.')[i], Decimal) == Some(p[i]))
            ==> s == RenderAddress(V4, p)
  {
    DottedPartsArePlain(p);
    SplitJoin(DottedParts(p), '.');
    forall i | 0 <= i < 4
      ensures Shortest(Numeral(p[i], Decimal)) && Value(Numeral(p[i], Decimal), Decimal) == Some(p[i])
    {
      NumeralsAreShortest(p[i], Decimal);
    }
    var parts := Split(s, '.');
    if |parts| == 4 && forall i :: 0 <= i < 4 ==> Shortest(parts[i]) && Value(parts[i], Decimal) == Some(p[i]) {
      forall i | 0 <= i < 4 ensures parts[i] == DottedParts(p)[i] {
        NumeralIsOnly(parts[i], p[i], Decimal);
      }
      JoinSameParts(parts, DottedParts(p), '.');
      JoinSplit(s, '.');
    }
  }

  /** A prefix becomes the text of its masked address, a slash and the shortest text of its length; a
      token that is no prefix stays. */
  lemma PrefixBecomesMasked(f: Family, parse: string -> Option<seq<nat>>, token: string, p: seq<nat>, n: nat)
    requires IsParser(f, parse)
    ensures Reads(f, parse, token, p, n) ==>
              var t := NormalizePrefix(f, parse, token);
              && OfFamily(f, Mask(p, n)) && Index(t, '/').Some?
              && t[..Index(t, '/').value] == RenderAddress(f, Mask(p, n))
              && Shortest(t[Index(t, '/').value + 1..]) && Value(t[Index(t, '/').value + 1..], Decimal) == Some(n)
    ensures !Parses(f, parse, token) ==> NormalizePrefix(f, parse, token) == token
  {
    if Reads(f, parse, token, p, n) {
      PrefixRewritten(f, parse, token, p, n);
      ShownIsMasked(f, p, n);
      var a, m := RenderAddress(f, Mask(p, n)), Numeral(n, Decimal);
      RenderedBelongs(f, Mask(p, n));
      IndexIsFirst(a, m, '/');
      assert Slashed(a, n)[..|a|] == a && Slashed(a, n)[|a| + 1..] == m;
      NumeralsAreShortest(n, Decimal);
    }
    if !Parses(f, parse, token) {
      PrefixLeftAlone(f, parse, token);
    }
  }

  /** Addresses are canonical, with or without a length: two of them normalise alike exactly when they
      are the same address and the lengths the same number. What cannot be read stays. */
  lemma AddressesAreCanonical(f: Family, parse: string -> Option<seq<nat>>, a: string, b: string, m: string, k: string)
    requires IsParser(f, parse) && '/' !in a && '/' !in b
    requires f.Applies(a) && f.Applies(b) && (f.V4? ==> ':' !in m && ':' !in k)
    ensures parse(a).Some? && parse(b).Some? ==>
              (NormalizeAddress(f, parse, a) == NormalizeAddress(f, parse, b) <==> parse(a) == parse(b))
    ensures parse(a).Some? && parse(b).Some? && ParseUint(m).Some? && ParseUint(k).Some? ==>
              (NormalizeAddress(f, parse, a + ['/'] + m) == NormalizeAddress(f, parse, b + ['/'] + k)
               <==> parse(a) == parse(b) && ParseUint(m) == ParseUint(k))
    ensures parse(a).None? ==> NormalizeAddress(f, parse, a) == a
    ensures parse(a).None? && ParseUint(m).None? ==> NormalizeAddress(f, parse, a + ['/'] + m) == a + ['/'] + m
  {
    InParts(a, m);
    InParts(b, k);
    AddressInParts(f, parse, a, m);
    AddressInParts(f, parse, b, k);
    NumbersAreCanonical(m, k);
    var x, y := NormalizeAddress(f, parse, a), NormalizeAddress(f, parse, b);
    BareAddress(f, parse, a);
    BareAddress(f, parse, b);
    if parse(a).Some? && parse(b).Some? && x == y {
      RenderedIsInjective(f, parse, parse(a).value, parse(b).value);
    }
    LengthsApart(x, y, NormalizeNumber(m), NormalizeNumber(k));
  }

  lemma LengthsApart(x: string, y: string, m: string, k: string)
    requires '/' !in x && '/' !in y
    ensures x + ['/'] + m == y + ['/'] + k <==> x == y && m == k
  {
    IndexIsFirst(x, m, '/');
    IndexIsFirst(y, k, '/');
    assert x == (x + ['/'] + m)[..|x|] && m == (x + ['/'] + m)[|x| + 1..];
    assert y == (y + ['/'] + k)[..|y|] && k == (y + ['/'] + k)[|y| + 1..];
  }

  /** Each family leaves the tokens of the other alone. */
  lemma FamiliesApart(parse: string -> Option<seq<nat>>, token: string)
    ensures IsParser(V4, parse) && ':' in token ==>
              NormalizeAddress(V4, parse, token) == token && NormalizePrefix(V4, parse, token) == token
    ensures IsParser(V6, parse) && ':' !in token ==>
              NormalizeAddress(V6, parse, token) == token && NormalizePrefix(V6, parse, token) == token
  {
  }

  // --- Hardware addresses ---

  /** Pairs of lower-case digits between colons. */
  ghost predicate InPairs(s: string) {
    forall part :: part in Split(s, ':') ==> |part| == 2 && Uses(part, DIGITS)
  }

  lemma ValueOfPair(s: string)
    requires |s| == 2 && DigitValue(s[0]) < 16 && DigitValue(s[1]) < 16
    ensures Value(s, Hexadecimal) == Some(16 * DigitValue(s[0]) + DigitValue(s[1]))
  {
    assert s[..1] == [s[0]];
    assert Value([s[0]], Hexadecimal) == Some(DigitValue(s[0]));
  }

  lemma Nibbles(a: nat, b: nat)
    requires a < 16 && b < 16
    ensures var v := 16 * a + b; v < 0x100 && v / 16 == a && v % 16 == b
  {
  }

  lemma DigitPair(b: nat, h: nat, l: nat)
    requires b < 0x100 && b / 16 == h < 16 && b % 16 == l
    ensures HexPair(b) == [DIGITS[h], DIGITS[l]]
  {
  }

  lemma PairIsOnly(s: string, b: nat, h: nat, l: nat)
    requires |s| == 2 && h < 16 && l < 16 && b == 16 * h + l && s[0] == DIGITS[h] && s[1] == DIGITS[l]
    ensures b < 0x100 && s == HexPair(b)
  {
    Nibbles(h, l);
    DigitPair(b, h, l);
  }

  lemma ByteOfPair(s: string)
    requires |s| == 2 && DigitValue(s[0]) < 16 && DigitValue(s[1]) < 16
    ensures Byte(s) == Some(16 * DigitValue(s[0]) + DigitValue(s[1]))
  {
    ValueOfPair(s);
  }

  lemma PairsAreOnly(parts: seq<string>, p: seq<nat>, i: nat)
    requires i < |p| == |parts| && Byte(parts[i]) == Some(p[i]) && p[i] < 0x100
    requires |parts[i]| == 2 && Uses(parts[i], DIGITS)
    ensures parts[i] == HexPair(p[i])
  {
    assert parts[i][0] in parts[i] && parts[i][1] in parts[i];
    DigitOfValue(parts[i][0]);
    DigitOfValue(parts[i][1]);
    ByteOfPair(parts[i]);
    PairIsOnly(parts[i], p[i], DigitValue(parts[i][0]), DigitValue(parts[i][1]));
  }

  lemma PairUsesDigits(b: nat)
    requires b < 0x100
    ensures |HexPair(b)| == 2 && Uses(HexPair(b), DIGITS)
  {
  }

  lemma TextIsInPairs(p: seq<nat>)
    requires p != [] && IsOctets(p)
    ensures InPairs(MacText(p))
  {
    PartsOfText(p);
    forall part | part in HexPairs(p) ensures |part| == 2 && Uses(part, DIGITS) {
      var i :| 0 <= i < |p| && HexPairs(p)[i] == part;
      PairUsesDigits(p[i]);
    }
  }

  /** The canonical text of a hardware address is in pairs, and is the only text in pairs that reads
      as it. */
  lemma MacTextIsOnly(p: seq<nat>, s: string)
    requires p != [] && IsOctets(p)
    ensures InPairs(MacText(p))
    ensures InPairs(s) && ReadsAs(s, p) ==> s == MacText(p)
  {
    PartsOfText(p);
    TextIsInPairs(p);
    if InPairs(s) && ReadsAs(s, p) {
      var parts := Split(s, ':');
      forall i | 0 <= i < |p| ensures parts[i] == HexPairs(p)[i] {
        assert parts[i] in parts;
        PairsAreOnly(parts, p, i);
      }
      JoinSameParts(parts, HexPairs(p), ':');
      JoinSplit(s, ':');
    }
  }
}
