/** Printing an IPv6 address with its longest run of zero groups compressed (section 4 of
    RFC 5952), and reading the text forms of section 2.2 of RFC 4291. */
module Ipv6 {
  import opened Text

  ghost predicate IsOctets(p: seq<nat>) {
    forall i :: 0 <= i < |p| ==> p[i] < 0x100
  }

  ghost predicate IsAddress(p: seq<nat>) {
    |p| == 16 && IsOctets(p)
  }

  ghost predicate IsGroups(g: seq<nat>) {
    |g| == 8 && forall k :: 0 <= k < 8 ==> g[k] < 0x1_0000
  }

  function Pair(p: seq<nat>, i: nat): nat
    requires i + 1 < |p|
  {
    p[i] * 0x100 + p[i + 1]
  }

  /** The eight 16-bit groups of sixteen octets. */
  function Groups(p: seq<nat>): (g: seq<nat>)
    requires |p| == 16
    ensures |g| == 8
  {
    seq(8, k requires 0 <= k < 8 => Pair(p, 2 * k))
  }

  function Octets(g: seq<nat>): (p: seq<nat>)
    requires |g| == 8
    ensures |p| == 16
  {
    seq(16, i requires 0 <= i < 16 => if i % 2 == 0 then g[i / 2] / 0x100 else g[i / 2] % 0x100)
  }

  lemma OctetsOfGroups(p: seq<nat>)
    requires IsAddress(p)
    ensures IsGroups(Groups(p)) && Octets(Groups(p)) == p
  {
  }

  lemma GroupsOfOctets(g: seq<nat>)
    requires IsGroups(g)
    ensures IsAddress(Octets(g)) && Groups(Octets(g)) == g
  {
  }

  // --- The run of zeros that is compressed ---

  function RunLength(g: seq<nat>, i: nat): (n: nat)
    requires i <= |g|
    ensures i + n <= |g|
    decreases |g| - i
  {
    if i < |g| && g[i] == 0 then 1 + RunLength(g, i + 1) else 0
  }

  /** Where the leftmost longest run of zeros that starts at i or later starts; the end if
      there is none. */
  function BestStart(g: seq<nat>, i: nat): (b: nat)
    requires i <= |g|
    ensures i <= b <= |g|
    decreases |g| - i
  {
    if i == |g| then i
    else
      var b := BestStart(g, i + 1);
      if RunLength(g, i) > 0 && RunLength(g, i) >= RunLength(g, b) then i else b
  }

  lemma {:induction false} RunIsZeros(g: seq<nat>, i: nat)
    requires i <= |g|
    ensures forall k :: i <= k < i + RunLength(g, i) ==> g[k] == 0
    ensures i + RunLength(g, i) < |g| ==> g[i + RunLength(g, i)] != 0
    decreases |g| - i
  {
    if i < |g| && g[i] == 0 {
      RunIsZeros(g, i + 1);
    }
  }

  /** The compressed run is the leftmost of the longest. */
  lemma {:induction false} BestIsLeftmostLongest(g: seq<nat>, i: nat, a: nat)
    requires i <= a < |g|
    ensures RunLength(g, a) <= RunLength(g, BestStart(g, i))
    ensures RunLength(g, a) == RunLength(g, BestStart(g, i)) > 0 ==> BestStart(g, i) <= a
    decreases |g| - i
  {
    if i < a {
      BestIsLeftmostLongest(g, i + 1, a);
    }
  }

  // --- Printing ---

  function Hex(v: nat): string {
    Numeral(v, Hexadecimal)
  }

  function HexParts(g: seq<nat>): (parts: seq<string>)
    ensures |parts| == |g|
  {
    if g == [] then [] else [Hex(g[0])] + HexParts(g[1..])
  }

  function HexJoin(g: seq<nat>): string {
    Join(HexParts(g), ':')
  }

  function Compressed(left: seq<nat>, right: seq<nat>): string {
    HexJoin(left) + "::" + HexJoin(right)
  }

  /** The canonical text: a run of at least two zero groups, the leftmost longest, is "::". */
  function Render(g: seq<nat>): string {
    var b := BestStart(g, 0);
    var n := RunLength(g, b);
    if n >= 2 then Compressed(g[..b], g[b + n..]) else HexJoin(g)
  }

  lemma {:induction false} JoinSnoc(parts: seq<string>, x: string, sep: char)
    ensures Join(parts + [x], sep) == if parts == [] then x else Join(parts, sep) + [sep] + x
  {
    if |parts| == 1 {
      assert (parts + [x])[1..] == [x];
    } else if |parts| > 1 {
      JoinSnoc(parts[1..], x, sep);
      assert (parts + [x])[1..] == parts[1..] + [x];
    }
  }

  lemma {:induction false} HexPartsConcat(g: seq<nat>, h: seq<nat>)
    ensures HexParts(g + h) == HexParts(g) + HexParts(h)
  {
    if g == [] {
      assert g + h == h;
    } else {
      assert (g + h)[1..] == g[1..] + h;
      HexPartsConcat(g[1..], h);
    }
  }

  lemma HexJoinSnoc(g: seq<nat>, a: nat, i: nat)
    requires a <= i < |g|
    ensures HexJoin(g[a..i + 1])
         == if a == i then Hex(g[i]) else HexJoin(g[a..i]) + ":" + Hex(g[i])
  {
    assert g[a..i + 1] == g[a..i] + [g[i]];
    assert [g[i]][1..] == [];
    assert HexParts([g[i]]) == [Hex(g[i])];
    HexPartsConcat(g[a..i], [g[i]]);
    JoinSnoc(HexParts(g[a..i]), Hex(g[i]), ':');
  }

  /** The leftmost longest run that starts before group k has n groups from a on. */
  ghost predicate Scanned(g: seq<nat>, k: nat, a: nat, n: nat) {
    && (n > 0 ==> a < k && a < |g| && n == RunLength(g, a))
    && forall b :: 0 <= b < k && b < |g| ==>
         RunLength(g, b) <= n && (RunLength(g, b) == n > 0 ==> a <= b)
  }

  lemma {:induction false} RunInside(g: seq<nat>, i: nat, a: nat)
    requires i <= |g| && i <= a <= i + RunLength(g, i)
    ensures RunLength(g, a) == i + RunLength(g, i) - a
    decreases a - i
  {
    if i < a {
      RunInside(g, i + 1, a);
    } else if i + RunLength(g, i) == a {
      RunIsZeros(g, i);
    }
  }

  /** Scanning group k and, if its run is taken, skipping past it. */
  lemma ScanStep(g: seq<nat>, k: nat, a: nat, n: nat)
    requires k < |g| && Scanned(g, k, a, n)
    ensures var m := RunLength(g, k);
            if m > n then Scanned(g, k + m + 1, k, m) else Scanned(g, k + 1, a, n)
  {
    var m := RunLength(g, k);
    forall b | k <= b <= k + m ensures RunLength(g, b) == k + m - b {
      RunInside(g, k, b);
    }
  }

  lemma ScannedAll(g: seq<nat>, k: nat, a: nat, n: nat)
    requires k >= |g| && Scanned(g, k, a, n)
    ensures n == RunLength(g, BestStart(g, 0)) && (n > 0 ==> a == BestStart(g, 0))
  {
    var b := BestStart(g, 0);
    if n > 0 {
      BestIsLeftmostLongest(g, 0, a);
    }
    assert b < |g| ==> RunLength(g, b) <= n && (RunLength(g, b) == n > 0 ==> a <= b);
  }

  lemma GroupAt(p: seq<nat>, k: nat)
    requires IsAddress(p) && k < 8
    ensures Groups(p)[k] == Pair(p, 2 * k)
    ensures Groups(p)[k] == 0 <==> p[2 * k] == 0 && p[2 * k + 1] == 0
  {
  }

  /** The end of the run of zeros that starts at octet i. */
  method RunEnd(p: seq<nat>, i: nat, ghost k: nat) returns (j: nat)
    requires IsAddress(p) && i == 2 * k && k < 8
    ensures j == 2 * (k + RunLength(Groups(p), k))
  {
    ghost var g := Groups(p);
    ghost var m := k;
    j := i;
    while j < 16 && p[j] == 0 && p[j + 1] == 0
      invariant k <= m <= 8 && j == 2 * m
      invariant RunLength(g, k) == m - k + RunLength(g, m)
    {
      GroupAt(p, m);
      j := j + 2;
      m := m + 1;
    }
    if m < 8 {
      GroupAt(p, m);
    }
  }

  /** The bounds of the run to compress, -1 if there is none of at least two groups. */
  method LongestRun(p: seq<nat>) returns (e0: int, e1: int)
    requires IsAddress(p)
    ensures var b := BestStart(Groups(p), 0); var n := RunLength(Groups(p), b);
            if n >= 2 then e0 == 2 * b && e1 == 2 * (b + n) else e0 == e1 == -1
  {
    ghost var g := Groups(p);
    ghost var k, a, n := 0, 0, 0;
    e0, e1 := -1, -1;
    var i := 0;
    while i < 16
      invariant i == 2 * k && Scanned(g, k, a, n)
      invariant if n == 0 then e0 == e1 == -1 else e0 == 2 * a && e1 == 2 * (a + n)
      decreases 16 - i
    {
      var j := RunEnd(p, i, k);
      ScanStep(g, k, a, n);
      if j > i && j - i > e1 - e0 {
        e0, e1 := i, j;
        i := j;
        a, n := k, RunLength(g, k);
        k := k + n;
      }
      i := i + 2;
      k := k + 1;
    }
    ScannedAll(g, k, a, n);
    if e1 - e0 <= 2 {
      e0, e1 := -1, -1;
    }
  }

  /** The text of the groups before k, when the n groups from b on are compressed. */
  ghost function Printed(g: seq<nat>, b: nat, n: nat, k: nat): string
    requires k <= |g|
  {
    if n >= 2 && b < k then (if b + n <= k then Compressed(g[..b], g[b + n..k]) else "")
    else HexJoin(g[..k])
  }

  lemma PrintedPlain(g: seq<nat>, b: nat, n: nat, k: nat)
    requires k <= |g| && (n < 2 || k <= b)
    ensures Printed(g, b, n, k) == HexJoin(g[..k])
  {
  }

  lemma PrintedCompressed(g: seq<nat>, b: nat, n: nat, k: nat)
    requires k <= |g| && n >= 2 && b + n <= k
    ensures Printed(g, b, n, k) == Compressed(g[..b], g[b + n..k])
  {
  }

  lemma ConcatAssociates(l: string, m: string, h: string)
    ensures l + "::" + (m + ":" + h) == l + "::" + m + ":" + h
  {
  }

  /** Text equal to what is printed, whatever its own form. */
  lemma CompressedGroup(g: seq<nat>, b: nat, n: nat, k: nat)
    requires k < |g| && n >= 2 && b + n < k
    ensures Compressed(g[..b], g[b + n..k + 1]) == Compressed(g[..b], g[b + n..k]) + ":" + Hex(g[k])
  {
    HexJoinSnoc(g, b + n, k);
    ConcatAssociates(HexJoin(g[..b]), HexJoin(g[b + n..k]), Hex(g[k]));
  }

  lemma PrintGroup(g: seq<nat>, b: nat, n: nat, k: nat)
    requires k < |g| && (n >= 2 ==> k < b || b + n < k)
    ensures k == 0 ==> Printed(g, b, n, k + 1) == Hex(g[k])
    ensures k > 0 ==> Printed(g, b, n, k + 1) == Printed(g, b, n, k) + ":" + Hex(g[k])
  {
    if n >= 2 && b < k {
      CompressedGroup(g, b, n, k);
      PrintedCompressed(g, b, n, k);
      PrintedCompressed(g, b, n, k + 1);
    } else {
      PrintedPlain(g, b, n, k);
      PrintedPlain(g, b, n, k + 1);
      HexJoinSnoc(g, 0, k);
      assert g[0..k] == g[..k] && g[0..k + 1] == g[..k + 1];
    }
  }

  lemma PrintRun(g: seq<nat>, b: nat, n: nat)
    requires n >= 2 && b + n <= |g|
    ensures b + n < |g| ==>
              Printed(g, b, n, b + n + 1) == Printed(g, b, n, b) + "::" + Hex(g[b + n])
    ensures b + n == |g| ==> Printed(g, b, n, |g|) == Printed(g, b, n, b) + "::"
  {
    PrintedPlain(g, b, n, b);
    if b + n < |g| {
      PrintedCompressed(g, b, n, b + n + 1);
      HexJoinSnoc(g, b + n, b + n);
    } else {
      PrintedCompressed(g, b, n, b + n);
      assert g[b + n..|g|] == [];
    }
  }

  lemma RenderCompressed(g: seq<nat>, b: nat, n: nat)
    requires b == BestStart(g, 0) && n == RunLength(g, b) && n >= 2
    ensures Render(g) == Compressed(g[..b], g[b + n..])
  {
  }

  lemma RenderPlain(g: seq<nat>)
    requires RunLength(g, BestStart(g, 0)) < 2
    ensures Render(g) == HexJoin(g)
  {
  }

  lemma PrintedAll(g: seq<nat>, b: nat, n: nat)
    requires b == BestStart(g, 0) && n == RunLength(g, b)
    ensures Render(g) == Printed(g, b, n, |g|)
  {
    if n >= 2 {
      RenderCompressed(g, b, n);
      PrintedCompressed(g, b, n, |g|);
      assert g[b + n..|g|] == g[b + n..];
    } else {
      RenderPlain(g);
      PrintedPlain(g, b, n, |g|);
      assert g[..|g|] == g;
    }
  }

  /** Where the loop has come to: s is the text of the groups before k. */
  ghost predicate Reached(g: seq<nat>, b: nat, n: nat, k: nat, s: string) {
    && |g| == 8 && b + n <= 8 && k <= 8
    && (n >= 2 ==> k <= b || b + n < k || k == 8)
    && s == Printed(g, b, n, k)
  }

  lemma ReachGroup(g: seq<nat>, b: nat, n: nat, k: nat, s: string)
    requires Reached(g, b, n, k, s) && k < 8 && (n >= 2 ==> k != b)
    ensures k == 0 ==> Reached(g, b, n, k + 1, s + Hex(g[k]))
    ensures k > 0 ==> Reached(g, b, n, k + 1, s + ":" + Hex(g[k]))
  {
    PrintGroup(g, b, n, k);
    if k == 0 {
      PrintedPlain(g, b, n, 0);
      assert "" + Hex(g[k]) == Hex(g[k]);
    }
  }

  lemma ReachPastRun(g: seq<nat>, b: nat, n: nat, s: string)
    requires Reached(g, b, n, b, s) && n >= 2
    ensures b + n < 8 ==> Reached(g, b, n, b + n + 1, s + "::" + Hex(g[b + n]))
    ensures b + n == 8 ==> Reached(g, b, n, 8, s + "::")
  {
    PrintRun(g, b, n);
  }

  /** The group the loop comes to after group k: the run is jumped over, with the group after it. */
  ghost function NextGroup(b: nat, n: nat, k: nat): nat {
    if n >= 2 && k == b then (if b + n == 8 then 8 else b + n + 1) else k + 1
  }

  /** One turn of the printing loop: where it continues, and what has been printed. */
  method PrintOne(p: seq<nat>, e0: int, e1: int, i: nat, s: string, ghost g: seq<nat>, ghost b: nat, ghost n: nat,
                  ghost k: nat)
    returns (next: nat, text: string)
    requires |p| == 16 && Reached(g, b, n, k, s) && k < 8 && i == 2 * k
    requires forall j :: 0 <= j < 8 ==> g[j] == Pair(p, 2 * j)
    requires if n >= 2 then e0 == 2 * b && e1 == 2 * (b + n) else e0 == e1 == -1
    ensures next == 2 * NextGroup(b, n, k) && Reached(g, b, n, NextGroup(b, n, k), text)
  {
    if i == e0 {
      ReachPastRun(g, b, n, s);
      if e1 >= 16 {
        return e1, s + "::";
      }
      return e1 + 2, s + "::" + Hex(Pair(p, e1));
    }
    ReachGroup(g, b, n, k, s);
    if i > 0 {
      return i + 2, s + ":" + Hex(Pair(p, i));
    }
    return i + 2, s + Hex(Pair(p, i));
  }

  /** The printing loop, with the compressed run given. */
  method Print(p: seq<nat>, e0: int, e1: int, ghost g: seq<nat>, ghost b: nat, ghost n: nat) returns (s: string)
    requires |p| == 16 && |g| == 8 && b + n <= 8
    requires forall j :: 0 <= j < 8 ==> g[j] == Pair(p, 2 * j)
    requires if n >= 2 then e0 == 2 * b && e1 == 2 * (b + n) else e0 == e1 == -1
    ensures s == Printed(g, b, n, 8)
  {
    ghost var k := 0;
    s := "";
    PrintedPlain(g, b, n, 0);
    var i := 0;
    while i < 16
      invariant i == 2 * k && Reached(g, b, n, k, s)
      decreases 16 - i
    {
      i, s := PrintOne(p, e0, e1, i, s, g, b, n, k);
      k := NextGroup(b, n, k);
    }
  }

  method Ipv6String(p: seq<nat>) returns (s: string)
    requires IsOctets(p)
    ensures s == if |p| == 16 then Render(Groups(p)) else "?"
  {
    if |p| != 16 {
      return "?";
    }
    ghost var b := BestStart(Groups(p), 0);
    var e0, e1 := LongestRun(p);
    s := Print(p, e0, e1, Groups(p), b, RunLength(Groups(p), b));
    PrintedAll(Groups(p), b, RunLength(Groups(p), b));
  }
}
