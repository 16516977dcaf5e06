/** Numbers as text and text in parts: what the address canonicaliser prints and parses. */
module Text {
  import opened Config

  // --- Parts ---

  function Join(parts: seq<string>, sep: char): string {
    if parts == [] then ""
    else if |parts| == 1 then parts[0]
    else parts[0] + [sep] + Join(parts[1..], sep)
  }

  /** The first position of c. */
  function Index(s: string, c: char): (r: Option<nat>)
    ensures r.None? <==> c !in s
    ensures r.Some? ==> r.value < |s| && s[r.value] == c && c !in s[..r.value]
  {
    if s == "" then None
    else if s[0] == c then Some(0)
    else
      match Index(s[1..], c)
      case None => None
      case Some(i) => assert s[..i + 1] == [s[0]] + s[1..][..i]; Some(i + 1)
  }

  lemma IndexIsFirst(s: string, t: string, c: char)
    requires c !in s
    ensures Index(s + [c] + t, c) == Some(|s|)
  {
    var whole := s + [c] + t;
    assert whole[|s|] == c;
    var i := Index(whole, c).value;
    assert forall j | 0 <= j < |s| :: whole[j] == s[j] && whole[j] != c;
  }

  function Split(s: string, sep: char): (parts: seq<string>)
    ensures parts != []
    decreases |s|
  {
    match Index(s, sep)
    case None => [s]
    case Some(i) => [s[..i]] + Split(s[i + 1..], sep)
  }

  ghost predicate PlainParts(parts: seq<string>, sep: char) {
    forall i :: 0 <= i < |parts| ==> parts[i] != "" && sep !in parts[i]
  }

  /** Splitting undoes joining. */
  lemma {:induction false} SplitJoin(parts: seq<string>, sep: char)
    requires parts != [] && PlainParts(parts, sep)
    ensures Split(Join(parts, sep), sep) == parts
  {
    if |parts| > 1 {
      var rest := Join(parts[1..], sep);
      IndexIsFirst(parts[0], rest, sep);
      assert (parts[0] + [sep] + rest)[..|parts[0]|] == parts[0];
      assert (parts[0] + [sep] + rest)[|parts[0]| + 1..] == rest;
      SplitJoin(parts[1..], sep);
    }
  }

  /** No separator at either end, nor two in a row. */
  ghost predicate Tidy(s: string, sep: char) {
    && s != "" && s[0] != sep && s[|s| - 1] != sep
    && forall i :: 0 <= i < |s| - 1 ==> !(s[i] == sep && s[i + 1] == sep)
  }

  lemma {:induction false} JoinIsTidy(parts: seq<string>, sep: char)
    requires parts != [] && PlainParts(parts, sep)
    ensures Tidy(Join(parts, sep), sep)
  {
    if |parts| > 1 {
      JoinIsTidy(parts[1..], sep);
      var a, b := parts[0], Join(parts[1..], sep);
      var s := a + [sep] + b;
      assert a[0] != sep && a[|a| - 1] != sep;
      forall i | 0 <= i < |s| - 1 ensures !(s[i] == sep && s[i + 1] == sep) {
        if i < |a| {
          assert s[i] == a[i] && a[i] in a;
        } else if i > |a| {
          assert s[i] == b[i - |a| - 1] && s[i + 1] == b[i - |a|];
        }
      }
    }
  }

  ghost predicate Uses(s: string, alphabet: string) {
    forall c :: c in s ==> c in alphabet
  }

  lemma {:induction false} JoinUses(parts: seq<string>, sep: char, alphabet: string)
    requires sep in alphabet && forall i :: 0 <= i < |parts| ==> Uses(parts[i], alphabet)
    ensures Uses(Join(parts, sep), alphabet)
  {
    if |parts| > 1 {
      JoinUses(parts[1..], sep, alphabet);
    }
  }

  lemma {:induction false} JoinLength(parts: seq<string>, sep: char, n: nat)
    requires parts != [] && forall i :: 0 <= i < |parts| ==> |parts[i]| <= n
    ensures |Join(parts, sep)| <= (n + 1) * |parts| - 1
  {
    if |parts| > 1 {
      JoinLength(parts[1..], sep, n);
    }
  }

  // --- Numbers ---

  const DIGITS := "0123456789abcdef"

  /** The value of a digit in either case, 16 if it is none. */
  function DigitValue(c: char): (v: nat)
    ensures v <= 16
  {
    if '0' <= c <= '9' then c as nat - '0' as nat
    else if 'a' <= c <= 'f' then c as nat - 'a' as nat + 10
    else if 'A' <= c <= 'F' then c as nat - 'A' as nat + 10
    else 16
  }

  datatype Base = Decimal | Hexadecimal {
    function Size(): nat {
      if Decimal? then 10 else 16
    }

    function Rest(n: nat): nat {
      if Decimal? then n / 10 else n / 16
    }

    function Last(n: nat): nat {
      if Decimal? then n % 10 else n % 16
    }

    function Extend(v: nat, d: nat): nat {
      if Decimal? then 10 * v + d else 16 * v + d
    }
  }

  function Numeral(n: nat, base: Base): (s: string)
    ensures s != ""
    decreases n
  {
    if n < base.Size() then [DIGITS[n]] else Numeral(base.Rest(n), base) + [DIGITS[base.Last(n)]]
  }

  /** The value of a non-empty string of digits of the base. */
  function Value(s: string, base: Base): Option<nat> {
    if s == "" then None
    else
      var n := |s| - 1;
      var d := DigitValue(s[n]);
      if d >= base.Size() then None
      else if n == 0 then Some(d)
      else
        match Value(s[..n], base)
        case None => None
        case Some(v) => Some(base.Extend(v, d))
  }

  lemma DigitsHaveValues(d: nat)
    requires d < 16
    ensures DigitValue(DIGITS[d]) == d
  {
  }

  lemma LastExtendsRest(n: nat, base: Base)
    ensures base.Extend(base.Rest(n), base.Last(n)) == n && base.Last(n) < base.Size()
  {
  }

  /** Reading a printed number gives it back. */
  lemma {:induction false} ValueOfNumeral(n: nat, base: Base)
    ensures Value(Numeral(n, base), base) == Some(n)
    decreases n
  {
    if n < base.Size() {
      DigitsHaveValues(n);
    } else {
      LastExtendsRest(n, base);
      DigitsHaveValues(base.Last(n));
      ValueOfNumeral(base.Rest(n), base);
      var s := Numeral(base.Rest(n), base) + [DIGITS[base.Last(n)]];
      assert s[..|s| - 1] == Numeral(base.Rest(n), base);
    }
  }

  lemma {:induction false} NumeralUsesDigits(n: nat, base: Base)
    ensures Uses(Numeral(n, base), DIGITS)
    decreases n
  {
    if n >= base.Size() {
      NumeralUsesDigits(base.Rest(n), base);
    }
  }

  /** No leading zero, except in zero itself. */
  lemma {:induction false} NumeralIsShortest(n: nat, base: Base)
    ensures |Numeral(n, base)| > 1 || n > 0 ==> Numeral(n, base)[0] != '0'
    decreases n
  {
    if n < base.Size() {
      DigitsHaveValues(n);
    } else {
      NumeralIsShortest(base.Rest(n), base);
    }
  }
}
