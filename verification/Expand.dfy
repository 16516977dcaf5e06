/** Expanding the abbreviated names of a path against the schema, and checking a full path. */
module Expand {
  import opened Config

  /** A schema node. A container stands for the root of the tree too, a value for a leaf or a
      leaf-list; other kinds of node cannot be part of a configuration path. */
  datatype Schema =
    | Container(name: string, kids: seq<Schema>)
    | List(name: string, kids: seq<Schema>, keys: seq<string>)
    | Value(name: string, empty: bool)
    | Other(name: string)

  ghost predicate Distinct(kids: seq<Schema>) {
    forall i, j :: 0 <= i < j < |kids| ==> kids[i].name != kids[j].name
  }

  /** Sibling names are unique, at every level. */
  ghost predicate WellFormed(s: Schema) {
    s.Container? || s.List? ==> Distinct(s.kids) && forall k :: 0 <= k < |s.kids| ==> WellFormed(s.kids[k])
  }

  predicate StartsWith(name: string, val: string) {
    val <= name
  }

  // --- Collecting the children that match a name ---

  datatype Matches = Matches(nodes: seq<Schema>, byPrefix: bool)

  /** The outcome of scanning the children with some matches already collected. */
  function Scan(kids: seq<Schema>, skip: seq<string>, val: string, prefix: string, pos: int, m: Matches): Matches {
    if kids == [] then m
    else
      var c, rest := kids[0], kids[1..];
      if c.name in skip then Scan(rest, skip, val, prefix, pos, m)
      else if c.name == val then Matches([c], m.byPrefix)
      else if StartsWith(c.name, val) then Scan(rest, skip, val, prefix, pos, Matches(m.nodes + [c], m.byPrefix))
      else if pos == 0 && StartsWith(c.name, prefix) then
        Scan(rest, skip, val, prefix, pos, Matches(m.nodes + [c], true))
      else Scan(rest, skip, val, prefix, pos, m)
  }

  const NONE := Matches([], false)

  method CollectMatches(kids: seq<Schema>, skip: seq<string>, val: string, prefix: string, pos: int)
    returns (m: Matches)
    ensures m == Scan(kids, skip, val, prefix, pos, NONE)
  {
    var matches: seq<Schema>, prefixMatch, i := [], false, 0;
    while i < |kids|
      invariant 0 <= i <= |kids|
      invariant Scan(kids, skip, val, prefix, pos, NONE)
             == Scan(kids[i..], skip, val, prefix, pos, Matches(matches, prefixMatch))
    {
      var c := kids[i];
      i := i + 1;
      if c.name in skip {
        continue;
      }
      if c.name == val {
        matches := [c];
        return Matches(matches, prefixMatch);
      } else if StartsWith(c.name, val) {
        matches := matches + [c];
      } else if pos == 0 {
        if StartsWith(c.name, prefix) {
          prefixMatch := true;
          matches := matches + [c];
        }
      }
    }
    m := Matches(matches, prefixMatch);
  }

  // --- Expansion ---

  datatype Expansion =
    | Expanded(path: Path)
    | Unknown(at: Path, what: string)
    | Ambiguous(at: Path, names: set<string>)
    | BadPrefix

  function Names(nodes: seq<Schema>): set<string> {
    set k | 0 <= k < |nodes| :: nodes[k].name
  }

  function ProcessNode(s: Schema, path: Path, cpath: Path, prefix: string, pos: int): Expansion
    requires s.Other? ==> cpath != []
    decreases |path|, 1
  {
    match s
    case Container(_, kids) => ProcessChildren(kids, [], path, cpath, prefix, pos - 1)
    case List(_, kids, keys) =>
      if path == [] then Expanded(cpath)
      else ProcessChildren(kids, keys, path[1..], cpath + [path[0]], prefix, pos)
    case Value(_, empty) =>
      if path == [] then Expanded(cpath)
      else if empty then Unknown(cpath, path[0])
      else if |path| > 1 then Unknown(cpath + [path[0]], path[1])
      else Expanded(cpath + path)
    case Other(_) => Unknown(cpath[..|cpath| - 1], cpath[|cpath| - 1])
  }

  function ProcessChildren(kids: seq<Schema>, skip: seq<string>, path: Path, cpath: Path, prefix: string, pos: int)
    : Expansion
    decreases |path|, 0
  {
    if path == [] then Expanded(cpath)
    else
      var m := Scan(kids, skip, path[0], prefix, pos, NONE);
      if |m.nodes| == 0 then Unknown(cpath, path[0])
      else if |m.nodes| == 1 then
        var name := m.nodes[0].name;
        if !m.byPrefix then ProcessNode(m.nodes[0], path[1..], cpath + [name], prefix, pos)
        else if |prefix| >= |path[0]| then BadPrefix
        else ProcessNode(m.nodes[0], path[1..], cpath + [name + path[0][|prefix|..]], prefix, pos)
      else Ambiguous(cpath + [path[0]], Names(m.nodes))
  }

  function ExpandPath(root: Schema, path: Path, prefix: string, pos: int): Expansion
    requires root.Container?
  {
    ProcessNode(root, path, [], prefix, pos)
  }

  // --- What an expansion is, whatever the order of the children ---

  predicate Named(kids: seq<Schema>, skip: seq<string>, name: string) {
    name !in skip && exists k :: 0 <= k < |kids| && kids[k].name == name
  }

  /** A name written in full, or an abbreviation of one name only; skipped names do not count. */
  ghost predicate Resolves(kids: seq<Schema>, skip: seq<string>, val: string, name: string) {
    && Named(kids, skip, name)
    && StartsWith(name, val)
    && (name == val || forall other :: Named(kids, skip, other) && StartsWith(other, val) ==> other == name)
  }

  ghost predicate ExpandsBelow(kids: seq<Schema>, skip: seq<string>, path: Path, out: Path)
    decreases |path|, 0
  {
    if path == [] then out == []
    else
      && out != []
      && Resolves(kids, skip, path[0], out[0])
      && exists k :: 0 <= k < |kids| && kids[k].name == out[0] && Expands(kids[k], path[1..], out[1..])
  }

  ghost predicate Expands(s: Schema, path: Path, out: Path)
    decreases |path|, 1
  {
    match s
    case Container(_, kids) => ExpandsBelow(kids, [], path, out)
    case List(_, kids, keys) =>
      if path == [] then out == []
      else out != [] && out[0] == path[0] && ExpandsBelow(kids, keys, path[1..], out[1..])
    case Value(_, empty) => out == path && (path == [] || (|path| == 1 && !empty))
    case Other(_) => false
  }

  // --- What a scan collects when no prefix is in play ---

  /** The children a scan without an exact match collects. */
  function Abbreviated(kids: seq<Schema>, skip: seq<string>, val: string): seq<Schema> {
    if kids == [] then []
    else (if kids[0].name !in skip && StartsWith(kids[0].name, val) then [kids[0]] else [])
         + Abbreviated(kids[1..], skip, val)
  }

  lemma {:induction false} ScanWithoutExact(kids: seq<Schema>, skip: seq<string>, val: string, prefix: string,
                                            pos: int, m: Matches)
    requires pos != 0 && !Named(kids, skip, val)
    ensures Scan(kids, skip, val, prefix, pos, m)
         == Matches(m.nodes + Abbreviated(kids, skip, val), m.byPrefix)
  {
    if kids != [] {
      var c, rest := kids[0], kids[1..];
      RestNames(kids, skip, val);
      if c.name !in skip && StartsWith(c.name, val) {
        ScanWithoutExact(rest, skip, val, prefix, pos, Matches(m.nodes + [c], m.byPrefix));
        assert m.nodes + [c] + Abbreviated(rest, skip, val) == m.nodes + ([c] + Abbreviated(rest, skip, val));
      } else {
        ScanWithoutExact(rest, skip, val, prefix, pos, m);
      }
    }
  }

  lemma RestNames(kids: seq<Schema>, skip: seq<string>, name: string)
    requires kids != []
    ensures Named(kids, skip, name) <==> name !in skip && (kids[0].name == name || Named(kids[1..], skip, name))
  {
    if k :| 0 <= k < |kids| && kids[k].name == name {
      if k > 0 { assert kids[1..][k - 1].name == name; }
    }
    if k :| 0 <= k < |kids[1..]| && kids[1..][k].name == name {
      assert kids[k + 1].name == name;
    }
  }

  lemma {:induction false} ScanWithExact(kids: seq<Schema>, skip: seq<string>, val: string, prefix: string,
                                         pos: int, m: Matches) returns (k: nat)
    requires pos != 0 && Named(kids, skip, val)
    ensures k < |kids| && kids[k].name == val
    ensures Scan(kids, skip, val, prefix, pos, m) == Matches([kids[k]], m.byPrefix)
  {
    RestNames(kids, skip, val);
    var c, rest := kids[0], kids[1..];
    if c.name == val {
      k := 0;
    } else {
      var m' := if c.name !in skip && StartsWith(c.name, val) then Matches(m.nodes + [c], m.byPrefix) else m;
      var j := ScanWithExact(rest, skip, val, prefix, pos, m');
      k := j + 1;
    }
  }

  lemma {:induction false} AbbreviatedNames(kids: seq<Schema>, skip: seq<string>, val: string)
    ensures forall name :: name in Names(Abbreviated(kids, skip, val))
                      <==> Named(kids, skip, name) && StartsWith(name, val)
  {
    if kids != [] {
      var c, rest := kids[0], kids[1..];
      var a := Abbreviated(rest, skip, val);
      AbbreviatedNames(rest, skip, val);
      forall name
        ensures name in Names(Abbreviated(kids, skip, val)) <==> Named(kids, skip, name) && StartsWith(name, val)
      {
        RestNames(kids, skip, name);
        NamesOfCons(c, a, name);
        assert [] + a == a;
      }
    }
  }

  lemma {:induction false} AbbreviatedFrom(kids: seq<Schema>, skip: seq<string>, val: string)
    ensures forall c :: c in Abbreviated(kids, skip, val) ==> c in kids
    ensures Distinct(kids) ==> Distinct(Abbreviated(kids, skip, val))
  {
    if kids != [] {
      var c, rest := kids[0], kids[1..];
      var a := Abbreviated(rest, skip, val);
      AbbreviatedFrom(rest, skip, val);
      if Distinct(kids) {
        forall j | 0 <= j < |a| ensures a[j].name != c.name {
          assert a[j] in rest;
        }
      }
    }
  }

  lemma NamesOfCons(c: Schema, a: seq<Schema>, name: string)
    ensures name in Names([c] + a) <==> name == c.name || name in Names(a)
  {
    var s := [c] + a;
    assert s[0] == c;
    if name in Names(a) {
      var k :| 0 <= k < |a| && a[k].name == name;
      assert s[k + 1].name == name;
    }
    if name in Names(s) {
      var k :| 0 <= k < |s| && s[k].name == name;
      if k > 0 { assert a[k - 1].name == name; }
    }
  }

  lemma {:induction false} NamesCount(a: seq<Schema>)
    requires Distinct(a)
    ensures |Names(a)| == |a|
  {
    if a != [] {
      var c, rest := a[0], a[1..];
      assert [c] + rest == a;
      forall name ensures name in Names(a) <==> name == c.name || name in Names(rest) {
        NamesOfCons(c, rest, name);
      }
      assert Names(a) == {c.name} + Names(rest);
      assert c.name !in Names(rest);
      NamesCount(rest);
    }
  }

  /** With no prefix in play, exactly one match means that the name resolves to it. */
  lemma MatchResolves(kids: seq<Schema>, skip: seq<string>, val: string, prefix: string, pos: int, name: string)
    requires pos != 0 && Distinct(kids)
    ensures var m := Scan(kids, skip, val, prefix, pos, NONE);
            && !m.byPrefix
            && (Resolves(kids, skip, val, name) <==> |m.nodes| == 1 && m.nodes[0].name == name)
            && (|m.nodes| == 1 ==> m.nodes[0] in kids)
  {
    if Named(kids, skip, val) {
      var k := ScanWithExact(kids, skip, val, prefix, pos, NONE);
    } else {
      ScanWithoutExact(kids, skip, val, prefix, pos, NONE);
      var a := Abbreviated(kids, skip, val);
      assert [] + a == a;
      AbbreviatedNames(kids, skip, val);
      AbbreviatedFrom(kids, skip, val);
      if Resolves(kids, skip, val, name) {
        assert name in Names(a);
        OnlyName(a, name);
      } else if |a| == 1 && a[0].name == name {
        OneName(a);
      }
    }
  }

  lemma OnlyName(a: seq<Schema>, name: string)
    requires Distinct(a) && name in Names(a) && forall other :: other in Names(a) ==> other == name
    ensures |a| == 1 && a[0].name == name
  {
    assert Names(a) == {name};
    NamesCount(a);
    OneName(a);
  }

  lemma OneName(a: seq<Schema>)
    requires |a| == 1
    ensures Names(a) == {a[0].name}
  {
  }

  lemma SameName(kids: seq<Schema>, c: Schema, k: nat)
    requires Distinct(kids) && c in kids && k < |kids| && kids[k].name == c.name
    ensures c == kids[k]
  {
    var j :| 0 <= j < |kids| && kids[j] == c;
  }

  // --- Expansion is exactly what the relation says ---

  lemma {:induction false} NodeIsExact(s: Schema, path: Path, cpath: Path, prefix: string, pos: int, out: Path)
    requires WellFormed(s) && (s.Other? ==> cpath != [])
    requires pos < 0 || (s.Container? && pos == 0)
    ensures ProcessNode(s, path, cpath, prefix, pos) == Expanded(cpath + out) <==> Expands(s, path, out)
    decreases |path|, 1
  {
    match s
    case Container(_, kids) =>
      BelowIsExact(kids, [], path, cpath, prefix, pos - 1, out);
    case List(_, kids, keys) =>
      if path != [] {
        var below := cpath + [path[0]];
        BelowExtends(kids, keys, path[1..], below, prefix, pos);
        FirstAppended(cpath, path[0], out);
        if out != [] && out[0] == path[0] {
          BelowIsExact(kids, keys, path[1..], below, prefix, pos, out[1..]);
          assert below + out[1..] == cpath + out;
        }
      } else {
        Appended(cpath, [], out);
      }
    case Value(_, empty) =>
      Appended(cpath, path, out);
      Appended(cpath, [], out);
    case Other(_) =>
  }

  lemma Appended(c: Path, p: Path, q: Path)
    ensures c + p == c + q <==> p == q
  {
    if c + p == c + q {
      assert p == (c + p)[|c|..] && q == (c + q)[|c|..];
    }
  }

  lemma FirstAppended(c: Path, x: string, q: Path)
    ensures c + [x] <= c + q ==> q != [] && q[0] == x
  {
    if c + [x] <= c + q {
      assert (c + [x])[|c|] == (c + q)[|c|];
    }
  }

  /** Whatever is expanded is appended to the path so far. */
  lemma {:induction false} BelowExtends(kids: seq<Schema>, skip: seq<string>, path: Path, cpath: Path,
                                        prefix: string, pos: int)
    ensures ProcessChildren(kids, skip, path, cpath, prefix, pos).Expanded? ==>
              cpath <= ProcessChildren(kids, skip, path, cpath, prefix, pos).path
    decreases |path|, 0
  {
    if path != [] {
      var m := Scan(kids, skip, path[0], prefix, pos, NONE);
      if |m.nodes| == 1 {
        NodeExtends(m.nodes[0], path[1..], cpath + [m.nodes[0].name], prefix, pos);
        if m.byPrefix && |prefix| < |path[0]| {
          NodeExtends(m.nodes[0], path[1..], cpath + [m.nodes[0].name + path[0][|prefix|..]], prefix, pos);
        }
      }
    }
  }

  lemma {:induction false} NodeExtends(s: Schema, path: Path, cpath: Path, prefix: string, pos: int)
    requires s.Other? ==> cpath != []
    ensures ProcessNode(s, path, cpath, prefix, pos).Expanded? ==>
              cpath <= ProcessNode(s, path, cpath, prefix, pos).path
    decreases |path|, 1
  {
    match s
    case Container(_, kids) => BelowExtends(kids, [], path, cpath, prefix, pos - 1);
    case List(_, kids, keys) =>
      if path != [] { BelowExtends(kids, keys, path[1..], cpath + [path[0]], prefix, pos); }
    case Value(_, _) =>
    case Other(_) =>
  }

  lemma {:induction false} BelowIsExact(kids: seq<Schema>, skip: seq<string>, path: Path, cpath: Path,
                                        prefix: string, pos: int, out: Path)
    requires pos < 0 && Distinct(kids) && forall k :: 0 <= k < |kids| ==> WellFormed(kids[k])
    ensures ProcessChildren(kids, skip, path, cpath, prefix, pos) == Expanded(cpath + out)
       <==> ExpandsBelow(kids, skip, path, out)
    decreases |path|, 0
  {
    if path == [] {
      Appended(cpath, [], out);
    } else {
      var m := Scan(kids, skip, path[0], prefix, pos, NONE);
      MatchResolves(kids, skip, path[0], prefix, pos, if out == [] then "" else out[0]);
      if |m.nodes| == 1 {
        var c := m.nodes[0];
        var below := cpath + [c.name];
        NodeExtends(c, path[1..], below, prefix, pos);
        FirstAppended(cpath, c.name, out);
        if out != [] && out[0] == c.name {
          NodeIsExact(c, path[1..], below, prefix, pos, out[1..]);
          assert below + out[1..] == cpath + out;
          forall k | 0 <= k < |kids| && kids[k].name == c.name ensures kids[k] == c {
            SameName(kids, c, k);
          }
        }
      }
    }
  }

  /** The expansion succeeds with a path exactly when the relation holds, whatever the prefix
      is: each name is resolved to one child, exact names first, and the values fit. */
  lemma ExpansionIsExact(root: Schema, path: Path, prefix: string, pos: int, out: Path)
    requires root.Container? && WellFormed(root) && pos <= 0
    ensures ExpandPath(root, path, prefix, pos) == Expanded(out) <==> Expands(root, path, out)
  {
    NodeIsExact(root, path, [], prefix, pos, out);
    assert [] + out == out;
  }

  // --- Consequences: stability under repetition and under longer abbreviations ---

  /** Each word of q is an abbreviation of the word of out at the same place, at least as long
      as the word of p. */
  ghost predicate Between(p: Path, q: Path, out: Path) {
    && |p| == |q| == |out|
    && forall i :: 0 <= i < |p| ==> StartsWith(q[i], p[i]) && StartsWith(out[i], q[i])
  }

  lemma {:induction false} ExpandsKeepsWords(s: Schema, path: Path, out: Path)
    requires Expands(s, path, out)
    ensures Between(path, path, out) && Between(path, out, out)
    decreases |path|, 1
  {
    match s
    case Container(_, kids) => BelowKeepsWords(kids, [], path, out);
    case List(_, kids, keys) => if path != [] { BelowKeepsWords(kids, keys, path[1..], out[1..]); }
    case Value(_, _) =>
  }

  lemma {:induction false} BelowKeepsWords(kids: seq<Schema>, skip: seq<string>, path: Path, out: Path)
    requires ExpandsBelow(kids, skip, path, out)
    ensures Between(path, path, out) && Between(path, out, out)
    decreases |path|, 0
  {
    if path != [] {
      var k :| 0 <= k < |kids| && kids[k].name == out[0] && Expands(kids[k], path[1..], out[1..]);
      ExpandsKeepsWords(kids[k], path[1..], out[1..]);
    }
  }

  lemma ResolvesLonger(kids: seq<Schema>, skip: seq<string>, val: string, longer: string, name: string)
    requires Resolves(kids, skip, val, name) && StartsWith(longer, val) && StartsWith(name, longer)
    ensures Resolves(kids, skip, longer, name)
  {
    forall other | name != longer && Named(kids, skip, other) && StartsWith(other, longer) ensures other == name {
      assert StartsWith(other, val);
    }
  }

  /** Spelling out more of a word does not change what it expands to. */
  lemma {:induction false} LongerWords(s: Schema, p: Path, q: Path, out: Path)
    requires Expands(s, p, out) && Between(p, q, out)
    ensures Expands(s, q, out)
    decreases |p|, 1
  {
    match s
    case Container(_, kids) => LongerWordsBelow(kids, [], p, q, out);
    case List(_, kids, keys) =>
      if p != [] { LongerWordsBelow(kids, keys, p[1..], q[1..], out[1..]); }
    case Value(_, _) =>
      forall i | 0 <= i < |p| ensures q[i] == p[i] {
        assert StartsWith(q[i], p[i]) && StartsWith(p[i], q[i]);
      }
      assert q == p;
  }

  lemma {:induction false} LongerWordsBelow(kids: seq<Schema>, skip: seq<string>, p: Path, q: Path, out: Path)
    requires ExpandsBelow(kids, skip, p, out) && Between(p, q, out)
    ensures ExpandsBelow(kids, skip, q, out)
    decreases |p|, 0
  {
    if p != [] {
      ResolvesLonger(kids, skip, p[0], q[0], out[0]);
      var k :| 0 <= k < |kids| && kids[k].name == out[0] && Expands(kids[k], p[1..], out[1..]);
      LongerWords(kids[k], p[1..], q[1..], out[1..]);
    }
  }

  /** An expansion has the length of the path, each word extends the word it came from, and any
      spelling in between, the expansion itself included, expands to the same path. */
  lemma ExpansionIsStable(root: Schema, path: Path, longer: Path, prefix: string, pos: int, out: Path)
    requires root.Container? && WellFormed(root) && pos <= 0
    requires ExpandPath(root, path, prefix, pos) == Expanded(out)
    ensures Between(path, path, out)
    ensures Between(path, longer, out) ==> ExpandPath(root, longer, prefix, pos) == Expanded(out)
    ensures ExpandPath(root, out, prefix, pos) == Expanded(out)
  {
    ExpansionIsExact(root, path, prefix, pos, out);
    ExpandsKeepsWords(root, path, out);
    LongerWords(root, path, out, out);
    ExpansionIsExact(root, out, prefix, pos, out);
    if Between(path, longer, out) {
      LongerWords(root, path, longer, out);
      ExpansionIsExact(root, longer, prefix, pos, out);
    }
  }

  // --- The order of the children does not matter ---

  predicate SameKeys(a: seq<string>, b: seq<string>) {
    (forall x :: x in a ==> x in b) && (forall x :: x in b ==> x in a)
  }

  /** The same schema, but for the order of the children of each node. */
  ghost predicate Same(s: Schema, t: Schema)
    decreases s, 1
  {
    match (s, t)
    case (Container(n, _), Container(m, _)) => n == m && Reordered(s, t)
    case (List(n, _, keys), List(m, _, keys')) => n == m && SameKeys(keys, keys') && Reordered(s, t)
    case _ => s == t
  }

  ghost predicate Reordered(s: Schema, t: Schema)
    requires (s.Container? || s.List?) && (t.Container? || t.List?)
    decreases s, 0
  {
    && Names(s.kids) == Names(t.kids)
    && forall c, d :: c in s.kids && d in t.kids && c.name == d.name ==> Same(c, d)
  }

  lemma SameNames(s: Schema, t: Schema, skip: seq<string>, skip': seq<string>, name: string)
    requires (s.Container? || s.List?) && (t.Container? || t.List?)
    requires Names(s.kids) == Names(t.kids) && SameKeys(skip, skip')
    ensures Named(s.kids, skip, name) <==> Named(t.kids, skip', name)
  {
    assert (exists k :: 0 <= k < |s.kids| && s.kids[k].name == name) <==> name in Names(s.kids);
    assert (exists k :: 0 <= k < |t.kids| && t.kids[k].name == name) <==> name in Names(t.kids);
  }

  /** What a scan finds: the child named exactly, or all those the name abbreviates. */
  ghost predicate Finds(kids: seq<Schema>, skip: seq<string>, val: string, nodes: seq<Schema>) {
    && Distinct(nodes)
    && (forall c :: c in nodes ==> c in kids)
    && forall name :: name in Names(nodes) <==>
                        && Named(kids, skip, name)
                        && (if Named(kids, skip, val) then name == val else StartsWith(name, val))
  }

  lemma ScanFinds(kids: seq<Schema>, skip: seq<string>, val: string, prefix: string, pos: int)
    requires pos != 0 && Distinct(kids)
    ensures var m := Scan(kids, skip, val, prefix, pos, NONE); !m.byPrefix && Finds(kids, skip, val, m.nodes)
  {
    if Named(kids, skip, val) {
      var k := ScanWithExact(kids, skip, val, prefix, pos, NONE);
      OneName([kids[k]]);
    } else {
      ScanWithoutExact(kids, skip, val, prefix, pos, NONE);
      var a := Abbreviated(kids, skip, val);
      assert [] + a == a;
      AbbreviatedNames(kids, skip, val);
      AbbreviatedFrom(kids, skip, val);
    }
  }

  lemma SameFindings(s: Schema, t: Schema, skip: seq<string>, skip': seq<string>, val: string,
                     a: seq<Schema>, b: seq<Schema>)
    requires (s.Container? || s.List?) && (t.Container? || t.List?)
    requires Names(s.kids) == Names(t.kids) && SameKeys(skip, skip')
    requires Finds(s.kids, skip, val, a) && Finds(t.kids, skip', val, b)
    ensures Names(a) == Names(b) && |a| == |b|
  {
    SameNames(s, t, skip, skip', val);
    forall name ensures name in Names(a) <==> name in Names(b) {
      SameNames(s, t, skip, skip', name);
    }
    NamesCount(a);
    NamesCount(b);
  }

  lemma Twins(s: Schema, t: Schema, a: seq<Schema>, b: seq<Schema>)
    requires (s.Container? || s.List?) && (t.Container? || t.List?)
    requires WellFormed(s) && WellFormed(t) && Reordered(s, t)
    requires |a| == |b| == 1 && Names(a) == Names(b) && a[0] in s.kids && b[0] in t.kids
    ensures a[0].name == b[0].name && Same(a[0], b[0]) && WellFormed(a[0]) && WellFormed(b[0])
  {
    OneName(a);
    OneName(b);
    assert a[0].name in Names(b);
  }

  /** Reordering the children at any level changes neither an expansion nor an error, and no
      prefix matters. */
  lemma {:induction false} NodeIgnoresOrder(s: Schema, t: Schema, path: Path, cpath: Path,
                                            prefix: string, pos: int, prefix': string, pos': int)
    requires WellFormed(s) && WellFormed(t) && Same(s, t) && (s.Other? ==> cpath != [])
    requires pos < 0 || (s.Container? && pos == 0)
    requires pos' < 0 || (s.Container? && pos' == 0)
    ensures ProcessNode(s, path, cpath, prefix, pos) == ProcessNode(t, path, cpath, prefix', pos')
    decreases |path|, 1
  {
    match s
    case Container(_, _) =>
      BelowIgnoresOrder(s, t, [], [], path, cpath, prefix, pos - 1, prefix', pos' - 1);
    case List(_, _, _) =>
      if path != [] {
        BelowIgnoresOrder(s, t, s.keys, t.keys, path[1..], cpath + [path[0]], prefix, pos, prefix', pos');
      }
    case _ =>
  }

  lemma {:induction false} BelowIgnoresOrder(s: Schema, t: Schema, skip: seq<string>, skip': seq<string>,
                                             path: Path, cpath: Path,
                                             prefix: string, pos: int, prefix': string, pos': int)
    requires (s.Container? || s.List?) && (t.Container? || t.List?)
    requires WellFormed(s) && WellFormed(t) && Reordered(s, t) && SameKeys(skip, skip')
    requires pos < 0 && pos' < 0
    ensures ProcessChildren(s.kids, skip, path, cpath, prefix, pos)
         == ProcessChildren(t.kids, skip', path, cpath, prefix', pos')
    decreases |path|, 0
  {
    if path != [] {
      var a := Scan(s.kids, skip, path[0], prefix, pos, NONE).nodes;
      var b := Scan(t.kids, skip', path[0], prefix', pos', NONE).nodes;
      ScanFinds(s.kids, skip, path[0], prefix, pos);
      ScanFinds(t.kids, skip', path[0], prefix', pos');
      SameFindings(s, t, skip, skip', path[0], a, b);
      if |a| == 1 {
        Twins(s, t, a, b);
        NodeIgnoresOrder(a[0], b[0], path[1..], cpath + [a[0].name], prefix, pos, prefix', pos');
      }
    }
  }

  lemma ExpansionIgnoresOrder(root: Schema, root': Schema, path: Path,
                              prefix: string, pos: int, prefix': string, pos': int)
    requires root.Container? && WellFormed(root) && WellFormed(root') && Same(root, root')
    requires pos <= 0 && pos' <= 0
    ensures ExpandPath(root, path, prefix, pos) == ExpandPath(root', path, prefix', pos')
  {
    NodeIgnoresOrder(root, root', path, [], prefix, pos, prefix', pos');
  }

  // --- Every outcome, for every position of the cursor ---

  /** A child the name abbreviates or, at the cursor, one that starts with the prefix. */
  predicate Matching(name: string, skip: seq<string>, val: string, prefix: string, pos: int) {
    name !in skip && (StartsWith(name, val) || (pos == 0 && StartsWith(name, prefix)))
  }

  /** The names that match: the one that is exact, if any, else all. */
  ghost predicate Wanted(kids: seq<Schema>, skip: seq<string>, val: string, prefix: string, pos: int, name: string) {
    && Named(kids, [], name)
    && Matching(name, skip, val, prefix, pos)
    && (Named(kids, skip, val) ==> name == val)
  }

  /** Child j starts with the prefix only, and no child before it, or itself, is exact. */
  ghost predicate BorrowedAt(kids: seq<Schema>, skip: seq<string>, val: string, prefix: string, pos: int, j: nat) {
    && j < |kids| && Matching(kids[j].name, skip, val, prefix, pos) && !StartsWith(kids[j].name, val)
    && !Named(kids[..j], skip, val)
  }

  ghost predicate Borrowed(kids: seq<Schema>, skip: seq<string>, val: string, prefix: string, pos: int) {
    exists j :: BorrowedAt(kids, skip, val, prefix, pos, j)
  }

  ghost predicate Several(kids: seq<Schema>, skip: seq<string>, val: string, prefix: string, pos: int) {
    exists n, m :: n != m && Wanted(kids, skip, val, prefix, pos, n) && Wanted(kids, skip, val, prefix, pos, m)
  }

  /** What the children come to, whatever the loop over them does. */
  ghost predicate ChildrenCome(kids: seq<Schema>, skip: seq<string>, path: Path, cpath: Path, prefix: string, pos: int,
                               e: Expansion)
    decreases |path|, 0
  {
    if path == [] then e == Expanded(cpath)
    else if !(exists name :: Wanted(kids, skip, path[0], prefix, pos, name)) then e == Unknown(cpath, path[0])
    else if Several(kids, skip, path[0], prefix, pos) then
      && e.Ambiguous? && e.at == cpath + [path[0]]
      && forall name :: name in e.names <==> Wanted(kids, skip, path[0], prefix, pos, name)
    else
      var borrowed := Borrowed(kids, skip, path[0], prefix, pos);
      if borrowed && |prefix| >= |path[0]| then e == BadPrefix
      else
        exists c :: c in kids && Wanted(kids, skip, path[0], prefix, pos, c.name)
          && NodeComes(c, path[1..], cpath + [Spelled(c, path[0], prefix, borrowed)], prefix, pos, e)
  }

  /** A borrowed name keeps what was typed after the prefix. */
  function Spelled(c: Schema, val: string, prefix: string, borrowed: bool): string
    requires borrowed ==> |prefix| < |val|
  {
    if borrowed then c.name + val[|prefix|..] else c.name
  }

  /** The cursor moves on with each container; the key of a list entry is taken as it is, a leaf takes
      one value unless it is of type empty, and any other node is none of the configuration. */
  ghost predicate NodeComes(s: Schema, path: Path, cpath: Path, prefix: string, pos: int, e: Expansion)
    decreases |path|, 1
  {
    match s
    case Container(_, kids) => ChildrenCome(kids, [], path, cpath, prefix, pos - 1, e)
    case List(_, kids, keys) =>
      if path == [] then e == Expanded(cpath)
      else ChildrenCome(kids, keys, path[1..], cpath + [path[0]], prefix, pos, e)
    case Value(_, empty) =>
      if path == [] || (|path| == 1 && !empty) then e == Expanded(cpath + path)
      else if empty then e == Unknown(cpath, path[0])
      else e == Unknown(cpath + [path[0]], path[1])
    case Other(_) => e.Unknown? && cpath == e.at + [e.what]
  }

  /** The children that match, in order. */
  function Gathered(kids: seq<Schema>, skip: seq<string>, val: string, prefix: string, pos: int): seq<Schema> {
    if kids == [] then []
    else (if Matching(kids[0].name, skip, val, prefix, pos) then [kids[0]] else [])
         + Gathered(kids[1..], skip, val, prefix, pos)
  }

  lemma BorrowedStep(kids: seq<Schema>, skip: seq<string>, val: string, prefix: string, pos: int)
    requires kids != []
    ensures Borrowed(kids, skip, val, prefix, pos)
       <==> !(kids[0].name == val && val !in skip)
            && (BorrowedAt(kids, skip, val, prefix, pos, 0) || Borrowed(kids[1..], skip, val, prefix, pos))
  {
    var rest := kids[1..];
    if j: nat :| BorrowedAt(kids, skip, val, prefix, pos, j) {
      if j > 0 {
        assert kids[..j][1..] == rest[..j - 1] && kids[..j][0] == kids[0];
        RestNames(kids[..j], skip, val);
        assert BorrowedAt(rest, skip, val, prefix, pos, j - 1);
      }
    }
    if j: nat :| BorrowedAt(rest, skip, val, prefix, pos, j) {
      if !(kids[0].name == val && val !in skip) {
        assert kids[..j + 1][1..] == rest[..j] && kids[..j + 1][0] == kids[0];
        RestNames(kids[..j + 1], skip, val);
        assert BorrowedAt(kids, skip, val, prefix, pos, j + 1);
      }
    }
  }

  lemma {:induction false} ScanGathers(kids: seq<Schema>, skip: seq<string>, val: string, prefix: string, pos: int,
                                       m: Matches)
    ensures var r := Scan(kids, skip, val, prefix, pos, m);
            && (r.byPrefix <==> m.byPrefix || Borrowed(kids, skip, val, prefix, pos))
            && (!Named(kids, skip, val) ==> r.nodes == m.nodes + Gathered(kids, skip, val, prefix, pos))
            && (Named(kids, skip, val) ==> |r.nodes| == 1 && r.nodes[0] in kids && r.nodes[0].name == val)
  {
    if kids != [] {
      var c, rest := kids[0], kids[1..];
      RestNames(kids, skip, val);
      BorrowedStep(kids, skip, val, prefix, pos);
      if c.name !in skip && c.name != val {
        var one := Matching(c.name, skip, val, prefix, pos);
        var m' := if one then Matches(m.nodes + [c], m.byPrefix || !StartsWith(c.name, val)) else m;
        ScanGathers(rest, skip, val, prefix, pos, m');
        var a := Gathered(rest, skip, val, prefix, pos);
        assert m.nodes + [c] + a == m.nodes + ([c] + a);
      } else if c.name in skip {
        ScanGathers(rest, skip, val, prefix, pos, m);
      }
    }
  }

  lemma {:induction false} GatheredNames(kids: seq<Schema>, skip: seq<string>, val: string, prefix: string, pos: int,
                                         name: string)
    ensures name in Names(Gathered(kids, skip, val, prefix, pos))
       <==> Named(kids, [], name) && Matching(name, skip, val, prefix, pos)
  {
    if kids != [] {
      var c, a := kids[0], Gathered(kids[1..], skip, val, prefix, pos);
      GatheredNames(kids[1..], skip, val, prefix, pos, name);
      RestNames(kids, [], name);
      NamesOfCons(c, a, name);
      assert [] + a == a;
    }
  }

  lemma {:induction false} GatheredFrom(kids: seq<Schema>, skip: seq<string>, val: string, prefix: string, pos: int)
    ensures forall c :: c in Gathered(kids, skip, val, prefix, pos) ==> c in kids
    ensures Distinct(kids) ==> Distinct(Gathered(kids, skip, val, prefix, pos))
  {
    if kids != [] {
      var c, rest := kids[0], kids[1..];
      var a := Gathered(rest, skip, val, prefix, pos);
      GatheredFrom(rest, skip, val, prefix, pos);
      if Distinct(kids) {
        forall j | 0 <= j < |a| ensures a[j].name != c.name {
          assert a[j] in rest;
        }
      }
    }
  }

  /** What the loop over the children collects is what is wanted. */
  lemma ScanWants(kids: seq<Schema>, skip: seq<string>, val: string, prefix: string, pos: int)
    requires Distinct(kids)
    ensures var m := Scan(kids, skip, val, prefix, pos, NONE);
            && (m.byPrefix <==> Borrowed(kids, skip, val, prefix, pos))
            && Distinct(m.nodes) && (forall c :: c in m.nodes ==> c in kids)
            && forall name :: name in Names(m.nodes) <==> Wanted(kids, skip, val, prefix, pos, name)
  {
    ScanGathers(kids, skip, val, prefix, pos, NONE);
    var m := Scan(kids, skip, val, prefix, pos, NONE);
    if Named(kids, skip, val) {
      OneName(m.nodes);
    } else {
      GatheredFrom(kids, skip, val, prefix, pos);
      forall name
        ensures name in Names(Gathered(kids, skip, val, prefix, pos)) <==> Wanted(kids, skip, val, prefix, pos, name)
      {
        GatheredNames(kids, skip, val, prefix, pos, name);
      }
      assert [] + Gathered(kids, skip, val, prefix, pos) == Gathered(kids, skip, val, prefix, pos);
    }
  }

  lemma TwoNames(a: seq<Schema>)
    requires Distinct(a) && |a| > 1
    ensures a[0].name in Names(a) && a[1].name in Names(a) && a[0].name != a[1].name
  {
  }

  lemma NoNames(a: seq<Schema>)
    ensures a == [] <==> forall name :: name !in Names(a)
  {
    if a != [] {
      assert a[0].name in Names(a);
    }
  }

  /** What each name comes to: nothing found, several found, or one that is followed. */
  lemma {:induction false} ChildrenComeTo(kids: seq<Schema>, skip: seq<string>, path: Path, cpath: Path,
                                          prefix: string, pos: int)
    requires AllWellFormed(kids)
    ensures ChildrenCome(kids, skip, path, cpath, prefix, pos, ProcessChildren(kids, skip, path, cpath, prefix, pos))
    decreases |path|, 0
  {
    if path != [] {
      var m := Scan(kids, skip, path[0], prefix, pos, NONE);
      ScanWants(kids, skip, path[0], prefix, pos);
      NoNames(m.nodes);
      if |m.nodes| == 1 {
        OneName(m.nodes);
        var c := m.nodes[0];
        assert c in kids && c.name in Names(m.nodes);
        NodeComesTo(c, path[1..], cpath + [c.name], prefix, pos);
        if m.byPrefix && |prefix| < |path[0]| {
          NodeComesTo(c, path[1..], cpath + [c.name + path[0][|prefix|..]], prefix, pos);
        }
      } else if |m.nodes| > 1 {
        TwoNames(m.nodes);
      }
    }
  }

  lemma {:induction false} NodeComesTo(s: Schema, path: Path, cpath: Path, prefix: string, pos: int)
    requires WellFormed(s) && (s.Other? ==> cpath != [])
    ensures NodeComes(s, path, cpath, prefix, pos, ProcessNode(s, path, cpath, prefix, pos))
    decreases |path|, 1
  {
    match s
    case Container(_, kids) => ChildrenComeTo(kids, [], path, cpath, prefix, pos - 1);
    case List(_, kids, keys) =>
      if path != [] { ChildrenComeTo(kids, keys, path[1..], cpath + [path[0]], prefix, pos); }
    case Value(_, _) =>
    case Other(_) => assert cpath == cpath[..|cpath| - 1] + [cpath[|cpath| - 1]];
  }

  /** And to nothing else. */
  lemma {:induction false} ChildrenComeOnce(kids: seq<Schema>, skip: seq<string>, path: Path, cpath: Path,
                                            prefix: string, pos: int, e: Expansion, e': Expansion)
    requires AllWellFormed(kids)
    requires ChildrenCome(kids, skip, path, cpath, prefix, pos, e)
    requires ChildrenCome(kids, skip, path, cpath, prefix, pos, e')
    ensures e == e'
    decreases |path|, 0
  {
    if path != [] && exists name :: Wanted(kids, skip, path[0], prefix, pos, name) {
      var borrowed := Borrowed(kids, skip, path[0], prefix, pos);
      if Several(kids, skip, path[0], prefix, pos) {
        assert forall name :: name in e.names <==> name in e'.names;
        assert e.names == e'.names;
      } else if !(borrowed && |prefix| >= |path[0]|) {
        var c :| c in kids && Wanted(kids, skip, path[0], prefix, pos, c.name)
                 && NodeComes(c, path[1..], cpath + [Spelled(c, path[0], prefix, borrowed)], prefix, pos, e);
        var d :| d in kids && Wanted(kids, skip, path[0], prefix, pos, d.name)
                 && NodeComes(d, path[1..], cpath + [Spelled(d, path[0], prefix, borrowed)], prefix, pos, e');
        assert c.name == d.name;
        var k :| 0 <= k < |kids| && kids[k] == d;
        SameName(kids, c, k);
        NodeComesOnce(c, path[1..], cpath + [Spelled(c, path[0], prefix, borrowed)], prefix, pos, e, e');
      }
    }
  }

  lemma {:induction false} NodeComesOnce(s: Schema, path: Path, cpath: Path, prefix: string, pos: int,
                                         e: Expansion, e': Expansion)
    requires WellFormed(s) && NodeComes(s, path, cpath, prefix, pos, e) && NodeComes(s, path, cpath, prefix, pos, e')
    ensures e == e'
    decreases |path|, 1
  {
    match s
    case Container(_, kids) => ChildrenComeOnce(kids, [], path, cpath, prefix, pos - 1, e, e');
    case List(_, kids, keys) =>
      if path != [] { ChildrenComeOnce(kids, keys, path[1..], cpath + [path[0]], prefix, pos, e, e'); }
    case Value(_, _) =>
    case Other(_) =>
      assert cpath[..|cpath| - 1] == e.at && cpath[..|cpath| - 1] == e'.at;
  }

  /** Every outcome of an expansion, an error included, is exactly what the relation says, wherever the
      cursor is. */
  lemma OutcomeIsExact(root: Schema, path: Path, prefix: string, pos: int, e: Expansion)
    requires root.Container? && WellFormed(root)
    ensures ExpandPath(root, path, prefix, pos) == e <==> NodeComes(root, path, [], prefix, pos, e)
  {
    NodeComesTo(root, path, [], prefix, pos);
    if NodeComes(root, path, [], prefix, pos, e) {
      NodeComesOnce(root, path, [], prefix, pos, e, ExpandPath(root, path, prefix, pos));
    }
  }

  // --- Checking a full path ---

  /** Where a path has led: a schema node, an entry of a list, or the value of a leaf. */
  datatype Place = At(s: Schema) | Entry(kids: seq<Schema>, keys: seq<string>) | Final

  function Child(kids: seq<Schema>, name: string): (c: Option<Schema>)
    ensures c.Some? ==> c.value in kids && c.value.name == name
  {
    if kids == [] then None
    else if kids[0].name == name then Some(kids[0])
    else Child(kids[1..], name)
  }

  function Down(c: Option<Schema>): Option<Place> {
    match c
    case None => None
    case Some(s) => Some(At(s))
  }

  /** The child of a place in the schema; the assumed contract of the schema library. */
  function SchemaChild(at: Place, v: string): Option<Place> {
    match at
    case At(Container(_, kids)) => Down(Child(kids, v))
    case At(List(_, kids, keys)) => Some(Entry(kids, keys))
    case At(Value(_, empty)) => if empty then None else Some(Final)
    case Entry(kids, _) => Down(Child(kids, v))
    case _ => None
  }

  function Reach(at: Place, path: Path): Option<Place>
    decreases |path|
  {
    if path == [] then Some(at)
    else
      match SchemaChild(at, path[0])
      case None => None
      case Some(next) => Reach(next, path[1..])
  }

  lemma {:induction false} ReachSteps(at: Place, p: Path, q: Path)
    ensures Reach(at, p + q) == match Reach(at, p) case None => None case Some(next) => Reach(next, q)
    decreases |p|
  {
    if p == [] {
      assert p + q == q;
    } else {
      assert (p + q)[1..] == p[1..] + q;
      match SchemaChild(at, p[0])
      case None =>
      case Some(next) => ReachSteps(next, p[1..], q);
    }
  }

  /** Reports the first name of a path that the schema does not have, and where. */
  method ValidatePath(root: Schema, ps: Path) returns (err: Option<Expansion>)
    ensures err.None? <==> Reach(At(root), ps).Some?
    ensures err.Some? ==> exists i :: 0 <= i < |ps| && err.value == Unknown(ps[..i], ps[i])
                                      && Reach(At(root), ps[..i]).Some? && Reach(At(root), ps[..i + 1]).None?
  {
    var sn := At(root);
    var i := 0;
    while i < |ps|
      invariant 0 <= i <= |ps|
      invariant Reach(At(root), ps[..i]) == Some(sn)
    {
      var v := ps[i];
      var next := SchemaChild(sn, v);
      ReachSteps(At(root), ps[..i], [v]);
      assert ps[..i] + [v] == ps[..i + 1];
      if next.None? {
        ReachSteps(At(root), ps[..i + 1], ps[i + 1..]);
        assert ps[..i + 1] + ps[i + 1..] == ps;
        return Some(Unknown(ps[..i], v));
      }
      sn := next.value;
      i := i + 1;
    }
    assert ps[..i] == ps;
    err := None;
  }

  /** No name of a path is that of a key of a list, nor does the path reach a node that is
      outside the configuration. */
  ghost predicate Plain(at: Place, path: Path)
    decreases |path|
  {
    if path == [] then !(at.At? && at.s.Other?)
    else
      && (at.Entry? ==> path[0] !in at.keys)
      && match SchemaChild(at, path[0])
         case None => false
         case Some(next) => Plain(next, path[1..])
  }

  lemma {:induction false} ChildIsFound(kids: seq<Schema>, k: nat)
    requires k < |kids| && Distinct(kids)
    ensures Child(kids, kids[k].name) == Some(kids[k])
  {
    if k > 0 {
      ChildIsFound(kids[1..], k - 1);
    }
  }

  ghost predicate AllWellFormed(kids: seq<Schema>) {
    Distinct(kids) && forall k :: 0 <= k < |kids| ==> WellFormed(kids[k])
  }

  /** What the check accepts, but for keys, is exactly what expands to itself. */
  lemma {:induction false} FullPaths(s: Schema, p: Path)
    requires WellFormed(s)
    ensures Expands(s, p, p) <==> Plain(At(s), p)
    decreases |p|, 1
  {
    match s
    case Container(_, kids) => FullPathsBelow(At(s), kids, [], p);
    case List(_, kids, keys) => if p != [] { FullPathsBelow(Entry(kids, keys), kids, keys, p[1..]); }
    case Value(_, _) =>
    case Other(_) =>
  }

  lemma {:induction false} FullPathsBelow(at: Place, kids: seq<Schema>, skip: seq<string>, p: Path)
    requires AllWellFormed(kids)
    requires at == Entry(kids, skip) || (at.At? && at.s.Container? && at.s.kids == kids && skip == [])
    ensures ExpandsBelow(kids, skip, p, p) <==> Plain(at, p)
    decreases |p|, 0
  {
    if p != [] {
      match Child(kids, p[0])
      case None =>
        forall k | 0 <= k < |kids| ensures kids[k].name != p[0] {
          ChildIsFound(kids, k);
        }
      case Some(c) =>
        var k :| 0 <= k < |kids| && kids[k] == c;
        forall j | 0 <= j < |kids| && kids[j].name == p[0] ensures kids[j] == c {
          ChildIsFound(kids, j);
        }
        FullPaths(c, p[1..]);
    }
  }

  lemma {:induction false} PlainIsValid(at: Place, path: Path)
    requires Plain(at, path)
    ensures Reach(at, path).Some?
    decreases |path|
  {
    if path != [] {
      PlainIsValid(SchemaChild(at, path[0]).value, path[1..]);
    }
  }

  /** A path is what some path expands to exactly when it names no key and the check accepts
      it; so every expansion is accepted. */
  lemma ExpansionsAreFullPaths(root: Schema, out: Path, prefix: string, pos: int)
    requires root.Container? && WellFormed(root) && pos <= 0
    ensures (exists path :: ExpandPath(root, path, prefix, pos) == Expanded(out)) <==> Plain(At(root), out)
    ensures Plain(At(root), out) ==> Reach(At(root), out).Some?
  {
    FullPaths(root, out);
    ExpansionIsExact(root, out, prefix, pos, out);
    if path :| ExpandPath(root, path, prefix, pos) == Expanded(out) {
      ExpansionIsStable(root, path, path, prefix, pos, out);
    }
    if Plain(At(root), out) {
      PlainIsValid(At(root), out);
    }
  }
}
