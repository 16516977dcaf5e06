/** The edit-config request as an object: the traversal that appends to its list of
    operations, over path slices that share backing arrays, and the run that changes the
    candidate. */
module EditConfig {
  import opened Config
  import opened EditOps
  import opened Choices
  import opened EditTree
  import Rollback

  /** A slice header: a backing array and how much of it is in use. */
  datatype Slice = Slice(buf: array<string>, len: nat) {
    ghost predicate Valid() {
      len <= buf.Length
    }

    ghost function Contents(): Path
      requires Valid()
      reads buf
    {
      buf[..len]
    }
  }

  /** append: in place while there is room, which is visible through every slice of the same
      array but only beyond their lengths; otherwise into a larger copy. */
  method Append(s: Slice, x: string) returns (r: Slice)
    requires s.Valid()
    modifies s.buf
    ensures r.Valid() && r.len == s.len + 1 && (r.buf == s.buf || fresh(r.buf))
    ensures r.Contents() == old(s.Contents()) + [x]
    ensures s.Contents() == old(s.Contents())
  {
    if s.len < s.buf.Length {
      s.buf[s.len] := x;
      r := Slice(s.buf, s.len + 1);
    } else {
      var buf := new string[2 * s.len + 1](_ => "");
      for i := 0 to s.len
        invariant buf[..i] == s.buf[..i]
        modifies buf
      {
        buf[i] := s.buf[i];
      }
      buf[s.len] := x;
      r := Slice(buf, s.len + 1);
    }
  }

  /** append(kids[:i], kids[i+1:]...): the later elements move down in place, each once, and
      the slice that results is one shorter than the array. */
  method RemoveAt(kids: array<EditNode>, i: nat) returns (len: nat)
    requires i < kids.Length
    modifies kids
    ensures len == kids.Length - 1
    ensures kids[..len] == old(kids[..i] + kids[i + 1..])
  {
    len := kids.Length - 1;
    for j := i to len
      invariant kids[..j] == old(kids[..i] + kids[i + 1..j + 1])
      invariant kids[j + 1..] == old(kids[j + 1..])
    {
      assert kids[j + 1] == kids[j + 1..][0];
      kids[j] := kids[j + 1];
    }
  }

  /** What a traversal leaves: the operations it appended, or the error it panicked with. */
  ghost predicate Appended(flat: Flat, before: seq<EditOp>, after: seq<EditOp>, panic: Option<EditError>) {
    match flat
    case Flat(ops) => panic.None? && after == before + ops
    case Panic(e) => panic == Some(e)
  }

  /** What is still to be appended after now for the whole to follow before. */
  ghost predicate Remains(all: Flat, before: seq<EditOp>, now: seq<EditOp>, rest: Flat) {
    match rest
    case Flat(ops) => all.Flat? && before + all.ops == now + ops
    case Panic(e) => all == Panic(e)
  }

  /** After one child either the rest remains, or all has panicked. */
  lemma OneChild(sch: Schema, kids: seq<EditNode>, op: Operation, cur: Path, all: Flat, before: seq<EditOp>,
                 now: seq<EditOp>, next: seq<EditOp>, panic: Option<EditError>)
    requires kids != [] && Remains(all, before, now, FlattenAll(sch, kids, op, cur))
    requires Appended(Flatten(sch, kids[0], op, cur), now, next, panic)
    ensures panic.None? ==> Remains(all, before, next, FlattenAll(sch, kids[1..], op, cur))
    ensures panic.Some? ==> all == Panic(panic.value)
  {
    match FlattenAll(sch, kids[1..], op, cur)
    case Panic(_) =>
    case Flat(rest) =>
      if Flatten(sch, kids[0], op, cur).Flat? {
        var head := Flatten(sch, kids[0], op, cur).ops;
        assert now + (head + rest) == (now + head) + rest;
      }
  }

  /** A list entry with its key as the first child. */
  function FlattenEntry(sch: Schema, en: EditNode, op: Operation, path: Path): Flat
    requires en.children != []
  {
    var entry := path + [en.children[0].value];
    if sch.kind(entry).Unknown? then Panic(UnknownElement(path))
    else if sch.space(entry) != en.space then Panic(UnknownNamespace(path))
    else WithSelf(EditOp(op, entry), FlattenAll(sch, en.children[1..], op, entry))
  }

  /** A list whose key is child i, or that has no key child if there is no child i. */
  function FlattenAtKey(sch: Schema, en: EditNode, op: Operation, path: Path, i: nat): Flat {
    if 0 < i < |en.children| then Flat([])
    else if i < |en.children| then FlattenEntry(sch, en, op, path)
    else if Removes(op) then WithSelf(EditOp(op, path), FlattenAll(sch, en.children, op, path))
    else Flat([])
  }

  /** What a list that passes its checks flattens to. */
  lemma FlattenList(sch: Schema, en: EditNode, parent: Operation, above: Path, i: nat)
    requires sch.kind(above + [en.name]).ListNode? && i <= |en.children|
    requires var key := sch.kind(above + [en.name]).key;
             && (forall c :: c in en.children[..i] ==> c.name != key)
             && (i < |en.children| ==> en.children[i].name == key)
    requires sch.space(above + [en.name]) == en.space
    requires CheckNodes(sch.choices(above + [en.name]), en.children, Own(en, parent)).Accepted?
    ensures Flatten(sch, en, parent, above) == FlattenAtKey(sch, en, Own(en, parent), above + [en.name], i)
  {
    if i < |en.children| {
      assert en.children[i] in en.children;
      if i > 0 { assert en.children[0] in en.children[..i]; }
    } else {
      assert en.children[..i] == en.children;
    }
  }

  class Request {
    const env: Env
    const sch: Schema
    const default: Operation
    const children: seq<EditNode>
    var ops: seq<EditOp>
    var candidate: Overlay

    constructor (env: Env, sch: Schema, default: Operation, children: seq<EditNode>, candidate: Overlay)
      ensures this.env == env && this.sch == sch && this.default == default && this.children == children
      ensures this.candidate == candidate && ops == []
    {
      this.env, this.sch, this.default, this.children := env, sch, default, children;
      this.candidate, this.ops := candidate, [];
    }

    /** Records an operation with its own copy of the path. */
    method Add(op: Operation, path: Slice)
      requires path.Valid()
      modifies `ops
      ensures ops == old(ops) + [EditOp(op, path.Contents())]
    {
      ops := ops + [EditOp(op, path.buf[..path.len])];
    }

    method TraverseChildren(kids: seq<EditNode>, op: Operation, cur: Slice) returns (panic: Option<EditError>)
      requires cur.Valid()
      modifies `ops, cur.buf
      ensures cur.Contents() == old(cur.Contents())
      ensures Appended(FlattenAll(sch, kids, op, cur.Contents()), old(ops), ops, panic)
      decreases kids, 0
    {
      ghost var path := cur.Contents();
      ghost var all := FlattenAll(sch, kids, op, path);
      assert kids[0..] == kids;
      for i := 0 to |kids|
        invariant cur.Contents() == path
        invariant Remains(all, old(ops), ops, FlattenAll(sch, kids[i..], op, path))
      {
        ghost var now := ops;
        assert kids[i..][1..] == kids[i + 1..];
        panic := Traverse(kids[i], op, cur);
        OneChild(sch, kids[i..], op, path, all, old(ops), now, ops, panic);
        if panic.Some? {
          return;
        }
      }
      assert kids[|kids|..] == [];
      panic := None;
    }

    method TraversePostOrder(kids: seq<EditNode>, op: Operation, cur: Slice) returns (panic: Option<EditError>)
      requires cur.Valid() && Removes(op)
      modifies `ops, cur.buf
      ensures cur.Contents() == old(cur.Contents())
      ensures Appended(WithSelf(EditOp(op, cur.Contents()), FlattenAll(sch, kids, op, cur.Contents())),
                       old(ops), ops, panic)
      decreases kids, 1
    {
      panic := TraverseChildren(kids, op, cur);
      if panic.None? {
        Add(op, cur);
      }
    }

    method TraversePreOrder(kids: seq<EditNode>, op: Operation, cur: Slice) returns (panic: Option<EditError>)
      requires cur.Valid() && !Removes(op)
      modifies `ops, cur.buf
      ensures cur.Contents() == old(cur.Contents())
      ensures Appended(WithSelf(EditOp(op, cur.Contents()), FlattenAll(sch, kids, op, cur.Contents())),
                       old(ops), ops, panic)
      decreases kids, 1
    {
      Add(op, cur);
      panic := TraverseChildren(kids, op, cur);
    }

    method TraverseSubtree(kids: seq<EditNode>, op: Operation, cur: Slice) returns (panic: Option<EditError>)
      requires cur.Valid()
      modifies `ops, cur.buf
      ensures cur.Contents() == old(cur.Contents())
      ensures Appended(WithSelf(EditOp(op, cur.Contents()), FlattenAll(sch, kids, op, cur.Contents())),
                       old(ops), ops, panic)
      decreases kids, 2
    {
      if op == Delete || op == Remove {
        panic := TraversePostOrder(kids, op, cur);
      } else {
        panic := TraversePreOrder(kids, op, cur);
      }
    }

    /** The growing exclusion set over the children of one node. */
    method ValidateChoices(items: seq<Item>, kids: seq<EditNode>, op: Operation) returns (verdict: Verdict)
      ensures verdict == CheckNodes(items, kids, op)
    {
      var exclude: set<string> := {};
      ghost var seen := Kids(kids, op);
      for i := 0 to |kids|
        invariant CheckChildren(items, seen, {}) == CheckChildren(items, seen[i..], exclude)
      {
        assert seen[i..][0] == seen[i] && seen[i..][1..] == seen[i + 1..];
        var own := Own(kids[i], op);
        if own != Delete && own != Remove {
          if kids[i].name in exclude {
            return Conflict(kids[i].name);
          }
          exclude := ChoiceNodesToRemove(items, kids[i].name, exclude);
        }
      }
      verdict := Accepted;
    }

    method TraverseContainer(en: EditNode, op: Operation, cur: Slice, ghost parent: Operation, ghost above: Path)
      returns (panic: Option<EditError>)
      requires cur.Valid() && cur.Contents() == above + [en.name] && op == Own(en, parent)
      requires sch.kind(cur.Contents()).Container?
      modifies `ops, cur.buf
      ensures cur.Contents() == old(cur.Contents())
      ensures Appended(Flatten(sch, en, parent, above), old(ops), ops, panic)
      decreases en, 0
    {
      var path := cur.buf[..cur.len];
      if sch.space(path) != en.space {
        return Some(UnknownNamespace(path));
      }
      var verdict := ValidateChoices(sch.choices(path), en.children, op);
      if verdict.Conflict? {
        return Some(BadElement(path, verdict.name));
      }
      if !sch.kind(path).presence && |en.children| > 0 && op != Delete && op != Remove {
        panic := TraverseChildren(en.children, op, cur);
      } else {
        panic := TraverseSubtree(en.children, op, cur);
      }
    }

    /** A list entry: the path gains the key's value, and the key is removed from the children
        so that it is not processed again. */
    method TraverseEntry(en: EditNode, op: Operation, cur: Slice) returns (panic: Option<EditError>)
      requires cur.Valid() && en.children != []
      modifies `ops, cur.buf
      ensures cur.Contents() == old(cur.Contents())
      ensures Appended(FlattenEntry(sch, en, op, cur.Contents()), old(ops), ops, panic)
      decreases en.children, 0
    {
      var path := cur.buf[..cur.len];
      var entry := Append(cur, en.children[0].value);
      var entryPath := entry.buf[..entry.len];
      if sch.kind(entryPath).Unknown? {
        return Some(UnknownElement(path));
      }
      if sch.space(entryPath) != en.space {
        return Some(UnknownNamespace(path));
      }
      var kids := new EditNode[|en.children|](i requires 0 <= i < |en.children| => en.children[i]);
      assert kids[..] == en.children;
      var len := RemoveAt(kids, 0);
      assert kids[..len] == en.children[1..];
      panic := TraverseSubtree(kids[..len], op, entry);
      assert entry.Contents()[..cur.len] == path;
    }

    /** The first child that names the key; the number of children if there is none. */
    method FindKey(children: seq<EditNode>, key: string) returns (i: nat)
      ensures i <= |children| && forall c :: c in children[..i] ==> c.name != key
      ensures i < |children| ==> children[i].name == key
    {
      i := 0;
      while i < |children| && children[i].name != key
        invariant i <= |children| && forall c :: c in children[..i] ==> c.name != key
      {
        i := i + 1;
      }
    }

    method TraverseList(en: EditNode, op: Operation, cur: Slice, ghost parent: Operation, ghost above: Path)
      returns (panic: Option<EditError>)
      requires cur.Valid() && cur.Contents() == above + [en.name] && op == Own(en, parent)
      requires sch.kind(cur.Contents()).ListNode?
      modifies `ops, cur.buf
      ensures cur.Contents() == old(cur.Contents())
      ensures Appended(Flatten(sch, en, parent, above), old(ops), ops, panic)
      decreases en, 0
    {
      var path := cur.buf[..cur.len];
      if sch.space(path) != en.space {
        return Some(UnknownNamespace(path));
      }
      var verdict := ValidateChoices(sch.choices(path), en.children, op);
      if verdict.Conflict? {
        return Some(BadElement(path, verdict.name));
      }
      var i := FindKey(en.children, sch.kind(path).key);
      FlattenList(sch, en, parent, above, i);
      if i == |en.children| {
        if op == Delete || op == Remove {
          panic := TraverseSubtree(en.children, op, cur);
          return;
        }
        return None;
      }
      if i != 0 {
        return None;
      }
      panic := TraverseEntry(en, op, cur);
    }

    /** A leaf is recorded with its value, unless it is of type empty or has none. */
    method TraverseLeaf(en: EditNode, op: Operation, cur: Slice, ghost parent: Operation, ghost above: Path)
      returns (panic: Option<EditError>)
      requires cur.Valid() && cur.Contents() == above + [en.name] && op == Own(en, parent)
      requires sch.kind(cur.Contents()).LeafNode?
      modifies `ops, cur.buf
      ensures cur.Contents() == old(cur.Contents())
      ensures panic.None? <==> sch.space(cur.Contents()) == en.space
      ensures panic.None? ==>
                var withValue := !sch.kind(cur.Contents()).empty && en.value != "";
                ops == old(ops) + [EditOp(op, if withValue then above + [en.name, en.value] else above + [en.name])]
      ensures Appended(Flatten(sch, en, parent, above), old(ops), ops, panic)
      decreases en, 0
    {
      var path := cur.buf[..cur.len];
      if sch.space(path) != en.space {
        return Some(UnknownNamespace(path));
      }
      if !sch.kind(path).empty && en.value != "" {
        var value := Append(cur, en.value);
        assert value.Contents() == above + [en.name, en.value];
        Add(op, value);
        return None;
      }
      Add(op, cur);
      panic := None;
    }

    /** One node: its path slice may share the array of the caller's, yet the caller's path
        reads as before and every recorded path is the node's true one. */
    method Traverse(en: EditNode, parent: Operation, cur: Slice) returns (panic: Option<EditError>)
      requires cur.Valid()
      modifies `ops, cur.buf
      ensures cur.Contents() == old(cur.Contents())
      ensures Appended(Flatten(sch, en, parent, cur.Contents()), old(ops), ops, panic)
      decreases en, 1
    {
      ghost var above := cur.Contents();
      var path := Append(cur, en.name);
      var op := Own(en, parent);
      match sch.kind(path.buf[..path.len])
      case Unknown => panic := None;
      case ListNode(_) => panic := TraverseList(en, op, path, parent, above);
      case LeafNode(_) => panic := TraverseLeaf(en, op, path, parent, above);
      case Container(_) => panic := TraverseContainer(en, op, path, parent, above);
      assert path.Contents()[..cur.len] == above;
    }

    /** Prevalidation: every recorded operation against the candidate as it is. */
    method TestAll() returns (ok: bool)
      ensures ok <==> forall o :: o in ops ==> Test(env, candidate, o)
    {
      for i := 0 to |ops|
        invariant forall o :: o in ops[..i] ==> Test(env, candidate, o)
      {
        if !Test(env, candidate, ops[i]) {
          return false;
        }
      }
      ok := true;
    }

    method PerformOps() returns (reported: seq<EditOp>)
      modifies `candidate
      ensures Outcome(candidate, reported) == PerformAll(env, old(candidate), ops)
    {
      reported := [];
      for i := 0 to |ops|
        invariant !env.error.ContinueOnError? ==> reported == []
        invariant PerformAll(env, old(candidate), ops)
               == (var rest := PerformAll(env, candidate, ops[i..]);
                   Outcome(rest.candidate, reported + rest.reported))
      {
        assert ops[i..][0] == ops[i] && ops[i..][1..] == ops[i + 1..];
        var d := Perform(env, candidate, ops[i]);
        candidate := d.candidate;
        if !d.ok {
          match env.error
          case ErrorNotSet => return [ops[i]];
          case StopOnError => return [ops[i]];
          case ContinueOnError => reported := reported + [ops[i]];
          case RollbackOnError =>
        }
      }
    }

    /** The whole request. */
    method EditConfig() returns (reply: Rollback.Reply)
      requires ops == []
      modifies this
      ensures (candidate, reply) == Rollback.Edit(env, sch, children, default, old(candidate))
    {
      var verdict := ValidateChoices(sch.choices([]), children, default);
      if verdict.Conflict? {
        return Rollback.Refused;
      }
      var none := new string[0];
      assert Slice(none, 0).Contents() == [];
      var panic := TraverseChildren(children, default, Slice(none, 0));
      if panic.Some? {
        return Rollback.Refused;
      }
      assert Compile(sch, children, default) == Flat(ops);
      assert candidate == old(candidate);
      if env.error == RollbackOnError {
        var ok := TestAll();
        if !ok {
          return Rollback.Refused;
        }
      }
      var reported := PerformOps();
      reply := Rollback.Ran(reported);
    }
  }
}
