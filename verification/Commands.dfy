/** Headless block replacement: compare-and-swap on the first block, in document order, that carries
    the expected stable id. */
module Commands {
  import opened Documents
  import opened Whitespace

  /** `id` and `kind` are the string-valued fields; everything else of a node is in `attrs`. */
  datatype Node =
    | Text(attrs: nat)
    | Element(id: Option<string>, kind: Option<string>, attrs: nat, children: seq<Node>)

  /** A block as a command sends it; its children may be missing. */
  datatype Block = Block(id: Option<string>, kind: Option<string>, attrs: nat, children: Option<seq<Node>>)

  datatype Command = ReplaceBlock(expected: Block, replacement: Block)

  datatype CommandError = IdNotPreserved | KindNotPreserved | ChildrenRequired | NoLongerExists | ChangedConcurrently

  datatype Outcome = Unchanged | Replaced(value: seq<Node>) | Refused(error: CommandError)

  type Path = seq<nat>

  // ---------- Stable ids ----------

  function StableId(block: Block): string {
    if block.id.None? then "" else Trim(block.id.value)
  }

  function AssertReplacement(c: Command): Option<CommandError> {
    if StableId(c.expected) == "" || StableId(c.expected) != StableId(c.replacement) then Some(IdNotPreserved)
    else if c.expected.kind != c.replacement.kind || c.expected.kind.None? then Some(KindNotPreserved)
    else if c.replacement.children.None? then Some(ChildrenRequired)
    else None
  }

  predicate Same(node: Node, block: Block) {
    block.children.Some? && node == Element(block.id, block.kind, block.attrs, block.children.value)
  }

  // ---------- The tree ----------

  predicate Carries(node: Node, id: string) {
    node.Element? && node.id == Some(id)
  }

  function FirstIn(node: Node, id: string): Option<Path>
    decreases node
  {
    match node
    case Text(_) => None
    case Element(own, _, _, children) => if own == Some(id) then Some([]) else First(children, id)
  }

  /** The first match of a pre-order walk. */
  function First(nodes: seq<Node>, id: string): (p: Option<Path>)
    ensures p.Some? ==> p.value != []
    decreases nodes
  {
    if nodes == [] then None
    else
      match FirstIn(nodes[0], id)
      case Some(path) => Some([0] + path)
      case None =>
        match First(nodes[1..], id)
        case Some(path) => Some([path[0] + 1] + path[1..])
        case None => None
  }

  function At(nodes: seq<Node>, path: Path): Option<Node>
    decreases path
  {
    if path == [] || path[0] >= |nodes| then None
    else if |path| == 1 then Some(nodes[path[0]])
    else if nodes[path[0]].Text? then None
    else At(nodes[path[0]].children, path[1..])
  }

  /** Removes the node at `path` and inserts `x` there. */
  function ReplaceAt(nodes: seq<Node>, path: Path, x: Node): seq<Node>
    decreases path
  {
    if path == [] || path[0] >= |nodes| then nodes
    else
      var i := path[0];
      var child := if |path| == 1 then x
                   else if nodes[i].Text? then nodes[i]
                   else nodes[i].(children := ReplaceAt(nodes[i].children, path[1..], x));
      nodes[i := child]
  }

  /** Document order: ancestors first, then left to right. */
  ghost predicate Precedes(p: Path, q: Path)
    decreases p
  {
    q != [] && (p == [] || p[0] < q[0] || (p[0] == q[0] && Precedes(p[1..], q[1..])))
  }

  ghost predicate MatchesAt(nodes: seq<Node>, path: Path, id: string) {
    At(nodes, path).Some? && Carries(At(nodes, path).value, id)
  }

  lemma AtTail(nodes: seq<Node>, path: Path)
    requires nodes != [] && path != [] && path[0] > 0
    ensures At(nodes, path) == At(nodes[1..], [path[0] - 1] + path[1..])
  {
    var q := [path[0] - 1] + path[1..];
    assert q[1..] == path[1..];
  }

  /** The match found carries the id and precedes every other node that does; if none is found,
      there is none. */
  lemma {:induction false} FirstIsFirst(nodes: seq<Node>, id: string, q: Path)
    ensures First(nodes, id).Some? ==> MatchesAt(nodes, First(nodes, id).value, id)
    ensures MatchesAt(nodes, q, id) ==>
              && First(nodes, id).Some?
              && (q == First(nodes, id).value || Precedes(First(nodes, id).value, q))
    decreases nodes
  {
    if nodes != [] {
      FirstInHead(nodes, id, q);
      var tail := nodes[1..];
      var q' := if q != [] && q[0] > 0 then [q[0] - 1] + q[1..] else [];
      FirstIsFirst(tail, id, q');
      if First(nodes, id).Some? && FirstIn(nodes[0], id).None? {
        var p, rest := First(nodes, id).value, First(tail, id).value;
        assert [p[0] - 1] + p[1..] == rest;
        AtTail(nodes, p);
      }
      if q != [] && q[0] > 0 {
        AtTail(nodes, q);
        assert q'[1..] == q[1..];
        assert q == [q'[0] + 1] + q'[1..];
      }
    }
  }

  lemma {:induction false} FirstInHead(nodes: seq<Node>, id: string, q: Path)
    requires nodes != []
    ensures FirstIn(nodes[0], id).Some? ==> MatchesAt(nodes, [0] + FirstIn(nodes[0], id).value, id)
    ensures q != [] && q[0] == 0 && MatchesAt(nodes, q, id) ==>
              && FirstIn(nodes[0], id).Some?
              && (q == [0] + FirstIn(nodes[0], id).value || Precedes([0] + FirstIn(nodes[0], id).value, q))
    decreases nodes[0]
  {
    var node := nodes[0];
    if node.Element? {
      var rest := if q == [] then [] else q[1..];
      FirstIsFirst(node.children, id, rest);
      if FirstIn(node, id).Some? {
        var p := [0] + FirstIn(node, id).value;
        assert p[1..] == FirstIn(node, id).value;
        assert q != [] ==> q == [q[0]] + rest;
      }
    }
  }

  /** Replacing changes the subtree at the path and nothing else: ancestors keep their own fields and
      arity, and every node outside the subtree is untouched. */
  lemma {:induction false} ReplaceFrame(nodes: seq<Node>, path: Path, x: Node, q: Path)
    requires At(nodes, path).Some?
    ensures var after := ReplaceAt(nodes, path, x);
      && |after| == |nodes|
      && At(after, path) == Some(x)
      && (!(path <= q) && !(q <= path) ==> At(after, q) == At(nodes, q))
      && (q < path && q != [] ==>
            && At(nodes, q).Some? && At(nodes, q).value.Element?
            && At(after, q) == Some(At(nodes, q).value.(
                 children := ReplaceAt(At(nodes, q).value.children, path[|q|..], x))))
      && (path < q ==> At(after, q) == if x.Element? then At(x.children, q[|path|..]) else None)
    decreases path
  {
    var i := path[0];
    if |path| > 1 {
      var rest := if q == [] then [] else q[1..];
      ReplaceFrame(nodes[i].children, path[1..], x, rest);
      if q != [] && q[0] == i {
        assert path <= q <==> path[1..] <= rest;
        assert q <= path <==> rest <= path[1..];
        if q < path && rest != [] {
          assert path[1..][|rest|..] == path[|q|..];
        }
        if path < q {
          assert rest[|path[1..]|..] == q[|path|..];
        }
      }
    } else {
      assert path == [i];
      if path < q {
        assert q[0] == i;
      }
    }
  }

  /** With the same id put back, the replaced node is again the first match. */
  lemma {:induction false} FirstAfterReplace(nodes: seq<Node>, id: string, x: Node)
    requires First(nodes, id).Some? && Carries(x, id)
    ensures First(ReplaceAt(nodes, First(nodes, id).value, x), id) == First(nodes, id)
    decreases nodes
  {
    var path := First(nodes, id).value;
    var after := ReplaceAt(nodes, path, x);
    if FirstIn(nodes[0], id).Some? {
      var inner := FirstIn(nodes[0], id).value;
      assert path[1..] == inner;
      if inner != [] {
        FirstAfterReplace(nodes[0].children, id, x);
      }
      assert FirstIn(after[0], id) == Some(inner);
    } else {
      var tail := nodes[1..];
      var rest := First(tail, id).value;
      FirstAfterReplace(tail, id, x);
      FirstIsFirst(tail, id, []);
      assert path == [rest[0] + 1] + rest[1..];
      assert path[1..] == rest[1..];
      assert after[1..] == ReplaceAt(tail, rest, x);
      assert after[0] == nodes[0];
    }
  }

  // ---------- The command ----------

  function Apply(value: seq<Node>, c: Command): Outcome {
    if AssertReplacement(c).Some? then Refused(AssertReplacement(c).value)
    else
      match First(value, StableId(c.expected))
      case None => Refused(NoLongerExists)
      case Some(path) =>
        FirstIsFirst(value, StableId(c.expected), path);
        var current := At(value, path).value;
        if Same(current, c.replacement) then Unchanged
        else if !Same(current, c.expected) then Refused(ChangedConcurrently)
        else Replaced(ReplaceAt(value, path, AsNode(c.replacement)))
  }

  function AsNode(block: Block): Node {
    Element(block.id, block.kind, block.attrs, if block.children.Some? then block.children.value else [])
  }

  /** The command keeps id and type of the block it expects, and its replacement has children. */
  ghost predicate Preserving(c: Command) {
    && StableId(c.expected) != "" && StableId(c.replacement) == StableId(c.expected)
    && c.expected.kind.Some? && c.replacement.kind == c.expected.kind
    && c.replacement.children.Some?
  }

  /** When a command replaces, when it is a no-op, and which error it meets otherwise.  A replaced node
      keeps its type. */
  lemma OutcomeIff(value: seq<Node>, c: Command, q: Path)
    ensures var id, path, out := StableId(c.expected), First(value, StableId(c.expected)), Apply(value, c);
            var found := Preserving(c) && path.Some? && At(value, path.value).Some?;
      && (out.Replaced? <==> found && Same(At(value, path.value).value, c.expected) && c.replacement != c.expected)
      && (out.Unchanged? <==> found && Same(At(value, path.value).value, c.replacement))
      && (out == Refused(ChangedConcurrently) <==>
            && found && !Same(At(value, path.value).value, c.expected)
            && !Same(At(value, path.value).value, c.replacement))
      && (out == Refused(NoLongerExists) <==> Preserving(c) && path.None?)
      && (out == Refused(NoLongerExists) ==> !MatchesAt(value, q, id))
      && (out == Refused(IdNotPreserved) <==> id == "" || StableId(c.replacement) != id)
      && (out == Refused(KindNotPreserved) <==>
            && id != "" && StableId(c.replacement) == id
            && (c.expected.kind.None? || c.replacement.kind != c.expected.kind))
      && (out == Refused(ChildrenRequired) <==>
            && id != "" && StableId(c.replacement) == id
            && c.expected.kind.Some? && c.replacement.kind == c.expected.kind && c.replacement.children.None?)
      && (out.Replaced? ==>
            && At(out.value, path.value).Some? && At(out.value, path.value).value.Element?
            && At(value, path.value).value.Element?
            && At(out.value, path.value).value.kind == At(value, path.value).value.kind)
  {
    FirstIsFirst(value, StableId(c.expected), q);
    if Apply(value, c).Replaced? {
      ReplaceFrame(value, First(value, StableId(c.expected)).value, AsNode(c.replacement), q);
    }
  }

  class Editor {
    var children: seq<Node>

    constructor (children: seq<Node>)
      ensures this.children == children
    {
      this.children := children;
    }

    method ApplyCollaborationCommand(c: Command) returns (error: Option<CommandError>)
      modifies this
      ensures match Apply(old(children), c)
        case Unchanged => error == None && children == old(children)
        case Replaced(value) => error == None && children == value
        case Refused(e) => error == Some(e) && children == old(children)
    {
      error := AssertReplacement(c);
      if error.Some? {
        return;
      }
      var expectedId := StableId(c.expected);
      var entry := First(children, expectedId);
      if entry.None? {
        return Some(NoLongerExists);
      }
      FirstIsFirst(children, expectedId, []);
      var current := At(children, entry.value).value;
      if Same(current, c.replacement) {
        return None;
      }
      if !Same(current, c.expected) {
        return Some(ChangedConcurrently);
      }
      children := ReplaceAt(children, entry.value, AsNode(c.replacement));
    }
  }

  /** A command replaces exactly when the first node in document order with the expected id is the
      expected block and is not already the replacement; then only that subtree changes. */
  lemma SwapTouchesOneSubtree(value: seq<Node>, c: Command, q: Path)
    requires Apply(value, c).Replaced?
    ensures var path := First(value, StableId(c.expected));
            var after := Apply(value, c).value;
      && path.Some? && At(value, path.value).Some?
      && Same(At(value, path.value).value, c.expected)
      && At(after, path.value).Some? && Same(At(after, path.value).value, c.replacement)
      && (!(path.value <= q) && !(q <= path.value) ==> At(after, q) == At(value, q))
      && (MatchesAt(value, q, StableId(c.expected)) ==> q == path.value || Precedes(path.value, q))
  {
    var path := First(value, StableId(c.expected)).value;
    FirstIsFirst(value, StableId(c.expected), q);
    ReplaceFrame(value, path, AsNode(c.replacement), q);
  }

  lemma SwapLeavesReplacement(value: seq<Node>, c: Command)
    requires Apply(value, c).Replaced? && c.replacement.id == Some(StableId(c.expected))
    ensures var after := Apply(value, c).value;
            var path := First(after, StableId(c.expected));
      path.Some? && At(after, path.value) == Some(AsNode(c.replacement))
  {
    var id := StableId(c.expected);
    FirstAfterReplace(value, id, AsNode(c.replacement));
    FirstIsFirst(value, id, []);
    ReplaceFrame(value, First(value, id).value, AsNode(c.replacement), []);
  }

  /** Retrying a command that replaced is a no-op exactly when the replacement's id has no
      surrounding spaces; otherwise the retry no longer finds what it wrote. */
  lemma RetryIsNoOpIff(value: seq<Node>, c: Command)
    requires Apply(value, c).Replaced?
    ensures Apply(Apply(value, c).value, c) == Unchanged <==> c.replacement.id == Some(StableId(c.replacement))
  {
    var after := Apply(value, c).value;
    var id := StableId(c.expected);
    if c.replacement.id == Some(id) {
      SwapLeavesReplacement(value, c);
    } else {
      FirstIsFirst(after, id, []);
    }
  }

  // ---------- Competing commands ----------

  function ApplyAll(value: seq<Node>, commands: seq<Command>): seq<Node>
    decreases |commands|
  {
    if commands == [] then value
    else ApplyAll(if Apply(value, commands[0]).Replaced? then Apply(value, commands[0]).value else value, commands[1..])
  }

  /** After a command has replaced, the first node that carries its id is once more the block it
      expected. */
  ghost predicate LeavesAnother(value: seq<Node>, c: Command)
    requires Apply(value, c).Replaced?
  {
    var after := Apply(value, c).value;
    var path := First(after, StableId(c.expected));
    path.Some? && At(after, path.value).Some? && Same(At(after, path.value).value, c.expected)
  }

  /** A command that could replace the block `first` expects by something else. */
  predicate Competes(c: Command, first: Command) {
    c.expected == first.expected && AssertReplacement(c).None? && c.replacement != c.expected
  }

  /** Of several commands with one expected block, exactly the first applied wins if and only if it
      leaves no other copy of that block as the first with the id, or none of the others competes.
      A replacement whose id has no surrounding spaces never leaves one; the document then stays as
      the first left it and every command with a different replacement is refused. */
  lemma FirstAppliedWins(value: seq<Node>, first: Command, others: seq<Command>)
    requires Apply(value, first).Replaced? && forall c :: c in others ==> c.expected == first.expected
    ensures var after := Apply(value, first).value;
      && ((forall c :: c in others ==> !Apply(after, c).Replaced?)
          <==> !LeavesAnother(value, first) || forall c :: c in others ==> !Competes(c, first))
      && ((forall c :: c in others ==> !Apply(after, c).Replaced?) ==>
            ApplyAll(value, [first] + others) == after)
      && (first.replacement.id == Some(StableId(first.replacement)) ==>
            && !LeavesAnother(value, first)
            && forall c :: c in others && c.replacement != first.replacement ==>
                 && Apply(after, c).Refused?
                 && (AssertReplacement(c).None? ==> Apply(after, c) == Refused(ChangedConcurrently)))
  {
    var after := Apply(value, first).value;
    FirstIsFirst(after, StableId(first.expected), []);
    if first.replacement.id == Some(StableId(first.replacement)) {
      SwapLeavesReplacement(value, first);
    }
    forall c | c in others
      ensures Apply(after, c).Replaced? <==> LeavesAnother(value, first) && Competes(c, first)
    {
    }
    if forall c :: c in others ==> !Apply(after, c).Replaced? {
      NoneReplaces(after, others);
      assert ([first] + others)[1..] == others;
    }
  }

  lemma FirstIsHead(nodes: seq<Node>, id: string)
    requires nodes != [] && Carries(nodes[0], id)
    ensures First(nodes, id) == Some([0])
  {
    assert [0] + [] == [0];
  }

  lemma FirstSkipsHead(nodes: seq<Node>, id: string)
    requires nodes != [] && nodes[0].Element? && nodes[0].children == [] && !Carries(nodes[0], id)
    ensures First(nodes[1..], id) == Some([0]) ==> First(nodes, id) == Some([1])
  {
    var path: Path := [0];
    assert First([], id) == None && FirstIn(nodes[0], id) == None;
    assert [path[0] + 1] + path[1..] == [1];
  }

  lemma SpacesAreTrimmed()
    ensures Trim("a") == "a" && Trim("a ") == "a"
  {
    var spaced := "a ";
    assert spaced[..1] == [spaced[0]] == "a";
    assert TrimStart(spaced) == spaced && TrimEnd(spaced) == TrimEnd(spaced[..1]);
  }

  /** With a space in the replacement's id and a second copy of the block, two commands win. */
  lemma SpacedIdLetsTwoWin()
    ensures var block := Block(Some("a"), Some("p"), 0, Some([]));
            var value := [AsNode(block), AsNode(block)];
            var first := ReplaceBlock(block, block.(id := Some("a ")));
            var second := ReplaceBlock(block, block.(attrs := 1));
      && Apply(value, first).Replaced? && LeavesAnother(value, first) && Competes(second, first)
      && Apply(Apply(value, first).value, second).Replaced?
  {
    var block := Block(Some("a"), Some("p"), 0, Some([]));
    var value := [AsNode(block), AsNode(block)];
    var first := ReplaceBlock(block, block.(id := Some("a ")));
    var second := ReplaceBlock(block, block.(attrs := 1));
    var after := [AsNode(first.replacement), AsNode(block)];
    SpacesAreTrimmed();
    FirstIsHead(value, "a");
    assert ReplaceAt(value, [0], AsNode(first.replacement)) == after;
    assert Apply(value, first) == Replaced(after);
    FirstSkipsHead(after, "a");
    assert after[1..] == [AsNode(block)];
    FirstIsHead(after[1..], "a");
    FirstAppliedWins(value, first, [second]);
    assert second in [second];
  }

  lemma {:induction false} NoneReplaces(value: seq<Node>, commands: seq<Command>)
    requires forall c :: c in commands ==> !Apply(value, c).Replaced?
    ensures ApplyAll(value, commands) == value
    decreases |commands|
  {
    if commands != [] {
      assert commands[0] in commands;
      NoneReplaces(value, commands[1..]);
    }
  }
}
