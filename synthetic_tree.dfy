/**
 * The synthetic game of fuzz/fuzz_targets/to_completion.rs: a tree of nodes,
 * each with the player to move and a fitness, built from fuzzer input bytes,
 * and the `Game` implementation the search plays on it.
 *
 * A `Node` owns its children, so the tree is a value. `from_bytes` reaches the
 * node it grows through a chain of mutable borrows (`pos`); here that chain is
 * the path of child indices it followed, and pushing onto the last node's
 * children rebuilds the tree along that path (`AppendAt`).
 */
module SyntheticTree {
  import opened XorShift

  /** Rust's `i8`. */
  newtype i8 = x: int | -128 <= x < 128

  /** A game position: whose turn it is, its fitness for the tested player, and its successors. */
  datatype Node = Node(player: bool, fitness: i8, children: seq<Node>)

  /** `Node::new`: a position without successors. */
  function NewNode(player: bool, fitness: i8): (n: Node)
    ensures n.player == player && n.fitness == fitness && n.children == []
  {
    Node(player, fitness, [])
  }

  /** `b as i8`: the same eight bits read in two's complement. */
  function AsI8(b: bv8): (r: i8)
    ensures r as int % 256 == b as int
    ensures r < 0 <==> b >= 0x80
  {
    if b < 0x80 then b as int as i8 else (b as int - 256) as i8
  }

  /**
   * The node `from_bytes` adds for input byte `b`: the first player moves at
   * it when `b` is even, and its fitness is `b` with the lowest bit flipped,
   * read as an `i8`.
   */
  function Leaf(b: bv8): (n: Node)
    ensures n.player <==> b as int % 2 == 0
    ensures n.fitness as int % 256 == (if b as int % 2 == 0 then b as int + 1 else b as int - 1)
    ensures n.children == []
  {
    LowBitValue(b);
    NewNode(b & 1 == 0, AsI8(b ^ 1))
  }

  /** On a byte, `& 1` tests evenness and `^ 1` moves to the other number of the pair `2k, 2k + 1`. */
  lemma LowBitValue(b: bv8)
    ensures (b & 1 == 0) == (b as int % 2 == 0)
    ensures (b ^ 1) as int == if b as int % 2 == 0 then b as int + 1 else b as int - 1
  {
  }

  /** `u32::from_be_bytes`. */
  function FromBeBytes(b: seq<bv8>): bv32
    requires |b| == 4
  {
    (b[0] as bv32 << 24) | (b[1] as bv32 << 16) | (b[2] as bv32 << 8) | b[3] as bv32
  }

  /**
   * The word is read most significant byte first: byte `k` of the input is
   * bits `31 - 8k` down to `24 - 8k` of the word.
   */
  lemma FromBeBytesOrder(b: seq<bv8>)
    requires |b| == 4
    ensures FromBeBytes(b) >> 24 == b[0] as bv32
    ensures (FromBeBytes(b) >> 16) & 0xFF == b[1] as bv32
    ensures (FromBeBytes(b) >> 8) & 0xFF == b[2] as bv32
    ensures FromBeBytes(b) & 0xFF == b[3] as bv32
  {
  }

  // ---------------------------------------------------------------------------
  // Counting and comparing trees
  // ---------------------------------------------------------------------------

  /** The (player, fitness) labels of all nodes of `t`, counted with multiplicity. */
  function Labels(t: Node): multiset<(bool, i8)>
    decreases t
  {
    multiset{(t.player, t.fitness)} + LabelsOf(t.children)
  }

  function LabelsOf(ts: seq<Node>): multiset<(bool, i8)>
    decreases ts
  {
    if ts == [] then multiset{} else LabelsOf(ts[..|ts| - 1]) + Labels(ts[|ts| - 1])
  }

  /** The number of nodes of `t`. */
  function Size(t: Node): nat {
    |Labels(t)|
  }

  /**
   * `r` is `t` with nodes added: every node of `t` keeps its player and
   * fitness, and the children it had stay first, in their order.
   */
  ghost predicate Extends(t: Node, r: Node)
    decreases t
  {
    && r.player == t.player
    && r.fitness == t.fitness
    && |t.children| <= |r.children|
    && forall i :: 0 <= i < |t.children| ==> Extends(t.children[i], r.children[i])
  }

  lemma {:induction false} ExtendsReflexive(t: Node)
    decreases t
    ensures Extends(t, t)
  {
    forall i | 0 <= i < |t.children| ensures Extends(t.children[i], t.children[i]) {
      ExtendsReflexive(t.children[i]);
    }
  }

  lemma {:induction false} ExtendsTransitive(a: Node, b: Node, c: Node)
    requires Extends(a, b) && Extends(b, c)
    decreases a
    ensures Extends(a, c)
  {
    forall i | 0 <= i < |a.children| ensures Extends(a.children[i], c.children[i]) {
      ExtendsTransitive(a.children[i], b.children[i], c.children[i]);
    }
  }

  // ---------------------------------------------------------------------------
  // Paths and appending a node
  // ---------------------------------------------------------------------------

  /** `path` leads from `t` down to one of its nodes, one child index per level. */
  predicate ValidPath(t: Node, path: seq<nat>)
    decreases |path|
  {
    path == [] || (path[0] < |t.children| && ValidPath(t.children[path[0]], path[1..]))
  }

  /** The node `path` leads to. */
  function Subtree(t: Node, path: seq<nat>): Node
    requires ValidPath(t, path)
    decreases |path|
  {
    if path == [] then t else Subtree(t.children[path[0]], path[1..])
  }

  /**
   * `t` with `leaf` pushed onto the children of the node `path` leads to: that
   * node now ends with `leaf`, and its label and earlier children are kept.
   */
  function AppendAt(t: Node, path: seq<nat>, leaf: Node): (r: Node)
    requires ValidPath(t, path)
    ensures r.player == t.player && r.fitness == t.fitness
    ensures ValidPath(r, path)
    ensures Subtree(r, path) == Subtree(t, path).(children := Subtree(t, path).children + [leaf])
    decreases |path|
  {
    if path == [] then t.(children := t.children + [leaf])
    else t.(children := t.children[path[0] := AppendAt(t.children[path[0]], path[1..], leaf)])
  }

  lemma {:induction false} LabelsOfAppend(ts: seq<Node>, x: Node)
    ensures LabelsOf(ts + [x]) == LabelsOf(ts) + Labels(x)
  {
    assert (ts + [x])[..|ts|] == ts;
  }

  lemma UnionSwap<T>(a: multiset<T>, b: multiset<T>, c: multiset<T>)
    ensures a + b + c == a + c + b
  {
  }

  /** Replacing one element by a tree with the labels `m` more adds `m`. */
  lemma {:induction false} LabelsOfUpdate(ts: seq<Node>, i: nat, x: Node, m: multiset<(bool, i8)>)
    requires i < |ts| && Labels(x) == Labels(ts[i]) + m
    decreases |ts|
    ensures LabelsOf(ts[i := x]) == LabelsOf(ts) + m
  {
    var n := |ts| - 1;
    if i < n {
      LabelsOfUpdate(ts[..n], i, x, m);
      LabelsOfUpdateFront(ts, i, x, m);
    } else {
      LabelsOfUpdateLast(ts, x, m);
    }
  }

  lemma LabelsOfUpdateFront(ts: seq<Node>, i: nat, x: Node, m: multiset<(bool, i8)>)
    requires i < |ts| - 1
    requires LabelsOf(ts[..|ts| - 1][i := x]) == LabelsOf(ts[..|ts| - 1]) + m
    ensures LabelsOf(ts[i := x]) == LabelsOf(ts) + m
  {
    var n := |ts| - 1;
    var us := ts[i := x];
    assert us[..n] == ts[..n][i := x];
    assert LabelsOf(us) == LabelsOf(ts[..n]) + m + Labels(ts[n]);
    UnionSwap(LabelsOf(ts[..n]), m, Labels(ts[n]));
  }

  lemma LabelsOfUpdateLast(ts: seq<Node>, x: Node, m: multiset<(bool, i8)>)
    requires ts != [] && Labels(x) == Labels(ts[|ts| - 1]) + m
    ensures LabelsOf(ts[|ts| - 1 := x]) == LabelsOf(ts) + m
  {
    var n := |ts| - 1;
    assert ts[n := x][..n] == ts[..n];
  }

  /** Appending a leaf adds exactly its label to the tree: one node more. */
  lemma {:induction false} AppendAtLabels(t: Node, path: seq<nat>, leaf: Node)
    requires ValidPath(t, path)
    decreases |path|
    ensures Labels(AppendAt(t, path, leaf)) == Labels(t) + Labels(leaf)
  {
    if path == [] {
      LabelsOfAppend(t.children, leaf);
    } else {
      var i := path[0];
      var child := AppendAt(t.children[i], path[1..], leaf);
      AppendAtLabels(t.children[i], path[1..], leaf);
      LabelsOfUpdate(t.children, i, child, Labels(leaf));
    }
  }

  /** Appending a leaf keeps every node that was there, with its label and its children in order. */
  lemma {:induction false} AppendAtExtends(t: Node, path: seq<nat>, leaf: Node)
    requires ValidPath(t, path)
    decreases |path|
    ensures Extends(t, AppendAt(t, path, leaf))
  {
    var r := AppendAt(t, path, leaf);
    forall j | 0 <= j < |t.children| ensures Extends(t.children[j], r.children[j]) {
      if path != [] && j == path[0] {
        AppendAtExtends(t.children[j], path[1..], leaf);
      } else {
        ExtendsReflexive(t.children[j]);
      }
    }
  }

  // ---------------------------------------------------------------------------
  // Building a tree from bytes
  // ---------------------------------------------------------------------------

  /** `draw as usize % (count + 1)`: a child index, or `count` for "stop here". */
  function DrawIndex(draw: bv32, count: nat): (next: nat)
    ensures next <= count
  {
    draw as int % (count + 1)
  }

  /** The index the walk picks at `t` once the generator is in state `s`: the last word drawn. */
  function Choice(t: Node, s: RngState): (next: nat)
    ensures next <= |t.children|
  {
    DrawIndex(s.w, |t.children|)
  }

  /**
   * The walk from `t` that `from_bytes` makes for one byte, starting in
   * generator state `s`: draw, stop if the draw names no child, otherwise go to
   * the child it names and draw again. Gives the path taken and the final
   * generator state; the walk ends at a node where the last draw said "stop".
   */
  function Descent(t: Node, s: RngState): (r: (seq<nat>, RngState))
    ensures ValidPath(t, r.0)
    ensures Choice(Subtree(t, r.0), r.1) == |Subtree(t, r.0).children|
    decreases t
  {
    var s' := Next(s);
    var next := Choice(t, s');
    if next == |t.children| then ([], s')
    else
      var (p, s'') := Descent(t.children[next], s');
      assert ([next] + p)[1..] == p;
      ([next] + p, s'')
  }

  /** The tree after adding one leaf per byte of `bytes` to `t`, the generator starting in `s`. */
  function Grow(t: Node, s: RngState, bytes: seq<bv8>): Node
    decreases |bytes|
  {
    if bytes == [] then t
    else
      var (p, s') := Descent(t, s);
      Grow(AppendAt(t, p, Leaf(bytes[0])), s', bytes[1..])
  }

  /** The tree `Node::from_bytes(bytes)` builds. */
  function Tree(bytes: seq<bv8>): Node
    requires |bytes| >= 4
  {
    Grow(NewNode(true, 0), SeedState(FromBeBytes(bytes[..4])), bytes[4..])
  }

  /** The labels of the leaves added for `bytes`. */
  function LeafLabels(bytes: seq<bv8>): (m: multiset<(bool, i8)>)
    ensures |m| == |bytes|
  {
    if bytes == [] then multiset{} else multiset{(Leaf(bytes[0]).player, Leaf(bytes[0]).fitness)} + LeafLabels(bytes[1..])
  }

  /** Growing adds exactly one node per byte, labelled from that byte. */
  lemma {:induction false} GrowLabels(t: Node, s: RngState, bytes: seq<bv8>)
    decreases |bytes|
    ensures Labels(Grow(t, s, bytes)) == Labels(t) + LeafLabels(bytes)
  {
    if bytes != [] {
      var (p, s') := Descent(t, s);
      AppendAtLabels(t, p, Leaf(bytes[0]));
      GrowLabels(AppendAt(t, p, Leaf(bytes[0])), s', bytes[1..]);
    }
  }

  /** Growing only ever adds nodes: what was there keeps its labels and its order. */
  lemma {:induction false} GrowExtends(t: Node, s: RngState, bytes: seq<bv8>)
    decreases |bytes|
    ensures Extends(t, Grow(t, s, bytes))
  {
    if bytes == [] {
      ExtendsReflexive(t);
    } else {
      var (p, s') := Descent(t, s);
      var t' := AppendAt(t, p, Leaf(bytes[0]));
      AppendAtExtends(t, p, Leaf(bytes[0]));
      GrowExtends(t', s', bytes[1..]);
      ExtendsTransitive(t, t', Grow(t', s', bytes[1..]));
    }
  }

  /**
   * The tree built from `bytes` has the root `Node::new(true, 0)` and one more
   * node per byte after the four seed bytes, labelled from that byte.
   */
  lemma TreeShape(bytes: seq<bv8>)
    requires |bytes| >= 4
    ensures Tree(bytes).player && Tree(bytes).fitness == 0
    ensures Labels(Tree(bytes)) == multiset{(true, 0 as i8)} + LeafLabels(bytes[4..])
    ensures Size(Tree(bytes)) == 1 + (|bytes| - 4)
  {
    var root := NewNode(true, 0);
    var s := SeedState(FromBeBytes(bytes[..4]));
    GrowLabels(root, s, bytes[4..]);
    GrowExtends(root, s, bytes[4..]);
    assert Labels(root) == multiset{(true, 0 as i8)};
  }

  /** `Descent` when the first draw says "stop here". */
  lemma DescentStops(t: Node, s: RngState)
    requires Choice(t, Next(s)) == |t.children|
    ensures Descent(t, s) == ([], Next(s))
  {
  }

  /** `Descent` when the first draw names child `i`: the walk goes on from there. */
  lemma DescentMoves(t: Node, s: RngState, i: nat)
    requires i == Choice(t, Next(s)) < |t.children|
    ensures Descent(t, s) == ([i] + Descent(t.children[i], Next(s)).0, Descent(t.children[i], Next(s)).1)
  {
  }

  /** The walk of `from_bytes` for one byte: the path to the node that gets the new leaf. */
  method Descend(root: Node, rng: XorShiftRng) returns (path: seq<nat>)
    requires rng.Valid()
    modifies rng
    ensures rng.Valid()
    ensures (path, rng.State()) == Descent(root, old(rng.State()))
  {
    ghost var start := rng.State();
    ghost var before := start;
    var pos := root;
    path := [];
    var r := rng.NextU32();
    var next := DrawIndex(r, |pos.children|);
    assert [] + Descent(root, start).0 == Descent(root, start).0;
    while next != |pos.children|
      invariant rng.Valid()
      invariant rng.State() == Next(before) && next == Choice(pos, rng.State())
      invariant Descent(root, start) == (path + Descent(pos, before).0, Descent(pos, before).1)
      decreases pos
    {
      ghost var rest := Descent(pos.children[next], rng.State());
      DescentMoves(pos, before, next);
      assert path + ([next] + rest.0) == (path + [next]) + rest.0;
      pos := pos.children[next];
      path := path + [next];
      before := rng.State();
      r := rng.NextU32();
      next := DrawIndex(r, |pos.children|);
    }
    DescentStops(pos, before);
    assert path + [] == path;
  }

  /**
   * `Node::from_bytes`. The first four bytes, read big-endian, seed the
   * generator; every later byte appends one leaf where a random walk from the
   * root stops. Fewer than four bytes make the source panic, hence the requires.
   */
  method FromBytes(bytes: seq<bv8>) returns (root: Node)
    requires |bytes| >= 4
    ensures root == Tree(bytes)
    ensures root.player && root.fitness == 0
    ensures Size(root) == 1 + (|bytes| - 4)
  {
    root := NewNode(true, 0);
    var rng := new XorShiftRng.FromSeed(FromBeBytes(bytes[0..4]));
    var k := 4;
    while k < |bytes|
      invariant 4 <= k <= |bytes|
      invariant rng.Valid()
      invariant Grow(root, rng.State(), bytes[k..]) == Tree(bytes)
    {
      var path := Descend(root, rng);
      assert bytes[k..][1..] == bytes[k + 1..];
      root := AppendAt(root, path, Leaf(bytes[k]));
      k := k + 1;
    }
    assert bytes[k..] == [];
    TreeShape(bytes);
  }

  // ---------------------------------------------------------------------------
  // The game played on a node
  // ---------------------------------------------------------------------------

  /** `lo..hi`. */
  function Range(lo: nat, hi: nat): (r: seq<nat>)
    requires lo <= hi
    ensures |r| == hi - lo
    ensures forall i :: 0 <= i < |r| ==> r[i] == lo + i
    decreases hi - lo
  {
    if lo == hi then [] else [lo] + Range(lo + 1, hi)
  }

  /** The position the search plays on, which `execute` overwrites with a child. */
  class NodeGame {
    var node: Node

    constructor (node: Node)
      ensures this.node == node
    {
      this.node := node;
    }

    /** `actions`: whether `player` is to move, and the child indices as the actions. */
    function Actions(player: bool): (r: (bool, seq<nat>))
      reads this
      ensures r.0 <==> player == node.player
      ensures |r.1| == |node.children|
      ensures forall i :: 0 <= i < |r.1| ==> r.1[i] == i
    {
      (player == node.player, Range(0, |node.children|))
    }

    /** `look_ahead`, as `Node` overrides it: the fitness of the child, without moving there. */
    function LookAhead(action: nat, player: bool): i8
      reads this
      requires action < |node.children|
    {
      node.children[action].fitness
    }

    /**
     * `execute`: the position becomes child `action`, and its fitness is
     * returned, which is what `LookAhead` said it would be.
     */
    method Execute(action: nat, player: bool) returns (fitness: i8)
      requires action < |node.children|
      modifies this
      ensures node == old(node.children[action])
      ensures fitness == node.fitness == old(LookAhead(action, player))
    {
      node := node.children[action];
      fitness := node.fitness;
    }

    /**
     * The default `look_ahead` of `Game`: execute on a clone, so that this
     * position stays as it is. It returns what `Node`'s own `LookAhead` returns.
     */
    method DefaultLookAhead(action: nat, player: bool) returns (fitness: i8)
      requires action < |node.children|
      ensures fitness == LookAhead(action, player)
    {
      var copy := new NodeGame(node);
      fitness := copy.Execute(action, player);
    }
  }
}
