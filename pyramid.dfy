/** The Sierpinski pyramid generator of main.py: `draw_pyramid` emits one leaf
    pyramid as three immediate-mode primitives, `sierpinski_piramid` splits a
    pyramid into five half-size children until the depth runs out.  The OpenGL
    calls are modelled by the sequence of primitives they would receive. */
module Pyramid {

  datatype Vec3 = Vec3(x: real, y: real, z: real)

  /** The two primitive modes of the generator: GL_POLYGON and GL_LINE_LOOP. */
  datatype Kind = Polygon | LineLoop

  datatype Color = Color(r: real, g: real, b: real)

  /** One glBegin/glEnd block: its mode, the colour set inside it and its vertices in order. */
  datatype Primitive = Primitive(kind: Kind, color: Color, vertices: seq<Vec3>)

  /** A leaf pyramid as `draw_pyramid` receives it: centre and edge parameter. */
  datatype Leaf = Leaf(center: Vec3, size: real)

  /** Colour of filled faces and colour of wireframe outlines. */
  const FillColor := Color(1.0, 0.5, 0.8)
  const WireColor := Color(1.0, 0.0, 0.0)

  predicate IsBaseCorner(v: Vec3, c: Vec3, a: real) {
    (v.x == c.x - a || v.x == c.x + a) && v.y == c.y - a && (v.z == c.z - a || v.z == c.z + a)
  }

  function Apex(c: Vec3, a: real): Vec3 {
    Vec3(c.x, c.y + a, c.z)
  }

  /** The style every primitive of one call shares. */
  predicate Styled(p: Primitive, colored: bool) {
    if colored then p.kind == Polygon && p.color == FillColor
    else p.kind == LineLoop && p.color == WireColor
  }

  /** The solid square pyramid with base centre-offset `a` around `c`: its base
      is the square of half-width `a` at height `c.y - a`, its apex `Apex(c, a)`,
      and the half-width shrinks linearly from `a` to 0 between them. */
  predicate Inside(p: Vec3, c: Vec3, a: real) {
    var w := (c.y + a - p.y) / 2.0;
    c.y - a <= p.y <= c.y + a && -w <= p.x - c.x <= w && -w <= p.z - c.z <= w
  }

  /** main.py `draw_pyramid`: a bottom face, a zig-zag between the base corners and
      the apex, and a "top" face, all offset by the full edge parameter `a`. */
  function DrawPyramid(c: Vec3, a: real, colored: bool): (r: seq<Primitive>)
  {
    var half := a;
    var kind := if colored then Polygon else LineLoop;
    var color := if colored then FillColor else WireColor;
    var x, y, z := c.x, c.y, c.z;
    [ Primitive(kind, color, [ Vec3(x - half, y - half, z - half),
                               Vec3(half + x, y - half, z - half),
                               Vec3(half + x, y - half, z + half),
                               Vec3(x - half, y - half, z + half) ]),
      Primitive(kind, color, [ Vec3(x - half, y - half, z - half),
                               Vec3(x, half + y, z),
                               Vec3(half + x, y - half, z - half),
                               Vec3(x, half + y, z),
                               Vec3(half + x, y - half, z + half),
                               Vec3(x, half + y, z),
                               Vec3(x - half, y - half, z + half),
                               Vec3(x, half + y, z) ]),
      Primitive(kind, color, [ Vec3(x - half, y - half, z - half),
                               Vec3(half + x, y - half, z - half),
                               Vec3(x, half + y, z),
                               Vec3(x - half, y - half, z + half) ]) ]
  }

  /** One leaf is three primitives of 4, 8 and 4 vertices, all in the style
      `colored` selects. */
  lemma LeafPrimitives(c: Vec3, a: real, colored: bool)
    ensures var r := DrawPyramid(c, a, colored);
      && |r| == 3
      && |r[0].vertices| == 4 && |r[1].vertices| == 8 && |r[2].vertices| == 4
      && (forall k :: 0 <= k < 3 ==> Styled(r[k], colored))
  {
  }

  /** Every vertex of a leaf is a base corner (x±a, y-a, z±a) or the apex
      (x, y+a, z) of the full edge parameter `a`. */
  lemma LeafVertices(c: Vec3, a: real, colored: bool)
    ensures var r := DrawPyramid(c, a, colored);
      && (forall k, j :: 0 <= k < |r| && 0 <= j < |r[k].vertices| ==>
            IsBaseCorner(r[k].vertices[j], c, a) || r[k].vertices[j] == Apex(c, a))
      // the bottom face holds four distinct base corners unless the pyramid is degenerate
      && (forall j :: 0 <= j < 4 ==> IsBaseCorner(r[0].vertices[j], c, a))
      && (a != 0.0 ==> forall i, j :: 0 <= i < j < 4 ==> r[0].vertices[i] != r[0].vertices[j])
      // the side strip alternates base corner and apex, starting at a corner
      && (forall j :: 0 <= j < 8 ==>
            if j % 2 == 0 then IsBaseCorner(r[1].vertices[j], c, a) else r[1].vertices[j] == Apex(c, a))
      // the closing face has the apex at its third place and base corners elsewhere
      && r[2].vertices[2] == Apex(c, a)
      && (forall j :: 0 <= j < 4 && j != 2 ==> IsBaseCorner(r[2].vertices[j], c, a))
  {
  }

  /** A leaf of non-negative size draws nothing outside its own solid pyramid. */
  lemma LeafInside(c: Vec3, a: real, colored: bool)
    requires 0.0 <= a
    ensures var r := DrawPyramid(c, a, colored);
      forall k, j :: 0 <= k < |r| && 0 <= j < |r[k].vertices| ==> Inside(r[k].vertices[j], c, a)
  {
    LeafVertices(c, a, colored);
  }

  /** Number of subdivision levels below a call with this `iterations` value. */
  function Levels(iterations: int): nat {
    if iterations > 1 then iterations - 1 else 0
  }

  function Pow5(n: nat): (r: nat)
    ensures r >= 1
  {
    if n == 0 then 1 else 5 * Pow5(n - 1)
  }

  function Pow2(n: nat): (r: real)
    ensures r >= 1.0
  {
    if n == 0 then 1.0 else 2.0 * Pow2(n - 1)
  }

  /** The five children of a subdivided pyramid, in the order of the recursive
      calls: the four base corners (x then z, low before high), then the top one. */
  datatype Child = LowLow | HighLow | LowHigh | HighHigh | Upper

  /** Centre of a child of a pyramid at `c` split with offset `half`. */
  function ChildCenter(c: Vec3, half: real, q: Child): Vec3 {
    match q
    case LowLow => Vec3(c.x - half, c.y - half, c.z - half)
    case HighLow => Vec3(c.x + half, c.y - half, c.z - half)
    case LowHigh => Vec3(c.x - half, c.y - half, c.z + half)
    case HighHigh => Vec3(c.x + half, c.y - half, c.z + half)
    case Upper => Vec3(c.x, c.y + half, c.z)
  }

  /** main.py `sierpinski_piramid`: five recursive calls in a fixed order while
      `iterations > 1`, otherwise one leaf pyramid of the full `length`. */
  function Sierpinski(c: Vec3, iterations: int, length: real, colored: bool): (r: seq<Primitive>)
    decreases iterations
    ensures |r| == 3 * Pow5(Levels(iterations))
    ensures AllStyled(r, colored)
  {
    var half := length / 2.0;
    if iterations > 1 then
      var s0 := Sierpinski(ChildCenter(c, half, LowLow), iterations - 1, half, colored);
      var s1 := Sierpinski(ChildCenter(c, half, HighLow), iterations - 1, half, colored);
      var s2 := Sierpinski(ChildCenter(c, half, LowHigh), iterations - 1, half, colored);
      var s3 := Sierpinski(ChildCenter(c, half, HighHigh), iterations - 1, half, colored);
      var s4 := Sierpinski(ChildCenter(c, half, Upper), iterations - 1, half, colored);
      AllStyledAppend(s0, s1, colored);
      AllStyledAppend(s0 + s1, s2, colored);
      AllStyledAppend(s0 + s1 + s2, s3, colored);
      AllStyledAppend(s0 + s1 + s2 + s3, s4, colored);
      s0 + s1 + s2 + s3 + s4
    else
      DrawPyramid(c, length, colored)
  }

  predicate AllStyled(prims: seq<Primitive>, colored: bool) {
    forall k :: 0 <= k < |prims| ==> Styled(prims[k], colored)
  }

  lemma AllStyledAppend(a: seq<Primitive>, b: seq<Primitive>, colored: bool)
    requires AllStyled(a, colored) && AllStyled(b, colored)
    ensures AllStyled(a + b, colored)
  {
    forall k | 0 <= k < |a + b| ensures Styled((a + b)[k], colored) {
      if k >= |a| { assert (a + b)[k] == b[k - |a|]; }
    }
  }

  // ---------------------------------------------------------------------------
  // The leaves of the subdivision, apart from how they are drawn.

  /** The leaf pyramids `sierpinski_piramid` hands to `draw_pyramid`, in call order. */
  function Leaves(c: Vec3, iterations: int, length: real): (ls: seq<Leaf>)
    decreases iterations
    ensures |ls| == Pow5(Levels(iterations))
  {
    var half := length / 2.0;
    if iterations > 1 then
      Leaves(ChildCenter(c, half, LowLow), iterations - 1, half)
      + Leaves(ChildCenter(c, half, HighLow), iterations - 1, half)
      + Leaves(ChildCenter(c, half, LowHigh), iterations - 1, half)
      + Leaves(ChildCenter(c, half, HighHigh), iterations - 1, half)
      + Leaves(ChildCenter(c, half, Upper), iterations - 1, half)
    else
      [Leaf(c, length)]
  }

  /** Draws each leaf in turn. */
  function DrawAll(ls: seq<Leaf>, colored: bool): (r: seq<Primitive>)
    ensures |r| == 3 * |ls|
  {
    if |ls| == 0 then [] else DrawPyramid(ls[0].center, ls[0].size, colored) + DrawAll(ls[1..], colored)
  }

  lemma {:induction false} DrawAllAppend(a: seq<Leaf>, b: seq<Leaf>, colored: bool)
    ensures DrawAll(a + b, colored) == DrawAll(a, colored) + DrawAll(b, colored)
    decreases |a|
  {
    if |a| == 0 {
      assert a + b == b;
    } else {
      assert (a + b)[1..] == a[1..] + b;
      DrawAllAppend(a[1..], b, colored);
    }
  }

  /** Primitive k of a drawn leaf list is primitive k % 3 of leaf k / 3. */
  lemma {:induction false} DrawAllAt(ls: seq<Leaf>, colored: bool, k: nat)
    requires k < 3 * |ls|
    ensures DrawAll(ls, colored)[k] == DrawPyramid(ls[k / 3].center, ls[k / 3].size, colored)[k % 3]
    decreases |ls|
  {
    if k >= 3 {
      DrawAllAt(ls[1..], colored, k - 3);
      assert (k - 3) / 3 == k / 3 - 1 && (k - 3) % 3 == k % 3;
    }
  }

  lemma DrawAll5(l0: seq<Leaf>, l1: seq<Leaf>, l2: seq<Leaf>, l3: seq<Leaf>, l4: seq<Leaf>, colored: bool)
    ensures DrawAll(l0 + l1 + l2 + l3 + l4, colored)
         == DrawAll(l0, colored) + DrawAll(l1, colored) + DrawAll(l2, colored) + DrawAll(l3, colored) + DrawAll(l4, colored)
  {
    DrawAllAppend(l0, l1, colored);
    DrawAllAppend(l0 + l1, l2, colored);
    DrawAllAppend(l0 + l1 + l2, l3, colored);
    DrawAllAppend(l0 + l1 + l2 + l3, l4, colored);
  }

  lemma DrawOne(leaf: Leaf, colored: bool)
    ensures DrawAll([leaf], colored) == DrawPyramid(leaf.center, leaf.size, colored)
  {
    assert [leaf][1..] == [];
    assert DrawPyramid(leaf.center, leaf.size, colored) + [] == DrawPyramid(leaf.center, leaf.size, colored);
  }

  /** The generator is the leaf list drawn leaf by leaf. */
  lemma {:induction false} SierpinskiDrawsLeaves(c: Vec3, iterations: int, length: real, colored: bool)
    ensures Sierpinski(c, iterations, length, colored) == DrawAll(Leaves(c, iterations, length), colored)
    decreases iterations
  {
    if iterations > 1 {
      var half := length / 2.0;
      var l0 := Leaves(ChildCenter(c, half, LowLow), iterations - 1, half);
      var l1 := Leaves(ChildCenter(c, half, HighLow), iterations - 1, half);
      var l2 := Leaves(ChildCenter(c, half, LowHigh), iterations - 1, half);
      var l3 := Leaves(ChildCenter(c, half, HighHigh), iterations - 1, half);
      var l4 := Leaves(ChildCenter(c, half, Upper), iterations - 1, half);
      SierpinskiDrawsLeaves(ChildCenter(c, half, LowLow), iterations - 1, half, colored);
      SierpinskiDrawsLeaves(ChildCenter(c, half, HighLow), iterations - 1, half, colored);
      SierpinskiDrawsLeaves(ChildCenter(c, half, LowHigh), iterations - 1, half, colored);
      SierpinskiDrawsLeaves(ChildCenter(c, half, HighHigh), iterations - 1, half, colored);
      SierpinskiDrawsLeaves(ChildCenter(c, half, Upper), iterations - 1, half, colored);
      assert Leaves(c, iterations, length) == l0 + l1 + l2 + l3 + l4;
      DrawAll5(l0, l1, l2, l3, l4, colored);
    } else {
      DrawOne(Leaf(c, length), colored);
    }
  }

  /** Primitive k of the generator's output is primitive k % 3 of leaf k / 3. */
  lemma PrimitiveOfLeaf(c: Vec3, iterations: int, length: real, colored: bool, k: nat)
    requires k < |Sierpinski(c, iterations, length, colored)|
    ensures k / 3 < |Leaves(c, iterations, length)|
    ensures var leaf := Leaves(c, iterations, length)[k / 3];
      Sierpinski(c, iterations, length, colored)[k] == DrawPyramid(leaf.center, leaf.size, colored)[k % 3]
  {
    SierpinskiDrawsLeaves(c, iterations, length, colored);
    DrawAllAt(Leaves(c, iterations, length), colored, k);
  }

  /** Exactly one leaf is emitted precisely when `iterations <= 1`, and it then
      sits at the given centre with the given length. */
  lemma SingleLeaf(c: Vec3, iterations: int, length: real, colored: bool)
    ensures |Leaves(c, iterations, length)| == 1 <==> iterations <= 1
    ensures iterations <= 1 ==>
      Leaves(c, iterations, length) == [Leaf(c, length)]
      && Sierpinski(c, iterations, length, colored) == DrawPyramid(c, length, colored)
  {
  }

  /** A leaf drawn filled and drawn as wireframe has the same vertex lists. */
  lemma LeafColoring(c: Vec3, a: real, m: nat)
    requires m < 3
    ensures DrawPyramid(c, a, true)[m].vertices == DrawPyramid(c, a, false)[m].vertices
  {
  }

  /** The `colored` flag changes only kind and colour: both settings emit the
      same vertex lists in the same order. */
  lemma ColoringKeepsGeometry(c: Vec3, iterations: int, length: real)
    ensures var fill := Sierpinski(c, iterations, length, true);
            var wire := Sierpinski(c, iterations, length, false);
      && |fill| == |wire|
      && forall k :: 0 <= k < |fill| ==> fill[k].vertices == wire[k].vertices && fill[k].kind != wire[k].kind
  {
    var fill := Sierpinski(c, iterations, length, true);
    var wire := Sierpinski(c, iterations, length, false);
    forall k | 0 <= k < |fill| ensures fill[k].vertices == wire[k].vertices {
      PrimitiveOfLeaf(c, iterations, length, true, k);
      PrimitiveOfLeaf(c, iterations, length, false, k);
      var leaf := Leaves(c, iterations, length)[k / 3];
      LeafColoring(leaf.center, leaf.size, k % 3);
    }
  }

  // ---------------------------------------------------------------------------
  // Order: the leaves of each child form one block.

  /** Start of a child's block among five consecutive blocks of `m` indices. */
  function Offset(q: Child, m: nat): nat {
    match q
    case LowLow => 0
    case HighLow => m
    case LowHigh => 2 * m
    case HighHigh => 3 * m
    case Upper => 4 * m
  }

  /** Which of five consecutive blocks of `m` indices holds `i`. */
  function Block(i: nat, m: nat): (q: Child)
    requires i < 5 * m
    ensures Offset(q, m) <= i < Offset(q, m) + m
  {
    if i < m then LowLow else if i < 2 * m then HighLow else if i < 3 * m then LowHigh
    else if i < 4 * m then HighHigh else Upper
  }

  /** The list a `Child` names among five. */
  function Pick<T>(q: Child, l0: seq<T>, l1: seq<T>, l2: seq<T>, l3: seq<T>, l4: seq<T>): seq<T> {
    match q
    case LowLow => l0
    case HighLow => l1
    case LowHigh => l2
    case HighHigh => l3
    case Upper => l4
  }

  /** Index `i` of five concatenated lists of length `m` lies in list `Block(i, m)`. */
  lemma At5<T>(l0: seq<T>, l1: seq<T>, l2: seq<T>, l3: seq<T>, l4: seq<T>, m: nat, i: nat)
    requires |l0| == m && |l1| == m && |l2| == m && |l3| == m && |l4| == m
    requires i < 5 * m
    ensures i < |l0 + l1 + l2 + l3 + l4|
    ensures (l0 + l1 + l2 + l3 + l4)[i] == Pick(Block(i, m), l0, l1, l2, l3, l4)[i - Offset(Block(i, m), m)]
  {
  }

  /** For `iterations > 1`, leaf `i` is leaf `i - Offset(q, m)` of child
      `q = Block(i, m)`, where `m = 5^(iterations-2)` is the leaf count of a
      child: the children's leaves come as consecutive blocks in call order. */
  lemma ChildBlock(c: Vec3, iterations: int, length: real, i: nat)
    requires iterations > 1
    requires i < 5 * Pow5(iterations - 2)
    ensures i < |Leaves(c, iterations, length)|
    ensures var m := Pow5(iterations - 2); var q := Block(i, m);
      Leaves(c, iterations, length)[i]
      == Leaves(ChildCenter(c, length / 2.0, q), iterations - 1, length / 2.0)[i - Offset(q, m)]
  {
    var half := length / 2.0;
    var l0 := Leaves(ChildCenter(c, half, LowLow), iterations - 1, half);
    var l1 := Leaves(ChildCenter(c, half, HighLow), iterations - 1, half);
    var l2 := Leaves(ChildCenter(c, half, LowHigh), iterations - 1, half);
    var l3 := Leaves(ChildCenter(c, half, HighHigh), iterations - 1, half);
    var l4 := Leaves(ChildCenter(c, half, Upper), iterations - 1, half);
    var m := Pow5(iterations - 2);
    assert Levels(iterations - 1) == iterations - 2;
    assert Leaves(c, iterations, length) == l0 + l1 + l2 + l3 + l4;
    At5(l0, l1, l2, l3, l4, m, i);
    PickChild(c, iterations, length, Block(i, m));
  }

  lemma PickChild(c: Vec3, iterations: int, length: real, q: Child)
    ensures var half := length / 2.0;
      Pick(q, Leaves(ChildCenter(c, half, LowLow), iterations - 1, half),
              Leaves(ChildCenter(c, half, HighLow), iterations - 1, half),
              Leaves(ChildCenter(c, half, LowHigh), iterations - 1, half),
              Leaves(ChildCenter(c, half, HighHigh), iterations - 1, half),
              Leaves(ChildCenter(c, half, Upper), iterations - 1, half))
      == Leaves(ChildCenter(c, half, q), iterations - 1, half)
  {
  }

  // ---------------------------------------------------------------------------
  // Size: every leaf has the root length halved once per level.

  /** `length` halved `n` times, as the recursion does it. */
  function Halved(length: real, n: nat): (r: real)
    decreases n
    ensures 0.0 <= length ==> 0.0 <= r <= length
  {
    if n == 0 then length else Halved(length / 2.0, n - 1)
  }

  lemma {:induction false} HalvedIsDivision(length: real, n: nat)
    ensures Halved(length, n) == length / Pow2(n)
    decreases n
  {
    if n > 0 {
      HalvedIsDivision(length / 2.0, n - 1);
      var p := Pow2(n - 1);
      assert length / 2.0 / p == length / (2.0 * p);
    }
  }

  predicate AllSized(ls: seq<Leaf>, size: real) {
    forall k :: 0 <= k < |ls| ==> ls[k].size == size
  }

  lemma AllSizedAppend(a: seq<Leaf>, b: seq<Leaf>, size: real)
    requires AllSized(a, size) && AllSized(b, size)
    ensures AllSized(a + b, size)
  {
    forall k | 0 <= k < |a + b| ensures (a + b)[k].size == size {
      if k >= |a| { assert (a + b)[k] == b[k - |a|]; }
    }
  }

  lemma {:induction false} LeavesHalved(c: Vec3, iterations: int, length: real)
    ensures AllSized(Leaves(c, iterations, length), Halved(length, Levels(iterations)))
    decreases iterations
  {
    if iterations > 1 {
      var half := length / 2.0;
      var s := Halved(half, Levels(iterations - 1));
      assert Halved(length, Levels(iterations)) == s;
      var l0 := Leaves(ChildCenter(c, half, LowLow), iterations - 1, half);
      var l1 := Leaves(ChildCenter(c, half, HighLow), iterations - 1, half);
      var l2 := Leaves(ChildCenter(c, half, LowHigh), iterations - 1, half);
      var l3 := Leaves(ChildCenter(c, half, HighHigh), iterations - 1, half);
      var l4 := Leaves(ChildCenter(c, half, Upper), iterations - 1, half);
      LeavesHalved(ChildCenter(c, half, LowLow), iterations - 1, half);
      LeavesHalved(ChildCenter(c, half, HighLow), iterations - 1, half);
      LeavesHalved(ChildCenter(c, half, LowHigh), iterations - 1, half);
      LeavesHalved(ChildCenter(c, half, HighHigh), iterations - 1, half);
      LeavesHalved(ChildCenter(c, half, Upper), iterations - 1, half);
      AllSizedAppend(l0, l1, s);
      AllSizedAppend(l0 + l1, l2, s);
      AllSizedAppend(l0 + l1 + l2, l3, s);
      AllSizedAppend(l0 + l1 + l2 + l3, l4, s);
      assert Leaves(c, iterations, length) == l0 + l1 + l2 + l3 + l4;
    }
  }

  /** 5^(d-1) leaves for `iterations = d > 1` (one otherwise), each of edge
      parameter `length / 2^(d-1)`. */
  lemma LeafCountAndSize(c: Vec3, iterations: int, length: real)
    ensures |Leaves(c, iterations, length)| == Pow5(Levels(iterations))
    ensures forall k :: 0 <= k < |Leaves(c, iterations, length)| ==>
      Leaves(c, iterations, length)[k].size == length / Pow2(Levels(iterations))
  {
    LeavesHalved(c, iterations, length);
    HalvedIsDivision(length, Levels(iterations));
  }

  // ---------------------------------------------------------------------------
  // Containment: the whole fractal stays inside the root pyramid.

  /** The solid of `inner` lies inside the solid of `outer`. */
  ghost predicate Contains(outer: Leaf, inner: Leaf) {
    forall p :: Inside(p, inner.center, inner.size) ==> Inside(p, outer.center, outer.size)
  }

  lemma ChildContained(c: Vec3, length: real, q: Child)
    ensures Contains(Leaf(c, length), Leaf(ChildCenter(c, length / 2.0, q), length / 2.0))
  {
    var half := length / 2.0;
    forall p | Inside(p, ChildCenter(c, half, q), half) ensures Inside(p, c, length) {
      match q {
        case LowLow =>
        case HighLow =>
        case LowHigh =>
        case HighHigh =>
        case Upper =>
      }
    }
  }

  ghost predicate AllContained(ls: seq<Leaf>, outer: Leaf) {
    forall k :: 0 <= k < |ls| ==> Contains(outer, ls[k])
  }

  lemma AllContainedAppend(a: seq<Leaf>, b: seq<Leaf>, outer: Leaf)
    requires AllContained(a, outer) && AllContained(b, outer)
    ensures AllContained(a + b, outer)
  {
    forall k | 0 <= k < |a + b| ensures Contains(outer, (a + b)[k]) {
      if k >= |a| { assert (a + b)[k] == b[k - |a|]; }
    }
  }

  lemma AllContainedWiden(ls: seq<Leaf>, inner: Leaf, outer: Leaf)
    requires AllContained(ls, inner) && Contains(outer, inner)
    ensures AllContained(ls, outer)
  {
    forall k | 0 <= k < |ls| ensures Contains(outer, ls[k]) {
      forall p | Inside(p, ls[k].center, ls[k].size) ensures Inside(p, outer.center, outer.size) {
        assert Inside(p, inner.center, inner.size);
      }
    }
  }

  /** One child's leaves lie inside the parent. */
  lemma ChildLeavesContained(c: Vec3, iterations: int, length: real, q: Child)
    requires iterations > 1
    ensures AllContained(Leaves(ChildCenter(c, length / 2.0, q), iterations - 1, length / 2.0), Leaf(c, length))
    decreases iterations, 0
  {
    var half := length / 2.0;
    LeavesContained(ChildCenter(c, half, q), iterations - 1, half);
    ChildContained(c, length, q);
    AllContainedWiden(Leaves(ChildCenter(c, half, q), iterations - 1, half), Leaf(ChildCenter(c, half, q), half), Leaf(c, length));
  }

  lemma {:induction false} LeavesContained(c: Vec3, iterations: int, length: real)
    ensures AllContained(Leaves(c, iterations, length), Leaf(c, length))
    decreases iterations, 1
  {
    if iterations > 1 {
      var half := length / 2.0;
      var outer := Leaf(c, length);
      var l0 := Leaves(ChildCenter(c, half, LowLow), iterations - 1, half);
      var l1 := Leaves(ChildCenter(c, half, HighLow), iterations - 1, half);
      var l2 := Leaves(ChildCenter(c, half, LowHigh), iterations - 1, half);
      var l3 := Leaves(ChildCenter(c, half, HighHigh), iterations - 1, half);
      var l4 := Leaves(ChildCenter(c, half, Upper), iterations - 1, half);
      ChildLeavesContained(c, iterations, length, LowLow);
      ChildLeavesContained(c, iterations, length, HighLow);
      ChildLeavesContained(c, iterations, length, LowHigh);
      ChildLeavesContained(c, iterations, length, HighHigh);
      ChildLeavesContained(c, iterations, length, Upper);
      AllContainedAppend(l0, l1, outer);
      AllContainedAppend(l0 + l1, l2, outer);
      AllContainedAppend(l0 + l1 + l2, l3, outer);
      AllContainedAppend(l0 + l1 + l2 + l3, l4, outer);
      assert Leaves(c, iterations, length) == l0 + l1 + l2 + l3 + l4;
    }
  }

  /** For a non-negative length every vertex the generator emits lies inside
      the root pyramid at `c` with edge parameter `length`. */
  lemma SierpinskiInside(c: Vec3, iterations: int, length: real, colored: bool)
    requires 0.0 <= length
    ensures var r := Sierpinski(c, iterations, length, colored);
      forall k, j :: 0 <= k < |r| && 0 <= j < |r[k].vertices| ==> Inside(r[k].vertices[j], c, length)
  {
    var r := Sierpinski(c, iterations, length, colored);
    var ls := Leaves(c, iterations, length);
    LeavesContained(c, iterations, length);
    LeavesHalved(c, iterations, length);
    forall k, j | 0 <= k < |r| && 0 <= j < |r[k].vertices| ensures Inside(r[k].vertices[j], c, length) {
      PrimitiveOfLeaf(c, iterations, length, colored, k);
      var leaf := ls[k / 3];
      LeafInside(leaf.center, leaf.size, colored);
      assert Inside(r[k].vertices[j], leaf.center, leaf.size);
      assert Contains(Leaf(c, length), leaf);
    }
  }
}
