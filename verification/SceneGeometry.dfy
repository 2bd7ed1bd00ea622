/** check-ufbx-fbx.py: the scene graph checks and its affine arithmetic, over
    exact reals. */
module SceneGeometry {
  import opened Wrappers

  // -------------------------------------------------- affine arithmetic

  datatype Vec = Vec(x: real, y: real, z: real)
  datatype Row = Row(x: real, y: real, z: real, t: real)

  /** The twelve numbers of a matrix, row by row. */
  datatype Affine = Affine(r0: Row, r1: Row, r2: Row)

  function Dot(a: Vec, b: Vec): real {
    a.x * b.x + a.y * b.y + a.z * b.z
  }

  function Linear(r: Row): Vec {
    Vec(r.x, r.y, r.z)
  }

  /** `transform` */
  function Transform(m: Affine, p: Vec): Vec {
    Vec(Dot(Linear(m.r0), p) + m.r0.t, Dot(Linear(m.r1), p) + m.r1.t, Dot(Linear(m.r2), p) + m.r2.t)
  }

  function MultiplyRow(a: Row, b: Affine): Row {
    Row(a.x * b.r0.x + a.y * b.r1.x + a.z * b.r2.x,
        a.x * b.r0.y + a.y * b.r1.y + a.z * b.r2.y,
        a.x * b.r0.z + a.y * b.r1.z + a.z * b.r2.z,
        a.x * b.r0.t + a.y * b.r1.t + a.z * b.r2.t + a.t)
  }

  /** `multiply` */
  function Multiply(a: Affine, b: Affine): Affine {
    Affine(MultiplyRow(a.r0, b), MultiplyRow(a.r1, b), MultiplyRow(a.r2, b))
  }

  /** One row of a product applied to a point, as plain numbers. */
  lemma RowIdentity(a0: real, a1: real, a2: real, p0: real, p1: real, p2: real,
                    b00: real, b01: real, b02: real, b03: real,
                    b10: real, b11: real, b12: real, b13: real,
                    b20: real, b21: real, b22: real, b23: real)
    ensures
      (a0 * b00 + a1 * b10 + a2 * b20) * p0 + (a0 * b01 + a1 * b11 + a2 * b21) * p1
      + (a0 * b02 + a1 * b12 + a2 * b22) * p2 + (a0 * b03 + a1 * b13 + a2 * b23)
      == a0 * (b00 * p0 + b01 * p1 + b02 * p2 + b03) + a1 * (b10 * p0 + b11 * p1 + b12 * p2 + b13)
         + a2 * (b20 * p0 + b21 * p1 + b22 * p2 + b23)
  {
  }

  lemma RowOfProduct(a: Row, b: Affine, p: Vec)
    ensures Dot(Linear(MultiplyRow(a, b)), p) + MultiplyRow(a, b).t == Dot(Linear(a), Transform(b, p)) + a.t
  {
    RowIdentity(a.x, a.y, a.z, p.x, p.y, p.z, b.r0.x, b.r0.y, b.r0.z, b.r0.t,
                b.r1.x, b.r1.y, b.r1.z, b.r1.t, b.r2.x, b.r2.y, b.r2.z, b.r2.t);
  }

  /** Multiplication is composition. */
  lemma MultiplyComposes(a: Affine, b: Affine, p: Vec)
    ensures Transform(Multiply(a, b), p) == Transform(a, Transform(b, p))
  {
    RowOfProduct(a.r0, b, p);
    RowOfProduct(a.r1, b, p);
    RowOfProduct(a.r2, b, p);
  }

  // ------------------------------------------------------------- normals

  function Divide(a: Vec, d: real): Vec
    requires d != 0.0
  {
    Vec(a.x / d, a.y / d, a.z / d)
  }

  /** The linear part of an affine matrix, or its normal matrix: three rows. */
  datatype Square = Square(r0: Vec, r1: Vec, r2: Vec)

  function Apply(m: Square, v: Vec): Vec {
    Vec(Dot(m.r0, v), Dot(m.r1, v), Dot(m.r2, v))
  }

  function LinearPart(m: Affine): Square {
    Square(Linear(m.r0), Linear(m.r1), Linear(m.r2))
  }

  /** What is left of a square when one row and one column are struck out:
      `minor[0]*minor[3] - minor[1]*minor[2]`. */
  function Minor(a: real, b: real, c: real, d: real): real {
    a * d - b * c
  }

  /** The signed minors, row by row, as `normal_matrix` lists them. */
  function Cofactors(m: Square): Square {
    var (a, b, c) := (m.r0, m.r1, m.r2);
    Square(
      Vec(Minor(b.y, b.z, c.y, c.z), -Minor(b.x, b.z, c.x, c.z), Minor(b.x, b.y, c.x, c.y)),
      Vec(-Minor(a.y, a.z, c.y, c.z), Minor(a.x, a.z, c.x, c.z), -Minor(a.x, a.y, c.x, c.y)),
      Vec(Minor(a.y, a.z, b.y, b.z), -Minor(a.x, a.z, b.x, b.z), Minor(a.x, a.y, b.x, b.y)))
  }

  function Determinant(m: Square): real {
    Dot(m.r0, Cofactors(m).r0)
  }

  function DivideSquare(c: Square, d: real): Square
    requires d != 0.0
  {
    Square(Divide(c.r0, d), Divide(c.r1, d), Divide(c.r2, d))
  }

  /** `normal_matrix`: determinant and normal matrix; None for a singular matrix. */
  function NormalMatrix(m: Affine): Option<(real, Square)> {
    var s := LinearPart(m);
    var d := Determinant(s);
    if d == 0.0 then None else Some((d, DivideSquare(Cofactors(s), d)))
  }

  function Transpose(m: Square): Square {
    Square(Vec(m.r0.x, m.r1.x, m.r2.x), Vec(m.r0.y, m.r1.y, m.r2.y), Vec(m.r0.z, m.r1.z, m.r2.z))
  }

  /** The matrix product. */
  function Product(p: Square, q: Square): Square {
    var t := Transpose(q);
    Square(Apply(t, p.r0), Apply(t, p.r1), Apply(t, p.r2))
  }

  const IDENTITY := Square(Vec(1.0, 0.0, 0.0), Vec(0.0, 1.0, 0.0), Vec(0.0, 0.0, 1.0))

  /** The first column of the cofactors against the columns of the matrix. */
  lemma FirstColumn(a: Vec, b: Vec, c: Vec)
    ensures var k := Vec(Minor(b.y, b.z, c.y, c.z), -Minor(a.y, a.z, c.y, c.z), Minor(a.y, a.z, b.y, b.z));
      && Dot(k, Vec(a.x, b.x, c.x)) == Determinant(Square(a, b, c))
      && Dot(k, Vec(a.y, b.y, c.y)) == 0.0
      && Dot(k, Vec(a.z, b.z, c.z)) == 0.0
  {
    hide Minor;
    FirstExpansion(a.x, a.y, a.z, b.x, b.y, b.z, c.x, c.y, c.z);
  }

  lemma SecondColumn(a: Vec, b: Vec, c: Vec)
    ensures var k := Vec(-Minor(b.x, b.z, c.x, c.z), Minor(a.x, a.z, c.x, c.z), -Minor(a.x, a.z, b.x, b.z));
      && Dot(k, Vec(a.x, b.x, c.x)) == 0.0
      && Dot(k, Vec(a.y, b.y, c.y)) == Determinant(Square(a, b, c))
      && Dot(k, Vec(a.z, b.z, c.z)) == 0.0
  {
    SecondExpansion(a.x, a.y, a.z, b.x, b.y, b.z, c.x, c.y, c.z);
  }

  lemma ThirdColumn(a: Vec, b: Vec, c: Vec)
    ensures var k := Vec(Minor(b.x, b.y, c.x, c.y), -Minor(a.x, a.y, c.x, c.y), Minor(a.x, a.y, b.x, b.y));
      && Dot(k, Vec(a.x, b.x, c.x)) == 0.0
      && Dot(k, Vec(a.y, b.y, c.y)) == 0.0
      && Dot(k, Vec(a.z, b.z, c.z)) == Determinant(Square(a, b, c))
  {
    ThirdExpansion(a.x, a.y, a.z, b.x, b.y, b.z, c.x, c.y, c.z);
  }

  lemma FirstExpansion(a0: real, a1: real, a2: real, b0: real, b1: real, b2: real, c0: real, c1: real, c2: real)
    ensures Minor(b1, b2, c1, c2) * a0 + -Minor(a1, a2, c1, c2) * b0 + Minor(a1, a2, b1, b2) * c0
      == a0 * Minor(b1, b2, c1, c2) + a1 * -Minor(b0, b2, c0, c2) + a2 * Minor(b0, b1, c0, c1)
    ensures Minor(b1, b2, c1, c2) * a1 + -Minor(a1, a2, c1, c2) * b1 + Minor(a1, a2, b1, b2) * c1 == 0.0
    ensures Minor(b1, b2, c1, c2) * a2 + -Minor(a1, a2, c1, c2) * b2 + Minor(a1, a2, b1, b2) * c2 == 0.0
  {
  }

  lemma SecondExpansion(a0: real, a1: real, a2: real, b0: real, b1: real, b2: real, c0: real, c1: real, c2: real)
    ensures -Minor(b0, b2, c0, c2) * a0 + Minor(a0, a2, c0, c2) * b0 + -Minor(a0, a2, b0, b2) * c0 == 0.0
    ensures -Minor(b0, b2, c0, c2) * a1 + Minor(a0, a2, c0, c2) * b1 + -Minor(a0, a2, b0, b2) * c1
      == a0 * Minor(b1, b2, c1, c2) + a1 * -Minor(b0, b2, c0, c2) + a2 * Minor(b0, b1, c0, c1)
    ensures -Minor(b0, b2, c0, c2) * a2 + Minor(a0, a2, c0, c2) * b2 + -Minor(a0, a2, b0, b2) * c2 == 0.0
  {
  }

  lemma ThirdExpansion(a0: real, a1: real, a2: real, b0: real, b1: real, b2: real, c0: real, c1: real, c2: real)
    ensures Minor(b0, b1, c0, c1) * a0 + -Minor(a0, a1, c0, c1) * b0 + Minor(a0, a1, b0, b1) * c0 == 0.0
    ensures Minor(b0, b1, c0, c1) * a1 + -Minor(a0, a1, c0, c1) * b1 + Minor(a0, a1, b0, b1) * c1 == 0.0
    ensures Minor(b0, b1, c0, c1) * a2 + -Minor(a0, a1, c0, c1) * b2 + Minor(a0, a1, b0, b1) * c2
      == a0 * Minor(b1, b2, c1, c2) + a1 * -Minor(b0, b2, c0, c2) + a2 * Minor(b0, b1, c0, c1)
  {
  }

  /** Each column of the cofactors against each column of the matrix. */
  lemma CofactorColumns(m: Square)
    ensures var c, t, d := Transpose(Cofactors(m)), Transpose(m), Determinant(m);
      && Dot(c.r0, t.r0) == d && Dot(c.r0, t.r1) == 0.0 && Dot(c.r0, t.r2) == 0.0
      && Dot(c.r1, t.r0) == 0.0 && Dot(c.r1, t.r1) == d && Dot(c.r1, t.r2) == 0.0
      && Dot(c.r2, t.r0) == 0.0 && Dot(c.r2, t.r1) == 0.0 && Dot(c.r2, t.r2) == d
  {
    hide Dot, Determinant, Minor;
    assert m == Square(m.r0, m.r1, m.r2);
    FirstColumn(m.r0, m.r1, m.r2);
    SecondColumn(m.r0, m.r1, m.r2);
    ThirdColumn(m.r0, m.r1, m.r2);
  }

  lemma Common(p: real, q: real, r: real, u: real, v: real, w: real, d: real)
    ensures p * d * u + q * d * v + r * d * w == (p * u + q * v + r * w) * d
  {
  }

  lemma DividedDot(a: Vec, v: Vec, d: real)
    requires d != 0.0
    ensures Dot(Divide(a, d), v) == Dot(a, v) / d
  {
    var p, q, r := a.x / d, a.y / d, a.z / d;
    assert p * d == a.x && q * d == a.y && r * d == a.z;
    Common(p, q, r, v.x, v.y, v.z, d);
    Cancel(p * v.x + q * v.y + r * v.z, d);
  }

  lemma Cancel(x: real, d: real)
    requires d != 0.0
    ensures x * d / d == x
  {
  }

  /** The normal matrix is the inverse transpose: transposed, it takes the matrix
      to the identity. */
  lemma NormalIsInverseTranspose(m: Affine)
    requires NormalMatrix(m).Some?
    ensures Product(Transpose(NormalMatrix(m).value.1), LinearPart(m)) == IDENTITY
  {
    var s := LinearPart(m);
    var d, c, t := Determinant(s), Cofactors(s), Transpose(s);
    CofactorColumns(s);
    var tc, n := Transpose(c), Transpose(DivideSquare(c, d));
    assert n.r0 == Divide(tc.r0, d) && n.r1 == Divide(tc.r1, d) && n.r2 == Divide(tc.r2, d);
    hide Dot, Cofactors, Determinant, Divide, Transpose;
    DividedDot(tc.r0, t.r0, d);
    DividedDot(tc.r0, t.r1, d);
    DividedDot(tc.r0, t.r2, d);
    DividedDot(tc.r1, t.r0, d);
    DividedDot(tc.r1, t.r1, d);
    DividedDot(tc.r1, t.r2, d);
    DividedDot(tc.r2, t.r0, d);
    DividedDot(tc.r2, t.r1, d);
    DividedDot(tc.r2, t.r2, d);
    DotCommutes(n, t);
    assert d / d == 1.0 && 0.0 / d == 0.0;
  }

  lemma DotCommutes(n: Square, t: Square)
    ensures Apply(t, n.r0) == Vec(Dot(n.r0, t.r0), Dot(n.r0, t.r1), Dot(n.r0, t.r2))
    ensures Apply(t, n.r1) == Vec(Dot(n.r1, t.r0), Dot(n.r1, t.r1), Dot(n.r1, t.r2))
    ensures Apply(t, n.r2) == Vec(Dot(n.r2, t.r0), Dot(n.r2, t.r1), Dot(n.r2, t.r2))
  {
  }

  /** `r (M v) = (r M) v` */
  lemma Adjoint(m: Square, r: Vec, v: Vec)
    ensures Dot(r, Apply(m, v)) == Dot(Apply(Transpose(m), r), v)
  {
    RowIdentity(r.x, r.y, r.z, v.x, v.y, v.z, m.r0.x, m.r0.y, m.r0.z, 0.0,
                m.r1.x, m.r1.y, m.r1.z, 0.0, m.r2.x, m.r2.y, m.r2.z, 0.0);
  }

  lemma ProductComposes(p: Square, q: Square, v: Vec)
    ensures Apply(Product(p, q), v) == Apply(p, Apply(q, v))
  {
    hide Dot;
    Adjoint(q, p.r0, v);
    Adjoint(q, p.r1, v);
    Adjoint(q, p.r2, v);
  }

  /** What it is for: a transformed normal keeps its inner product with every
      transformed direction, so tangents stay orthogonal to it. */
  lemma NormalsStayNormal(m: Affine, n: Vec, v: Vec)
    requires NormalMatrix(m).Some?
    ensures Dot(Apply(NormalMatrix(m).value.1, n), Apply(LinearPart(m), v)) == Dot(n, v)
  {
    var k, l := NormalMatrix(m).value.1, LinearPart(m);
    var t := Transpose(k);
    assert Transpose(t) == k;
    NormalIsInverseTranspose(m);
    Adjoint(t, n, Apply(l, v));
    ProductComposes(t, l, v);
    assert Apply(IDENTITY, v) == v;
  }

  // ----------------------------------------------------------- the scene

  /** A node; its four matrices have their twelve numbers. */
  datatype Node = Node(parent: Option<int>, children: seq<int>, mesh: Option<int>, materials: seq<int>, inheritMode: int,
                       toParent: Affine, toWorld: Affine, geometryToNode: Affine, geometryToWorld: Affine)

  type Nodes = map<int, Node>

  /** What is asked of a node's own links: only the root is without a parent, and
      the children listed are exactly the nodes that name it as parent. */
  ghost predicate Linked(nodes: Nodes, root: int, id: int)
    requires id in nodes
  {
    && (if id == root then nodes[id].parent == None
        else nodes[id].parent.Some? && nodes[id].parent.value in nodes)
    && NoDuplicates(nodes[id].children)
    && Elements(nodes[id].children) == Children(nodes, id)
  }

  function Children(nodes: Nodes, id: int): set<int> {
    set n | n in nodes && nodes[n].parent == Some(id)
  }

  /** What is asked of a node's matrices. */
  predicate Composed(nodes: Nodes, id: int)
    requires id in nodes
  {
    var node := nodes[id];
    && node.geometryToWorld == Multiply(node.toWorld, node.geometryToNode)
    && (node.parent.Some? && node.inheritMode == 0 ==>
          && node.parent.value in nodes
          && node.toWorld == Multiply(nodes[node.parent.value].toWorld, node.toParent))
  }

  /** Materials and mesh are among those listed. */
  predicate Refers(node: Node, materials: set<int>, meshes: set<int>) {
    && (forall k :: 0 <= k < |node.materials| ==> node.materials[k] in materials)
    && (node.mesh.Some? ==> node.mesh.value in meshes)
  }

  /** `k` steps of `cursor = nodes[cursor]["parent"]`; a cursor that is no node
      stays where it is. */
  function Ancestor(nodes: Nodes, cursor: Option<int>, k: nat): Option<int>
    decreases k
  {
    if k == 0 || cursor == None then cursor
    else if cursor.value !in nodes then cursor
    else Ancestor(nodes, nodes[cursor.value].parent, k - 1)
  }

  ghost predicate ChainEnds(nodes: Nodes, id: int) {
    exists k: nat :: Ancestor(nodes, Some(id), k) == None
  }

  /** A tree rooted at `root`. */
  ghost predicate Tree(nodes: Nodes, root: int) {
    && root in nodes
    && (forall id :: id in nodes ==> Linked(nodes, root, id))
    && (forall id :: id in nodes ==> exists k: nat :: Ancestor(nodes, Some(id), k) == Some(root))
  }

  lemma {:induction false} AncestorAdds(nodes: Nodes, cursor: Option<int>, j: nat, k: nat)
    ensures Ancestor(nodes, cursor, j + k) == Ancestor(nodes, Ancestor(nodes, cursor, j), k)
    decreases j
  {
    if j == 0 || cursor == None {
    } else if cursor.value !in nodes {
    } else {
      AncestorAdds(nodes, nodes[cursor.value].parent, j - 1, k);
    }
  }

  /** A chain that comes back to where it was never ends. */
  lemma {:induction false} CycleNeverEnds(nodes: Nodes, cursor: Option<int>, period: nat, k: nat)
    requires period > 0 && cursor.Some? && Ancestor(nodes, cursor, period) == cursor
    ensures Ancestor(nodes, cursor, k).Some?
    decreases k
  {
    if k < period {
      AncestorAdds(nodes, cursor, k, period - k);
    } else {
      AncestorAdds(nodes, cursor, period, k - period);
      CycleNeverEnds(nodes, cursor, period, k - period);
    }
  }

  /** Once some node on the chain returns to itself, or is no node, the chain has no end. */
  lemma RevisitNeverEnds(nodes: Nodes, id: int, j: nat, period: nat)
    requires period > 0
    requires var c := Ancestor(nodes, Some(id), j); c.Some? && Ancestor(nodes, c, period) == c
    ensures !ChainEnds(nodes, id)
  {
    var c := Ancestor(nodes, Some(id), j);
    forall k: nat ensures Ancestor(nodes, Some(id), k) != None {
      CycleNeverEnds(nodes, c, period, k);
      AncestorAdds(nodes, Some(id), j, k);
      AncestorAdds(nodes, Some(id), k, j);
    }
  }

  /** With every link checked, a chain that ends passes through the root last, and
      one that reaches the root ends. */
  lemma {:induction false} EndIsRoot(nodes: Nodes, root: int, id: int, k: nat) returns (j: nat)
    requires id in nodes && forall n :: n in nodes ==> Linked(nodes, root, n)
    requires Ancestor(nodes, Some(id), k) == None
    ensures j < k && Ancestor(nodes, Some(id), j) == Some(root)
    decreases k
  {
    if nodes[id].parent == None {
      j := 0;
    } else {
      var i := EndIsRoot(nodes, root, nodes[id].parent.value, k - 1);
      j := i + 1;
    }
  }

  lemma EndingIsReaching(nodes: Nodes, root: int)
    requires root in nodes && forall n :: n in nodes ==> Linked(nodes, root, n)
    ensures Tree(nodes, root) <==> forall id :: id in nodes ==> ChainEnds(nodes, id)
  {
    hide Children;
    if Tree(nodes, root) {
      forall id | id in nodes ensures ChainEnds(nodes, id) {
        var k: nat :| Ancestor(nodes, Some(id), k) == Some(root);
        AncestorAdds(nodes, Some(id), k, 1);
        assert Ancestor(nodes, Some(root), 1) == nodes[root].parent;
        assert Ancestor(nodes, Some(id), k + 1) == None;
      }
    }
    if forall id :: id in nodes ==> ChainEnds(nodes, id) {
      forall id | id in nodes ensures exists k: nat :: Ancestor(nodes, Some(id), k) == Some(root) {
        assert ChainEnds(nodes, id);
        var k: nat :| Ancestor(nodes, Some(id), k) == None;
        var j := EndIsRoot(nodes, root, id, k);
      }
    }
  }

  /** The inner loop over `visited` and `cursor`. */
  method ClimbToEnd(nodes: Nodes, id: int) returns (ok: bool)
    requires id in nodes
    ensures ok <==> ChainEnds(nodes, id)
  {
    var visited: set<int>, cursor := {}, Some(id);
    ghost var steps: nat := 0;
    while cursor != None
      invariant cursor == Ancestor(nodes, Some(id), steps)
      invariant visited <= nodes.Keys
      invariant forall v :: v in visited ==> exists j: nat :: j < steps && Ancestor(nodes, Some(id), j) == Some(v)
      decreases |nodes.Keys - visited|
    {
      var at := cursor.value;
      if at in visited {
        ghost var j: nat :| j < steps && Ancestor(nodes, Some(id), j) == Some(at);
        AncestorAdds(nodes, Some(id), j, steps - j);
        RevisitNeverEnds(nodes, id, j, steps - j);
        return false;
      }
      if cursor.value !in nodes {
        RevisitNeverEnds(nodes, id, steps, 1);
        return false;
      }
      AncestorAdds(nodes, Some(id), steps, 1);
      assert nodes.Keys - (visited + {cursor.value}) < nodes.Keys - visited by {
        assert cursor.value in nodes.Keys - visited;
      }
      SmallerSet(nodes.Keys - (visited + {cursor.value}), nodes.Keys - visited);
      visited := visited + {cursor.value};
      assert Ancestor(nodes, Some(id), steps) == cursor;
      steps := steps + 1;
      cursor := nodes[cursor.value].parent;
    }
    return true;
  }

  lemma {:induction false} SmallerSet<T>(a: set<T>, b: set<T>)
    requires a < b
    ensures |a| < |b|
    decreases a
  {
    if a == {} {
      assert b != {};
    } else {
      var x :| x in a;
      SmallerSet(a - {x}, b - {x});
    }
  }

  /** What `for node in nodes.values()` asks of one node besides its links. */
  predicate NodeOk(nodes: Nodes, id: int, materials: set<int>, meshes: set<int>)
    requires id in nodes
  {
    Refers(nodes[id], materials, meshes) && Composed(nodes, id)
  }

  /** The loop over the nodes, after the check of the root. */
  method CheckNodes(nodes: Nodes, ids: seq<int>, root: int, materials: set<int>, meshes: set<int>) returns (ok: bool)
    requires Elements(ids) == nodes.Keys
    ensures ok <==> Tree(nodes, root) && forall id :: id in nodes ==> NodeOk(nodes, id, materials, meshes)
  {
    hide Children, NodeOk;
    if root !in nodes || nodes[root].parent != None {
      return false;
    }
    var i := 0;
    while i < |ids|
      invariant 0 <= i <= |ids|
      invariant forall id :: id in ids[..i] ==>
        id in nodes && Linked(nodes, root, id) && ChainEnds(nodes, id) && NodeOk(nodes, id, materials, meshes)
    {
      var id := ids[i];
      assert id in Elements(ids);
      var linked := CheckLinks(nodes, root, id);
      if !linked {
        return false;
      }
      var ends := ClimbToEnd(nodes, id);
      if !ends {
        NoEndNoTree(nodes, root, id);
        return false;
      }
      if !NodeOk(nodes, id, materials, meshes) {
        return false;
      }
      i := i + 1;
    }
    assert forall id :: id in nodes ==> id in Elements(ids) && id in ids[..i];
    EndingIsReaching(nodes, root);
    ok := true;
  }

  lemma NoEndNoTree(nodes: Nodes, root: int, id: int)
    requires id in nodes && !ChainEnds(nodes, id)
    ensures !Tree(nodes, root)
  {
    if Tree(nodes, root) {
      EndingIsReaching(nodes, root);
    }
  }

  method CheckLinks(nodes: Nodes, root: int, id: int) returns (ok: bool)
    requires id in nodes
    ensures ok <==> Linked(nodes, root, id)
  {
    var node := nodes[id];
    ok := if id == root then node.parent == None else node.parent.Some? && node.parent.value in nodes;
    var distinct := set c | c in node.children;
    DistinctSize(node.children);
    ok := ok && |node.children| == |distinct| && distinct == Children(nodes, id);
  }

  /** `len(items) == len(set(items))` says that nothing is repeated. */
  lemma {:induction false} DistinctSize(s: seq<int>)
    ensures |Elements(s)| <= |s|
    ensures |s| == |Elements(s)| <==> NoDuplicates(s)
  {
    if s != [] {
      var k := |s| - 1;
      DistinctSize(s[..k]);
      assert s == s[..k] + [s[k]];
      assert Elements(s) == Elements(s[..k]) + {s[k]};
      if s[k] in s[..k] {
        assert Elements(s) == Elements(s[..k]);
        assert exists i :: 0 <= i < k && s[i] == s[k];
      } else {
        assert forall i :: 0 <= i < k ==> s[i] == s[..k][i];
      }
    }
  }

  /** `indexed`: the entries by identifier; None for a negative or repeated one. */
  method Indexed(items: seq<(int, Node)>) returns (r: Option<Nodes>)
    ensures r.Some? <==>
      && (forall i :: 0 <= i < |items| ==> items[i].0 >= 0)
      && (forall i, j :: 0 <= i < j < |items| ==> items[i].0 != items[j].0)
    ensures r.Some? ==>
      && (forall i :: 0 <= i < |items| ==> items[i].0 in r.value && r.value[items[i].0] == items[i].1)
      && (forall n :: n in r.value ==> exists i :: 0 <= i < |items| && items[i].0 == n)
  {
    var nodes: Nodes := map[];
    var k := 0;
    while k < |items|
      invariant 0 <= k <= |items|
      invariant forall i :: 0 <= i < k ==> items[i].0 >= 0 && items[i].0 in nodes && nodes[items[i].0] == items[i].1
      invariant forall i, j :: 0 <= i < j < k ==> items[i].0 != items[j].0
      invariant forall n :: n in nodes ==> exists i :: 0 <= i < k && items[i].0 == n
    {
      var (id, node) := items[k];
      if id < 0 || id in nodes {
        return None;
      }
      nodes := nodes[id := node];
      k := k + 1;
    }
    return Some(nodes);
  }

  // ------------------------------------------------ what acceptance means

  /** The child links listed by some nodes. */
  function ChildLinks(nodes: Nodes, ids: seq<int>): nat
    requires forall id :: id in ids ==> id in nodes
  {
    if ids == [] then 0 else
      var k := |ids| - 1;
      var last := ids[k];
      assert last in ids;
      ChildLinks(nodes, ids[..k]) + |nodes[last].children|
  }

  function Below(nodes: Nodes, ids: seq<int>): set<int> {
    set n | n in nodes && nodes[n].parent.Some? && nodes[n].parent.value in ids
  }

  lemma {:induction false} LinksAreNodesBelow(nodes: Nodes, root: int, ids: seq<int>)
    requires forall n :: n in nodes ==> Linked(nodes, root, n)
    requires NoDuplicates(ids) && forall id :: id in ids ==> id in nodes
    ensures ChildLinks(nodes, ids) == |Below(nodes, ids)|
  {
    if ids == [] {
      assert Below(nodes, ids) == {};
    } else {
      var k := |ids| - 1;
      var rest, last := ids[..k], ids[k];
      assert forall i :: 0 <= i < k ==> rest[i] == ids[i];
      LinksAreNodesBelow(nodes, root, rest);
      assert Linked(nodes, root, last);
      DistinctSize(nodes[last].children);
      assert last !in rest;
      assert ids == rest + [last];
      assert Below(nodes, ids) == Below(nodes, rest) + Children(nodes, last);
      assert Below(nodes, rest) !! Children(nodes, last);
    }
  }

  /** A tree lists one child link for every node but the root. */
  lemma TreeHasOneLinkLess(nodes: Nodes, root: int, ids: seq<int>)
    requires Tree(nodes, root) && Elements(ids) == nodes.Keys && NoDuplicates(ids)
    ensures ChildLinks(nodes, ids) == |nodes| - 1
  {
    assert forall id :: id in ids ==> id in Elements(ids);
    LinksAreNodesBelow(nodes, root, ids);
    assert forall id :: id in nodes ==> id in Elements(ids);
    assert Below(nodes, ids) == nodes.Keys - {root} by {
      forall n | n in nodes ensures n in Below(nodes, ids) <==> n != root {
        assert Linked(nodes, root, n);
      }
    }
  }

  /** A point of a node's space, taken up `k` parents by the node-to-parent matrices. */
  function Climb(nodes: Nodes, id: int, k: nat, p: Vec): Vec
    decreases k
  {
    if k == 0 || id !in nodes || nodes[id].parent == None then p
    else Climb(nodes, nodes[id].parent.value, k - 1, Transform(nodes[id].toParent, p))
  }

  /** With normal inheritance throughout, a node's matrix to the world is the
      root's after the node-to-parent matrices along its path. */
  lemma {:induction false} WorldIsThePath(nodes: Nodes, root: int, id: int, k: nat, p: Vec)
    requires Tree(nodes, root)
    requires forall n :: n in nodes ==> Composed(nodes, n) && nodes[n].inheritMode == 0
    requires id in nodes && Ancestor(nodes, Some(id), k) == Some(root)
    ensures Transform(nodes[id].toWorld, p) == Transform(nodes[root].toWorld, Climb(nodes, id, k, p))
    decreases k
  {
    hide Transform, Multiply, Children;
    if k > 0 {
      assert Linked(nodes, root, id);
      if nodes[id].parent.Some? {
        assert Composed(nodes, id);
        var up := nodes[id].parent.value;
        MultiplyComposes(nodes[up].toWorld, nodes[id].toParent, p);
        WorldIsThePath(nodes, root, up, k - 1, Transform(nodes[id].toParent, p));
      }
    }
  }

  // ------------------------------------------------------ axis conversion

  /** An axis number: `axis // 2` picks the coordinate, an odd number its negation. */
  type Axis = a: int | 0 <= a < 6

  function Sign(axis: Axis): real {
    if axis % 2 == 1 then -1.0 else 1.0
  }

  function Coordinate(p: Vec, i: int): real {
    if i == 0 then p.x else if i == 1 then p.y else p.z
  }

  /** How far a point lies along an axis. */
  function Along(p: Vec, axis: Axis): real {
    if axis % 2 == 1 then -Coordinate(p, axis / 2) else Coordinate(p, axis / 2)
  }

  /** Three axes on three different coordinates. */
  predicate Basis(axes: seq<Axis>) {
    |axes| == 3 && axes[0] / 2 != axes[1] / 2 && axes[1] / 2 != axes[2] / 2 && axes[0] / 2 != axes[2] / 2
  }

  /** right, up, front: +Y, +Z, -X */
  const TARGET: seq<Axis> := [2, 4, 1]

  function Scaled(p: Vec, axis: Axis, scale: real): real {
    Along(p, axis) * scale
  }

  /** `q` lies along each of `to` as `p` lies along the same one of `from`, scaled. */
  predicate Converts(from: seq<Axis>, to: seq<Axis>, scale: real, p: Vec, q: Vec)
    requires Basis(from) && Basis(to)
  {
    forall j :: 0 <= j < 3 ==> Along(q, to[j]) == Scaled(p, from[j], scale)
  }

  function Squared(a: real): real {
    a * a
  }

  function DistanceSquared(p: Vec, q: Vec): real {
    Squared(p.x - q.x) + Squared(p.y - q.y) + Squared(p.z - q.z)
  }

  lemma Negated(a: real, b: real)
    ensures Squared(-a - -b) == Squared(a - b)
  {
  }

  lemma AxisSquared(p: Vec, q: Vec, axis: Axis)
    ensures Squared(Along(p, axis) - Along(q, axis)) == Squared(Coordinate(p, axis / 2) - Coordinate(q, axis / 2))
  {
    Negated(Coordinate(p, axis / 2), Coordinate(q, axis / 2));
    hide Squared;
  }

  /** Distances may be measured along any basis. */
  lemma DistanceAlong(axes: seq<Axis>, p: Vec, q: Vec)
    requires Basis(axes)
    ensures DistanceSquared(p, q) ==
      Squared(Along(p, axes[0]) - Along(q, axes[0])) + Squared(Along(p, axes[1]) - Along(q, axes[1]))
      + Squared(Along(p, axes[2]) - Along(q, axes[2]))
  {
    AxisSquared(p, q, axes[0]);
    AxisSquared(p, q, axes[1]);
    AxisSquared(p, q, axes[2]);
    hide Along, Squared;
    assert axes[0] / 2 in {0, 1, 2} && axes[1] / 2 in {0, 1, 2} && axes[2] / 2 in {0, 1, 2};
  }

  lemma ScaledSquare(a: real, b: real, s: real)
    ensures Squared(a * s - b * s) == Squared(s) * Squared(a - b)
  {
  }

  /** The conversion is a similarity: every squared distance grows by the scale squared. */
  lemma ConversionScalesDistances(from: seq<Axis>, to: seq<Axis>, scale: real, p: Vec, q: Vec, p': Vec, q': Vec)
    requires Basis(from) && Basis(to)
    requires Converts(from, to, scale, p, p') && Converts(from, to, scale, q, q')
    ensures DistanceSquared(p', q') == Squared(scale) * DistanceSquared(p, q)
  {
    hide DistanceSquared, Along, Squared, Scaled;
    DistanceAlong(from, p, q);
    DistanceAlong(to, p', q');
    ScaledAxis(from[0], scale, p, q);
    ScaledAxis(from[1], scale, p, q);
    ScaledAxis(from[2], scale, p, q);
    Distributes(Squared(scale), Squared(Along(p, from[0]) - Along(q, from[0])),
                Squared(Along(p, from[1]) - Along(q, from[1])), Squared(Along(p, from[2]) - Along(q, from[2])),
                DistanceSquared(p, q));
  }

  lemma ScaledAxis(axis: Axis, scale: real, p: Vec, q: Vec)
    ensures Squared(Scaled(p, axis, scale) - Scaled(q, axis, scale))
      == Squared(scale) * Squared(Along(p, axis) - Along(q, axis))
  {
    hide Along;
    ScaledSquare(Along(p, axis), Along(q, axis), scale);
  }

  lemma Distributes(s: real, a: real, b: real, c: real, sum: real)
    requires sum == a + b + c
    ensures s * a + s * b + s * c == s * sum
  {
  }

  lemma Unscale(a: real, b: real, s: real)
    requires s > 0.0 && b == a * s
    ensures a == b * (1.0 / s)
  {
    var r := 1.0 / s;
    assert r * s == 1.0;
    assert b * r == a * (s * r);
  }

  /** It is undone by converting back with the scale inverted, and both images and
      preimages are unique. */
  lemma ConversionInverts(from: seq<Axis>, to: seq<Axis>, scale: real, p: Vec, q: Vec)
    requires Basis(from) && Basis(to) && scale > 0.0
    requires Converts(from, to, scale, p, q)
    ensures Converts(to, from, 1.0 / scale, q, p)
    ensures forall q' :: Converts(from, to, scale, p, q') ==> q' == q
    ensures forall p' :: Converts(from, to, scale, p', q) ==> p' == p
  {
    hide Along;
    forall j | 0 <= j < 3 ensures Along(p, from[j]) == Along(q, to[j]) * (1.0 / scale) {
      Unscale(Along(p, from[j]), Along(q, to[j]), scale);
    }
    forall q' | Converts(from, to, scale, p, q') ensures q' == q {
      SameAlong(to, q', q);
    }
    forall p' | Converts(from, to, scale, p', q) ensures p' == p {
      forall j | 0 <= j < 3 ensures Along(p', from[j]) == Along(p, from[j]) {
        Unscale(Along(p', from[j]), Along(q, to[j]), scale);
      }
      SameAlong(from, p', p);
    }
  }

  lemma SameAlong(axes: seq<Axis>, p: Vec, q: Vec)
    requires Basis(axes) && forall j :: 0 <= j < 3 ==> Along(p, axes[j]) == Along(q, axes[j])
    ensures p == q
  {
    assert Along(p, axes[0]) == Along(q, axes[0]);
    assert Along(p, axes[1]) == Along(q, axes[1]);
    assert Along(p, axes[2]) == Along(q, axes[2]);
    SameCoordinate(axes[0], p, q);
    SameCoordinate(axes[1], p, q);
    SameCoordinate(axes[2], p, q);
    hide Along;
    assert axes[0] / 2 in {0, 1, 2} && axes[1] / 2 in {0, 1, 2} && axes[2] / 2 in {0, 1, 2};
  }

  lemma SameCoordinate(axis: Axis, p: Vec, q: Vec)
    requires Along(p, axis) == Along(q, axis)
    ensures Coordinate(p, axis / 2) == Coordinate(q, axis / 2)
  {
  }

  /** What is stored for one axis. */
  function Component(before: Vec, axis: Axis, target: Axis, scale: real): real {
    Coordinate(before, axis / 2) * Sign(axis) * Sign(target) * scale
  }

  /** `expected`, filled coordinate by coordinate. */
  method ConvertPoint(axes: seq<Axis>, unit: real, before: Vec) returns (expected: array<real>)
    requires Basis(axes)
    ensures fresh(expected) && expected.Length == 3
    ensures Converts(axes, [2, 4, 1], unit / 0.01, before, Vec(expected[0], expected[1], expected[2]))
  {
    hide Along, Component, Scaled;
    expected := new real[3](_ => 0.0);
    var scale := unit / 0.01;
    var j := 0;
    while j < 3
      invariant 0 <= j <= 3
      invariant forall i :: 0 <= i < j ==> Filled(expected[..], TARGET[i], Scaled(before, axes[i], scale))
    {
      var axis, target := axes[j], TARGET[j];
      expected[target / 2] := Component(before, axis, target, scale);
      Signed(before, axis, target, scale);
      j := j + 1;
    }
    AlongFilled(expected[..], TARGET[0], Scaled(before, axes[0], scale));
    AlongFilled(expected[..], TARGET[1], Scaled(before, axes[1], scale));
    AlongFilled(expected[..], TARGET[2], Scaled(before, axes[2], scale));
  }

  /** The list holds `value` along the axis. */
  predicate Filled(s: seq<real>, axis: Axis, value: real)
    requires |s| == 3
  {
    s[axis / 2] == if axis % 2 == 1 then -value else value
  }

  lemma AlongFilled(s: seq<real>, axis: Axis, value: real)
    requires |s| == 3 && Filled(s, axis, value)
    ensures Along(Vec(s[0], s[1], s[2]), axis) == value
  {
  }

  lemma Signed(p: Vec, axis: Axis, target: Axis, s: real)
    ensures Component(p, axis, target, s) == if target % 2 == 1 then -Scaled(p, axis, s) else Scaled(p, axis, s)
  {
  }

  /** The position loop of `compare_spaces`: pairs of positions, as far as both lists go. */
  method ComparePositions(axes: seq<Axis>, unit: real, before: seq<Vec>, after: seq<Vec>) returns (ok: bool)
    requires Basis(axes) && unit > 0.0
    ensures ok <==> forall k :: 0 <= k < |before| && k < |after| ==>
                                  Converts(axes, [2, 4, 1], unit / 0.01, before[k], after[k])
  {
    hide Converts;
    var k := 0;
    while k < |before| && k < |after|
      invariant 0 <= k <= |before| && k <= |after|
      invariant forall j :: 0 <= j < k ==> Converts(axes, TARGET, unit / 0.01, before[j], after[j])
    {
      var expected := ConvertPoint(axes, unit, before[k]);
      var point := Vec(expected[0], expected[1], expected[2]);
      ConversionInverts(axes, TARGET, unit / 0.01, before[k], point);
      if after[k] != point {
        return false;
      }
      k := k + 1;
    }
    return true;
  }

  /** The coordinate along +X, -X, +Y, -Y, +Z or -Z, scaled. */
  function Toward(p: Vec, axis: Axis, scale: real): real {
    match axis
    case 0 => p.x * scale
    case 1 => -p.x * scale
    case 2 => p.y * scale
    case 3 => -p.y * scale
    case 4 => p.z * scale
    case _ => -p.z * scale
  }

  /** The coordinates converted to right +Y, up +Z and front -X. */
  lemma ConvertsExactly(from: seq<Axis>, scale: real, p: Vec, q: Vec)
    requires Basis(from)
    ensures Converts(from, [2, 4, 1], scale, p, q) <==>
      q.y == Toward(p, from[0], scale) && q.z == Toward(p, from[1], scale) && -q.x == Toward(p, from[2], scale)
  {
    AlongTarget(q);
    ScaledToward(p, from[0], scale);
    ScaledToward(p, from[1], scale);
    ScaledToward(p, from[2], scale);
    hide Along, Toward, Scaled, Converts;
    var to: seq<Axis> := [2, 4, 1];
    ThreeAxes(from, to, scale, p, q);
    hide *;
    assert to[0] == 2 && to[1] == 4 && to[2] == 1;
  }

  lemma ThreeAxes(from: seq<Axis>, to: seq<Axis>, scale: real, p: Vec, q: Vec)
    requires Basis(from) && Basis(to)
    ensures Converts(from, to, scale, p, q) <==>
      && Along(q, to[0]) == Scaled(p, from[0], scale) && Along(q, to[1]) == Scaled(p, from[1], scale)
      && Along(q, to[2]) == Scaled(p, from[2], scale)
  {
    hide Along, Scaled;
  }

  lemma AlongTarget(q: Vec)
    ensures Along(q, 2) == q.y && Along(q, 4) == q.z && Along(q, 1) == -q.x
  {
  }

  lemma ScaledToward(p: Vec, axis: Axis, scale: real)
    ensures Scaled(p, axis, scale) == Toward(p, axis, scale)
  {
  }

  // ------------------------------------------- what the checks decide

  /** A matrix's last column is where the origin goes, and each of the others where
      one unit along an axis takes it from there; in between it is linear. */
  lemma TransformExactly(m: Affine, p: Vec)
    ensures Transform(m, Vec(0.0, 0.0, 0.0)) == Vec(m.r0.t, m.r1.t, m.r2.t)
    ensures Transform(m, Vec(1.0, 0.0, 0.0)) == Vec(m.r0.x + m.r0.t, m.r1.x + m.r1.t, m.r2.x + m.r2.t)
    ensures Transform(m, Vec(0.0, 1.0, 0.0)) == Vec(m.r0.y + m.r0.t, m.r1.y + m.r1.t, m.r2.y + m.r2.t)
    ensures Transform(m, Vec(0.0, 0.0, 1.0)) == Vec(m.r0.z + m.r0.t, m.r1.z + m.r1.t, m.r2.z + m.r2.t)
    ensures Transform(m, p) == Vec(p.x * m.r0.x + p.y * m.r0.y + p.z * m.r0.z + m.r0.t,
                                   p.x * m.r1.x + p.y * m.r1.y + p.z * m.r1.z + m.r1.t,
                                   p.x * m.r2.x + p.y * m.r2.y + p.z * m.r2.z + m.r2.t)
  {
  }

  /** Two matrices that transform every point alike are equal. */
  lemma SameTransform(a: Affine, b: Affine)
    ensures a == b <==> forall p :: Transform(a, p) == Transform(b, p)
  {
    if forall p :: Transform(a, p) == Transform(b, p) {
      var o, x, y, z := Vec(0.0, 0.0, 0.0), Vec(1.0, 0.0, 0.0), Vec(0.0, 1.0, 0.0), Vec(0.0, 0.0, 1.0);
      assert Transform(a, o) == Transform(b, o) && Transform(a, x) == Transform(b, x);
      assert Transform(a, y) == Transform(b, y) && Transform(a, z) == Transform(b, z);
      TransformExactly(a, o);
      TransformExactly(b, o);
      hide Transform;
    }
  }

  /** The transformation by `m` is the one by `b` followed by the one by `a`. */
  ghost predicate IsComposition(m: Affine, a: Affine, b: Affine) {
    forall p :: Transform(m, p) == Transform(a, Transform(b, p))
  }

  lemma ProductExactly(m: Affine, a: Affine, b: Affine)
    ensures m == Multiply(a, b) <==> IsComposition(m, a, b)
  {
    hide Transform, Multiply;
    SameTransform(m, Multiply(a, b));
    forall p
      ensures Transform(Multiply(a, b), p) == Transform(a, Transform(b, p))
    {
      MultiplyComposes(a, b, p);
    }
  }

  /** What is asked of a node besides its links: its materials and mesh are listed,
      its geometry goes to the world through the node, and under normal inheritance
      the node goes to the world through its parent. */
  lemma NodeExactly(nodes: Nodes, id: int, materials: set<int>, meshes: set<int>)
    requires id in nodes
    ensures NodeOk(nodes, id, materials, meshes) <==>
      var node := nodes[id];
      && (forall m :: m in node.materials ==> m in materials) && (node.mesh == None || node.mesh.value in meshes)
      && IsComposition(node.geometryToWorld, node.toWorld, node.geometryToNode)
      && (node.inheritMode == 0 && node.parent != None ==>
            && node.parent.value in nodes
            && IsComposition(node.toWorld, nodes[node.parent.value].toWorld, node.toParent))
  {
    hide IsComposition, Multiply;
    var node := nodes[id];
    ProductExactly(node.geometryToWorld, node.toWorld, node.geometryToNode);
    if node.parent.Some? && node.parent.value in nodes {
      ProductExactly(node.toWorld, nodes[node.parent.value].toWorld, node.toParent);
    }
    if forall m :: m in node.materials ==> m in materials {
      forall k | 0 <= k < |node.materials|
        ensures node.materials[k] in materials
      {
        assert node.materials[k] in node.materials;
      }
    }
  }

  /** A tree, in terms of the nodes' own fields. */
  lemma TreeExactly(nodes: Nodes, root: int)
    ensures Tree(nodes, root) <==>
      && root in nodes && nodes[root].parent == None
      && (forall id :: id in nodes && id != root ==> nodes[id].parent.Some? && nodes[id].parent.value in nodes)
      && (forall id :: id in nodes ==> ChildrenListed(nodes, id))
      && forall id :: id in nodes ==> Reaches(nodes, id, root)
  {
    assert forall id :: id in nodes ==>
      (Reaches(nodes, id, root) <==> exists k: nat :: Ancestor(nodes, Some(id), k) == Some(root));
    forall id | id in nodes
      ensures Linked(nodes, root, id) <==>
        && ChildrenListed(nodes, id)
        && (if id == root then nodes[id].parent == None else nodes[id].parent.Some? && nodes[id].parent.value in nodes)
    {
      LinkedExactly(nodes, root, id);
    }
    hide Linked, ChildrenListed, Reaches;
  }

  /** Every child is listed once, and nothing else is. */
  ghost predicate ChildrenListed(nodes: Nodes, id: int)
    requires id in nodes
  {
    var children := nodes[id].children;
    && (forall i, j :: 0 <= i < j < |children| ==> children[i] != children[j])
    && forall c :: c in children <==> c in nodes && nodes[c].parent == Some(id)
  }

  ghost predicate Reaches(nodes: Nodes, id: int, root: int) {
    exists k: nat :: Ancestor(nodes, Some(id), k) == Some(root)
  }

  lemma LinkedExactly(nodes: Nodes, root: int, id: int)
    requires id in nodes
    ensures Linked(nodes, root, id) <==>
      && ChildrenListed(nodes, id)
      && (if id == root then nodes[id].parent == None else nodes[id].parent.Some? && nodes[id].parent.value in nodes)
  {
    var children := nodes[id].children;
    assert forall c :: c in children <==> c in Elements(children);
    if forall c :: c in children <==> c in nodes && nodes[c].parent == Some(id) {
      forall c
        ensures c in Elements(children) <==> c in Children(nodes, id)
      {
      }
      assert Elements(children) == Children(nodes, id);
    }
    if Elements(children) == Children(nodes, id) {
      forall c
        ensures c in children <==> c in nodes && nodes[c].parent == Some(id)
      {
        assert c in Elements(children) <==> c in Children(nodes, id);
      }
    }
  }

  lemma SarrusRule(a: real, b: real, c: real, d: real, e: real, f: real, g: real, h: real, i: real)
    ensures a * Minor(e, f, h, i) + b * -Minor(d, f, g, i) + c * Minor(d, e, g, h)
      == a * e * i + b * f * g + c * d * h - c * e * g - b * d * i - a * f * h
  {
    assert a * Minor(e, f, h, i) == a * e * i - a * f * h;
    assert b * -Minor(d, f, g, i) == b * f * g - b * d * i;
    assert c * Minor(d, e, g, h) == c * d * h - c * e * g;
  }

  /** Sum of the products down the diagonals, less those of the others. */
  function Sarrus(m: Affine): real {
    var (a, b, c) := (m.r0, m.r1, m.r2);
    a.x * b.y * c.z + a.y * b.z * c.x + a.z * b.x * c.y - a.z * b.y * c.x - a.y * b.x * c.z - a.x * b.z * c.y
  }

  lemma DeterminantIsSarrus(m: Affine)
    ensures Determinant(LinearPart(m)) == Sarrus(m)
  {
    SarrusRule(m.r0.x, m.r0.y, m.r0.z, m.r1.x, m.r1.y, m.r1.z, m.r2.x, m.r2.y, m.r2.z);
    hide Minor;
  }

  /** The determinant, by the rule of Sarrus; a matrix is refused exactly when it is zero. */
  lemma DeterminantExactly(m: Affine)
    ensures NormalMatrix(m).None? <==> Sarrus(m) == 0.0
    ensures NormalMatrix(m).Some? ==> NormalMatrix(m).value.0 == Sarrus(m)
  {
    hide Determinant, Sarrus, Cofactors, DivideSquare;
    DeterminantIsSarrus(m);
  }
}
