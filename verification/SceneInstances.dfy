/** check-ufbx-fbx.py: meshes, and their instances in the world. */
module SceneInstances {
  import opened Wrappers
  import opened SceneGeometry

  // -------------------------------------------------------------- meshes

  datatype Corner = Corner(vertex: int, normal: Vec)

  /** `slot` is the material slot, or -1. */
  datatype Triangle = Triangle(sourceFace: int, slot: int, corners: seq<Corner>)

  datatype Mesh = Mesh(positions: seq<Vec>, faceCount: int, triangles: seq<Triangle>)

  /** `math.hypot(*v) == 1` */
  predicate IsUnit(v: Vec) {
    Dot(v, v) == 1.0
  }

  predicate TriangleOk(mesh: Mesh, t: Triangle) {
    && 0 <= t.sourceFace < mesh.faceCount && t.slot >= -1 && |t.corners| == 3
    && (forall k :: 0 <= k < 3 ==> 0 <= t.corners[k].vertex < |mesh.positions| && IsUnit(t.corners[k].normal))
    && t.corners[0].vertex != t.corners[1].vertex && t.corners[1].vertex != t.corners[2].vertex
    && t.corners[0].vertex != t.corners[2].vertex
  }

  predicate MeshOk(mesh: Mesh) {
    && mesh.positions != [] && mesh.triangles != [] && mesh.faceCount >= 1
    && forall t :: 0 <= t < |mesh.triangles| ==> TriangleOk(mesh, mesh.triangles[t])
  }

  method CheckTriangle(mesh: Mesh, t: Triangle) returns (ok: bool)
    ensures ok <==> TriangleOk(mesh, t)
  {
    hide IsUnit;
    if !(0 <= t.sourceFace < mesh.faceCount) || t.slot < -1 || |t.corners| != 3 {
      return false;
    }
    var a, b, c := t.corners[0].vertex, t.corners[1].vertex, t.corners[2].vertex;
    var indices := {a, b, c};
    ThreeDistinct(a, b, c);
    if |indices| != 3 {
      return false;
    }
    for k := 0 to 3
      invariant forall j :: 0 <= j < k ==> 0 <= t.corners[j].vertex < |mesh.positions| && IsUnit(t.corners[j].normal)
    {
      if !(0 <= t.corners[k].vertex < |mesh.positions|) || !IsUnit(t.corners[k].normal) {
        return false;
      }
    }
    return true;
  }

  lemma ThreeDistinct(a: int, b: int, c: int)
    ensures |{a, b, c}| == 3 <==> a != b && b != c && a != c
  {
    if a == b {
      assert {a, b, c} == {a, c};
    } else if b == c {
      assert {a, b, c} == {a, b};
    } else if a == c {
      assert {a, b, c} == {a, b};
    }
  }

  /** One pass of `for mesh in meshes.values()`. */
  method CheckMesh(mesh: Mesh) returns (ok: bool)
    ensures ok <==> MeshOk(mesh)
  {
    hide TriangleOk;
    if mesh.positions == [] || mesh.triangles == [] || mesh.faceCount < 1 {
      return false;
    }
    for t := 0 to |mesh.triangles|
      invariant forall j :: 0 <= j < t ==> TriangleOk(mesh, mesh.triangles[j])
    {
      var accepted := CheckTriangle(mesh, mesh.triangles[t]);
      if !accepted {
        return false;
      }
    }
    return true;
  }

  datatype Instance = Instance(
    node: int, mesh: Option<int>, positions: seq<Vec>, lower: Vec, upper: Vec, determinant: real,
    normals: seq<Vec>, materials: seq<Option<int>>)

  function Minus(a: Vec, b: Vec): Vec {
    Vec(a.x - b.x, a.y - b.y, a.z - b.z)
  }

  function Cross(u: Vec, v: Vec): Vec {
    Vec(u.y * v.z - u.z * v.y, u.z * v.x - u.x * v.z, u.x * v.y - u.y * v.x)
  }

  function Times(v: Vec, s: real): Vec {
    Vec(v.x * s, v.y * s, v.z * s)
  }

  /** `actual` is `expected` divided by its length: see `NormalizedByLength`. */
  predicate Normalized(expected: Vec, actual: Vec) {
    IsUnit(actual) && Dot(actual, expected) > 0.0 && expected == Times(actual, Dot(actual, expected))
  }

  /** One coordinate of `bounds_world`: the least and greatest over the points. */
  predicate Bounds(points: seq<Vec>, axis: int, low: real, high: real) {
    && (forall k :: 0 <= k < |points| ==> low <= Coordinate(points[k], axis) <= high)
    && (exists k :: 0 <= k < |points| && Coordinate(points[k], axis) == low)
    && exists k :: 0 <= k < |points| && Coordinate(points[k], axis) == high
  }

  /** The material a slot selects, if the node's list fits it. */
  predicate MaterialOk(node: Node, slot: int, material: Option<int>) {
    if slot >= 0 then slot < |node.materials| && material == Some(node.materials[slot])
    else node.materials == [] && material == None
  }

  /** World normals `n[0..3]` and material of one triangle with world points `points`. */
  predicate WorldTriangle(node: Node, normal: Square, t: Triangle, points: seq<Vec>, n: seq<Vec>, material: Option<int>)
    requires |t.corners| == 3 && |n| == 3
    requires forall k :: 0 <= k < 3 ==> 0 <= t.corners[k].vertex < |points|
  {
    var a, b, c := points[t.corners[0].vertex], points[t.corners[1].vertex], points[t.corners[2].vertex];
    var area := Cross(Minus(b, a), Minus(c, a));
    && MaterialOk(node, t.slot, material)
    && Dot(area, area) > 0.0
    && forall k :: 0 <= k < 3 ==> Normalized(Apply(normal, t.corners[k].normal), n[k])
  }

  /** World normals of triangle `t`. */
  function NormalsOf(instance: Instance, t: nat): seq<Vec>
    requires 3 * t + 3 <= |instance.normals|
  {
    instance.normals[3 * t..3 * t + 3]
  }

  /** Everything asked of one instance of a valid mesh. */
  predicate InstanceOk(nodes: Nodes, meshes: map<int, Mesh>, instance: Instance)
    requires forall m :: m in meshes ==> MeshOk(meshes[m])
  {
    && instance.node in nodes
    && var node := nodes[instance.node];
    && instance.mesh == node.mesh && instance.mesh.Some?
    && var m := instance.mesh.value;
    && m in meshes
    && var mesh := meshes[m];
    && |instance.positions| == |mesh.positions|
    && (forall i :: 0 <= i < |mesh.positions| ==>
          instance.positions[i] == Transform(node.geometryToWorld, mesh.positions[i]))
    && (forall axis :: 0 <= axis < 3 ==>
          Bounds(instance.positions, axis, Coordinate(instance.lower, axis), Coordinate(instance.upper, axis)))
    && NormalMatrix(node.geometryToWorld).Some? && instance.determinant == NormalMatrix(node.geometryToWorld).value.0
    && |instance.normals| == 3 * |mesh.triangles| && |instance.materials| == |mesh.triangles|
    && forall t :: 0 <= t < |mesh.triangles| ==> TriangleInWorld(node, mesh, instance, t)
  }

  predicate TriangleInWorld(node: Node, mesh: Mesh, instance: Instance, t: nat)
    requires MeshOk(mesh) && |instance.positions| == |mesh.positions| && t < |mesh.triangles|
    requires |instance.normals| == 3 * |mesh.triangles| && |instance.materials| == |mesh.triangles|
    requires NormalMatrix(node.geometryToWorld).Some?
  {
    assert TriangleOk(mesh, mesh.triangles[t]);
    WorldTriangle(node, NormalMatrix(node.geometryToWorld).value.1, mesh.triangles[t], instance.positions,
                  NormalsOf(instance, t), instance.materials[t])
  }

  /** `[op(point[i] for point in points)]` for one coordinate. */
  method LeastAndGreatest(points: seq<Vec>, axis: int) returns (low: real, high: real)
    requires points != []
    ensures Bounds(points, axis, low, high)
    ensures forall l, h :: Bounds(points, axis, l, h) ==> l == low && h == high
  {
    hide Coordinate;
    low, high := Coordinate(points[0], axis), Coordinate(points[0], axis);
    for k := 1 to |points|
      invariant forall j :: 0 <= j < k ==> low <= Coordinate(points[j], axis) <= high
      invariant exists j :: 0 <= j < k && Coordinate(points[j], axis) == low
      invariant exists j :: 0 <= j < k && Coordinate(points[j], axis) == high
    {
      var x := Coordinate(points[k], axis);
      if x < low {
        low := x;
      }
      if high < x {
        high := x;
      }
    }
  }

  method CheckBounds(points: seq<Vec>, lower: Vec, upper: Vec) returns (ok: bool)
    requires points != []
    ensures ok <==> forall axis :: 0 <= axis < 3 ==> Bounds(points, axis, Coordinate(lower, axis), Coordinate(upper, axis))
  {
    hide Bounds, Coordinate;
    var axis := 0;
    while axis < 3
      invariant 0 <= axis <= 3
      invariant forall i :: 0 <= i < axis ==> Bounds(points, i, Coordinate(lower, i), Coordinate(upper, i))
    {
      var low, high := LeastAndGreatest(points, axis);
      if Coordinate(lower, axis) != low || Coordinate(upper, axis) != high {
        return false;
      }
      axis := axis + 1;
    }
    return true;
  }

  method CheckInstance(nodes: Nodes, meshes: map<int, Mesh>, instance: Instance) returns (ok: bool)
    requires forall m :: m in meshes ==> MeshOk(meshes[m])
    ensures ok <==> InstanceOk(nodes, meshes, instance)
  {
    hide Transform, NormalMatrix, Bounds, WorldTriangle, TriangleOk, Coordinate;
    if instance.node !in nodes || instance.mesh != nodes[instance.node].mesh {
      return false;
    }
    if instance.mesh == None {
      return false;
    }
    var m := instance.mesh.value;
    if m !in meshes {
      return false;
    }
    var node, mesh := nodes[instance.node], meshes[m];
    if |instance.positions| != |mesh.positions| {
      return false;
    }
    for i := 0 to |mesh.positions|
      invariant forall j :: 0 <= j < i ==> instance.positions[j] == Transform(node.geometryToWorld, mesh.positions[j])
    {
      if instance.positions[i] != Transform(node.geometryToWorld, mesh.positions[i]) {
        return false;
      }
    }
    var bounded := CheckBounds(instance.positions, instance.lower, instance.upper);
    if !bounded {
      return false;
    }
    var normal := NormalMatrix(node.geometryToWorld);
    if normal.None? || instance.determinant != normal.value.0 {
      return false;
    }
    if |instance.normals| != 3 * |mesh.triangles| || |instance.materials| != |mesh.triangles| {
      return false;
    }
    for t := 0 to |mesh.triangles|
      invariant forall j :: 0 <= j < t ==> TriangleInWorld(node, mesh, instance, j)
    {
      if !TriangleInWorld(node, mesh, instance, t) {
        return false;
      }
    }
    return true;
  }

  /** No node with a mesh was left out. */
  predicate HaveInstances(nodes: Nodes, instances: seq<Instance>) {
    forall n :: n in nodes && nodes[n].mesh.Some? ==> exists k :: 0 <= k < |instances| && instances[k].node == n
  }

  /** The instance loop: exactly one valid instance for each node with a mesh. */
  method CheckInstances(nodes: Nodes, meshes: map<int, Mesh>, instances: seq<Instance>) returns (ok: bool)
    requires forall m :: m in meshes ==> MeshOk(meshes[m])
    ensures ok <==>
      && (forall k :: 0 <= k < |instances| ==> InstanceOk(nodes, meshes, instances[k]))
      && (forall j, k :: 0 <= j < k < |instances| ==> instances[j].node != instances[k].node)
      && (forall n :: n in nodes && nodes[n].mesh.Some? ==> exists k :: 0 <= k < |instances| && instances[k].node == n)
  {
    hide Transform, NormalMatrix, Bounds, TriangleInWorld, MeshOk, Coordinate;
    var seen: set<int> := {};
    var k := 0;
    while k < |instances|
      invariant 0 <= k <= |instances|
      invariant forall j :: 0 <= j < k ==> InstanceOk(nodes, meshes, instances[j]) && instances[j].node in seen
      invariant forall n :: n in seen ==> exists j :: 0 <= j < k && instances[j].node == n
      invariant forall i, j :: 0 <= i < j < k ==> instances[i].node != instances[j].node
    {
      if instances[k].node in seen {
        return false;
      }
      var accepted := CheckInstance(nodes, meshes, instances[k]);
      if !accepted {
        return false;
      }
      seen := seen + {instances[k].node};
      k := k + 1;
    }
    var wanted := set n | n in nodes && nodes[n].mesh.Some?;
    assert seen <= wanted by {
      forall n | n in seen ensures n in wanted {
        var j :| 0 <= j < k && instances[j].node == n;
        assert InstanceOk(nodes, meshes, instances[j]);
      }
    }
    if HaveInstances(nodes, instances) {
      forall n | n in wanted ensures n in seen {
        assert n in nodes && nodes[n].mesh.Some?;
        var j :| 0 <= j < |instances| && instances[j].node == n;
        assert j < k;
      }
    } else {
      var n :| n in nodes && nodes[n].mesh.Some? && !exists j :: 0 <= j < |instances| && instances[j].node == n;
      assert n in wanted && n !in seen;
    }
    ok := seen == wanted;
  }

  // ------------------------------------------------ what acceptance means

  lemma InstancePosition(nodes: Nodes, meshes: map<int, Mesh>, instance: Instance, i: nat)
    requires forall m :: m in meshes ==> MeshOk(meshes[m])
    requires InstanceOk(nodes, meshes, instance) && i < |instance.positions|
    ensures instance.node in nodes && instance.mesh.Some? && instance.mesh.value in meshes
    ensures i < |meshes[instance.mesh.value].positions|
    ensures instance.positions[i] ==
      Transform(nodes[instance.node].geometryToWorld, meshes[instance.mesh.value].positions[i])
  {
    hide Transform, NormalMatrix, Bounds, TriangleInWorld, MeshOk, Coordinate;
  }

  /** Every accepted world position is its mesh point taken by the geometry matrix
      into its node, up the path to the root, and into the world. */
  lemma PositionsFollowThePath(nodes: Nodes, root: int, meshes: map<int, Mesh>, instance: Instance, i: nat, k: nat)
    requires Tree(nodes, root)
    requires forall n :: n in nodes ==> Composed(nodes, n) && nodes[n].inheritMode == 0
    requires forall m :: m in meshes ==> MeshOk(meshes[m])
    requires InstanceOk(nodes, meshes, instance) && i < |instance.positions|
    requires Ancestor(nodes, Some(instance.node), k) == Some(root)
    ensures instance.node in nodes && instance.mesh.Some? && instance.mesh.value in meshes
    ensures i < |meshes[instance.mesh.value].positions|
    ensures var inNode := Transform(nodes[instance.node].geometryToNode, meshes[instance.mesh.value].positions[i]);
      root in nodes
      && instance.positions[i] == Transform(nodes[root].toWorld, Climb(nodes, instance.node, k, inNode))
  {
    hide Transform, Multiply, Linked, InstanceOk, MeshOk;
    InstancePosition(nodes, meshes, instance, i);
    var node, local := nodes[instance.node], meshes[instance.mesh.value].positions[i];
    assert Composed(nodes, instance.node);
    MultiplyComposes(node.toWorld, node.geometryToNode, local);
    WorldIsThePath(nodes, root, instance.node, k, Transform(node.geometryToNode, local));
  }

  /** `actual` is what dividing by the length gives. */
  lemma NormalizedByLength(expected: Vec, actual: Vec, length: real)
    requires length > 0.0 && length * length == Dot(expected, expected)
    ensures Normalized(expected, actual) <==> actual == Divide(expected, length)
  {
    if actual == Divide(expected, length) {
      DividedUnit(expected, length);
    }
    if Normalized(expected, actual) {
      var d := Dot(actual, expected);
      LengthOfTimes(actual, d);
      SameSquare(d, length);
      assert d == length;
      Cancel(actual.x, length);
      Cancel(actual.y, length);
      Cancel(actual.z, length);
    }
  }

  lemma SameSquare(a: real, b: real)
    requires a > 0.0 && b > 0.0 && a * a == b * b
    ensures a == b
  {
    if a < b {
      Squares(a, b);
    } else if b < a {
      Squares(b, a);
    }
  }

  lemma Squares(a: real, b: real)
    requires 0.0 <= a < b
    ensures a * a < b * b
  {
    assert (b - a) * b > 0.0 && a * (b - a) >= 0.0;
  }

  lemma TimesLength(x: real, y: real, z: real, d: real)
    ensures x * d * (x * d) + y * d * (y * d) + z * d * (z * d) == (x * x + y * y + z * z) * (d * d)
  {
  }

  lemma LengthOfTimes(v: Vec, s: real)
    requires IsUnit(v)
    ensures Dot(Times(v, s), Times(v, s)) == s * s
  {
    TimesLength(v.x, v.y, v.z, s);
  }

  lemma DotSwaps(u: Vec, v: Vec)
    ensures Dot(u, v) == Dot(v, u)
  {
  }

  lemma DividedUnit(v: Vec, length: real)
    requires length > 0.0 && length * length == Dot(v, v)
    ensures Normalized(v, Divide(v, length))
  {
    var u := Divide(v, length);
    assert Times(u, length) == v;
    DividedDot(v, v, length);
    Cancel(length, length);
    DotSwaps(v, u);
    DividedDot(v, u, length);
    hide Dot, Divide, Times;
    assert Dot(u, v) == length && Dot(u, u) == 1.0;
  }

  lemma EdgeIsLinear(m: Affine, p: Vec, q: Vec)
    ensures Minus(Transform(m, q), Transform(m, p)) == Apply(LinearPart(m), Minus(q, p))
  {
    RowEdge(m.r0, p, q);
    RowEdge(m.r1, p, q);
    RowEdge(m.r2, p, q);
    hide Dot;
  }

  lemma RowEdge(r: Row, p: Vec, q: Vec)
    ensures Dot(Linear(r), q) - Dot(Linear(r), p) == Dot(Linear(r), Minus(q, p))
  {
  }

  lemma ScaledZero(n: Vec, v: Vec, s: real)
    requires s > 0.0 && Dot(Times(n, s), v) == 0.0
    ensures Dot(n, v) == 0.0
  {
    ScaledSum(n.x, n.y, n.z, v.x, v.y, v.z, s);
  }

  lemma ScaledSum(a: real, b: real, c: real, x: real, y: real, z: real, s: real)
    ensures a * s * x + b * s * y + c * s * z == (a * x + b * y + c * z) * s
  {
  }

  lemma InstanceNormal(nodes: Nodes, meshes: map<int, Mesh>, instance: Instance, t: nat, k: nat)
    requires forall m :: m in meshes ==> MeshOk(meshes[m])
    requires InstanceOk(nodes, meshes, instance) && k < 3 && t < |meshes[instance.mesh.value].triangles|
    ensures var mesh, m := meshes[instance.mesh.value], nodes[instance.node].geometryToWorld;
      && NormalMatrix(m).Some? && |mesh.triangles[t].corners| == 3 && 3 * t + k < |instance.normals|
      && Normalized(Apply(NormalMatrix(m).value.1, mesh.triangles[t].corners[k].normal), instance.normals[3 * t + k])
  {
    hide Transform, NormalMatrix, Bounds, Coordinate, Normalized;
    var m := instance.mesh.value;
    var node, mesh := nodes[instance.node], meshes[m];
    assert MeshOk(mesh);
    assert TriangleOk(mesh, mesh.triangles[t]);
    assert TriangleInWorld(node, mesh, instance, t);
    assert NormalsOf(instance, t)[k] == instance.normals[3 * t + k];
  }

  /** Shading survives: where a mesh normal is perpendicular to an edge between two
      mesh points, its accepted world normal is a unit vector perpendicular to the
      edge between their world positions, whatever shear or scale lies between. */
  lemma NormalsStayPerpendicular(nodes: Nodes, meshes: map<int, Mesh>, instance: Instance, t: nat, k: nat, i: nat, j: nat)
    requires forall m :: m in meshes ==> MeshOk(meshes[m])
    requires InstanceOk(nodes, meshes, instance) && k < 3 && t < |meshes[instance.mesh.value].triangles|
    requires i < |instance.positions| && j < |instance.positions|
    requires |meshes[instance.mesh.value].triangles[t].corners| == 3
    requires Dot(meshes[instance.mesh.value].triangles[t].corners[k].normal,
                 Minus(meshes[instance.mesh.value].positions[j], meshes[instance.mesh.value].positions[i])) == 0.0
    ensures 3 * t + k < |instance.normals| && IsUnit(instance.normals[3 * t + k])
    ensures Dot(instance.normals[3 * t + k], Minus(instance.positions[j], instance.positions[i])) == 0.0
  {
    var mesh, m := meshes[instance.mesh.value], nodes[instance.node].geometryToWorld;
    hide InstanceOk, MeshOk, Dot, Transform, NormalMatrix, LinearPart, Apply;
    InstancePosition(nodes, meshes, instance, i);
    InstancePosition(nodes, meshes, instance, j);
    InstanceNormal(nodes, meshes, instance, t, k);
    EdgeIsLinear(m, mesh.positions[i], mesh.positions[j]);
    var n, edge := mesh.triangles[t].corners[k].normal, Minus(mesh.positions[j], mesh.positions[i]);
    NormalsStayNormal(m, n, edge);
    var expected, actual := Apply(NormalMatrix(m).value.1, n), instance.normals[3 * t + k];
    ScaledZero(actual, Apply(LinearPart(m), edge), Dot(actual, expected));
  }

  // --------------------------------------------- what the checks decide

  predicate UnitLength(v: Vec) {
    v.x * v.x + v.y * v.y + v.z * v.z == 1.0
  }

  /** What an accepted mesh is. */
  lemma MeshExactly(mesh: Mesh)
    ensures MeshOk(mesh) <==>
      && |mesh.positions| > 0 && |mesh.triangles| > 0 && mesh.faceCount > 0
      && forall t :: t in mesh.triangles ==> GoodTriangle(t, |mesh.positions|, mesh.faceCount)
  {
    hide TriangleOk, GoodTriangle;
    forall t
      ensures TriangleOk(mesh, t) <==> GoodTriangle(t, |mesh.positions|, mesh.faceCount)
    {
      TriangleExactly(mesh, t);
    }
    if forall t :: t in mesh.triangles ==> GoodTriangle(t, |mesh.positions|, mesh.faceCount) {
      forall t | 0 <= t < |mesh.triangles|
        ensures TriangleOk(mesh, mesh.triangles[t])
      {
        assert mesh.triangles[t] in mesh.triangles;
      }
    }
  }

  /** Of a face of the source, with a slot or -1, and three different vertices of
      the mesh, each with a unit normal. */
  predicate GoodTriangle(t: Triangle, vertices: nat, faces: int) {
    && 0 <= t.sourceFace < faces && t.slot >= -1 && |t.corners| == 3
    && (forall c :: c in t.corners ==> 0 <= c.vertex < vertices && UnitLength(c.normal))
    && forall i, j :: 0 <= i < j < 3 ==> t.corners[i].vertex != t.corners[j].vertex
  }

  lemma TriangleExactly(mesh: Mesh, t: Triangle)
    ensures TriangleOk(mesh, t) <==> GoodTriangle(t, |mesh.positions|, mesh.faceCount)
  {
    forall v
      ensures IsUnit(v) <==> UnitLength(v)
    {
      UnitIsUnit(v);
    }
    hide IsUnit, UnitLength;
    if |t.corners| == 3 {
      assert t.corners == [t.corners[0], t.corners[1], t.corners[2]];
    }
  }

  lemma UnitIsUnit(v: Vec)
    ensures IsUnit(v) <==> UnitLength(v)
  {
  }

  /** The edges are not parallel: some component of their cross product is not zero. */
  predicate Independent(u: Vec, v: Vec) {
    u.y * v.z != u.z * v.y || u.z * v.x != u.x * v.z || u.x * v.y != u.y * v.x
  }

  lemma AreaExactly(u: Vec, v: Vec)
    ensures Dot(Cross(u, v), Cross(u, v)) > 0.0 <==> Independent(u, v)
  {
    hide Dot;
    var c := Cross(u, v);
    PositiveDot(c);
    Differ(u.y * v.z, u.z * v.y, c.x);
    Differ(u.z * v.x, u.x * v.z, c.y);
    Differ(u.x * v.y, u.y * v.x, c.z);
    hide Cross;
  }

  lemma Differ(a: real, b: real, d: real)
    requires d == a - b
    ensures d != 0.0 <==> a != b
  {
  }

  lemma PositiveDot(c: Vec)
    ensures Dot(c, c) > 0.0 <==> c.x != 0.0 || c.y != 0.0 || c.z != 0.0
  {
    var sum := DotIsSum(c, c.x, c.y, c.z);
    SquaresVanish(c.x, c.y, c.z, sum);
    hide Dot;
  }

  lemma DotIsSum(c: Vec, x: real, y: real, z: real) returns (sum: real)
    requires c == Vec(x, y, z)
    ensures sum == Dot(c, c) && sum == x * x + y * y + z * z
  {
    sum := Dot(c, c);
  }

  lemma SquaresVanish(x: real, y: real, z: real, sum: real)
    requires sum == x * x + y * y + z * z
    ensures sum > 0.0 <==> x != 0.0 || y != 0.0 || z != 0.0
  {
    SumVanishes(x, y, z, x * x, y * y, z * z);
  }

  lemma SumVanishes(x: real, y: real, z: real, p: real, q: real, r: real)
    requires p == x * x && q == y * y && r == z * z
    ensures p + q + r > 0.0 <==> x != 0.0 || y != 0.0 || z != 0.0
  {
    SquareVanishes(x, p);
    SquareVanishes(y, q);
    SquareVanishes(z, r);
  }

  lemma SquareVanishes(x: real, p: real)
    requires p == x * x
    ensures p >= 0.0 && (p == 0.0 <==> x == 0.0)
  {
    if x != 0.0 {
      Cancel(x, x);
    }
  }

  predicate Lengthens(v: Vec, s: real, expected: Vec) {
    s > 0.0 && expected == Vec(v.x * s, v.y * s, v.z * s)
  }

  /** A unit vector that only has to be lengthened to give `expected`. */
  ghost predicate Directs(actual: Vec, expected: Vec) {
    UnitLength(actual) && exists s :: Lengthens(actual, s, expected)
  }

  lemma NormalizedExactly(expected: Vec, actual: Vec)
    ensures Normalized(expected, actual) <==> Directs(actual, expected)
  {
    UnitIsUnit(actual);
    if Normalized(expected, actual) {
      assert Lengthens(actual, Dot(actual, expected), expected) by { hide Dot; }
    }
    if Directs(actual, expected) {
      var s :| Lengthens(actual, s, expected);
      DotOfTimes(actual, s);
      hide Dot, UnitLength, IsUnit;
    }
  }

  lemma DotOfTimes(v: Vec, s: real)
    requires UnitLength(v)
    ensures Dot(v, Vec(v.x * s, v.y * s, v.z * s)) == s
  {
    FactorsOut(v.x, v.y, v.z, s);
  }

  lemma FactorsOut(x: real, y: real, z: real, s: real)
    ensures x * (x * s) + y * (y * s) + z * (z * s) == (x * x + y * y + z * z) * s
  {
  }

  /** The least and greatest coordinates over the points. */
  predicate Box(points: seq<Vec>, lower: Vec, upper: Vec) {
    && (forall p :: p in points ==> lower.x <= p.x <= upper.x && lower.y <= p.y <= upper.y && lower.z <= p.z <= upper.z)
    && (exists p :: p in points && p.x == lower.x) && (exists p :: p in points && p.x == upper.x)
    && (exists p :: p in points && p.y == lower.y) && (exists p :: p in points && p.y == upper.y)
    && (exists p :: p in points && p.z == lower.z) && (exists p :: p in points && p.z == upper.z)
  }

  /** A slot takes its material from the node's list; without one the list is empty. */
  predicate SlotHas(materials: seq<int>, slot: int, material: Option<int>) {
    if slot < 0 then |materials| == 0 && material.None?
    else material.Some? && slot < |materials| && materials[slot] == material.value
  }

  lemma BoxExactly(points: seq<Vec>, lower: Vec, upper: Vec)
    ensures Box(points, lower, upper) <==>
      forall axis :: 0 <= axis < 3 ==> Bounds(points, axis, Coordinate(lower, axis), Coordinate(upper, axis))
  {
    forall p
      ensures Coordinate(p, 0) == p.x && Coordinate(p, 1) == p.y && Coordinate(p, 2) == p.z
    {
    }
    if Box(points, lower, upper) {
      forall k | 0 <= k < |points|
        ensures points[k] in points
      {
      }
      assert Bounds(points, 0, lower.x, upper.x) && Bounds(points, 1, lower.y, upper.y) && Bounds(points, 2, lower.z, upper.z);
    }
    if forall axis :: 0 <= axis < 3 ==> Bounds(points, axis, Coordinate(lower, axis), Coordinate(upper, axis)) {
      assert Bounds(points, 0, lower.x, upper.x) && Bounds(points, 1, lower.y, upper.y) && Bounds(points, 2, lower.z, upper.z);
    }
  }

  /** Triangle `t` in the world: its material is its slot's, its points span an area,
      and its normals are the mesh normals under the inverse transpose, made unit. */
  ghost predicate PlacedTriangle(node: Node, normal: Square, t: Triangle, instance: Instance, i: nat)
    requires |t.corners| == 3 && 3 * i + 3 <= |instance.normals| && i < |instance.materials|
    requires forall c :: c in t.corners ==> 0 <= c.vertex < |instance.positions|
  {
    var a, b, c := t.corners[0], t.corners[1], t.corners[2];
    var p := instance.positions;
    && SlotHas(node.materials, t.slot, instance.materials[i])
    && Independent(Minus(p[b.vertex], p[a.vertex]), Minus(p[c.vertex], p[a.vertex]))
    && Directs(instance.normals[3 * i], Apply(normal, a.normal))
    && Directs(instance.normals[3 * i + 1], Apply(normal, b.normal))
    && Directs(instance.normals[3 * i + 2], Apply(normal, c.normal))
  }

  lemma TriangleIsPlaced(node: Node, mesh: Mesh, instance: Instance, t: nat)
    requires MeshOk(mesh) && |instance.positions| == |mesh.positions| && t < |mesh.triangles|
    requires |instance.normals| == 3 * |mesh.triangles| && |instance.materials| == |mesh.triangles|
    requires NormalMatrix(node.geometryToWorld).Some?
    ensures |mesh.triangles[t].corners| == 3
    ensures forall c :: c in mesh.triangles[t].corners ==> 0 <= c.vertex < |instance.positions|
    ensures TriangleInWorld(node, mesh, instance, t) <==>
      PlacedTriangle(node, NormalMatrix(node.geometryToWorld).value.1, mesh.triangles[t], instance, t)
  {
    MeshExactly(mesh);
    var triangle := mesh.triangles[t];
    assert triangle in mesh.triangles && GoodTriangle(triangle, |mesh.positions|, mesh.faceCount);
    var a, b, c := triangle.corners[0], triangle.corners[1], triangle.corners[2];
    assert a in triangle.corners && b in triangle.corners && c in triangle.corners;
    var normal := NormalMatrix(node.geometryToWorld).value.1;
    var p, n := instance.positions, NormalsOf(instance, t);
    assert n[0] == instance.normals[3 * t] && n[1] == instance.normals[3 * t + 1] && n[2] == instance.normals[3 * t + 2];
    assert SlotHas(node.materials, triangle.slot, instance.materials[t]) <==>
      MaterialOk(node, triangle.slot, instance.materials[t]);
    hide MeshOk, GoodTriangle, NormalMatrix, Apply, Normalized, Directs, Dot, Cross, Independent, NormalsOf, MaterialOk, SlotHas;
    AreaExactly(Minus(p[b.vertex], p[a.vertex]), Minus(p[c.vertex], p[a.vertex]));
    NormalizedExactly(Apply(normal, a.normal), n[0]);
    NormalizedExactly(Apply(normal, b.normal), n[1]);
    NormalizedExactly(Apply(normal, c.normal), n[2]);
  }

  /** Sizes, positions, bounds and determinant of an instance of this mesh. */
  predicate PlacedPoints(node: Node, mesh: Mesh, instance: Instance) {
    && |instance.positions| == |mesh.positions|
    && (forall i :: 0 <= i < |mesh.positions| ==>
          instance.positions[i] == Transform(node.geometryToWorld, mesh.positions[i]))
    && Box(instance.positions, instance.lower, instance.upper)
    && NormalMatrix(node.geometryToWorld).Some? && NormalMatrix(node.geometryToWorld).value.0 == instance.determinant
    && |instance.normals| == 3 * |mesh.triangles| && |instance.materials| == |mesh.triangles|
  }

  ghost predicate PlacedTriangles(node: Node, mesh: Mesh, instance: Instance)
    requires PlacedPoints(node, mesh, instance) && MeshOk(mesh)
  {
    forall t {:trigger mesh.triangles[t]} :: 0 <= t < |mesh.triangles| ==>
      && |mesh.triangles[t].corners| == 3
      && (forall c :: c in mesh.triangles[t].corners ==> 0 <= c.vertex < |instance.positions|)
      && PlacedTriangle(node, NormalMatrix(node.geometryToWorld).value.1, mesh.triangles[t], instance, t)
  }

  /** What an accepted instance is: it names a node and that node's mesh, and is
      that mesh placed in the world. */
  lemma InstanceExactly(nodes: Nodes, meshes: map<int, Mesh>, instance: Instance)
    requires forall m :: m in meshes ==> MeshOk(meshes[m])
    ensures InstanceOk(nodes, meshes, instance) <==>
      && instance.node in nodes && nodes[instance.node].mesh == instance.mesh && instance.mesh.Some?
      && instance.mesh.value in meshes
      && PlacedPoints(nodes[instance.node], meshes[instance.mesh.value], instance)
      && PlacedTriangles(nodes[instance.node], meshes[instance.mesh.value], instance)
  {
    hide MeshOk, Bounds, Coordinate, Box, Transform, NormalMatrix, PlacedTriangle, TriangleInWorld;
    BoxExactly(instance.positions, instance.lower, instance.upper);
    if instance.node in nodes && instance.mesh.Some? && instance.mesh.value in meshes {
      var node, m := nodes[instance.node], instance.mesh.value;
      var mesh := meshes[m];
      if PlacedPoints(node, mesh, instance) {
        forall t | 0 <= t < |mesh.triangles|
          ensures |mesh.triangles[t].corners| == 3
          ensures forall c :: c in mesh.triangles[t].corners ==> 0 <= c.vertex < |instance.positions|
          ensures TriangleInWorld(node, mesh, instance, t) <==>
            PlacedTriangle(node, NormalMatrix(node.geometryToWorld).value.1, mesh.triangles[t], instance, t)
        {
          TriangleIsPlaced(node, mesh, instance, t);
        }
      }
    }
  }
}
