/**
 * The parts of the three.js object graph that the customizer relies on, as values:
 * a tree of named `Group`/`Mesh` nodes, the pre-order walk behind `Object3D.traverse`,
 * the pre-order search behind `Object3D.getObjectByName`, and `add`/`remove` of a child.
 * Meshes carry the id of their mesh object; what a mesh owns (geometry and materials)
 * lives in the resource heap of module Resources.
 */
module SceneGraph {
  import opened Wrappers

  /** Identity of a three.js object (mesh, material, texture, geometry, model root). */
  type Id = nat

  datatype Vec3 = Vec3(x: real, y: real, z: real)

  function Plus(a: Vec3, b: Vec3): Vec3 { Vec3(a.x + b.x, a.y + b.y, a.z + b.z) }
  function Minus(a: Vec3, b: Vec3): Vec3 { Vec3(a.x - b.x, a.y - b.y, a.z - b.z) }
  function Times(a: Vec3, k: real): Vec3 { Vec3(a.x * k, a.y * k, a.z * k) }
  /** Component-wise product, as `Vector3.multiply`. */
  function Mul(a: Vec3, b: Vec3): Vec3 { Vec3(a.x * b.x, a.y * b.y, a.z * b.z) }

  const Origin := Vec3(0.0, 0.0, 0.0)

  /** Position, rotation about the y axis and scale of an object. */
  datatype Transform = Transform(position: Vec3, rotationY: real, scale: Vec3)

  /** The transform a freshly constructed three.js object has. */
  const IdentityTransform := Transform(Origin, 0.0, Vec3(1.0, 1.0, 1.0))

  /** `instanceof THREE.Mesh` versus every other kind of node. */
  datatype Kind = Group | Mesh(id: Id)

  datatype Node = Node(name: string, kind: Kind, transform: Transform, children: seq<Node>)

  /** The order in which `traverse` visits nodes: the node itself, then each child's subtree. */
  function Preorder(n: Node): (r: seq<Node>)
    decreases n, 1
    ensures |r| >= 1 && r[0] == n
  {
    [n] + PreorderList(n.children)
  }

  function PreorderList(cs: seq<Node>): seq<Node>
    decreases cs, 0
  {
    if cs == [] then [] else Preorder(cs[0]) + PreorderList(cs[1..])
  }

  /** Reference definition of a name lookup: the first node of `ns` carrying `name`. */
  function FirstNamed(ns: seq<Node>, name: string): (r: Option<Node>)
    ensures r.Some? ==> r.value in ns && r.value.name == name
    ensures r.None? <==> forall k :: 0 <= k < |ns| ==> ns[k].name != name
  {
    if ns == [] then None
    else if ns[0].name == name then Some(ns[0])
    else FirstNamed(ns[1..], name)
  }

  /** `getObjectByName`: checks the node itself, then searches the children depth first. */
  function Find(n: Node, name: string): (r: Option<Node>)
    decreases n, 1
    ensures r.Some? ==> r.value.name == name
  {
    if n.name == name then Some(n) else FindIn(n.children, name)
  }

  function FindIn(cs: seq<Node>, name: string): (r: Option<Node>)
    decreases cs, 0
    ensures r.Some? ==> r.value.name == name
  {
    if cs == [] then None
    else
      var r := Find(cs[0], name);
      if r.Some? then r else FindIn(cs[1..], name)
  }

  lemma {:induction false} FirstNamedAppend(a: seq<Node>, b: seq<Node>, name: string)
    ensures FirstNamed(a + b, name) == if FirstNamed(a, name).Some? then FirstNamed(a, name) else FirstNamed(b, name)
  {
    if a != [] {
      assert (a + b)[1..] == a[1..] + b;
      FirstNamedAppend(a[1..], b, name);
    } else {
      assert a + b == b;
    }
  }

  /** `getObjectByName` returns the first node in pre-order (the root included) with that name. */
  lemma {:induction false} FindIsFirstInPreorder(n: Node, name: string)
    ensures Find(n, name) == FirstNamed(Preorder(n), name)
    decreases n, 1
  {
    FindInIsFirstInPreorder(n.children, name);
    FirstNamedAppend([n], PreorderList(n.children), name);
  }

  lemma {:induction false} FindInIsFirstInPreorder(cs: seq<Node>, name: string)
    ensures FindIn(cs, name) == FirstNamed(PreorderList(cs), name)
    decreases cs, 0
  {
    if cs != [] {
      FindIsFirstInPreorder(cs[0], name);
      FindInIsFirstInPreorder(cs[1..], name);
      FirstNamedAppend(Preorder(cs[0]), PreorderList(cs[1..]), name);
    }
  }

  /** The ids of the meshes among `ns`, in order. */
  function MeshIdsOf(ns: seq<Node>): (r: seq<Id>)
    ensures |r| <= |ns|
    ensures forall i :: 0 <= i < |r| ==> exists k :: 0 <= k < |ns| && ns[k].kind == Mesh(r[i])
    ensures forall k :: 0 <= k < |ns| && ns[k].kind.Mesh? ==> ns[k].kind.id in r
  {
    if ns == [] then []
    else if ns[0].kind.Mesh? then [ns[0].kind.id] + MeshIdsOf(ns[1..])
    else MeshIdsOf(ns[1..])
  }

  /** The meshes `traverse` reaches from `n`, in visiting order (the `instanceof THREE.Mesh` callbacks). */
  function MeshIds(n: Node): seq<Id>
  {
    MeshIdsOf(Preorder(n))
  }

  /** A node without children reaches only itself. */
  lemma LeafMeshIds(n: Node)
    requires n.children == []
    ensures MeshIds(n) == if n.kind.Mesh? then [n.kind.id] else []
  {
    assert Preorder(n) == [n];
  }

  lemma {:induction false} MeshIdsOfAppend(a: seq<Node>, b: seq<Node>)
    ensures MeshIdsOf(a + b) == MeshIdsOf(a) + MeshIdsOf(b)
  {
    if a == [] {
      assert a + b == b;
    } else {
      assert (a + b)[1..] == a[1..] + b;
      MeshIdsOfAppend(a[1..], b);
    }
  }

  /** A node found in pre-order below `n` is a subtree of `n`: every mesh it reaches, `n` reaches. */
  lemma {:induction false} SubtreeMeshes(n: Node, x: Node)
    requires x in Preorder(n)
    ensures forall m :: m in MeshIds(x) ==> m in MeshIds(n)
    decreases n, 1
  {
    MeshIdsOfAppend([n], PreorderList(n.children));
    if x != n {
      assert x in PreorderList(n.children);
      SubtreeMeshesList(n.children, x);
    }
  }

  lemma {:induction false} SubtreeMeshesList(cs: seq<Node>, x: Node)
    requires x in PreorderList(cs)
    ensures forall m :: m in MeshIds(x) ==> m in MeshIdsOf(PreorderList(cs))
    decreases cs, 0
  {
    MeshIdsOfAppend(Preorder(cs[0]), PreorderList(cs[1..]));
    if x in Preorder(cs[0]) {
      SubtreeMeshes(cs[0], x);
    } else {
      SubtreeMeshesList(cs[1..], x);
    }
  }

  /** `node.add(child)`: the child becomes the last child. */
  function AddChild(n: Node, c: Node): (r: Node)
    ensures r.name == n.name && r.kind == n.kind && r.transform == n.transform
    ensures r.children == n.children + [c]
  {
    n.(children := n.children + [c])
  }

  /** `node.remove(mesh)`: the direct child that is mesh `id` is dropped; removing a non-child does nothing. */
  function RemoveMeshChild(n: Node, id: Id): (r: Node)
    ensures r.name == n.name && r.kind == n.kind && r.transform == n.transform
    ensures forall c :: c in r.children <==> c in n.children && c.kind != Mesh(id)
  {
    n.(children := DropMesh(n.children, id))
  }

  function DropMesh(cs: seq<Node>, id: Id): (r: seq<Node>)
    ensures forall c :: c in r <==> c in cs && c.kind != Mesh(id)
    ensures |r| <= |cs|
  {
    if cs == [] then []
    else if cs[0].kind == Mesh(id) then DropMesh(cs[1..], id)
    else [cs[0]] + DropMesh(cs[1..], id)
  }

  /** Adding a child adds exactly the child's meshes, after the existing ones. */
  lemma AddChildMeshes(n: Node, c: Node)
    ensures MeshIds(AddChild(n, c)) == MeshIds(n) + MeshIds(c)
  {
    var n' := AddChild(n, c);
    PreorderListAppend(n.children, [c]);
    assert PreorderList([c]) == Preorder(c) + PreorderList([]);
    assert Preorder(n') == [n'] + PreorderList(n.children) + Preorder(c);
    MeshIdsOfAppend([n'] + PreorderList(n.children), Preorder(c));
    MeshIdsOfAppend([n'], PreorderList(n.children));
    MeshIdsOfAppend([n], PreorderList(n.children));
  }

  lemma {:induction false} PreorderListAppend(a: seq<Node>, b: seq<Node>)
    ensures PreorderList(a + b) == PreorderList(a) + PreorderList(b)
  {
    if a == [] {
      assert a + b == b;
    } else {
      assert (a + b)[0] == a[0];
      assert (a + b)[1..] == a[1..] + b;
      PreorderListAppend(a[1..], b);
    }
  }

  /** Removing a child only drops meshes: every mesh still reached was reached before. */
  lemma RemoveMeshChildMeshes(n: Node, id: Id)
    ensures forall m :: m in MeshIds(RemoveMeshChild(n, id)) ==> m in MeshIds(n)
  {
    DropMeshPreorder(n.children, id);
    MeshIdsOfAppend([n], PreorderList(n.children));
    MeshIdsOfAppend([n], PreorderList(DropMesh(n.children, id)));
  }

  lemma {:induction false} DropMeshPreorder(cs: seq<Node>, id: Id)
    ensures forall m :: m in MeshIdsOf(PreorderList(DropMesh(cs, id))) ==> m in MeshIdsOf(PreorderList(cs))
  {
    if cs != [] {
      DropMeshPreorder(cs[1..], id);
      MeshIdsOfAppend(Preorder(cs[0]), PreorderList(cs[1..]));
      if cs[0].kind != Mesh(id) {
        assert DropMesh(cs, id) == [cs[0]] + DropMesh(cs[1..], id);
        assert PreorderList(DropMesh(cs, id)) == Preorder(cs[0]) + PreorderList(DropMesh(cs[1..], id));
        MeshIdsOfAppend(Preorder(cs[0]), PreorderList(DropMesh(cs[1..], id)));
      }
    }
  }

  /** Every mesh a direct child reaches, its parent reaches. */
  lemma {:induction false} ChildMeshesList(cs: seq<Node>, c: Node)
    requires c in cs
    ensures forall m :: m in MeshIds(c) ==> m in MeshIdsOf(PreorderList(cs))
  {
    MeshIdsOfAppend(Preorder(cs[0]), PreorderList(cs[1..]));
    if c != cs[0] {
      ChildMeshesList(cs[1..], c);
    }
  }

  /** A mesh that none of `cs` reaches is not reached from the list either. */
  lemma {:induction false} NotInChildren(cs: seq<Node>, x: Id)
    requires forall c :: c in cs ==> x !in MeshIds(c)
    ensures x !in MeshIdsOf(PreorderList(cs))
  {
    if cs != [] {
      assert cs[0] in cs && forall c :: c in cs[1..] ==> c in cs;
      NotInChildren(cs[1..], x);
      MeshIdsOfAppend(Preorder(cs[0]), PreorderList(cs[1..]));
    }
  }

  /** A mesh reached from the list is reached from one of its nodes. */
  lemma {:induction false} InSomeChild(cs: seq<Node>, x: Id)
    requires x in MeshIdsOf(PreorderList(cs))
    ensures exists c :: c in cs && x in MeshIds(c)
  {
    assert cs != [];
    MeshIdsOfAppend(Preorder(cs[0]), PreorderList(cs[1..]));
    if x in MeshIds(cs[0]) {
      assert cs[0] in cs;
    } else {
      InSomeChild(cs[1..], x);
      var c :| c in cs[1..] && x in MeshIds(c);
      assert c in cs;
    }
  }

  /**
   * Mesh `p` is reached from `t` only through direct children that are `p` itself and have no
   * children of their own: `t` is not `p`, and no other child reaches `p`.
   */
  ghost predicate Detachable(t: Node, p: Id)
  {
    && t.kind != Mesh(p)
    && (forall c :: c in t.children && c.kind == Mesh(p) ==> c.children == [])
    && (forall c :: c in t.children && c.kind != Mesh(p) ==> p !in MeshIds(c))
  }

  /** `node.remove(mesh)` of a detachable mesh takes exactly that mesh out of what the tree reaches. */
  lemma RemoveDetachable(t: Node, p: Id)
    requires Detachable(t, p)
    ensures forall m :: m in MeshIds(RemoveMeshChild(t, p)) <==> m in MeshIds(t) && m != p
  {
    var t' := RemoveMeshChild(t, p);
    NotInChildren(t'.children, p);
    MeshIdsOfAppend([t'], PreorderList(t'.children));
    MeshIdsOfAppend([t], PreorderList(t.children));
    RemoveMeshChildMeshes(t, p);
    forall m | m in MeshIds(t) && m != p
      ensures m in MeshIds(t')
    {
      if m !in MeshIdsOf([t]) {
        InSomeChild(t.children, m);
        var c :| c in t.children && m in MeshIds(c);
        if c.kind == Mesh(p) {
          LeafMeshIds(c);
        }
        assert c in t'.children;
        ChildMeshesList(t'.children, c);
      }
    }
  }

  /** Dropping children keeps a mesh detachable. */
  lemma DetachableShrinks(t: Node, t': Node, p: Id)
    requires Detachable(t, p) && t'.kind == t.kind && forall c :: c in t'.children ==> c in t.children
    ensures Detachable(t', p)
  {
  }

  /** Adding a child that does not reach `p` keeps `p` detachable. */
  lemma AddChildDetachable(t: Node, c: Node, p: Id)
    requires Detachable(t, p) && p !in MeshIds(c)
    ensures Detachable(AddChild(t, c), p)
  {
    assert c.kind != Mesh(p) by {
      assert Preorder(c)[0] == c;
    }
  }

  /** A leaf `p` added to a tree that does not reach `p` is detachable. */
  lemma AddLeafDetachable(t: Node, c: Node, p: Id)
    requires p !in MeshIds(t) && c.kind == Mesh(p) && c.children == []
    ensures Detachable(AddChild(t, c), p)
  {
    MeshIdsOfAppend([t], PreorderList(t.children));
    forall d | d in t.children
      ensures p !in MeshIds(d)
    {
      ChildMeshesList(t.children, d);
    }
  }
}
