/**
 * The binary tree of Arbol.java: nodes carry a name and two possibly empty
 * subtrees (`null` becomes `Nil`), the tree holds a root, `vacio` tests for
 * an empty tree and `buscarNodo` looks a name up in pre-order.
 */
module Arbol {
  import opened Options

  /** A `Nodo` and its subtrees; `Nil` stands for a null reference. */
  datatype Tree = Nil | Node(nombre: string, izquierdo: Tree, derecho: Tree)

  /** An `Arbol`, holding its root. */
  datatype Arbol = Arbol(raiz: Tree)

  /** The names that occur in a tree. */
  function Names(t: Tree): set<string> {
    match t
    case Nil => {}
    case Node(n, l, r) => {n} + Names(l) + Names(r)
  }

  /** The nodes of a tree, each being the subtree rooted there. */
  function Nodes(t: Tree): set<Tree> {
    match t
    case Nil => {}
    case Node(_, l, r) => {t} + Nodes(l) + Nodes(r)
  }

  /** The nodes in pre-order: root, then the left subtree, then the right. */
  function Preorder(t: Tree): seq<Tree> {
    match t
    case Nil => []
    case Node(_, l, r) => [t] + Preorder(l) + Preorder(r)
  }

  /** The constructor `new Arbol()`: an empty tree. */
  function NewArbol(): (a: Arbol)
    ensures Vacio(a) && Names(a.raiz) == {}
  {
    Arbol(Nil)
  }

  /** `vacio`: the root is null. */
  predicate Vacio(a: Arbol) {
    a.raiz == Nil
  }

  /** A tree is empty exactly when it has no nodes and so no names. */
  lemma VacioMeansNoNodes(a: Arbol)
    ensures Vacio(a) <==> Nodes(a.raiz) == {}
    ensures Vacio(a) <==> Names(a.raiz) == {}
  {
    if !Vacio(a) {
      assert a.raiz in Nodes(a.raiz);
      assert a.raiz.nombre in Names(a.raiz);
    }
  }

  /**
   * `buscarRecursivo`: the root when its name matches, else the left
   * subtree's answer when there is one, else the right subtree's. A found
   * node is a node of `t` with that name; nothing is found exactly when no
   * node of `t` has the name.
   */
  function BuscarRecursivo(t: Tree, nombre: string): (r: Option<Tree>)
    ensures r.Some? ==> r.value.Node? && r.value.nombre == nombre && r.value in Nodes(t)
    ensures r.None? <==> nombre !in Names(t)
  {
    match t
    case Nil => None
    case Node(n, l, d) =>
      if n == nombre then Some(t)
      else
        var izquierdo := BuscarRecursivo(l, nombre);
        if izquierdo.Some? then izquierdo else BuscarRecursivo(d, nombre)
  }

  /** `buscarNodo`: the search from the root. */
  function BuscarNodo(a: Arbol, nombre: string): (r: Option<Tree>)
    ensures r.Some? ==> r.value.Node? && r.value.nombre == nombre && r.value in Nodes(a.raiz)
    ensures r.None? <==> nombre !in Names(a.raiz)
  {
    BuscarRecursivo(a.raiz, nombre)
  }

  /** The first node of `xs` carrying `nombre`. */
  function FirstNamed(xs: seq<Tree>, nombre: string): (r: Option<Tree>)
    ensures r.Some? ==> r.value in xs && r.value.Node? && r.value.nombre == nombre
    ensures r.None? <==> forall x :: x in xs ==> !(x.Node? && x.nombre == nombre)
  {
    if xs == [] then None
    else if xs[0].Node? && xs[0].nombre == nombre then Some(xs[0])
    else FirstNamed(xs[1..], nombre)
  }

  lemma {:induction false} FirstNamedAppend(a: seq<Tree>, b: seq<Tree>, nombre: string)
    ensures FirstNamed(a + b, nombre) == if FirstNamed(a, nombre).Some? then FirstNamed(a, nombre) else FirstNamed(b, nombre)
    decreases |a|
  {
    if a == [] {
      assert a + b == b;
    } else {
      assert (a + b)[0] == a[0] && (a + b)[1..] == a[1..] + b;
      FirstNamedAppend(a[1..], b, nombre);
    }
  }

  /** The search returns the first node with the name in pre-order. */
  lemma {:induction false} BuscarIsFirstInPreorder(t: Tree, nombre: string)
    ensures BuscarRecursivo(t, nombre) == FirstNamed(Preorder(t), nombre)
  {
    match t
    case Nil =>
    case Node(n, l, d) =>
      BuscarIsFirstInPreorder(l, nombre);
      BuscarIsFirstInPreorder(d, nombre);
      assert Preorder(t) == [t] + (Preorder(l) + Preorder(d));
      FirstNamedAppend(Preorder(l), Preorder(d), nombre);
      FirstNamedAppend([t], Preorder(l) + Preorder(d), nombre);
  }

  /**
   * Search priority: a matching root wins; otherwise a match anywhere in the
   * left subtree is returned in preference to any in the right one.
   */
  lemma BuscarPriority(t: Tree, nombre: string)
    requires t.Node?
    ensures t.nombre == nombre ==> BuscarRecursivo(t, nombre) == Some(t)
    ensures t.nombre != nombre && nombre in Names(t.izquierdo) ==>
      BuscarRecursivo(t, nombre) == BuscarRecursivo(t.izquierdo, nombre)
    ensures t.nombre != nombre && nombre !in Names(t.izquierdo) ==>
      BuscarRecursivo(t, nombre) == BuscarRecursivo(t.derecho, nombre)
  {
  }

  /** The tree `main` builds: M with children B and Q. */
  const Ejemplo: Arbol := Arbol(Node("M", Node("B", Nil, Nil), Node("Q", Nil, Nil)))

  /** `main`: a new tree is empty, the M(B, Q) tree is not, and looking up B finds the leaf B. */
  lemma EjemploLookups()
    ensures Vacio(NewArbol()) && !Vacio(Ejemplo)
    ensures BuscarNodo(Ejemplo, "B") == Some(Node("B", Nil, Nil))
    ensures BuscarNodo(Ejemplo, "Z") == None
  {
    assert "M" != "B" && "M" != "Z" && "B" != "Z" && "Q" != "Z";
  }
}
