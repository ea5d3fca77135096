/** Builders of synthetic test models (openmdao/test/test_builder.py): leaf
    components that declare numbered variables, and helpers that add
    positionally named children to a parent group and connect each child to
    the one created just before it. The parent group is modelled by what the
    builders do to it: the children it is given and the connections declared
    on it, in call order. */
module TestBuilder {
  import opened PyStr

  /** What a child is, as far as naming and wiring are concerned: a leaf
      component with the names of the variables it declares, or a nested group. */
  datatype Node = Leaf(params: seq<string>, outputs: seq<string>, states: seq<string>) | Composite

  /** One `parent.add(name, child)` call. */
  datatype Child = Child(name: string, node: Node)

  /** One `parent.connect(src, dst)` call: an edge between two dotted variable paths. */
  datatype Conn = Conn(src: string, dst: string)

  /** `len(range(n))`: a negative count gives an empty range. */
  function Range(n: int): nat {
    if n < 0 then 0 else n
  }

  /** `'.'.join((owner, name))`, the dotted path of a variable of a child. */
  function Path(owner: string, name: string): string {
    owner + "." + name
  }

  /** The first segment of a dotted path: the child the path starts at. */
  function Owner(path: string): string {
    Split(path, ".")[0]
  }

  lemma OwnerOfPath(owner: string, name: string)
    requires '.' !in owner
    ensures Owner(Path(owner, name)) == owner
  {
    var p := Path(owner, name);
    forall j: nat | j < |owner| ensures !OccursAt(p, ".", j) {
      assert p[j..j + 1] == [owner[j]];
    }
    assert OccursAt(p, ".", |owner|);
    var f := FindFrom(p, ".", 0);
    assert f == Some(|owner|);
    assert p[..|owner|] == owner;
  }

  /** The names `prefix + "%d" % i` for i in range(n), in declaration order. */
  function VarNames(prefix: string, n: nat): (r: seq<string>)
    ensures |r| == n
    ensures forall i :: 0 <= i < n ==> r[i] == prefix + Dec(i)
  {
    if n == 0 then [] else VarNames(prefix, n - 1) + [prefix + Dec(n - 1)]
  }

  lemma PrefixedDistinct(prefix: string, i: nat, j: nat)
    requires i != j
    ensures prefix + Dec(i) != prefix + Dec(j)
  {
    DecInjective(i, j);
    assert Dec(i) == (prefix + Dec(i))[|prefix|..];
    assert Dec(j) == (prefix + Dec(j))[|prefix|..];
  }

  /** A DynComp's variable names are distinct within each kind, and a
      parameter, an output and a state never share a name. */
  lemma DynCompNamesDistinct(np: nat, no: nat, ns: nat)
    ensures forall i, j :: 0 <= i < j < np ==> VarNames("p", np)[i] != VarNames("p", np)[j]
    ensures forall i, j :: 0 <= i < j < no ==> VarNames("o", no)[i] != VarNames("o", no)[j]
    ensures forall i, j :: 0 <= i < j < ns ==> VarNames("s", ns)[i] != VarNames("s", ns)[j]
    ensures forall x :: x in VarNames("p", np) ==> x !in VarNames("o", no) && x !in VarNames("s", ns)
    ensures forall x :: x in VarNames("o", no) ==> x !in VarNames("s", ns)
  {
    forall i, j | 0 <= i < j < np ensures VarNames("p", np)[i] != VarNames("p", np)[j] {
      PrefixedDistinct("p", i, j);
    }
    forall i, j | 0 <= i < j < no ensures VarNames("o", no)[i] != VarNames("o", no)[j] {
      PrefixedDistinct("o", i, j);
    }
    forall i, j | 0 <= i < j < ns ensures VarNames("s", ns)[i] != VarNames("s", ns)[j] {
      PrefixedDistinct("s", i, j);
    }
    forall x | x in VarNames("p", np) ensures x[0] == 'p' {
      var i :| 0 <= i < np && VarNames("p", np)[i] == x;
    }
    forall x | x in VarNames("o", no) ensures x[0] == 'o' {
      var i :| 0 <= i < no && VarNames("o", no)[i] == x;
    }
    forall x | x in VarNames("s", ns) ensures x[0] == 's' {
      var i :| 0 <= i < ns && VarNames("s", ns)[i] == x;
    }
  }

  /** A leaf component that declares `nparams` parameters `p0, p1, ...`,
      `noutputs` outputs `o0, ...` and `nstates` states `s0, ...`, and keeps
      the two simulated solve delays. The variables' values are not modelled. */
  class DynComp {
    var params: seq<string>
    var outputs: seq<string>
    var states: seq<string>
    var nlSleep: real
    var lnSleep: real

    constructor (nparams: int, noutputs: int, nstates: int, nlSleep: real, lnSleep: real)
      ensures params == VarNames("p", Range(nparams))
      ensures outputs == VarNames("o", Range(noutputs))
      ensures states == VarNames("s", Range(nstates))
      ensures this.nlSleep == nlSleep && this.lnSleep == lnSleep
    {
      this.nlSleep := nlSleep;
      this.lnSleep := lnSleep;
      params, outputs, states := [], [], [];
      new;
      var i := 0;
      while i < Range(nparams)
        invariant 0 <= i <= Range(nparams)
        invariant params == VarNames("p", i) && outputs == [] && states == []
        invariant this.nlSleep == nlSleep && this.lnSleep == lnSleep
      {
        AddParam("p" + Dec(i));
        i := i + 1;
      }
      i := 0;
      while i < Range(noutputs)
        invariant 0 <= i <= Range(noutputs)
        invariant params == VarNames("p", Range(nparams)) && outputs == VarNames("o", i) && states == []
        invariant this.nlSleep == nlSleep && this.lnSleep == lnSleep
      {
        AddOutput("o" + Dec(i));
        i := i + 1;
      }
      i := 0;
      while i < Range(nstates)
        invariant 0 <= i <= Range(nstates)
        invariant params == VarNames("p", Range(nparams)) && outputs == VarNames("o", Range(noutputs))
        invariant states == VarNames("s", i)
        invariant this.nlSleep == nlSleep && this.lnSleep == lnSleep
      {
        AddState("s" + Dec(i));
        i := i + 1;
      }
    }

    /** `add_param(name, value)`: the value is not modelled. */
    method AddParam(name: string)
      modifies this
      ensures params == old(params) + [name]
      ensures outputs == old(outputs) && states == old(states)
      ensures nlSleep == old(nlSleep) && lnSleep == old(lnSleep)
    {
      params := params + [name];
    }

    method AddOutput(name: string)
      modifies this
      ensures outputs == old(outputs) + [name]
      ensures params == old(params) && states == old(states)
      ensures nlSleep == old(nlSleep) && lnSleep == old(lnSleep)
    {
      outputs := outputs + [name];
    }

    method AddState(name: string)
      modifies this
      ensures states == old(states) + [name]
      ensures params == old(params) && outputs == old(outputs)
      ensures nlSleep == old(nlSleep) && lnSleep == old(lnSleep)
    {
      states := states + [name];
    }

    /** The component as its parent records it. */
    function AsNode(): Node
      reads this
    {
      Leaf(params, outputs, states)
    }
  }

  /** The parent container: its children and its declared connections, in order. */
  class Group {
    var children: seq<Child>
    var conns: seq<Conn>

    constructor ()
      ensures children == [] && conns == []
    {
      children, conns := [], [];
    }

    method Add(name: string, node: Node)
      modifies this
      ensures children == old(children) + [Child(name, node)]
      ensures conns == old(conns)
    {
      children := children + [Child(name, node)];
    }

    method Connect(src: string, dst: string)
      modifies this
      ensures conns == old(conns) + [Conn(src, dst)]
      ensures children == old(children)
    {
      conns := conns + [Conn(src, dst)];
    }
  }

  /** `_child_name(child, i)`: `G<i>` for a group, `C<i>` for anything else. */
  function ChildName(node: Node, i: nat): string {
    (if node.Composite? then "G" else "C") + Dec(i)
  }

  /** Two generated names are equal exactly when both the kind (group or not)
      and the position agree; the position is the decimal text after the
      one-letter prefix, and no generated name contains a '.'. */
  lemma ChildNameDistinct(a: Node, i: nat, b: Node, j: nat)
    ensures ChildName(a, i) == ChildName(b, j) <==> (a.Composite? == b.Composite? && i == j)
    ensures ChildName(a, i)[1..] == Dec(i)
    ensures '.' !in ChildName(a, i)
  {
    var x, y := ChildName(a, i), ChildName(b, j);
    assert x[1..] == Dec(i) && y[1..] == Dec(j);
    DecInjective(i, j);
    if x == y {
      assert x[0] == y[0];
    }
  }

  /** The connections declared between two consecutive children: one
      `prev.u -> cur.v` per pair `(u, v)`, in the order of `pairs`. */
  function Wire(prev: string, cur: string, pairs: seq<(string, string)>): seq<Conn> {
    seq(|pairs|, k requires 0 <= k < |pairs| => Conn(Path(prev, pairs[k].0), Path(cur, pairs[k].1)))
  }

  /** The connections of a chain of children named `names`: each child is
      wired to the one before it, the first to none. */
  function Wiring(names: seq<string>, pairs: seq<(string, string)>): seq<Conn>
    decreases |names|
  {
    if |names| < 2 then []
    else Wiring(names[..|names| - 1], pairs) + Wire(names[|names| - 2], names[|names| - 1], pairs)
  }

  lemma {:induction false} WiringLength(names: seq<string>, pairs: seq<(string, string)>)
    ensures |Wiring(names, pairs)| == if names == [] then 0 else (|names| - 1) * |pairs|
    decreases |names|
  {
    if |names| >= 2 {
      WiringLength(names[..|names| - 1], pairs);
      assert (|names| - 2) * |pairs| + |pairs| == (|names| - 1) * |pairs|;
    }
  }

  lemma MulStep(i: nat, m: nat, p: nat)
    requires i < m
    ensures i * p + p <= m * p
  {
    assert (m - i) * p >= p by {
      assert m - i >= 1;
    }
  }

  /** Connection `i * |pairs| + k` joins pair `k` of child `i` to child `i + 1`. */
  lemma {:induction false} WiringAt(names: seq<string>, pairs: seq<(string, string)>, i: nat, k: nat)
    requires i + 1 < |names| && k < |pairs|
    ensures i * |pairs| + k < |Wiring(names, pairs)|
    ensures Wiring(names, pairs)[i * |pairs| + k]
         == Conn(Path(names[i], pairs[k].0), Path(names[i + 1], pairs[k].1))
    decreases |names|
  {
    var init := names[..|names| - 1];
    WiringLength(init, pairs);
    WiringLength(names, pairs);
    if i + 2 < |names| {
      WiringAt(init, pairs, i, k);
      MulStep(i, |names| - 2, |pairs|);
    } else {
      assert |Wiring(init, pairs)| == i * |pairs|;
    }
  }

  /** Where a declared connection comes from: the child position `i` it
      leaves and the pair `k` it was made from. */
  lemma {:induction false} WiringSource(names: seq<string>, pairs: seq<(string, string)>, c: Conn) returns (i: nat, k: nat)
    requires c in Wiring(names, pairs)
    ensures i + 1 < |names| && k < |pairs|
    ensures c == Conn(Path(names[i], pairs[k].0), Path(names[i + 1], pairs[k].1))
    decreases |names|
  {
    var n := |names|;
    var init := names[..n - 1];
    if c in Wiring(init, pairs) {
      i, k := WiringSource(init, pairs, c);
      assert init[i] == names[i] && init[i + 1] == names[i + 1];
    } else {
      var w := Wire(names[n - 2], names[n - 1], pairs);
      k :| 0 <= k < |w| && w[k] == c;
      i := n - 2;
    }
  }

  /** Every declared connection joins some child to the one right after it. */
  lemma WiringAdjacent(names: seq<string>, pairs: seq<(string, string)>, c: Conn)
    requires c in Wiring(names, pairs)
    ensures exists i, k :: 0 <= i && i + 1 < |names| && 0 <= k < |pairs|
                        && c == Conn(Path(names[i], pairs[k].0), Path(names[i + 1], pairs[k].1))
  {
    var i, k := WiringSource(names, pairs, c);
  }

  /** The children `build_sequence` adds: the i-th product of the factory,
      named by its kind and its position in this call. The factory is given as
      the function from call number to what that call returns. */
  function SequenceChildren(factory: nat -> Node, n: nat): seq<Child> {
    seq(n, i requires 0 <= i < n => Child(ChildName(factory(i), i), factory(i)))
  }

  /** The names of the children, in order. */
  function Names(cs: seq<Child>): seq<string> {
    seq(|cs|, i requires 0 <= i < |cs| => cs[i].name)
  }

  lemma SequenceChildrenStep(factory: nat -> Node, i: nat)
    ensures SequenceChildren(factory, i + 1)
         == SequenceChildren(factory, i) + [Child(ChildName(factory(i), i), factory(i))]
    ensures Names(SequenceChildren(factory, i + 1)) == Names(SequenceChildren(factory, i)) + [ChildName(factory(i), i)]
  {
    assert SequenceChildren(factory, i + 1)[..i] == SequenceChildren(factory, i);
  }

  lemma WiringSnoc(names: seq<string>, name: string, pairs: seq<(string, string)>)
    ensures Wiring(names + [name], pairs)
         == Wiring(names, pairs) + (if names == [] then [] else Wire(names[|names| - 1], name, pairs))
  {
    var n := names + [name];
    assert n[..|n| - 1] == names;
    if names != [] {
      assert n[|n| - 2] == names[|names| - 1];
    }
  }

  /** The inner loop of `build_sequence`: one connection per pair, from the
      previous child to the current one. */
  method ConnectPairs(g: Group, prev: string, cur: string, pairs: seq<(string, string)>)
    modifies g
    ensures g.children == old(g.children)
    ensures g.conns == old(g.conns) + Wire(prev, cur, pairs)
  {
    var k := 0;
    while k < |pairs|
      invariant 0 <= k <= |pairs|
      invariant g.children == old(g.children)
      invariant g.conns == old(g.conns) + Wire(prev, cur, pairs)[..k]
    {
      var (u, v) := pairs[k];
      g.Connect(Path(prev, u), Path(cur, v));
      assert Wire(prev, cur, pairs)[..k + 1] == Wire(prev, cur, pairs)[..k] + [Conn(Path(prev, u), Path(cur, v))];
      k := k + 1;
    }
    assert Wire(prev, cur, pairs)[..k] == Wire(prev, cur, pairs);
  }

  /** The wiring of a chain grows by the connections between its last two children. */
  lemma SequenceWiringStep(factory: nat -> Node, i: nat, pairs: seq<(string, string)>)
    ensures Wiring(Names(SequenceChildren(factory, i + 1)), pairs)
         == Wiring(Names(SequenceChildren(factory, i)), pairs)
            + (if i > 0 then Wire(ChildName(factory(i - 1), i - 1), ChildName(factory(i), i), pairs) else [])
  {
    var names := Names(SequenceChildren(factory, i));
    SequenceChildrenStep(factory, i);
    WiringSnoc(names, ChildName(factory(i), i), pairs);
  }

  /** One iteration of `build_sequence`: add child i under its generated name
      and, from the second child on, wire the previous child `prev` to it. */
  method AddNext(g: Group, factory: nat -> Node, i: nat, prev: string, pairs: seq<(string, string)>) returns (cname: string)
    modifies g
    ensures cname == ChildName(factory(i), i)
    ensures g.children == old(g.children) + [Child(cname, factory(i))]
    ensures g.conns == old(g.conns) + (if i > 0 then Wire(prev, cname, pairs) else [])
  {
    var child := factory(i);
    cname := ChildName(child, i);
    g.Add(cname, child);
    if i > 0 {
      ConnectPairs(g, prev, cname, pairs);
    }
  }

  /** `build_sequence(child_factory, num_children, conns, parent)`. With no
      parent a fresh group is used; otherwise the given one is returned with
      the new children and connections after its existing ones. */
  method BuildSequence(factory: nat -> Node, numChildren: int, pairs: seq<(string, string)>, parent: Group?)
    returns (g: Group)
    modifies parent
    ensures parent != null ==> g == parent
    ensures parent == null ==> fresh(g)
    ensures g.children == (if parent == null then [] else old(parent.children))
                          + SequenceChildren(factory, Range(numChildren))
    ensures g.conns == (if parent == null then [] else old(parent.conns))
                       + Wiring(Names(SequenceChildren(factory, Range(numChildren))), pairs)
  {
    if parent == null {
      g := new Group();
    } else {
      g := parent;
    }
    ghost var baseChildren, baseConns := g.children, g.conns;
    var n := Range(numChildren);
    var cnames: seq<string> := [];
    var i := 0;
    while i < n
      invariant 0 <= i <= n
      invariant cnames == Names(SequenceChildren(factory, i))
      invariant g.children == baseChildren + SequenceChildren(factory, i)
      invariant g.conns == baseConns + Wiring(cnames, pairs)
    {
      var prev := if i > 0 then cnames[|cnames| - 1] else "";
      var cname := AddNext(g, factory, i, prev, pairs);
      SequenceChildrenStep(factory, i);
      AppendAssoc(baseChildren, SequenceChildren(factory, i), [Child(cname, factory(i))]);
      SequenceWiringStep(factory, i, pairs);
      AppendAssoc(baseConns, Wiring(cnames, pairs), if i > 0 then Wire(prev, cname, pairs) else []);
      cnames := cnames + [cname];
      i := i + 1;
    }
  }

  /** In a chain built by `build_sequence` the children's names are distinct,
      and every connection runs from child i-1 to child i for some i >= 1:
      none skips a position, goes backwards or ends at the first child. */
  lemma SequenceWiringAdjacent(factory: nat -> Node, n: nat, pairs: seq<(string, string)>, c: Conn)
    requires c in Wiring(Names(SequenceChildren(factory, n)), pairs)
    ensures exists i :: 1 <= i < n && Owner(c.src) == ChildName(factory(i - 1), i - 1)
                                   && Owner(c.dst) == ChildName(factory(i), i)
    ensures Owner(c.dst) != ChildName(factory(0), 0)
  {
    var j := SequenceConnOwners(factory, n, pairs, c);
    ChildNameDistinct(factory(j), j, factory(0), 0);
  }

  /** The position of the child a chain connection ends at. */
  lemma SequenceConnOwners(factory: nat -> Node, n: nat, pairs: seq<(string, string)>, c: Conn) returns (j: nat)
    requires c in Wiring(Names(SequenceChildren(factory, n)), pairs)
    ensures 1 <= j < n
    ensures Owner(c.src) == ChildName(factory(j - 1), j - 1) && Owner(c.dst) == ChildName(factory(j), j)
  {
    var names := Names(SequenceChildren(factory, n));
    var i, k := WiringSource(names, pairs, c);
    j := i + 1;
    var a, b := ChildName(factory(i), i), ChildName(factory(j), j);
    assert names[i] == a && names[j] == b;
    ChildNameDistinct(factory(i), i, factory(i), i);
    ChildNameDistinct(factory(j), j, factory(j), j);
    OwnerOfPath(a, pairs[k].0);
    OwnerOfPath(b, pairs[k].1);
  }

  lemma SequenceNamesDistinct(factory: nat -> Node, n: nat)
    ensures forall i, j :: 0 <= i < j < n ==>
      Names(SequenceChildren(factory, n))[i] != Names(SequenceChildren(factory, n))[j]
  {
    forall i, j | 0 <= i < j < n
      ensures Names(SequenceChildren(factory, n))[i] != Names(SequenceChildren(factory, n))[j]
    {
      ChildNameDistinct(factory(i), i, factory(j), j);
    }
  }

  /** A DynComp with `h` parameters and `h` outputs, as its parent records it. */
  function DynLeaf(h: int): Node {
    Leaf(VarNames("p", Range(h)), VarNames("o", Range(h)), [])
  }

  /** The children `create_dyncomps` adds: `C0 ... C(n-1)`. */
  function DynChildren(n: nat, nvars: int): seq<Child> {
    seq(n, i requires 0 <= i < n => Child("C" + Dec(i), DynLeaf(nvars / 2)))
  }

  /** The pairs `create_dyncomps` wires between consecutive components: output `o<j>` to parameter `p<j>`. */
  function DynPairs(m: nat): seq<(string, string)> {
    seq(m, j requires 0 <= j < m => ("o" + Dec(j), "p" + Dec(j)))
  }

  lemma DynChildrenStep(i: nat, nvars: int)
    ensures DynChildren(i + 1, nvars) == DynChildren(i, nvars) + [Child("C" + Dec(i), DynLeaf(nvars / 2))]
  {
    assert DynChildren(i + 1, nvars)[..i] == DynChildren(i, nvars);
  }

  /** The names `C0 ... C(n-1)` of the components `create_dyncomps` adds. */
  function DynNames(n: nat): seq<string> {
    seq(n, i requires 0 <= i < n => "C" + Dec(i))
  }

  lemma DynNamesOf(n: nat, nvars: int)
    ensures Names(DynChildren(n, nvars)) == DynNames(n)
  {
  }

  lemma DynWiringStep(i: nat, pairs: seq<(string, string)>)
    ensures Wiring(DynNames(i + 1), pairs)
         == Wiring(DynNames(i), pairs) + (if i > 0 then Wire("C" + Dec(i - 1), "C" + Dec(i), pairs) else [])
  {
    assert DynNames(i + 1) == DynNames(i) + ["C" + Dec(i)];
    WiringSnoc(DynNames(i), "C" + Dec(i), pairs);
  }

  /** `"C%d.o%d" % (i - 1, j)` and `"C%d.p%d" % (i, j)` are the dotted paths of
      output j of `C<i-1>` and parameter j of `C<i>`: connection j between them. */
  lemma DynConnAt(i: nat, j: nat, m: nat)
    requires i >= 1 && j < m
    ensures Wire("C" + Dec(i - 1), "C" + Dec(i), DynPairs(m))[j]
         == Conn("C" + Dec(i - 1) + ".o" + Dec(j), "C" + Dec(i) + ".p" + Dec(j))
  {
    assert "C" + Dec(i - 1) + ".o" + Dec(j) == Path("C" + Dec(i - 1), "o" + Dec(j));
    assert "C" + Dec(i) + ".p" + Dec(j) == Path("C" + Dec(i), "p" + Dec(j));
  }

  /** The inner loop of `create_dyncomps` for component `C<i>`, i >= 1:
      output j of `C<i-1>` to parameter j of `C<i>`, for j in range(nconns). */
  method ConnectToPrevious(parent: Group, i: nat, nconns: int)
    requires i >= 1
    modifies parent
    ensures parent.children == old(parent.children)
    ensures parent.conns == old(parent.conns) + Wire("C" + Dec(i - 1), "C" + Dec(i), DynPairs(Range(nconns)))
  {
    ghost var w := Wire("C" + Dec(i - 1), "C" + Dec(i), DynPairs(Range(nconns)));
    var j := 0;
    while j < Range(nconns)
      invariant 0 <= j <= Range(nconns)
      invariant parent.children == old(parent.children)
      invariant parent.conns == old(parent.conns) + w[..j]
    {
      parent.Connect("C" + Dec(i - 1) + ".o" + Dec(j), "C" + Dec(i) + ".p" + Dec(j));
      DynConnAt(i, j, Range(nconns));
      assert w[..j + 1] == w[..j] + [w[j]];
      j := j + 1;
    }
    assert w[..j] == w;
  }

  /** One iteration of `create_dyncomps`: add `C<i>`, a DynComp with
      `nvars // 2` parameters and outputs (Python's `//` floors; with a positive
      divisor Dafny's `/` does the same), then wire it to `C<i-1>` if i >= 1. */
  method AddDynComp(parent: Group, i: nat, nvars: int, nconns: int)
    modifies parent
    ensures parent.children == old(parent.children) + [Child("C" + Dec(i), DynLeaf(nvars / 2))]
    ensures parent.conns == old(parent.conns)
                            + (if i > 0 then Wire("C" + Dec(i - 1), "C" + Dec(i), DynPairs(Range(nconns))) else [])
  {
    var nparams := nvars / 2;
    var nunknowns := nvars / 2;
    var comp := new DynComp(nparams, nunknowns, 0, 0.001, 0.001);
    parent.Add("C" + Dec(i), comp.AsNode());
    if i > 0 {
      ConnectToPrevious(parent, i, nconns);
    }
  }

  /** `create_dyncomps(parent, ncomps, nvars, nconns)`. */
  method CreateDynComps(parent: Group, ncomps: int, nvars: int, nconns: int)
    modifies parent
    ensures parent.children == old(parent.children) + DynChildren(Range(ncomps), nvars)
    ensures parent.conns == old(parent.conns)
                            + Wiring(Names(DynChildren(Range(ncomps), nvars)), DynPairs(Range(nconns)))
  {
    ghost var baseChildren, baseConns := parent.children, parent.conns;
    ghost var pairs := DynPairs(Range(nconns));
    var i := 0;
    while i < Range(ncomps)
      invariant 0 <= i <= Range(ncomps)
      invariant parent.children == baseChildren + DynChildren(i, nvars)
      invariant parent.conns == baseConns + Wiring(DynNames(i), pairs)
    {
      ghost var w := if i > 0 then Wire("C" + Dec(i - 1), "C" + Dec(i), pairs) else [];
      AddDynComp(parent, i, nvars, nconns);
      DynChildrenStep(i, nvars);
      AppendAssoc(baseChildren, DynChildren(i, nvars), [Child("C" + Dec(i), DynLeaf(nvars / 2))]);
      DynWiringStep(i, pairs);
      AppendAssoc(baseConns, Wiring(DynNames(i), pairs), w);
      i := i + 1;
    }
    DynNamesOf(i, nvars);
  }

  /** `create_dyncomps` is `build_sequence` with a factory of identical leaf
      components and the pairs `(o<j>, p<j>)` for j < nconns. */
  lemma DynCompsAsSequence(n: nat, nvars: int)
    ensures DynChildren(n, nvars) == SequenceChildren(_ => DynLeaf(nvars / 2), n)
  {
    var f: nat -> Node := _ => DynLeaf(nvars / 2);
    forall i | 0 <= i < n ensures DynChildren(n, nvars)[i] == SequenceChildren(f, n)[i] {
      assert ChildName(f(i), i) == "C" + Dec(i);
    }
  }

  /** The end-to-end example: three one-in, one-out leaves chained on
      `("out", "in")` give `C0, C1, C2` and exactly the two connections
      `C0.out -> C1.in` and `C1.out -> C2.in`. */
  lemma ThreeLeafChain(leaf: Node)
    requires leaf.Leaf?
    ensures Names(SequenceChildren(_ => leaf, 3)) == ["C0", "C1", "C2"]
    ensures Wiring(Names(SequenceChildren(_ => leaf, 3)), [("out", "in")])
         == [Conn("C0.out", "C1.in"), Conn("C1.out", "C2.in")]
  {
    var names := Names(SequenceChildren(_ => leaf, 3));
    assert Dec(0) == "0" && Dec(1) == "1" && Dec(2) == "2";
    assert names[0] == ChildName(leaf, 0) == "C0";
    assert names[1] == ChildName(leaf, 1) == "C1";
    assert names[2] == ChildName(leaf, 2) == "C2";
    assert names == ["C0", "C1", "C2"];
    assert names[..2] == ["C0", "C1"];
    assert names[..2][..1] == ["C0"];
    assert Path("C0", "out") == "C0.out" && Path("C1", "in") == "C1.in";
    assert Path("C1", "out") == "C1.out" && Path("C2", "in") == "C2.in";
    assert Wiring(names[..2], [("out", "in")]) == [Conn("C0.out", "C1.in")];
  }
}
