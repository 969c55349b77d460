/**
 The merge by which the demos seed their agent's block in every config file
 (examples/alerts_and_drift/_shared.py): a value that is there already is kept, what is missing is added.
 */
module DeepMerge {

  /** A value that is no dict: text, a list (of which only the strings matter here), or something else. */
  datatype Value = Text(text: string) | Items(strings: set<string>) | Other(code: int)

  datatype Tree = Leaf(value: Value) | Node(kids: map<string, Tree>)

  const EMPTY := Node(map[])

  /** `_deep_merge_missing(a, b)`, as the value `a` ends with. */
  function Merge(a: Tree, b: Tree): Tree {
    if a.Node? && b.Node? then
      Node(map k | k in a.kids.Keys + b.kids.Keys ::
             if k !in a.kids then b.kids[k]
             else if k !in b.kids then a.kids[k]
             else Merge(a.kids[k], b.kids[k]))
    else a
  }

  // ---------------------------------------------------------------------
  // What is at a path
  // ---------------------------------------------------------------------

  type Path = seq<string>

  datatype Kind = Nothing | Dict | Value(value: Value)

  function KindAt(t: Tree, p: Path): Kind {
    if p == [] then (if t.Node? then Dict else Value(t.value))
    else if t.Node? && p[0] in t.kids then KindAt(t.kids[p[0]], p[1..])
    else Nothing
  }

  /** Somewhere on the way to `p` stands a value. */
  predicate Shadowed(t: Tree, p: Path) {
    p != [] && (t.Leaf? || (p[0] in t.kids && Shadowed(t.kids[p[0]], p[1..])))
  }

  /** The paths say all there is to say about a tree. */
  lemma {:induction false} SamePathsSameTree(a: Tree, b: Tree)
    requires forall p: Path :: KindAt(a, p) == KindAt(b, p)
    ensures a == b
  {
    assert KindAt(a, []) == KindAt(b, []);
    if a.Node? {
      forall k ensures k in a.kids <==> k in b.kids {
        assert KindAt(a, [k]) == KindAt(b, [k]);
        assert k in a.kids ==> KindAt(a, [k]) == KindAt(a.kids[k], [k][1..]);
        assert k in b.kids ==> KindAt(b, [k]) == KindAt(b.kids[k], [k][1..]);
        assert k in a.kids ==> KindAt(a, [k]) != Nothing;
        assert k in b.kids ==> KindAt(b, [k]) != Nothing;
      }
      forall k | k in a.kids ensures a.kids[k] == b.kids[k] {
        forall p: Path ensures KindAt(a.kids[k], p) == KindAt(b.kids[k], p) {
          var q := [k] + p;
          assert q[1..] == p;
          assert KindAt(a, q) == KindAt(b, q);
        }
        SamePathsSameTree(a.kids[k], b.kids[k]);
      }
    }
  }

  /**
   The merge, path by path: what the target has stays as it is, every path of the source is there
   unless the target has it or a value of the target is in its way, and there is nothing else.
   */
  lemma {:induction false} MergeAt(a: Tree, b: Tree, p: Path)
    requires a.Node? && b.Node?
    ensures KindAt(Merge(a, b), p)
         == if KindAt(a, p) != Nothing then KindAt(a, p)
            else if Shadowed(a, p) then Nothing
            else KindAt(b, p)
  {
    if p != [] && p[0] in a.kids && p[0] in b.kids {
      var x, y := a.kids[p[0]], b.kids[p[0]];
      if x.Node? && y.Node? {
        MergeAt(x, y, p[1..]);
      } else if x.Node? && p[1..] != [] {
        LeafIsShallow(y, p[1..]);
        OnlyLeavesShadow(x, p[1..]);
      }
    }
  }

  lemma {:induction false} LeafIsShallow(t: Tree, p: Path)
    requires t.Leaf? && p != []
    ensures KindAt(t, p) == Nothing
  {}

  lemma {:induction false} OnlyLeavesShadow(t: Tree, p: Path)
    ensures Shadowed(t, p) ==> KindAt(t, p) == Nothing
  {
    if p != [] && t.Node? && p[0] in t.kids {
      OnlyLeavesShadow(t.kids[p[0]], p[1..]);
    }
  }

  // ---------------------------------------------------------------------
  // Laws
  // ---------------------------------------------------------------------

  lemma {:induction false} MergeTwice(a: Tree, b: Tree)
    ensures Merge(Merge(a, b), b) == Merge(a, b)
    ensures Merge(b, b) == b
    decreases b
  {
    if b.Node? {
      var m := Merge(a, b);
      forall k | k in b.kids ensures Merge(b.kids[k], b.kids[k]) == b.kids[k] {
        MergeTwice(b, b.kids[k]);
      }
      if a.Node? {
        forall k | k in m.kids && k in b.kids ensures Merge(m.kids[k], b.kids[k]) == m.kids[k] {
          MergeTwice(if k in a.kids then a.kids[k] else b.kids[k], b.kids[k]);
        }
        assert Merge(m, b).kids == m.kids;
      }
      assert Merge(b, b).kids == b.kids;
    }
  }

  /** Merging `c` into `a` would add something. */
  ghost predicate Adds(a: Tree, c: Tree) {
    a.Node? && c.Node?
    && exists k :: k in c.kids && (k !in a.kids || Adds(a.kids[k], c.kids[k]))
  }

  lemma {:induction false} AddsMeans(a: Tree, c: Tree)
    ensures Merge(a, c) != a <==> Adds(a, c)
  {
    if a.Node? && c.Node? {
      var m := Merge(a, c);
      forall k | k in a.kids && k in c.kids ensures m.kids[k] != a.kids[k] <==> Adds(a.kids[k], c.kids[k]) {
        AddsMeans(a.kids[k], c.kids[k]);
      }
      if Adds(a, c) {
        var k :| k in c.kids && (k !in a.kids || Adds(a.kids[k], c.kids[k]));
        assert k in m.kids;
      } else {
        assert m.kids == a.kids;
      }
    }
  }

  /** Somewhere `a` and `c` have a dict where `b` has a value, and `c` has something to add there. */
  ghost predicate Clash(a: Tree, b: Tree, c: Tree) {
    a.Node? && c.Node?
    && (if b.Leaf? then Adds(a, c)
        else exists k :: k in a.kids && k in b.kids && k in c.kids && Clash(a.kids[k], b.kids[k], c.kids[k]))
  }

  /** Merging is associative exactly where no value stands between two dicts. */
  lemma {:induction false} Associative(a: Tree, b: Tree, c: Tree)
    ensures Merge(Merge(a, b), c) == Merge(a, Merge(b, c)) <==> !Clash(a, b, c)
  {
    if a.Node? && b.Leaf? {
      AddsMeans(a, c);
    } else if a.Node? && c.Node? {
      var l, r := Merge(Merge(a, b), c), Merge(a, Merge(b, c));
      assert l.kids.Keys == r.kids.Keys;
      forall k | k in a.kids && k in b.kids && k in c.kids
        ensures l.kids[k] == r.kids[k] <==> !Clash(a.kids[k], b.kids[k], c.kids[k])
      {
        Associative(a.kids[k], b.kids[k], c.kids[k]);
      }
      forall k | k in l.kids && !(k in a.kids && k in b.kids && k in c.kids) ensures l.kids[k] == r.kids[k] {}
      if l.kids == r.kids {
        assert l == r;
      }
    }
  }

  /** {x: {}}, {x: 1} and {x: {y: 1}}: merged from the left `y` is added, from the right it is not. */
  lemma {:induction false} OrderMatters()
    ensures var one := Leaf(Other(1));
            var a, b, c := Node(map["x" := EMPTY]), Node(map["x" := one]), Node(map["x" := Node(map["y" := one])]);
            Merge(Merge(a, b), c) == c && Merge(a, Merge(b, c)) == a && a != c
  {
    var one := Leaf(Other(1));
    var y := Node(map["y" := one]);
    var a, b, c := Node(map["x" := EMPTY]), Node(map["x" := one]), Node(map["x" := y]);
    assert Merge(EMPTY, y).kids == y.kids;
    assert Merge(a, b).kids == a.kids;
    assert Merge(a, c).kids == c.kids;
    assert Merge(b, c).kids == b.kids;
    assert "y" in y.kids && "y" !in EMPTY.kids;
    assert a.kids["x"] != c.kids["x"];
  }
}
