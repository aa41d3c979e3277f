/**
 * The `JsonViewer` component: what it shows for a JSON value, given the
 * expansion flag of every mounted node, and how clicking a toggle changes
 * those flags.
 *
 * React keeps one `useState` flag per mounted `JsonViewer`; a node is named
 * here by its path from the root, the positions of the children taken on
 * the way down (position i is array index i, or the i-th entry of
 * `Object.entries`).
 */
module JsonViewer {
  import opened Json

  type Path = seq<nat>

  /** What precedes a child: its array index or its property name. */
  datatype Label = Index(i: nat) | Key(name: string)

  /**
   * The visible tree. A scalar is a leaf showing the value's literal
   * (the text `JSON.stringify` writes is not modelled); a composite is a
   * toggle button captioned "Array" or "Object" followed by its visible children.
   */
  datatype View =
    | Leaf(literal: JsonValue)
    | Branch(caption: string, expanded: bool, children: seq<Child>)

  datatype Child = Child(tag: Label, view: View)

  /**
   * The expansion state of the mounted nodes: a node with an entry in
   * `explicit` shows that flag; any other node still has the value its
   * `useState` started with, which is `initialExpanded` at the root and
   * `false` everywhere else (children are rendered without the prop).
   */
  datatype Flags = Flags(explicit: map<Path, bool>, initialExpanded: bool)

  /** `p` names `q` or one of its ancestors. */
  predicate Prefix(p: Path, q: Path)
  {
    |p| <= |q| && q[..|p|] == p
  }

  /** The flag of node `p`: its own entry, else the value its `useState` started with. */
  function IsExpanded(f: Flags, p: Path): (b: bool)
    ensures p in f.explicit ==> b == f.explicit[p]
    ensures p !in f.explicit && p != [] ==> !b
  {
    if p in f.explicit then f.explicit[p] else p == [] && f.initialExpanded
  }

  /** Node `p` is on screen: every proper ancestor of it is expanded. */
  predicate Shown(f: Flags, p: Path)
  {
    forall j :: 0 <= j < |p| ==> IsExpanded(f, p[..j])
  }

  /**
   * Only mounted nodes hold state: a node whose ancestors are not all
   * expanded is unmounted, and React keeps no flag for it.
   */
  predicate NoStale(f: Flags)
  {
    forall q :: q in f.explicit ==> Shown(f, q)
  }

  /** The flags of a freshly mounted viewer. */
  function Fresh(initialExpanded: bool): (f: Flags)
    ensures IsExpanded(f, []) == initialExpanded
    ensures forall p :: p != [] ==> !IsExpanded(f, p)
    ensures NoStale(f)
  {
    Flags(map[], initialExpanded)
  }

  /**
   * A click on the toggle of node `p` (`setIsExpanded(!isExpanded)`).
   * Expanding changes that one flag. Collapsing also unmounts the node's
   * children, and React discards their state, so every flag strictly
   * below `p` goes back to its initial `false`.
   */
  function ToggleAt(f: Flags, p: Path): (g: Flags)
    ensures g.initialExpanded == f.initialExpanded
    ensures IsExpanded(g, p) == !IsExpanded(f, p)
    ensures forall q :: q != p && !Prefix(p, q) ==> IsExpanded(g, q) == IsExpanded(f, q)
    ensures !IsExpanded(f, p) ==> forall q :: q != p ==> IsExpanded(g, q) == IsExpanded(f, q)
    ensures IsExpanded(f, p) ==> forall q :: q != p && Prefix(p, q) ==> q !in g.explicit && !IsExpanded(g, q)
  {
    if IsExpanded(f, p) then
      var kept := map q | q in f.explicit && !Prefix(p, q) :: f.explicit[q];
      Flags(kept[p := false], f.initialExpanded)
    else
      Flags(f.explicit[p := true], f.initialExpanded)
  }

  /** How many children a composite has (0 for a scalar). */
  function Arity(v: JsonValue): nat
  {
    match v
    case JArray(items) => |items|
    case JObject(entries) => |entries|
    case _ => 0
  }

  /** Whether `p` names a composite of `v`, a node that has a toggle. */
  predicate HasToggle(v: JsonValue, p: Path)
    decreases |p|
  {
    !IsScalar(v) && (p == [] || (p[0] < Arity(v) && HasToggle(ChildAt(v, p[0]), p[1..])))
  }

  function LabelAt(v: JsonValue, i: nat): Label
    requires i < Arity(v)
  {
    if v.JArray? then Index(i) else Key(v.entries[i].0)
  }

  function ChildAt(v: JsonValue, i: nat): JsonValue
    requires i < Arity(v)
  {
    if v.JArray? then v.items[i] else v.entries[i].1
  }

  function Caption(v: JsonValue): (c: string)
    ensures c == "Array" <==> v.JArray?
    ensures v.JObject? ==> c == "Object"
    ensures c == "Array" || c == "Object"
  {
    if v.JArray? then "Array" else "Object"
  }

  /**
   * What the `JsonViewer` mounted at path `p` displays for `v`. Scalars are
   * leaves without a toggle; a composite shows its toggle, and its children
   * only while its own flag is set, in index or entry order.
   */
  function Render(v: JsonValue, p: Path, f: Flags): (r: View)
    ensures r.Leaf? <==> IsScalar(v)
    ensures r.Leaf? ==> r.literal == v
    ensures r.Branch? ==> r.caption == Caption(v) && r.expanded == IsExpanded(f, p)
    ensures r.Branch? ==> |r.children| == if r.expanded then Arity(v) else 0
    ensures r.Branch? ==> forall i :: 0 <= i < |r.children| ==> r.children[i].tag == LabelAt(v, i)
    decreases v
  {
    match v
    case JArray(items) =>
      var open := IsExpanded(f, p);
      Branch("Array", open,
        if open then seq(|items|, i requires 0 <= i < |items| => Child(Index(i), Render(items[i], p + [i], f)))
        else [])
    case JObject(entries) =>
      var open := IsExpanded(f, p);
      Branch("Object", open,
        if open then seq(|entries|, i requires 0 <= i < |entries| =>
                         Child(Key(entries[i].0), Render(entries[i].1, p + [i], f)))
        else [])
    case _ => Leaf(v)
  }

  /** A node that shows nothing below itself: a leaf, or a collapsed toggle. */
  predicate Collapsed(r: View)
  {
    r.Leaf? || (!r.expanded && r.children == [])
  }

  /** An expanded composite lists child i as child i rendered one level deeper. */
  lemma RenderedChild(v: JsonValue, p: Path, f: Flags, i: nat)
    requires !IsScalar(v) && IsExpanded(f, p) && i < Arity(v)
    ensures i < |Render(v, p, f).children|
    ensures Render(v, p, f).children[i] == Child(LabelAt(v, i), Render(ChildAt(v, i), p + [i], f))
  {
  }

  lemma PrefixOfExtension(p: Path, i: nat, q: Path)
    requires Prefix(p + [i], q)
    ensures Prefix(p, q) && q != p
  {
    assert q[..|p|] == q[..|p| + 1][..|p|];
  }

  /**
   * The subtree at `p` depends only on the flags at `p` and below it:
   * two states that agree there render it identically.
   */
  lemma {:induction false} RenderLocal(v: JsonValue, p: Path, f: Flags, g: Flags)
    requires forall q :: Prefix(p, q) ==> IsExpanded(f, q) == IsExpanded(g, q)
    ensures Render(v, p, f) == Render(v, p, g)
    decreases v
  {
    assert Prefix(p, p);
    if !IsScalar(v) && IsExpanded(f, p) {
      var rf, rg := Render(v, p, f), Render(v, p, g);
      forall i | 0 <= i < Arity(v)
        ensures Render(ChildAt(v, i), p + [i], f) == Render(ChildAt(v, i), p + [i], g)
      {
        forall q | Prefix(p + [i], q) ensures IsExpanded(f, q) == IsExpanded(g, q) {
          PrefixOfExtension(p, i, q);
        }
        if v.JArray? {
          assert ChildAt(v, i) == v.items[i];
        } else {
          assert ChildAt(v, i) == v.entries[i].1;
        }
        RenderLocal(ChildAt(v, i), p + [i], f, g);
      }
      forall i | 0 <= i < |rf.children| ensures rf.children[i] == rg.children[i] {
        RenderedChild(v, p, f, i);
        RenderedChild(v, p, g, i);
      }
    }
  }

  /** `initialExpanded` is honoured at the root only: below it, it changes nothing. */
  lemma {:induction false} InitialOnlyAtRoot(v: JsonValue, p: Path, explicit: map<Path, bool>, a: bool, b: bool)
    requires p != []
    ensures Render(v, p, Flags(explicit, a)) == Render(v, p, Flags(explicit, b))
  {
    forall q | Prefix(p, q) ensures IsExpanded(Flags(explicit, a), q) == IsExpanded(Flags(explicit, b), q) {
    }
    RenderLocal(v, p, Flags(explicit, a), Flags(explicit, b));
  }

  /** A newly mounted viewer: the root follows `initialExpanded`, every child starts collapsed. */
  lemma FreshTree(v: JsonValue, initialExpanded: bool, i: nat)
    requires !IsScalar(v) && initialExpanded && i < Arity(v)
    ensures Render(v, [], Fresh(initialExpanded)).expanded
    ensures i < |Render(v, [], Fresh(initialExpanded)).children|
    ensures Collapsed(Render(v, [], Fresh(initialExpanded)).children[i].view)
  {
    RenderedChild(v, [], Fresh(initialExpanded), i);
  }

  /** Two ancestors of one node lie on one line: one is an ancestor of the other. */
  lemma PrefixesComparable(p: Path, q: Path, r: Path)
    requires Prefix(p, r) && Prefix(q, r)
    ensures Prefix(p, q) || Prefix(q, p)
  {
    if |p| <= |q| {
      assert q[..|p|] == r[..|q|][..|p|];
    } else {
      assert p[..|q|] == r[..|p|][..|q|];
    }
  }

  /** Clicking `p` leaves every subtree that neither contains `p` nor lies below it as it was. */
  lemma {:induction false} ToggleKeepsOthers(v: JsonValue, q: Path, f: Flags, p: Path)
    requires !Prefix(q, p) && !Prefix(p, q)
    ensures Render(v, q, ToggleAt(f, p)) == Render(v, q, f)
  {
    forall r | Prefix(q, r) ensures IsExpanded(ToggleAt(f, p), r) == IsExpanded(f, r) {
      if Prefix(p, r) {
        PrefixesComparable(p, q, r);
      }
    }
    RenderLocal(v, q, ToggleAt(f, p), f);
  }

  /**
   * Expanding a collapsed composite reveals exactly its immediate children,
   * each shown as it already would have been (nothing deeper is touched).
   * In flags without stale entries, each of them mounts collapsed.
   */
  lemma ExpandReveals(v: JsonValue, p: Path, f: Flags, i: nat)
    requires !IsScalar(v) && !IsExpanded(f, p) && i < Arity(v)
    ensures Render(v, p, f) == Branch(Caption(v), false, [])
    ensures var r := Render(v, p, ToggleAt(f, p));
            r.caption == Caption(v) && r.expanded && |r.children| == Arity(v)
            && r.children[i] == Child(LabelAt(v, i), Render(ChildAt(v, i), p + [i], f))
    ensures NoStale(f) ==> Collapsed(Render(v, p, ToggleAt(f, p)).children[i].view)
  {
    var g := ToggleAt(f, p);
    RenderedChild(v, p, g, i);
    forall q | Prefix(p + [i], q) ensures IsExpanded(g, q) == IsExpanded(f, q) {
      PrefixOfExtension(p, i, q);
    }
    RenderLocal(ChildAt(v, i), p + [i], g, f);
    if NoStale(f) {
      assert (p + [i])[..|p|] == p;
      assert p + [i] !in f.explicit;
      assert !IsExpanded(f, p + [i]);
    }
  }

  /** A prefix of a path outside `p`'s subtree is outside it too. */
  lemma PrefixOfPrefix(p: Path, q: Path, j: nat)
    requires j <= |q| && !Prefix(p, q)
    ensures !Prefix(p, q[..j])
  {
    if |p| <= j {
      assert q[..j][..|p|] == q[..|p|];
    }
  }

  /** Clicking node `p` keeps the flags of an ancestor of any node that holds a flag afterwards. */
  lemma AncestorKept(f: Flags, p: Path, q: Path, j: nat)
    requires NoStale(f) && Shown(f, p)
    requires q in ToggleAt(f, p).explicit && j < |q|
    ensures IsExpanded(ToggleAt(f, p), q[..j])
  {
    var a := q[..j];
    if q == p {
      assert IsExpanded(f, a) && |a| < |p|;
    } else if IsExpanded(f, p) {
      assert q in f.explicit && !Prefix(p, q);
      PrefixOfPrefix(p, q, j);
    } else {
      assert q in f.explicit;
      assert IsExpanded(f, a);
    }
  }

  /** A click on a node that is on screen never leaves a flag on an unmounted node. */
  lemma {:induction false} ToggleKeepsNoStale(f: Flags, p: Path)
    requires NoStale(f) && Shown(f, p)
    ensures NoStale(ToggleAt(f, p))
  {
    var g := ToggleAt(f, p);
    forall q | q in g.explicit ensures Shown(g, q) {
      forall j | 0 <= j < |q| ensures IsExpanded(g, q[..j]) {
        AncestorKept(f, p, q, j);
      }
    }
  }

  /**
   * Collapsing an expanded composite and expanding it again shows its
   * children collapsed: their state was lost when they were unmounted.
   */
  lemma CollapseResetsChildren(v: JsonValue, p: Path, f: Flags, i: nat)
    requires !IsScalar(v) && IsExpanded(f, p) && i < Arity(v)
    ensures !Render(v, p, ToggleAt(f, p)).expanded
    ensures var r := Render(v, p, ToggleAt(ToggleAt(f, p), p));
            r.expanded && i < |r.children| && Collapsed(r.children[i].view)
  {
    var g := ToggleAt(ToggleAt(f, p), p);
    RenderedChild(v, p, g, i);
    assert Prefix(p, p + [i]) by { assert (p + [i])[..|p|] == p; }
    assert !IsExpanded(g, p + [i]);
  }
}
