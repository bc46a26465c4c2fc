/**
 * The component tree shared by every part of the model.
 *
 * A component is a value `Node(uid, id, data, children)`: `uid` stands for the identity of the
 * Java object (two components may share a wicket id, never a uid), `id` is the wicket id that
 * is unique among siblings, `data` is whatever the part of the model using the tree needs to
 * know about the component's class and state, and `children` is the ordered child list of a
 * `MarkupContainer` (empty for a leaf). Parent references are not stored: the parent of the
 * component at path `p` is the one at `p` without its last index, and the ancestor chain of a
 * component is recomputed from the root whenever it is needed.
 */
module ComponentTree {
  import opened Wrappers

  datatype Tree<K> = Node(uid: nat, id: string, data: K, children: seq<Tree<K>>)

  /** The structural failures of `MarkupContainer.add`, `replace` and `Component.replaceWith`. */
  datatype TreeError =
    | DuplicateId(id: string)        // add: a child with this id already exists
    | NoSuchChild(id: string)        // replace: no child with this id to replace
    | IdMismatch(id: string)         // replaceWith: the replacement has another id
    | NotAttached(uid: nat)          // remove/replaceWith: the component has no parent

  /** A path is the list of child indexes leading from the root to a component. */
  type Path = seq<nat>

  ghost predicate ValidPath<K>(t: Tree<K>, p: Path)
    decreases p
  {
    |p| == 0 || (p[0] < |t.children| && ValidPath(t.children[p[0]], p[1..]))
  }

  /** The component at path `p`. */
  function At<K>(t: Tree<K>, p: Path): Tree<K>
    requires ValidPath(t, p)
    decreases p
  {
    if |p| == 0 then t else At(t.children[p[0]], p[1..])
  }

  /** `t` with the component at path `p` exchanged for `s`. */
  function Put<K>(t: Tree<K>, p: Path, s: Tree<K>): (r: Tree<K>)
    requires ValidPath(t, p)
    ensures ValidPath(r, p) && At(r, p) == s
    ensures r.uid == (if |p| == 0 then s.uid else t.uid)
    decreases p
  {
    if |p| == 0 then s
    else
      var c := Put(t.children[p[0]], p[1..], s);
      assert t.children[p[0] := c][p[0]] == c;
      t.(children := t.children[p[0] := c])
  }

  /** A prefix of a valid path is valid and leads to an ancestor of the component. */
  lemma {:induction false} PrefixPath<K>(t: Tree<K>, p: Path, k: nat)
    requires ValidPath(t, p) && k <= |p|
    ensures ValidPath(t, p[..k])
    ensures ValidPath(At(t, p[..k]), p[k..]) && At(At(t, p[..k]), p[k..]) == At(t, p)
    decreases p
  {
    if k > 0 {
      PrefixPath(t.children[p[0]], p[1..], k - 1);
      assert p[..k][1..] == p[1..][..k - 1];
      assert p[1..][k - 1..] == p[k..];
    }
  }

  /** Extending a valid path by one child index. */
  lemma {:induction false} ChildPath<K>(t: Tree<K>, p: Path, i: nat)
    requires ValidPath(t, p) && i < |At(t, p).children|
    ensures ValidPath(t, p + [i]) && At(t, p + [i]) == At(t, p).children[i]
    decreases p
  {
    if |p| > 0 {
      ChildPath(t.children[p[0]], p[1..], i);
      assert (p + [i])[1..] == p[1..] + [i];
    }
  }

  /** Number of components in the tree. */
  function Size<K>(t: Tree<K>): (n: nat)
    ensures n >= 1
  {
    1 + SizeAll(t.children)
  }

  function SizeAll<K>(cs: seq<Tree<K>>): nat
  {
    if cs == [] then 0 else Size(cs[0]) + SizeAll(cs[1..])
  }

  // ---------------------------------------------------------------------------------------
  // Identity: uids, lookup by uid, ancestor chains.
  // ---------------------------------------------------------------------------------------

  function Uids<K>(t: Tree<K>): set<nat>
  {
    {t.uid} + UidsAll(t.children)
  }

  function UidsAll<K>(cs: seq<Tree<K>>): set<nat>
  {
    if cs == [] then {} else Uids(cs[0]) + UidsAll(cs[1..])
  }

  /** The uids of the tree in pre-order: a component, then its children's subtrees, first to last. */
  function PreOrder<K>(t: Tree<K>): seq<nat>
  {
    [t.uid] + PreOrderAll(t.children)
  }

  function PreOrderAll<K>(cs: seq<Tree<K>>): seq<nat>
  {
    if cs == [] then [] else PreOrder(cs[0]) + PreOrderAll(cs[1..])
  }

  /** No uid occurs twice in the sequence. */
  predicate Distinct(s: seq<nat>)
  {
    forall i, j :: 0 <= i < j < |s| ==> s[i] != s[j]
  }

  lemma DistinctConcat(a: seq<nat>, b: seq<nat>)
    ensures Distinct(a + b) <==> Distinct(a) && Distinct(b) && forall u :: u in a ==> u !in b
  {
    if Distinct(a) && Distinct(b) && forall u :: u in a ==> u !in b {
      forall i, j | 0 <= i < j < |a + b| ensures (a + b)[i] != (a + b)[j] {
        if j >= |a| && i < |a| {
          assert (a + b)[i] in a && (a + b)[j] in b;
        }
      }
    }
    if Distinct(a + b) {
      forall i, j | 0 <= i < j < |a| ensures a[i] != a[j] {
        assert a[i] == (a + b)[i] && a[j] == (a + b)[j];
      }
      forall i, j | 0 <= i < j < |b| ensures b[i] != b[j] {
        assert b[i] == (a + b)[|a| + i] && b[j] == (a + b)[|a| + j];
      }
      forall u | u in a ensures u !in b {
        var i :| 0 <= i < |a| && a[i] == u;
        forall k | 0 <= k < |b| ensures b[k] != u {
          assert (a + b)[i] == u && (a + b)[|a| + k] == b[k];
        }
      }
    }
  }

  /** The pre-order lists each component of the tree, and under distinct uids each once. */
  lemma {:induction false} PreOrderUids<K>(t: Tree<K>)
    ensures forall u :: u in PreOrder(t) <==> u in Uids(t)
    ensures UniqueUids(t) ==> Distinct(PreOrder(t))
    decreases t, 1
  {
    PreOrderUidsAll(t.children);
    DistinctConcat([t.uid], PreOrderAll(t.children));
  }

  lemma {:induction false} PreOrderUidsAll<K>(cs: seq<Tree<K>>)
    ensures forall u :: u in PreOrderAll(cs) <==> u in UidsAll(cs)
    ensures UniqueUidsAll(cs) ==> Distinct(PreOrderAll(cs))
    decreases cs, 0
  {
    if cs != [] {
      PreOrderUids(cs[0]);
      PreOrderUidsAll(cs[1..]);
      DistinctConcat(PreOrder(cs[0]), PreOrderAll(cs[1..]));
    }
  }

  /** No two components of the tree are the same Java object. */
  ghost predicate UniqueUids<K>(t: Tree<K>)
  {
    t.uid !in UidsAll(t.children) && UniqueUidsAll(t.children)
  }

  ghost predicate UniqueUidsAll<K>(cs: seq<Tree<K>>)
  {
    cs != [] ==> Uids(cs[0]) !! UidsAll(cs[1..]) && UniqueUids(cs[0]) && UniqueUidsAll(cs[1..])
  }

  /** The uids on the way from the root down to the component with uid `u`, both included. */
  function ChainTo<K>(t: Tree<K>, u: nat): (r: Option<seq<nat>>)
    ensures r.Some? ==> |r.value| >= 1 && r.value[0] == t.uid && r.value[|r.value| - 1] == u
    ensures r.Some? <==> u in Uids(t)
  {
    if t.uid == u then Some([u])
    else match ChainToAll(t.children, u)
      case None => None
      case Some(s) => Some([t.uid] + s)
  }

  function ChainToAll<K>(cs: seq<Tree<K>>, u: nat): (r: Option<seq<nat>>)
    ensures r.Some? ==> |r.value| >= 1 && r.value[|r.value| - 1] == u
    ensures r.Some? <==> u in UidsAll(cs)
  {
    if cs == [] then None
    else match ChainTo(cs[0], u)
      case Some(s) => Some(s)
      case None => ChainToAll(cs[1..], u)
  }

  /** The first component, in pre-order, that is the object `u`. */
  function Find<K>(t: Tree<K>, u: nat): (r: Option<Tree<K>>)
    ensures r.Some? ==> r.value.uid == u
  {
    if t.uid == u then Some(t) else FindAll(t.children, u)
  }

  function FindAll<K>(cs: seq<Tree<K>>, u: nat): (r: Option<Tree<K>>)
    ensures r.Some? ==> r.value.uid == u
  {
    if cs == [] then None
    else match Find(cs[0], u)
      case Some(c) => Some(c)
      case None => FindAll(cs[1..], u)
  }

  /** The lookup succeeds exactly for the objects of the tree. */
  lemma {:induction false} FindFound<K>(t: Tree<K>, u: nat)
    ensures Find(t, u).Some? <==> u in Uids(t)
    decreases t, 1
  {
    FindAllFound(t.children, u);
  }

  lemma {:induction false} FindAllFound<K>(cs: seq<Tree<K>>, u: nat)
    ensures FindAll(cs, u).Some? <==> u in UidsAll(cs)
    decreases cs, 0
  {
    if cs != [] {
      FindFound(cs[0], u);
      FindAllFound(cs[1..], u);
    }
  }

  /** The children's uids are those of each child. */
  lemma {:induction false} UidsOfChild<K>(cs: seq<Tree<K>>, k: nat)
    requires k < |cs|
    ensures Uids(cs[k]) <= UidsAll(cs)
    decreases k
  {
    if k > 0 {
      UidsOfChild(cs[1..], k - 1);
    }
  }

  /** In a tree without repeated objects, the lookup finds the component at each path. */
  lemma {:induction false} FindAtPath<K>(t: Tree<K>, p: Path)
    requires UniqueUids(t) && ValidPath(t, p)
    ensures Find(t, At(t, p).uid) == Some(At(t, p))
    decreases p
  {
    if |p| > 0 {
      var c := t.children[p[0]];
      UniqueChild(t.children, p[0]);
      FindAtPath(c, p[1..]);
      FindFound(c, At(t, p).uid);
      FindInChild(t.children, p[0], At(t, p).uid);
      UidsOfChild(t.children, p[0]);
    }
  }

  lemma {:induction false} UniqueChild<K>(cs: seq<Tree<K>>, k: nat)
    requires UniqueUidsAll(cs) && k < |cs|
    ensures UniqueUids(cs[k])
    decreases k
  {
    if k > 0 {
      UniqueChild(cs[1..], k - 1);
    }
  }

  lemma {:induction false} FindInChild<K>(cs: seq<Tree<K>>, k: nat, u: nat)
    requires UniqueUidsAll(cs) && k < |cs| && u in Uids(cs[k])
    ensures FindAll(cs, u) == Find(cs[k], u)
    decreases k
  {
    FindFound(cs[0], u);
    if k > 0 {
      UidsOfChild(cs[1..], k - 1);
      FindInChild(cs[1..], k - 1, u);
    }
  }

  function UnionOf(ss: seq<set<nat>>): set<nat>
  {
    if ss == [] then {} else ss[0] + UnionOf(ss[1..])
  }

  /** The objects of a child list are those of each child. */
  lemma {:induction false} UidsOfChildren<K>(cs: seq<Tree<K>>, ss: seq<set<nat>>)
    requires |ss| == |cs| && forall i :: 0 <= i < |cs| ==> Uids(cs[i]) == ss[i]
    ensures UidsAll(cs) == UnionOf(ss)
  {
    if cs != [] {
      assert forall i :: 0 <= i < |cs| - 1 ==> cs[1..][i] == cs[i + 1] && ss[1..][i] == ss[i + 1];
      UidsOfChildren(cs[1..], ss[1..]);
    }
  }

  /** The objects of `t` are distinct and their uids lie between `lo` (included) and `hi`. */
  ghost predicate Within<K>(t: Tree<K>, lo: nat, hi: nat)
  {
    UniqueUids(t) && forall u :: u in Uids(t) ==> lo <= u < hi
  }

  lemma WithinLeaf<K>(t: Tree<K>)
    requires t.children == []
    ensures Within(t, t.uid, t.uid + 1)
  {
  }

  /**
   * A container numbered before its children, whose children occupy consecutive ranges of
   * uids, has no repeated objects.
   */
  lemma {:induction false} WithinNode<K>(t: Tree<K>, bounds: seq<nat>)
    requires |bounds| == |t.children| + 1 && t.uid < bounds[0]
    requires forall i :: 0 <= i < |t.children| ==> Within(t.children[i], bounds[i], bounds[i + 1])
    ensures Within(t, t.uid, bounds[|t.children|])
  {
    WithinAll(t.children, bounds);
  }

  lemma {:induction false} WithinAll<K>(cs: seq<Tree<K>>, bounds: seq<nat>)
    requires |bounds| == |cs| + 1
    requires forall i :: 0 <= i < |cs| ==> Within(cs[i], bounds[i], bounds[i + 1])
    ensures UniqueUidsAll(cs) && forall u :: u in UidsAll(cs) ==> bounds[0] <= u < bounds[|cs|]
    decreases cs
  {
    if cs != [] {
      assert forall i :: 0 <= i < |cs| - 1 ==> cs[1..][i] == cs[i + 1] && bounds[1..][i] == bounds[i + 1];
      WithinAll(cs[1..], bounds[1..]);
      assert Within(cs[0], bounds[0], bounds[1]) && cs[0].uid in Uids(cs[0]);
      forall u | u in UidsAll(cs[1..]) ensures u !in Uids(cs[0]) {
        assert bounds[1] <= u;
      }
    }
  }

  /**
   * `t` with the object `u` exchanged for `s` wherever it occurs (once, in a tree with unique
   * uids); the subtree of `u` goes with it.
   */
  function Swap<K>(t: Tree<K>, u: nat, s: Tree<K>): (r: Tree<K>)
    ensures r.uid == (if t.uid == u then s.uid else t.uid)
  {
    if t.uid == u then s else t.(children := SwapAll(t.children, u, s))
  }

  function SwapAll<K>(cs: seq<Tree<K>>, u: nat, s: Tree<K>): (r: seq<Tree<K>>)
    ensures |r| == |cs|
  {
    if cs == [] then [] else [Swap(cs[0], u, s)] + SwapAll(cs[1..], u, s)
  }

  /** Swapping out an object that is not part of the tree changes nothing. */
  lemma {:induction false} SwapAbsent<K>(t: Tree<K>, u: nat, s: Tree<K>)
    requires u !in Uids(t)
    ensures Swap(t, u, s) == t
    decreases t, 1
  {
    SwapAllAbsent(t.children, u, s);
  }

  lemma {:induction false} SwapAllAbsent<K>(cs: seq<Tree<K>>, u: nat, s: Tree<K>)
    requires u !in UidsAll(cs)
    ensures SwapAll(cs, u, s) == cs
    decreases cs, 0
  {
    if cs != [] {
      SwapAbsent(cs[0], u, s);
      SwapAllAbsent(cs[1..], u, s);
    }
  }

  /**
   * Swapping an object out and then swapping the original back in restores the tree, provided
   * the stand-in is not an object of the tree.
   */
  lemma {:induction false} SwapBack<K>(t: Tree<K>, u: nat, s: Tree<K>)
    requires UniqueUids(t) && Find(t, u).Some? && s.uid !in Uids(t)
    ensures Swap(Swap(t, u, s), s.uid, Find(t, u).value) == t
    decreases t, 1
  {
    if t.uid != u {
      FindAllFound(t.children, u);
      SwapBackAll(t.children, u, s);
    }
  }

  lemma {:induction false} SwapBackAll<K>(cs: seq<Tree<K>>, u: nat, s: Tree<K>)
    requires UniqueUidsAll(cs) && FindAll(cs, u).Some? && s.uid !in UidsAll(cs)
    ensures SwapAll(SwapAll(cs, u, s), s.uid, FindAll(cs, u).value) == cs
    decreases cs, 0
  {
    var head, rest := cs[0], cs[1..];
    var found := FindAll(cs, u).value;
    FindFound(head, u);
    if u in Uids(head) {
      SwapBack(head, u, s);
      assert u !in UidsAll(rest);
      SwapAllAbsent(rest, u, s);
      SwapAllAbsent(rest, s.uid, found);
    } else {
      SwapAbsent(head, u, s);
      SwapAbsent(head, s.uid, found);
      SwapBackAll(rest, u, s);
    }
  }

  /** Swapping out an object changes only the child that holds it. */
  lemma {:induction false} SwapInChild<K>(cs: seq<Tree<K>>, k: nat, u: nat, s: Tree<K>)
    requires UniqueUidsAll(cs) && k < |cs| && u in Uids(cs[k])
    ensures SwapAll(cs, u, s) == cs[k := Swap(cs[k], u, s)]
    decreases k
  {
    var r := SwapAll(cs, u, s);
    assert r[0] == Swap(cs[0], u, s) && r[1..] == SwapAll(cs[1..], u, s);
    if k == 0 {
      SwapAllAbsent(cs[1..], u, s);
    } else {
      UidsOfChild(cs[1..], k - 1);
      SwapAbsent(cs[0], u, s);
      SwapInChild(cs[1..], k - 1, u, s);
    }
  }

  /** After a successful swap the stand-in is found in the tree, as itself. */
  lemma {:induction false} SwapFinds<K>(t: Tree<K>, u: nat, s: Tree<K>)
    requires UniqueUids(t) && u in Uids(t) && s.uid !in Uids(t)
    ensures Find(Swap(t, u, s), s.uid) == Some(s)
    decreases t, 1
  {
    if t.uid != u {
      SwapAllFinds(t.children, u, s);
    }
  }

  lemma {:induction false} SwapAllFinds<K>(cs: seq<Tree<K>>, u: nat, s: Tree<K>)
    requires UniqueUidsAll(cs) && u in UidsAll(cs) && s.uid !in UidsAll(cs)
    ensures FindAll(SwapAll(cs, u, s), s.uid) == Some(s)
    decreases cs, 0
  {
    var r := SwapAll(cs, u, s);
    assert r[0] == Swap(cs[0], u, s) && r[1..] == SwapAll(cs[1..], u, s);
    if u in Uids(cs[0]) {
      SwapFinds(cs[0], u, s);
    } else {
      SwapAbsent(cs[0], u, s);
      FindFound(cs[0], s.uid);
      SwapAllFinds(cs[1..], u, s);
    }
  }

  /** `t` with the object `u` and its subtree taken out of whichever child list holds it. */
  function Detach<K>(t: Tree<K>, u: nat): (r: Tree<K>)
    ensures r.uid == t.uid && r.id == t.id && r.data == t.data
  {
    t.(children := DetachAll(t.children, u))
  }

  function DetachAll<K>(cs: seq<Tree<K>>, u: nat): (r: seq<Tree<K>>)
    ensures |r| <= |cs|
  {
    if cs == [] then []
    else if cs[0].uid == u then DetachAll(cs[1..], u)
    else [Detach(cs[0], u)] + DetachAll(cs[1..], u)
  }

  /**
   * Once detached, the object is no longer part of the tree and no other object joined it;
   * detaching an object that is not below the root changes nothing.
   */
  lemma {:induction false} DetachRemoves<K>(t: Tree<K>, u: nat)
    requires t.uid != u
    ensures u !in Uids(Detach(t, u)) && Uids(Detach(t, u)) <= Uids(t)
    ensures u !in UidsAll(t.children) ==> Detach(t, u) == t
    decreases t, 1
  {
    DetachAllRemoves(t.children, u);
  }

  lemma {:induction false} DetachAllRemoves<K>(cs: seq<Tree<K>>, u: nat)
    ensures u !in UidsAll(DetachAll(cs, u)) && UidsAll(DetachAll(cs, u)) <= UidsAll(cs)
    ensures u !in UidsAll(cs) ==> DetachAll(cs, u) == cs
    decreases cs, 0
  {
    if cs != [] {
      DetachAllRemoves(cs[1..], u);
      if cs[0].uid != u {
        DetachRemoves(cs[0], u);
      }
    }
  }

  /**
   * Detaching an object changes only the child that holds it: that child goes if it is the
   * object itself, and otherwise the object is detached from within it.
   */
  lemma {:induction false} DetachInChild<K>(cs: seq<Tree<K>>, k: nat, u: nat)
    requires UniqueUidsAll(cs) && k < |cs| && u in Uids(cs[k])
    ensures DetachAll(cs, u) == if cs[k].uid == u then cs[..k] + cs[k + 1..] else cs[k := Detach(cs[k], u)]
    decreases k
  {
    if k == 0 {
      DetachAllRemoves(cs[1..], u);
      if cs[0].uid != u {
        assert cs[0 := Detach(cs[0], u)] == [Detach(cs[0], u)] + cs[1..];
      }
    } else {
      DetachSkipsHead(cs, k, u);
      DetachInChild(cs[1..], k - 1, u);
      if cs[k].uid == u {
        DropShift(cs, k);
      } else {
        UpdateShift(cs, k, Detach(cs[k], u));
      }
    }
  }

  lemma DropShift<T>(cs: seq<T>, k: nat)
    requires 0 < k < |cs|
    ensures cs[..k] + cs[k + 1..] == [cs[0]] + (cs[1..][..k - 1] + cs[1..][k..])
  {
  }

  lemma UpdateShift<T>(cs: seq<T>, k: nat, x: T)
    requires 0 < k < |cs|
    ensures cs[k := x] == [cs[0]] + cs[1..][k - 1 := x]
  {
  }

  /** An object held by a later child leaves the first child alone. */
  lemma DetachSkipsHead<K>(cs: seq<Tree<K>>, k: nat, u: nat)
    requires UniqueUidsAll(cs) && 0 < k < |cs| && u in Uids(cs[k])
    ensures UniqueUidsAll(cs[1..]) && u in Uids(cs[1..][k - 1])
    ensures DetachAll(cs, u) == [cs[0]] + DetachAll(cs[1..], u)
  {
    UidsOfChild(cs[1..], k - 1);
    DetachRemoves(cs[0], u);
  }

  /** Overwrite the `data` of the object `u`, leaving the shape of the tree alone. */
  function SetData<K>(t: Tree<K>, u: nat, d: K): (r: Tree<K>)
    ensures r.uid == t.uid && r.id == t.id && |r.children| == |t.children|
  {
    Node(t.uid, t.id, if t.uid == u then d else t.data, SetDataAll(t.children, u, d))
  }

  function SetDataAll<K>(cs: seq<Tree<K>>, u: nat, d: K): (r: seq<Tree<K>>)
    ensures |r| == |cs|
  {
    if cs == [] then [] else [SetData(cs[0], u, d)] + SetDataAll(cs[1..], u, d)
  }

  /** Overwriting data keeps the objects of the tree. */
  lemma {:induction false} SetDataUids<K>(t: Tree<K>, u: nat, d: K)
    ensures Uids(SetData(t, u, d)) == Uids(t)
    decreases t, 1
  {
    SetDataAllUids(t.children, u, d);
  }

  lemma {:induction false} SetDataAllUids<K>(cs: seq<Tree<K>>, u: nat, d: K)
    ensures UidsAll(SetDataAll(cs, u, d)) == UidsAll(cs)
    decreases cs, 0
  {
    if cs != [] {
      var r := SetDataAll(cs, u, d);
      assert r[0] == SetData(cs[0], u, d) && r[1..] == SetDataAll(cs[1..], u, d);
      SetDataUids(cs[0], u, d);
      SetDataAllUids(cs[1..], u, d);
    }
  }

  // ---------------------------------------------------------------------------------------
  // A container's children, addressed by wicket id (MarkupContainer.get/add/remove/replace).
  // ---------------------------------------------------------------------------------------

  /** The position of the child with wicket id `id`, if any. */
  function IndexOf<K>(cs: seq<Tree<K>>, id: string): (r: Option<nat>)
    ensures r.Some? ==> r.value < |cs| && cs[r.value].id == id
    ensures r.Some? ==> forall j :: 0 <= j < r.value ==> cs[j].id != id
    ensures r.None? ==> forall j :: 0 <= j < |cs| ==> cs[j].id != id
  {
    if cs == [] then None
    else if cs[0].id == id then Some(0)
    else match IndexOf(cs[1..], id)
      case None => None
      case Some(k) => Some(k + 1)
  }

  /** `MarkupContainer.get(id)`: the child with that wicket id, or null. */
  function Get<K>(t: Tree<K>, id: string): Option<Tree<K>>
  {
    match IndexOf(t.children, id)
    case None => None
    case Some(k) => Some(t.children[k])
  }

  /** The invariant that every container keeps: no two children share a wicket id. */
  ghost predicate DistinctIds<K>(cs: seq<Tree<K>>)
  {
    forall i, j :: 0 <= i < j < |cs| ==> cs[i].id != cs[j].id
  }

  /** `MarkupContainer.add(child)`: append, refusing a second child with the same id. */
  function Add<K>(t: Tree<K>, c: Tree<K>): (r: Result<Tree<K>, TreeError>)
    ensures r.Success? <==> forall j :: 0 <= j < |t.children| ==> t.children[j].id != c.id
    ensures r.Success? ==> r.value == t.(children := t.children + [c])
    ensures r.Failure? ==> r.error == DuplicateId(c.id)
  {
    if IndexOf(t.children, c.id).Some? then Failure(DuplicateId(c.id))
    else Success(t.(children := t.children + [c]))
  }

  /** `MarkupContainer.remove(id)`: drop the child with that wicket id, if there is one. */
  function RemoveChild<K>(t: Tree<K>, id: string): (r: Tree<K>)
  {
    match IndexOf(t.children, id)
    case None => t
    case Some(k) => t.(children := t.children[..k] + t.children[k + 1..])
  }

  /** `MarkupContainer.replace(child)`: put `c` where the child with the same id stands. */
  function ReplaceChild<K>(t: Tree<K>, c: Tree<K>): (r: Result<Tree<K>, TreeError>)
    ensures r.Success? <==> exists j :: 0 <= j < |t.children| && t.children[j].id == c.id
    ensures r.Failure? ==> r.error == NoSuchChild(c.id)
  {
    match IndexOf(t.children, c.id)
    case None => Failure(NoSuchChild(c.id))
    case Some(k) => Success(t.(children := t.children[k := c]))
  }

  /** `MarkupContainer.autoAdd`: an existing child with the same id is dropped first. */
  function AutoAdd<K>(t: Tree<K>, c: Tree<K>): (r: Tree<K>)
    ensures |r.children| >= 1 && r.children[|r.children| - 1] == c
    ensures r.uid == t.uid && r.id == t.id && r.data == t.data
  {
    var rest := RemoveChild(t, c.id);
    rest.(children := rest.children + [c])
  }

  /** After `autoAdd` the new child is the one and only child with its id. */
  lemma {:induction false} AutoAddDistinct<K>(t: Tree<K>, c: Tree<K>)
    requires DistinctIds(t.children)
    ensures DistinctIds(AutoAdd(t, c).children)
    ensures Get(AutoAdd(t, c), c.id) == Some(c)
    ensures forall j :: 0 <= j < |AutoAdd(t, c).children| - 1 ==> AutoAdd(t, c).children[j].id != c.id
  {
    RemoveChildDistinct(t, c.id);
    var rest := RemoveChild(t, c.id).children;
    var cs := AutoAdd(t, c).children;
    assert cs == rest + [c];
    var k := IndexOf(cs, c.id);
    assert cs[|cs| - 1].id == c.id;
    assert k.Some? && k.value == |cs| - 1;
  }

  /** In a container with distinct ids, removing by id leaves no child with that id. */
  lemma {:induction false} RemoveChildDistinct<K>(t: Tree<K>, id: string)
    requires DistinctIds(t.children)
    ensures DistinctIds(RemoveChild(t, id).children)
    ensures forall j :: 0 <= j < |RemoveChild(t, id).children| ==> RemoveChild(t, id).children[j].id != id
  {
    match IndexOf(t.children, id)
    case None =>
    case Some(k) =>
      var cs := RemoveChild(t, id).children;
      assert cs == t.children[..k] + t.children[k + 1..];
      assert forall j :: 0 <= j < |cs| ==> cs[j] == t.children[if j < k then j else j + 1];
  }

  lemma {:induction false} AddKeepsDistinct<K>(t: Tree<K>, c: Tree<K>)
    requires DistinctIds(t.children) && Add(t, c).Success?
    ensures DistinctIds(Add(t, c).value.children)
    ensures Get(Add(t, c).value, c.id) == Some(c)
  {
    var cs := Add(t, c).value.children;
    assert cs == t.children + [c];
    var k := IndexOf(cs, c.id);
    assert cs[|cs| - 1].id == c.id;
    assert k.Some? && k.value == |cs| - 1;
  }

  /** Removing what was just added gives back the container as it was. */
  lemma {:induction false} RemoveAfterAdd<K>(t: Tree<K>, c: Tree<K>)
    requires Add(t, c).Success?
    ensures RemoveChild(Add(t, c).value, c.id) == t
  {
    var cs := t.children + [c];
    var k := IndexOf(cs, c.id);
    assert cs[|cs| - 1].id == c.id;
    assert k == Some(|t.children|);
    assert cs[..|t.children|] == t.children;
  }

  /**
   * After `replace` the container still has exactly one child with that id, at the same position,
   * and it is the replacement; every other child is untouched.
   */
  lemma {:induction false} ReplaceKeepsPosition<K>(t: Tree<K>, c: Tree<K>)
    requires DistinctIds(t.children) && ReplaceChild(t, c).Success?
    ensures var r := ReplaceChild(t, c).value;
      && |r.children| == |t.children| && DistinctIds(r.children)
      && IndexOf(r.children, c.id) == IndexOf(t.children, c.id)
      && Get(r, c.id) == Some(c)
      && forall j :: 0 <= j < |t.children| && t.children[j].id != c.id ==> r.children[j] == t.children[j]
  {
    var k := IndexOf(t.children, c.id).value;
    var r := ReplaceChild(t, c).value;
    assert r.children == t.children[k := c];
    forall j | 0 <= j < k ensures r.children[j].id != c.id {
    }
    assert IndexOf(r.children, c.id) == Some(k) by {
      var i := IndexOf(r.children, c.id);
      assert r.children[k].id == c.id;
      assert i.Some? && i.value <= k;
    }
  }

  /** Replacing a child and then replacing the replacement by the original restores the container. */
  lemma {:induction false} ReplaceBack<K>(t: Tree<K>, c: Tree<K>)
    requires DistinctIds(t.children) && ReplaceChild(t, c).Success?
    ensures ReplaceChild(ReplaceChild(t, c).value, Get(t, c.id).value) == Success(t)
  {
    ReplaceKeepsPosition(t, c);
    var k := IndexOf(t.children, c.id).value;
    var r := ReplaceChild(t, c).value;
    assert t.children[k := c][k := t.children[k]] == t.children;
  }

  // ---------------------------------------------------------------------------------------
  // Component.visitChildren: a pre-order walk steered by the visitor's answers.
  // ---------------------------------------------------------------------------------------

  /**
   * What `IVisitor.component` answers: go on (and descend into a container), go on without
   * descending into this child, or stop the walk and hand `value` back to the caller.
   */
  datatype Signal<R> = ContinueTraversal | ContinueButDontGoDeeper | Stop(value: R)

  /**
   * `visitChildren` over a child list: each child is shown to the visitor, then its own children
   * are walked unless the visitor said not to; the first `Stop` ends the whole walk.
   */
  function VisitChildren<K, R>(cs: seq<Tree<K>>, visitor: Tree<K> -> Signal<R>): Option<R>
    decreases cs
  {
    if cs == [] then None
    else match visitor(cs[0])
      case Stop(v) => Some(v)
      case ContinueButDontGoDeeper => VisitChildren(cs[1..], visitor)
      case ContinueTraversal =>
        match VisitChildren(cs[0].children, visitor)
        case Some(v) => Some(v)
        case None => VisitChildren(cs[1..], visitor)
  }

  /** The components a walk visits when it never stops and prunes below the listed nodes. */
  function Walk<K>(cs: seq<Tree<K>>, prune: Tree<K> -> bool): seq<Tree<K>>
    decreases cs
  {
    if cs == [] then []
    else [cs[0]] + (if prune(cs[0]) then [] else Walk(cs[0].children, prune)) + Walk(cs[1..], prune)
  }

  /** The first element of a list with a given property. */
  function First<T>(s: seq<T>, p: T -> bool): (r: Option<T>)
    ensures r.Some? ==> r.value in s && p(r.value)
    ensures r.None? ==> forall i :: 0 <= i < |s| ==> !p(s[i])
  {
    if s == [] then None else if p(s[0]) then Some(s[0]) else First(s[1..], p)
  }

  lemma {:induction false} FirstAppend<T>(a: seq<T>, b: seq<T>, p: T -> bool)
    ensures First(a + b, p) == if First(a, p).Some? then First(a, p) else First(b, p)
  {
    if a != [] {
      assert (a + b)[1..] == a[1..] + b;
      FirstAppend(a[1..], b, p);
    } else {
      assert a + b == b;
    }
  }

  /**
   * A visitor that only ever stops on components it accepts and only ever prunes below
   * components it rejects finds exactly the first accepted component of the pruned pre-order.
   */
  lemma {:induction false} VisitFindsFirst<K>(cs: seq<Tree<K>>, visitor: Tree<K> -> Signal<Tree<K>>,
                                              take: Tree<K> -> bool, prune: Tree<K> -> bool)
    requires forall c :: visitor(c) == (if prune(c) then ContinueButDontGoDeeper
                                        else if take(c) then Stop(c) else ContinueTraversal)
    requires forall c :: prune(c) ==> !take(c)
    ensures VisitChildren(cs, visitor) == First(Walk(cs, prune), take)
    decreases cs
  {
    if cs != [] {
      var head := cs[0];
      var below := if prune(head) then [] else Walk(head.children, prune);
      assert Walk(cs, prune) == [head] + below + Walk(cs[1..], prune);
      FirstAppend([head] + below, Walk(cs[1..], prune), take);
      FirstAppend([head], below, take);
      VisitFindsFirst(cs[1..], visitor, take, prune);
      if !prune(head) {
        VisitFindsFirst(head.children, visitor, take, prune);
      }
    }
  }

}
