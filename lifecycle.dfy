/**
 * The component lifecycle: every component of a page gets one `onInitialize` call before it
 * is first rendered, even when an `onInitialize` adds components to the tree during the pass;
 * when no hook changes the tree the calls follow pre-order. The page additionally gets one
 * `onPageInitialize` call before its first render. Overrides must call the base implementation; a pass that meets one that does not
 * fails with an `IllegalStateException` naming the hook and the component's class.
 *
 * The pass is a worklist traversal: take the next path, initialize the component there if it
 * is not initialized yet (its hook may change its own subtree), then put the paths of its
 * current children in front of the rest of the worklist. A hook only ever changes the subtree
 * of its own component, and that subtree is not yet in the worklist when the hook runs, so
 * every component a hook adds is visited later in the same pass, before the component's next
 * sibling.
 */
module Lifecycle {
  import opened Wrappers
  import opened ComponentTree

  /** A component's class name, as an error message reports it. */
  datatype Comp = Comp(kind: string)

  /**
   * What an `onInitialize` or `onBeforeRender` override does to the tree, at a path relative
   * to its own component: `add` a child to the component there, or `replaceWith` the
   * component there by another with the same id.
   */
  datatype Action = Append(at: Path, child: Tree<Comp>) | ReplaceWith(at: Path, replacement: Tree<Comp>)

  /** An override of a lifecycle hook: whether it calls the base implementation, and its actions. */
  datatype Hook = Hook(callsSuper: bool, actions: seq<Action>)

  /** The base implementation: it sets the initialized flag and does nothing else. */
  const BaseHook: Hook := Hook(true, [])

  /** The `onInitialize` of the component with uid `u`. */
  function HookOf(hooks: map<nat, Hook>, u: nat): (h: Hook)
    ensures u !in hooks ==> h == BaseHook
  {
    if u in hooks then hooks[u] else BaseHook
  }

  /** Why a pass fails. */
  datatype InitError =
    | MissingSuperCall(hook: string, kind: string)   // IllegalStateException
    | BadHook(error: TreeError)                      // an action the tree refuses
    | NoTarget(at: Path)                             // an action aimed at no component

  /** The `IllegalStateException` message for an override that skips the base implementation. */
  function SuperCallMessage(hook: string, kind: string): string
  {
    kind + NotCalled + hook + (InOverride + hook + MethodSuffix)
  }

  const NotCalled := " has not called super."
  const InOverride := "() in the override of "
  const MethodSuffix := "() method"

  /** `s` occurs in `text`. */
  predicate Contains(text: string, s: string)
  {
    exists i, j :: 0 <= i <= j <= |text| && text[i..j] == s
  }

  /** The message names both the hook and the class of the offending component. */
  lemma SuperCallMessageNames(hook: string, kind: string)
    ensures Contains(SuperCallMessage(hook, kind), hook)
    ensures Contains(SuperCallMessage(hook, kind), kind)
  {
    var m := SuperCallMessage(hook, kind);
    var a := kind + NotCalled;
    var b := InOverride + hook + MethodSuffix;
    ContainsMiddle(a, hook, b);
    ContainsMiddle([], kind, m[|kind|..]);
    assert [] + kind + m[|kind|..] == m;
  }

  lemma ContainsMiddle(a: string, b: string, c: string)
    ensures Contains(a + b + c, b)
  {
    var m := a + b + c;
    assert m[|a|..|a| + |b|] == b;
  }

  /** The executable test for `ValidPath`. */
  function Reaches<K>(t: Tree<K>, p: Path): (b: bool)
    ensures b == ValidPath(t, p)
    decreases p
  {
    |p| == 0 || (p[0] < |t.children| && Reaches(t.children[p[0]], p[1..]))
  }

  /**
   * One action applied to the subtree of the hook's component; its root stays. `add` succeeds
   * exactly when the target is there and has no child with the new child's id, and then
   * the target gains the child as its last one; `replaceWith` succeeds exactly when the target
   * is below the root and has the replacement's id, and then the replacement stands there.
   */
  function ApplyAction(t: Tree<Comp>, a: Action): (r: Result<Tree<Comp>, InitError>)
    ensures r.Success? ==> r.value.uid == t.uid
    ensures r.Failure? ==> !r.error.MissingSuperCall?
    ensures a.Append? ==>
              (r.Success? <==> ValidPath(t, a.at)
                               && forall j :: 0 <= j < |At(t, a.at).children| ==> At(t, a.at).children[j].id != a.child.id)
    ensures a.Append? && r.Success? ==>
              ValidPath(r.value, a.at)
              && At(r.value, a.at) == At(t, a.at).(children := At(t, a.at).children + [a.child])
    ensures a.ReplaceWith? ==>
              (r.Success? <==> |a.at| > 0 && ValidPath(t, a.at) && At(t, a.at).id == a.replacement.id)
    ensures a.ReplaceWith? && r.Success? ==> ValidPath(r.value, a.at) && At(r.value, a.at) == a.replacement
  {
    match a
    case Append(at, c) =>
      if !Reaches(t, at) then Failure(NoTarget(at))
      else
        (match Add(At(t, at), c)
         case Failure(e) =>
           var k := IndexOf(At(t, at).children, c.id).value;
           assert At(t, a.at).children[k].id == a.child.id;
           assert !(ValidPath(t, a.at) && forall j :: 0 <= j < |At(t, a.at).children| ==> At(t, a.at).children[j].id != a.child.id);
           Failure(BadHook(e))
         case Success(n) => Result.Success(Put(t, at, n)))
    case ReplaceWith(at, c) =>
      if |at| == 0 || !Reaches(t, at) then Failure(NoTarget(at))
      else if c.id != At(t, at).id then Failure(BadHook(IdMismatch(c.id)))
      else Result.Success(Put(t, at, c))
  }

  /**
   * An action changes nothing outside the subtree it aims at: every component whose path is
   * apart from the target's stays where it was.
   */
  lemma ApplyActionApart(t: Tree<Comp>, a: Action, w: Path)
    requires ApplyAction(t, a).Success? && ValidPath(t, w) && Apart(a.at, w)
    ensures ValidPath(ApplyAction(t, a).value, w) && At(ApplyAction(t, a).value, w) == At(t, w)
  {
    match a
    case Append(at, c) => PutApart(t, at, At(t, at).(children := At(t, at).children + [c]), w);
    case ReplaceWith(at, c) => PutApart(t, at, c, w);
  }

  /** The actions of a hook, in order; the first refused one fails the hook. */
  function ApplyAll(t: Tree<Comp>, actions: seq<Action>): (r: Result<Tree<Comp>, InitError>)
    ensures r.Success? ==> r.value.uid == t.uid
    ensures r.Failure? ==> !r.error.MissingSuperCall?
    ensures actions == [] ==> r == Result.Success(t)
    decreases |actions|
  {
    if actions == [] then Result.Success(t)
    else
      match ApplyAction(t, actions[0])
      case Failure(e) => Failure(e)
      case Success(t') => ApplyAll(t', actions[1..])
  }

  /** Running two lists of actions one after the other is running their concatenation. */
  lemma {:induction false} ApplyAllConcat(t: Tree<Comp>, a: seq<Action>, b: seq<Action>)
    ensures ApplyAll(t, a + b) == match ApplyAll(t, a)
                                  case Failure(e) => Failure(e)
                                  case Success(t') => ApplyAll(t', b)
    decreases |a|
  {
    if a == [] {
      assert a + b == b;
    } else {
      assert (a + b)[0] == a[0] && (a + b)[1..] == a[1..] + b;
      match ApplyAction(t, a[0])
      case Failure(_) =>
      case Success(t') => ApplyAllConcat(t', a[1..], b);
    }
  }

  // ---------------------------------------------------------------------------------------
  // The state of a pass and one visit.
  // ---------------------------------------------------------------------------------------

  /**
   * The page as the lifecycle sees it: the tree, the uids whose initialized flag is set, how
   * often each component's `onInitialize` ran, and the components announced to the
   * initialization listeners, in order.
   */
  datatype St = St(tree: Tree<Comp>, initialized: set<nat>, calls: map<nat, nat>, log: seq<nat>)

  function CallsOf(s: St, u: nat): nat
  {
    if u in s.calls then s.calls[u] else 0
  }

  /**
   * `Component.initialize()` on the component at `q`: nothing if it is initialized; else its
   * `onInitialize` runs (changing its subtree), the base-implementation check follows, and the
   * component is marked initialized and announced to the listeners.
   */
  function Visit(hooks: map<nat, Hook>, s: St, q: Path): (r: Result<St, InitError>)
    requires ValidPath(s.tree, q)
    ensures At(s.tree, q).uid in s.initialized ==> r == Result.Success(s)
    ensures r.Success? ==> r.value.initialized == s.initialized + {At(s.tree, q).uid}
    ensures r.Success? ==> ValidPath(r.value.tree, q) && r.value.tree == Put(s.tree, q, At(r.value.tree, q))
                           && At(r.value.tree, q).uid == At(s.tree, q).uid
    ensures r.Success? && HookOf(hooks, At(s.tree, q).uid).actions == [] ==> r.value.tree == s.tree
    ensures r.Success? && At(s.tree, q).uid !in s.initialized ==>
              var u := At(s.tree, q).uid;
              r.value.calls == s.calls[u := CallsOf(s, u) + 1] && r.value.log == s.log + [u]
    ensures r.Failure? && r.error.MissingSuperCall? ==>
              r.error == MissingSuperCall("onInitialize", At(s.tree, q).data.kind)
    ensures var c := At(s.tree, q);
            var h := HookOf(hooks, c.uid);
            c.uid !in s.initialized ==>
              (r.Success? <==> h.callsSuper && ApplyAll(c, h.actions).Success?)
              && (!h.callsSuper ==> r.Failure?)
              && (r.Success? ==> r.value.tree == Put(s.tree, q, ApplyAll(c, h.actions).value))
  {
    var c := At(s.tree, q);
    PutAt(s.tree, q);
    if c.uid in s.initialized then Result.Success(s)
    else
      var h := HookOf(hooks, c.uid);
      match ApplyAll(c, h.actions)
      case Failure(e) => Failure(e)
      case Success(c') =>
        if !h.callsSuper then Failure(MissingSuperCall("onInitialize", c.data.kind))
        else
          Result.Success(St(Put(s.tree, q, c'), s.initialized + {c.uid},
                            s.calls[c.uid := CallsOf(s, c.uid) + 1], s.log + [c.uid]))
  }

  /** The visit of a component that is not initialized and whose hook succeeds. */
  lemma VisitRuns(hooks: map<nat, Hook>, s: St, q: Path)
    requires ValidPath(s.tree, q)
    requires var c := At(s.tree, q);
             c.uid !in s.initialized && HookOf(hooks, c.uid).callsSuper
             && ApplyAll(c, HookOf(hooks, c.uid).actions).Success?
    ensures var c := At(s.tree, q);
            Visit(hooks, s, q) == Result.Success(St(Put(s.tree, q, ApplyAll(c, HookOf(hooks, c.uid).actions).value),
                                                    s.initialized + {c.uid},
                                                    s.calls[c.uid := CallsOf(s, c.uid) + 1], s.log + [c.uid]))
  {
  }

  /** Putting back the component that is already there changes nothing. */
  lemma {:induction false} PutAt<K>(t: Tree<K>, q: Path)
    requires ValidPath(t, q)
    ensures Put(t, q, At(t, q)) == t
    decreases q
  {
    if |q| > 0 {
      PutAt(t.children[q[0]], q[1..]);
      assert t.children[q[0] := t.children[q[0]]] == t.children;
    }
  }

  // ---------------------------------------------------------------------------------------
  // Worklists.
  // ---------------------------------------------------------------------------------------

  predicate IsPrefix(a: Path, b: Path)
  {
    |a| <= |b| && b[..|a|] == a
  }

  /** Neither path leads into the subtree of the other. */
  predicate Apart(a: Path, b: Path)
  {
    !IsPrefix(a, b) && !IsPrefix(b, a)
  }

  /** Every path of the worklist leads to a component, and no two lead into each other's subtree. */
  ghost predicate WorkValid(t: Tree<Comp>, wl: seq<Path>)
  {
    (forall i :: 0 <= i < |wl| ==> ValidPath(t, wl[i]))
    && (forall i, j :: 0 <= i < j < |wl| ==> Apart(wl[i], wl[j]))
  }

  /** The paths of the children of the component at `q`, from the `i`-th on. */
  function KidsFrom(q: Path, i: nat, n: nat): (r: seq<Path>)
    ensures |r| == if i <= n then n - i else 0
    ensures forall k :: 0 <= k < |r| ==> r[k] == q + [i + k]
    decreases n - i
  {
    if i >= n then [] else [q + [i]] + KidsFrom(q, i + 1, n)
  }

  function Kids(t: Tree<Comp>, q: Path): seq<Path>
    requires ValidPath(t, q)
  {
    KidsFrom(q, 0, |At(t, q).children|)
  }

  /** The number of components in the subtrees the worklist still has to visit. */
  function Work(t: Tree<Comp>, wl: seq<Path>): nat
    requires forall i :: 0 <= i < |wl| ==> ValidPath(t, wl[i])
  {
    if wl == [] then 0 else Size(At(t, wl[0])) + Work(t, wl[1..])
  }

  lemma {:induction false} WorkAppend(t: Tree<Comp>, a: seq<Path>, b: seq<Path>)
    requires forall i :: 0 <= i < |a| ==> ValidPath(t, a[i])
    requires forall i :: 0 <= i < |b| ==> ValidPath(t, b[i])
    ensures forall i :: 0 <= i < |a + b| ==> ValidPath(t, (a + b)[i])
    ensures Work(t, a + b) == Work(t, a) + Work(t, b)
    decreases |a|
  {
    if a != [] {
      assert (a + b)[1..] == a[1..] + b;
      WorkAppend(t, a[1..], b);
    } else {
      assert a + b == b;
    }
  }

  lemma {:induction false} WorkKids(t: Tree<Comp>, q: Path, i: nat)
    requires ValidPath(t, q) && i <= |At(t, q).children|
    ensures forall k :: 0 <= k < |KidsFrom(q, i, |At(t, q).children|)| ==>
              ValidPath(t, KidsFrom(q, i, |At(t, q).children|)[k])
    ensures Work(t, KidsFrom(q, i, |At(t, q).children|)) == SizeAll(At(t, q).children[i..])
    decreases |At(t, q).children| - i
  {
    var cs := At(t, q).children;
    var ks := KidsFrom(q, i, |cs|);
    forall k | 0 <= k < |ks|
      ensures ValidPath(t, ks[k])
    {
      ChildPath(t, q, i + k);
    }
    if i < |cs| {
      WorkKids(t, q, i + 1);
      ChildPath(t, q, i);
      assert ks[1..] == KidsFrom(q, i + 1, |cs|);
      assert cs[i..][1..] == cs[i + 1..];
    } else {
      assert cs[i..] == [];
    }
  }

  /** The next worklist after visiting its first path: that component's children, then the rest. */
  function Next(t: Tree<Comp>, wl: seq<Path>): seq<Path>
    requires wl != [] && ValidPath(t, wl[0])
  {
    Kids(t, wl[0]) + wl[1..]
  }

  /** Putting a subtree at `q` leaves every component whose path is apart from `q` in place. */
  lemma {:induction false} PutApart<K>(t: Tree<K>, q: Path, x: Tree<K>, w: Path)
    requires ValidPath(t, q) && ValidPath(t, w) && Apart(q, w)
    ensures ValidPath(Put(t, q, x), w) && At(Put(t, q, x), w) == At(t, w)
    decreases q
  {
    assert |q| > 0 && |w| > 0 by {
      assert IsPrefix([], q) && IsPrefix([], w);
    }
    var r := Put(t, q, x);
    if q[0] == w[0] {
      assert Apart(q[1..], w[1..]);
      PutApart(t.children[q[0]], q[1..], x, w[1..]);
    }
  }

  /**
   * Putting a subtree at `q` keeps every component outside it at the same path with the same
   * uid: the ancestors of `q` and everything apart from it.
   */
  lemma {:induction false} PutOutside<K>(t: Tree<K>, q: Path, x: Tree<K>, p: Path)
    requires ValidPath(t, q) && ValidPath(Put(t, q, x), p) && !IsPrefix(q, p)
    ensures ValidPath(t, p) && At(Put(t, q, x), p).uid == At(t, p).uid
    decreases p
  {
    assert |q| > 0;
    if |p| > 0 {
      var r := Put(t, q, x);
      if q[0] == p[0] {
        assert !IsPrefix(q[1..], p[1..]);
        PutOutside(t.children[q[0]], q[1..], x, p[1..]);
      } else {
        assert r.children[p[0]] == t.children[p[0]];
      }
    }
  }

  /** The next worklist is valid again after the visit changed the subtree at its first path. */
  lemma NextValid(t: Tree<Comp>, t': Tree<Comp>, wl: seq<Path>)
    requires WorkValid(t, wl) && wl != []
    requires ValidPath(t', wl[0]) && t' == Put(t, wl[0], At(t', wl[0]))
    ensures WorkValid(t', Next(t', wl))
    ensures forall i :: 1 <= i < |wl| ==> ValidPath(t', wl[i]) && At(t', wl[i]) == At(t, wl[i])
  {
    var q := wl[0];
    var ks := Kids(t', q);
    var n := Next(t', wl);
    forall i | 1 <= i < |wl|
      ensures ValidPath(t', wl[i]) && At(t', wl[i]) == At(t, wl[i])
    {
      PutApart(t, q, At(t', q), wl[i]);
    }
    forall k | 0 <= k < |ks|
      ensures ValidPath(t', ks[k])
    {
      ChildPath(t', q, k);
    }
    forall i, j | 0 <= i < j < |n|
      ensures Apart(n[i], n[j])
    {
      if j < |ks| {
        assert n[i] == q + [i] && n[j] == q + [j];
        assert n[i][|q|] == i && n[j][|q|] == j;
      } else if i < |ks| {
        var w := wl[j - |ks| + 1];
        assert n[i] == q + [i] && n[j] == w;
        assert Apart(q, w);
      } else {
        assert n[i] == wl[i - |ks| + 1] && n[j] == wl[j - |ks| + 1];
      }
    }
  }

  /** The hooks that change the tree. */
  function Owners(hooks: map<nat, Hook>): set<nat>
  {
    set u | u in hooks && hooks[u].actions != []
  }

  /** How many tree-changing hooks have not run yet. */
  function Pending(hooks: map<nat, Hook>, s: St): nat
  {
    |Owners(hooks) - s.initialized|
  }

  /**
   * A visit either runs a hook that changes the tree, which then never runs again, or
   * leaves the tree alone and so shrinks the work left.
   */
  lemma StepShrinks(hooks: map<nat, Hook>, s: St, wl: seq<Path>)
    requires WorkValid(s.tree, wl) && wl != []
    requires Visit(hooks, s, wl[0]).Success?
    ensures var s' := Visit(hooks, s, wl[0]).value;
            WorkValid(s'.tree, Next(s'.tree, wl))
            && (Pending(hooks, s') < Pending(hooks, s)
                || (Pending(hooks, s') == Pending(hooks, s)
                    && Work(s'.tree, Next(s'.tree, wl)) < Work(s.tree, wl)))
  {
    var s' := Visit(hooks, s, wl[0]).value;
    NextValid(s.tree, s'.tree, wl);
    PendingStep(hooks, s, wl[0]);
    if s'.tree == s.tree {
      WorkNext(s.tree, wl);
    }
  }

  /** A visit runs a tree-changing hook, which is then initialized, or leaves the tree alone. */
  lemma PendingStep(hooks: map<nat, Hook>, s: St, q: Path)
    requires ValidPath(s.tree, q) && Visit(hooks, s, q).Success?
    ensures var s' := Visit(hooks, s, q).value;
            Pending(hooks, s') < Pending(hooks, s)
            || (Pending(hooks, s') == Pending(hooks, s) && s'.tree == s.tree)
  {
    var s' := Visit(hooks, s, q).value;
    var u := At(s.tree, q).uid;
    var o := Owners(hooks);
    if u !in s.initialized && u in o {
      assert o - s.initialized == (o - s'.initialized) + {u};
    } else {
      assert o - s'.initialized == o - s.initialized;
    }
  }

  /** Visiting the first path without changing the tree leaves less work. */
  lemma WorkNext(t: Tree<Comp>, wl: seq<Path>)
    requires WorkValid(t, wl) && wl != []
    ensures WorkValid(t, Next(t, wl)) ==> Work(t, Next(t, wl)) < Work(t, wl)
  {
    var q := wl[0];
    WorkKids(t, q, 0);
    assert At(t, q).children[0..] == At(t, q).children;
    assert forall i :: 0 <= i < |wl[1..]| ==> ValidPath(t, wl[1..][i]);
    WorkAppend(t, Kids(t, q), wl[1..]);
  }

  /** One step of the pass, as the definition of `Run` takes it, with the measure that shrinks. */
  lemma RunStep(hooks: map<nat, Hook>, s: St, wl: seq<Path>)
    requires WorkValid(s.tree, wl) && wl != []
    ensures Visit(hooks, s, wl[0]).Failure? ==>
              Run(hooks, s, wl) == Failure(Visit(hooks, s, wl[0]).error)
    ensures Visit(hooks, s, wl[0]).Success? ==>
              var s' := Visit(hooks, s, wl[0]).value;
              WorkValid(s'.tree, Next(s'.tree, wl))
              && Run(hooks, s, wl) == Run(hooks, s', Next(s'.tree, wl))
              && (Pending(hooks, s') < Pending(hooks, s)
                  || (Pending(hooks, s') == Pending(hooks, s)
                      && Work(s'.tree, Next(s'.tree, wl)) < Work(s.tree, wl)))
  {
    if Visit(hooks, s, wl[0]).Success? {
      StepShrinks(hooks, s, wl);
    }
  }

  /**
   * The pass over the worklist: visit its first path, then go on with that component's
   * children in front of the rest; the first failure ends the pass.
   */
  function Run(hooks: map<nat, Hook>, s: St, wl: seq<Path>): Result<St, InitError>
    requires WorkValid(s.tree, wl)
    decreases Pending(hooks, s), Work(s.tree, wl)
  {
    if wl == [] then Result.Success(s)
    else
      match Visit(hooks, s, wl[0])
      case Failure(e) => Failure(e)
      case Success(s') =>
        StepShrinks(hooks, s, wl);
        Run(hooks, s', Next(s'.tree, wl))
  }

  // ---------------------------------------------------------------------------------------
  // What a pass guarantees.
  // ---------------------------------------------------------------------------------------

  /**
   * The bookkeeping of the initialized flags: a component's `onInitialize` ran once if it is
   * initialized and never otherwise, and the listeners heard of exactly the initialized
   * components, each once.
   */
  ghost predicate Counted(s: St)
  {
    (forall u :: CallsOf(s, u) == if u in s.initialized then 1 else 0)
    && (forall u :: u in s.log <==> u in s.initialized)
    && (forall i, j :: 0 <= i < j < |s.log| ==> s.log[i] != s.log[j])
  }

  /** `r` is a later state than `s`: nothing lost its initialized flag or left the announcements. */
  ghost predicate Extends(s: St, r: St)
  {
    s.initialized <= r.initialized && |s.log| <= |r.log| && r.log[..|s.log|] == s.log
  }

  lemma ExtendsTrans(a: St, b: St, c: St)
    requires Extends(a, b) && Extends(b, c)
    ensures Extends(a, c)
  {
    assert c.log[..|b.log|][..|a.log|] == c.log[..|a.log|];
  }

  lemma VisitCounted(hooks: map<nat, Hook>, s: St, q: Path)
    requires ValidPath(s.tree, q) && Counted(s) && Visit(hooks, s, q).Success?
    ensures var s' := Visit(hooks, s, q).value; Counted(s') && Extends(s, s')
  {
    var s' := Visit(hooks, s, q).value;
    if At(s.tree, q).uid !in s.initialized {
      assert s'.log[..|s.log|] == s.log;
    } else {
      assert s'.log[..|s.log|] == s.log;
    }
  }

  /**
   * A pass keeps the bookkeeping: no `onInitialize` runs twice, and what was initialized and
   * announced before stays so.
   */
  lemma {:induction false} RunCounted(hooks: map<nat, Hook>, s: St, wl: seq<Path>)
    requires WorkValid(s.tree, wl) && Counted(s) && Run(hooks, s, wl).Success?
    ensures var r := Run(hooks, s, wl).value; Counted(r) && Extends(s, r)
    decreases Pending(hooks, s), Work(s.tree, wl)
  {
    if wl == [] {
      assert s.log[..|s.log|] == s.log;
    } else {
      var s' := Visit(hooks, s, wl[0]).value;
      StepShrinks(hooks, s, wl);
      VisitCounted(hooks, s, wl[0]);
      RunCounted(hooks, s', Next(s'.tree, wl));
      ExtendsTrans(s, s', Run(hooks, s, wl).value);
    }
  }

  /** Every component of `t` is initialized. */
  ghost predicate AllInit(t: Tree<Comp>, initialized: set<nat>)
  {
    forall p :: ValidPath(t, p) ==> At(t, p).uid in initialized
  }

  /** A pass over a tree whose components are all initialized changes nothing: a re-render. */
  lemma {:induction false} RunIdle(hooks: map<nat, Hook>, s: St, wl: seq<Path>)
    requires WorkValid(s.tree, wl) && AllInit(s.tree, s.initialized)
    ensures Run(hooks, s, wl) == Result.Success(s)
    decreases Work(s.tree, wl)
  {
    if wl != [] {
      assert Visit(hooks, s, wl[0]) == Result.Success(s);
      StepShrinks(hooks, s, wl);
      RunIdle(hooks, s, Next(s.tree, wl));
    }
  }

  /** Every component is initialized or lies in the subtree of a path still in the worklist. */
  ghost predicate Covered(t: Tree<Comp>, initialized: set<nat>, wl: seq<Path>)
  {
    forall p :: ValidPath(t, p) ==>
      At(t, p).uid in initialized || exists i :: 0 <= i < |wl| && IsPrefix(wl[i], p)
  }

  /** One visit keeps every component covered, whatever its hook added or replaced. */
  lemma VisitCovers(hooks: map<nat, Hook>, s: St, wl: seq<Path>)
    requires WorkValid(s.tree, wl) && wl != [] && Visit(hooks, s, wl[0]).Success?
    requires Covered(s.tree, s.initialized, wl)
    ensures var s' := Visit(hooks, s, wl[0]).value;
            ValidPath(s'.tree, wl[0]) && Covered(s'.tree, s'.initialized, Next(s'.tree, wl))
  {
    var q := wl[0];
    var s' := Visit(hooks, s, q).value;
    var t, t' := s.tree, s'.tree;
    var ks := Kids(t', q);
    var n := Next(t', wl);
    forall p | ValidPath(t', p)
      ensures At(t', p).uid in s'.initialized || exists i :: 0 <= i < |n| && IsPrefix(n[i], p)
    {
      if IsPrefix(q, p) {
        if |p| == |q| {
          assert p == q;
        } else {
          var k := p[|q|];
          PrefixPath(t', p, |q|);
          assert p[..|q|] == q;
          assert p[|q|..][0] == k;
          assert n[k] == q + [k];
          assert p[..|q| + 1] == q + [k];
          assert IsPrefix(n[k], p);
        }
      } else {
        PutOutside(t, q, At(t', q), p);
        if At(t', p).uid !in s'.initialized {
          var i :| 0 <= i < |wl| && IsPrefix(wl[i], p);
          assert i != 0;
          assert n[|ks| + i - 1] == wl[i];
        }
      }
    }
  }

  /** A pass that covers the whole tree leaves every component initialized. */
  lemma {:induction false} RunCovers(hooks: map<nat, Hook>, s: St, wl: seq<Path>)
    requires WorkValid(s.tree, wl) && Covered(s.tree, s.initialized, wl)
    requires Run(hooks, s, wl).Success?
    ensures var r := Run(hooks, s, wl).value; AllInit(r.tree, r.initialized)
    decreases Pending(hooks, s), Work(s.tree, wl)
  {
    if wl != [] {
      var s' := Visit(hooks, s, wl[0]).value;
      StepShrinks(hooks, s, wl);
      VisitCovers(hooks, s, wl);
      RunCovers(hooks, s', Next(s'.tree, wl));
    }
  }

  /** The pass over the whole page, from the page down. */
  function Pass(hooks: map<nat, Hook>, s: St): (r: Result<St, InitError>)
    ensures r.Success? ==> AllInit(r.value.tree, r.value.initialized)
  {
    assert WorkValid(s.tree, [[]]);
    var r := Run(hooks, s, [[]]);
    if r.Success? then
      assert Covered(s.tree, s.initialized, [[]]) by {
        forall p | ValidPath(s.tree, p) ensures IsPrefix([[]][0], p) { }
      }
      RunCovers(hooks, s, [[]]);
      r
    else r
  }

  /** A pass over the page runs no `onInitialize` twice and keeps what was initialized before. */
  lemma PassCounted(hooks: map<nat, Hook>, s: St)
    requires Counted(s) && Pass(hooks, s).Success?
    ensures var r := Pass(hooks, s).value; Counted(r) && Extends(s, r)
  {
    assert WorkValid(s.tree, [[]]);
    RunCounted(hooks, s, [[]]);
  }

  /** A pass fails on a missing super call only in `onInitialize`. */
  lemma {:induction false} RunError(hooks: map<nat, Hook>, s: St, wl: seq<Path>)
    requires WorkValid(s.tree, wl) && Run(hooks, s, wl).Failure?
    ensures Run(hooks, s, wl).error.MissingSuperCall? ==> Run(hooks, s, wl).error.hook == "onInitialize"
    decreases Pending(hooks, s), Work(s.tree, wl)
  {
    if Visit(hooks, s, wl[0]).Success? {
      var s' := Visit(hooks, s, wl[0]).value;
      StepShrinks(hooks, s, wl);
      RunError(hooks, s', Next(s'.tree, wl));
    }
  }

  lemma PassError(hooks: map<nat, Hook>, s: St)
    requires Pass(hooks, s).Failure?
    ensures Pass(hooks, s).error.MissingSuperCall? ==> Pass(hooks, s).error.hook == "onInitialize"
  {
    assert WorkValid(s.tree, [[]]);
    RunError(hooks, s, [[]]);
  }

  /** A pass over a page whose components are all initialized changes nothing. */
  lemma PassIdle(hooks: map<nat, Hook>, s: St)
    requires AllInit(s.tree, s.initialized)
    ensures Pass(hooks, s) == Result.Success(s)
  {
    assert WorkValid(s.tree, [[]]);
    RunIdle(hooks, s, [[]]);
  }

  /** A pass succeeds only if every `onInitialize` it ran called the base implementation. */
  lemma {:induction false} RunSupers(hooks: map<nat, Hook>, s: St, wl: seq<Path>)
    requires WorkValid(s.tree, wl) && Run(hooks, s, wl).Success?
    ensures forall u :: u in Run(hooks, s, wl).value.initialized && u !in s.initialized ==>
              HookOf(hooks, u).callsSuper
    decreases Pending(hooks, s), Work(s.tree, wl)
  {
    if wl != [] {
      var s' := Visit(hooks, s, wl[0]).value;
      StepShrinks(hooks, s, wl);
      RunSupers(hooks, s', Next(s'.tree, wl));
    }
  }

  lemma PassSupers(hooks: map<nat, Hook>, s: St)
    requires Pass(hooks, s).Success?
    ensures forall u :: u in Pass(hooks, s).value.initialized && u !in s.initialized ==>
              HookOf(hooks, u).callsSuper
  {
    assert WorkValid(s.tree, [[]]);
    RunSupers(hooks, s, [[]]);
  }

  // ---------------------------------------------------------------------------------------
  // The order of a pass.
  // ---------------------------------------------------------------------------------------

  /** The components the worklist still reaches, in the order a pass would meet them. */
  function WorkOrder(t: Tree<Comp>, wl: seq<Path>): seq<nat>
    requires forall i :: 0 <= i < |wl| ==> ValidPath(t, wl[i])
  {
    if wl == [] then [] else PreOrder(At(t, wl[0])) + WorkOrder(t, wl[1..])
  }

  lemma {:induction false} WorkOrderAppend(t: Tree<Comp>, a: seq<Path>, b: seq<Path>)
    requires forall i :: 0 <= i < |a| ==> ValidPath(t, a[i])
    requires forall i :: 0 <= i < |b| ==> ValidPath(t, b[i])
    ensures forall i :: 0 <= i < |a + b| ==> ValidPath(t, (a + b)[i])
    ensures WorkOrder(t, a + b) == WorkOrder(t, a) + WorkOrder(t, b)
    decreases |a|
  {
    if a != [] {
      assert (a + b)[1..] == a[1..] + b;
      WorkOrderAppend(t, a[1..], b);
    } else {
      assert a + b == b;
    }
  }

  lemma {:induction false} WorkOrderKids(t: Tree<Comp>, q: Path, i: nat)
    requires ValidPath(t, q) && i <= |At(t, q).children|
    ensures forall k :: 0 <= k < |KidsFrom(q, i, |At(t, q).children|)| ==>
              ValidPath(t, KidsFrom(q, i, |At(t, q).children|)[k])
    ensures WorkOrder(t, KidsFrom(q, i, |At(t, q).children|)) == PreOrderAll(At(t, q).children[i..])
    decreases |At(t, q).children| - i
  {
    var cs := At(t, q).children;
    var ks := KidsFrom(q, i, |cs|);
    WorkKids(t, q, i);
    if i < |cs| {
      WorkOrderKids(t, q, i + 1);
      ChildPath(t, q, i);
      assert ks[1..] == KidsFrom(q, i + 1, |cs|);
      assert cs[i..][1..] == cs[i + 1..];
    } else {
      assert cs[i..] == [];
    }
  }

  /** Visiting the first path without changing the tree leaves the rest of the order to go. */
  lemma WorkOrderNext(t: Tree<Comp>, wl: seq<Path>)
    requires wl != [] && forall i :: 0 <= i < |wl| ==> ValidPath(t, wl[i])
    ensures forall i :: 0 <= i < |Next(t, wl)| ==> ValidPath(t, Next(t, wl)[i])
    ensures WorkOrder(t, wl) == [At(t, wl[0]).uid] + WorkOrder(t, Next(t, wl))
  {
    var rest := wl[1..];
    assert forall i :: 0 <= i < |rest| ==> ValidPath(t, rest[i]);
    NextOrder(t, wl[0], rest);
    assert wl == [wl[0]] + rest;
    var a := PreOrderAll(At(t, wl[0]).children);
    var b := WorkOrder(t, rest);
    SeqAssoc([At(t, wl[0]).uid], a, b);
  }

  lemma SeqAssoc(x: seq<nat>, a: seq<nat>, b: seq<nat>)
    ensures x + a + b == x + (a + b)
  {
  }

  lemma NextOrder(t: Tree<Comp>, q: Path, rest: seq<Path>)
    requires ValidPath(t, q) && forall i :: 0 <= i < |rest| ==> ValidPath(t, rest[i])
    ensures forall i :: 0 <= i < |Kids(t, q) + rest| ==> ValidPath(t, (Kids(t, q) + rest)[i])
    ensures WorkOrder(t, [q] + rest) == [At(t, q).uid] + PreOrderAll(At(t, q).children) + WorkOrder(t, rest)
    ensures WorkOrder(t, Kids(t, q) + rest) == PreOrderAll(At(t, q).children) + WorkOrder(t, rest)
  {
    var ks := Kids(t, q);
    var a := PreOrderAll(At(t, q).children);
    WorkOrderKids(t, q, 0);
    assert WorkOrder(t, ks) == a by {
      assert At(t, q).children[0..] == At(t, q).children;
    }
    WorkOrderAppend(t, ks, rest);
    assert WorkOrder(t, [q] + rest) == PreOrder(At(t, q)) + WorkOrder(t, rest) by {
      assert ([q] + rest)[0] == q && ([q] + rest)[1..] == rest;
    }
  }

  /** Hooks that call the base implementation and change nothing. */
  predicate Plain(hooks: map<nat, Hook>)
  {
    forall u :: u in hooks ==> hooks[u].callsSuper && hooks[u].actions == []
  }

  /** The state after the component with uid `u` ran its `onInitialize` without changing the tree. */
  function Mark(s: St, u: nat): (r: St)
    ensures r.tree == s.tree && r.initialized == s.initialized + {u} && r.log == s.log + [u]
    ensures CallsOf(r, u) == CallsOf(s, u) + 1
    ensures forall v :: v != u ==> CallsOf(r, v) == CallsOf(s, v)
  {
    St(s.tree, s.initialized + {u}, s.calls[u := CallsOf(s, u) + 1], s.log + [u])
  }

  /** Under plain hooks a visit only sets the flag of a component that was not initialized. */
  lemma PlainVisit(hooks: map<nat, Hook>, s: St, q: Path)
    requires Plain(hooks) && ValidPath(s.tree, q) && At(s.tree, q).uid !in s.initialized
    ensures Visit(hooks, s, q) == Result.Success(Mark(s, At(s.tree, q).uid))
  {
    PutAt(s.tree, q);
  }

  /**
   * With hooks that do not change the tree, a pass over components not yet initialized
   * announces them in exactly the order of the worklist's subtrees, each in pre-order.
   */
  /** One step of a pass under plain hooks: the first component is marked, the tree stays. */
  lemma PlainStep(hooks: map<nat, Hook>, s: St, wl: seq<Path>)
    requires WorkValid(s.tree, wl) && wl != [] && Plain(hooks)
    requires At(s.tree, wl[0]).uid !in s.initialized
    ensures WorkValid(s.tree, Next(s.tree, wl))
    ensures Run(hooks, s, wl) == Run(hooks, Mark(s, At(s.tree, wl[0]).uid), Next(s.tree, wl))
  {
    PlainVisit(hooks, s, wl[0]);
    RunStep(hooks, s, wl);
  }

  lemma {:induction false} RunOrder(hooks: map<nat, Hook>, s: St, wl: seq<Path>)
    requires WorkValid(s.tree, wl) && Plain(hooks)
    requires Distinct(WorkOrder(s.tree, wl))
    requires forall u :: u in WorkOrder(s.tree, wl) ==> u !in s.initialized
    ensures Run(hooks, s, wl).Success?
    ensures Run(hooks, s, wl).value.tree == s.tree
    ensures Run(hooks, s, wl).value.log == s.log + WorkOrder(s.tree, wl)
    decreases Work(s.tree, wl)
  {
    if wl == [] {
      assert s.log + [] == s.log;
    } else {
      var u := At(s.tree, wl[0]).uid;
      WorkOrderNext(s.tree, wl);
      var rest := WorkOrder(s.tree, Next(s.tree, wl));
      assert u in WorkOrder(s.tree, wl);
      PlainStep(hooks, s, wl);
      WorkNext(s.tree, wl);
      var s' := Mark(s, u);
      DistinctConcat([u], rest);
      RunOrder(hooks, s', Next(s.tree, wl));
      SeqAssoc(s.log, [u], rest);
    }
  }

  /**
   * With hooks that do not change the tree, the first pass over a page with unique uids
   * initializes its components in pre-order: each before its children, the children first
   * to last.
   */
  lemma PassOrder(hooks: map<nat, Hook>, s: St)
    requires Plain(hooks) && UniqueUids(s.tree)
    requires forall u :: u in Uids(s.tree) ==> u !in s.initialized
    ensures Pass(hooks, s).Success?
    ensures Pass(hooks, s).value.tree == s.tree
    ensures Pass(hooks, s).value.log == s.log + PreOrder(s.tree)
  {
    assert WorkValid(s.tree, [[]]);
    assert WorkOrder(s.tree, [[]]) == PreOrder(s.tree) + WorkOrder(s.tree, []);
    PreOrderUids(s.tree);
    RunOrder(hooks, s, [[]]);
  }

  // ---------------------------------------------------------------------------------------
  // The page: first use, the initialization passes and the pre-render checkpoint.
  // ---------------------------------------------------------------------------------------

  /**
   * What a page class overrides: the components' `onInitialize` (by uid), the page's
   * `onPageInitialize`, and what the page's `onBeforeRender` adds the first time it runs.
   */
  datatype PageHooks = PageHooks(onInitialize: map<nat, Hook>, onPageInitialize: Hook,
                                 onBeforeRender: seq<Action>)

  /**
   * A page with its lifecycle flags: the components' state, whether `onPageInitialize` has
   * run and how often, and whether `onBeforeRender` has added its components.
   */
  datatype Page = Page(st: St, pageInitialized: bool, pageInitializeCount: nat, beforeRenderDone: bool)

  /**
   * The first-use checkpoint: `onPageInitialize` runs once, before the first pass; an override
   * that skips the base implementation fails naming `onPageInitialize` and the page's class.
   */
  function FirstUse(h: PageHooks, pg: Page): (r: Result<Page, InitError>)
    ensures pg.pageInitialized ==> r == Result.Success(pg)
    ensures r.Success? ==> r.value.pageInitialized && r.value.beforeRenderDone == pg.beforeRenderDone
                           && r.value.st.initialized == pg.st.initialized
                           && r.value.st.calls == pg.st.calls && r.value.st.log == pg.st.log
    ensures r.Success? && !pg.pageInitialized ==>
              r.value.pageInitializeCount == pg.pageInitializeCount + 1 && r.value.st.tree.uid == pg.st.tree.uid
    ensures !pg.pageInitialized && !h.onPageInitialize.callsSuper ==> r.Failure?
    ensures r.Failure? && r.error.MissingSuperCall? ==>
              r.error == MissingSuperCall("onPageInitialize", pg.st.tree.data.kind)
  {
    if pg.pageInitialized then Result.Success(pg)
    else
      match ApplyAll(pg.st.tree, h.onPageInitialize.actions)
      case Failure(e) => Failure(e)
      case Success(t) =>
        if !h.onPageInitialize.callsSuper then
          Failure(MissingSuperCall("onPageInitialize", pg.st.tree.data.kind))
        else
          Result.Success(pg.(st := pg.st.(tree := t), pageInitialized := true,
                             pageInitializeCount := pg.pageInitializeCount + 1))
  }

  /**
   * The page's pre-render checkpoint, which the page reaches only once it is initialized:
   * the first time, its `onBeforeRender` adds its components; afterwards it adds nothing.
   */
  function PreRender(h: PageHooks, pg: Page): (r: Result<Page, InitError>)
    requires pg.st.tree.uid in pg.st.initialized
    ensures pg.beforeRenderDone ==> r == Result.Success(pg)
    ensures r.Success? ==> r.value.beforeRenderDone && r.value.st.initialized == pg.st.initialized
                           && r.value.st.calls == pg.st.calls && r.value.st.log == pg.st.log
                           && r.value.pageInitialized == pg.pageInitialized
                           && r.value.pageInitializeCount == pg.pageInitializeCount
    ensures r.Failure? ==> !r.error.MissingSuperCall?
    ensures !pg.beforeRenderDone ==>
              (r.Success? <==> ApplyAll(pg.st.tree, h.onBeforeRender).Success?)
              && (r.Success? ==> ApplyAll(pg.st.tree, h.onBeforeRender) == Result.Success(r.value.st.tree))
  {
    if pg.beforeRenderDone then Result.Success(pg)
    else
      match ApplyAll(pg.st.tree, h.onBeforeRender)
      case Failure(e) => Failure(e)
      case Success(t) => Result.Success(pg.(st := pg.st.(tree := t), beforeRenderDone := true))
  }

  /**
   * A render of the page: first use, a pass over the page, the pre-render checkpoint, and a
   * pass over what the checkpoint added.
   */
  function RenderPage(h: PageHooks, pg: Page): (r: Result<Page, InitError>)
    ensures r.Success? ==> AllInit(r.value.st.tree, r.value.st.initialized)
                           && r.value.pageInitialized && r.value.beforeRenderDone
                           && r.value.pageInitializeCount
                              == if pg.pageInitialized then pg.pageInitializeCount else pg.pageInitializeCount + 1
  {
    match FirstUse(h, pg)
    case Failure(e) => Failure(e)
    case Success(p1) =>
      (match Pass(h.onInitialize, p1.st)
       case Failure(e) => Failure(e)
       case Success(s2) =>
         assert ValidPath(s2.tree, []);
         (match PreRender(h, p1.(st := s2))
          case Failure(e) => Failure(e)
          case Success(p3) =>
            (match Pass(h.onInitialize, p3.st)
             case Failure(e) => Failure(e)
             case Success(s4) => Result.Success(p3.(st := s4)))))
  }

  /** Across a render no `onInitialize` runs twice and no component loses its flag. */
  lemma RenderCounted(h: PageHooks, pg: Page)
    requires Counted(pg.st) && RenderPage(h, pg).Success?
    ensures var r := RenderPage(h, pg).value; Counted(r.st) && Extends(pg.st, r.st)
  {
    var p1 := FirstUse(h, pg).value;
    assert Counted(p1.st) && Extends(pg.st, p1.st) by {
      assert p1.st.log[..|pg.st.log|] == pg.st.log;
    }
    var s2 := Pass(h.onInitialize, p1.st).value;
    PassCounted(h.onInitialize, p1.st);
    ExtendsTrans(pg.st, p1.st, s2);
    assert ValidPath(s2.tree, []);
    var p3 := PreRender(h, p1.(st := s2)).value;
    assert Counted(p3.st) && Extends(s2, p3.st) by {
      assert p3.st.log[..|s2.log|] == s2.log;
    }
    ExtendsTrans(pg.st, s2, p3.st);
    PassCounted(h.onInitialize, p3.st);
    ExtendsTrans(pg.st, p3.st, Pass(h.onInitialize, p3.st).value);
  }

  /**
   * Rendering a rendered page again (the `refreshLink` click) changes nothing: no hook runs,
   * no component is added, nobody is announced again.
   */
  lemma RerenderIdle(h: PageHooks, pg: Page)
    requires RenderPage(h, pg).Success?
    ensures var r := RenderPage(h, pg).value; RenderPage(h, r) == Result.Success(r)
  {
    var r := RenderPage(h, pg).value;
    PassIdle(h.onInitialize, r.st);
    assert ValidPath(r.st.tree, []);
  }

  /** A render fails on a missing super call only with the name of one of the two hooks. */
  lemma RenderErrorNamesHook(h: PageHooks, pg: Page)
    requires RenderPage(h, pg).Failure? && RenderPage(h, pg).error.MissingSuperCall?
    ensures RenderPage(h, pg).error.hook in {"onInitialize", "onPageInitialize"}
  {
    var p1 := FirstUse(h, pg);
    if p1.Success? {
      var s2 := Pass(h.onInitialize, p1.value.st);
      if s2.Success? {
        assert ValidPath(s2.value.tree, []);
        var p3 := PreRender(h, p1.value.(st := s2.value));
        if p3.Success? {
          PassError(h.onInitialize, p3.value.st);
        }
      } else {
        PassError(h.onInitialize, p1.value.st);
      }
    }
  }

  // ---------------------------------------------------------------------------------------
  // The page object at run time.
  // ---------------------------------------------------------------------------------------

  /**
   * A page instance as the request cycle drives it: its component tree, each component's
   * initialized flag and `onInitialize` count, the page's own flags, and the components each
   * registered initialization listener has been told about, in order.
   */
  class PageRuntime {
    const hooks: PageHooks
    var tree: Tree<Comp>
    var initialized: set<nat>
    var calls: map<nat, nat>
    var log: seq<nat>
    var announced: seq<seq<nat>>
    var pageInitialized: bool
    var pageInitializeCount: nat
    var beforeRenderDone: bool

    function State(): Page
      reads this
    {
      Page(St(tree, initialized, calls, log), pageInitialized, pageInitializeCount, beforeRenderDone)
    }

    /**
     * The page after its constructor (and its subclasses' constructors) ran: the tree they
     * built, with no hook run yet, since hooks only run when the page is first rendered.
     */
    constructor (tree: Tree<Comp>, hooks: PageHooks)
      ensures this.hooks == hooks && State() == Page(St(tree, {}, map[], []), false, 0, false)
      ensures announced == []
    {
      this.hooks := hooks;
      this.tree := tree;
      initialized := {};
      calls := map[];
      log := [];
      announced := [];
      pageInitialized := false;
      pageInitializeCount := 0;
      beforeRenderDone := false;
    }

    /** `addComponentInitializationListener`: a listener that has heard of nothing yet. */
    method AddListener()
      modifies this
      ensures State() == old(State()) && announced == old(announced) + [[]]
    {
      announced := announced + [[]];
    }

    /** Every listener is told of the component `u`, in registration order. */
    method Announce(u: nat)
      modifies this
      ensures State() == old(State())
      ensures |announced| == |old(announced)|
      ensures forall k :: 0 <= k < |announced| ==> announced[k] == old(announced[k]) + [u]
    {
      var next := announced;
      for k := 0 to |next|
        invariant |next| == |announced|
        invariant forall j :: 0 <= j < |next| ==> next[j] == if j < k then announced[j] + [u] else announced[j]
      {
        next := next[k := next[k] + [u]];
      }
      announced := next;
    }

    /**
     * What `initialize()` records once the hook of the component `u` at `q` returned with the
     * super call made: the component's new subtree, its flag, its count, and the listeners.
     */
    method MarkInitialized(q: Path, u: nat, subtree: Tree<Comp>)
      requires ValidPath(tree, q)
      modifies this
      ensures tree == Put(old(tree), q, subtree) && initialized == old(initialized) + {u}
      ensures calls == old(calls)[u := CallsOf(old(State()).st, u) + 1] && log == old(log) + [u]
      ensures pageInitialized == old(pageInitialized) && pageInitializeCount == old(pageInitializeCount)
      ensures beforeRenderDone == old(beforeRenderDone)
      ensures |announced| == |old(announced)|
      ensures forall k :: 0 <= k < |announced| ==> announced[k] == old(announced[k]) + [u]
    {
      tree := Put(tree, q, subtree);
      initialized := initialized + {u};
      calls := calls[u := (if u in calls then calls[u] else 0) + 1];
      log := log + [u];
      Announce(u);
    }

    /**
     * `initialize()` on the component at `q`: if it is not initialized yet, its `onInitialize`
     * runs, the super call is checked, its flag is set, the call counted and the listeners told.
     */
    method InitializeAt(q: Path) returns (r: Result<(), InitError>)
      requires ValidPath(tree, q)
      modifies this
      ensures var v := Visit(hooks.onInitialize, old(State()).st, q);
              (r.Success? <==> v.Success?)
              && (r.Failure? ==> r.error == v.error)
              && (r.Success? ==> State() == old(State()).(st := v.value))
      ensures Heard(old(announced), announced, old(log), log)
    {
      ghost var s0 := State().st;
      var c := At(tree, q);
      if c.uid in initialized {
        assert log[|log|..] == [] && log[..|log|] == log;
        return Result.Success(());
      }
      var h := HookOf(hooks.onInitialize, c.uid);
      var applied := ApplyAll(c, h.actions);
      if applied.Failure? {
        assert log[|log|..] == [] && log[..|log|] == log;
        return Failure(applied.error);
      }
      if !h.callsSuper {
        assert log[|log|..] == [] && log[..|log|] == log;
        return Failure(MissingSuperCall("onInitialize", c.data.kind));
      }
      MarkInitialized(q, c.uid, applied.value);
      VisitRuns(hooks.onInitialize, s0, q);
      assert log[|s0.log|..] == [c.uid] && log[..|s0.log|] == s0.log;
      r := Result.Success(());
    }

    /**
     * `ensureInitialized` on the page: the worklist pass. Take the next path and initialize the
     * component there, then put its current children in front of the rest.
     */
    method InitializePass() returns (r: Result<(), InitError>)
      modifies this
      ensures var run := Pass(hooks.onInitialize, old(State()).st);
              (r.Success? <==> run.Success?)
              && (r.Failure? ==> r.error == run.error)
              && (r.Success? ==> State() == old(State()).(st := run.value))
      ensures Heard(old(announced), announced, old(log), log)
    {
      ghost var goal := Pass(hooks.onInitialize, State().st);
      var wl: seq<Path> := [[]];
      assert WorkValid(tree, wl);
      assert log[|log|..] == [] && log[..|log|] == log;
      while wl != []
        invariant WorkValid(tree, wl)
        invariant Run(hooks.onInitialize, State().st, wl) == goal
        invariant pageInitialized == old(pageInitialized) && pageInitializeCount == old(pageInitializeCount)
        invariant beforeRenderDone == old(beforeRenderDone)
        invariant Heard(old(announced), announced, old(log), log)
        decreases Pending(hooks.onInitialize, State().st), Work(tree, wl)
      {
        ghost var s := State().st;
        ghost var before, logBefore := announced, log;
        var q := wl[0];
        r := InitializeAt(q);
        HeardTrans(old(announced), before, announced, old(log), logBefore, log);
        RunStep(hooks.onInitialize, s, wl);
        if r.Failure? {
          return;
        }
        wl := Kids(tree, q) + wl[1..];
      }
      r := Result.Success(());
    }

    /**
     * Rendering the page. On first use `onPageInitialize` runs with its super-call check; then
     * the initialization pass; then the page's `onBeforeRender`, reached only once the page is
     * initialized, adds its components the first time; then a pass initializes those.
     */
    method Render() returns (r: Result<(), InitError>)
      modifies this
      ensures var rendered := RenderPage(hooks, old(State()));
              (r.Success? <==> rendered.Success?)
              && (r.Failure? ==> r.error == rendered.error)
              && (r.Success? ==> State() == rendered.value)
      ensures Heard(old(announced), announced, old(log), log)
    {
      ghost var p0 := State();
      HeardRefl(announced, log);
      if !pageInitialized {
        var applied := ApplyAll(tree, hooks.onPageInitialize.actions);
        if applied.Failure? {
          return Failure(applied.error);
        }
        if !hooks.onPageInitialize.callsSuper {
          return Failure(MissingSuperCall("onPageInitialize", tree.data.kind));
        }
        tree := applied.value;
        pageInitialized := true;
        pageInitializeCount := pageInitializeCount + 1;
      }
      assert State() == FirstUse(hooks, p0).value;
      ghost var a1, l1 := announced, log;
      r := InitializePass();
      HeardTrans(old(announced), a1, announced, old(log), l1, log);
      if r.Failure? {
        return;
      }
      assert ValidPath(tree, []);
      assert tree.uid in initialized;
      ghost var p2 := State();
      if !beforeRenderDone {
        var applied := ApplyAll(tree, hooks.onBeforeRender);
        if applied.Failure? {
          return Failure(applied.error);
        }
        tree := applied.value;
        beforeRenderDone := true;
      }
      assert State() == PreRender(hooks, p2).value;
      ghost var a3, l3 := announced, log;
      r := InitializePass();
      HeardTrans(old(announced), a3, announced, old(log), l3, log);
    }
  }

  /**
   * The listeners `a` are the listeners `a0` after the components announced since the log was
   * `log0`: each has heard, in order, exactly what the log gained.
   */
  ghost predicate Heard(a0: seq<seq<nat>>, a: seq<seq<nat>>, log0: seq<nat>, log: seq<nat>)
  {
    |a| == |a0| && |log0| <= |log| && log[..|log0|] == log0
    && forall k :: 0 <= k < |a| ==> a[k] == a0[k] + log[|log0|..]
  }

  lemma HeardRefl(a: seq<seq<nat>>, log: seq<nat>)
    ensures Heard(a, a, log, log)
  {
    assert log[..|log|] == log && log[|log|..] == [];
  }

  /** Two rounds of announcements compose. */
  lemma HeardTrans(a0: seq<seq<nat>>, a1: seq<seq<nat>>, a2: seq<seq<nat>>,
                   log0: seq<nat>, log1: seq<nat>, log2: seq<nat>)
    requires Heard(a0, a1, log0, log1) && Heard(a1, a2, log1, log2)
    ensures Heard(a0, a2, log0, log2)
  {
    assert log2[..|log0|] == log2[..|log1|][..|log0|];
    assert log2[|log0|..] == log2[..|log1|][|log0|..] + log2[|log1|..];
  }
}
