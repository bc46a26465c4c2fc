/**
 * Nested form submission. A button submits the form it sits in; that form's enclosing forms
 * are asked, from the inside out, whether they want to be submitted along with a nested form
 * (`wantSubmitOnNestedFormSubmit`), and the outermost one that does becomes the form to
 * process. Processing that form submits it and every form nested in it.
 */
module NestedForms {
  import opened Wrappers
  import opened ComponentTree

  /** A page, a form with its `wantSubmitOnNestedFormSubmit` answer, or a submit button. */
  datatype Kind = WebPage | Form(wantsInclusion: bool) | Button

  predicate IsForm(c: Tree<Kind>)
  {
    c.data.Form?
  }

  /** A form that asks to be submitted when a form nested in it is. */
  predicate Wants(c: Tree<Kind>)
  {
    c.data.Form? && c.data.wantsInclusion
  }

  /** Whether the ancestor `p[..j]` of the component at `p` wants inclusion. */
  predicate WantsAt(page: Tree<Kind>, p: Path, j: nat)
    requires ValidPath(page, p) && j <= |p|
  {
    PrefixPath(page, p, j);
    Wants(At(page, p[..j]))
  }

  /**
   * The walk from the targeted form outwards: `k` ancestors are left to look at and `chosen`
   * is the length of the path of the form chosen so far. Each ancestor that wants inclusion
   * replaces the choice, so the outermost such ancestor is chosen last; the targeted form
   * itself is never asked. The result is the outermost ancestor that wants inclusion, or the
   * targeted form when none does.
   */
  function Upward(page: Tree<Kind>, p: Path, k: nat, chosen: nat): (m: nat)
    requires ValidPath(page, p) && k <= chosen <= |p|
    requires chosen < |p| ==> WantsAt(page, p, chosen)
    requires forall j :: k <= j < chosen ==> !WantsAt(page, p, j)
    ensures m <= chosen
    ensures m < |p| ==> WantsAt(page, p, m)
    ensures forall j :: 0 <= j < m ==> !WantsAt(page, p, j)
    decreases k
  {
    if k == 0 then chosen
    else if WantsAt(page, p, k - 1) then Upward(page, p, k - 1, k - 1)
    else Upward(page, p, k - 1, chosen)
  }

  /** The path of the form to process when the form at `p` is the targeted one. */
  function FormToProcess(page: Tree<Kind>, p: Path): (r: Path)
    requires ValidPath(page, p)
    ensures |r| <= |p| && r == p[..|r|] && ValidPath(page, r)
  {
    var m := Upward(page, p, |p|, |p|);
    PrefixPath(page, p, m);
    p[..m]
  }

  /**
   * The form to process is the outermost enclosing form that wants inclusion, and the
   * targeted form itself when no enclosing form does; no ancestor above it wants inclusion.
   */
  lemma FormToProcessIsOutermost(page: Tree<Kind>, p: Path)
    requires ValidPath(page, p)
    ensures var r := FormToProcess(page, p);
            (|r| < |p| ==> Wants(At(page, r)))
            && (|r| == |p| <==> forall j :: 0 <= j < |p| ==> !WantsAt(page, p, j))
            && forall j :: 0 <= j < |r| ==> !WantsAt(page, p, j)
  {
    var m := Upward(page, p, |p|, |p|);
    if m < |p| {
      assert !(forall j :: 0 <= j < |p| ==> !WantsAt(page, p, j)) by {
        assert WantsAt(page, p, m);
      }
    }
  }

  /** Whether the ancestor `p[..j]` of the component at `p` is a form. */
  predicate FormAt(page: Tree<Kind>, p: Path, j: nat)
    requires ValidPath(page, p) && j <= |p|
  {
    PrefixPath(page, p, j);
    IsForm(At(page, p[..j]))
  }

  /**
   * `Button.getForm()` for the button at `b`: the length of the path of its nearest enclosing
   * form among the ancestors `b[..j]` with `j < k`, if any.
   */
  function FormOf(page: Tree<Kind>, b: Path, k: nat): (r: Option<nat>)
    requires ValidPath(page, b) && k <= |b|
    ensures r.Some? ==> r.value < k && (PrefixPath(page, b, r.value); ValidPath(page, b[..r.value]))
                        && FormAt(page, b, r.value)
    ensures r.Some? ==> forall j :: r.value < j < k ==> !FormAt(page, b, j)
    ensures r.None? ==> forall j :: 0 <= j < k ==> !FormAt(page, b, j)
    decreases k
  {
    if k == 0 then None
    else
      PrefixPath(page, b, k - 1);
      if IsForm(At(page, b[..k - 1])) then Some(k - 1) else FormOf(page, b, k - 1)
  }

  /**
   * The forms processed when the form at `r` is processed: every form of its subtree, nested
   * forms first (post-order), the form itself last.
   */
  function FormsPostOrder(t: Tree<Kind>): (s: seq<nat>)
    ensures forall u :: u in s ==> u in Uids(t)
    ensures IsForm(t) ==> |s| > 0 && s[|s| - 1] == t.uid
  {
    FormsPostOrderAll(t.children) + if IsForm(t) then [t.uid] else []
  }

  function FormsPostOrderAll(cs: seq<Tree<Kind>>): (s: seq<nat>)
    ensures forall u :: u in s ==> u in UidsAll(cs)
  {
    if cs == [] then [] else FormsPostOrder(cs[0]) + FormsPostOrderAll(cs[1..])
  }

  /** `u` is the uid of a form somewhere in `t`, the root included. */
  ghost predicate FormIn(t: Tree<Kind>, u: nat)
  {
    exists q :: ValidPath(t, q) && IsForm(At(t, q)) && At(t, q).uid == u
  }

  ghost predicate FormInAll(cs: seq<Tree<Kind>>, u: nat)
  {
    exists k :: 0 <= k < |cs| && FormIn(cs[k], u)
  }

  /** The forms processed with the root of `t` are exactly the forms of `t`. */
  lemma FormsPostOrderExact(t: Tree<Kind>)
    ensures forall u :: u in FormsPostOrder(t) <==> FormIn(t, u)
  {
    FormsPostOrderForms(t);
    forall u | FormIn(t, u)
      ensures u in FormsPostOrder(t)
    {
      var q :| ValidPath(t, q) && IsForm(At(t, q)) && At(t, q).uid == u;
      FormBelowProcessed(t, q);
    }
  }

  /** Everything `FormsPostOrder` lists is a form of the tree. */
  lemma {:induction false} FormsPostOrderForms(t: Tree<Kind>)
    ensures forall u :: u in FormsPostOrder(t) ==> FormIn(t, u)
    decreases t, 1
  {
    FormsPostOrderAllForms(t.children);
    forall u | u in FormsPostOrder(t)
      ensures FormIn(t, u)
    {
      if u in FormsPostOrderAll(t.children) {
        var k :| 0 <= k < |t.children| && FormIn(t.children[k], u);
        var q :| ValidPath(t.children[k], q) && IsForm(At(t.children[k], q)) && At(t.children[k], q).uid == u;
        assert ([k] + q)[0] == k && ([k] + q)[1..] == q;
        assert ValidPath(t, [k] + q) && At(t, [k] + q) == At(t.children[k], q);
      } else {
        assert ValidPath(t, []) && At(t, []) == t;
      }
    }
  }

  lemma {:induction false} FormsPostOrderAllForms(cs: seq<Tree<Kind>>)
    ensures forall u :: u in FormsPostOrderAll(cs) ==> FormInAll(cs, u)
    decreases cs, 0
  {
    if cs != [] {
      FormsPostOrderForms(cs[0]);
      FormsPostOrderAllForms(cs[1..]);
      forall u | u in FormsPostOrderAll(cs)
        ensures FormInAll(cs, u)
      {
        if u in FormsPostOrder(cs[0]) {
          assert FormIn(cs[0], u);
        } else {
          assert u in FormsPostOrderAll(cs[1..]);
          var k :| 0 <= k < |cs[1..]| && FormIn(cs[1..][k], u);
          assert cs[1..][k] == cs[k + 1];
        }
      }
    }
  }

  /**
   * What a click on the button at `b` submits, or None when the button is in no form
   * (`findFormToProcess` throws).
   */
  function Processed(page: Tree<Kind>, b: Path): Option<seq<nat>>
    requires ValidPath(page, b)
  {
    match FormOf(page, b, |b|)
    case None => None
    case Some(k) =>
      PrefixPath(page, b, k);
      Some(FormsPostOrder(At(page, FormToProcess(page, b[..k]))))
  }

  /** The uid of the ancestor `p[..j]` of the component at `p`. */
  function AncestorUid(page: Tree<Kind>, p: Path, j: nat): nat
    requires ValidPath(page, p) && j <= |p|
  {
    PrefixPath(page, p, j);
    At(page, p[..j]).uid
  }

  /** Every form of a subtree is among the forms processed with the subtree's root. */
  lemma {:induction false} FormBelowProcessed(t: Tree<Kind>, q: Path)
    requires ValidPath(t, q) && IsForm(At(t, q))
    ensures At(t, q).uid in FormsPostOrder(t)
    decreases q
  {
    if |q| > 0 {
      FormBelowProcessed(t.children[q[0]], q[1..]);
      FormsOfChild(t.children, q[0]);
    }
  }

  lemma {:induction false} FormsOfChild(cs: seq<Tree<Kind>>, k: nat)
    requires k < |cs|
    ensures forall u :: u in FormsPostOrder(cs[k]) ==> u in FormsPostOrderAll(cs)
    decreases k
  {
    if k > 0 {
      FormsOfChild(cs[1..], k - 1);
    }
  }

  /** With unique uids, the root of a tree is not part of any proper subtree of it. */
  lemma {:induction false} RootNotBelow(t: Tree<Kind>, q: Path)
    requires UniqueUids(t) && ValidPath(t, q) && |q| > 0
    ensures t.uid !in Uids(At(t, q))
    decreases q
  {
    var c := t.children[q[0]];
    UidsOfChild(t.children, q[0]);
    if |q| > 1 {
      UniqueChild(t.children, q[0]);
      SubtreeUids(c, q[1..]);
    } else {
      assert At(t, q) == c;
    }
  }

  lemma {:induction false} SubtreeUids(t: Tree<Kind>, q: Path)
    requires ValidPath(t, q)
    ensures Uids(At(t, q)) <= Uids(t)
    decreases q
  {
    if |q| > 0 {
      SubtreeUids(t.children[q[0]], q[1..]);
      UidsOfChild(t.children, q[0]);
    }
  }

  /**
   * A click processes exactly a subtree: the targeted form is always submitted, and no form
   * enclosing the form to process is.
   */
  lemma ProcessedBounds(page: Tree<Kind>, b: Path)
    requires ValidPath(page, b) && UniqueUids(page)
    requires FormOf(page, b, |b|).Some?
    ensures var k := FormOf(page, b, |b|).value;
            var f := b[..k];
            var r := FormToProcess(page, f);
            ValidPath(page, f)
            && At(page, f).uid in Processed(page, b).value
            && (forall j :: 0 <= j < |r| ==> AncestorUid(page, f, j) !in Processed(page, b).value)
            && (forall u :: u in Processed(page, b).value <==> FormIn(At(page, r), u))
  {
    var k := FormOf(page, b, |b|).value;
    PrefixPath(page, b, k);
    var f := b[..k];
    var r := FormToProcess(page, f);
    var t := At(page, r);
    PrefixPath(page, f, |r|);
    FormBelowProcessed(t, f[|r|..]);
    FormsPostOrderExact(t);
    forall j | 0 <= j < |r|
      ensures AncestorUid(page, f, j) !in Processed(page, b).value
    {
      PrefixPath(page, f, j);
      PrefixPath(page, r, j);
      assert r[..j] == f[..j];
      var a := At(page, f[..j]);
      assert At(a, r[j..]) == t;
      UniqueUidsAt(page, f[..j]);
      RootNotBelow(a, r[j..]);
    }
  }

  lemma {:induction false} UniqueUidsAt(t: Tree<Kind>, q: Path)
    requires UniqueUids(t) && ValidPath(t, q)
    ensures UniqueUids(At(t, q))
    decreases q
  {
    if |q| > 0 {
      UniqueChild(t.children, q[0]);
      UniqueUidsAt(t.children[q[0]], q[1..]);
    }
  }

  /**
   * The models the forms' `onSubmit` write to, by form uid: set up false, set true by each
   * submitted form, reset false on tear-down.
   */
  class SubmittedModels {
    var submitted: map<nat, bool>

    /** `setUp`: one false model per form. */
    constructor SetUp(forms: set<nat>)
      ensures submitted == map u | u in forms :: false
    {
      submitted := map u | u in forms :: false;
    }

    /** Processing: `onSubmit` of each processed form, in order, sets its model to true. */
    method Submit(forms: seq<nat>)
      requires forall u :: u in forms ==> u in submitted
      modifies this
      ensures submitted.Keys == old(submitted).Keys
      ensures forall u :: u in submitted ==> submitted[u] == (old(submitted)[u] || u in forms)
    {
      for i := 0 to |forms|
        invariant submitted.Keys == old(submitted).Keys
        invariant forall u :: u in submitted ==> submitted[u] == (old(submitted)[u] || u in forms[..i])
      {
        submitted := submitted[forms[i] := true];
      }
    }

    /** `tearDown`: every model back to false. */
    method TearDown()
      modifies this
      ensures submitted.Keys == old(submitted).Keys
      ensures forall u :: u in submitted ==> !submitted[u]
    {
      submitted := map u | u in submitted :: false;
    }
  }

  // ---------------------------------------------------------------------------------------
  // The test page: outer > middle > inner, each form with its own submit button.
  // ---------------------------------------------------------------------------------------

  const OuterUid: nat := 2
  const MiddleUid: nat := 4
  const InnerUid: nat := 6
  const AllForms: set<nat> := {OuterUid, MiddleUid, InnerUid}

  const InnerForm: Tree<Kind> := Node(InnerUid, "inner", Form(false), [Node(7, "submit", Button, [])])
  const MiddleButton: Tree<Kind> := Node(5, "submit", Button, [])
  const OuterButton: Tree<Kind> := Node(3, "submit", Button, [])

  /** The middle form with the given flag. */
  function MiddleForm(wants: bool): Tree<Kind>
  {
    Node(MiddleUid, "middle", Form(wants), [MiddleButton, InnerForm])
  }

  /** The test page for the two flags of outer and middle. */
  function TestPage(outerWants: bool, middleWants: bool): Tree<Kind>
  {
    Node(1, "", WebPage, [Node(OuterUid, "outer", Form(outerWants), [OuterButton, MiddleForm(middleWants)])])
  }

  /** The paths of the three submit buttons. */
  const OuterSubmit: Path := [0, 0]
  const MiddleSubmit: Path := [0, 1, 0]
  const InnerSubmit: Path := [0, 1, 1, 0]

  /**
   * What each button submits, for every combination of the outer and middle flags: outer's
   * button processes all three forms whatever the flags; middle's button processes middle and
   * inner, and outer too when outer wants inclusion; inner's button processes inner alone,
   * middle too when middle or outer wants inclusion, and outer too when outer does.
   */
  lemma TestPageProcessed(ow: bool, mw: bool)
    ensures var page := TestPage(ow, mw);
            ValidPath(page, OuterSubmit) && ValidPath(page, MiddleSubmit) && ValidPath(page, InnerSubmit)
            && Processed(page, OuterSubmit) == Some([InnerUid, MiddleUid, OuterUid])
            && Processed(page, MiddleSubmit)
               == Some(if ow then [InnerUid, MiddleUid, OuterUid] else [InnerUid, MiddleUid])
            && Processed(page, InnerSubmit)
               == Some(if ow then [InnerUid, MiddleUid, OuterUid]
                       else if mw then [InnerUid, MiddleUid] else [InnerUid])
  {
    TestOuterProcessed(ow, mw);
    TestMiddleProcessed(ow, mw);
    TestInnerProcessed(ow, mw);
  }

  /** `Processed` from its three parts: the button's form, the form to process, its forms. */
  lemma ProcessedFrom(page: Tree<Kind>, b: Path, k: nat, g: Path, forms: seq<nat>)
    requires ValidPath(page, b) && k <= |b| && FormOf(page, b, |b|) == Some(k)
    requires ValidPath(page, b[..k]) && FormToProcess(page, b[..k]) == g
    requires FormsPostOrder(At(page, g)) == forms
    ensures Processed(page, b) == Some(forms)
  {
  }

  lemma TestOuterProcessed(ow: bool, mw: bool)
    ensures ValidPath(TestPage(ow, mw), OuterSubmit)
    ensures Processed(TestPage(ow, mw), OuterSubmit) == Some([InnerUid, MiddleUid, OuterUid])
  {
    var page := TestPage(ow, mw);
    assert ValidPath(page, OuterSubmit) && FormOf(page, OuterSubmit, |OuterSubmit|) == Some(1) by {
      TestPageFormOf(ow, mw);
    }
    assert OuterSubmit[..1] == [0];
    assert FormToProcess(page, [0]) == [0] by {
      TestPageToProcess(ow, mw);
    }
    assert FormsPostOrder(At(page, [0])) == [InnerUid, MiddleUid, OuterUid] by {
      TestPageShape(ow, mw);
      TestPageForms(ow, mw);
    }
    ProcessedFrom(page, OuterSubmit, 1, [0], [InnerUid, MiddleUid, OuterUid]);
  }

  lemma TestMiddleProcessed(ow: bool, mw: bool)
    ensures ValidPath(TestPage(ow, mw), MiddleSubmit)
    ensures Processed(TestPage(ow, mw), MiddleSubmit)
            == Some(if ow then [InnerUid, MiddleUid, OuterUid] else [InnerUid, MiddleUid])
  {
    var page := TestPage(ow, mw);
    assert ValidPath(page, MiddleSubmit) && FormOf(page, MiddleSubmit, |MiddleSubmit|) == Some(2) by {
      TestPageFormOf(ow, mw);
    }
    assert MiddleSubmit[..2] == [0, 1];
    assert ValidPath(page, [0, 1]) && FormToProcess(page, [0, 1]) == (if ow then [0] else [0, 1]) by {
      TestPageToProcess(ow, mw);
    }
    if ow {
      assert FormsPostOrder(At(page, [0])) == [InnerUid, MiddleUid, OuterUid] by {
        TestPageShape(ow, mw);
        TestPageForms(ow, mw);
      }
      ProcessedFrom(page, MiddleSubmit, 2, [0], [InnerUid, MiddleUid, OuterUid]);
    } else {
      assert FormsPostOrder(At(page, [0, 1])) == [InnerUid, MiddleUid] by {
        TestPageShape(ow, mw);
        TestPageForms(ow, mw);
      }
      ProcessedFrom(page, MiddleSubmit, 2, [0, 1], [InnerUid, MiddleUid]);
    }
  }

  lemma TestInnerProcessed(ow: bool, mw: bool)
    ensures ValidPath(TestPage(ow, mw), InnerSubmit)
    ensures Processed(TestPage(ow, mw), InnerSubmit)
            == Some(if ow then [InnerUid, MiddleUid, OuterUid]
                    else if mw then [InnerUid, MiddleUid] else [InnerUid])
  {
    var page := TestPage(ow, mw);
    assert ValidPath(page, InnerSubmit) && FormOf(page, InnerSubmit, |InnerSubmit|) == Some(3) by {
      TestPageFormOf(ow, mw);
    }
    assert InnerSubmit[..3] == [0, 1, 1];
    assert ValidPath(page, [0, 1, 1])
           && FormToProcess(page, [0, 1, 1]) == (if ow then [0] else if mw then [0, 1] else [0, 1, 1]) by {
      TestPageToProcess(ow, mw);
    }
    if ow {
      assert FormsPostOrder(At(page, [0])) == [InnerUid, MiddleUid, OuterUid] by {
        TestPageShape(ow, mw);
        TestPageForms(ow, mw);
      }
      ProcessedFrom(page, InnerSubmit, 3, [0], [InnerUid, MiddleUid, OuterUid]);
    } else if mw {
      assert FormsPostOrder(At(page, [0, 1])) == [InnerUid, MiddleUid] by {
        TestPageShape(ow, mw);
        TestPageForms(ow, mw);
      }
      ProcessedFrom(page, InnerSubmit, 3, [0, 1], [InnerUid, MiddleUid]);
    } else {
      assert FormsPostOrder(At(page, [0, 1, 1])) == [InnerUid] by {
        TestPageShape(ow, mw);
        TestPageForms(ow, mw);
      }
      ProcessedFrom(page, InnerSubmit, 3, [0, 1, 1], [InnerUid]);
    }
  }

  /** The three forms of the test page and the paths that reach them. */
  lemma TestPageShape(ow: bool, mw: bool)
    ensures var page := TestPage(ow, mw);
            ValidPath(page, InnerSubmit) && ValidPath(page, [0, 1, 1])
            && At(page, [0]) == page.children[0]
            && At(page, [0, 1]) == MiddleForm(mw)
            && At(page, [0, 1, 1]) == InnerForm
  {
    var page := TestPage(ow, mw);
    assert At(page, [0, 1]) == At(page.children[0], [1]);
    assert At(page, [0, 1, 1]) == At(page.children[0], [1, 1]);
    assert At(page, InnerSubmit) == At(page.children[0], [1, 1, 0]);
  }

  /** Each button's form is the form right above it. */
  lemma TestPageFormOf(ow: bool, mw: bool)
    ensures var page := TestPage(ow, mw);
            ValidPath(page, InnerSubmit)
            && FormOf(page, OuterSubmit, 2) == Some(1)
            && FormOf(page, MiddleSubmit, 3) == Some(2)
            && FormOf(page, InnerSubmit, 4) == Some(3)
  {
    TestPageShape(ow, mw);
    assert OuterSubmit[..1] == [0];
    assert MiddleSubmit[..2] == [0, 1];
    assert InnerSubmit[..3] == [0, 1, 1];
  }

  /** Which ancestors of each form want inclusion: the page never, outer and middle by their flags. */
  lemma TestPageWants(ow: bool, mw: bool)
    ensures var page := TestPage(ow, mw);
            ValidPath(page, [0, 1, 1])
            && !WantsAt(page, [0], 0)
            && !WantsAt(page, [0, 1], 0) && WantsAt(page, [0, 1], 1) == ow
            && !WantsAt(page, [0, 1, 1], 0) && WantsAt(page, [0, 1, 1], 1) == ow
            && WantsAt(page, [0, 1, 1], 2) == mw
  {
    TestPageShape(ow, mw);
    assert [0, 1][..1] == [0, 1, 1][..1] == [0];
    assert [0, 1, 1][..2] == [0, 1];
    assert [0][..0] == [0, 1][..0] == [0, 1, 1][..0] == [];
  }

  /** The form to process for each of the three forms. */
  lemma TestPageToProcess(ow: bool, mw: bool)
    ensures var page := TestPage(ow, mw);
            ValidPath(page, [0, 1, 1])
            && FormToProcess(page, [0]) == [0]
            && FormToProcess(page, [0, 1]) == (if ow then [0] else [0, 1])
            && FormToProcess(page, [0, 1, 1]) == (if ow then [0] else if mw then [0, 1] else [0, 1, 1])
  {
    var page := TestPage(ow, mw);
    TestPageWants(ow, mw);
    FormToProcessIsOutermost(page, [0]);
    FormToProcessIsOutermost(page, [0, 1]);
    FormToProcessIsOutermost(page, [0, 1, 1]);
    var r := FormToProcess(page, [0, 1]);
    assert r == [0, 1][..|r|];
    var r' := FormToProcess(page, [0, 1, 1]);
    assert r' == [0, 1, 1][..|r'|];
  }

  /** The forms each of the three forms processes, nested ones first. */
  lemma TestPageForms(ow: bool, mw: bool)
    ensures FormsPostOrder(InnerForm) == [InnerUid]
    ensures FormsPostOrder(MiddleForm(mw)) == [InnerUid, MiddleUid]
    ensures FormsPostOrder(TestPage(ow, mw).children[0]) == [InnerUid, MiddleUid, OuterUid]
  {
    var outer := TestPage(ow, mw).children[0];
    assert FormsPostOrder(InnerForm) == [InnerUid] by {
      assert FormsPostOrderAll(InnerForm.children[1..]) == [];
    }
    assert FormsPostOrder(MiddleForm(mw)) == [InnerUid, MiddleUid] by {
      assert FormsPostOrderAll(MiddleForm(mw).children[1..][1..]) == [];
      assert FormsPostOrderAll(MiddleForm(mw).children[1..]) == [InnerUid];
    }
    assert FormsPostOrderAll(outer.children[1..][1..]) == [];
    assert FormsPostOrderAll(outer.children[1..]) == [InnerUid, MiddleUid];
    assert FormsPostOrder(OuterButton) == [] by {
      assert FormsPostOrderAll(OuterButton.children) == [];
    }
    assert FormsPostOrderAll(outer.children) == [InnerUid, MiddleUid];
  }

  /** The forms a click on one of the three buttons of the test page processes. */
  function SubmittedBy(ow: bool, mw: bool, button: Path): seq<nat>
    requires button == OuterSubmit || button == MiddleSubmit || button == InnerSubmit
  {
    TestPageProcessed(ow, mw);
    Processed(TestPage(ow, mw), button).value
  }

  /** One test: set up, start the page with the two flags, click a button, read the models. */
  method RunTest(ow: bool, mw: bool, button: Path) returns (outer: bool, middle: bool, inner: bool)
    requires button == OuterSubmit || button == MiddleSubmit || button == InnerSubmit
    ensures outer == (OuterUid in SubmittedBy(ow, mw, button))
    ensures middle == (MiddleUid in SubmittedBy(ow, mw, button))
    ensures inner == (InnerUid in SubmittedBy(ow, mw, button))
  {
    var models := new SubmittedModels.SetUp(AllForms);
    TestPageProcessed(ow, mw);
    models.Submit(SubmittedBy(ow, mw, button));
    outer := models.submitted[OuterUid];
    middle := models.submitted[MiddleUid];
    inner := models.submitted[InnerUid];
    models.TearDown();
  }

  /** testDefaultOuterSubmitShouldSubmitAll */
  method DefaultOuterSubmitShouldSubmitAll() returns (outer: bool, middle: bool, inner: bool)
    ensures outer && middle && inner
  {
    TestPageProcessed(false, false);
    outer, middle, inner := RunTest(false, false, OuterSubmit);
  }

  /** testDefaultMiddleSubmitShouldSubmitMiddleAndInner */
  method DefaultMiddleSubmitShouldSubmitMiddleAndInner() returns (outer: bool, middle: bool, inner: bool)
    ensures !outer && middle && inner
  {
    TestPageProcessed(false, false);
    outer, middle, inner := RunTest(false, false, MiddleSubmit);
  }

  /** testDefaultInnerSubmitShouldSubmitOnlyInner */
  method DefaultInnerSubmitShouldSubmitOnlyInner() returns (outer: bool, middle: bool, inner: bool)
    ensures !outer && !middle && inner
  {
    TestPageProcessed(false, false);
    outer, middle, inner := RunTest(false, false, InnerSubmit);
  }

  /** testWithOuterInclusionOuterIsSubmittedOnMiddleSubmit */
  method WithOuterInclusionOuterIsSubmittedOnMiddleSubmit() returns (outer: bool, middle: bool, inner: bool)
    ensures outer && middle && inner
  {
    TestPageProcessed(true, false);
    outer, middle, inner := RunTest(true, false, MiddleSubmit);
  }

  /** testWithOuterInclusionOuterIsSubmittedOnInnerSubmit: middle goes along without opting in. */
  method WithOuterInclusionOuterIsSubmittedOnInnerSubmit() returns (outer: bool, middle: bool, inner: bool)
    ensures outer && middle && inner
  {
    TestPageProcessed(true, false);
    outer, middle, inner := RunTest(true, false, InnerSubmit);
  }

  /** testWithMiddleInclusionMiddleIsSubmittedOnInnerSubmit */
  method WithMiddleInclusionMiddleIsSubmittedOnInnerSubmit() returns (outer: bool, middle: bool, inner: bool)
    ensures !outer && middle && inner
  {
    TestPageProcessed(false, true);
    outer, middle, inner := RunTest(false, true, InnerSubmit);
  }

  /** testWithMiddleAndOuterInclusionMiddleAndOuterIsSubmittedOnInnerSubmit */
  method WithMiddleAndOuterInclusionMiddleAndOuterIsSubmittedOnInnerSubmit()
    returns (outer: bool, middle: bool, inner: bool)
    ensures outer && middle && inner
  {
    TestPageProcessed(true, true);
    outer, middle, inner := RunTest(true, true, InnerSubmit);
  }
}
