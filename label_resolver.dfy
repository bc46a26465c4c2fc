/**
 * `AutoFormComponentLabelResolver`: the component resolver behind `<wicket:label>`.
 *
 * `resolve` finds the form component a label tag belongs to (through its `for` attribute, the
 * `AutoLabel` container it sits in, or the nearest `AutoLabel` above) and auto-adds a
 * `FormLabel` for it. `findRelatedComponent` looks for the `for` target: first among the
 * container's own children, then in ever larger subtrees from the container up to the root,
 * never searching a subtree twice. When the label renders, `FormLabel` picks its text (label
 * model, resource key, tag body) and stores it in the form component's label model.
 */
module LabelResolver {
  import opened Wrappers
  import opened ComponentTree

  /**
   * What the resolver needs to know about a component: whether it is a `FormComponent`,
   * whether it is an `ILabelProvider`, whether it is an `AutoLabel` (and then the uid of the
   * form component its `getFormComponent()` returns, if any), and, for a `FormLabel`, the form
   * component it labels.
   */
  datatype Comp = Comp(isFormComponent: bool, isLabelProvider: bool,
                       autoLabel: Option<Option<nat>>, labelFor: Option<nat>)

  /** A markup tag as `resolve` sees it: a wicket tag or not, its name, `for` and `key`. */
  datatype Tag = Tag(isWicketTag: bool, name: string, attrFor: Option<string>, attrKey: Option<string>)

  predicate IsLabelTag(tag: Tag)
  {
    tag.isWicketTag && tag.name == "label"
  }

  // ---------------------------------------------------------------------------------------
  // findRelatedComponent
  // ---------------------------------------------------------------------------------------

  /**
   * The visitor of the outward search: the container searched in the previous round is
   * neither descended into nor matched; any other component with the id stops the walk.
   */
  function RelatedVisitor(id: string, searched: Option<nat>): Tree<Comp> -> Signal<Tree<Comp>>
  {
    (c: Tree<Comp>) => if searched == Some(c.uid) then ContinueButDontGoDeeper
         else if c.id == id then Stop(c)
         else ContinueTraversal
  }

  /** One round of the outward search: `container.visitChildren(...)`. */
  function SearchRound(container: Tree<Comp>, id: string, searched: Option<nat>): Option<Tree<Comp>>
  {
    VisitChildren(container.children, RelatedVisitor(id, searched))
  }

  /** The components a round does not descend into: the container searched before. */
  function Pruned(searched: Option<nat>): Tree<Comp> -> bool
  {
    (c: Tree<Comp>) => searched == Some(c.uid)
  }

  /** The components a round may return: those with the id, other than the searched container. */
  function Matches(id: string, searched: Option<nat>): Tree<Comp> -> bool
  {
    (c: Tree<Comp>) => c.id == id && searched != Some(c.uid)
  }

  /**
   * A round finds the first component of the container's pre-order, below the container
   * itself, that carries the id and is not the searched container, skipping everything below
   * the searched container.
   */
  lemma SearchRoundIsFirstMatch(container: Tree<Comp>, id: string, searched: Option<nat>)
    ensures SearchRound(container, id, searched)
         == First(Walk(container.children, Pruned(searched)), Matches(id, searched))
  {
    VisitFindsFirst(container.children, RelatedVisitor(id, searched), Matches(id, searched), Pruned(searched));
  }

  /** A round only ever returns a component carrying the id. */
  lemma SearchRoundMatches(container: Tree<Comp>, id: string, searched: Option<nat>)
    ensures SearchRound(container, id, searched).Some? ==>
              SearchRound(container, id, searched).value.id == id
              && searched != Some(SearchRound(container, id, searched).value.uid)
  {
    SearchRoundIsFirstMatch(container, id, searched);
  }

  /**
   * The outward search from the container at path `q`: search its subtree, and if nothing
   * is found go on with its parent, remembering `q` as searched; nothing once the root has
   * been searched.
   */
  function SearchOutward(page: Tree<Comp>, q: Path, id: string, searched: Option<nat>): Option<Tree<Comp>>
    requires ValidPath(page, q)
    decreases |q|
  {
    var found := SearchRound(At(page, q), id, searched);
    if found.Some? then found
    else if |q| == 0 then None
    else
      PrefixPath(page, q, |q| - 1);
      SearchOutward(page, q[..|q| - 1], id, Some(At(page, q).uid))
  }

  /** The quick route, then the outward search from the container at `p`. */
  function FindRelated(page: Tree<Comp>, p: Path, id: string): Option<Tree<Comp>>
    requires ValidPath(page, p)
  {
    match Get(At(page, p), id)
    case Some(c) => if c.data.isLabelProvider then Some(c) else SearchOutward(page, p, id, None)
    case None => SearchOutward(page, p, id, None)
  }

  /** Whatever the outward search returns carries the id. */
  lemma {:induction false} SearchOutwardMatches(page: Tree<Comp>, q: Path, id: string, searched: Option<nat>)
    requires ValidPath(page, q)
    ensures SearchOutward(page, q, id, searched).Some? ==> SearchOutward(page, q, id, searched).value.id == id
    decreases |q|
  {
    SearchRoundMatches(At(page, q), id, searched);
    if |q| > 0 {
      PrefixPath(page, q, |q| - 1);
      SearchOutwardMatches(page, q[..|q| - 1], id, Some(At(page, q).uid));
    }
  }

  /**
   * `findRelatedComponent(container, id)` for the container at path `p`: a direct child with
   * the id is returned at once if it is a label provider; otherwise the loop searches from the
   * container up to the root, at most one round per level, and gives up (null) only after the
   * root's round.
   */
  method FindRelatedComponent(page: Tree<Comp>, p: Path, id: string) returns (r: Option<Tree<Comp>>, rounds: nat)
    requires ValidPath(page, p)
    ensures r == FindRelated(page, p, id)
    ensures r.Some? ==> r.value.id == id
    ensures rounds <= |p| + 1
    ensures r.None? ==> rounds == |p| + 1
  {
    rounds := 0;
    var quick := Get(At(page, p), id);
    if quick.Some? && quick.value.data.isLabelProvider {
        return quick, rounds;
    }
    SearchOutwardMatches(page, p, id, None);
    var container: Option<Path> := Some(p);
    var searched: Option<nat> := None;
    while container.Some?
      invariant container.Some? ==> ValidPath(page, container.value) && |container.value| + rounds == |p|
      invariant container.Some? ==> SearchOutward(page, p, id, None) == SearchOutward(page, container.value, id, searched)
      invariant container.None? ==> rounds == |p| + 1 && SearchOutward(page, p, id, None) == None
      decreases if container.Some? then |container.value| + 1 else 0
    {
      var q := container.value;
      var here := At(page, q);
      rounds := rounds + 1;
      var found := VisitChildren(here.children, RelatedVisitor(id, searched));
      if found.Some? {
        return found, rounds;
      }
      searched := Some(here.uid);
      if |q| == 0 {
        container := None;
      } else {
        PrefixPath(page, q, |q| - 1);
        container := Some(q[..|q| - 1]);
      }
    }
    r := None;
  }

  // ---------------------------------------------------------------------------------------
  // resolve
  // ---------------------------------------------------------------------------------------

  /** `container.findParent(AutoLabel.class)`: the nearest proper ancestor that is an `AutoLabel`. */
  function AutoLabelAbove(page: Tree<Comp>, p: Path): (r: Option<Path>)
    requires ValidPath(page, p)
    ensures r.Some? ==> |r.value| < |p| && r.value == p[..|r.value|]
    ensures r.Some? ==> ValidPath(page, r.value) && At(page, r.value).data.autoLabel.Some?
    ensures r.Some? ==> forall k :: |r.value| < k < |p| ==> ValidPath(page, p[..k]) && At(page, p[..k]).data.autoLabel.None?
    ensures r.None? ==> forall k :: 0 <= k < |p| ==> ValidPath(page, p[..k]) && At(page, p[..k]).data.autoLabel.None?
    decreases |p|
  {
    if |p| == 0 then None
    else
      var parent := p[..|p| - 1];
      PrefixPath(page, p, |p| - 1);
      if At(page, parent).data.autoLabel.Some? then Some(parent)
      else
        var r := AutoLabelAbove(page, parent);
        assert forall k :: 0 <= k < |p| - 1 ==> parent[..k] == p[..k];
        r
  }

  /**
   * The form component a `<wicket:label>` in the container at `p` belongs to: the `for`
   * target if it is a form component; else the container's own `AutoLabel` form component;
   * else that of the nearest `AutoLabel` above. None: `resolve` throws.
   */
  function ChooseFormComponent(page: Tree<Comp>, p: Path, tag: Tag): Option<nat>
    requires ValidPath(page, p)
  {
    var viaFor :=
      if tag.attrFor.None? then None
      else match FindRelated(page, p, tag.attrFor.value)
        case Some(c) => if c.data.isFormComponent then Some(c.uid) else None
        case None => None;
    if viaFor.Some? then viaFor
    else
      var own := At(page, p).data.autoLabel;
      if own.Some? && own.value.Some? then own.value
      else match AutoLabelAbove(page, p)
        case Some(a) => At(page, a).data.autoLabel.value
        case None => None
  }

  /**
   * The priority of the three sources: a form component found through `for` always wins; a
   * container that is an `AutoLabel` with a form component comes next; the nearest
   * `AutoLabel` above decides last, even when it has no form component. The choice fails
   * exactly when none of the three yields a form component.
   */
  lemma ChooseFormComponentPriority(page: Tree<Comp>, p: Path, tag: Tag)
    requires ValidPath(page, p)
    ensures var forTarget := if tag.attrFor.Some? then FindRelated(page, p, tag.attrFor.value) else None;
            var own := At(page, p).data.autoLabel;
            var above := AutoLabelAbove(page, p);
            var r := ChooseFormComponent(page, p, tag);
            (forTarget.Some? && forTarget.value.data.isFormComponent ==> r == Some(forTarget.value.uid))
            && (!(forTarget.Some? && forTarget.value.data.isFormComponent) && own.Some? && own.value.Some?
                ==> r == own.value)
            && (!(forTarget.Some? && forTarget.value.data.isFormComponent) && !(own.Some? && own.value.Some?) && above.Some?
                ==> r == At(page, above.value).data.autoLabel.value)
            && (r.None? <==> !(forTarget.Some? && forTarget.value.data.isFormComponent)
                             && !(own.Some? && own.value.Some?)
                             && (above.None? || At(page, above.value).data.autoLabel.value.None?))
  {
  }

  /** Whatever is chosen through `for` is a component of the page carrying the `for` id. */
  lemma ChosenForTargetCarriesId(page: Tree<Comp>, p: Path, tag: Tag)
    requires ValidPath(page, p) && tag.attrFor.Some?
    requires FindRelated(page, p, tag.attrFor.value).Some?
    ensures FindRelated(page, p, tag.attrFor.value).value.id == tag.attrFor.value
  {
    var id := tag.attrFor.value;
    SearchOutwardMatches(page, p, id, None);
  }

  /** The decimal digits of `n`, most significant first. */
  function Decimal(n: nat): (s: string)
    ensures |s| >= 1 && forall i :: 0 <= i < |s| ==> '0' <= s[i] <= '9'
    ensures n > 0 ==> s[0] != '0'
    decreases n
  {
    if n < 10 then [Digit(n)] else Decimal(n / 10) + [Digit(n % 10)]
  }

  function Digit(d: nat): (c: char)
    requires d < 10
    ensures '0' <= c <= '9' && c as int - '0' as int == d
  {
    (d + '0' as int) as char
  }

  /** The value of a string of decimal digits. */
  function DecimalValue(s: string): nat
    requires forall i :: 0 <= i < |s| ==> '0' <= s[i] <= '9'
  {
    if s == [] then 0 else DecimalValue(s[..|s| - 1]) * 10 + (s[|s| - 1] as int - '0' as int)
  }

  /** Reading the digits back gives the number: distinct auto indexes give distinct label ids. */
  lemma {:induction false} DecimalRoundTrip(n: nat)
    ensures DecimalValue(Decimal(n)) == n
    decreases n
  {
    var s := Decimal(n);
    if n >= 10 {
      DecimalRoundTrip(n / 10);
      assert s[..|s| - 1] == Decimal(n / 10);
    }
  }

  /** The id `"label" + page.getAutoIndex2()` of the auto-added label. */
  function LabelId(index: nat): string
  {
    "label" + Decimal(index)
  }

  lemma LabelIdsDistinct(i: nat, j: nat)
    requires i != j
    ensures LabelId(i) != LabelId(j)
  {
    DecimalRoundTrip(i);
    DecimalRoundTrip(j);
    assert LabelId(i)[5..] == Decimal(i);
    assert LabelId(j)[5..] == Decimal(j);
  }

  /** The `FormLabel` added for the form component `fc`: a plain container labelling `fc`. */
  function FormLabel(uid: nat, index: nat, fc: nat): Tree<Comp>
  {
    Node(uid, LabelId(index), Comp(false, false, None, Some(fc)), [])
  }

  /** The page holding the tree, with its auto-index counter (`Page.getAutoIndex2`). */
  class LabelPage {
    var tree: Tree<Comp>
    var autoIndex: nat

    constructor (t: Tree<Comp>)
      ensures tree == t && autoIndex == 0
    {
      tree := t;
      autoIndex := 0;
    }

    /**
     * `resolve(container, markupStream, tag)` for the container at `p`; `newUid` is the
     * identity the new `FormLabel` instance receives. A tag that is not `<wicket:label>` is left
     * to other resolvers (false, nothing changes); a label tag without a form component throws;
     * otherwise one `FormLabel` is auto-added to the container and the auto index advances.
     */
    method Resolve(p: Path, tag: Tag, newUid: nat) returns (r: Result<bool, string>)
      requires ValidPath(tree, p)
      modifies this
      ensures !IsLabelTag(tag) ==> r == Result.Success(false) && tree == old(tree) && autoIndex == old(autoIndex)
      ensures IsLabelTag(tag) && ChooseFormComponent(old(tree), p, tag).None? ==>
                r == Failure("no form component found for <wicket:label>")
                && tree == old(tree) && autoIndex == old(autoIndex)
      ensures IsLabelTag(tag) && ChooseFormComponent(old(tree), p, tag).Some? ==>
                r == Result.Success(true) && autoIndex == old(autoIndex) + 1
                && tree == Put(old(tree), p, AutoAdd(At(old(tree), p),
                                 FormLabel(newUid, old(autoIndex), ChooseFormComponent(old(tree), p, tag).value)))
    {
      if !IsLabelTag(tag) {
        return Result.Success(false);
      }
      var fc := ChooseFormComponent(tree, p, tag);
      if fc.None? {
        return Failure("no form component found for <wicket:label>");
      }
      var added := FormLabel(newUid, autoIndex, fc.value);
      tree := Put(tree, p, AutoAdd(At(tree, p), added));
      autoIndex := autoIndex + 1;
      r := Result.Success(true);
    }
  }

  /**
   * After a successful `resolve` the container holds the new label as its one and only child
   * with the id `"label" + index`, keeps distinct child ids, and is still at the same path.
   */
  lemma ResolveAddsOneLabel(page: Tree<Comp>, p: Path, added: Tree<Comp>)
    requires ValidPath(page, p) && DistinctIds(At(page, p).children)
    ensures var after := Put(page, p, AutoAdd(At(page, p), added));
            ValidPath(after, p)
            && DistinctIds(At(after, p).children)
            && Get(At(after, p), added.id) == Some(added)
            && At(after, p).uid == At(page, p).uid
  {
    AutoAddDistinct(At(page, p), added);
  }

  // ---------------------------------------------------------------------------------------
  // FormLabel.onComponentTagBody
  // ---------------------------------------------------------------------------------------

  /**
   * The label text: the value of the form component's label model when there is a model and
   * its value is not null, else the resource string of the `key` attribute, else the tag's
   * own body. `current` is that model value (None for no model or a null value) and
   * `resource` what `getString(key)` returns.
   */
  function LabelText(current: Option<string>, key: Option<string>, resource: string, body: string): string
  {
    if current.Some? then current.value else if key.Some? then resource else body
  }

  /** `Model<String>`: a mutable holder of a possibly null string. */
  class LabelModel {
    var value: Option<string>

    constructor ()
      ensures value == None
    {
      value := None;
    }
  }

  /** The part of a `FormComponent` the label writes to: its label model, possibly null. */
  class FormComponent {
    var labelModel: LabelModel?

    constructor (m: LabelModel?)
      ensures labelModel == m
    {
      labelModel := m;
    }

    /** The model value as `LabelText` sees it: none for a null model. */
    function CurrentLabel(): (r: Option<string>)
      reads this, labelModel
      ensures labelModel == null ==> r.None?
      ensures labelModel != null ==> r == labelModel.value
    {
      if labelModel == null then None else labelModel.value
    }
  }

  /**
   * `FormLabel.onComponentTagBody`: choose the text, and store it in the form component's
   * label model, creating a fresh `Model` only when the form component had none.
   */
  method RenderLabelBody(fc: FormComponent, key: Option<string>, resource: string, body: string)
    returns (text: string)
    modifies fc, fc.labelModel
    ensures text == LabelText(old(fc.CurrentLabel()), key, resource, body)
    ensures fc.labelModel != null && fc.labelModel.value == Some(text)
    ensures fc.CurrentLabel() == Some(text)
    ensures old(fc.labelModel) != null ==> fc.labelModel == old(fc.labelModel)
    ensures old(fc.labelModel) == null ==> fresh(fc.labelModel)
  {
    text := LabelText(fc.CurrentLabel(), key, resource, body);
    var model: LabelModel;
    if fc.labelModel == null {
      model := new LabelModel();
      fc.labelModel := model;
    } else {
      model := fc.labelModel;
    }
    model.value := Some(text);
  }
}
