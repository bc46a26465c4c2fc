/**
 * The page trees of the fenced-feedback tests and what each test asserts about them.
 *
 * Each test starts a fresh page, so each scenario below starts from the page value with an
 * empty message store. Components are named by the field or wicket id that holds them in the
 * test. Uids are labels of this model: they number the page's components depth-first, the two
 * links after the form, and `container2`, which the forward link creates, last.
 */
module FencedFeedbackScenarios {
  import opened Wrappers
  import opened ComponentTree
  import opened FencedFeedback

  // `PanelWithContainer`: two panels fencing the inner container `container1`.
  const Container1Input: Tree<Role> := Node(10, "containerInput", Plain, [])
  const Container1Feedback: Tree<Role> := Node(11, "container1Feedback", FeedbackPanel(Some(9), None), [])
  const Container1Feedback2: Tree<Role> := Node(12, "container1Feedback2", FeedbackPanel(Some(9), None), [])
  const Container1: Tree<Role> :=
    Node(9, "container", Plain, [Container1Input, Container1Feedback, Container1Feedback2])
  const PanelWithContainer: Tree<Role> := Node(8, "container", Plain, [Container1])

  // The form: its panel sits in `formFeedbackContainer` but fences the form.
  const FormFeedback: Tree<Role> := Node(6, "formFeedback", FeedbackPanel(Some(4), None), [])
  const FormFeedbackContainer: Tree<Role> := Node(5, "formFeedbackContainer", Plain, [FormFeedback])
  const FormInput: Tree<Role> := Node(7, "formInput", Plain, [])
  const Form: Tree<Role> := Node(4, "form", Plain, [FormFeedbackContainer, FormInput, PanelWithContainer])

  const ExternalFeedback: Tree<Role> := Node(2, "feedback", FeedbackPanel(None, None), [])
  const ExternalLabel: Tree<Role> := Node(3, "externalLabel", Plain, [])
  const Forward: Tree<Role> := Node(13, "forward", Plain, [])
  const Backward: Tree<Role> := Node(14, "backward", Plain, [])
  const TestPage: Tree<Role> := Node(1, "", Plain, [ExternalFeedback, ExternalLabel, Form, Forward, Backward])

  /** `container2`, the `EmptyPanel` the forward link puts in the place of `container1`. */
  const Container2: Tree<Role> := Node(15, "container", Plain, [])

  function ErrorAt(u: nat): Message
  {
    Message(Some(u), Level.Error, "error")
  }

  /** The four panels' verdicts, in the order the test asserts them. */
  function Seen(page: Tree<Role>, msgs: seq<Message>): (bool, bool, bool, bool)
  {
    (AnyMessage(page, msgs, 11), AnyMessage(page, msgs, 12),
     AnyMessage(page, msgs, 6), AnyMessage(page, msgs, 2))
  }

  lemma TestPageNumbered()
    ensures Within(TestPage, 1, 15)
  {
    WithinLeaf(Container1Input);
    WithinLeaf(Container1Feedback);
    WithinLeaf(Container1Feedback2);
    WithinNode(Container1, [10, 11, 12, 13]);
    WithinNode(PanelWithContainer, [9, 13]);
    WithinLeaf(FormFeedback);
    WithinNode(FormFeedbackContainer, [6, 7]);
    WithinLeaf(FormInput);
    WithinNode(Form, [5, 7, 8, 13]);
    WithinLeaf(ExternalFeedback);
    WithinLeaf(ExternalLabel);
    WithinLeaf(Forward);
    WithinLeaf(Backward);
    WithinNode(TestPage, [2, 3, 4, 13, 14, 15]);
  }

  lemma TestPageFences()
    ensures Fences(TestPage) == {4, 9}
  {
    FencesOfChildren(Container1.children, [{}, {9}, {9}]);
    FencesOfChildren(PanelWithContainer.children, [{9}]);
    FencesOfChildren(FormFeedbackContainer.children, [{4}]);
    FencesOfChildren(Form.children, [{4}, {}, {9}]);
    FencesOfChildren(TestPage.children, [{}, {}, {4, 9}, {}, {}]);
  }

  lemma TestPagePanels()
    ensures Find(TestPage, 11) == Some(Container1Feedback)
    ensures Find(TestPage, 12) == Some(Container1Feedback2)
    ensures Find(TestPage, 6) == Some(FormFeedback)
    ensures Find(TestPage, 2) == Some(ExternalFeedback)
  {
    TestPageNumbered();
    FindAtPath(TestPage, [2, 2, 0, 1]);
    FindAtPath(TestPage, [2, 2, 0, 2]);
    FindAtPath(TestPage, [2, 0, 0]);
    FindAtPath(TestPage, [0]);
  }

  lemma TestPageScopes()
    ensures Scope(TestPage, 10) == Some(9)
    ensures Scope(TestPage, 7) == Some(4)
    ensures Scope(TestPage, 3) == Some(1)
  {
    TestPageNumbered();
    TestPageFences();
    ScopeAtPath(TestPage, [2, 2, 0, 0], {4, 9}, 1);
    ScopeAtPath(TestPage, [2, 1], {4, 9}, 1);
    ScopeAtPath(TestPage, [1], {4, 9}, 1);
  }

  /** `fencing`, first page: an error of `container1Input` reaches only the container's panels. */
  lemma FencingContainerMessage()
    ensures Seen(TestPage, [ErrorAt(10)]) == (true, true, false, false)
  {
    TestPagePanels();
    TestPageScopes();
  }

  /** `fencing`, second page: an error of `formInput` reaches only the form's panel. */
  lemma FencingFormMessage()
    ensures Seen(TestPage, [ErrorAt(7)]) == (false, false, true, false)
  {
    TestPagePanels();
    TestPageScopes();
  }

  /** `fencing`, third page: an error of `externalLabel` reaches only the catch-all panel. */
  lemma FencingExternalMessage()
    ensures Seen(TestPage, [ErrorAt(3)]) == (false, false, false, true)
  {
    TestPagePanels();
    TestPageScopes();
  }

  /** `fencing`, fourth page: a session error reaches only the catch-all panel. */
  lemma FencingSessionMessage()
    ensures Seen(TestPage, [Message(None, Level.Error, "error")]) == (false, false, false, true)
  {
    TestPagePanels();
  }

  /** The page after `container1Feedback.setFilter(new ErrorLevelFeedbackMessageFilter(ERROR))`. */
  const FilteredPage: Tree<Role> := WithFilter(TestPage, 11, Level.Error)

  /** What the filtered page shows of `msgs`, told by what the unfiltered page shows. */
  lemma FilteredView(msgs: seq<Message>)
    ensures Seen(FilteredPage, msgs)
         == (Collect(TestPage, Some(9), Some(Level.Error), msgs) != [], AnyMessage(TestPage, msgs, 12),
             AnyMessage(TestPage, msgs, 6), AnyMessage(TestPage, msgs, 2))
  {
    TestPageNumbered();
    TestPagePanels();
    FilterNarrowsOwnView(TestPage, msgs, 11, Level.Error);
    FilterOnlyOwnPanel(TestPage, msgs, 11, Level.Error, 12);
    FilterOnlyOwnPanel(TestPage, msgs, 11, Level.Error, 6);
    FilterOnlyOwnPanel(TestPage, msgs, 11, Level.Error, 2);
  }

  /**
   * `filtering`, first page: an info message of `container1Input` is held back by the filtered
   * panel, still shown by its unfiltered sibling, and seen by no panel outside the container.
   */
  lemma FilteringHoldsBackInfo()
    ensures Seen(FilteredPage, [Message(Some(10), Info, "info")]) == (false, true, false, false)
  {
    FilteredView([Message(Some(10), Info, "info")]);
    TestPagePanels();
    TestPageScopes();
  }

  /** `filtering`, second page: an error passes the filter and still does not leak. */
  lemma FilteringLetsErrorThrough()
    ensures Seen(FilteredPage, [Message(Some(10), Level.Error, "info")]) == (true, true, false, false)
  {
    FilteredView([Message(Some(10), Level.Error, "info")]);
    TestPagePanels();
    TestPageScopes();
  }

  // `moving`: the pages left after `container1Feedback.remove()`, then also
  // `container1Feedback2.remove()`.
  const Container1Minus1: Tree<Role> := Node(9, "container", Plain, [Container1Input, Container1Feedback2])
  const PanelWithContainerMinus1: Tree<Role> := Node(8, "container", Plain, [Container1Minus1])
  const FormMinus1: Tree<Role> :=
    Node(4, "form", Plain, [FormFeedbackContainer, FormInput, PanelWithContainerMinus1])
  const TestPageMinus1: Tree<Role> :=
    Node(1, "", Plain, [ExternalFeedback, ExternalLabel, FormMinus1, Forward, Backward])

  const Container1Minus2: Tree<Role> := Node(9, "container", Plain, [Container1Input])
  const PanelWithContainerMinus2: Tree<Role> := Node(8, "container", Plain, [Container1Minus2])
  const FormMinus2: Tree<Role> :=
    Node(4, "form", Plain, [FormFeedbackContainer, FormInput, PanelWithContainerMinus2])
  const TestPageMinus2: Tree<Role> :=
    Node(1, "", Plain, [ExternalFeedback, ExternalLabel, FormMinus2, Forward, Backward])

  lemma RemoveFirstPanel()
    ensures Detach(TestPage, 11) == TestPageMinus1
  {
    TestPageNumbered();
    UniqueChild(TestPage.children, 2);
    UniqueChild(Form.children, 2);
    UniqueChild(PanelWithContainer.children, 0);
    UidsOfChild(Container1.children, 1);
    UidsOfChild(PanelWithContainer.children, 0);
    UidsOfChild(Form.children, 2);
    DetachInChild(Container1.children, 1, 11);
    assert Container1.children[..1] + Container1.children[2..] == Container1Minus1.children;
    assert Detach(Container1, 11) == Container1Minus1;
    DetachInChild(PanelWithContainer.children, 0, 11);
    assert Detach(PanelWithContainer, 11) == PanelWithContainerMinus1;
    DetachInChild(Form.children, 2, 11);
    assert Detach(Form, 11) == FormMinus1;
    DetachInChild(TestPage.children, 2, 11);
  }

  lemma Minus1Numbered()
    ensures Within(TestPageMinus1, 1, 15)
  {
    WithinLeaf(Container1Input);
    WithinLeaf(Container1Feedback2);
    WithinNode(Container1Minus1, [10, 11, 13]);
    WithinNode(PanelWithContainerMinus1, [9, 13]);
    WithinLeaf(FormFeedback);
    WithinNode(FormFeedbackContainer, [6, 7]);
    WithinLeaf(FormInput);
    WithinNode(FormMinus1, [5, 7, 8, 13]);
    WithinLeaf(ExternalFeedback);
    WithinLeaf(ExternalLabel);
    WithinLeaf(Forward);
    WithinLeaf(Backward);
    WithinNode(TestPageMinus1, [2, 3, 4, 13, 14, 15]);
  }

  /** The remaining panel still fences `container1`. */
  lemma Minus1Fences()
    ensures Fences(TestPageMinus1) == {4, 9}
  {
    FencesOfChildren(Container1Minus1.children, [{}, {9}]);
    FencesOfChildren(PanelWithContainerMinus1.children, [{9}]);
    FencesOfChildren(FormFeedbackContainer.children, [{4}]);
    FencesOfChildren(FormMinus1.children, [{4}, {}, {9}]);
    FencesOfChildren(TestPageMinus1.children, [{}, {}, {4, 9}, {}, {}]);
  }

  lemma RemoveSecondPanel()
    ensures Detach(TestPageMinus1, 12) == TestPageMinus2
  {
    Minus1Numbered();
    UniqueChild(TestPageMinus1.children, 2);
    UniqueChild(FormMinus1.children, 2);
    UniqueChild(PanelWithContainerMinus1.children, 0);
    UidsOfChild(Container1Minus1.children, 1);
    UidsOfChild(PanelWithContainerMinus1.children, 0);
    UidsOfChild(FormMinus1.children, 2);
    DetachInChild(Container1Minus1.children, 1, 12);
    assert Container1Minus1.children[..1] + Container1Minus1.children[2..] == Container1Minus2.children;
    assert Detach(Container1Minus1, 12) == Container1Minus2;
    DetachInChild(PanelWithContainerMinus1.children, 0, 12);
    assert Detach(PanelWithContainerMinus1, 12) == PanelWithContainerMinus2;
    DetachInChild(FormMinus1.children, 2, 12);
    assert Detach(FormMinus1, 12) == FormMinus2;
    DetachInChild(TestPageMinus1.children, 2, 12);
  }

  lemma Minus2Numbered()
    ensures Within(TestPageMinus2, 1, 15)
  {
    WithinLeaf(Container1Input);
    WithinNode(Container1Minus2, [10, 13]);
    WithinNode(PanelWithContainerMinus2, [9, 13]);
    WithinLeaf(FormFeedback);
    WithinNode(FormFeedbackContainer, [6, 7]);
    WithinLeaf(FormInput);
    WithinNode(FormMinus2, [5, 7, 8, 13]);
    WithinLeaf(ExternalFeedback);
    WithinLeaf(ExternalLabel);
    WithinLeaf(Forward);
    WithinLeaf(Backward);
    WithinNode(TestPageMinus2, [2, 3, 4, 13, 14, 15]);
  }

  /** With both of its panels gone, `container1` is no longer a fence. */
  lemma Minus2Fences()
    ensures Fences(TestPageMinus2) == {4}
  {
    FencesOfChildren(Container1Minus2.children, [{}]);
    FencesOfChildren(PanelWithContainerMinus2.children, [{}]);
    FencesOfChildren(FormFeedbackContainer.children, [{4}]);
    FencesOfChildren(FormMinus2.children, [{4}, {}, {}]);
    FencesOfChildren(TestPageMinus2.children, [{}, {}, {4}, {}, {}]);
  }

  /**
   * `moving`: with one of the two fencing panels removed the container's error still reaches
   * the other and stays inside; with both removed it reaches the form's panel.
   */
  lemma MovingOnePanelLeft()
    ensures AnyMessage(Detach(TestPage, 11), [ErrorAt(10)], 12)
    ensures !AnyMessage(Detach(TestPage, 11), [ErrorAt(10)], 6)
  {
    RemoveFirstPanel();
    Minus1Numbered();
    Minus1Fences();
    FindAtPath(TestPageMinus1, [2, 2, 0, 1]);
    FindAtPath(TestPageMinus1, [2, 0, 0]);
    ScopeAtPath(TestPageMinus1, [2, 2, 0, 0], {4, 9}, 1);
  }

  lemma MovingNoPanelLeft()
    ensures AnyMessage(Detach(Detach(TestPage, 11), 12), [ErrorAt(10)], 6)
  {
    RemoveFirstPanel();
    RemoveSecondPanel();
    Minus2Numbered();
    Minus2Fences();
    FindAtPath(TestPageMinus2, [2, 0, 0]);
    ScopeAtPath(TestPageMinus2, [2, 2, 0, 0], {4}, 1);
  }

  lemma SecondPanelInPage()
    ensures 12 in Uids(Detach(TestPage, 11))
  {
    RemoveFirstPanel();
    Minus1Numbered();
    FindAtPath(TestPageMinus1, [2, 2, 0, 1]);
    FindFound(TestPageMinus1, 12);
  }

  /**
   * The last two pages of `moving`, driven through the page object: on a fresh page remove one
   * fencing panel, report the container's error and ask the panels; then the same with both
   * fencing panels removed.
   */
  method MovingOnPage() returns (secondSees: bool, formSeesEarly: bool, formSeesLate: bool)
    ensures secondSees && !formSeesEarly && formSeesLate
  {
    TestPagePanels();
    FindFound(TestPage, 11);
    MovingOnePanelLeft();
    var page := new Page(TestPage);
    var removed := page.Remove(11);
    assert removed.Success? && page.tree == Detach(TestPage, 11);
    page.Report(10, Level.Error, "error");
    assert page.messages == [ErrorAt(10)];
    secondSees := page.AnyMessageOf(12);
    formSeesEarly := page.AnyMessageOf(6);

    SecondPanelInPage();
    MovingNoPanelLeft();
    page := new Page(TestPage);
    removed := page.Remove(11);
    assert removed.Success? && page.tree == Detach(TestPage, 11);
    removed := page.Remove(12);
    assert removed.Success? && page.tree == Detach(Detach(TestPage, 11), 12);
    page.Report(10, Level.Error, "error");
    assert page.messages == [ErrorAt(10)];
    formSeesLate := page.AnyMessageOf(6);
  }

  /**
   * `replacingBackAndForthShouldNotBreakFencing`: the forward link's `replaceWith` finds
   * `container1` and the backward link's finds `container2`; afterwards the page is the one
   * the test started with, so the container's errors still stay inside the container.
   */
  lemma ReplacingBackAndForth()
    ensures Find(TestPage, 8) == Some(PanelWithContainer) && PanelWithContainer.id == Container2.id
    ensures Find(Swap(TestPage, 8, Container2), 15) == Some(Container2)
    ensures Swap(Swap(TestPage, 8, Container2), 15, PanelWithContainer) == TestPage
    ensures AnyMessage(TestPage, [ErrorAt(10), ErrorAt(10)], 11)
    ensures !AnyMessage(TestPage, [ErrorAt(10), ErrorAt(10)], 6)
    ensures !AnyMessage(TestPage, [ErrorAt(10), ErrorAt(10)], 2)
  {
    TestPageNumbered();
    FindAtPath(TestPage, [2, 2]);
    FindFound(TestPage, 8);
    SwapFinds(TestPage, 8, Container2);
    SwapBack(TestPage, 8, Container2);
    TestPagePanels();
    TestPageScopes();
    AnyMessageIff(TestPage, [ErrorAt(10), ErrorAt(10)], 11);
    AnyMessageIff(TestPage, [ErrorAt(10), ErrorAt(10)], 6);
    AnyMessageIff(TestPage, [ErrorAt(10), ErrorAt(10)], 2);
  }
}
