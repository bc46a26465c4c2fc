/**
 * The page of the fenced-feedback replacing test: a panel that reports an info message each
 * time it is configured, fencing its own feedback panel, is replaced by an empty panel and put
 * back, while a catch-all panel elsewhere on the page must never show its message.
 *
 * Uids are distinct numbers chosen so that every page below is numbered in pre-order.
 */
module FencedFeedbackReplacingScenario {
  import opened Wrappers
  import opened ComponentTree
  import opened FencedFeedback

  const FeedbackCatchall: Tree<Role> := Node(23, "feedbackCatchall", FeedbackPanel(None, None), [])
  const Top: Tree<Role> := Node(22, "top", Plain, [FeedbackCatchall])
  const PanelFeedback: Tree<Role> := Node(26, "panelFeedback", FeedbackPanel(Some(25), None), [])
  const TestPanel: Tree<Role> := Node(25, "panel", Plain, [PanelFeedback])
  const Bottom: Tree<Role> := Node(24, "bottom", Plain, [TestPanel])
  const ForwardLink: Tree<Role> := Node(28, "forward", Plain, [])
  const BackwardLink: Tree<Role> := Node(29, "backward", Plain, [])
  const Form: Tree<Role> := Node(21, "form", Plain, [Top, Bottom, ForwardLink, BackwardLink])
  const TestPage: Tree<Role> := Node(20, "", Plain, [Form])

  /** The `EmptyPanel("panel")` the forward link puts in the place of `panel`. */
  const EmptyPanel: Tree<Role> := Node(27, "panel", Plain, [])
  const BottomForward: Tree<Role> := Node(24, "bottom", Plain, [EmptyPanel])
  const FormForward: Tree<Role> := Node(21, "form", Plain, [Top, BottomForward, ForwardLink, BackwardLink])
  const PageForward: Tree<Role> := Node(20, "", Plain, [FormForward])

  /** What `TestPanel.onConfigure` reports each time the panel is rendered. */
  const PanelInfo: Message := Message(Some(25), Info, "info message")

  lemma TestPageNumbered()
    ensures Within(TestPage, 20, 30)
  {
    WithinLeaf(FeedbackCatchall);
    WithinNode(Top, [23, 24]);
    WithinLeaf(PanelFeedback);
    WithinNode(TestPanel, [26, 27]);
    WithinNode(Bottom, [25, 28]);
    WithinLeaf(ForwardLink);
    WithinLeaf(BackwardLink);
    WithinNode(Form, [22, 24, 28, 29, 30]);
    WithinNode(TestPage, [21, 30]);
  }

  lemma PageForwardNumbered()
    ensures Within(PageForward, 20, 30)
  {
    WithinLeaf(FeedbackCatchall);
    WithinNode(Top, [23, 24]);
    WithinLeaf(EmptyPanel);
    WithinNode(BottomForward, [27, 28]);
    WithinLeaf(ForwardLink);
    WithinLeaf(BackwardLink);
    WithinNode(FormForward, [22, 24, 28, 29, 30]);
    WithinNode(PageForward, [21, 30]);
  }

  /** The panel taken out is no longer part of the page. */
  lemma PageForwardUids()
    ensures Uids(PageForward) == {20, 21, 22, 23, 24, 27, 28, 29}
  {
    UidsOfChildren(Top.children, [{23}]);
    UidsOfChildren(BottomForward.children, [{27}]);
    UidsOfChildren(FormForward.children, [{22, 23}, {24, 27}, {28}, {29}]);
    UidsOfChildren(PageForward.children, [{21, 22, 23, 24, 27, 28, 29}]);
  }

  /** The forward link: `bottom.replace(new EmptyPanel("panel"))` succeeds and yields `PageForward`. */
  lemma Forward()
    ensures Find(TestPage, 24) == Some(Bottom)
    ensures ReplaceChild(Bottom, EmptyPanel) == Result.Success(BottomForward)
    ensures Swap(TestPage, 24, BottomForward) == PageForward
  {
    TestPageNumbered();
    FindAtPath(TestPage, [0, 1]);
    assert IndexOf(Bottom.children, "panel") == Some(0);
    assert Bottom.children[0 := EmptyPanel] == BottomForward.children;
    UidsOfChild(Form.children, 1);
    UniqueChild(TestPage.children, 0);
    SwapInChild(Form.children, 1, 24, BottomForward);
    assert Swap(Form, 24, BottomForward) == FormForward;
    UidsOfChild(TestPage.children, 0);
    SwapInChild(TestPage.children, 0, 24, BottomForward);
  }

  /** The backward link: `bottom.replace(panel)` succeeds and gives back the page of the start. */
  lemma Backward()
    ensures Find(PageForward, 24) == Some(BottomForward)
    ensures ReplaceChild(BottomForward, TestPanel) == Result.Success(Bottom)
    ensures Swap(PageForward, 24, Bottom) == TestPage
  {
    PageForwardNumbered();
    FindAtPath(PageForward, [0, 1]);
    assert IndexOf(BottomForward.children, "panel") == Some(0);
    assert BottomForward.children[0 := TestPanel] == Bottom.children;
    UidsOfChild(FormForward.children, 1);
    UniqueChild(PageForward.children, 0);
    SwapInChild(FormForward.children, 1, 24, Bottom);
    assert Swap(FormForward, 24, Bottom) == Form;
    UidsOfChild(PageForward.children, 0);
    SwapInChild(PageForward.children, 0, 24, Bottom);
  }

  /** The test panel fences itself. */
  lemma TestPageFences()
    ensures Fences(TestPage) == {25}
  {
    FencesOfChildren(TestPanel.children, [{25}]);
    FencesOfChildren(Bottom.children, [{25}]);
    FencesOfChildren(Top.children, [{}]);
    FencesOfChildren(Form.children, [{}, {25}, {}, {}]);
    FencesOfChildren(TestPage.children, [{25}]);
  }

  lemma TestPageView(msgs: seq<Message>)
    requires forall m :: m in msgs ==> m == PanelInfo
    ensures !AnyMessage(TestPage, msgs, 23)
    ensures AnyMessage(TestPage, msgs, 26) <==> msgs != []
  {
    TestPageNumbered();
    FindAtPath(TestPage, [0, 0, 0]);
    FindAtPath(TestPage, [0, 1, 0, 0]);
    TestPageFences();
    ScopeAtPath(TestPage, [0, 1, 0], {25}, 20);
    AnyMessageIff(TestPage, msgs, 23);
    AnyMessageIff(TestPage, msgs, 26);
    if msgs != [] {
      assert msgs[0] in msgs;
    }
  }

  /**
   * `backandforth`: the panel's info message is shown by its own fenced panel and never by the
   * catch-all, neither while the panel is out of the page nor after it is put back.
   */
  lemma BackAndForth()
    ensures !AnyMessage(TestPage, [PanelInfo], 23) && AnyMessage(TestPage, [PanelInfo], 26)
    ensures !AnyMessage(PageForward, [PanelInfo], 23)
    ensures !AnyMessage(TestPage, [PanelInfo, PanelInfo], 23)
    ensures AnyMessage(TestPage, [PanelInfo, PanelInfo], 26)
  {
    TestPageView([PanelInfo]);
    TestPageView([PanelInfo, PanelInfo]);
    PageForwardNumbered();
    FindAtPath(PageForward, [0, 0, 0]);
    PageForwardUids();
    UnattachedReporterUnseen(PageForward, None, PanelInfo);
    AnyMessageIff(PageForward, [PanelInfo], 23);
  }
}
