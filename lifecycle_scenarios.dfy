/**
 * The pages of the two lifecycle test classes, rendered step by step.
 *
 * `ComponentInitializationTest`: a `SubPage` holds `outerContainer` (with `innerComponent`)
 * and `refreshLink`; the page's `onInitialize` adds `onInitializeContainer` (with
 * `onInitializeComponent`) to `outerContainer`; its `onBeforeRender` adds
 * `onBeforeRenderContainer` (with `onBeforeRenderComponent`) to `onInitializeContainer` the
 * first time. The page's `pageInitializeCount` counts its own `onInitialize` calls.
 *
 * `OnPageInitializeTest`: a `SubPage` holds `label`; its `onPageInitialize` adds `link` to the
 * page and counts itself in `pageInitializeCount`.
 */
module LifecycleScenarios {
  import opened Wrappers
  import opened ComponentTree
  import opened Lifecycle

  // ---------------------------------------------------------------------------------------
  // ComponentInitializationTest: the components, by uid in order of creation.
  // ---------------------------------------------------------------------------------------

  const TestComponent := Comp("TestComponent")

  const InnerComponent: Tree<Comp> := Node(3, "innerComponent", TestComponent, [])
  const RefreshLink: Tree<Comp> := Node(4, "refreshLink", Comp("Link"), [])
  const OnInitializeComponent: Tree<Comp> := Node(6, "onInitializeComponent", TestComponent, [])
  const OnInitializeContainer: Tree<Comp> :=
    Node(5, "onInitializeContainer", TestComponent, [OnInitializeComponent])
  const OnBeforeRenderComponent: Tree<Comp> := Node(8, "onBeforeRenderComponent", TestComponent, [])
  const OnBeforeRenderContainer: Tree<Comp> :=
    Node(7, "onBeforeRenderContainer", TestComponent, [OnBeforeRenderComponent])

  /** The page as its constructors leave it. */
  const OuterBuilt: Tree<Comp> := Node(2, "outerContainer", TestComponent, [InnerComponent])
  const SubPageBuilt: Tree<Comp> := Node(1, "", Comp("SubPage"), [OuterBuilt, RefreshLink])

  /** After the page's `onInitialize`. */
  const OuterInitialized: Tree<Comp> :=
    Node(2, "outerContainer", TestComponent, [InnerComponent, OnInitializeContainer])
  const SubPageInitialized: Tree<Comp> := Node(1, "", Comp("SubPage"), [OuterInitialized, RefreshLink])

  /** After the page's `onBeforeRender`. */
  const OnInitializeContainerRendered: Tree<Comp> :=
    Node(5, "onInitializeContainer", TestComponent, [OnInitializeComponent, OnBeforeRenderContainer])
  const OuterRendered: Tree<Comp> :=
    Node(2, "outerContainer", TestComponent, [InnerComponent, OnInitializeContainerRendered])
  const SubPageRendered: Tree<Comp> := Node(1, "", Comp("SubPage"), [OuterRendered, RefreshLink])

  /** `SuperPage`'s overrides; every `TestComponent` calls the base `onInitialize`. */
  const SubPageHooks: PageHooks :=
    PageHooks(map[1 := Hook(true, [Append([0], OnInitializeContainer)])], BaseHook,
              [Append([0, 1], OnBeforeRenderContainer)])

  const Fresh: Page := Page(St(SubPageBuilt, {}, map[], []), false, 0, false)

  /** The order in which the listeners hear of the components. */
  const InitOrder: seq<nat> := [1, 2, 3, 5, 6, 4, 7, 8]

  // ---------------------------------------------------------------------------------------
  // Single visits, as the scenarios meet them.
  // ---------------------------------------------------------------------------------------

  /** The state after `onInitialize` of `u` ran and left the subtree `x` in place of it at `q`. */
  function Marked(s: St, q: Path, x: Tree<Comp>, u: nat): St
    requires ValidPath(s.tree, q)
  {
    St(Put(s.tree, q, x), s.initialized + {u}, s.calls[u := CallsOf(s, u) + 1], s.log + [u])
  }

  /** A visit of an initialized component changes nothing. */
  lemma VisitSkips(hooks: map<nat, Hook>, s: St, q: Path)
    requires ValidPath(s.tree, q) && At(s.tree, q).uid in s.initialized
    ensures Visit(hooks, s, q) == Result.Success(s)
  {
  }

  /** A visit of a component whose `onInitialize` is the base one only marks it. */
  lemma VisitMarks(hooks: map<nat, Hook>, s: St, q: Path)
    requires ValidPath(s.tree, q)
    requires At(s.tree, q).uid !in s.initialized && At(s.tree, q).uid !in hooks
    ensures Visit(hooks, s, q) == Result.Success(Mark(s, At(s.tree, q).uid))
  {
    PutAt(s.tree, q);
  }

  /** A visit of a component whose `onInitialize` calls the base one and adds `c` at `at`. */
  lemma VisitAppends(hooks: map<nat, Hook>, s: St, q: Path, at: Path, c: Tree<Comp>)
    requires ValidPath(s.tree, q) && ValidPath(At(s.tree, q), at)
    requires At(s.tree, q).uid !in s.initialized && HookOf(hooks, At(s.tree, q).uid) == Hook(true, [Append(at, c)])
    requires forall j :: 0 <= j < |At(At(s.tree, q), at).children| ==> At(At(s.tree, q), at).children[j].id != c.id
    ensures var n := At(At(s.tree, q), at);
            Visit(hooks, s, q) == Result.Success(Marked(s, q, Put(At(s.tree, q), at, n.(children := n.children + [c])),
                                                        At(s.tree, q).uid))
  {
    var n := At(At(s.tree, q), at);
    assert Add(n, c) == Result.Success(n.(children := n.children + [c]));
    assert ApplyAll(At(s.tree, q), [Append(at, c)]) == ApplyAll(Put(At(s.tree, q), at, n.(children := n.children + [c])), []);
  }

  /** One step of a pass whose visit and next worklist are known. */
  lemma Advance(hooks: map<nat, Hook>, s: St, wl: seq<Path>, s': St, wl': seq<Path>)
    requires WorkValid(s.tree, wl) && wl != []
    requires Visit(hooks, s, wl[0]) == Result.Success(s') && ValidPath(s'.tree, wl[0])
    requires Next(s'.tree, wl) == wl'
    ensures WorkValid(s'.tree, wl') && Run(hooks, s, wl) == Run(hooks, s', wl')
  {
    RunStep(hooks, s, wl);
  }

  /** The worklist after visiting the component at `wl[0]`: its children's paths, then the rest. */
  lemma KidsOf(t: Tree<Comp>, wl: seq<Path>, kids: seq<Path>, rest: seq<Path>)
    requires wl != [] && ValidPath(t, wl[0]) && |At(t, wl[0]).children| == |kids|
    requires forall i :: 0 <= i < |kids| ==> kids[i] == wl[0] + [i]
    requires rest == wl[1..]
    ensures Next(t, wl) == kids + rest
  {
  }

  /** The components' `onInitialize` overrides of `SubPage`. */
  const H := SubPageHooks.onInitialize

  // The first pass, visit by visit: the state after each visit, and the worklist left.

  const A1 := Mark(Fresh.st.(tree := SubPageInitialized), 1)
  const A2 := Mark(A1, 2)
  const A3 := Mark(A2, 3)
  const A4 := Mark(A3, 5)
  const A5 := Mark(A4, 6)
  const A6 := Mark(A5, 4)

  /** The page's `onInitialize` adds `onInitializeContainer` to `outerContainer`. */
  lemma Visit1()
    ensures Visit(H, Fresh.st, []) == Result.Success(A1)
  {
    assert At(SubPageBuilt, [0]) == OuterBuilt;
    VisitAppends(H, Fresh.st, [], [0], OnInitializeContainer);
    assert OuterBuilt.(children := OuterBuilt.children + [OnInitializeContainer]) == OuterInitialized by {
      assert OuterBuilt.children + [OnInitializeContainer] == OuterInitialized.children;
    }
    assert Put(SubPageBuilt, [0], OuterInitialized) == SubPageInitialized by {
      assert SubPageBuilt.children[0 := OuterInitialized] == SubPageInitialized.children;
    }
  }

  lemma FirstPass1()
    ensures WorkValid(SubPageInitialized, [[0], [1]])
    ensures Run(H, Fresh.st, [[]]) == Run(H, A1, [[0], [1]])
  {
    assert WorkValid(Fresh.st.tree, [[]]);
    Visit1();
    KidsOf(SubPageInitialized, [[]], [[0], [1]], []);
    Advance(H, Fresh.st, [[]], A1, [[0], [1]]);
  }

  lemma FirstPass2()
    requires WorkValid(SubPageInitialized, [[0], [1]])
    ensures WorkValid(SubPageInitialized, [[0, 0], [0, 1], [1]])
    ensures Run(H, A1, [[0], [1]]) == Run(H, A2, [[0, 0], [0, 1], [1]])
  {
    assert At(SubPageInitialized, [0]) == OuterInitialized;
    VisitMarks(H, A1, [0]);
    KidsOf(SubPageInitialized, [[0], [1]], [[0, 0], [0, 1]], [[1]]);
    Advance(H, A1, [[0], [1]], A2, [[0, 0], [0, 1], [1]]);
  }

  lemma FirstPass3()
    requires WorkValid(SubPageInitialized, [[0, 0], [0, 1], [1]])
    ensures WorkValid(SubPageInitialized, [[0, 1], [1]])
    ensures Run(H, A2, [[0, 0], [0, 1], [1]]) == Run(H, A3, [[0, 1], [1]])
  {
    assert At(SubPageInitialized, [0, 0]) == InnerComponent;
    VisitMarks(H, A2, [0, 0]);
    KidsOf(SubPageInitialized, [[0, 0], [0, 1], [1]], [], [[0, 1], [1]]);
    Advance(H, A2, [[0, 0], [0, 1], [1]], A3, [[0, 1], [1]]);
  }

  lemma FirstPass4()
    requires WorkValid(SubPageInitialized, [[0, 1], [1]])
    ensures WorkValid(SubPageInitialized, [[0, 1, 0], [1]])
    ensures Run(H, A3, [[0, 1], [1]]) == Run(H, A4, [[0, 1, 0], [1]])
  {
    assert At(SubPageInitialized, [0, 1]) == OnInitializeContainer;
    VisitMarks(H, A3, [0, 1]);
    KidsOf(SubPageInitialized, [[0, 1], [1]], [[0, 1, 0]], [[1]]);
    Advance(H, A3, [[0, 1], [1]], A4, [[0, 1, 0], [1]]);
  }

  lemma FirstPass5()
    requires WorkValid(SubPageInitialized, [[0, 1, 0], [1]])
    ensures WorkValid(SubPageInitialized, [[1]])
    ensures Run(H, A4, [[0, 1, 0], [1]]) == Run(H, A5, [[1]])
  {
    assert At(SubPageInitialized, [0, 1, 0]) == OnInitializeComponent;
    VisitMarks(H, A4, [0, 1, 0]);
    KidsOf(SubPageInitialized, [[0, 1, 0], [1]], [], [[1]]);
    Advance(H, A4, [[0, 1, 0], [1]], A5, [[1]]);
  }

  lemma FirstPass6()
    requires WorkValid(SubPageInitialized, [[1]])
    ensures WorkValid(SubPageInitialized, [])
    ensures Run(H, A5, [[1]]) == Run(H, A6, [])
  {
    assert At(SubPageInitialized, [1]) == RefreshLink;
    VisitMarks(H, A5, [1]);
    KidsOf(SubPageInitialized, [[1]], [], []);
    Advance(H, A5, [[1]], A6, []);
  }

  /** The first pass initializes the page, then its components in pre-order, including the two
   * the page's `onInitialize` added. */
  lemma FirstPass()
    ensures Pass(H, Fresh.st) == Result.Success(A6)
  {
    FirstPassRuns();
    assert Run(H, A6, []) == Result.Success(A6);
  }

  lemma FirstPassLog()
    ensures A6.tree == SubPageInitialized && A6.log == [1, 2, 3, 5, 6, 4]
  {
  }

  lemma FirstPassRuns()
    ensures Run(H, Fresh.st, [[]]) == Run(H, A6, [])
  {
    FirstPass1();
    FirstPass2();
    FirstPass3();
    FirstPass4();
    FirstPass5();
    FirstPass6();
  }

  // The pre-render checkpoint and the second pass.

  const B0 := A6.(tree := SubPageRendered)
  const B1 := Mark(B0, 7)
  const B2 := Mark(B1, 8)

  /** The page's `onBeforeRender` adds `onBeforeRenderContainer` to `onInitializeContainer`. */
  lemma PreRendered()
    requires A6.tree == SubPageInitialized
    ensures ApplyAll(SubPageInitialized, SubPageHooks.onBeforeRender) == Result.Success(SubPageRendered)
  {
    assert At(SubPageInitialized, [0, 1]) == OnInitializeContainer;
    var n := OnInitializeContainer.(children := OnInitializeContainer.children + [OnBeforeRenderContainer]);
    assert n == OnInitializeContainerRendered by {
      assert OnInitializeContainer.children + [OnBeforeRenderContainer] == OnInitializeContainerRendered.children;
    }
    assert Add(OnInitializeContainer, OnBeforeRenderContainer) == Result.Success(n);
    assert Put(SubPageInitialized, [0, 1], n) == SubPageRendered by {
      assert OuterInitialized.children[1 := n] == OuterRendered.children;
      assert Put(OuterInitialized, [1], n) == OuterRendered;
      assert SubPageInitialized.children[0 := OuterRendered] == SubPageRendered.children;
    }
  }

  lemma SecondPass1()
    requires WorkValid(SubPageRendered, [[]])
    ensures WorkValid(SubPageRendered, [[0], [1]])
    ensures Run(H, B0, [[]]) == Run(H, B0, [[0], [1]])
  {
    assert At(SubPageRendered, []) == SubPageRendered;
    VisitSkips(H, B0, []);
    KidsOf(SubPageRendered, [[]], [[0], [1]], []);
    Advance(H, B0, [[]], B0, [[0], [1]]);
  }

  lemma SecondPass2()
    requires WorkValid(SubPageRendered, [[0], [1]])
    ensures WorkValid(SubPageRendered, [[0, 0], [0, 1], [1]])
    ensures Run(H, B0, [[0], [1]]) == Run(H, B0, [[0, 0], [0, 1], [1]])
  {
    assert At(SubPageRendered, [0]) == OuterRendered;
    VisitSkips(H, B0, [0]);
    KidsOf(SubPageRendered, [[0], [1]], [[0, 0], [0, 1]], [[1]]);
    Advance(H, B0, [[0], [1]], B0, [[0, 0], [0, 1], [1]]);
  }

  lemma SecondPass3()
    requires WorkValid(SubPageRendered, [[0, 0], [0, 1], [1]])
    ensures WorkValid(SubPageRendered, [[0, 1], [1]])
    ensures Run(H, B0, [[0, 0], [0, 1], [1]]) == Run(H, B0, [[0, 1], [1]])
  {
    assert At(SubPageRendered, [0, 0]) == InnerComponent;
    VisitSkips(H, B0, [0, 0]);
    KidsOf(SubPageRendered, [[0, 0], [0, 1], [1]], [], [[0, 1], [1]]);
    Advance(H, B0, [[0, 0], [0, 1], [1]], B0, [[0, 1], [1]]);
  }

  lemma SecondPass4()
    requires WorkValid(SubPageRendered, [[0, 1], [1]])
    ensures WorkValid(SubPageRendered, [[0, 1, 0], [0, 1, 1], [1]])
    ensures Run(H, B0, [[0, 1], [1]]) == Run(H, B0, [[0, 1, 0], [0, 1, 1], [1]])
  {
    assert At(SubPageRendered, [0, 1]) == OnInitializeContainerRendered;
    VisitSkips(H, B0, [0, 1]);
    KidsOf(SubPageRendered, [[0, 1], [1]], [[0, 1, 0], [0, 1, 1]], [[1]]);
    Advance(H, B0, [[0, 1], [1]], B0, [[0, 1, 0], [0, 1, 1], [1]]);
  }

  lemma SecondPass5()
    requires WorkValid(SubPageRendered, [[0, 1, 0], [0, 1, 1], [1]])
    ensures WorkValid(SubPageRendered, [[0, 1, 1], [1]])
    ensures Run(H, B0, [[0, 1, 0], [0, 1, 1], [1]]) == Run(H, B0, [[0, 1, 1], [1]])
  {
    assert At(SubPageRendered, [0, 1, 0]) == OnInitializeComponent;
    VisitSkips(H, B0, [0, 1, 0]);
    KidsOf(SubPageRendered, [[0, 1, 0], [0, 1, 1], [1]], [], [[0, 1, 1], [1]]);
    Advance(H, B0, [[0, 1, 0], [0, 1, 1], [1]], B0, [[0, 1, 1], [1]]);
  }

  lemma SecondPass6()
    requires WorkValid(SubPageRendered, [[0, 1, 1], [1]])
    ensures WorkValid(SubPageRendered, [[0, 1, 1, 0], [1]])
    ensures Run(H, B0, [[0, 1, 1], [1]]) == Run(H, B1, [[0, 1, 1, 0], [1]])
  {
    assert At(SubPageRendered, [0, 1, 1]) == OnBeforeRenderContainer;
    VisitMarks(H, B0, [0, 1, 1]);
    KidsOf(SubPageRendered, [[0, 1, 1], [1]], [[0, 1, 1, 0]], [[1]]);
    Advance(H, B0, [[0, 1, 1], [1]], B1, [[0, 1, 1, 0], [1]]);
  }

  lemma SecondPass7()
    requires WorkValid(SubPageRendered, [[0, 1, 1, 0], [1]])
    ensures WorkValid(SubPageRendered, [[1]])
    ensures Run(H, B1, [[0, 1, 1, 0], [1]]) == Run(H, B2, [[1]])
  {
    assert At(SubPageRendered, [0, 1, 1, 0]) == OnBeforeRenderComponent;
    VisitMarks(H, B1, [0, 1, 1, 0]);
    KidsOf(SubPageRendered, [[0, 1, 1, 0], [1]], [], [[1]]);
    Advance(H, B1, [[0, 1, 1, 0], [1]], B2, [[1]]);
  }

  lemma SecondPass8()
    requires WorkValid(SubPageRendered, [[1]])
    ensures WorkValid(SubPageRendered, [])
    ensures Run(H, B2, [[1]]) == Run(H, B2, [])
  {
    assert At(SubPageRendered, [1]) == RefreshLink;
    VisitSkips(H, B2, [1]);
    KidsOf(SubPageRendered, [[1]], [], []);
    Advance(H, B2, [[1]], B2, []);
  }

  /** The second pass skips what is initialized and initializes the two components added before
   * rendering, container first. */
  lemma SecondPass()
    ensures Pass(H, B0) == Result.Success(B2)
  {
    SecondPassRuns();
    assert Run(H, B2, []) == Result.Success(B2);
  }

  lemma SecondPassLog()
    ensures B2.tree == SubPageRendered && B2.log == InitOrder
  {
  }

  lemma SecondPassRuns()
    ensures Run(H, B0, [[]]) == Run(H, B2, [])
  {
    assert WorkValid(SubPageRendered, [[]]);
    SecondPass1();
    SecondPass2();
    SecondPass3();
    SecondPass4();
    SecondPass5();
    SecondPass6();
    SecondPass7();
    SecondPass8();
  }

  // ---------------------------------------------------------------------------------------
  // ComponentInitializationTest: the render and the tests.
  // ---------------------------------------------------------------------------------------

  /** The first render of a `SubPage`. */
  const Rendered: Page := Page(B2, true, 1, true)

  lemma SubPageRenders()
    ensures RenderPage(SubPageHooks, Fresh) == Result.Success(Rendered)
  {
    assert FirstUse(SubPageHooks, Fresh) == Result.Success(Page(Fresh.st, true, 1, false));
    FirstPass();
    FirstPassLog();
    PreRendered();
    assert PreRender(SubPageHooks, Page(A6, true, 1, false)) == Result.Success(Page(B0, true, 1, true));
    SecondPass();
  }

  /** Every component's `onInitialize` ran exactly once, and the listeners heard of all eight. */
  lemma SubPageCounts()
    ensures Rendered.st.log == InitOrder
    ensures forall u :: u in InitOrder ==> u in Rendered.st.initialized && CallsOf(Rendered.st, u) == 1
  {
    SubPageRenders();
    SecondPassLog();
    RenderCounted(SubPageHooks, Fresh);
  }

  /** A `SubPage` constructed, with `n` initialization listeners registered. */
  method NewSubPage(n: nat) returns (page: PageRuntime)
    ensures fresh(page)
    ensures page.hooks == SubPageHooks && page.State() == Fresh
    ensures page.announced == seq(n, _ => [])
  {
    page := new PageRuntime(SubPageBuilt, SubPageHooks);
    for i := 0 to n
      invariant fresh(page)
      invariant page.hooks == SubPageHooks && page.State() == Fresh
      invariant page.announced == seq(i, _ => [])
    {
      page.AddListener();
    }
  }

  /** testPageInitialization: the page's own `onInitialize` ran once. */
  method PageInitialization() returns (pageInitializeCount: nat)
    ensures pageInitializeCount == 1
  {
    var page := NewSubPage(0);
    var r := page.Render();
    SubPageRenders();
    SubPageCounts();
    pageInitializeCount := if 1 in page.calls then page.calls[1] else 0;
  }

  /** testInitListeners and testInitializationOrder: both listeners heard of every component, in
   * the order page, outerContainer, innerComponent, onInitializeContainer,
   * onInitializeComponent, refreshLink, onBeforeRenderContainer, onBeforeRenderComponent. */
  method InitListeners() returns (listener1: seq<nat>, listener2: seq<nat>)
    ensures listener1 == InitOrder && listener2 == InitOrder
  {
    var page := NewSubPage(2);
    var r := page.Render();
    SubPageRenders();
    SubPageCounts();
    assert page.log[0..] == InitOrder;
    listener1 := page.announced[0];
    listener2 := page.announced[1];
  }

  /** The `onInitialize` counts of the eight components, in `InitOrder`. */
  method Counts(page: PageRuntime) returns (counts: seq<nat>)
    ensures |counts| == |InitOrder|
    ensures forall i :: 0 <= i < |counts| ==> counts[i] == CallsOf(page.State().st, InitOrder[i])
  {
    counts := [];
    for i := 0 to |InitOrder|
      invariant |counts| == i
      invariant forall j :: 0 <= j < i ==> counts[j] == CallsOf(page.State().st, InitOrder[j])
    {
      var u := InitOrder[i];
      counts := counts + [if u in page.calls then page.calls[u] else 0];
    }
  }

  /** A `SubPage` after its first render. */
  method RenderedSubPage() returns (page: PageRuntime)
    ensures fresh(page)
    ensures page.hooks == SubPageHooks && page.State() == Rendered
  {
    page := NewSubPage(0);
    var r := page.Render();
    SubPageRenders();
  }

  /** testInitializeOnlyOnce: every count is one after the first render. */
  method InitializeOnlyOnce() returns (counts: seq<nat>)
    ensures counts == seq(8, _ => 1)
  {
    var page := RenderedSubPage();
    SubPageCounts();
    counts := Counts(page);
  }

  /** testDontInitializeAgainAfterRedraw: clicking `refreshLink` renders the page again, and every
   * count stays one. */
  method DontInitializeAgainAfterRedraw() returns (counts: seq<nat>)
    ensures counts == seq(8, _ => 1)
  {
    var page := RenderedSubPage();
    SubPageRenders();
    RerenderIdle(SubPageHooks, Fresh);
    var r := page.Render();
    assert page.State() == Rendered;
    SubPageCounts();
    counts := Counts(page);
  }

  // BadPage: the page's `onInitialize` also replaces `innerComponent` with an
  // `InvalidComponent`, whose `onInitialize` skips the base implementation.

  const InvalidComponent: Tree<Comp> := Node(9, "innerComponent", Comp("InvalidComponent"), [])
  const BadPageBuilt: Tree<Comp> := Node(1, "", Comp("BadPage"), [OuterBuilt, RefreshLink])
  const OuterBad: Tree<Comp> :=
    Node(2, "outerContainer", TestComponent, [InvalidComponent, OnInitializeContainer])
  const BadPageInitialized: Tree<Comp> := Node(1, "", Comp("BadPage"), [OuterBad, RefreshLink])

  const BadPageHooks: PageHooks :=
    PageHooks(map[1 := Hook(true, [Append([0], OnInitializeContainer), ReplaceWith([0, 0], InvalidComponent)]),
                  9 := Hook(false, [])],
              BaseHook, [Append([0, 1], OnBeforeRenderContainer)])

  const BadFresh: Page := Page(St(BadPageBuilt, {}, map[], []), false, 0, false)
  const C1 := Mark(BadFresh.st.(tree := BadPageInitialized), 1)
  const C2 := Mark(C1, 2)

  /** The page's hook adds `onInitializeContainer`, then replaces `innerComponent`. */
  lemma BadVisit1()
    ensures Visit(BadPageHooks.onInitialize, BadFresh.st, []) == Result.Success(C1)
  {
    var mid := Node(1, "", Comp("BadPage"), [OuterInitialized, RefreshLink]);
    assert ApplyAction(BadPageBuilt, Append([0], OnInitializeContainer)) == Result.Success(mid) by {
      assert Add(OuterBuilt, OnInitializeContainer) == Result.Success(OuterInitialized) by {
        assert OuterBuilt.children + [OnInitializeContainer] == OuterInitialized.children;
      }
      assert BadPageBuilt.children[0 := OuterInitialized] == mid.children;
    }
    assert ApplyAction(mid, ReplaceWith([0, 0], InvalidComponent)) == Result.Success(BadPageInitialized) by {
      assert At(mid, [0, 0]) == InnerComponent;
      assert OuterInitialized.children[0 := InvalidComponent] == OuterBad.children;
      assert Put(OuterInitialized, [0], InvalidComponent) == OuterBad;
      assert mid.children[0 := OuterBad] == BadPageInitialized.children;
    }
    assert ApplyAll(BadPageBuilt, BadPageHooks.onInitialize[1].actions) == Result.Success(BadPageInitialized);
    VisitRuns(BadPageHooks.onInitialize, BadFresh.st, []);
  }

  lemma BadPass1()
    ensures WorkValid(BadPageInitialized, [[0], [1]])
    ensures Run(BadPageHooks.onInitialize, BadFresh.st, [[]]) == Run(BadPageHooks.onInitialize, C1, [[0], [1]])
  {
    assert WorkValid(BadFresh.st.tree, [[]]);
    BadVisit1();
    KidsOf(BadPageInitialized, [[]], [[0], [1]], []);
    Advance(BadPageHooks.onInitialize, BadFresh.st, [[]], C1, [[0], [1]]);
  }

  lemma BadPass2()
    requires WorkValid(BadPageInitialized, [[0], [1]])
    ensures WorkValid(BadPageInitialized, [[0, 0], [0, 1], [1]])
    ensures Run(BadPageHooks.onInitialize, C1, [[0], [1]])
            == Run(BadPageHooks.onInitialize, C2, [[0, 0], [0, 1], [1]])
  {
    assert At(BadPageInitialized, [0]) == OuterBad;
    VisitMarks(BadPageHooks.onInitialize, C1, [0]);
    KidsOf(BadPageInitialized, [[0], [1]], [[0, 0], [0, 1]], [[1]]);
    Advance(BadPageHooks.onInitialize, C1, [[0], [1]], C2, [[0, 0], [0, 1], [1]]);
  }

  /** The `InvalidComponent` skips the base `onInitialize`: the pass fails there. */
  lemma BadPass3()
    requires WorkValid(BadPageInitialized, [[0, 0], [0, 1], [1]])
    ensures Run(BadPageHooks.onInitialize, C2, [[0, 0], [0, 1], [1]])
            == Failure(MissingSuperCall("onInitialize", "InvalidComponent"))
  {
    assert At(BadPageInitialized, [0, 0]) == InvalidComponent;
    assert Visit(BadPageHooks.onInitialize, C2, [0, 0]) == Failure(MissingSuperCall("onInitialize", "InvalidComponent"));
    RunStep(BadPageHooks.onInitialize, C2, [[0, 0], [0, 1], [1]]);
  }

  lemma BadPageFails()
    ensures RenderPage(BadPageHooks, BadFresh) == Failure(MissingSuperCall("onInitialize", "InvalidComponent"))
  {
    assert FirstUse(BadPageHooks, BadFresh) == Result.Success(Page(BadFresh.st, true, 1, false));
    BadPass1();
    BadPass2();
    BadPass3();
  }

  /** testCatchBadInitializeMethod: the render throws, and the message names the hook and the
   * class of the component. */
  method CatchBadInitializeMethod() returns (r: Result<(), InitError>)
    ensures r.Failure? && r.error.MissingSuperCall?
    ensures Contains(SuperCallMessage(r.error.hook, r.error.kind), "onInitialize")
    ensures Contains(SuperCallMessage(r.error.hook, r.error.kind), "InvalidComponent")
  {
    var page := new PageRuntime(BadPageBuilt, BadPageHooks);
    r := page.Render();
    BadPageFails();
    SuperCallMessageNames("onInitialize", "InvalidComponent");
  }

  // ---------------------------------------------------------------------------------------
  // OnPageInitializeTest.
  // ---------------------------------------------------------------------------------------

  const LabelComponent: Tree<Comp> := Node(2, "label", Comp("Label"), [])
  const LinkComponent: Tree<Comp> := Node(3, "link", Comp("Link"), [])
  const LabelPageBuilt: Tree<Comp> := Node(1, "", Comp("SubPage"), [LabelComponent])
  const LabelPageWithLink: Tree<Comp> := Node(1, "", Comp("SubPage"), [LabelComponent, LinkComponent])

  /** `SuperPage.onPageInitialize` calls the base implementation and adds the link. */
  function LabelPageHooks(callsSuper: bool): PageHooks
  {
    PageHooks(map[], Hook(callsSuper, [Append([], LinkComponent)]), [])
  }

  const LabelFresh: Page := Page(St(LabelPageBuilt, {}, map[], []), false, 0, false)
  const D0 := LabelFresh.st.(tree := LabelPageWithLink)
  const D1 := Mark(D0, 1)
  const D2 := Mark(D1, 2)
  const D3 := Mark(D2, 3)

  lemma LabelPass1()
    ensures WorkValid(LabelPageWithLink, [[0], [1]])
    ensures Run(map[], D0, [[]]) == Run(map[], D1, [[0], [1]])
  {
    assert WorkValid(LabelPageWithLink, [[]]);
    VisitMarks(map[], D0, []);
    KidsOf(LabelPageWithLink, [[]], [[0], [1]], []);
    Advance(map[], D0, [[]], D1, [[0], [1]]);
  }

  lemma LabelPass2()
    requires WorkValid(LabelPageWithLink, [[0], [1]])
    ensures WorkValid(LabelPageWithLink, [[1]])
    ensures Run(map[], D1, [[0], [1]]) == Run(map[], D2, [[1]])
  {
    assert At(LabelPageWithLink, [0]) == LabelComponent;
    VisitMarks(map[], D1, [0]);
    KidsOf(LabelPageWithLink, [[0], [1]], [], [[1]]);
    Advance(map[], D1, [[0], [1]], D2, [[1]]);
  }

  lemma LabelPass3()
    requires WorkValid(LabelPageWithLink, [[1]])
    ensures Run(map[], D2, [[1]]) == Result.Success(D3)
  {
    assert At(LabelPageWithLink, [1]) == LinkComponent;
    VisitMarks(map[], D2, [1]);
    KidsOf(LabelPageWithLink, [[1]], [], []);
    Advance(map[], D2, [[1]], D3, []);
  }

  lemma LabelPagePass()
    ensures Pass(map[], D0) == Result.Success(D3)
  {
    LabelPass1();
    LabelPass2();
    LabelPass3();
  }

  /** The first render: `onPageInitialize` adds the link and runs once, then every component is
   * initialized. */
  lemma LabelPageRenders()
    ensures RenderPage(LabelPageHooks(true), LabelFresh) == Result.Success(Page(D3, true, 1, true))
  {
    assert Add(LabelPageBuilt, LinkComponent) == Result.Success(LabelPageWithLink) by {
      assert LabelPageBuilt.children + [LinkComponent] == LabelPageWithLink.children;
    }
    assert FirstUse(LabelPageHooks(true), LabelFresh) == Result.Success(Page(D0, true, 1, false));
    LabelPagePass();
    var p3 := Page(D3, true, 1, true);
    assert PreRender(LabelPageHooks(true), Page(D3, true, 1, false)) == Result.Success(p3);
    PassIdle(map[], D3);
  }

  /** testPageInitializeWorks and testPageInitializeIsCalledOnlyBeforeFirstRender: the count is
   * one after the first render and still one after clicking the link the hook added. */
  method PageInitializeOnlyBeforeFirstRender() returns (first: nat, second: nat, link: string)
    ensures first == 1 && second == 1 && link == "link"
  {
    var page := new PageRuntime(LabelPageBuilt, LabelPageHooks(true));
    var r := page.Render();
    LabelPageRenders();
    first := page.pageInitializeCount;
    link := page.tree.children[1].id;
    RerenderIdle(LabelPageHooks(true), LabelFresh);
    r := page.Render();
    second := page.pageInitializeCount;
  }

  /** testMissingSuperCallIsCaught: `BadInitializePage` overrides `onPageInitialize` without the
   * super call, and the render throws naming the hook and the page class. */
  method MissingSuperCallIsCaught() returns (r: Result<(), InitError>)
    ensures r == Failure(MissingSuperCall("onPageInitialize", "BadInitializePage"))
  {
    var built := Node(1, "", Comp("BadInitializePage"), [LabelComponent]);
    var page := new PageRuntime(built, PageHooks(map[], Hook(false, []), []));
    r := page.Render();
  }
}
