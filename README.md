# Wicket component-tree runtime, modelled in Dafny

This project models the core of Wicket's component-tree runtime in Dafny and proves properties of that model. The parts are:

- **The tree and its visitor** (`tree.dfy`, module `ComponentTree`).
  - Containers hold ordered children keyed by wicket id. Each component has a uid, standing for Java object identity.
  - The operations are `add`, `remove`, `replace`, `replaceWith` and `autoAdd`.
  - `visitChildren` runs a pre-order walk with three visitor answers: continue, continue without going deeper, or stop with a value.
- **`AutoFormComponentLabelResolver`** (`label_resolver.dfy`). This covers:
  - `resolve`: which form component a `<wicket:label>` belongs to, and the auto-added `FormLabel`;
  - `findRelatedComponent`: the outward search from the container to the page, which skips the subtree it already searched;
  - `FormLabel.onComponentTagBody`: label-text priority and write-back to the label model.
- **`CheckBoxTrigger`** (`checkbox_trigger.dfy`): a behavior that binds once, the default snippet getters, and the variable map `renderHead` fills.
- **Component initialization** (`lifecycle.dfy`, `lifecycle_scenarios.dfy`).
  - `onInitialize` runs once per component, in a worklist pass. With hooks that do not change the tree, the pass is proved to follow pre-order. Children that a hook adds are initialized later in the same pass.
  - `onPageInitialize` runs on first use only. `onBeforeRender` is reached once the page is initialized, and what it adds is initialized by a second pass.
  - A hook that skips its super call fails with an `IllegalStateException`.
  - Initialization listeners are told of every component, in order.
  - `PageRuntime` is the imperative page. Each of its methods is proved equal to the functional specification.
  - The pages of `ComponentInitializationTest` and `OnPageInitializeTest` are rendered step by step.
- **Fenced feedback** (`feedback.dfy`, `feedback_scenarios.dfy`, `feedback_replacing.dfy`).
  - A message reported by a component belongs to the nearest marked fence on its ancestor chain, or to the page when there is none.
  - A `FencedFeedbackPanel` shows the messages of its fence's scope; a catch-all panel shows the page's scope and session messages.
  - A level filter narrows only its own panel.
  - The fences are recomputed from the panels currently in the page, so `remove` and `replace` take effect immediately.
  - The trees of `FencedFeedbackPanelTest` and `FencedFeedbackPanelReplacingTest` are concrete constants.
- **The behavior exception cascade** (`behavior_cascade.dfy`). When a render fails, every behavior's `onException` is called in attachment order. The last restart wins; with no restart the failure is wrapped.
- **Nested-form submission** (`nested_forms.dfy`). The form that is processed is the outermost ancestor form that wants to be submitted with a nested form, or else the submitting form. All forms in its subtree are submitted, nested forms first.

Each test method of the modelled test classes corresponds to a Dafny method or lemma, named after it without the `test` prefix. It runs the scenario on the model, and its contract states what the test asserts. A few tests are split over several members:

- `fencing` is `FencingContainerMessage`, `FencingFormMessage`, `FencingExternalMessage` and `FencingSessionMessage`;
- `filtering` is `FilteringHoldsBackInfo` and `FilteringLetsErrorThrough`;
- `moving` is `MovingOnePanelLeft` and `MovingNoPanelLeft`; its first page is the one of `FencingContainerMessage`, and `MovingOnPage` drives its last two pages through the page object.

## Model

| member | source | states |
|---|---|---|
| ComponentTree.Add | wicket/src/test/java/org/apache/wicket/ComponentInitializationTest.java:52-54 | adding succeeds exactly when no child already has the id, and then appends the child after the existing ones; otherwise it fails with a duplicate-id error |
| ComponentTree.AddKeepsDistinct | wicket-core/src/test/java/org/apache/wicket/markup/html/panel/FencedFeedbackPanelTest.java:206-212 | a successful add keeps the children's ids distinct, and looking the id up gives the new child |
| ComponentTree.RemoveAfterAdd | wicket-core/src/test/java/org/apache/wicket/markup/html/panel/FencedFeedbackPanelTest.java:155 | removing the child that was just added gives back the container as it was |
| ComponentTree.RemoveChildDistinct | wicket-core/src/test/java/org/apache/wicket/markup/html/panel/FencedFeedbackPanelTest.java:167-168 | removing by id leaves no child with that id and keeps the ids distinct |
| ComponentTree.ReplaceChild | wicket-core/src/test/java/org/apache/wicket/markup/html/panel/fencedfeedback/FencedFeedbackPanelReplacingTest.java:47 | `replace` succeeds exactly when some child has the replacement's id; otherwise it fails with a no-such-child error |
| ComponentTree.ReplaceKeepsPosition | wicket-core/src/test/java/org/apache/wicket/markup/html/panel/fencedfeedback/FencedFeedbackPanelReplacingTest.java:41-54 | after `replace`, exactly one child has that id: the replacement, at the old position; every other child is unchanged |
| ComponentTree.ReplaceBack | wicket-core/src/test/java/org/apache/wicket/markup/html/panel/fencedfeedback/FencedFeedbackPanelReplacingTest.java:47-54 | replacing a child and then replacing the replacement with the original restores the container |
| ComponentTree.SwapBack | wicket-core/src/test/java/org/apache/wicket/markup/html/panel/FencedFeedbackPanelTest.java:255-268 | `replaceWith` forward and then back restores the page, as long as the stand-in is not already part of it |
| ComponentTree.DetachRemoves | wicket-core/src/test/java/org/apache/wicket/markup/html/panel/FencedFeedbackPanelTest.java:155 | a component that has been removed is no longer part of the page, and no other component has been added |
| ComponentTree.AutoAdd | wicket/src/main/java/org/apache/wicket/markup/html/form/AutoFormComponentLabelResolver.java:217-218 | `autoAdd` puts the new child last and leaves the container itself unchanged |
| ComponentTree.AutoAddDistinct | wicket/src/main/java/org/apache/wicket/markup/html/form/AutoFormComponentLabelResolver.java:217-218 | after `autoAdd` the new child is the only child with its id, and the ids stay distinct |
| ComponentTree.IndexOf | wicket/src/main/java/org/apache/wicket/markup/html/form/AutoFormComponentLabelResolver.java:229 | `get(id)` finds the first child with the id; when it finds none, no child has that id |
| ComponentTree.VisitFindsFirst | wicket/src/main/java/org/apache/wicket/markup/html/form/AutoFormComponentLabelResolver.java:240-256 | suppose the visitor stops only on components it accepts and prunes only below components it rejects; then `visitChildren` returns the first accepted component of the pruned pre-order |
| LabelResolver.SearchRoundIsFirstMatch | wicket/src/main/java/org/apache/wicket/markup/html/form/AutoFormComponentLabelResolver.java:240-256 | one round returns the first component in pre-order that has the id, skipping the container searched before and everything below it |
| LabelResolver.SearchRoundMatches | wicket/src/main/java/org/apache/wicket/markup/html/form/AutoFormComponentLabelResolver.java:245-253 | a round returns only a component that has the id and is not the container searched before |
| LabelResolver.SearchOutwardMatches | wicket/src/main/java/org/apache/wicket/markup/html/form/AutoFormComponentLabelResolver.java:238-268 | whatever the outward search returns has the id |
| LabelResolver.FindRelatedComponent | wicket/src/main/java/org/apache/wicket/markup/html/form/AutoFormComponentLabelResolver.java:225-269 | the while loop returns the same component as the recursive search. What it returns has the id. It takes at most depth+1 rounds, and exactly depth+1 when it finds nothing |
| LabelResolver.AutoLabelAbove | wicket/src/main/java/org/apache/wicket/markup/html/form/AutoFormComponentLabelResolver.java:202 | `findParent(AutoLabel.class)` returns the nearest proper ancestor that is an AutoLabel; none of the ancestors in between is one; with no result, no ancestor is one |
| LabelResolver.ChooseFormComponentPriority | wicket/src/main/java/org/apache/wicket/markup/html/form/AutoFormComponentLabelResolver.java:184-213 | the `for` target wins if it is a form component. Next comes the container's own AutoLabel form component. Otherwise the nearest AutoLabel above decides, even when it has no form component. The choice fails exactly when none of the three yields one |
| LabelResolver.ChosenForTargetCarriesId | wicket/src/main/java/org/apache/wicket/markup/html/form/AutoFormComponentLabelResolver.java:184-191 | a component found through `for` has the `for` id |
| LabelResolver.Decimal | wicket/src/main/java/org/apache/wicket/markup/html/form/AutoFormComponentLabelResolver.java:217 | the auto index is written as decimal digits with no leading zero |
| LabelResolver.DecimalRoundTrip | wicket/src/main/java/org/apache/wicket/markup/html/form/AutoFormComponentLabelResolver.java:217 | reading the digits back gives the index |
| LabelResolver.LabelIdsDistinct | wicket/src/main/java/org/apache/wicket/markup/html/form/AutoFormComponentLabelResolver.java:217 | distinct auto indexes give distinct "label"+index ids |
| LabelResolver.LabelPage.Resolve | wicket/src/main/java/org/apache/wicket/markup/html/form/AutoFormComponentLabelResolver.java:177-223 | a non-label tag returns false and changes nothing. A label tag with no form component throws and changes nothing. Otherwise exactly one FormLabel is auto-added to the container, the auto index advances, and the result is true |
| LabelResolver.ResolveAddsOneLabel | wicket/src/main/java/org/apache/wicket/markup/html/form/AutoFormComponentLabelResolver.java:217-219 | after a successful resolve, the container is still at its path, keeps distinct ids, and holds the new label as its one child with that id |
| LabelResolver.RenderLabelBody | wicket/src/main/java/org/apache/wicket/markup/html/form/AutoFormComponentLabelResolver.java:132-174 | the text is chosen in priority order: the label-model object, then the `key` resource, then the body. The model then holds the text, so the form component's label reads it back. An existing model is kept, and a fresh one is created only when there was none |
| CheckBoxTriggers.Variables | wicket/src/main/java/org/apache/wicket/markup/html/form/CheckBoxTrigger.java:71-80 | the map has exactly the keys targetId, onClick, onCheck and onUncheck; targetId is the markup id and each snippet is computed from that same id |
| CheckBoxTriggers.DefaultVariables | wicket/src/main/java/org/apache/wicket/markup/html/form/CheckBoxTrigger.java:89-112 | with the base getters, every variable except targetId is the empty string |
| CheckBoxTriggers.VariablesDetermineTarget | wicket/src/main/java/org/apache/wicket/markup/html/form/CheckBoxTrigger.java:71-80 | two targets get the same map exactly when their markup ids are equal |
| CheckBoxTriggers.CheckBoxTrigger.Bind | wicket/src/main/java/org/apache/wicket/markup/html/form/CheckBoxTrigger.java:50-59 | the first bind records the target and sets its output-markup-id flag; any later bind fails and changes neither the target nor the flag |
| CheckBoxTriggers.CheckBoxTrigger.RenderHead | wicket/src/main/java/org/apache/wicket/markup/html/form/CheckBoxTrigger.java:62-82 | renders the two libraries, then the on-load script with the target's variables; with no target, it fails after the libraries |
| CheckBoxTriggers.BindTwice | wicket/src/main/java/org/apache/wicket/markup/html/form/CheckBoxTrigger.java:52-58 | binding a fresh trigger twice to the same component: the first bind succeeds, the second fails, and the first target is kept |
| CheckBoxTriggers.RenderBound | wicket/src/main/java/org/apache/wicket/markup/html/form/CheckBoxTrigger.java:62-82 | a bound trigger contributes the libraries and one script whose variables are exactly the four template keys |
| BehaviorCascade.LastRestart | wicket/src/test/java/org/apache/wicket/behavior/BehaviorExceptionHandlingTest.java:202-229 | there is a restart exactly when some behavior asks for one |
| BehaviorCascade.LastRestartWins | wicket/src/test/java/org/apache/wicket/behavior/BehaviorExceptionHandlingTest.java:202-229 | the restart that takes effect was asked for by a behavior after which no behavior restarts |
| BehaviorCascade.Label.Render | wicket/src/test/java/org/apache/wicket/behavior/BehaviorExceptionHandlingTest.java:59-66 | with the exploding model every hook is called once, in attachment order, with the original failure. The outcome is the last restart, or else the wrapped failure. A plain model renders with no hook called |
| BehaviorCascade.NewStartPage | wicket/src/test/java/org/apache/wicket/behavior/BehaviorExceptionHandlingTest.java:46-57 | the label holds the behaviors in the order they were given, and no hook has been called |
| BehaviorCascade.StartExploding | wicket/src/test/java/org/apache/wicket/behavior/BehaviorExceptionHandlingTest.java:46-66 | every behavior's hook is called in order, and the outcome is the cascade's outcome |
| BehaviorCascade.DefaultExceptionHandling | wicket/src/test/java/org/apache/wicket/behavior/BehaviorExceptionHandlingTest.java:68-83 | the outcome is a WicketRuntimeException whose cause is the original failure |
| BehaviorCascade.SingleBehaviorWithCleanupOnly | wicket/src/test/java/org/apache/wicket/behavior/BehaviorExceptionHandlingTest.java:87-113 | the behavior is called and the wrapped failure surfaces |
| BehaviorCascade.TwoBehaviorsWithCleanupOnly | wicket/src/test/java/org/apache/wicket/behavior/BehaviorExceptionHandlingTest.java:115-152 | both behaviors are called and the wrapped failure surfaces |
| BehaviorCascade.SingleBehaviorWithRedirect | wicket/src/test/java/org/apache/wicket/behavior/BehaviorExceptionHandlingTest.java:154-170 | the behavior is called and RedirectedPage(1) is rendered |
| BehaviorCascade.SecondBehaviorIsCalledEvenWithRedirectInFirst | wicket/src/test/java/org/apache/wicket/behavior/BehaviorExceptionHandlingTest.java:175-200 | both behaviors are called and the first one's redirect is rendered |
| BehaviorCascade.SecondBehaviorRedirectWins | wicket/src/test/java/org/apache/wicket/behavior/BehaviorExceptionHandlingTest.java:202-229 | both behaviors are called and the page rendered has id 2 |
| NestedForms.Upward | wicket/src/test/java/org/apache/wicket/markup/html/form/NestedFormSubmitTest.java:50-54 | the walk returns the outermost ancestor that wants inclusion: that ancestor wants it and no ancestor further out does. It returns the starting choice only when no ancestor it looks at wants inclusion |
| NestedForms.FormToProcess | wicket/src/test/java/org/apache/wicket/markup/html/form/NestedFormSubmitTest.java:50-54 | the form to process is the submitting form or one of its ancestors |
| NestedForms.FormToProcessIsOutermost | wicket/src/test/java/org/apache/wicket/markup/html/form/NestedFormSubmitTest.java:149-172 | the form to process is the outermost ancestor form that wants inclusion, or the submitting form when none does |
| NestedForms.FormOf | wicket/src/test/java/org/apache/wicket/markup/html/form/NestedFormSubmitTest.java:105-127 | a button belongs to the nearest form above it: that ancestor is a form and no ancestor between it and the button is one. With no result, no ancestor of the button is a form |
| NestedForms.FormsPostOrder | wicket/src/test/java/org/apache/wicket/markup/html/form/NestedFormSubmitTest.java:43-48 | the forms processed are forms of the subtree, and a form root comes last, after the forms nested in it |
| NestedForms.FormsPostOrderExact | wicket/src/test/java/org/apache/wicket/markup/html/form/NestedFormSubmitTest.java:43-48 | a uid is listed exactly when it is the uid of a form somewhere in the subtree, the root included |
| NestedForms.ProcessedBounds | wicket/src/test/java/org/apache/wicket/markup/html/form/NestedFormSubmitTest.java:137-172 | the submitted forms are exactly the forms of the processed form's subtree. The form the button is in is always among them, and no ancestor above the processed form is |
| NestedForms.SubmittedModels.Submit | wicket/src/test/java/org/apache/wicket/markup/html/form/NestedFormSubmitTest.java:43-48 | each processed form's model becomes true; no other model changes |
| NestedForms.SubmittedModels.TearDown | wicket/src/test/java/org/apache/wicket/markup/html/form/NestedFormSubmitTest.java:90-97 | every model goes back to false |
| NestedForms.TestPageToProcess | wicket/src/test/java/org/apache/wicket/markup/html/form/NestedFormSubmitTest.java:57-74 | on the outer/middle/inner page, which form is processed for each submitting form under each pair of flags |
| NestedForms.TestPageForms | wicket/src/test/java/org/apache/wicket/markup/html/form/NestedFormSubmitTest.java:57-74 | the forms each of the three forms processes, nested forms first |
| NestedForms.RunTest | wicket/src/test/java/org/apache/wicket/markup/html/form/NestedFormSubmitTest.java:81-135 | each model read after set-up, start and click is true exactly when its form is among those processed |
| NestedForms.DefaultOuterSubmitShouldSubmitAll | wicket/src/test/java/org/apache/wicket/markup/html/form/NestedFormSubmitTest.java:99-103 | all three forms are submitted |
| NestedForms.DefaultMiddleSubmitShouldSubmitMiddleAndInner | wicket/src/test/java/org/apache/wicket/markup/html/form/NestedFormSubmitTest.java:137-141 | middle and inner are submitted, outer is not |
| NestedForms.DefaultInnerSubmitShouldSubmitOnlyInner | wicket/src/test/java/org/apache/wicket/markup/html/form/NestedFormSubmitTest.java:143-147 | only inner is submitted |
| NestedForms.WithOuterInclusionOuterIsSubmittedOnMiddleSubmit | wicket/src/test/java/org/apache/wicket/markup/html/form/NestedFormSubmitTest.java:149-153 | all three are submitted |
| NestedForms.WithOuterInclusionOuterIsSubmittedOnInnerSubmit | wicket/src/test/java/org/apache/wicket/markup/html/form/NestedFormSubmitTest.java:155-159 | all three are submitted, including middle, which did not opt in |
| NestedForms.WithMiddleInclusionMiddleIsSubmittedOnInnerSubmit | wicket/src/test/java/org/apache/wicket/markup/html/form/NestedFormSubmitTest.java:161-165 | middle and inner are submitted, outer is not |
| NestedForms.WithMiddleAndOuterInclusionMiddleAndOuterIsSubmittedOnInnerSubmit | wicket/src/test/java/org/apache/wicket/markup/html/form/NestedFormSubmitTest.java:167-172 | all three are submitted |
| FencedFeedback.PanelFenceMarked | wicket-core/src/test/java/org/apache/wicket/markup/html/panel/FencedFeedbackPanelTest.java:247-248 | the fence of every fenced panel in the page is marked; it is the constructor's container, not the panel's parent |
| FencedFeedback.UnattachedReporterUnseen | wicket-core/src/test/java/org/apache/wicket/markup/html/panel/fencedfeedback/FencedFeedbackPanelReplacingTest.java:84-85 | a message from a component outside the page is shown by no panel, the catch-all included |
| FencedFeedback.Collect | wicket-core/src/test/java/org/apache/wicket/markup/html/panel/FencedFeedbackPanelTest.java:57-60 | a panel shows exactly the reported messages that are candidates for its fence and pass its filter, and no more messages than were reported |
| FencedFeedback.AnyMessageIff | wicket-core/src/test/java/org/apache/wicket/markup/html/panel/FencedFeedbackPanelTest.java:57-60 | `anyMessage` holds exactly when some message is a candidate for the panel's fence and passes its filter |
| FencedFeedback.NearestMarkedIsNearest | wicket-core/src/test/java/org/apache/wicket/markup/html/panel/FencedFeedbackPanelTest.java:53-80 | the scope is a marked fence on the ancestor chain with no marked fence below it, or the page when the chain has none |
| FencedFeedback.ScopeIsNearestMarked | wicket-core/src/test/java/org/apache/wicket/markup/html/panel/FencedFeedbackPanelTest.java:53-80 | the scope computed walking down the tree is the nearest marked fence on the reporter's chain |
| FencedFeedback.NearestFenceWins | wicket-core/src/test/java/org/apache/wicket/markup/html/panel/FencedFeedbackPanelTest.java:53-90 | a catch-all shows a component's message exactly when no marked fence lies between the component and the page. A fenced panel shows it exactly when its fence is the first marked fence on the way up |
| FencedFeedback.ScopesExclusive | wicket-core/src/test/java/org/apache/wicket/markup/html/panel/FencedFeedbackPanelTest.java:53-80 | two panels that both show a component's message have the same scope |
| FencedFeedback.FilterOnlyOwnPanel | wicket-core/src/test/java/org/apache/wicket/markup/html/panel/FencedFeedbackPanelTest.java:96-115 | setting a filter on one panel changes nothing that any other panel shows |
| FencedFeedback.FilterNarrowsOwnView | wicket-core/src/test/java/org/apache/wicket/markup/html/panel/FencedFeedbackPanelTest.java:96-136 | a filtered panel shows the candidates at or above the filter's level, in order |
| FencedFeedback.Page.Report | wicket-core/src/test/java/org/apache/wicket/markup/html/panel/FencedFeedbackPanelTest.java:53 | `error`/`info` on a component appends one message with that reporter |
| FencedFeedback.Page.ReportToSession | wicket-core/src/test/java/org/apache/wicket/markup/html/panel/FencedFeedbackPanelTest.java:83 | a session message is appended with no reporter |
| FencedFeedback.Page.SetFilter | wicket-core/src/test/java/org/apache/wicket/markup/html/panel/FencedFeedbackPanelTest.java:100-101 | only the panel's filter changes |
| FencedFeedback.Page.Remove | wicket-core/src/test/java/org/apache/wicket/markup/html/panel/FencedFeedbackPanelTest.java:155 | `remove` succeeds exactly for a component of the page other than the page itself, which is then gone; otherwise nothing changes |
| FencedFeedback.Page.ReplaceWith | wicket-core/src/test/java/org/apache/wicket/markup/html/panel/FencedFeedbackPanelTest.java:259 | `replaceWith` succeeds exactly when the component is in the page, has a parent and has the replacement's id; the replacement then stands in its place |
| FencedFeedback.Page.Replace | wicket-core/src/test/java/org/apache/wicket/markup/html/panel/fencedfeedback/FencedFeedbackPanelReplacingTest.java:47 | `container.replace(child)` swaps in the child with the same id, and fails otherwise |
| FencedFeedback.Page.AnyMessageOf | wicket-core/src/test/java/org/apache/wicket/markup/html/panel/FencedFeedbackPanelTest.java:57 | on the current tree and store, an id that is not in the page, or a component that is not a feedback panel, has no message. A panel has one exactly when some stored message is a candidate for its fence and passes its filter |
| FencedFeedbackScenarios.TestPageFences | wicket-core/src/test/java/org/apache/wicket/markup/html/panel/FencedFeedbackPanelTest.java:210-211 | the marked fences of the test page are `form` and `container` |
| FencedFeedbackScenarios.TestPageScopes | wicket-core/src/test/java/org/apache/wicket/markup/html/panel/FencedFeedbackPanelTest.java:53-80 | the scopes of containerInput, formInput and externalLabel |
| FencedFeedbackScenarios.FencingContainerMessage | wicket-core/src/test/java/org/apache/wicket/markup/html/panel/FencedFeedbackPanelTest.java:53-60 | the container input's error reaches both container panels, not the form panel or the catch-all |
| FencedFeedbackScenarios.FencingFormMessage | wicket-core/src/test/java/org/apache/wicket/markup/html/panel/FencedFeedbackPanelTest.java:63-70 | the form input's error reaches only the form panel |
| FencedFeedbackScenarios.FencingExternalMessage | wicket-core/src/test/java/org/apache/wicket/markup/html/panel/FencedFeedbackPanelTest.java:73-80 | the external label's error reaches only the catch-all |
| FencedFeedbackScenarios.FencingSessionMessage | wicket-core/src/test/java/org/apache/wicket/markup/html/panel/FencedFeedbackPanelTest.java:83-90 | a session error reaches only the catch-all |
| FencedFeedbackScenarios.FilteredView | wicket-core/src/test/java/org/apache/wicket/markup/html/panel/FencedFeedbackPanelTest.java:96-136 | what the filtered page shows, in terms of what the unfiltered page shows |
| FencedFeedbackScenarios.FilteringHoldsBackInfo | wicket-core/src/test/java/org/apache/wicket/markup/html/panel/FencedFeedbackPanelTest.java:96-115 | an info message is hidden from the filtered panel only; the sibling panel sees it, and it does not leak |
| FencedFeedbackScenarios.FilteringLetsErrorThrough | wicket-core/src/test/java/org/apache/wicket/markup/html/panel/FencedFeedbackPanelTest.java:119-136 | an error passes the filter and does not leak |
| FencedFeedbackScenarios.Minus1Fences | wicket-core/src/test/java/org/apache/wicket/markup/html/panel/FencedFeedbackPanelTest.java:154-162 | with one of the two panels removed, `container` is still a fence |
| FencedFeedbackScenarios.Minus2Fences | wicket-core/src/test/java/org/apache/wicket/markup/html/panel/FencedFeedbackPanelTest.java:166-173 | with both panels removed, `container` is no longer a fence |
| FencedFeedbackScenarios.MovingOnePanelLeft | wicket-core/src/test/java/org/apache/wicket/markup/html/panel/FencedFeedbackPanelTest.java:154-162 | the remaining panel sees the error and the form panel does not |
| FencedFeedbackScenarios.MovingNoPanelLeft | wicket-core/src/test/java/org/apache/wicket/markup/html/panel/FencedFeedbackPanelTest.java:166-173 | the error now reaches the form panel |
| FencedFeedbackScenarios.MovingOnPage | wicket-core/src/test/java/org/apache/wicket/markup/html/panel/FencedFeedbackPanelTest.java:154-173 | through the page object: with one fencing panel removed before the error, the other sees it and the form panel does not; with both removed, the form panel sees it |
| FencedFeedbackScenarios.ReplacingBackAndForth | wicket-core/src/test/java/org/apache/wicket/markup/html/panel/FencedFeedbackPanelTest.java:181-193 | forward and back restores the page, and the fencing is as before |
| FencedFeedbackReplacingScenario.Forward | wicket-core/src/test/java/org/apache/wicket/markup/html/panel/fencedfeedback/FencedFeedbackPanelReplacingTest.java:43-49 | the forward link's `replace` succeeds and gives the page without the panel |
| FencedFeedbackReplacingScenario.Backward | wicket-core/src/test/java/org/apache/wicket/markup/html/panel/fencedfeedback/FencedFeedbackPanelReplacingTest.java:50-56 | the backward link's `replace` gives back the starting page |
| FencedFeedbackReplacingScenario.PageForwardUids | wicket-core/src/test/java/org/apache/wicket/markup/html/panel/fencedfeedback/FencedFeedbackPanelReplacingTest.java:47 | the panel that was taken out, and its feedback panel, are no longer part of the page |
| FencedFeedbackReplacingScenario.TestPageFences | wicket-core/src/test/java/org/apache/wicket/markup/html/panel/fencedfeedback/FencedFeedbackPanelReplacingTest.java:66 | the test panel fences itself |
| FencedFeedbackReplacingScenario.TestPageView | wicket-core/src/test/java/org/apache/wicket/markup/html/panel/fencedfeedback/FencedFeedbackPanelReplacingTest.java:70-83 | the panel's own messages never reach the catch-all, and they do reach the panel's feedback |
| FencedFeedbackReplacingScenario.BackAndForth | wicket-core/src/test/java/org/apache/wicket/markup/html/panel/fencedfeedback/FencedFeedbackPanelReplacingTest.java:81-88 | the catch-all sees nothing before, during or after the swap; the panel feedback sees the info |
| Lifecycle.SuperCallMessageNames | wicket/src/test/java/org/apache/wicket/ComponentInitializationTest.java:226-227 | the IllegalStateException message contains the hook name and the component class |
| Lifecycle.ApplyAction | wicket/src/test/java/org/apache/wicket/ComponentInitializationTest.java:71-74 | an add succeeds exactly when its target is there and has no child with the new id; the child then becomes the target's last child. A replaceWith succeeds exactly when its target is below the hook's component and has the replacement's id; the replacement then stands there. The hook's component stays the root |
| Lifecycle.ApplyActionApart | wicket/src/test/java/org/apache/wicket/ComponentInitializationTest.java:71-74 | an action leaves every component whose path is apart from its target exactly where it was |
| Lifecycle.ApplyAll | wicket/src/test/java/org/apache/wicket/ComponentInitializationTest.java:71-74 | no actions change nothing; the hook's component stays the root, and tree changes never fail with a missing-super-call error |
| Lifecycle.ApplyAllConcat | wicket/src/test/java/org/apache/wicket/ComponentInitializationTest.java:71-74 | running two lists of actions one after the other is running their concatenation, and the first failure stops both |
| Lifecycle.Visit | wicket/src/test/java/org/apache/wicket/ComponentInitializationTest.java:241-246 | an initialized component is skipped. Otherwise the visit succeeds exactly when the hook calls super and all its actions succeed, so a hook without the super call always fails. On success the tree is the one the actions produced at the component's path, and the component is marked, counted once more and logged |
| Lifecycle.RunStep | wicket/src/test/java/org/apache/wicket/ComponentInitializationTest.java:162-182 | one worklist step either fails with the visit's error or continues from the next worklist, and the measure decreases |
| Lifecycle.RunCounted | wicket/src/test/java/org/apache/wicket/ComponentInitializationTest.java:184-194 | the pass runs no `onInitialize` twice: each count is 1 exactly for initialized components, and the log lists each of them once |
| Lifecycle.RunCovers | wicket/src/test/java/org/apache/wicket/ComponentInitializationTest.java:180-181 | after a pass that covers the whole tree, every component, including those hooks added, is initialized |
| Lifecycle.RunIdle | wicket/src/test/java/org/apache/wicket/ComponentInitializationTest.java:206-214 | a pass over an all-initialized tree changes nothing |
| Lifecycle.RunError | wicket/src/test/java/org/apache/wicket/ComponentInitializationTest.java:217-229 | a missing super call in a pass always names onInitialize |
| Lifecycle.Pass | wicket/src/test/java/org/apache/wicket/ComponentInitializationTest.java:162-182 | on success, every component of the resulting tree is initialized |
| Lifecycle.PassCounted | wicket/src/test/java/org/apache/wicket/ComponentInitializationTest.java:184-194 | a page pass keeps the counted invariant and extends the initialized set and the log |
| Lifecycle.PassIdle | wicket/src/test/java/org/apache/wicket/ComponentInitializationTest.java:206-214 | a pass over an initialized page changes nothing |
| Lifecycle.RunSupers | wicket/src/test/java/org/apache/wicket/ComponentInitializationTest.java:217-229 | every component a successful pass initialized has an onInitialize that calls super |
| Lifecycle.PassSupers | wicket/src/test/java/org/apache/wicket/ComponentInitializationTest.java:217-229 | every component a successful page pass initialized has an onInitialize that calls super |
| ComponentTree.PreOrderUids | wicket/src/test/java/org/apache/wicket/ComponentInitializationTest.java:170-181 | the pre-order lists exactly the components of the tree, and each once when the uids are unique |
| Lifecycle.RunOrder | wicket/src/test/java/org/apache/wicket/ComponentInitializationTest.java:170-181 | with hooks that call super and change nothing, a pass over components not yet initialized logs them in the order of the worklist's subtrees, each subtree in pre-order, and leaves the tree unchanged |
| Lifecycle.PassOrder | wicket/src/test/java/org/apache/wicket/ComponentInitializationTest.java:170-181 | with hooks that call super and change nothing, the first pass over a page with unique uids succeeds and logs its components in pre-order: each component before its children, children first to last |
| Lifecycle.FirstUse | wicket/src/test/java/org/apache/wicket/OnPageInitializeTest.java:39-53 | onPageInitialize runs only on first use and counts once. Without the super call it fails, naming onPageInitialize and the page class |
| Lifecycle.PreRender | wicket/src/test/java/org/apache/wicket/ComponentInitializationTest.java:80-93 | it is reached only once the page is initialized. The first time, it succeeds exactly when the page's onBeforeRender actions succeed, and the tree is what they produce. Afterwards it changes nothing |
| Lifecycle.RenderPage | wicket/src/test/java/org/apache/wicket/ComponentInitializationTest.java:162-182 | after a render every component is initialized, and onPageInitialize has run exactly once |
| Lifecycle.RenderCounted | wicket/src/test/java/org/apache/wicket/ComponentInitializationTest.java:184-194 | across a render no onInitialize runs twice |
| Lifecycle.RerenderIdle | wicket/src/test/java/org/apache/wicket/ComponentInitializationTest.java:196-215 | rendering a rendered page again changes nothing |
| Lifecycle.RenderErrorNamesHook | wicket/src/test/java/org/apache/wicket/ComponentInitializationTest.java:217-229 | a missing-super-call failure names onInitialize or onPageInitialize |
| Lifecycle.PageRuntime.constructor | wicket/src/test/java/org/apache/wicket/ComponentInitializationTest.java:98-114 | after the constructors no hook has run and no listener is registered |
| Lifecycle.PageRuntime.AddListener | wicket/src/test/java/org/apache/wicket/ComponentInitializationTest.java:138-141 | registers a listener that has heard nothing |
| Lifecycle.PageRuntime.Announce | wicket/src/test/java/org/apache/wicket/ComponentInitializationTest.java:282-290 | every listener is told of the component, in registration order |
| Lifecycle.PageRuntime.InitializeAt | wicket/src/test/java/org/apache/wicket/ComponentInitializationTest.java:241-246 | the method's result and new state are those of Visit, and the listeners hear what the log gained |
| Lifecycle.PageRuntime.InitializePass | wicket/src/test/java/org/apache/wicket/ComponentInitializationTest.java:162-182 | the worklist loop's result and new state are those of Pass |
| Lifecycle.PageRuntime.Render | wicket/src/test/java/org/apache/wicket/ComponentInitializationTest.java:80-93 | the imperative render's result and new state are those of RenderPage, and every listener heard the log's new entries in order |
| Lifecycle.HeardTrans | wicket/src/test/java/org/apache/wicket/ComponentInitializationTest.java:136-160 | two rounds of announcements compose |
| LifecycleScenarios.FirstPass | wicket/src/test/java/org/apache/wicket/ComponentInitializationTest.java:66-76 | the first pass over SubPage initializes page, outerContainer, innerComponent, onInitializeContainer, onInitializeComponent and refreshLink |
| LifecycleScenarios.FirstPassLog | wicket/src/test/java/org/apache/wicket/ComponentInitializationTest.java:170-175 | the first pass logs those six components in that order |
| LifecycleScenarios.PreRendered | wicket/src/test/java/org/apache/wicket/ComponentInitializationTest.java:85-92 | onBeforeRender adds onBeforeRenderContainer with its child under onInitializeContainer |
| LifecycleScenarios.SecondPass | wicket/src/test/java/org/apache/wicket/ComponentInitializationTest.java:176-181 | the second pass initializes the two onBeforeRender components |
| LifecycleScenarios.SecondPassLog | wicket/src/test/java/org/apache/wicket/ComponentInitializationTest.java:162-182 | the full log is page, outerContainer, innerComponent, onInitializeContainer, onInitializeComponent, refreshLink, onBeforeRenderContainer, onBeforeRenderComponent |
| LifecycleScenarios.SubPageRenders | wicket/src/test/java/org/apache/wicket/ComponentInitializationTest.java:126-133 | the first render of SubPage succeeds with that final page |
| LifecycleScenarios.SubPageCounts | wicket/src/test/java/org/apache/wicket/ComponentInitializationTest.java:184-194 | each of the eight components is initialized with a count of 1 |
| LifecycleScenarios.PageInitialization | wicket/src/test/java/org/apache/wicket/ComponentInitializationTest.java:126-133 | the page's pageInitializeCount is 1 |
| LifecycleScenarios.InitListeners | wicket/src/test/java/org/apache/wicket/ComponentInitializationTest.java:136-182 | both listeners heard all eight components, in the tested order |
| LifecycleScenarios.Counts | wicket/src/test/java/org/apache/wicket/ComponentInitializationTest.java:184-194 | reads each component's count |
| LifecycleScenarios.InitializeOnlyOnce | wicket/src/test/java/org/apache/wicket/ComponentInitializationTest.java:184-194 | every count is 1 |
| LifecycleScenarios.DontInitializeAgainAfterRedraw | wicket/src/test/java/org/apache/wicket/ComponentInitializationTest.java:196-215 | after the refreshLink re-render every count is still 1 |
| LifecycleScenarios.BadPageFails | wicket/src/test/java/org/apache/wicket/ComponentInitializationTest.java:116-124 | rendering BadPage fails with a missing super call in onInitialize of InvalidComponent |
| LifecycleScenarios.CatchBadInitializeMethod | wicket/src/test/java/org/apache/wicket/ComponentInitializationTest.java:217-229 | the render throws, and the message contains "onInitialize" and "InvalidComponent" |
| LifecycleScenarios.LabelPageRenders | wicket/src/test/java/org/apache/wicket/OnPageInitializeTest.java:85-92 | the first render runs onPageInitialize once, adds the link and initializes label and link |
| LifecycleScenarios.PageInitializeOnlyBeforeFirstRender | wicket/src/test/java/org/apache/wicket/OnPageInitializeTest.java:94-104 | the count is 1 after the first render and still 1 after clicking the link the hook added |
| LifecycleScenarios.MissingSuperCallIsCaught | wicket/src/test/java/org/apache/wicket/OnPageInitializeTest.java:106-111 | BadInitializePage's render fails with a missing super call in onPageInitialize of BadInitializePage |

## Left out

- `Component`, `MarkupContainer`, `Page`, `Form`, `FencedFeedbackPanel` and the behavior dispatch are not part of this model. Their rules are reconstructed from what the modelled tests assert:
  - fence marking;
  - initialization order;
  - the form-processing choice;
  - the restart precedence.
- Detached reporters: a message reported by a component that is not part of the page is shown by no panel, the catch-all included. This follows `FencedFeedbackPanelReplacingTest.java:84-85`. A wider reading would hand such messages to the catch-all.
- The message store is never cleared between requests. Each scenario starts from a fresh page, as each test does with `startPage`.
- `FencedFeedbackPanelReplacingTest` ends in an unconditional `fail` (line 90). Only the assertions before it are modelled, and `debugComponentTrees` is left out.
- Browser scripts and templates are left out: the three `.js` files, the filled `CheckBoxTrigger.onClick.template.js`, `CheckBoxCoChecker`, `CheckBoxCoUnchecker` and `CheckboxChoiceSelector`. The on-load script is modelled as its variable map.
- `AjaxCallDecorator` and `PropertyModelWithListTest` are not part of this model.
- `FormLabel` rendering is left out: tag-type rewriting, `ResponseBufferZone` buffering and `replaceComponentTagBody`. The `key` resource string (`getString`) and the tag body are inputs.
- `WicketTester` requests are not modelled. `startPage` becomes a fresh page followed by a render, and `clickLink("refreshLink")` or `clickLink("link")` becomes a second render.
- `System.out.println` in the test listener is left out.
- Hook actions are limited to adding a child and `replaceWith` inside the hooking component's own subtree. An action aimed at no component fails with `NoTarget`.
- `subclassCallWorked` and `getSomeInformationFromSubclasses`: "hooks run after the subclass constructor" is structural. The constructor ensures that no hook has run; hooks run only inside `Render`. The flag itself is not a value of the model.
- `InvalidComponent.onBeforeRender` calls `onInitialize` again, but it is never reached: the pass fails first, at the missing super call.
- Lifecycle.PreRender: models only the page's `onBeforeRender`. The components' own `onBeforeRender` hooks are not modelled, because the modelled tests override only the page's.
- Lifecycle.FirstUse: `onPageInitialize` runs before the first initialization pass; no test fixes its order relative to the page's `onInitialize`.
- BehaviorCascade.Label.Render: the hook's check that the exception is the original or wraps it is stated as a property of what the hooks are given. It is not an assertion that can fail.
- Lifecycle.RunOrder: the order of a pass is proved only for hooks that do not change the tree. With tree-changing hooks, the order is shown on the tested pages (`FirstPassLog`, `SecondPassLog`), not for every page.
- LabelResolver.LabelPage.Resolve: does not demand that the uid given to the new `FormLabel` is not already in the page. The caller supplies it, standing for a fresh Java object.
- LabelResolver.LabelPage.Resolve: the auto index is an unbounded number. Java's `int` counter would wrap after 2^31 labels on one page.
- LabelResolver.RenderLabelBody: the label `IModel` is flattened to a holder of a possibly null string.
- FencedFeedback.Collect: the order in which a panel lists its messages is not modelled as Wicket's. The model keeps report order, and the modelled tests only ask whether a panel has messages. `FeedbackCollector` is not part of this model.
- FencedFeedback.Candidate: a catch-all panel always has the page as its scope, also when it sits inside a marked fence. The tests build catch-alls without a fence (`FencedFeedbackPanelTest.java:238`, `FencedFeedbackPanelReplacingTest.java:37`) and never place one inside a marked fence. An unfenced collector that only gathers below an inner container is not modelled, and `FencedFeedbackPanel` itself is not part of this model.
- FencedFeedback.Page.ReplaceWith: does not check that the replacement is not already part of the page. `Component.replaceWith` is not part of this model.
