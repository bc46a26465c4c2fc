/**
 * `CheckBoxTrigger`: a behavior that runs script snippets when the one check box it is bound
 * to is clicked, checked or unchecked. It may be bound once only; when the page head renders it
 * contributes the two Wicket script libraries and an on-load script filled from a map of four
 * template variables.
 */
module CheckBoxTriggers {
  import opened Wrappers

  /** The part of a component the trigger touches: its markup id and output-markup-id flag. */
  class Component {
    const markupId: string
    var outputMarkupId: bool

    constructor (markupId: string)
      ensures this.markupId == markupId && !outputMarkupId
    {
      this.markupId := markupId;
      outputMarkupId := false;
    }
  }

  /**
   * The three snippet getters, each taking the target's markup id. A subclass overrides any of
   * them; `Defaults` are the getters of the base class.
   */
  datatype Snippets = Snippets(onClick: string -> string, onCheck: string -> string,
                               onUncheck: string -> string)

  /** The base class getters: every snippet is the empty string. */
  const Defaults: Snippets := Snippets(_ => "", _ => "", _ => "")

  /** The placeholders of the on-click template the variable map fills. */
  const TemplateVariables: set<string> := {"targetId", "onClick", "onCheck", "onUncheck"}

  /**
   * The template variables for a target with markup id `id`: the id itself and the three
   * snippets, each computed from that same id.
   */
  function Variables(id: string, snippets: Snippets): (m: map<string, string>)
    ensures m.Keys == TemplateVariables
    ensures m["targetId"] == id
    ensures m["onClick"] == snippets.onClick(id) && m["onCheck"] == snippets.onCheck(id)
            && m["onUncheck"] == snippets.onUncheck(id)
  {
    map["targetId" := id, "onClick" := snippets.onClick(id), "onCheck" := snippets.onCheck(id),
        "onUncheck" := snippets.onUncheck(id)]
  }

  /**
   * With the base class getters the on-load script has empty handler bodies: the only
   * non-empty variable is the target id, whatever that id is.
   */
  lemma DefaultVariables(id: string)
    ensures var m := Variables(id, Defaults);
            m.Keys == TemplateVariables
            && m["targetId"] == id
            && forall k :: k in m && k != "targetId" ==> m[k] == ""
  {
  }

  /**
   * The variables depend on the target only through its markup id: two targets with the same
   * id get the same map, and two with different ids differ at least in `targetId`.
   */
  lemma VariablesDetermineTarget(id1: string, id2: string, snippets: Snippets)
    ensures Variables(id1, snippets) == Variables(id2, snippets) <==> id1 == id2
  {
    if Variables(id1, snippets) == Variables(id2, snippets) {
      assert Variables(id1, snippets)["targetId"] == Variables(id2, snippets)["targetId"];
    }
  }

  /** What `renderHead` hands to the header response. */
  datatype Contribution = AjaxLibrary | EventLibrary | OnLoadScript(variables: map<string, string>)

  /** The header response: the contributions rendered so far, in order. */
  class HeaderResponse {
    var contributions: seq<Contribution>

    constructor ()
      ensures contributions == []
    {
      contributions := [];
    }
  }

  class CheckBoxTrigger {
    var target: Component?
    const snippets: Snippets

    constructor (snippets: Snippets)
      ensures target == null && this.snippets == snippets
    {
      target := null;
      this.snippets := snippets;
    }

    /**
     * `bind(component)`: the first call records the component and turns on its output markup
     * id; any later call, even with the same component, throws and changes nothing.
     */
    method Bind(component: Component) returns (r: Result<(), string>)
      modifies this, component
      ensures old(target) == null ==>
                r.Success? && target == component && component.outputMarkupId
      ensures old(target) != null ==>
                r.Failure? && target == old(target) && component.outputMarkupId == old(component.outputMarkupId)
    {
      if target != null {
        return Failure("this behavior can only be bound to exactly one component");
      }
      target := component;
      target.outputMarkupId := true;
      r := Result.Success(());
    }

    /**
     * `renderHead(response)`: the two script libraries, then the on-load script with the
     * variables of the target. Without a target the libraries are already rendered when reading
     * the target's markup id throws.
     */
    method RenderHead(response: HeaderResponse) returns (r: Result<(), string>)
      modifies response
      ensures target == null ==>
                r.Failure? && response.contributions == old(response.contributions) + [AjaxLibrary, EventLibrary]
      ensures target != null ==>
                r.Success?
                && response.contributions == old(response.contributions)
                     + [AjaxLibrary, EventLibrary, OnLoadScript(Variables(target.markupId, snippets))]
    {
      response.contributions := response.contributions + [AjaxLibrary];
      response.contributions := response.contributions + [EventLibrary];
      if target == null {
        return Failure("NullPointerException");
      }
      var id := target.markupId;
      var variables: map<string, string> := map[];
      variables := variables["targetId" := id];
      variables := variables["onClick" := snippets.onClick(id)];
      variables := variables["onCheck" := snippets.onCheck(id)];
      variables := variables["onUncheck" := snippets.onUncheck(id)];
      response.contributions := response.contributions + [OnLoadScript(variables)];
      r := Result.Success(());
    }
  }

  /**
   * A fresh trigger binds once: binding it to a component succeeds, binding it again to the
   * very same component fails, and the trigger keeps its first target.
   */
  method BindTwice(markupId: string) returns (first: Result<(), string>, second: Result<(), string>, kept: bool)
    ensures first.Success? && second.Failure? && kept
  {
    var trigger := new CheckBoxTrigger(Defaults);
    var box := new Component(markupId);
    first := trigger.Bind(box);
    second := trigger.Bind(box);
    kept := trigger.target == box && box.outputMarkupId;
  }

  /**
   * Rendering a trigger bound to a component: the on-load script carries exactly the template's
   * variables, with the component's markup id and the trigger's snippets.
   */
  method RenderBound(markupId: string, snippets: Snippets)
    returns (r: Result<(), string>, contributions: seq<Contribution>)
    ensures r.Success?
    ensures contributions == [AjaxLibrary, EventLibrary, OnLoadScript(Variables(markupId, snippets))]
    ensures contributions[2].variables.Keys == TemplateVariables
  {
    var trigger := new CheckBoxTrigger(snippets);
    var box := new Component(markupId);
    var _ := trigger.Bind(box);
    var response := new HeaderResponse();
    r := trigger.RenderHead(response);
    contributions := response.contributions;
  }
}
