/** The read-only `PROMPTS` table: one instruction text per supported framework,
    looked up by the framework's key. */
module Prompts {
  import opened Wrappers

  /** The three keys of `PROMPTS`. */
  datatype Framework = React | Vue | Html

  /** The key under which each framework's prompt is stored. */
  function Key(f: Framework): string {
    match f
    case React => "react"
    case Vue => "vue"
    case Html => "html"
  }

  /** `framework in PROMPTS` together with the lookup: the framework whose key is
      `name`, if there is one. */
  function FrameworkNamed(name: string): (r: Option<Framework>)
    ensures r.Some? ==> Key(r.value) == name
    ensures r.None? ==> forall f: Framework :: Key(f) != name
  {
    if name == "react" then Some(React)
    else if name == "vue" then Some(Vue)
    else if name == "html" then Some(Html)
    else None
  }

  /** Every key names its own framework. */
  lemma FrameworkNamedKey(f: Framework)
    ensures FrameworkNamed(Key(f)) == Some(f)
  {
  }

  /** Stand-ins for the three instruction texts: each names its entry of the
      table, and only their distinctness matters to the route. */
  const ReactPrompt: string := "PROMPTS.react"
  const VuePrompt: string := "PROMPTS.vue"
  const HtmlPrompt: string := "PROMPTS.html"

  /** `PROMPTS[framework]`. */
  function Prompt(f: Framework): (p: string)
    ensures p == ReactPrompt <==> f == React
    ensures p == VuePrompt <==> f == Vue
    ensures p == HtmlPrompt <==> f == Html
  {
    match f
    case React => ReactPrompt
    case Vue => VuePrompt
    case Html => HtmlPrompt
  }

  /** The three prompts are distinct, so the prompt sent determines the framework asked for. */
  lemma PromptInjective(f: Framework, g: Framework)
    ensures Prompt(f) == Prompt(g) ==> f == g
  {
    assert |ReactPrompt| == 13 && |VuePrompt| == 11 && |HtmlPrompt| == 12;
  }
}
