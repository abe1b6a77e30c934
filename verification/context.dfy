/**
 * The values a macro's template sees, the per-run context built by
 * `DynamicMacro.run` (dynamicmacros.py:93-98), and the one piece of logic in
 * the `DynamicPrinter` proxy (dynamicmacros.py:108-112).
 */
module Context {

  /**
   * The Python values that reach a template context. Host objects and
   * template helpers are opaque: only their identity and truth value matter.
   */
  datatype Value =
    | PyNone
    | Str(s: string)
    | Obj(id: nat, truthy: bool)
    | Params(p: map<string, string>)
    | PrinterProxy   // a fresh `DynamicPrinter()`

  /** Python truth value: `None`, `''` and `{}` are false. */
  predicate Truthy(v: Value) {
    match v
    case PyNone => false
    case Str(s) => s != ""
    case Obj(_, t) => t
    case Params(p) => p != map[]
    case PrinterProxy => true
  }

  const DYNAMIC_PRINTER: string := "dynamic_printer"
  const PARAMS: string := "params"
  const RAWPARAMS: string := "rawparams"

  /** The three names `run` injects after the merge. */
  predicate Injected(k: string) {
    k == DYNAMIC_PRINTER || k == PARAMS || k == RAWPARAMS
  }

  /**
   * `kwparams` of `DynamicMacro.run`: a copy of the macro's persistent
   * variables, overridden by the template engine's context, then
   * `dynamic_printer`, `params` and `rawparams` set whatever came before.
   */
  function RunContext(variables: map<string, Value>, templateContext: map<string, Value>,
                      params: map<string, string>, rawparams: string): (ctx: map<string, Value>)
    ensures ctx.Keys == variables.Keys + templateContext.Keys + {DYNAMIC_PRINTER, PARAMS, RAWPARAMS}
    ensures ctx[DYNAMIC_PRINTER] == PrinterProxy
    ensures ctx[PARAMS] == Params(params)
    ensures ctx[RAWPARAMS] == Str(rawparams)
    ensures forall k :: k in templateContext && !Injected(k) ==> ctx[k] == templateContext[k]
    ensures forall k :: k in variables && k !in templateContext && !Injected(k) ==> ctx[k] == variables[k]
  {
    var merged := variables + templateContext;
    merged[DYNAMIC_PRINTER := PrinterProxy][PARAMS := Params(params)][RAWPARAMS := Str(rawparams)]
  }

  /**
   * The layers of `RunContext` read one key at a time, highest precedence
   * first: injected names, then the template context, then the variables.
   */
  function LayeredLookup(variables: map<string, Value>, templateContext: map<string, Value>,
                         params: map<string, string>, rawparams: string, k: string): (v: Value)
    requires k in variables || k in templateContext || Injected(k)
  {
    if k == DYNAMIC_PRINTER then PrinterProxy
    else if k == PARAMS then Params(params)
    else if k == RAWPARAMS then Str(rawparams)
    else if k in templateContext then templateContext[k]
    else variables[k]
  }

  /** The merged dictionary agrees with the layered reading on every key. */
  lemma RunContextIsLayered(variables: map<string, Value>, templateContext: map<string, Value>,
                            params: map<string, string>, rawparams: string, k: string)
    ensures var ctx := RunContext(variables, templateContext, params, rawparams);
      (k in ctx <==> (k in variables || k in templateContext || Injected(k)))
      && (k in ctx ==> ctx[k] == LayeredLookup(variables, templateContext, params, rawparams, k))
  {
  }

  /**
   * `DynamicPrinter.__getattribute__`: the host's answer for `name`, or the
   * string `'NONE'` when that answer is falsy (`x or 'NONE'`).
   */
  function PrinterAttribute(lookup: string -> Value, name: string): (v: Value)
    ensures Truthy(v)
    ensures v == lookup(name) || v == Str("NONE")
    ensures Truthy(lookup(name)) ==> v == lookup(name)
  {
    var found := lookup(name);
    if Truthy(found) then found else Str("NONE")
  }
}
