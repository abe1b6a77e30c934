/**
 * The part of the host's G-code dispatcher (`self.gcode`) that the registry
 * touches: its two command tables, changed only through `register_command`,
 * the template context the host supplies to every run, and, as logs, the
 * template runs and the informational responses it receives.
 */
module Gcode {
  import opened Wrappers
  import opened Context
  import opened Macros

  /** What a command slot holds. */
  datatype Handler =
    | Dispatch                         // `cmd_DYNAMIC_MACRO`
    | MacroCommand(macro: DynamicMacro)    // the closure `generate_cmd(macro)` returns
    | Builtin(id: nat)                 // any command the host registered itself

  /** One run of a macro's template with the context it was given. */
  datatype Execution = Execution(macro: DynamicMacro, context: map<string, Value>)

  /** `'Globals: ' + str(macro.get_globals())`, the text of the globals left abstract. */
  datatype Response = GlobalsInfo(prefix: string, macro: DynamicMacro)

  /** A G-code command invocation: its parsed parameters and the raw parameter text. */
  datatype GCodeCommand = GCodeCommand(params: map<string, string>, raw: string)

  /** `gcmd.get(key, default)`. */
  function Get(gcmd: GCodeCommand, key: string, default: string): (v: string)
    ensures key in gcmd.params ==> v == gcmd.params[key]
    ensures key !in gcmd.params ==> v == default
  {
    if key in gcmd.params then gcmd.params[key] else default
  }

  class GCodeHost {
    var ready: map<string, Handler>       // `ready_gcode_handlers`
    var base: map<string, Handler>        // `base_gcode_handlers`
    var templateContext: map<string, Value>
    var executed: seq<Execution>
    var responses: seq<Response>

    constructor (ready: map<string, Handler>, base: map<string, Handler>,
                 templateContext: map<string, Value>)
      ensures this.ready == ready && this.base == base
      ensures this.templateContext == templateContext
      ensures executed == [] && responses == []
    {
      this.ready := ready;
      this.base := base;
      this.templateContext := templateContext;
      executed := [];
      responses := [];
    }

    /**
     * `register_command(cmd, handler)`: a handler of `None` clears the slot
     * from both tables; otherwise the handler is installed in the ready
     * table (the registry never asks for `when_not_ready`).
     */
    method RegisterCommand(cmd: string, handler: Option<Handler>)
      modifies this`ready, this`base
      ensures handler.None? ==> ready == old(ready) - {cmd} && base == old(base) - {cmd}
      ensures handler.Some? ==> ready == old(ready)[cmd := handler.value] && base == old(base)
    {
      match handler
      case None =>
        ready := ready - {cmd};
        base := base - {cmd};
      case Some(h) =>
        ready := ready[cmd := h];
    }

    /** `template.run_gcode_from_command(context)`: the run is an effect on the host. */
    method RunTemplate(macro: DynamicMacro, context: map<string, Value>)
      modifies this`executed
      ensures executed == old(executed) + [Execution(macro, context)]
    {
      executed := executed + [Execution(macro, context)];
    }

    /** `gcmd.respond_info(...)`. */
    method RespondInfo(r: Response)
      modifies this`responses
      ensures responses == old(responses) + [r]
    {
      responses := responses + [r];
    }
  }
}
