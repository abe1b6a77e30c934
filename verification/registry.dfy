/**
 * The macro registry `DynamicMacros` (dynamicmacros.py:10-72, 117-118): the
 * name-to-macro map it owns, the host dispatcher it registers commands on,
 * and the fallback placeholder. Every method is proved to change the state
 * exactly as the functions of `Reconcile` say.
 */
module Registry {
  import opened Wrappers
  import opened Tokens
  import opened Context
  import opened Macros
  import opened Gcode
  import Reconcile

  const DYNAMIC_MACRO: string := "DYNAMIC_MACRO"
  const MACRO_PARAM: string := "MACRO"
  const GLOBALS_PREFIX: string := "Globals: "

  class DynamicMacros {
    const gcode: GCodeHost
    const placeholder: DynamicMacro
    var macros: map<string, DynamicMacro>

    /** Every macro is filed under its own name; the placeholder is the fixed one. */
    ghost predicate Valid()
      reads this
    {
      Reconcile.NamesMatchKeys(macros) && placeholder == Placeholder()
    }

    /** The map and the host's two command tables, as one value. */
    function Snapshot(): Reconcile.Registry
      reads this, gcode
    {
      Reconcile.Registry(macros, gcode.ready, gcode.base)
    }

    /**
     * `__init__` up to the first reload (lines 11-23): no macros, the
     * placeholder built, and `DYNAMIC_MACRO` registered on the host.
     */
    constructor (gcode: GCodeHost)
      modifies gcode`ready, gcode`base
      ensures Valid() && this.gcode == gcode && macros == map[]
      ensures gcode.ready == old(gcode.ready)[DYNAMIC_MACRO := Dispatch]
      ensures gcode.base == old(gcode.base)
    {
      this.gcode := gcode;
      placeholder := NewMacro("Placeholder", "M117 ERROR");
      macros := map[];
      new;
      gcode.RegisterCommand(DYNAMIC_MACRO, Some(Dispatch));
    }

    /**
     * `register_macro` (lines 27-30): the macro is always filed under its
     * name; a command running it is installed under the upper-cased name
     * only when the name AS WRITTEN is in neither table.
     */
    method RegisterMacro(macro: DynamicMacro)
      requires Valid()
      modifies this`macros, gcode`ready, gcode`base
      ensures Valid()
      ensures Snapshot() == Reconcile.RegisterMacro(old(Snapshot()), macro)
      ensures macros == old(macros)[macro.name := macro]
      ensures Reconcile.CommandFree(old(Snapshot()), macro.name) ==>
                gcode.ready == old(gcode.ready)[Upper(macro.name) := MacroCommand(macro)]
      ensures !Reconcile.CommandFree(old(Snapshot()), macro.name) ==> gcode.ready == old(gcode.ready)
      ensures gcode.base == old(gcode.base)
    {
      macros := macros[macro.name := macro];
      if macro.name !in gcode.ready && macro.name !in gcode.base {
        gcode.RegisterCommand(Upper(macro.name), Some(MacroCommand(macro)));
      }
    }

    /**
     * `unregister_macro` (lines 32-36): the upper-cased command is cleared
     * from both tables whether or not the macro is tracked. The test of
     * line 34 looks for the macro object among the string keys, never finds
     * it, and so the map is never changed.
     */
    method UnregisterMacro(macro: DynamicMacro)
      modifies gcode`ready, gcode`base
      ensures Snapshot() == Reconcile.UnregisterMacro(old(Snapshot()), macro)
      ensures gcode.ready == old(gcode.ready) - {Upper(macro.name)}
      ensures gcode.base == old(gcode.base) - {Upper(macro.name)}
      ensures macros == old(macros)
    {
      gcode.RegisterCommand(Upper(macro.name), None);
    }

    /**
     * The first loop of `_update_macros` (lines 61-62): every tracked macro
     * is unregistered, in whatever order the map yields them.
     */
    method UnregisterTracked()
      modifies gcode`ready, gcode`base
      ensures Snapshot() == Reconcile.ClearTracked(old(Snapshot()))
    {
      ghost var start := Snapshot();
      var todo := macros.Values;
      while todo != {}
        invariant todo <= start.macros.Values
        invariant macros == start.macros
        invariant gcode.ready == start.ready - Reconcile.Commands(start.macros.Values - todo)
        invariant gcode.base == start.base - Reconcile.Commands(start.macros.Values - todo)
        decreases todo
      {
        var m :| m in todo;
        UnregisterMacro(m);
        ghost var done := start.macros.Values - todo;
        todo := todo - {m};
        assert start.macros.Values - todo == done + {m};
        Reconcile.CommandsAdd(done, m);
      }
      assert start.macros.Values - todo == start.macros.Values;
    }

    /**
     * `_update_macros` (lines 60-72) over `files`, the current contents of
     * the configured files in order: the commands of all tracked macros are
     * cleared, then every macro section is filed and registered. An
     * exception ends the reload where it is raised.
     */
    method UpdateMacros(files: seq<ConfigFile>) returns (status: Reconcile.Status)
      requires Valid()
      modifies this`macros, gcode`ready, gcode`base
      ensures Valid()
      ensures (Snapshot(), status) == Reconcile.Reload(old(Snapshot()), files)
    {
      UnregisterTracked();
      ghost var cleared := Snapshot();

      var f := 0;
      while f < |files|
        invariant 0 <= f <= |files|
        invariant Valid()
        invariant (Snapshot(), Reconcile.Completed) == Reconcile.Load(cleared, Flatten(files[..f]))
      {
        ghost var atFile := Snapshot();
        var sections := files[f];
        var i := 0;
        while i < |sections|
          invariant 0 <= i <= |sections|
          invariant Valid()
          invariant (Snapshot(), Reconcile.Completed) == Reconcile.Load(atFile, sections[..i])
        {
          Reconcile.LoadSnoc(atFile, sections, i);
          status := ScanSection(sections[i]);
          if status.Raised? {
            RaisedEndsReload(cleared, files, f, atFile, sections[..i + 1]);
            return;
          }
          i := i + 1;
        }
        assert sections[..|sections|] == sections;
        FileEndsCompleted(cleared, files, f, atFile);
        f := f + 1;
      }
      assert files[..|files|] == files;
      status := Reconcile.Completed;
    }

    /**
     * The body of the scan loop for one section (lines 68-72): a blank
     * header, a macro header without a name or a macro section without a
     * `gcode` option raises; a macro section is filed under its name
     * (line 71) and registered; any other section is skipped.
     */
    method ScanSection(section: Section) returns (status: Reconcile.Status)
      requires Valid()
      modifies this`macros, gcode`ready, gcode`base
      ensures Valid()
      ensures (Snapshot(), status) == Reconcile.Step(old(Snapshot()), section)
    {
      var words := Split(section.header);
      if |words| == 0 {
        return Reconcile.Raised(BlankHeader(section.header));
      }
      if words[0] == MACRO_KEYWORD {
        if |words| == 1 {
          return Reconcile.Raised(MissingName(section.header));
        }
        var name := words[1];
        var result := FromSection(section);
        if result.Err? {
          return Reconcile.Raised(result.error);
        }
        var macro := result.value;
        macros := macros[name := macro];
        RegisterMacro(macro);
      }
      return Reconcile.Completed;
    }

    /**
     * `cmd_DYNAMIC_MACRO` (lines 38-47): reload first; an empty or missing
     * `MACRO` does nothing more; otherwise the named macro, or the
     * placeholder for an unknown name, runs once and one `Globals: ` line
     * is sent back. An exception of the reload ends the command.
     */
    method CmdDynamicMacro(gcmd: GCodeCommand, files: seq<ConfigFile>) returns (status: Reconcile.Status)
      requires Valid()
      modifies this`macros, gcode`ready, gcode`base, gcode`executed, gcode`responses
      ensures Valid()
      ensures (Snapshot(), status) == Reconcile.Reload(old(Snapshot()), files)
      ensures status.Raised? || Get(gcmd, MACRO_PARAM, "") == "" ==>
                gcode.executed == old(gcode.executed) && gcode.responses == old(gcode.responses)
      ensures status.Completed? && Get(gcmd, MACRO_PARAM, "") != "" ==>
                var name := Get(gcmd, MACRO_PARAM, "");
                var macro := if name in macros then macros[name] else placeholder;
                gcode.executed == old(gcode.executed)
                  + [Execution(macro, RunContext(macro.variables, gcode.templateContext, gcmd.params, gcmd.raw))]
                && gcode.responses == old(gcode.responses) + [GlobalsInfo(GLOBALS_PREFIX, macro)]
    {
      status := UpdateMacros(files);
      if status.Raised? {
        return;
      }
      var macroName := Get(gcmd, MACRO_PARAM, "");
      if macroName == "" {
        return;
      }
      var params := gcmd.params;
      var rawparams := gcmd.raw;
      var macro := if macroName in macros then macros[macroName] else placeholder;
      RunMacro(macro, params, rawparams);
      gcode.RespondInfo(GlobalsInfo(GLOBALS_PREFIX, macro));
    }

    /**
     * The command `generate_cmd(macro)` builds (lines 50-55): it runs the
     * macro it captured with the command's parameters, without a reload.
     */
    method GeneratedCommand(macro: DynamicMacro, gcmd: GCodeCommand)
      modifies gcode`executed
      ensures gcode.executed == old(gcode.executed)
                + [Execution(macro, RunContext(macro.variables, gcode.templateContext, gcmd.params, gcmd.raw))]
    {
      RunMacro(macro, gcmd.params, gcmd.raw);
    }

    /**
     * `_run_macro` and `DynamicMacro.run` (lines 57-58, 93-99): the template
     * runs once with the merged context; the macro's variables are a value
     * and stay as they were.
     */
    method RunMacro(macro: DynamicMacro, params: map<string, string>, rawparams: string)
      modifies gcode`executed
      ensures gcode.executed == old(gcode.executed)
                + [Execution(macro, RunContext(macro.variables, gcode.templateContext, params, rawparams))]
    {
      var kwparams := RunContext(macro.variables, gcode.templateContext, params, rawparams);
      gcode.RunTemplate(macro, kwparams);
    }
  }

  /** Scanning the first `f + 1` files is scanning the first `f`, then file `f`. */
  lemma FileEndsCompleted(cleared: Reconcile.Registry, files: seq<ConfigFile>, f: nat, atFile: Reconcile.Registry)
    requires f < |files|
    requires Reconcile.Load(cleared, Flatten(files[..f])) == (atFile, Reconcile.Completed)
    ensures Reconcile.Load(cleared, Flatten(files[..f + 1])) == Reconcile.Load(atFile, files[f])
  {
    assert files[..f + 1][..f] == files[..f];
    Reconcile.LoadAppend(cleared, Flatten(files[..f]), files[f]);
  }

  /** An exception in file `f` is the outcome of the whole reload. */
  lemma RaisedEndsReload(cleared: Reconcile.Registry, files: seq<ConfigFile>, f: nat,
                         atFile: Reconcile.Registry, scanned: seq<Section>)
    requires f < |files| && scanned <= files[f]
    requires Reconcile.Load(cleared, Flatten(files[..f])) == (atFile, Reconcile.Completed)
    requires Reconcile.Load(atFile, scanned).1.Raised?
    ensures Reconcile.Load(cleared, Flatten(files)) == Reconcile.Load(atFile, scanned)
  {
    var before := Flatten(files[..f]);
    var tail := files[f][|scanned|..] + Flatten(files[f + 1..]);
    FlattenSplit(files, f + 1);
    FlattenSnoc(files, f);
    assert files[f] == scanned + files[f][|scanned|..];
    assert Flatten(files) == before + (scanned + tail);
    Reconcile.LoadAppend(cleared, before, scanned + tail);
    Reconcile.LoadAppend(atFile, scanned, tail);
  }

  /**
   * `load_config` (lines 117-118): a registry built on the host and
   * reloaded once. When that reload completes, the map holds exactly the
   * last definition of every name the files define.
   */
  method LoadConfig(gcode: GCodeHost, files: seq<ConfigFile>) returns (dm: DynamicMacros, status: Reconcile.Status)
    modifies gcode`ready, gcode`base
    ensures fresh(dm) && dm.gcode == gcode && dm.Valid()
    ensures (dm.Snapshot(), status)
         == Reconcile.Reload(Reconcile.Registry(map[], old(gcode.ready)[DYNAMIC_MACRO := Dispatch], old(gcode.base)), files)
    ensures status.Completed? ==> dm.macros == Reconcile.Found(Flatten(files))
  {
    dm := new DynamicMacros(gcode);
    status := dm.UpdateMacros(files);
    if status.Completed? {
      Reconcile.ReloadMacros(Reconcile.Registry(map[], old(gcode.ready)[DYNAMIC_MACRO := Dispatch], old(gcode.base)), files);
    }
  }
}
