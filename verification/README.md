# DynamicMacros registry, modelled in Dafny

DynamicMacros is a Klipper extension. It reads `[gcode_macro NAME]` sections
from a list of configuration files, keeps a name-to-macro map, and registers
one G-code command per macro on the printer's G-code dispatcher. The generic
command `DYNAMIC_MACRO MACRO=<name>` rescans every file, then runs the named
macro. If the name is unknown it runs a fixed placeholder instead.

The project covers all of this in seven modules:

- `Wrappers` (`wrappers.dfy`): the `Option` and `Result` types.
- `Tokens` (`tokens.dfy`): Python's `str.split()` without arguments, and `str.upper()`.
  - The header of each section is tokenised with `str.split()`.
  - Command tokens are made with `str.upper()`.
- `Context` (`context.dfy`): the context that `DynamicMacro.run` builds for a template run.
  - It also holds the `x or 'NONE'` rule of the `DynamicPrinter` proxy.
- `Macros` (`macros.dfy`): the `DynamicMacro` value and what it means to read one from a section.
  - Covers `DynamicMacro.from_section` and the classification done by the scan loop.
  - A configuration file is the sequence of sections an INI parser would give: a header and an option map each.
- `Gcode` (`gcode.dfy`): the part of the host dispatcher the registry uses.
  - This is a `GCodeHost` class with the `ready_gcode_handlers` and `base_gcode_handlers` tables.
  - `register_command` is the only way to change these tables.
  - Template runs and informational responses are recorded as logs.
- `Reconcile` (`reconcile.dfy`): the registry's state as a value, and `_update_macros` as pure functions.
  - The state is the map plus both tables.
  - `_update_macros` is written as `ClearTracked`, `Step`, `Load` and `Reload`.
  - `Found` is an independent reference definition: the last definition of every name.
  - The lemmas state what a reload guarantees.
  - `ReloadOwned` is a corrected reload that leaves the host's own commands alone (see Findings).
- `Registry` (`registry.dfy`): the class `DynamicMacros`.
  - Its field `macros` is updated in place, and it keeps a reference to the host.
  - Each method is proved to change `(macros, ready, base)` exactly as the matching `Reconcile` function says.
  - The loops of `_update_macros` are loops with invariants.

The source quirks are modelled as written:

- **Line 34 is never true.** It tests a macro object against string keys, so `unregister_macro` never removes a key, and the map never shrinks.
- **Line 29 and line 30 use different names.** Line 29 checks the name as written, while line 30 registers `name.upper()`.
- **Line 71 writes the map twice.** It writes the map before `register_macro` writes it again.
- **Malformed sections raise.** Each of these raises an exception:
  - a blank header;
  - a `gcode_macro` header with no name;
  - a macro section without `gcode` (`config.get` in `from_section`, line 88).

  The exception ends the reload at that section, and the state reached so far is kept (`Status.Raised`).
- **`DynamicPrinter` answers `NONE` for anything falsy.** Line 112 calls `lookup_object(name)` with no default and substitutes `NONE` for any falsy answer. What the host does for an unknown name is not in this file, so the host's answer is a parameter.

## Model

| member | source | states |
|---|---|---|
| Tokens.Split | dynamicmacros.py:68-69 | every token of a header is non-empty and contains no whitespace |
| Tokens.SplitEmptyIffBlank | dynamicmacros.py:68 | a header yields no token (so `split()[0]` raises) exactly when it is all whitespace |
| Tokens.SplitJoin | dynamicmacros.py:68-69 | tokens joined by single spaces split back into the same tokens, so the first and second tokens are what a header was written with |
| Tokens.Upper | dynamicmacros.py:30 | the command token has the name's length; each ASCII lower-case letter becomes the capital 32 code points below it, every other character is kept, and no lower-case letter is left |
| Tokens.UpperIdempotent | dynamicmacros.py:30 | upper-casing a command token again changes nothing |
| Context.RunContext | dynamicmacros.py:94-98 | the run context has the keys of the variables, the template context and the three injected names; the injected names always hold the proxy, the parameters and the raw parameters; template context entries override variables, and other variables come through unchanged |
| Context.RunContextIsLayered | dynamicmacros.py:94-98 | the merged dictionary agrees, key by key, with reading the layers in precedence order (injected, template context, variables) |
| Context.PrinterAttribute | dynamicmacros.py:112 | an attribute read through the proxy is always truthy: it is the host's answer when that is truthy, else the string `NONE` |
| Macros.NewMacro | dynamicmacros.py:75-82 | a new macro keeps its name, body and description, with `''` as the default description, and starts with no variables |
| Macros.Placeholder | dynamicmacros.py:17 | the placeholder is named `Placeholder`, runs `M117 ERROR`, and has an empty description and no variables |
| Macros.FromSection | dynamicmacros.py:87-91 | a section gives a macro exactly when it has a `gcode` option and a header of at least two tokens; a missing `gcode` is reported first; the name is the second token, the body is the `gcode` option, and the description is the `description` option or `No Description` |
| Macros.SectionMacro | dynamicmacros.py:67-70 | a blank header raises; a first token other than `gcode_macro` is skipped; `[gcode_macro]` alone raises; a `gcode_macro NAME` section without `gcode` raises the missing-option error; a macro is produced exactly when the first token is `gcode_macro`, there is a second token and `gcode` is present; later tokens are ignored |
| Macros.FlattenAppend | dynamicmacros.py:63-67 | the sections scanned for a list of files are those of each file in turn, in list order |
| Macros.FlattenSplit | dynamicmacros.py:63-67 | the sections of all files are those of a prefix of the files followed by those of the rest |
| Gcode.Get | dynamicmacros.py:40 | `gcmd.get(key, default)` is the parameter when it is given, else the default |
| Gcode.GCodeHost.RegisterCommand | dynamicmacros.py:30 | installing a handler sets that slot of the ready table and leaves the base table alone; a `None` handler removes the command from both tables |
| Gcode.GCodeHost.RunTemplate | dynamicmacros.py:99 | a template run is recorded once, with the context it received |
| Gcode.GCodeHost.RespondInfo | dynamicmacros.py:47 | a response is recorded once |
| Registry.DynamicMacros.constructor | dynamicmacros.py:11-23 | a new registry has no macros and the fixed placeholder; `DYNAMIC_MACRO` is installed in the ready table and the base table is unchanged |
| Registry.DynamicMacros.RegisterMacro | dynamicmacros.py:27-30 | the macro is always filed under its name; a command running it is installed under the upper-cased name only when the name as written is in neither table; otherwise both tables are unchanged; the new state is `Reconcile.RegisterMacro` of the old one, the definition the reload lemmas build on |
| Registry.DynamicMacros.UnregisterMacro | dynamicmacros.py:32-36 | the upper-cased command is removed from both tables whether or not the macro is tracked; the map is unchanged |
| Registry.DynamicMacros.UnregisterTracked | dynamicmacros.py:61-62 | after the first loop, the command of every tracked macro is gone from both tables, nothing else in the tables changes, and the map is untouched: the new state is `Reconcile.ClearTracked` of the old one |
| Registry.DynamicMacros.ScanSection | dynamicmacros.py:67-72 | one pass of the scan loop changes the state and reports the outcome exactly as `Reconcile.Step`, the definition of one pass that `Reconcile.Load` repeats over the sections; the registry stays well formed |
| Registry.DynamicMacros.UpdateMacros | dynamicmacros.py:60-72 | a reload leaves the map and both tables, and gives the outcome, exactly as `Reconcile.Reload`, which is `Reconcile.Load` from `Reconcile.ClearTracked` of the old state over `Macros.Flatten` of the files (clear tracked commands, then scan the sections of every file in order, stopping at the first exception); `Reconcile.Found` is the independent reference the reload lemmas compare the map with |
| Registry.DynamicMacros.CmdDynamicMacro | dynamicmacros.py:38-47 | the command always reloads first; if the reload raised, or `MACRO` is empty or missing, nothing runs and nothing is sent back; otherwise the named macro, or the placeholder for an unknown name, runs once with the merged context, and exactly one `Globals: ` response is sent |
| Registry.DynamicMacros.GeneratedCommand | dynamicmacros.py:50-55 | a macro's own command runs the macro it captured, once, with the command's parameters, and does not reload |
| Registry.DynamicMacros.RunMacro | dynamicmacros.py:57-58 | a run records one template execution with the context `RunContext` builds; the macro's variables are not changed |
| Registry.LoadConfig | dynamicmacros.py:117-118 | loading the extension gives a registry reloaded once from the files; when that reload completes, the map is exactly `Found`, the last definition of every defined name |
| Registry.FileEndsCompleted | dynamicmacros.py:63-72 | scanning the first `f + 1` files is scanning the first `f`, then file `f` |
| Registry.RaisedEndsReload | dynamicmacros.py:63-72 | an exception in one section is the outcome of the whole reload; later sections and files are not scanned |
| Reconcile.LoadAppend | dynamicmacros.py:63-72 | scanning two runs of sections is scanning the first and, unless it raised, then the second from where it ended |
| Reconcile.LoadSnoc | dynamicmacros.py:67-72 | scanning one more section is one more step, unless the scan has already raised |
| Reconcile.CommandsAdd | dynamicmacros.py:61-62 | unregistering one more macro removes its upper-cased command as well |
| Reconcile.LoadMacros | dynamicmacros.py:67-72 | a completed scan leaves the old map overridden by `Found` |
| Reconcile.LoadKeepsMacros | dynamicmacros.py:67-72 | whatever its outcome, a scan keeps every old key (line 71 only adds keys) and the macro of every name it does not find |
| Reconcile.LoadKeepsBase | dynamicmacros.py:30 | the scan never changes the base table |
| Reconcile.LoadStatus | dynamicmacros.py:67-72 | a scan completes exactly when every section is well formed; otherwise it raises the error of the first malformed section |
| Reconcile.FoundIffDefined | dynamicmacros.py:67-72 | a name is in `Found` exactly when some section defines it |
| Reconcile.FoundIsLastDefinition | dynamicmacros.py:71-72 | `Found` maps every name to the macro of its last definition, in file order and then section order |
| Reconcile.LoadProvenance | dynamicmacros.py:67-72 | during a scan no command disappears; every command afterwards was there before with the same handler, or was installed for a macro section of this scan |
| Reconcile.LoadRegistersFound | dynamicmacros.py:27-30 | after a completed scan, every found name has its upper-cased command in the ready table, or its name as written was already a command |
| Reconcile.LoadKeepsNamesMatchKeys | dynamicmacros.py:71-72 | the scan keeps every macro filed under its own name |
| Reconcile.ReloadMacros | dynamicmacros.py:60-72 | after a completed reload the map is the old map overridden by each defined name's last definition |
| Reconcile.ReloadNeverShrinks | dynamicmacros.py:60-72 | whatever its outcome, a reload removes no key (line 34 never holds), and a name no section defines keeps its old macro |
| Reconcile.ReloadBase | dynamicmacros.py:61-62 | after a reload the base table is the old one without the commands of the macros tracked before |
| Reconcile.ReloadNoStaleCommand | dynamicmacros.py:60-72 | after a reload, every ready command either was there before, does not belong to a macro tracked before and keeps its handler, or was installed for a macro section the files hold now; no tracked command remains in the base table |
| Reconcile.ReloadRegistersFound | dynamicmacros.py:60-72 | after a completed reload, every defined name has a command under its upper-cased name or under its name as written; that command need not run the macro, since it may be a host command line 29 left in place or the command of another definition of the same name |
| Reconcile.ReloadKeepsNamesMatchKeys | dynamicmacros.py:60-72 | a reload keeps every macro filed under its own name |
| Reconcile.ReloadTwiceSameMacros | dynamicmacros.py:60-72 | reloading unchanged files a second time completes again and leaves the same map; the command tables can still change on that second reload (see Findings) |
| Reconcile.InstalledIsTracked | dynamicmacros.py:60-72 | every command a completed reload's sections install belongs to a macro the map tracks afterwards, so the next reload unregisters it |
| Reconcile.ReloadSettles | dynamicmacros.py:60-72 | from the second reload of unchanged files on, the whole state (map and both tables) no longer changes: the third reload ends exactly where the second did |
| Reconcile.BuiltinReplacedByMacro | dynamicmacros.py:29-33 | a macro named like a command the host registered itself leaves that command in place on the first reload, and replaces it with the macro's command on the second |
| Reconcile.BuiltinReplacedOnSecondReload | dynamicmacros.py:29-33 | the host's `G28` with a file holding `[gcode_macro G28]`: after one reload `G28` is the host's command, after the next it runs the macro, so the two ready tables differ |
| Reconcile.RedefinitionReplaces | dynamicmacros.py:67-72 | if section `i` of the files defines `m`, no other section defines a name with the same upper-cased command token, and `m`'s name as written is free once tracked commands are cleared, a completed reload files `m` under its name and its upper-cased command runs `m`, whatever the name held before |
| Reconcile.LoadAround | dynamicmacros.py:67-72 | a completed scan is the scan of the sections before `i`, then the step of section `i`, then the scan of the sections after it, each completing |
| Reconcile.DuplicateSplitsDefinitions | dynamicmacros.py:29-30 | the case `RedefinitionReplaces` excludes: with two sections defining the same upper-case name, the map holds the second macro but the command runs the first, because the second registration finds the first command (line 29) and is skipped |
| Reconcile.G28SectionDefines | dynamicmacros.py:67-70 | a section headed `gcode_macro G28` with a `gcode` option defines the macro `G28` with that body and the default description |
| Reconcile.DuplicateG28Example | dynamicmacros.py:29-30 | two configured files, each with one `[gcode_macro G28]` section, bodies `A` then `B`: the map's `G28` has body `B`, while the command `G28` runs body `A` |
| Reconcile.OwnedCommands | dynamicmacros.py:61-62 | the commands a corrected first loop unregisters are tracked commands whose ready handler runs a macro |
| Reconcile.LoadOwnedKeepsBuiltin | dynamicmacros.py:67-72 | a scan whose registration tests the upper-cased command token keeps every host command with its handler and leaves the base table unchanged |
| Reconcile.ReloadOwnedKeepsBuiltin | dynamicmacros.py:29-33 | the corrected reload keeps every host command with its handler, whatever the files define, and leaves the base table unchanged |
| Reconcile.BuiltinKeptByReloadOwned | dynamicmacros.py:29-33 | the host's `G28` with `[gcode_macro G28]`: under the corrected reload, `G28` is still the host's command after two reloads |
| Reconcile.PlaceholderNeverInstalled | dynamicmacros.py:17 | a reload never installs the placeholder as a command, unless a section defines a macro equal to it or a command already ran it |

## Left out

- Template compiling and rendering are not modelled: the jinja2 environment, `TemplateWrapper` and `run_gcode_from_command` (lines 80-81, 95, 99).
  - The template context the host supplies is an opaque map.
  - A template run is an entry in a log.
  - A compile error when a macro is built is not modelled.
  - `get_globals` (line 84-85) is not modelled. The `Globals: ` response records the macro rather than the text of its globals.
- Files are not read. The INI grammar, `configparser` and the `config_path` resolution (lines 8, 63-66) are replaced by an input: the sections of each configured file, in order.
  - The list `configs` from the extension's own section (line 15) becomes that input.
  - A file that cannot be read is not modelled.
- `register_command` is modelled only as an update or removal in the two tables.
  - Klipper raises on a clashing registration. That code is not in this file, so the model overwrites the slot.
  - Under the real host, line 30 therefore raises whenever the upper-cased command already exists while the name as written does not. Examples are a lower-case name defined in two sections, or a macro named `g28` next to the host's `G28`.
  - Command descriptions (`desc=`, lines 22 and 30) are not modelled.
- `DynamicPrinter` (lines 101-115) is modelled only through its `x or 'NONE'` rule (`Context.PrinterAttribute`).
  - Its reflection hooks are not modelled, and neither is `__getitem__`.
  - The process-wide `DynamicMacros.printer` pointer (line 13) is not modelled.
  - The host lookup is a parameter.
- Logging is not modelled.
- A configuration file is any sequence of sections, so one file may repeat a header. `RawConfigParser` is strict by default and refuses such a file with `DuplicateSectionError` when it is read at line 66; that error is not modelled. Two sections from different files, or two different headers such as `gcode_macro G28` and `gcode_macro G28 x`, can still define the same name.
- The corrected reload `Reconcile.ReloadOwned` is proved only to keep host commands. It is not connected to `Registry.DynamicMacros.UpdateMacros`, which follows the code as written.
- Object identity is not modelled. `DynamicMacro` is a value, so two macros with equal fields are the same macro.
- Tokens.Upper: covers ASCII letters only. Python's `str.upper()` also maps other alphabets, and can lengthen a string (for example `ß` becomes `SS`).
- Registry.DynamicMacros.constructor: covers `__init__` only up to its final reload. `Registry.LoadConfig` performs that reload, so the two together are `DynamicMacros(config)`.
- Reconcile.LoadStatus: "completes exactly when every section is well formed" holds for the model's overwriting `register_command` only. Under the real host, a clashing registration at line 30 also ends the reload with an exception.
- Macros.SectionMacro: a Python exception becomes an `Err` value. Where the source would propagate it to the host, `Registry.DynamicMacros.UpdateMacros` and `CmdDynamicMacro` return `Raised` instead. The state reached so far is kept, as in Python.
- A template that runs `DYNAMIC_MACRO` again, recursively, is not modelled. The model keeps a template run as an entry in a log.

## Findings

| source | as written | input that shows it | evidently intended | confidence | as-written member | corrected member |
|---|---|---|---|---|---|---|
| dynamicmacros.py:29-33 | the first reload leaves a host command named like a macro in place (line 29), but the macro is tracked, so the next reload unregisters that name (lines 61-62, 33), deleting the host's command, and installs the macro instead (line 30) | a host whose own `G28` exists, with a file holding `[gcode_macro G28]`, reloaded twice | every reload leaves the host's own command alone: the first loop unregisters only the commands the registry installed, and registration tests the upper-cased token it registers (`Reconcile.ReloadOwned`); as written, the state reaches a fixed point only from the second reload on (`Reconcile.ReloadSettles`) | medium, not executed | Reconcile.BuiltinReplacedOnSecondReload | Reconcile.ReloadOwnedKeepsBuiltin |
