/**
 * `DynamicMacro` and the way macro definitions are read out of configuration
 * sections (dynamicmacros.py:67-72, 74-91). A configuration file is given as
 * the sections the INI parser would yield: a header and its option map.
 */
module Macros {
  import opened Wrappers
  import opened Tokens
  import opened Context

  /**
   * A macro: its name, raw template body, description and persistent
   * variables. The compiled template is determined by `name` and `raw`.
   */
  datatype DynamicMacro = DynamicMacro(name: string, raw: string, desc: string,
                                       variables: map<string, Value>)

  /** One INI section: the text between the brackets and its options. */
  datatype Section = Section(header: string, options: map<string, string>)

  type ConfigFile = seq<Section>

  /** The exceptions a scan can raise, each naming the offending header. */
  datatype ScanError =
    | BlankHeader(header: string)     // `section.split()[0]` on a blank header
    | MissingName(header: string)     // `section.split()[1]` on a one-token header
    | MissingGcode(header: string)    // `config.get(section, 'gcode')` without that option

  const MACRO_KEYWORD: string := "gcode_macro"
  const GCODE_OPTION: string := "gcode"
  const DESCRIPTION_OPTION: string := "description"
  const DEFAULT_DESCRIPTION: string := "No Description"

  /** `DynamicMacro(name, raw, printer, desc='')`: a new macro starts with no variables. */
  function NewMacro(name: string, raw: string, desc: string := ""): (m: DynamicMacro)
    ensures m.name == name && m.raw == raw && m.desc == desc
    ensures m.variables == map[]
  {
    DynamicMacro(name, raw, desc, map[])
  }

  /** The fallback run for unknown names (dynamicmacros.py:17). */
  function Placeholder(): (m: DynamicMacro)
    ensures m.name == "Placeholder" && m.raw == "M117 ERROR" && m.desc == ""
    ensures m.variables == map[]
  {
    NewMacro("Placeholder", "M117 ERROR")
  }

  /**
   * `DynamicMacro.from_section`: the body is the required `gcode` option, the
   * name the header's second token, the description the `description`
   * option or `No Description`. The body is read first, so a section missing
   * both the option and a second token reports the missing option.
   */
  function FromSection(s: Section): (r: Result<DynamicMacro, ScanError>)
    ensures r.Ok? <==> GCODE_OPTION in s.options && |Split(s.header)| >= 2
    ensures GCODE_OPTION !in s.options ==> r == Err(MissingGcode(s.header))
    ensures r.Ok? ==> (r.value.name == Split(s.header)[1]
                       && r.value.raw == s.options[GCODE_OPTION]
                       && r.value.variables == map[])
    ensures r.Ok? && DESCRIPTION_OPTION in s.options ==> r.value.desc == s.options[DESCRIPTION_OPTION]
    ensures r.Ok? && DESCRIPTION_OPTION !in s.options ==> r.value.desc == DEFAULT_DESCRIPTION
  {
    if GCODE_OPTION !in s.options then Err(MissingGcode(s.header))
    else
      var words := Split(s.header);
      if |words| < 2 then Err(MissingName(s.header))
      else
        var desc := if DESCRIPTION_OPTION in s.options then s.options[DESCRIPTION_OPTION]
                    else DEFAULT_DESCRIPTION;
        Ok(NewMacro(words[1], s.options[GCODE_OPTION], desc))
  }

  /**
   * What the scan loop makes of one section (dynamicmacros.py:68-70):
   * `Ok(None)` for a section that is not a macro section, `Ok(Some(m))` for a
   * macro, `Err` where the source raises.
   */
  function SectionMacro(s: Section): (r: Result<Option<DynamicMacro>, ScanError>)
    ensures Split(s.header) == [] ==> r == Err(BlankHeader(s.header))
    ensures Split(s.header) != [] && Split(s.header)[0] != MACRO_KEYWORD ==> r == Ok(None)
    ensures Split(s.header) == [MACRO_KEYWORD] ==> r == Err(MissingName(s.header))
    ensures |Split(s.header)| >= 2 && Split(s.header)[0] == MACRO_KEYWORD && GCODE_OPTION !in s.options ==> r == Err(MissingGcode(s.header))
    ensures r.Ok? && r.value.Some? <==>
              |Split(s.header)| >= 2 && Split(s.header)[0] == MACRO_KEYWORD && GCODE_OPTION in s.options
    ensures r.Ok? && r.value.Some? ==> (Ok(r.value.value) == FromSection(s)
                                        && r.value.value.name == Split(s.header)[1])
  {
    var words := Split(s.header);
    if |words| == 0 then Err(BlankHeader(s.header))
    else if words[0] != MACRO_KEYWORD then Ok(None)
    else if |words| == 1 then Err(MissingName(s.header))
    else
      match FromSection(s)
      case Ok(m) => Ok(Some(m))
      case Err(e) => Err(e)
  }

  /** The sections of all files, file by file, each in its own order. */
  function Flatten(files: seq<ConfigFile>): (sections: seq<Section>)
    ensures files == [] ==> sections == []
  {
    if files == [] then [] else Flatten(files[..|files| - 1]) + files[|files| - 1]
  }

  /** Flattening distributes over concatenation of file lists. */
  lemma {:induction false} FlattenAppend(a: seq<ConfigFile>, b: seq<ConfigFile>)
    ensures Flatten(a + b) == Flatten(a) + Flatten(b)
    decreases |b|
  {
    if b == [] {
      assert a + b == a;
    } else {
      var init := b[..|b| - 1];
      assert (a + b)[..|a + b| - 1] == a + init;
      FlattenAppend(a, init);
    }
  }

  /** Flattening one more file appends its sections. */
  lemma FlattenSnoc(files: seq<ConfigFile>, f: nat)
    requires f < |files|
    ensures Flatten(files[..f + 1]) == Flatten(files[..f]) + files[f]
  {
    var upTo := files[..f + 1];
    assert upTo[..|upTo| - 1] == files[..f];
  }

  /** The sections of a file list are those of a prefix followed by those of the rest. */
  lemma FlattenSplit(files: seq<ConfigFile>, k: nat)
    requires k <= |files|
    ensures Flatten(files) == Flatten(files[..k]) + Flatten(files[k..])
  {
    assert files == files[..k] + files[k..];
    FlattenAppend(files[..k], files[k..]);
  }
}
