/**
 * The registry's state as a value, and the reconciliation the class
 * `DynamicMacros` performs on it (dynamicmacros.py:27-36, 60-72), as pure
 * functions. The methods of `Registry.DynamicMacros` are proved to change
 * their state exactly as these functions say; the lemmas here state what
 * the functions guarantee.
 */
module Reconcile {
  import opened Wrappers
  import opened Tokens
  import opened Macros
  import opened Gcode

  /** `self.macros` with the host's two command tables. */
  datatype Registry = Registry(macros: map<string, DynamicMacro>,
                               ready: map<string, Handler>,
                               base: map<string, Handler>)

  /** How a scan ends: normally, or with the exception of one section. */
  datatype Status = Completed | Raised(error: ScanError)

  /** Every tracked macro is filed under its own name (lines 28 and 71 keep this). */
  predicate NamesMatchKeys(macros: map<string, DynamicMacro>) {
    forall k :: k in macros ==> macros[k].name == k
  }

  /** `register_command(cmd, h)` on the two tables. */
  function SetCommand(r: Registry, cmd: string, h: Option<Handler>): (q: Registry) {
    match h
    case None => r.(ready := r.ready - {cmd}, base := r.base - {cmd})
    case Some(x) => r.(ready := r.ready[cmd := x])
  }

  /** The test of line 29: the name AS WRITTEN names no command in either table. */
  predicate CommandFree(r: Registry, name: string) {
    name !in r.ready && name !in r.base
  }

  /** `register_macro` (lines 27-30). */
  function RegisterMacro(r: Registry, m: DynamicMacro): (q: Registry) {
    var tracked := r.(macros := r.macros[m.name := m]);
    if CommandFree(r, m.name) then SetCommand(tracked, Upper(m.name), Some(MacroCommand(m)))
    else tracked
  }

  /**
   * `unregister_macro` (lines 32-36). Line 34 asks whether the macro OBJECT
   * is a key of a dictionary keyed by strings, which never holds, so the map
   * is left as it is and only the command slot is cleared.
   */
  function UnregisterMacro(r: Registry, m: DynamicMacro): (q: Registry) {
    SetCommand(r, Upper(m.name), None)
  }

  /** The command tokens of a set of macros. */
  function Commands(ms: set<DynamicMacro>): (cmds: set<string>) {
    set m | m in ms :: Upper(m.name)
  }

  /** One more macro adds its own command token. */
  lemma CommandsAdd(ms: set<DynamicMacro>, m: DynamicMacro)
    ensures Commands(ms + {m}) == Commands(ms) + {Upper(m.name)}
  {
  }

  /** The command tokens of the tracked macros. */
  function TrackedCommands(r: Registry): (cmds: set<string>) {
    Commands(r.macros.Values)
  }

  /** The first loop of `_update_macros` (lines 61-62): every tracked macro unregistered. */
  function ClearTracked(r: Registry): (q: Registry) {
    r.(ready := r.ready - TrackedCommands(r), base := r.base - TrackedCommands(r))
  }

  /** The body of the scan loop for one section (lines 68-72). */
  function Step(r: Registry, s: Section): (out: (Registry, Status)) {
    match SectionMacro(s)
    case Err(e) => (r, Raised(e))
    case Ok(None) => (r, Completed)
    case Ok(Some(m)) =>
      // line 71 files the macro, then `register_macro` files it again
      (RegisterMacro(r.(macros := r.macros[m.name := m]), m), Completed)
  }

  /** The scan loop over the sections in order; an exception ends it where it is raised. */
  function Load(r: Registry, sections: seq<Section>): (out: (Registry, Status))
    decreases |sections|
  {
    if sections == [] then (r, Completed)
    else
      var (p, st) := Load(r, sections[..|sections| - 1]);
      if st.Raised? then (p, st) else Step(p, sections[|sections| - 1])
  }

  /** `_update_macros` over the current contents of the configured files. */
  function Reload(r: Registry, files: seq<ConfigFile>): (out: (Registry, Status)) {
    Load(ClearTracked(r), Flatten(files))
  }

  /** Reference definition: each defined name with the macro of its last definition. */
  function Found(sections: seq<Section>): (found: map<string, DynamicMacro>)
    decreases |sections|
  {
    if sections == [] then map[]
    else
      var f := Found(sections[..|sections| - 1]);
      match SectionMacro(sections[|sections| - 1])
      case Ok(Some(m)) => f[m.name := m]
      case _ => f
  }

  /** Section `i` is a well-formed macro section and defines a macro named `n`. */
  predicate DefinesAt(sections: seq<Section>, i: int, n: string) {
    0 <= i < |sections| && SectionMacro(sections[i]).Ok? && SectionMacro(sections[i]).value.Some?
    && SectionMacro(sections[i]).value.value.name == n
  }

  /** Some section defines a macro named `n`. */
  predicate Defined(sections: seq<Section>, n: string) {
    exists i :: 0 <= i < |sections| && DefinesAt(sections, i, n)
  }

  /** Some section installed handler `h` under command `c` while scanning. */
  predicate InstalledBy(sections: seq<Section>, c: string, h: Handler) {
    exists i :: 0 <= i < |sections| && SectionMacro(sections[i]).Ok? && SectionMacro(sections[i]).value.Some?
      && c == Upper(SectionMacro(sections[i]).value.value.name)
      && h == MacroCommand(SectionMacro(sections[i]).value.value)
  }

  // ----- the scan loop -----

  /** `Found` only gains names as sections are added. */
  lemma {:induction false} FoundGrows(sections: seq<Section>, k: nat)
    requires k <= |sections|
    ensures Found(sections[..k]).Keys <= Found(sections).Keys
    decreases |sections| - k
  {
    if k < |sections| {
      var init := sections[..|sections| - 1];
      assert sections[..k] == init[..k];
      FoundGrows(init, k);
    } else {
      assert sections[..k] == sections;
    }
  }

  /** A completed scan files exactly the macros `Found` names over the old map. */
  lemma {:induction false} LoadMacros(r: Registry, sections: seq<Section>)
    ensures Load(r, sections).1.Completed? ==> Load(r, sections).0.macros == r.macros + Found(sections)
    decreases |sections|
  {
    if sections != [] {
      var init := sections[..|sections| - 1];
      LoadMacros(r, init);
      var (p, st) := Load(r, init);
      var s := sections[|sections| - 1];
      if st.Completed? {
        StepMacros(p, s);
        if SectionMacro(s).Ok? && SectionMacro(s).value.Some? {
          var m := SectionMacro(s).value.value;
          assert Found(sections) == Found(init)[m.name := m];
          OverrideUpdate(r.macros, Found(init), m.name, m);
        }
      }
    }
  }

  /** Updating an override is overriding with the update. */
  lemma OverrideUpdate<K, V>(a: map<K, V>, b: map<K, V>, k: K, v: V)
    ensures (a + b)[k := v] == a + b[k := v]
  {
  }

  /** One section files its macro, if it defines one, and nothing else. */
  lemma StepMacros(p: Registry, s: Section)
    ensures SectionMacro(s).Ok? && SectionMacro(s).value.Some? ==>
      Step(p, s).0.macros == p.macros[SectionMacro(s).value.value.name := SectionMacro(s).value.value]
    ensures !(SectionMacro(s).Ok? && SectionMacro(s).value.Some?) ==> Step(p, s).0.macros == p.macros
  {
  }

  /** Whatever its outcome, a scan keeps every old key, and the value of every name no section defines. */
  lemma {:induction false} LoadKeepsMacros(r: Registry, sections: seq<Section>)
    ensures r.macros.Keys <= Load(r, sections).0.macros.Keys
    ensures forall k :: k in r.macros && k !in Found(sections) ==> Load(r, sections).0.macros[k] == r.macros[k]
    decreases |sections|
  {
    if sections != [] {
      var init := sections[..|sections| - 1];
      LoadKeepsMacros(r, init);
      FoundGrows(sections, |sections| - 1);
    }
  }

  /** A scan registers commands but never touches the base table. */
  lemma {:induction false} LoadKeepsBase(r: Registry, sections: seq<Section>)
    ensures Load(r, sections).0.base == r.base
    decreases |sections|
  {
    if sections != [] {
      LoadKeepsBase(r, sections[..|sections| - 1]);
    }
  }

  /**
   * A scan completes exactly when every section is well formed; otherwise it
   * raises the error of the first malformed section.
   */
  lemma {:induction false} LoadStatus(r: Registry, sections: seq<Section>)
    ensures Load(r, sections).1.Completed? <==> forall i :: 0 <= i < |sections| ==> SectionMacro(sections[i]).Ok?
    ensures Load(r, sections).1.Raised? ==>
      exists i :: 0 <= i < |sections| && SectionMacro(sections[i]) == Err(Load(r, sections).1.error)
        && forall j :: 0 <= j < i ==> SectionMacro(sections[j]).Ok?
    decreases |sections|
  {
    if sections != [] {
      var last := |sections| - 1;
      var init := sections[..last];
      LoadStatus(r, init);
      assert forall i :: 0 <= i < |init| ==> init[i] == sections[i];
      var (p, st) := Load(r, init);
      if st.Completed? {
        StepStatus(p, sections[last]);
        if SectionMacro(sections[last]).Err? {
          assert SectionMacro(sections[last]) == Err(Load(r, sections).1.error);
        }
      }
    }
  }

  /** One section raises exactly the error of its own scan. */
  lemma StepStatus(p: Registry, s: Section)
    ensures Step(p, s).1.Completed? <==> SectionMacro(s).Ok?
    ensures SectionMacro(s).Err? ==> Step(p, s).1 == Raised(SectionMacro(s).error)
  {
  }

  /** A name is found exactly when some section defines it. */
  lemma {:induction false} FoundIffDefined(sections: seq<Section>, n: string)
    ensures n in Found(sections) <==> Defined(sections, n)
    decreases |sections|
  {
    if sections != [] {
      var last := |sections| - 1;
      FoundIffDefined(sections[..last], n);
      DefinedExtends(sections, n);
    }
  }

  /** A non-empty scan defines `n` when its prefix does or its last section does. */
  lemma DefinedExtends(sections: seq<Section>, n: string)
    requires sections != []
    ensures Defined(sections, n) <==> Defined(sections[..|sections| - 1], n) || DefinesAt(sections, |sections| - 1, n)
  {
    var init := sections[..|sections| - 1];
    forall i | 0 <= i < |init| ensures DefinesAt(init, i, n) <==> DefinesAt(sections, i, n) {
      assert init[i] == sections[i];
    }
  }

  /** Section `i` defines `n` and no later section redefines it. */
  predicate LastDefinitionAt(sections: seq<Section>, i: int, n: string) {
    DefinesAt(sections, i, n) && forall j :: i < j < |sections| ==> !DefinesAt(sections, j, n)
  }

  /** The last definition in a prefix stays the last one when the next section does not redefine it. */
  lemma LastDefinitionExtends(sections: seq<Section>, i: int, n: string)
    requires sections != [] && LastDefinitionAt(sections[..|sections| - 1], i, n)
    requires !DefinesAt(sections, |sections| - 1, n)
    ensures LastDefinitionAt(sections, i, n) && sections[i] == sections[..|sections| - 1][i]
  {
    var init := sections[..|sections| - 1];
    forall j | i <= j < |init| ensures DefinesAt(init, j, n) <==> DefinesAt(sections, j, n) {
      assert init[j] == sections[j];
    }
  }

  /**
   * `Found` keeps the last definition: a found name maps to the macro of a
   * defining section that no later section redefines.
   */
  lemma {:induction false} FoundIsLastDefinition(sections: seq<Section>, n: string)
    requires n in Found(sections)
    ensures exists i :: LastDefinitionAt(sections, i, n) && SectionMacro(sections[i]).value.value == Found(sections)[n]
    decreases |sections|
  {
    var last := |sections| - 1;
    var init := sections[..last];
    if DefinesAt(sections, last, n) {
      assert LastDefinitionAt(sections, last, n);
      assert SectionMacro(sections[last]).value.value == Found(sections)[n];
    } else {
      assert n in Found(init) && Found(sections)[n] == Found(init)[n];
      FoundIsLastDefinition(init, n);
      var i :| LastDefinitionAt(init, i, n) && SectionMacro(init[i]).value.value == Found(init)[n];
      LastDefinitionExtends(sections, i, n);
    }
  }

  /**
   * Every command after a scan either was there before with its handler
   * unchanged, or was installed by a macro section of this scan; no command
   * disappears during the scan.
   */
  lemma {:induction false} LoadProvenance(r: Registry, sections: seq<Section>)
    ensures r.ready.Keys <= Load(r, sections).0.ready.Keys
    ensures forall c :: c in Load(r, sections).0.ready ==>
      (c in r.ready && Load(r, sections).0.ready[c] == r.ready[c])
      || InstalledBy(sections, c, Load(r, sections).0.ready[c])
    decreases |sections|
  {
    if sections != [] {
      var last := |sections| - 1;
      var init := sections[..last];
      LoadProvenance(r, init);
      InstalledByExtends(init, sections);
      var (p, st) := Load(r, init);
      if st.Completed? {
        StepProvenance(p, sections[last]);
        if SectionMacro(sections[last]).Ok? && SectionMacro(sections[last]).value.Some? {
          InstalledAt(sections, last);
        }
      }
    }
  }

  /** One section keeps every command and installs at most its own macro's. */
  lemma StepProvenance(p: Registry, s: Section)
    ensures p.ready.Keys <= Step(p, s).0.ready.Keys
    ensures forall c :: c in Step(p, s).0.ready ==>
      (c in p.ready && Step(p, s).0.ready[c] == p.ready[c])
      || (SectionMacro(s).Ok? && SectionMacro(s).value.Some?
          && c == Upper(SectionMacro(s).value.value.name)
          && Step(p, s).0.ready[c] == MacroCommand(SectionMacro(s).value.value))
  {
  }

  lemma InstalledAt(sections: seq<Section>, i: nat)
    requires i < |sections| && SectionMacro(sections[i]).Ok? && SectionMacro(sections[i]).value.Some?
    ensures InstalledBy(sections, Upper(SectionMacro(sections[i]).value.value.name),
                        MacroCommand(SectionMacro(sections[i]).value.value))
  {
  }

  lemma InstalledByExtends(init: seq<Section>, sections: seq<Section>)
    requires init <= sections
    ensures forall c, h :: InstalledBy(init, c, h) ==> InstalledBy(sections, c, h)
  {
    forall c, h | InstalledBy(init, c, h) ensures InstalledBy(sections, c, h) {
      var i :| 0 <= i < |init| && SectionMacro(init[i]).Ok? && SectionMacro(init[i]).value.Some?
        && c == Upper(SectionMacro(init[i]).value.value.name)
        && h == MacroCommand(SectionMacro(init[i]).value.value);
      assert init[i] == sections[i];
    }
  }

  /**
   * After a completed scan every defined name has a command under its
   * upper-cased name or under its name as written. The command need not run
   * the macro: line 29 may have left a host command in place.
   */
  lemma {:induction false} LoadRegistersFound(r: Registry, sections: seq<Section>)
    ensures Load(r, sections).1.Completed? ==>
      forall n :: n in Found(sections) ==>
        var l := Load(r, sections).0;
        Upper(n) in l.ready || n in l.ready || n in l.base
    decreases |sections|
  {
    if sections != [] {
      var last := |sections| - 1;
      var init := sections[..last];
      LoadRegistersFound(r, init);
    }
  }

  /** Scanning one more section is one more step, unless the scan has already raised. */
  lemma LoadSnoc(r: Registry, sections: seq<Section>, i: nat)
    requires i < |sections|
    ensures Load(r, sections[..i + 1])
         == if Load(r, sections[..i]).1.Raised? then Load(r, sections[..i])
            else Step(Load(r, sections[..i]).0, sections[i])
  {
    assert sections[..i + 1][..i] == sections[..i];
  }

  /** Scanning `a + b` is scanning `a`, then, unless that raised, scanning `b` from where it ended. */
  lemma {:induction false} LoadAppend(r: Registry, a: seq<Section>, b: seq<Section>)
    ensures Load(r, a + b) == if Load(r, a).1.Raised? then Load(r, a) else Load(Load(r, a).0, b)
    decreases |b|
  {
    if b == [] {
      assert a + b == a;
    } else {
      var init := b[..|b| - 1];
      assert (a + b)[..|a + b| - 1] == a + init;
      LoadAppend(r, a, init);
    }
  }

  /** The scan files every macro under its own name. */
  lemma {:induction false} LoadKeepsNamesMatchKeys(r: Registry, sections: seq<Section>)
    requires NamesMatchKeys(r.macros)
    ensures NamesMatchKeys(Load(r, sections).0.macros)
    decreases |sections|
  {
    if sections != [] {
      LoadKeepsNamesMatchKeys(r, sections[..|sections| - 1]);
    }
  }

  // ----- `_update_macros` as a whole -----

  /**
   * After a completed reload the map is the old map overridden by the last
   * definition of every name the files define.
   */
  lemma ReloadMacros(r: Registry, files: seq<ConfigFile>)
    requires Reload(r, files).1.Completed?
    ensures Reload(r, files).0.macros == r.macros + Found(Flatten(files))
    ensures forall n :: n in Found(Flatten(files)) ==>
      exists i :: LastDefinitionAt(Flatten(files), i, n)
                  && Reload(r, files).0.macros[n] == SectionMacro(Flatten(files)[i]).value.value
  {
    LoadMacros(ClearTracked(r), Flatten(files));
    forall n | n in Found(Flatten(files))
      ensures exists i :: LastDefinitionAt(Flatten(files), i, n)
                          && Reload(r, files).0.macros[n] == SectionMacro(Flatten(files)[i]).value.value
    {
      FoundIsLastDefinition(Flatten(files), n);
    }
  }

  /**
   * Whatever its outcome, a reload removes no name from the map, and a name
   * no file defines keeps its old macro.
   */
  lemma ReloadNeverShrinks(r: Registry, files: seq<ConfigFile>)
    ensures r.macros.Keys <= Reload(r, files).0.macros.Keys
    ensures forall k :: k in r.macros && !Defined(Flatten(files), k) ==>
      Reload(r, files).0.macros[k] == r.macros[k]
  {
    var sections := Flatten(files);
    LoadKeepsMacros(ClearTracked(r), sections);
    forall k | k in r.macros && !Defined(sections, k)
      ensures Reload(r, files).0.macros[k] == r.macros[k]
    {
      FoundIffDefined(sections, k);
    }
  }

  /** A reload leaves the base table without the commands of the macros tracked before it. */
  lemma ReloadBase(r: Registry, files: seq<ConfigFile>)
    ensures Reload(r, files).0.base == r.base - TrackedCommands(r)
  {
    LoadKeepsBase(ClearTracked(r), Flatten(files));
  }

  /**
   * No stale command survives a reload: every command afterwards was there
   * before and belongs to no macro tracked before, or was installed by a
   * macro section the files hold now.
   */
  lemma ReloadNoStaleCommand(r: Registry, files: seq<ConfigFile>)
    ensures forall c :: c in Reload(r, files).0.ready ==>
      (c !in TrackedCommands(r) && c in r.ready && Reload(r, files).0.ready[c] == r.ready[c])
      || InstalledBy(Flatten(files), c, Reload(r, files).0.ready[c])
    ensures forall c :: c in TrackedCommands(r) ==> c !in Reload(r, files).0.base
  {
    LoadProvenance(ClearTracked(r), Flatten(files));
    ReloadBase(r, files);
  }

  /**
   * After a completed reload every name the files define has a command
   * under its upper-cased name or under its name as written. The command is
   * not necessarily one that runs the macro: it may be a host command that
   * line 29 left in place, or the command of another definition.
   */
  lemma ReloadRegistersFound(r: Registry, files: seq<ConfigFile>)
    requires Reload(r, files).1.Completed?
    ensures forall n :: Defined(Flatten(files), n) ==>
      var l := Reload(r, files).0;
      Upper(n) in l.ready || n in l.ready || n in l.base
  {
    LoadRegistersFound(ClearTracked(r), Flatten(files));
    forall n | Defined(Flatten(files), n) ensures n in Found(Flatten(files)) {
      FoundIffDefined(Flatten(files), n);
    }
  }

  /** A reload keeps every macro filed under its own name. */
  lemma ReloadKeepsNamesMatchKeys(r: Registry, files: seq<ConfigFile>)
    requires NamesMatchKeys(r.macros)
    ensures NamesMatchKeys(Reload(r, files).0.macros)
  {
    LoadKeepsNamesMatchKeys(ClearTracked(r), Flatten(files));
  }

  /** Reloading the same files twice completes again and leaves the same map. */
  lemma ReloadTwiceSameMacros(r: Registry, files: seq<ConfigFile>)
    requires Reload(r, files).1.Completed?
    ensures Reload(Reload(r, files).0, files).1.Completed?
    ensures Reload(Reload(r, files).0, files).0.macros == Reload(r, files).0.macros
  {
    var once := Reload(r, files).0;
    LoadStatus(ClearTracked(r), Flatten(files));
    LoadStatus(ClearTracked(once), Flatten(files));
    ReloadMacros(r, files);
    ReloadMacros(once, files);
  }

  /** A completed scan splits at section `i`: the scan before it, its own step, the scan after it. */
  lemma LoadAround(c: Registry, sections: seq<Section>, i: nat, pre: seq<Section>, post: seq<Section>)
    requires Load(c, sections).1.Completed?
    requires i < |sections| && pre == sections[..i] && post == sections[i + 1..]
    ensures Load(c, pre).1.Completed? && Step(Load(c, pre).0, sections[i]).1.Completed?
    ensures Load(c, sections) == Load(Step(Load(c, pre).0, sections[i]).0, post)
  {
    var s := sections[i];
    assert sections == pre + ([s] + post);
    LoadAppendCompleted(c, pre, [s] + post);
    var p := Load(c, pre).0;
    LoadAppendCompleted(p, [s], post);
    assert [s][..0] == [];
  }

  /** A completed scan of `a + b` is a completed scan of `a`, then the scan of `b` from where it ended. */
  lemma LoadAppendCompleted(c: Registry, a: seq<Section>, b: seq<Section>)
    requires Load(c, a + b).1.Completed?
    ensures Load(c, a).1.Completed? && Load(c, a + b) == Load(Load(c, a).0, b)
  {
    LoadAppend(c, a, b);
  }

  /** Names whose command tokens differ from that of `name` never upper-case to `name` itself. */
  lemma UpperTokensDiffer(sections: seq<Section>, name: string)
    requires forall j :: 0 <= j < |sections| && SectionMacro(sections[j]).Ok? && SectionMacro(sections[j]).value.Some?
               ==> Upper(SectionMacro(sections[j]).value.value.name) != Upper(name)
    ensures forall j :: 0 <= j < |sections| && SectionMacro(sections[j]).Ok? && SectionMacro(sections[j]).value.Some?
              ==> Upper(SectionMacro(sections[j]).value.value.name) != name
  {
    forall j | 0 <= j < |sections| && SectionMacro(sections[j]).Ok? && SectionMacro(sections[j]).value.Some?
      ensures Upper(SectionMacro(sections[j]).value.value.name) != name
    {
      UpperIdempotent(SectionMacro(sections[j]).value.value.name);
    }
  }

  /** The sections before `i` inherit a property of every section other than `i`. */
  lemma TokensBefore(sections: seq<Section>, i: nat, pre: seq<Section>, token: string)
    requires i < |sections| && pre == sections[..i]
    requires forall j :: 0 <= j < |sections| && j != i && SectionMacro(sections[j]).Ok? && SectionMacro(sections[j]).value.Some?
               ==> Upper(SectionMacro(sections[j]).value.value.name) != token
    ensures forall j :: 0 <= j < |pre| && SectionMacro(pre[j]).Ok? && SectionMacro(pre[j]).value.Some?
              ==> Upper(SectionMacro(pre[j]).value.value.name) != token
  {
    forall j | 0 <= j < |pre| ensures pre[j] == sections[j] {
    }
  }

  /** The sections after `i` inherit a property of every section other than `i`. */
  lemma TokensAfter(sections: seq<Section>, i: nat, post: seq<Section>, token: string)
    requires i < |sections| && post == sections[i + 1..]
    requires forall j :: 0 <= j < |sections| && j != i && SectionMacro(sections[j]).Ok? && SectionMacro(sections[j]).value.Some?
               ==> Upper(SectionMacro(sections[j]).value.value.name) != token
    ensures forall j :: 0 <= j < |post| && SectionMacro(post[j]).Ok? && SectionMacro(post[j]).value.Some?
              ==> Upper(SectionMacro(post[j]).value.value.name) != token
  {
    forall j | 0 <= j < |post| ensures post[j] == sections[i + 1 + j] {
    }
  }

  /**
   * Redefinition replaces behaviour: when section `i` of the files defines
   * `m`, no other section defines a name with the same command token, and
   * `m`'s name as written names no command once the tracked commands are
   * cleared, a completed reload files `m` and installs the command that runs
   * it, whatever the name held before.
   */
  lemma RedefinitionReplaces(r: Registry, files: seq<ConfigFile>, i: nat, m: DynamicMacro)
    requires Reload(r, files).1.Completed?
    requires i < |Flatten(files)| && SectionMacro(Flatten(files)[i]) == Ok(Some(m))
    requires forall j :: 0 <= j < |Flatten(files)| && j != i
               && SectionMacro(Flatten(files)[j]).Ok? && SectionMacro(Flatten(files)[j]).value.Some?
               ==> Upper(SectionMacro(Flatten(files)[j]).value.value.name) != Upper(m.name)
    requires CommandFree(ClearTracked(r), m.name)
    ensures m.name in Reload(r, files).0.macros && Reload(r, files).0.macros[m.name] == m
    ensures Upper(m.name) in Reload(r, files).0.ready && Reload(r, files).0.ready[Upper(m.name)] == MacroCommand(m)
  {
    var sections, c := Flatten(files), ClearTracked(r);
    var pre, post := sections[..i], sections[i + 1..];
    var p := Load(c, pre).0;
    var q := Step(p, sections[i]).0;
    assert Reload(r, files) == Load(q, post) by {
      LoadAround(c, sections, i, pre, post);
    }
    assert CommandFree(p, m.name) by {
      TokensBefore(sections, i, pre, Upper(m.name));
      UpperTokensDiffer(pre, m.name);
      LoadLeavesFree(c, pre, m.name);
    }
    StepInstalls(p, sections[i], m);
    TokensAfter(sections, i, post, Upper(m.name));
    LoadKeepsMacroCommand(q, post, m);
  }

  /** A scan none of whose sections installs a command named `name` leaves that name free. */
  lemma LoadLeavesFree(c: Registry, sections: seq<Section>, name: string)
    requires CommandFree(c, name)
    requires forall j :: 0 <= j < |sections| && SectionMacro(sections[j]).Ok? && SectionMacro(sections[j]).value.Some?
               ==> Upper(SectionMacro(sections[j]).value.value.name) != name
    ensures CommandFree(Load(c, sections).0, name)
  {
    LoadProvenance(c, sections);
    LoadKeepsBase(c, sections);
  }

  /** A scan none of whose sections shares `m`'s command token keeps `m` filed and its command. */
  lemma LoadKeepsMacroCommand(q: Registry, sections: seq<Section>, m: DynamicMacro)
    requires m.name in q.macros && q.macros[m.name] == m
    requires Upper(m.name) in q.ready && q.ready[Upper(m.name)] == MacroCommand(m)
    requires forall j :: 0 <= j < |sections| && SectionMacro(sections[j]).Ok? && SectionMacro(sections[j]).value.Some?
               ==> Upper(SectionMacro(sections[j]).value.value.name) != Upper(m.name)
    ensures m.name in Load(q, sections).0.macros && Load(q, sections).0.macros[m.name] == m
    ensures Upper(m.name) in Load(q, sections).0.ready && Load(q, sections).0.ready[Upper(m.name)] == MacroCommand(m)
  {
    LoadProvenance(q, sections);
    FoundIffDefined(sections, m.name);
    LoadKeepsMacros(q, sections);
  }

  /** A macro section whose name is free files the macro and installs its command, as a one-section scan. */
  lemma StepInstalls(p: Registry, s: Section, m: DynamicMacro)
    requires SectionMacro(s) == Ok(Some(m)) && CommandFree(p, m.name)
    ensures Load(p, [s]) == Step(p, s) && Step(p, s).1.Completed?
    ensures m.name in Step(p, s).0.macros && Step(p, s).0.macros[m.name] == m
    ensures Upper(m.name) in Step(p, s).0.ready && Step(p, s).0.ready[Upper(m.name)] == MacroCommand(m)
  {
    assert [s][..0] == [];
  }

  /**
   * The case `RedefinitionReplaces` excludes: two sections define the same
   * upper-case name. The map keeps the second macro (line 71), but the
   * second registration finds the first one's command under the name as
   * written (line 29) and is skipped, so `DYNAMIC_MACRO MACRO=<name>` and
   * the command `<name>` run different definitions.
   */
  lemma DuplicateSplitsDefinitions(r: Registry, s1: Section, s2: Section, m1: DynamicMacro, m2: DynamicMacro)
    requires SectionMacro(s1) == Ok(Some(m1)) && SectionMacro(s2) == Ok(Some(m2))
    requires m1.name == m2.name && Upper(m1.name) == m1.name
    requires CommandFree(ClearTracked(r), m1.name)
    ensures Reload(r, [[s1, s2]]).1.Completed?
    ensures m1.name in Reload(r, [[s1, s2]]).0.macros && Reload(r, [[s1, s2]]).0.macros[m1.name] == m2
    ensures m1.name in Reload(r, [[s1, s2]]).0.ready && Reload(r, [[s1, s2]]).0.ready[m1.name] == MacroCommand(m1)
  {
    assert Flatten([[s1, s2]]) == [s1, s2] by {
      assert [[s1, s2]][..0] == [];
    }
    assert [s1, s2][..1] == [s1];
    assert [s1][..0] == [];
    var c := ClearTracked(r);
    assert Load(c, [s1]) == Step(c, s1);
  }

  /** A section `[gcode_macro G28]` whose body is `body`, for the examples below. */
  function G28Section(body: string): (s: Section) {
    Section(MACRO_KEYWORD + " G28", map[GCODE_OPTION := body])
  }

  /** `G28Section(body)` defines a macro named `G28`, which is its own command token. */
  lemma G28SectionDefines(body: string)
    ensures SectionMacro(G28Section(body)) == Ok(Some(NewMacro("G28", body, DEFAULT_DESCRIPTION)))
    ensures Upper("G28") == "G28"
  {
    G28HeaderSplits();
  }

  /** The header `gcode_macro G28` splits into the keyword and the name. */
  lemma G28HeaderSplits()
    ensures Split(MACRO_KEYWORD + " G28") == [MACRO_KEYWORD, "G28"]
  {
    var words := [MACRO_KEYWORD, "G28"];
    assert IsWord(MACRO_KEYWORD);
    assert IsWord("G28");
    assert Join(words) == MACRO_KEYWORD + " G28";
    SplitJoin(words);
  }

  /**
   * `DuplicateSplitsDefinitions` on two configured files, each holding one
   * `[gcode_macro G28]` section, with bodies `A` then `B`.
   */
  lemma DuplicateG28Example()
    ensures var files := [[G28Section("A")], [G28Section("B")]];
      var after := Reload(Registry(map[], map[], map[]), files).0;
      "G28" in after.macros && after.macros["G28"].raw == "B"
      && "G28" in after.ready && after.ready["G28"] == MacroCommand(NewMacro("G28", "A", DEFAULT_DESCRIPTION))
  {
    var a, b := G28Section("A"), G28Section("B");
    assert Flatten([[a], [b]]) == [a, b] by {
      assert [[a], [b]][..1] == [[a]];
      assert [[a]][..0] == [];
    }
    assert Flatten([[a, b]]) == [a, b] by {
      assert [[a, b]][..0] == [];
    }
    G28SectionDefines("A");
    G28SectionDefines("B");
    DuplicateSplitsDefinitions(Registry(map[], map[], map[]), a, b,
                               NewMacro("G28", "A", DEFAULT_DESCRIPTION), NewMacro("G28", "B", DEFAULT_DESCRIPTION));
  }

  // ----- repeated reloads -----

  /** Every command a completed reload's sections install belongs to a macro tracked afterwards. */
  lemma InstalledIsTracked(r: Registry, files: seq<ConfigFile>)
    requires Reload(r, files).1.Completed?
    ensures forall c, h :: InstalledBy(Flatten(files), c, h) ==> c in TrackedCommands(Reload(r, files).0)
  {
    var sections := Flatten(files);
    var once := Reload(r, files).0;
    ReloadMacros(r, files);
    forall c, h | InstalledBy(sections, c, h) ensures c in TrackedCommands(once) {
      var i :| 0 <= i < |sections| && SectionMacro(sections[i]).Ok? && SectionMacro(sections[i]).value.Some?
        && c == Upper(SectionMacro(sections[i]).value.value.name)
        && h == MacroCommand(SectionMacro(sections[i]).value.value);
      var n := SectionMacro(sections[i]).value.value.name;
      assert DefinesAt(sections, i, n);
      FoundIffDefined(sections, n);
      var j :| LastDefinitionAt(sections, j, n) && once.macros[n] == SectionMacro(sections[j]).value.value;
      assert once.macros[n] in once.macros.Values;
    }
  }

  /**
   * From the second reload on, unchanged files give an unchanged state: the
   * second reload clears exactly what the third does, so both end alike.
   */
  lemma ReloadSettles(r: Registry, files: seq<ConfigFile>)
    requires Reload(r, files).1.Completed?
    ensures var once := Reload(r, files).0;
      Reload(Reload(once, files).0, files) == Reload(once, files)
  {
    var once := Reload(r, files).0;
    var twice := Reload(once, files).0;
    var tracked := TrackedCommands(once);
    ReloadTwiceSameMacros(r, files);
    assert TrackedCommands(twice) == tracked;
    ReloadBase(once, files);
    ReloadNoStaleCommand(once, files);
    InstalledIsTracked(r, files);
    LoadProvenance(ClearTracked(once), Flatten(files));
    assert twice.ready - tracked == once.ready - tracked;
    assert ClearTracked(twice) == ClearTracked(once);
  }

  /**
   * A macro named like a command the host registered itself: the first
   * reload leaves the host's command alone (line 29), but the next reload
   * unregisters every tracked name (lines 61-62, 33), which deletes the
   * host's command, and then installs the macro in its place (line 30).
   */
  lemma BuiltinReplacedByMacro(r: Registry, s: Section, m: DynamicMacro, id: nat)
    requires SectionMacro(s) == Ok(Some(m)) && Upper(m.name) == m.name
    requires r.macros == map[] && m.name in r.ready && r.ready[m.name] == Builtin(id)
    ensures Reload(r, [[s]]).1.Completed?
    ensures m.name in Reload(r, [[s]]).0.ready && Reload(r, [[s]]).0.ready[m.name] == Builtin(id)
    ensures var twice := Reload(Reload(r, [[s]]).0, [[s]]).0;
      m.name in twice.ready && twice.ready[m.name] == MacroCommand(m)
  {
    assert Flatten([[s]]) == [s] by {
      assert [[s]][..0] == [];
    }
    assert [s][..0] == [];
    var once := Reload(r, [[s]]).0;
    assert TrackedCommands(r) == {};
    assert Load(ClearTracked(r), [s]) == Step(ClearTracked(r), s);
    assert once.macros == map[m.name := m];
    assert m.name in once.macros && once.macros[m.name] == m;
    assert m in once.macros.Values;
    assert m.name in TrackedCommands(once);
    assert Load(ClearTracked(once), [s]) == Step(ClearTracked(once), s);
  }

  /** `BuiltinReplacedByMacro` on a host whose own `G28` meets `[gcode_macro G28]`. */
  lemma BuiltinReplacedOnSecondReload()
    ensures var r := Registry(map[], map["G28" := Builtin(28)], map[]);
      var files := [[G28Section("G1 Z10")]];
      var once := Reload(r, files).0;
      var twice := Reload(once, files).0;
      "G28" in once.ready && once.ready["G28"] == Builtin(28)
      && "G28" in twice.ready && twice.ready["G28"] == MacroCommand(NewMacro("G28", "G1 Z10", DEFAULT_DESCRIPTION))
      && twice.ready != once.ready
  {
    G28SectionDefines("G1 Z10");
    BuiltinReplacedByMacro(Registry(map[], map["G28" := Builtin(28)], map[]), G28Section("G1 Z10"),
                           NewMacro("G28", "G1 Z10", DEFAULT_DESCRIPTION), 28);
  }

  // ----- a reload that leaves the host's own commands alone -----

  /** The tracked commands whose ready handler runs a macro: the ones the registry itself installed. */
  function OwnedCommands(r: Registry): (cmds: set<string>)
    ensures cmds <= TrackedCommands(r)
    ensures forall c :: c in cmds ==> c in r.ready && r.ready[c].MacroCommand?
  {
    set c | c in TrackedCommands(r) && c in r.ready && r.ready[c].MacroCommand?
  }

  /** The first loop of `_update_macros`, unregistering only the commands the registry owns. */
  function ClearOwned(r: Registry): (q: Registry) {
    r.(ready := r.ready - OwnedCommands(r))
  }

  /** `register_macro` testing the command token it registers rather than the name as written. */
  function RegisterOwned(r: Registry, m: DynamicMacro): (q: Registry) {
    var tracked := r.(macros := r.macros[m.name := m]);
    if CommandFree(r, Upper(m.name)) then SetCommand(tracked, Upper(m.name), Some(MacroCommand(m)))
    else tracked
  }

  /**
   * The scan loop's body with `RegisterOwned`. It repeats `Step` on purpose
   * rather than sharing a version parameterised by the registration: `Step`
   * and `Load` stay the code's own definitions, which every lemma about the
   * code unfolds as they are.
   */
  function StepOwned(r: Registry, s: Section): (out: (Registry, Status)) {
    match SectionMacro(s)
    case Err(e) => (r, Raised(e))
    case Ok(None) => (r, Completed)
    case Ok(Some(m)) => (RegisterOwned(r.(macros := r.macros[m.name := m]), m), Completed)
  }

  /** The scan loop with `StepOwned`, repeating `Load` for the same reason. */
  function LoadOwned(r: Registry, sections: seq<Section>): (out: (Registry, Status))
    decreases |sections|
  {
    if sections == [] then (r, Completed)
    else
      var (p, st) := LoadOwned(r, sections[..|sections| - 1]);
      if st.Raised? then (p, st) else StepOwned(p, sections[|sections| - 1])
  }

  /** `_update_macros` as evidently intended: clear the owned commands, then scan with `StepOwned`. */
  function ReloadOwned(r: Registry, files: seq<ConfigFile>): (out: (Registry, Status)) {
    LoadOwned(ClearOwned(r), Flatten(files))
  }

  /** A scan with `StepOwned` never replaces a host command and never touches the base table. */
  lemma {:induction false} LoadOwnedKeepsBuiltin(r: Registry, sections: seq<Section>, c: string, id: nat)
    requires c in r.ready && r.ready[c] == Builtin(id)
    ensures c in LoadOwned(r, sections).0.ready && LoadOwned(r, sections).0.ready[c] == Builtin(id)
    ensures LoadOwned(r, sections).0.base == r.base
    decreases |sections|
  {
    if sections != [] {
      LoadOwnedKeepsBuiltin(r, sections[..|sections| - 1], c, id);
    }
  }

  /**
   * The corrected reload keeps every host command, whatever the files define
   * and however often it runs: a `Builtin` handler is never owned, so
   * `ClearOwned` keeps it, and `RegisterOwned` never overwrites a command.
   */
  lemma ReloadOwnedKeepsBuiltin(r: Registry, files: seq<ConfigFile>, c: string, id: nat)
    requires c in r.ready && r.ready[c] == Builtin(id)
    ensures c in ReloadOwned(r, files).0.ready && ReloadOwned(r, files).0.ready[c] == Builtin(id)
    ensures ReloadOwned(r, files).0.base == r.base
  {
    assert c !in OwnedCommands(r);
    LoadOwnedKeepsBuiltin(ClearOwned(r), Flatten(files), c, id);
  }

  /** The host's `G28` with `[gcode_macro G28]`, under the corrected reload: two reloads keep it. */
  lemma BuiltinKeptByReloadOwned()
    ensures var r := Registry(map[], map["G28" := Builtin(28)], map[]);
      var files := [[G28Section("G1 Z10")]];
      var twice := ReloadOwned(ReloadOwned(r, files).0, files).0;
      "G28" in twice.ready && twice.ready["G28"] == Builtin(28)
  {
    var r := Registry(map[], map["G28" := Builtin(28)], map[]);
    var files := [[G28Section("G1 Z10")]];
    ReloadOwnedKeepsBuiltin(r, files, "G28", 28);
    ReloadOwnedKeepsBuiltin(ReloadOwned(r, files).0, files, "G28", 28);
  }

  /**
   * The placeholder is never installed as a command by a reload, unless a
   * section defines a macro equal to it or a command already ran it.
   */
  lemma PlaceholderNeverInstalled(r: Registry, files: seq<ConfigFile>)
    requires forall c :: c in r.ready ==> r.ready[c] != MacroCommand(Placeholder())
    requires forall i :: 0 <= i < |Flatten(files)| ==> SectionMacro(Flatten(files)[i]) != Ok(Some(Placeholder()))
    ensures forall c :: c in Reload(r, files).0.ready ==> Reload(r, files).0.ready[c] != MacroCommand(Placeholder())
  {
    ReloadNoStaleCommand(r, files);
  }
}