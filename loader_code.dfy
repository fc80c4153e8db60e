/**
 * `getAddonsLoaderCode`: the text of the generated module that imports every
 * addon's default loader (and its extras under counter-suffixed aliases) and
 * exports `load`, a left fold of those loaders over the configuration.
 */
module LoaderCode {
  import opened Wrappers
  import opened Strings
  import opened AddonEntries
  import opened PackageNames
  import opened AliasAllocation

  /** What one import line of the generated module binds. */
  datatype AddonImport = AddonImport(defaultName: string, package: string, bindings: seq<ExtraBinding>)

  /** `nameOf` applied to each addon's specifier, with one fallback supplied per addon. */
  function MapNames(nameOf: (string, FallbackName) -> string, specs: seq<AddonSpec>, fallbacks: seq<FallbackName>)
    : (r: seq<string>)
    requires |fallbacks| == |specs|
    ensures |r| == |specs|
  {
    if specs == [] then []
    else
      var n := |specs| - 1;
      MapNames(nameOf, specs[..n], fallbacks[..n]) + [nameOf(specs[n].package, fallbacks[n])]
  }

  lemma {:induction false} MapNamesAt(nameOf: (string, FallbackName) -> string, specs: seq<AddonSpec>,
                                      fallbacks: seq<FallbackName>, i: nat)
    requires |fallbacks| == |specs| && i < |specs|
    ensures MapNames(nameOf, specs, fallbacks)[i] == nameOf(specs[i].package, fallbacks[i])
  {
    var n := |specs| - 1;
    if i < n {
      MapNamesAt(nameOf, specs[..n], fallbacks[..n], i);
    }
  }

  /** The identifier derived for each addon by `nameFromPackage`. */
  function DerivedNames(specs: seq<AddonSpec>, fallbacks: seq<FallbackName>): (r: seq<string>)
    requires |fallbacks| == |specs|
    ensures |r| == |specs|
  {
    MapNames(NameFromPackage, specs, fallbacks)
  }

  /** Name `i` is derived from addon `i`'s own specifier and fallback. */
  lemma DerivedNamesAt(specs: seq<AddonSpec>, fallbacks: seq<FallbackName>, i: nat)
    requires |fallbacks| == |specs| && i < |specs|
    ensures DerivedNames(specs, fallbacks)[i] == NameFromPackage(specs[i].package, fallbacks[i])
  {
    MapNamesAt(NameFromPackage, specs, fallbacks, i);
  }

  lemma MapNamesSnoc(nameOf: (string, FallbackName) -> string, specs: seq<AddonSpec>, spec: AddonSpec,
                     fallbacks: seq<FallbackName>, fallback: FallbackName)
    requires |fallbacks| == |specs|
    ensures MapNames(nameOf, specs + [spec], fallbacks + [fallback])
            == MapNames(nameOf, specs, fallbacks) + [nameOf(spec.package, fallback)]
  {
    assert (specs + [spec])[..|specs|] == specs;
    assert (fallbacks + [fallback])[..|specs|] == fallbacks;
  }

  /** The imports, in entry order: each addon's identifier and its aliased extras. */
  function Plan(specs: seq<AddonSpec>, names: seq<string>): (r: seq<AddonImport>)
    requires |names| == |specs|
    ensures |r| == |specs|
  {
    if specs == [] then []
    else
      var n := |specs| - 1;
      Plan(specs[..n], names[..n])
        + [AddonImport(names[n], specs[n].package, BindExtras(specs[n].extras, |AllExtras(specs[..n])|))]
  }

  /** Import `i` is addon `i`'s, its aliases counted from the number of extras before it. */
  lemma {:induction false} PlanAt(specs: seq<AddonSpec>, names: seq<string>, i: nat)
    requires |names| == |specs| && i < |specs|
    ensures Plan(specs, names)[i]
            == AddonImport(names[i], specs[i].package, BindExtras(specs[i].extras, |AllExtras(specs[..i])|))
  {
    var n := |specs| - 1;
    if i < n {
      PlanAt(specs[..n], names[..n], i);
      assert specs[..n][..i] == specs[..i];
    }
  }

  /** Import `i` binds the name derived for addon `i` and exactly the aliases allocated to it. */
  lemma PlanUsesAllocation(specs: seq<AddonSpec>, fallbacks: seq<FallbackName>, i: nat)
    requires |fallbacks| == |specs| && i < |specs|
    ensures Plan(specs, DerivedNames(specs, fallbacks))[i]
            == AddonImport(NameFromPackage(specs[i].package, fallbacks[i]), specs[i].package, Allocate(specs)[i])
  {
    PlanAt(specs, DerivedNames(specs, fallbacks), i);
    DerivedNamesAt(specs, fallbacks, i);
    AllocateAt(specs, i);
  }

  /** Appending an addon appends its import, with the counter at the number of extras so far. */
  lemma PlanSnoc(specs: seq<AddonSpec>, spec: AddonSpec, names: seq<string>, name: string)
    requires |names| == |specs|
    ensures Plan(specs + [spec], names + [name])
            == Plan(specs, names) + [AddonImport(name, spec.package, BindExtras(spec.extras, |AllExtras(specs)|))]
    ensures AllExtras(specs + [spec]) == AllExtras(specs) + spec.extras
  {
    assert (specs + [spec])[..|specs|] == specs;
    assert (names + [name])[..|specs|] == names;
  }

  const Header := "/*\nThis file is autogenerated. Don't change it directly.\nInstead, change the \"addons\" setting in your package.json file.\n*/\n\n"

  function BindingText(b: ExtraBinding): string
  {
    b.exportName + " as " + b.alias
  }

  /** `, { e as a, ... }`, or nothing for an addon without extras. */
  function NamedImports(bindings: seq<ExtraBinding>): string
  {
    if bindings == [] then ""
    else ", { " + Join(seq(|bindings|, j requires 0 <= j < |bindings| => BindingText(bindings[j])), ", ") + " }"
  }

  function ImportLine(a: AddonImport): string
  {
    "import " + a.defaultName + NamedImports(a.bindings) + " from '" + a.package + "';"
  }

  function ImportBlock(plan: seq<AddonImport>): string
  {
    if plan == [] then "" else ImportBlock(plan[..|plan| - 1]) + ImportLine(plan[|plan| - 1]) + "\n"
  }

  function Aliases(bindings: seq<ExtraBinding>): seq<string>
  {
    seq(|bindings|, j requires 0 <= j < |bindings| => bindings[j].alias)
  }

  /** The elements of the `addonLoaders` array: per addon its default identifier, then its aliases. */
  function LoaderEntries(plan: seq<AddonImport>): seq<string>
  {
    if plan == [] then []
    else
      var last := plan[|plan| - 1];
      LoaderEntries(plan[..|plan| - 1]) + [last.defaultName] + Aliases(last.bindings)
  }

  function LoadFunction(loaders: seq<string>): string
  {
    "\nconst load = (config) => {\n  const addonLoaders = [" + Join(loaders, ", ")
      + "];\n  return addonLoaders.reduce((acc, apply) => apply(acc), config);\n};\nexport default load;\n"
  }

  /** The file: the header comment, the import lines, then `load` over the loader array. */
  function ModuleSource(imports: string, loaders: seq<string>): string
  {
    Header + imports + LoadFunction(loaders)
  }

  /** The generated module for the raw entries, with one fallback supplied per entry.
      It is produced exactly when the entries parse, and otherwise fails with their error. */
  function AddonsLoaderCode(entries: seq<string>, fallbacks: seq<FallbackName>): (r: Result<string, ParseError>)
    requires |fallbacks| == |entries|
    ensures r.Success? <==> ParseEntries(entries).Success?
    ensures r.Failure? ==> r.error == ParseEntries(entries).error
  {
    GeneratedCodeFollowsParse(NameFromPackage, entries, fallbacks);
    GeneratedCode(NameFromPackage, entries, fallbacks)
  }

  /** The same generation with the naming of the default imports left as a parameter. */
  function GeneratedCode(nameOf: (string, FallbackName) -> string, entries: seq<string>,
                         fallbacks: seq<FallbackName>): Result<string, ParseError>
    requires |fallbacks| == |entries|
  {
    match GeneratedParts(nameOf, entries, fallbacks)
    case Failure(e) => Failure(e)
    case Success(m) => Success(ModuleSource(m.imports, m.loaders))
  }

  /** Whatever the naming, the code is produced exactly when the entries parse, and
      otherwise fails with their error. */
  lemma GeneratedCodeFollowsParse(nameOf: (string, FallbackName) -> string, entries: seq<string>,
                                  fallbacks: seq<FallbackName>)
    requires |fallbacks| == |entries|
    ensures GeneratedCode(nameOf, entries, fallbacks).Success? <==> ParseEntries(entries).Success?
    ensures GeneratedCode(nameOf, entries, fallbacks).Failure? ==>
              GeneratedCode(nameOf, entries, fallbacks).error == ParseEntries(entries).error
  {
  }

  /** The two variable parts of the module: the import block and the loader array. */
  datatype ModuleParts = ModuleParts(imports: string, loaders: seq<string>)

  function GeneratedParts(nameOf: (string, FallbackName) -> string, entries: seq<string>,
                          fallbacks: seq<FallbackName>): (r: Result<ModuleParts, ParseError>)
    requires |fallbacks| == |entries|
    ensures r.Success? <==> ParseEntries(entries).Success?
    ensures r.Failure? ==> r.error == ParseEntries(entries).error
  {
    match ParseEntries(entries)
    case Failure(e) => Failure(e)
    case Success(specs) =>
      var plan := Plan(specs, MapNames(nameOf, specs, fallbacks));
      Success(ModuleParts(ImportBlock(plan), LoaderEntries(plan)))
  }

  /** Generation succeeds exactly when every entry parses; otherwise it reports the first
      entry that does not. */
  lemma {:induction false} GenerationSucceedsIffEveryEntryParses(entries: seq<string>, fallbacks: seq<FallbackName>)
    requires |fallbacks| == |entries|
    ensures AddonsLoaderCode(entries, fallbacks).Success?
            <==> forall i :: 0 <= i < |entries| ==> ParseEntry(entries[i]).Success?
    ensures AddonsLoaderCode(entries, fallbacks).Failure? ==>
              exists i :: FirstFailure(entries, i, AddonsLoaderCode(entries, fallbacks).error)
  {
    ParseEntriesOutcome(entries);
    if ParseEntries(entries).Failure? {
      var i :| FirstFailure(entries, i, ParseEntries(entries).error);
    }
  }

  /** Once the entries parse, the text is the import block and the loader array of the plan. */
  lemma GeneratedFromParsed(entries: seq<string>, fallbacks: seq<FallbackName>, specs: seq<AddonSpec>)
    requires |fallbacks| == |entries| && ParseEntries(entries) == Success(specs)
    ensures |specs| == |entries|
    ensures var plan := Plan(specs, DerivedNames(specs, fallbacks));
            AddonsLoaderCode(entries, fallbacks) == Success(ModuleSource(ImportBlock(plan), LoaderEntries(plan)))
  {
    var plan := Plan(specs, DerivedNames(specs, fallbacks));
    assert GeneratedParts(NameFromPackage, entries, fallbacks) == Success(ModuleParts(ImportBlock(plan), LoaderEntries(plan)));
  }

  lemma ImportBlockSnoc(plan: seq<AddonImport>, a: AddonImport)
    ensures ImportBlock(plan + [a]) == ImportBlock(plan) + ImportLine(a) + "\n"
  {
    assert (plan + [a])[..|plan|] == plan;
  }

  lemma LoaderEntriesSnoc(plan: seq<AddonImport>, a: AddonImport)
    ensures LoaderEntries(plan + [a]) == LoaderEntries(plan) + [a.defaultName] + Aliases(a.bindings)
  {
    assert (plan + [a])[..|plan|] == plan;
  }

  lemma PrefixSnoc<T>(s: seq<T>, i: nat)
    requires i < |s|
    ensures s[..i] + [s[i]] == s[..i + 1]
  {
  }

  /** Names every extra after itself and the running counter, which it advances once per extra. */
  method BindAliases(extras: seq<string>, counter: nat) returns (bindings: seq<ExtraBinding>, next: nat)
    ensures bindings == BindExtras(extras, counter)
    ensures next == counter + |extras|
  {
    bindings := [];
    next := counter;
    var j := 0;
    while j < |extras|
      invariant 0 <= j <= |extras|
      invariant next == counter + j
      invariant bindings == BindExtras(extras[..j], counter)
    {
      var e := extras[j];
      assert extras[..j + 1][..j] == extras[..j];
      bindings := bindings + [ExtraBinding(e, e + NatToString(next))];
      next := next + 1;
      j := j + 1;
    }
    assert extras[..j] == extras;
  }

  /** The generator: one pass over the entries that appends an import line and the
      loader-array elements of each addon, with one alias counter for the whole call; the
      header and the `load` function then frame what was collected. */
  method GetAddonsLoaderCode(entries: seq<string>, fallbacks: seq<FallbackName>)
    returns (r: Result<string, ParseError>)
    requires |fallbacks| == |entries|
    ensures r == AddonsLoaderCode(entries, fallbacks)
  {
    var parts := GenerateParts(NameFromPackage, entries, fallbacks);
    match parts
    case Failure(e) => r := Failure(e);
    case Success(m) => r := Success(ModuleSource(m.imports, m.loaders));
  }

  /** The generator's loop, for any naming of the default imports. */
  method GenerateParts(nameOf: (string, FallbackName) -> string, entries: seq<string>, fallbacks: seq<FallbackName>)
    returns (r: Result<ModuleParts, ParseError>)
    requires |fallbacks| == |entries|
    ensures r == GeneratedParts(nameOf, entries, fallbacks)
  {
    var imports := "";
    var loaders: seq<string> := [];
    var counter: nat := 0;
    ghost var specs: seq<AddonSpec> := [];
    ghost var names: seq<string> := [];
    var i := 0;
    while i < |entries|
      invariant 0 <= i <= |entries|
      invariant ParseEntries(entries[..i]) == Success(specs)
      invariant counter == |AllExtras(specs)|
      invariant names == MapNames(nameOf, specs, fallbacks[..i])
      invariant imports == ImportBlock(Plan(specs, names))
      invariant loaders == LoaderEntries(Plan(specs, names))
    {
      var parsed := ParseEntry(entries[i]);
      if parsed.Failure? {
        GenerationStopsAt(nameOf, entries, fallbacks, i, specs, parsed.error);
        return Failure(parsed.error);
      }
      var spec := parsed.value;
      var name := nameOf(spec.package, fallbacks[i]);
      var bindings;
      bindings, counter := BindAliases(spec.extras, counter);
      GenerationStep(nameOf, entries, fallbacks, i, specs, names, imports, loaders, spec, bindings);
      imports := imports + ImportLine(AddonImport(name, spec.package, bindings)) + "\n";
      loaders := loaders + [name] + Aliases(bindings);
      specs := specs + [spec];
      names := names + [name];
      i := i + 1;
    }
    GenerationEnds(nameOf, entries, fallbacks, specs, names, imports, loaders);
    return Success(ModuleParts(imports, loaders));
  }

  /** An entry that does not parse ends the generation with its error. */
  lemma GenerationStopsAt(nameOf: (string, FallbackName) -> string, entries: seq<string>,
                          fallbacks: seq<FallbackName>, i: nat, specs: seq<AddonSpec>, e: ParseError)
    requires |fallbacks| == |entries|
    requires i < |entries| && ParseEntries(entries[..i]) == Success(specs) && ParseEntry(entries[i]) == Failure(e)
    ensures GeneratedParts(nameOf, entries, fallbacks) == Failure(e)
  {
    ParseEntriesOutcome(entries[..i]);
    assert forall j :: 0 <= j < i ==> entries[..i][j] == entries[j];
    ParseEntriesFails(entries, i);
  }

  /** Once every entry is consumed, the text built so far is the module. */
  lemma GenerationEnds(nameOf: (string, FallbackName) -> string, entries: seq<string>,
                       fallbacks: seq<FallbackName>, specs: seq<AddonSpec>,
                       names: seq<string>, imports: string, loaders: seq<string>)
    requires |fallbacks| == |entries|
    requires ParseEntries(entries[..|entries|]) == Success(specs)
    requires names == MapNames(nameOf, specs, fallbacks[..|entries|])
    requires imports == ImportBlock(Plan(specs, names)) && loaders == LoaderEntries(Plan(specs, names))
    ensures GeneratedParts(nameOf, entries, fallbacks) == Success(ModuleParts(imports, loaders))
  {
    var plan := Plan(specs, names);
    calc {
      GeneratedParts(nameOf, entries, fallbacks);
      == { assert ParseEntries(entries) == Success(specs) by { assert entries[..|entries|] == entries; } }
      Success(ModuleParts(ImportBlock(Plan(specs, MapNames(nameOf, specs, fallbacks))),
                          LoaderEntries(Plan(specs, MapNames(nameOf, specs, fallbacks)))));
      == { assert MapNames(nameOf, specs, fallbacks) == names by { assert fallbacks[..|entries|] == fallbacks; } }
      Success(ModuleParts(ImportBlock(plan), LoaderEntries(plan)));
    }
  }

  /** One pass of the generator's loop: the parsed addon, its name and its bindings extend
      the import block and the loader array by exactly that addon's import. */
  lemma GenerationStep(nameOf: (string, FallbackName) -> string, entries: seq<string>,
                       fallbacks: seq<FallbackName>, i: nat, specs: seq<AddonSpec>,
                       names: seq<string>, imports: string, loaders: seq<string>,
                       spec: AddonSpec, bindings: seq<ExtraBinding>)
    requires |fallbacks| == |entries| && i < |entries|
    requires ParseEntries(entries[..i]) == Success(specs) && ParseEntry(entries[i]) == Success(spec)
    requires names == MapNames(nameOf, specs, fallbacks[..i])
    requires imports == ImportBlock(Plan(specs, names)) && loaders == LoaderEntries(Plan(specs, names))
    requires bindings == BindExtras(spec.extras, |AllExtras(specs)|)
    ensures var name := nameOf(spec.package, fallbacks[i]);
            var plan := Plan(specs + [spec], names + [name]);
            && ParseEntries(entries[..i + 1]) == Success(specs + [spec])
            && |AllExtras(specs + [spec])| == |AllExtras(specs)| + |spec.extras|
            && names + [name] == MapNames(nameOf, specs + [spec], fallbacks[..i + 1])
            && imports + ImportLine(AddonImport(name, spec.package, bindings)) + "\n" == ImportBlock(plan)
            && loaders + [name] + Aliases(bindings) == LoaderEntries(plan)
  {
    var name := nameOf(spec.package, fallbacks[i]);
    var imp := AddonImport(name, spec.package, bindings);
    ParseEntriesSnoc(entries[..i], entries[i]);
    PrefixSnoc(entries, i);
    MapNamesSnoc(nameOf, specs, spec, fallbacks[..i], fallbacks[i]);
    PrefixSnoc(fallbacks, i);
    PlanSnoc(specs, spec, names, name);
    ImportBlockSnoc(Plan(specs, names), imp);
    LoaderEntriesSnoc(Plan(specs, names), imp);
  }

  // ----- what the generated text holds -----

  function Lines(plan: seq<AddonImport>): seq<string>
  {
    seq(|plan|, i requires 0 <= i < |plan| => ImportLine(plan[i]))
  }

  lemma {:induction false} ImportBlockIsTerminated(plan: seq<AddonImport>)
    ensures ImportBlock(plan) == Terminated(Lines(plan), '\n')
  {
    if plan != [] {
      var n := |plan| - 1;
      ImportBlockIsTerminated(plan[..n]);
      assert Lines(plan)[..n] == Lines(plan[..n]);
    }
  }

  /** The import block is one line per addon, in entry order, each ended by a newline. */
  lemma ImportBlockLines(plan: seq<AddonImport>, rest: string)
    requires forall i :: 0 <= i < |plan| ==> '\n' !in ImportLine(plan[i])
    ensures Split(ImportBlock(plan) + rest, '\n') == Lines(plan) + Split(rest, '\n')
  {
    ImportBlockIsTerminated(plan);
    SplitTerminated(Lines(plan), '\n', rest);
  }

  function BindingsOf(plan: seq<AddonImport>): seq<seq<ExtraBinding>>
  {
    seq(|plan|, i requires 0 <= i < |plan| => plan[i].bindings)
  }

  /** Read addon after addon, the named imports alias the k-th extra overall with suffix k. */
  lemma PlanFollowsGlobalCounter(specs: seq<AddonSpec>, names: seq<string>)
    requires |names| == |specs|
    ensures Flatten(BindingsOf(Plan(specs, names))) == BindExtras(AllExtras(specs), 0)
  {
    var b, a := BindingsOf(Plan(specs, names)), Allocate(specs);
    forall i | 0 <= i < |specs| ensures b[i] == a[i] {
      PlanAt(specs, names, i);
      AllocateAt(specs, i);
    }
    assert b == a;
    GlobalCounter(specs);
  }

  lemma {:induction false} LoaderEntriesAppend(p: seq<AddonImport>, q: seq<AddonImport>)
    ensures LoaderEntries(p + q) == LoaderEntries(p) + LoaderEntries(q)
  {
    if q == [] {
      assert p + q == p;
    } else {
      var n := |q| - 1;
      var init, a := q[..n], q[n];
      var tail := [a.defaultName] + Aliases(a.bindings);
      assert q == init + [a];
      assert p + q == (p + init) + [a];
      calc {
        LoaderEntries(p + q);
        == { LoaderEntriesSnoc(p + init, a); }
        LoaderEntries(p + init) + [a.defaultName] + Aliases(a.bindings);
        == { LoaderEntriesAppend(p, init); }
        LoaderEntries(p) + LoaderEntries(init) + [a.defaultName] + Aliases(a.bindings);
        == { assert LoaderEntries(p) + LoaderEntries(init) + [a.defaultName] + Aliases(a.bindings)
                    == LoaderEntries(p) + (LoaderEntries(init) + [a.defaultName] + Aliases(a.bindings)); }
        LoaderEntries(p) + (LoaderEntries(init) + [a.defaultName] + Aliases(a.bindings));
        == { LoaderEntriesSnoc(init, a); }
        LoaderEntries(p) + LoaderEntries(q);
      }
    }
  }

  /** The loader array holds one default loader per addon and one alias per extra. */
  lemma {:induction false} LoaderEntriesCount(specs: seq<AddonSpec>, names: seq<string>)
    requires |names| == |specs|
    ensures |LoaderEntries(Plan(specs, names))| == |specs| + |AllExtras(specs)|
  {
    if specs != [] {
      var n := |specs| - 1;
      var pre := Plan(specs[..n], names[..n]);
      var a := AddonImport(names[n], specs[n].package, BindExtras(specs[n].extras, |AllExtras(specs[..n])|));
      assert Plan(specs, names) == pre + [a];
      calc {
        |LoaderEntries(Plan(specs, names))|;
        == { LoaderEntriesSnoc(pre, a); }
        |LoaderEntries(pre)| + 1 + |Aliases(a.bindings)|;
        == { LoaderEntriesCount(specs[..n], names[..n]); }
        n + |AllExtras(specs[..n])| + 1 + |specs[n].extras|;
        == { assert AllExtras(specs) == AllExtras(specs[..n]) + specs[n].extras; }
        |specs| + |AllExtras(specs)|;
      }
    }
  }

  // ----- the generated text for small addon lists -----

  /** Without addons the module only folds nothing over the configuration. */
  lemma NoAddonsText()
    ensures AddonsLoaderCode([], []) == Success(
      "/*\nThis file is autogenerated. Don't change it directly.\nInstead, change the \"addons\" setting in your package.json file.\n*/\n\n"
      + "\nconst load = (config) => {\n  const addonLoaders = [" + "];\n  return addonLoaders.reduce((acc, apply) => apply(acc), config);\n};\nexport default load;\n")
  {
    calc {
      AddonsLoaderCode([], []);
      == { NoAddonsParts(); }
      Success(ModuleSource("", []));
      == { EmptyModuleSource(); }
      Success("/*\nThis file is autogenerated. Don't change it directly.\nInstead, change the \"addons\" setting in your package.json file.\n*/\n\n"
        + "\nconst load = (config) => {\n  const addonLoaders = [" + "];\n  return addonLoaders.reduce((acc, apply) => apply(acc), config);\n};\nexport default load;\n");
    }
  }

  lemma NoAddonsParts()
    ensures GeneratedParts(NameFromPackage, [], []) == Success(ModuleParts("", []))
  {
    var none: seq<AddonSpec> := [];
    assert ParseEntries([]) == Success(none);
    assert MapNames(NameFromPackage, none, []) == [];
  }

  lemma EmptyModuleSource()
    ensures ModuleSource("", []) ==
      "/*\nThis file is autogenerated. Don't change it directly.\nInstead, change the \"addons\" setting in your package.json file.\n*/\n\n"
      + "\nconst load = (config) => {\n  const addonLoaders = [" + "];\n  return addonLoaders.reduce((acc, apply) => apply(acc), config);\n};\nexport default load;\n"
  {
    var a := "\nconst load = (config) => {\n  const addonLoaders = [";
    var b := "];\n  return addonLoaders.reduce((acc, apply) => apply(acc), config);\n};\nexport default load;\n";
    calc {
      ModuleSource("", []);
      == { assert Join([], ", ") == ""; }
      Header + "" + (a + "" + b);
      == { assert Header + "" == Header && a + "" == a; }
      Header + (a + b);
      == { assert Header + (a + b) == Header + a + b; }
      Header + a + b;
    }
  }

  /** The specifiers, each taken as an addon without extras. */
  function Bare(entries: seq<string>): seq<AddonSpec>
  {
    seq(|entries|, i requires 0 <= i < |entries| => AddonSpec(entries[i], []))
  }

  function PlainImportLine(name: string, package: string): string
  {
    "import " + name + " from '" + package + "';"
  }

  /** The default imports of addons without extras, one per addon, in entry order. */
  function PlainLines(entries: seq<string>, names: seq<string>): seq<string>
    requires |names| == |entries|
  {
    seq(|entries|, i requires 0 <= i < |entries| => PlainImportLine(names[i], entries[i]))
  }

  /** Entries without extras give one plain default import line per addon, in entry order,
      and a loader array that is exactly the derived names, in the same order. */
  lemma AddonsWithoutExtras(entries: seq<string>, fallbacks: seq<FallbackName>)
    requires |fallbacks| == |entries|
    requires forall i :: 0 <= i < |entries| ==> entries[i] != "" && ':' !in entries[i]
    ensures var names := DerivedNames(Bare(entries), fallbacks);
            AddonsLoaderCode(entries, fallbacks) == Success(ModuleSource(Terminated(PlainLines(entries, names), '\n'), names))
  {
    var names := DerivedNames(Bare(entries), fallbacks);
    var plan := Plan(Bare(entries), names);
    calc {
      AddonsLoaderCode(entries, fallbacks);
      == { ParseBareEntries(entries);
           GeneratedFromParsed(entries, fallbacks, Bare(entries)); }
      Success(ModuleSource(ImportBlock(plan), LoaderEntries(plan)));
      == { BareImportBlock(entries, names);
           BareLoaderArray(entries, names); }
      Success(ModuleSource(Terminated(PlainLines(entries, names), '\n'), names));
    }
  }

  lemma BareImportBlock(entries: seq<string>, names: seq<string>)
    requires |names| == |entries|
    ensures ImportBlock(Plan(Bare(entries), names)) == Terminated(PlainLines(entries, names), '\n')
  {
    var plan := Plan(Bare(entries), names);
    calc {
      ImportBlock(plan);
      == { ImportBlockIsTerminated(plan); }
      Terminated(Lines(plan), '\n');
      == { BarePlan(entries, names);
           BareLines(plan, entries, names); }
      Terminated(PlainLines(entries, names), '\n');
    }
  }

  lemma BareLoaderArray(entries: seq<string>, names: seq<string>)
    requires |names| == |entries|
    ensures LoaderEntries(Plan(Bare(entries), names)) == names
  {
    BarePlan(entries, names);
    LoaderEntriesOfBare(Plan(Bare(entries), names), names);
  }

  /** The plan of bare entries binds no extras. */
  lemma BarePlan(entries: seq<string>, names: seq<string>)
    requires |names| == |entries|
    ensures forall i :: 0 <= i < |entries| ==> Plan(Bare(entries), names)[i] == AddonImport(names[i], entries[i], [])
  {
    forall i | 0 <= i < |entries|
      ensures Plan(Bare(entries), names)[i] == AddonImport(names[i], entries[i], [])
    {
      PlanAt(Bare(entries), names, i);
    }
  }

  /** An import without extras is the plain default import. */
  lemma PlainImport(a: AddonImport)
    requires a.bindings == []
    ensures ImportLine(a) == PlainImportLine(a.defaultName, a.package)
  {
    assert "import " + a.defaultName + "" == "import " + a.defaultName;
  }

  lemma BareLines(plan: seq<AddonImport>, entries: seq<string>, names: seq<string>)
    requires |plan| == |names| == |entries|
    requires forall i :: 0 <= i < |plan| ==> plan[i] == AddonImport(names[i], entries[i], [])
    ensures Lines(plan) == PlainLines(entries, names)
  {
    forall i | 0 <= i < |plan|
      ensures Lines(plan)[i] == PlainLines(entries, names)[i]
    {
      PlainImport(plan[i]);
    }
  }

  lemma {:induction false} ParseBareEntries(entries: seq<string>)
    requires forall i :: 0 <= i < |entries| ==> entries[i] != "" && ':' !in entries[i]
    ensures ParseEntries(entries) == Success(Bare(entries))
  {
    if entries != [] {
      var n := |entries| - 1;
      ParseBareEntries(entries[..n]);
      assert ParseEntry(entries[n]) == Success(AddonSpec(entries[n], []));
      assert Bare(entries) == Bare(entries[..n]) + [AddonSpec(entries[n], [])];
    }
  }

  /** Without extras the loader array is the default names alone. */
  lemma {:induction false} LoaderEntriesOfBare(plan: seq<AddonImport>, names: seq<string>)
    requires |names| == |plan|
    requires forall i :: 0 <= i < |plan| ==> plan[i].bindings == [] && plan[i].defaultName == names[i]
    ensures LoaderEntries(plan) == names
  {
    if plan != [] {
      var n := |plan| - 1;
      calc {
        LoaderEntries(plan);
        LoaderEntries(plan[..n]) + [plan[n].defaultName] + Aliases(plan[n].bindings);
        == { assert Aliases(plan[n].bindings) == []; }
        LoaderEntries(plan[..n]) + [names[n]];
        == { LoaderEntriesOfBare(plan[..n], names[..n]); }
        names[..n] + [names[n]];
        == { assert names == names[..n] + [names[n]]; }
        names;
      }
    }
  }

  // ----- extras -----

  /** `extra as alias` for each extra, the aliases counted from `k`. */
  function AliasTexts(extras: seq<string>, k: nat): seq<string>
  {
    seq(|extras|, j requires 0 <= j < |extras| => extras[j] + " as " + extras[j] + NatToString(k + j))
  }

  /** An addon with extras imports each of them by name under its own name suffixed with the
      counter, the counter rising by one per extra. */
  lemma ExtrasImportLine(name: string, package: string, extras: seq<string>, k: nat)
    requires extras != []
    ensures ImportLine(AddonImport(name, package, BindExtras(extras, k)))
            == "import " + name + ", { " + Join(AliasTexts(extras, k), ", ") + " }" + " from '" + package + "';"
  {
    var j := Join(AliasTexts(extras, k), ", ");
    var head, tail := "import " + name, " from '" + package + "';";
    calc {
      ImportLine(AddonImport(name, package, BindExtras(extras, k)));
      == { ExtrasNamedImports(extras, k); }
      head + (", { " + j + " }") + tail;
      == { assert head + (", { " + j + " }") == head + ", { " + j + " }"; }
      head + ", { " + j + " }" + tail;
    }
  }

  lemma ExtrasNamedImports(extras: seq<string>, k: nat)
    requires extras != []
    ensures NamedImports(BindExtras(extras, k)) == ", { " + Join(AliasTexts(extras, k), ", ") + " }"
  {
    var bs := BindExtras(extras, k);
    assert seq(|bs|, j requires 0 <= j < |bs| => BindingText(bs[j])) == AliasTexts(extras, k) by {
      forall j | 0 <= j < |bs| ensures BindingText(bs[j]) == AliasTexts(extras, k)[j] {
        BindExtrasAt(extras, k, j);
      }
    }
  }

  /** The loader array lists the aliases of an addon's extras in the order they were named. */
  lemma ExtrasLoaders(extras: seq<string>, k: nat)
    ensures Aliases(BindExtras(extras, k)) == seq(|extras|, j requires 0 <= j < |extras| => extras[j] + NatToString(k + j))
  {
    forall j | 0 <= j < |extras| ensures Aliases(BindExtras(extras, k))[j] == extras[j] + NatToString(k + j) {
      BindExtrasAt(extras, k, j);
    }
  }

  /** Two extras named after the counter `k` and `k + 1`. */
  lemma TwoAliases(e1: string, e2: string, k: nat)
    ensures BindExtras([e1, e2], k) == [ExtraBinding(e1, e1 + NatToString(k)), ExtraBinding(e2, e2 + NatToString(k + 1))]
  {
    BindExtrasAt([e1, e2], k, 0);
    BindExtrasAt([e1, e2], k, 1);
  }

  /** Two addons with two extras each: the counter runs 0, 1 over the first addon's extras
      and carries on with 2, 3 over the second's; the loader array lists each addon's default
      loader followed by its extras. */
  lemma TwoAddonsWithExtras(p1: string, e1: string, e2: string, p2: string, e3: string, e4: string,
                            f1: FallbackName, f2: FallbackName)
    requires WellFormed(AddonSpec(p1, [e1, e2])) && WellFormed(AddonSpec(p2, [e3, e4]))
    ensures var n1, n2 := NameFromPackage(p1, f1), NameFromPackage(p2, f2);
            var l1 := "import " + n1 + ", { " + Join([e1 + " as " + e1 + "0", e2 + " as " + e2 + "1"], ", ") + " }"
                      + " from '" + p1 + "';";
            var l2 := "import " + n2 + ", { " + Join([e3 + " as " + e3 + "2", e4 + " as " + e4 + "3"], ", ") + " }"
                      + " from '" + p2 + "';";
            AddonsLoaderCode([p1 + ":" + e1 + "," + e2, p2 + ":" + e3 + "," + e4], [f1, f2])
            == Success(ModuleSource(l1 + "\n" + l2 + "\n", [n1, e1 + "0", e2 + "1", n2, e3 + "2", e4 + "3"]))
  {
    var s1, s2 := AddonSpec(p1, [e1, e2]), AddonSpec(p2, [e3, e4]);
    var x1, x2 := p1 + ":" + e1 + "," + e2, p2 + ":" + e3 + "," + e4;
    var n1, n2 := NameFromPackage(p1, f1), NameFromPackage(p2, f2);
    TwoEntriesParse(p1, e1, e2, p2, e3, e4);
    TwoAddonsPlan(s1, s2, f1, f2);
    GeneratedFromParsed([x1, x2], [f1, f2], [s1, s2]);
    TwoAddonsImportBlock(n1, p1, e1, e2, n2, p2, e3, e4);
    TwoAddonsLoaderArray(n1, p1, e1, e2, n2, p2, e3, e4);
  }

  /** The derived names are the two identifiers and the counter stands at 2 when the second
      addon's extras are named. */
  lemma TwoAddonsPlan(s1: AddonSpec, s2: AddonSpec, f1: FallbackName, f2: FallbackName)
    requires |s1.extras| == 2
    ensures Plan([s1, s2], DerivedNames([s1, s2], [f1, f2]))
            == [AddonImport(NameFromPackage(s1.package, f1), s1.package, BindExtras(s1.extras, 0)),
                AddonImport(NameFromPackage(s2.package, f2), s2.package, BindExtras(s2.extras, 2))]
  {
    var n1, n2 := NameFromPackage(s1.package, f1), NameFromPackage(s2.package, f2);
    MapNamesOfTwo(NameFromPackage, s1, s2, f1, f2);
    PlanOfTwo(s1, s2, n1, n2);
  }

  lemma MapNamesOfTwo(nameOf: (string, FallbackName) -> string, s1: AddonSpec, s2: AddonSpec,
                      f1: FallbackName, f2: FallbackName)
    ensures MapNames(nameOf, [s1, s2], [f1, f2]) == [nameOf(s1.package, f1), nameOf(s2.package, f2)]
  {
    assert [s1, s2][..1] == [s1] && [f1, f2][..1] == [f1];
    assert [s1][..0] == [] && [f1][..0] == [];
  }

  lemma TwoEntriesParse(p1: string, e1: string, e2: string, p2: string, e3: string, e4: string)
    requires WellFormed(AddonSpec(p1, [e1, e2])) && WellFormed(AddonSpec(p2, [e3, e4]))
    ensures ParseEntries([p1 + ":" + e1 + "," + e2, p2 + ":" + e3 + "," + e4])
            == Success([AddonSpec(p1, [e1, e2]), AddonSpec(p2, [e3, e4])])
  {
    EntryWithTwoExtras(p1, e1, e2);
    EntryWithTwoExtras(p2, e3, e4);
    ParseTwoEntries(p1 + ":" + e1 + "," + e2, p2 + ":" + e3 + "," + e4);
  }

  lemma TwoAddonsImportBlock(n1: string, p1: string, e1: string, e2: string,
                             n2: string, p2: string, e3: string, e4: string)
    ensures ImportBlock([AddonImport(n1, p1, BindExtras([e1, e2], 0)), AddonImport(n2, p2, BindExtras([e3, e4], 2))])
            == "import " + n1 + ", { " + Join([e1 + " as " + e1 + "0", e2 + " as " + e2 + "1"], ", ") + " }" + " from '" + p1 + "';"
               + "\n"
               + ("import " + n2 + ", { " + Join([e3 + " as " + e3 + "2", e4 + " as " + e4 + "3"], ", ") + " }" + " from '" + p2 + "';")
               + "\n"
  {
    var i1 := AddonImport(n1, p1, BindExtras([e1, e2], 0));
    var i2 := AddonImport(n2, p2, BindExtras([e3, e4], 2));
    ImportBlockOfTwo(i1, i2);
    ExtrasImportLine(n1, p1, [e1, e2], 0);
    assert AliasTexts([e1, e2], 0) == [e1 + " as " + e1 + "0", e2 + " as " + e2 + "1"];
    ExtrasImportLine(n2, p2, [e3, e4], 2);
    assert AliasTexts([e3, e4], 2) == [e3 + " as " + e3 + "2", e4 + " as " + e4 + "3"];
  }

  lemma PlanOfTwo(s1: AddonSpec, s2: AddonSpec, n1: string, n2: string)
    ensures Plan([s1, s2], [n1, n2])
            == [AddonImport(n1, s1.package, BindExtras(s1.extras, 0)),
                AddonImport(n2, s2.package, BindExtras(s2.extras, |s1.extras|))]
  {
    assert [s1, s2][..1] == [s1] && [n1, n2][..1] == [n1];
    assert [s1][..0] == [] && [n1][..0] == [];
    assert AllExtras([s1]) == s1.extras by {
      assert [s1][..0] == [];
    }
  }

  lemma ImportBlockOfTwo(i1: AddonImport, i2: AddonImport)
    ensures ImportBlock([i1, i2]) == ImportLine(i1) + "\n" + ImportLine(i2) + "\n"
  {
    assert [i1, i2][..1] == [i1] && [i1][..0] == [];
    assert ImportBlock([i1]) == ImportLine(i1) + "\n" by {
      assert ImportBlock([i1]) == "" + ImportLine(i1) + "\n";
    }
  }

  lemma LoaderEntriesOfTwo(i1: AddonImport, i2: AddonImport)
    ensures LoaderEntries([i1, i2]) == [i1.defaultName] + Aliases(i1.bindings) + [i2.defaultName] + Aliases(i2.bindings)
  {
    assert [i1, i2][..1] == [i1] && [i1][..0] == [];
    assert LoaderEntries([i1]) == [i1.defaultName] + Aliases(i1.bindings) by {
      assert LoaderEntries([i1]) == [] + [i1.defaultName] + Aliases(i1.bindings);
    }
  }

  lemma TwoAddonsLoaderArray(n1: string, p1: string, e1: string, e2: string,
                             n2: string, p2: string, e3: string, e4: string)
    ensures LoaderEntries([AddonImport(n1, p1, BindExtras([e1, e2], 0)), AddonImport(n2, p2, BindExtras([e3, e4], 2))])
            == [n1, e1 + "0", e2 + "1", n2, e3 + "2", e4 + "3"]
  {
    var i1 := AddonImport(n1, p1, BindExtras([e1, e2], 0));
    var i2 := AddonImport(n2, p2, BindExtras([e3, e4], 2));
    LoaderEntriesOfTwo(i1, i2);
    TwoAliases(e1, e2, 0);
    TwoAliases(e3, e4, 2);
    assert Aliases(i1.bindings) == [e1 + "0", e2 + "1"];
    assert Aliases(i2.bindings) == [e3 + "2", e4 + "3"];
  }

  /** `p:e1,e2` parses to the addon `p` with the extras `e1` and `e2`. */
  lemma EntryWithTwoExtras(p: string, e1: string, e2: string)
    requires WellFormed(AddonSpec(p, [e1, e2]))
    ensures ParseEntry(p + ":" + e1 + "," + e2) == Success(AddonSpec(p, [e1, e2]))
  {
    ParseFormatRoundTrip(AddonSpec(p, [e1, e2]));
    assert Join([e1, e2], ",") == e1 + "," + e2 by {
      assert [e1, e2][1..] == [e2];
    }
    assert FormatEntry(AddonSpec(p, [e1, e2])) == p + ":" + e1 + "," + e2;
  }
}
