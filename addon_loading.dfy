/**
 * The `load` function that the generated module exports:
 *
 *   const load = (config) => addonLoaders.reduce((acc, apply) => apply(acc), config);
 *
 * Every element of `addonLoaders` is an imported binding.  A binding that the
 * addon really exports is a configuration transform; one it does not export is
 * `undefined`, and applying it raises a TypeError.  Configurations are an
 * abstract type `C` and transforms are total functions on it.
 */
module AddonLoading {
  import opened Wrappers
  import opened AddonEntries
  import opened PackageNames
  import opened AliasAllocation
  import opened LoaderCode

  /** An element of the loader array once the imports are resolved. */
  datatype Loader<!C> = Callable(apply: C -> C) | NotCallable(identifier: string)

  /** The TypeError `apply is not a function`. Its message does not name the element;
      the model records the identifier of the element that was not a function. */
  datatype LoadError = TypeError(identifier: string)

  /** What an addon module exports, by export name; the default export is named `default`. */
  type Exports<!C> = map<string, C -> C>

  const DefaultExport := "default"

  /** The left fold of `reduce`: strict, from the first element, stopping at the first
      element that is not a function. When every element is a function it succeeds. */
  function Load<C>(loaders: seq<Loader<C>>, config: C): (r: Result<C, LoadError>)
    ensures AllCallable(loaders) ==> r.Success?
    decreases |loaders|
  {
    if loaders == [] then Success(config)
    else
      match loaders[0]
      case NotCallable(id) => Failure(TypeError(id))
      case Callable(f) =>
        assert forall i :: 0 <= i < |loaders| - 1 ==> loaders[1..][i] == loaders[i + 1];
        Load(loaders[1..], f(config))
  }

  predicate AllCallable<C>(loaders: seq<Loader<C>>)
  {
    forall i :: 0 <= i < |loaders| ==> loaders[i].Callable?
  }

  /** Element `i` is the first one that is not a function. */
  predicate FirstNotCallable<C>(loaders: seq<Loader<C>>, i: int)
  {
    && 0 <= i < |loaders|
    && loaders[i].NotCallable?
    && forall j :: 0 <= j < i ==> loaders[j].Callable?
  }

  /** `load` fails exactly when some element is not a function, and then with the first
      such element. */
  lemma {:induction false} LoadFailsAtFirstNotCallable<C>(loaders: seq<Loader<C>>, config: C)
    ensures Load(loaders, config).Failure? <==> !AllCallable(loaders)
    ensures Load(loaders, config).Failure? ==>
              exists i :: FirstNotCallable(loaders, i)
                          && Load(loaders, config).error == TypeError(loaders[i].identifier)
    decreases |loaders|
  {
    if loaders != [] {
      match loaders[0]
      case NotCallable(id) =>
        assert FirstNotCallable(loaders, 0);
      case Callable(f) =>
        var rest := loaders[1..];
        LoadFailsAtFirstNotCallable(rest, f(config));
        assert AllCallable(loaders) <==> AllCallable(rest) by {
          if AllCallable(rest) {
            forall i | 0 <= i < |loaders| ensures loaders[i].Callable? {
              if i > 0 { assert loaders[i] == rest[i - 1]; }
            }
          }
          if AllCallable(loaders) {
            forall i | 0 <= i < |rest| ensures rest[i].Callable? {
              assert rest[i] == loaders[i + 1];
            }
          }
        }
        if Load(rest, f(config)).Failure? {
          var i :| FirstNotCallable(rest, i) && Load(rest, f(config)).error == TypeError(rest[i].identifier);
          assert loaders[i + 1] == rest[i];
          forall j | 0 <= j < i + 1 ensures loaders[j].Callable? {
            if j > 0 { assert loaders[j] == rest[j - 1]; }
          }
          assert FirstNotCallable(loaders, i + 1);
        }
    }
  }

  /** Loading the concatenation loads the first part, then the second from its result. */
  lemma {:induction false} LoadAppend<C>(p: seq<Loader<C>>, q: seq<Loader<C>>, config: C)
    ensures Load(p + q, config) ==
              match Load(p, config)
              case Success(mid) => Load(q, mid)
              case Failure(e) => Failure(e)
    decreases |p|
  {
    if p == [] {
      assert p + q == q;
    } else {
      assert (p + q)[0] == p[0];
      assert (p + q)[1..] == p[1..] + q;
      match p[0]
      case NotCallable(id) =>
      case Callable(f) =>
        LoadAppend(p[1..], q, f(config));
    }
  }

  /** The transforms of a loader array, for the reference composition below. */
  function Transforms<C>(loaders: seq<Loader<C>>): (fs: seq<C -> C>)
    requires AllCallable(loaders)
    ensures |fs| == |loaders|
  {
    seq(|loaders|, i requires 0 <= i < |loaders| => loaders[i].apply)
  }

  /** Reference meaning of the array: the composition whose outermost function is the last
      transform, `fs[n-1](... fs[1](fs[0](config)))`. */
  function Compose<C>(fs: seq<C -> C>, config: C): C
  {
    if fs == [] then config else fs[|fs| - 1](Compose(fs[..|fs| - 1], config))
  }

  /** When every element is a function, `load(config)` is that composition. */
  lemma {:induction false} LoadIsComposition<C>(loaders: seq<Loader<C>>, config: C)
    requires AllCallable(loaders)
    ensures Load(loaders, config) == Success(Compose(Transforms(loaders), config))
  {
    if loaders != [] {
      var n := |loaders| - 1;
      var init := loaders[..n];
      assert AllCallable(init) by {
        forall i | 0 <= i < n ensures init[i].Callable? {
          assert init[i] == loaders[i];
        }
      }
      LoadIsComposition(init, config);
      assert loaders == init + [loaders[n]];
      LoadAppend(init, [loaders[n]], config);
      assert Transforms(loaders)[..n] == Transforms(init);
    }
  }

  /** Last wins: a final transform that sets the projected setting to `v` decides it,
      whatever the transforms before it did. */
  lemma LastWins<C, K>(before: seq<Loader<C>>, f: C -> C, key: C -> K, v: K, config: C)
    requires AllCallable(before)
    requires forall x :: key(f(x)) == v
    ensures Load(before + [Callable(f)], config).Success?
    ensures key(Load(before + [Callable(f)], config).value) == v
  {
    LoadIsComposition(before, config);
    LoadAppend(before, [Callable(f)], config);
    var mid := Compose(Transforms(before), config);
    calc {
      Load([Callable(f)], mid);
      { assert [Callable(f)][1..] == []; }
      Load([], f(mid));
      Success(f(mid));
    }
    assert key(f(mid)) == v;
  }

  /** Order matters: exchanging the last two transforms, each of which sets the projected
      setting to its own value, exchanges the winner. */
  lemma SwapFlipsWinner<C, K>(before: seq<Loader<C>>, g1: C -> C, g2: C -> C, key: C -> K,
                              v1: K, v2: K, config: C)
    requires AllCallable(before)
    requires forall x :: key(g1(x)) == v1
    requires forall x :: key(g2(x)) == v2
    ensures Load(before + [Callable(g1), Callable(g2)], config).Success?
    ensures key(Load(before + [Callable(g1), Callable(g2)], config).value) == v2
    ensures Load(before + [Callable(g2), Callable(g1)], config).Success?
    ensures key(Load(before + [Callable(g2), Callable(g1)], config).value) == v1
    ensures v1 != v2 ==>
              Load(before + [Callable(g1), Callable(g2)], config) != Load(before + [Callable(g2), Callable(g1)], config)
  {
    var b1, b2 := before + [Callable(g1)], before + [Callable(g2)];
    assert AllCallable(b1) by {
      forall i | 0 <= i < |b1| ensures b1[i].Callable? {
        if i < |before| { assert b1[i] == before[i]; }
      }
    }
    assert AllCallable(b2) by {
      forall i | 0 <= i < |b2| ensures b2[i].Callable? {
        if i < |before| { assert b2[i] == before[i]; }
      }
    }
    assert before + [Callable(g1), Callable(g2)] == b1 + [Callable(g2)];
    assert before + [Callable(g2), Callable(g1)] == b2 + [Callable(g1)];
    LastWins(b1, g2, key, v2, config);
    LastWins(b2, g1, key, v1, config);
  }

  /** An imported binding: the export if the module has it, `undefined` otherwise. */
  function Resolve<C>(exports: Exports<C>, exportName: string, identifier: string): (r: Loader<C>)
    ensures r.Callable? <==> exportName in exports
    ensures r.Callable? ==> r.apply == exports[exportName]
    ensures r.NotCallable? ==> r.identifier == identifier
  {
    if exportName in exports then Callable(exports[exportName]) else NotCallable(identifier)
  }

  function ResolveExtras<C>(bindings: seq<ExtraBinding>, exports: Exports<C>): (r: seq<Loader<C>>)
    ensures |r| == |bindings|
  {
    seq(|bindings|, j requires 0 <= j < |bindings| => Resolve(exports, bindings[j].exportName, bindings[j].alias))
  }

  /** The loader array of a plan, resolved against the addons' modules: per addon its
      default export, then its extras, in the order of the generated `addonLoaders`. */
  function AddonLoaders<C>(plan: seq<AddonImport>, modules: string -> Exports<C>): seq<Loader<C>>
  {
    if plan == [] then []
    else
      var last := plan[|plan| - 1];
      var exports := modules(last.package);
      AddonLoaders(plan[..|plan| - 1], modules)
        + [Resolve(exports, DefaultExport, last.defaultName)] + ResolveExtras(last.bindings, exports)
  }

  /** The module of `a` provides its default export and every extra it names. */
  predicate Provides<C>(exports: Exports<C>, a: AddonImport)
  {
    && DefaultExport in exports
    && forall j :: 0 <= j < |a.bindings| ==> a.bindings[j].exportName in exports
  }

  predicate AllProvided<C>(plan: seq<AddonImport>, modules: string -> Exports<C>)
  {
    forall i :: 0 <= i < |plan| ==> Provides(modules(plan[i].package), plan[i])
  }

  /** Where an element of the loader array comes from: the addon's package and the name it
      imports from it. */
  datatype ExportRef = ExportRef(package: string, exportName: string)

  /** The source of each element of `addonLoaders`, in the order of LoaderEntries: per addon
      its default export, then each extra it binds. */
  function ExportRefs(plan: seq<AddonImport>): seq<ExportRef>
  {
    if plan == [] then []
    else
      var last := plan[|plan| - 1];
      ExportRefs(plan[..|plan| - 1]) + [ExportRef(last.package, DefaultExport)]
        + seq(|last.bindings|, j requires 0 <= j < |last.bindings| => ExportRef(last.package, last.bindings[j].exportName))
  }

  /** The resolved array lines up with the generated `addonLoaders` text: element `k` is the
      binding of identifier `k` of the array, imported from the export that identifier names. */
  lemma {:induction false} AddonLoadersFollowArray<C>(plan: seq<AddonImport>, modules: string -> Exports<C>)
    ensures |AddonLoaders(plan, modules)| == |LoaderEntries(plan)| == |ExportRefs(plan)|
    ensures forall k :: 0 <= k < |LoaderEntries(plan)| ==>
              var ref := ExportRefs(plan)[k];
              AddonLoaders(plan, modules)[k] == Resolve(modules(ref.package), ref.exportName, LoaderEntries(plan)[k])
  {
    if plan != [] {
      var n := |plan| - 1;
      var last := plan[n];
      var exports := modules(last.package);
      AddonLoadersFollowArray(plan[..n], modules);
      var ls, es, rs := AddonLoaders(plan, modules), LoaderEntries(plan), ExportRefs(plan);
      var lp, ep, rp := AddonLoaders(plan[..n], modules), LoaderEntries(plan[..n]), ExportRefs(plan[..n]);
      var extraRefs := seq(|last.bindings|, j requires 0 <= j < |last.bindings| => ExportRef(last.package, last.bindings[j].exportName));
      assert ls == lp + [Resolve(exports, DefaultExport, last.defaultName)] + ResolveExtras(last.bindings, exports);
      assert es == ep + [last.defaultName] + Aliases(last.bindings);
      assert rs == rp + [ExportRef(last.package, DefaultExport)] + extraRefs;
      forall k | 0 <= k < |es| ensures ls[k] == Resolve(modules(rs[k].package), rs[k].exportName, es[k]) {
        if k < |lp| {
          assert ls[k] == lp[k] && es[k] == ep[k] && rs[k] == rp[k];
        } else if k > |lp| {
          var j := k - |lp| - 1;
          assert ls[k] == ResolveExtras(last.bindings, exports)[j];
          assert es[k] == Aliases(last.bindings)[j];
          assert rs[k] == extraRefs[j];
        }
      }
    }
  }

  /** The resolved array of two plans run together is the two resolved arrays run together. */
  lemma {:induction false} AddonLoadersAppend<C>(p: seq<AddonImport>, q: seq<AddonImport>, modules: string -> Exports<C>)
    ensures AddonLoaders(p + q, modules) == AddonLoaders(p, modules) + AddonLoaders(q, modules)
    decreases |q|
  {
    if q == [] {
      assert p + q == p;
    } else {
      var n := |q| - 1;
      assert (p + q)[..|p + q| - 1] == p + q[..n];
      assert (p + q)[|p + q| - 1] == q[n];
      AddonLoadersAppend(p, q[..n], modules);
    }
  }

  /** Some element is not a function exactly when some addon's module lacks an export
      the plan imports from it. */
  lemma {:induction false} NotCallableIffMissingExport<C>(plan: seq<AddonImport>, modules: string -> Exports<C>)
    ensures AllCallable(AddonLoaders(plan, modules)) <==> AllProvided(plan, modules)
  {
    if plan != [] {
      var n := |plan| - 1;
      var last := plan[n];
      var exports := modules(last.package);
      NotCallableIffMissingExport(plan[..n], modules);
      var lp := AddonLoaders(plan[..n], modules);
      var tail := [Resolve(exports, DefaultExport, last.defaultName)] + ResolveExtras(last.bindings, exports);
      var ls := AddonLoaders(plan, modules);
      assert ls == lp + tail;
      AllCallableAppend(lp, tail);
      assert AllCallable(tail) <==> Provides(exports, last) by {
        if AllCallable(tail) {
          forall j | 0 <= j < |last.bindings| ensures last.bindings[j].exportName in exports {
            assert tail[j + 1] == ResolveExtras(last.bindings, exports)[j];
          }
          assert tail[0].Callable?;
        }
        if Provides(exports, last) {
          forall j | 0 <= j < |tail| ensures tail[j].Callable? {
            if j > 0 { assert tail[j] == ResolveExtras(last.bindings, exports)[j - 1]; }
          }
        }
      }
      assert AllProvided(plan, modules) <==> AllProvided(plan[..n], modules) && Provides(exports, last) by {
        if AllProvided(plan[..n], modules) && Provides(exports, last) {
          forall i | 0 <= i < |plan| ensures Provides(modules(plan[i].package), plan[i]) {
            if i < n { assert plan[i] == plan[..n][i]; }
          }
        }
        if AllProvided(plan, modules) {
          forall i | 0 <= i < n ensures Provides(modules(plan[..n][i].package), plan[..n][i]) {
            assert plan[..n][i] == plan[i];
          }
        }
      }
    }
  }

  lemma AllCallableAppend<C>(p: seq<Loader<C>>, q: seq<Loader<C>>)
    ensures AllCallable(p + q) <==> AllCallable(p) && AllCallable(q)
  {
    if AllCallable(p + q) {
      forall i | 0 <= i < |p| ensures p[i].Callable? {
        assert p[i] == (p + q)[i];
      }
      forall i | 0 <= i < |q| ensures q[i].Callable? {
        assert q[i] == (p + q)[|p| + i];
      }
    }
    if AllCallable(p) && AllCallable(q) {
      forall i | 0 <= i < |p + q| ensures (p + q)[i].Callable? {
        if i >= |p| { assert (p + q)[i] == q[i - |p|]; }
      }
    }
  }

  /** Naming an extra that the addon does not export still generates a loader module; only
      calling `load` fails, with a TypeError. */
  lemma MissingExportBreaksOnlyLoad<C>(entries: seq<string>, fallbacks: seq<FallbackName>, specs: seq<AddonSpec>,
                                       modules: string -> Exports<C>, config: C)
    requires |fallbacks| == |entries|
    requires ParseEntries(entries) == Success(specs)
    ensures AddonsLoaderCode(entries, fallbacks).Success?
    ensures var plan := Plan(specs, DerivedNames(specs, fallbacks));
            Load(AddonLoaders(plan, modules), config).Failure? <==> !AllProvided(plan, modules)
  {
    GeneratedFromParsed(entries, fallbacks, specs);
    LoadFailsIffMissingExport(Plan(specs, DerivedNames(specs, fallbacks)), modules, config);
  }

  /** Loading the resolved array of a plan fails exactly when an export is missing. */
  lemma LoadFailsIffMissingExport<C>(plan: seq<AddonImport>, modules: string -> Exports<C>, config: C)
    ensures Load(AddonLoaders(plan, modules), config).Failure? <==> !AllProvided(plan, modules)
  {
    LoadFailsAtFirstNotCallable(AddonLoaders(plan, modules), config);
    NotCallableIffMissingExport(plan, modules);
  }

  /** Within one addon the extras are applied after its default export, in the order they
      were named, so the last extra that sets a setting wins. */
  lemma LastExtraWins<C, K>(name: string, package: string, e1: string, e2: string, k: nat,
                            modules: string -> Exports<C>, key: C -> K, v: K, config: C)
    requires DefaultExport in modules(package) && e1 in modules(package) && e2 in modules(package)
    requires forall x :: key(modules(package)[e2](x)) == v
    ensures var plan := [AddonImport(name, package, BindExtras([e1, e2], k))];
            && Load(AddonLoaders(plan, modules), config).Success?
            && key(Load(AddonLoaders(plan, modules), config).value) == v
  {
    var exports := modules(package);
    var a := AddonImport(name, package, BindExtras([e1, e2], k));
    BindExtrasAt([e1, e2], k, 0);
    BindExtrasAt([e1, e2], k, 1);
    var ls := AddonLoaders([a], modules);
    var before := [Callable(exports[DefaultExport]), Callable(exports[e1])];
    assert [a][..0] == [] && [a][0] == a;
    assert AddonLoaders([a], modules)
           == [] + [Resolve(exports, DefaultExport, name)] + ResolveExtras(a.bindings, exports);
    assert ResolveExtras(a.bindings, exports) == [Callable(exports[e1]), Callable(exports[e2])];
    assert ls == before + [Callable(exports[e2])];
    LastWins(before, exports[e2], key, v, config);
  }

  /** Two addons without extras, each of whose default export fixes a setting to its own
      value: their loaders run in entry order, so the later entry wins, and listing them the
      other way round makes the other one win. */
  lemma TwoAddonsLastWins<C, K>(e1: string, e2: string, n1: string, n2: string,
                                modules: string -> Exports<C>, key: C -> K, v1: K, v2: K, config: C)
    requires DefaultExport in modules(e1) && DefaultExport in modules(e2)
    requires forall x :: key(modules(e1)[DefaultExport](x)) == v1
    requires forall x :: key(modules(e2)[DefaultExport](x)) == v2
    ensures var ls := AddonLoaders(Plan(Bare([e1, e2]), [n1, n2]), modules);
            Load(ls, config).Success? && key(Load(ls, config).value) == v2
    ensures var ls := AddonLoaders(Plan(Bare([e2, e1]), [n2, n1]), modules);
            Load(ls, config).Success? && key(Load(ls, config).value) == v1
  {
    var g1, g2 := modules(e1)[DefaultExport], modules(e2)[DefaultExport];
    TwoBareLoaders(e1, e2, n1, n2, modules);
    TwoBareLoaders(e2, e1, n2, n1, modules);
    SwapFlipsWinner([], g1, g2, key, v1, v2, config);
    assert [] + [Callable(g1), Callable(g2)] == [Callable(g1), Callable(g2)];
    assert [] + [Callable(g2), Callable(g1)] == [Callable(g2), Callable(g1)];
  }

  /** The resolved loader array of two addons without extras: their default exports, in
      entry order. */
  lemma TwoBareLoaders<C>(e1: string, e2: string, n1: string, n2: string, modules: string -> Exports<C>)
    requires DefaultExport in modules(e1) && DefaultExport in modules(e2)
    ensures AddonLoaders(Plan(Bare([e1, e2]), [n1, n2]), modules)
            == [Callable(modules(e1)[DefaultExport]), Callable(modules(e2)[DefaultExport])]
  {
    var plan := Plan(Bare([e1, e2]), [n1, n2]);
    BarePlan([e1, e2], [n1, n2]);
    var a1, a2 := AddonImport(n1, e1, []), AddonImport(n2, e2, []);
    assert plan == [a1, a2];
    assert plan[..1] == [a1] && [a1][..0] == [];
    assert ResolveExtras<C>([], modules(e1)) == [] && ResolveExtras<C>([], modules(e2)) == [];
    assert AddonLoaders([a1], modules) == [Callable(modules(e1)[DefaultExport])];
  }
}
