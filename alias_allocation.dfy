/**
 * Alias allocation for the extra loaders: every extra `e` is imported as
 * `e` followed by the decimal value of one counter that starts at 0, rises by
 * one per extra, and runs on across addons (addon-major, extras in order).
 */
module AliasAllocation {
  import opened Strings
  import opened AddonEntries

  /** `import { exportName as alias }`. */
  datatype ExtraBinding = ExtraBinding(exportName: string, alias: string)

  function AliasOf(exportName: string, k: nat): string
  {
    exportName + NatToString(k)
  }

  /** The alias is the export name followed by the counter value, which reads back from it. */
  lemma AliasCarriesCounter(exportName: string, k: nat)
    ensures var a := AliasOf(exportName, k);
            |a| > |exportName| && a[..|exportName|] == exportName && IsDigits(a[|exportName|..])
            && DecimalValue(a[|exportName|..]) == k
  {
    var a := AliasOf(exportName, k);
    assert a[|exportName|..] == NatToString(k);
    DecimalRoundTrip(k);
  }

  /** The bindings of `extras` when the counter stands at `k`. */
  function BindExtras(extras: seq<string>, k: nat): (r: seq<ExtraBinding>)
    ensures |r| == |extras|
  {
    if extras == [] then []
    else
      var n := |extras| - 1;
      BindExtras(extras[..n], k) + [ExtraBinding(extras[n], AliasOf(extras[n], k + n))]
  }

  /** The `j`-th extra is bound under its own name suffixed with `k + j`. */
  lemma {:induction false} BindExtrasAt(extras: seq<string>, k: nat, j: nat)
    requires j < |extras|
    ensures BindExtras(extras, k)[j] == ExtraBinding(extras[j], AliasOf(extras[j], k + j))
  {
    var n := |extras| - 1;
    if j < n {
      BindExtrasAt(extras[..n], k, j);
    }
  }

  lemma BindExtrasAppend(xs: seq<string>, ys: seq<string>, k: nat)
    ensures BindExtras(xs + ys, k) == BindExtras(xs, k) + BindExtras(ys, k + |xs|)
  {
    var l, r := BindExtras(xs + ys, k), BindExtras(xs, k) + BindExtras(ys, k + |xs|);
    assert |l| == |r|;
    forall j | 0 <= j < |l| ensures l[j] == r[j] {
      BindExtrasAt(xs + ys, k, j);
      if j >= |xs| {
        assert (xs + ys)[j] == ys[j - |xs|];
        BindExtrasAt(ys, k + |xs|, j - |xs|);
      } else {
        BindExtrasAt(xs, k, j);
      }
    }
  }

  /** Every extra of every addon, addon-major, in order. */
  function AllExtras(specs: seq<AddonSpec>): seq<string>
  {
    if specs == [] then [] else AllExtras(specs[..|specs| - 1]) + specs[|specs| - 1].extras
  }

  /** The bindings of each addon; the counter carries over from one addon to the next. */
  function Allocate(specs: seq<AddonSpec>): (r: seq<seq<ExtraBinding>>)
    ensures |r| == |specs|
  {
    if specs == [] then []
    else
      var n := |specs| - 1;
      Allocate(specs[..n]) + [BindExtras(specs[n].extras, |AllExtras(specs[..n])|)]
  }

  /** Addon `i` numbers its extras from the count of all extras before it. */
  lemma {:induction false} AllocateAt(specs: seq<AddonSpec>, i: nat)
    requires i < |specs|
    ensures Allocate(specs)[i] == BindExtras(specs[i].extras, |AllExtras(specs[..i])|)
  {
    var n := |specs| - 1;
    if i < n {
      AllocateAt(specs[..n], i);
      assert specs[..n][..i] == specs[..i];
    } else {
      assert specs[..i] == specs[..n];
    }
  }

  function Flatten(bss: seq<seq<ExtraBinding>>): seq<ExtraBinding>
  {
    if bss == [] then [] else Flatten(bss[..|bss| - 1]) + bss[|bss| - 1]
  }

  /** Over the whole generation the k-th extra (addon-major) is aliased with suffix k:
      one counter, never reset between addons. */
  lemma {:induction false} GlobalCounter(specs: seq<AddonSpec>)
    ensures Flatten(Allocate(specs)) == BindExtras(AllExtras(specs), 0)
  {
    if specs != [] {
      var n := |specs| - 1;
      GlobalCounter(specs[..n]);
      var r := Allocate(specs);
      assert r[..n] == Allocate(specs[..n]);
      assert r == r[..n] + [r[n]];
      BindExtrasAppend(AllExtras(specs[..n]), specs[n].extras, 0);
    }
  }
}
