/**
 * Parsing of the raw addon entries of the `addons` setting: `spec` or
 * `spec:extra1,extra2,...`. The entry is split at its first `:`, the part
 * after it on `,`; an empty package specifier is an error that aborts the
 * whole generation.
 */
module AddonEntries {

  import opened Wrappers
  import opened Strings

  /** One parsed addon: the package specifier and the names of its extra loaders, in order. */
  datatype AddonSpec = AddonSpec(package: string, extras: seq<string>)

  datatype ParseError = EmptyPackageSpecifier(entry: string)

  /** What every parsed addon satisfies, and what `FormatEntry` needs to be undone by parsing. */
  predicate WellFormed(spec: AddonSpec)
  {
    && spec.package != ""
    && ':' !in spec.package
    && forall j :: 0 <= j < |spec.extras| ==> spec.extras[j] != "" && ',' !in spec.extras[j]
  }

  /** The package of `spec` is the part of `entry` before its first colon, or all of
      `entry` when there is none, in which case there are no extras. */
  predicate PackageBeforeFirstColon(entry: string, spec: AddonSpec)
  {
    var n := |spec.package|;
    && n <= |entry| && entry[..n] == spec.package
    && (':' in entry ==> n < |entry| && entry[n] == ':')
    && (':' !in entry ==> spec == AddonSpec(entry, []))
  }

  /** The pieces that are not empty, in order. */
  function DropEmpty(xs: seq<string>): (r: seq<string>)
    ensures forall j :: 0 <= j < |r| ==> r[j] != "" && r[j] in xs
    ensures forall j :: 0 <= j < |xs| && xs[j] != "" ==> xs[j] in r
    ensures (forall j :: 0 <= j < |xs| ==> xs[j] != "") ==> r == xs
  {
    if xs == [] then []
    else
      var n := |xs| - 1;
      var prefix := DropEmpty(xs[..n]);
      var last := xs[n];
      assert xs == xs[..n] + [last];
      assert forall j :: 0 <= j < n ==> xs[..n][j] == xs[j];
      if last == "" then prefix else prefix + [last]
  }

  /** Dropping the empty pieces of two lists run together keeps the order of both:
      the pieces kept from `xs` come first. */
  lemma {:induction false} DropEmptyAppend(xs: seq<string>, ys: seq<string>)
    ensures DropEmpty(xs + ys) == DropEmpty(xs) + DropEmpty(ys)
    decreases |ys|
  {
    if ys == [] {
      assert xs + ys == xs;
    } else {
      var n := |ys| - 1;
      assert (xs + ys)[..|xs + ys| - 1] == xs + ys[..n];
      assert (xs + ys)[|xs + ys| - 1] == ys[n];
      DropEmptyAppend(xs, ys[..n]);
    }
  }

  /** The extras named after the first colon: split on `,`, empty tokens discarded. */
  function ParseExtras(s: string): (r: seq<string>)
    ensures forall j :: 0 <= j < |r| ==> r[j] != "" && ',' !in r[j]
  {
    var pieces := Split(s, ',');
    var r := DropEmpty(pieces);
    SplitPiecesAvoidSeparator(s, ',');
    assert forall j :: 0 <= j < |r| ==> r[j] in pieces;
    r
  }

  /** The extras written as comma-free tokens joined by `,` read back as those tokens,
      in order, without the empty ones. */
  lemma {:induction false} ParseExtrasOfJoin(tokens: seq<string>)
    requires forall j :: 0 <= j < |tokens| ==> ',' !in tokens[j]
    ensures ParseExtras(Join(tokens, ",")) == DropEmpty(tokens)
  {
    if tokens == [] {
      assert Split("", ',') == [""];
    } else {
      SplitJoin(tokens, ',');
    }
  }

  /** Parses one raw addon entry. */
  function ParseEntry(entry: string): (r: Result<AddonSpec, ParseError>)
    ensures r.Failure? <==> entry == "" || entry[0] == ':'
    ensures r.Failure? ==> r.error == EmptyPackageSpecifier(entry)
    ensures r.Success? ==> WellFormed(r.value) && PackageBeforeFirstColon(entry, r.value)
  {
    match IndexOf(entry, ':')
    case None =>
      if entry == "" then Failure(EmptyPackageSpecifier(entry))
      else Success(AddonSpec(entry, []))
    case Some(i) =>
      if i == 0 then Failure(EmptyPackageSpecifier(entry))
      else Success(AddonSpec(entry[..i], ParseExtras(entry[i + 1..])))
  }

  /** The raw entry that names `spec`. */
  function FormatEntry(spec: AddonSpec): string
  {
    if spec.extras == [] then spec.package
    else spec.package + ":" + Join(spec.extras, ",")
  }

  /** Parsing undoes formatting for every well-formed addon. */
  lemma ParseFormatRoundTrip(spec: AddonSpec)
    requires WellFormed(spec)
    ensures ParseEntry(FormatEntry(spec)) == Success(spec)
  {
    if spec.extras != [] {
      var p, j := spec.package, Join(spec.extras, ",");
      var entry := p + ":" + j;
      assert entry == p + [':'] + j;
      IndexOfAfterPrefix(p, ':', j);
      assert entry[..|p|] == p;
      assert entry[|p| + 1..] == j;
      SplitJoin(spec.extras, ',');
    }
  }

  /** Parses every entry; the first entry that fails decides the error. */
  function ParseEntries(entries: seq<string>): (r: Result<seq<AddonSpec>, ParseError>)
    ensures r.Success? ==> |r.value| == |entries|
  {
    if entries == [] then Success([])
    else
      var n := |entries| - 1;
      match ParseEntries(entries[..n])
      case Failure(e) => Failure(e)
      case Success(specs) =>
        match ParseEntry(entries[n])
        case Failure(e) => Failure(e)
        case Success(spec) => Success(specs + [spec])
  }

  /** A successful parse holds each entry's own parse, in order; a failed one reports
      the first entry that does not parse. */
  lemma {:induction false} ParseEntriesOutcome(entries: seq<string>)
    ensures ParseEntries(entries).Success? ==>
              forall i :: 0 <= i < |entries| ==> ParseEntry(entries[i]) == Success(ParseEntries(entries).value[i])
    ensures ParseEntries(entries).Failure? ==> exists i :: FirstFailure(entries, i, ParseEntries(entries).error)
  {
    if entries != [] {
      var n := |entries| - 1;
      var prefix := entries[..n];
      ParseEntriesOutcome(prefix);
      assert forall i :: 0 <= i < n ==> prefix[i] == entries[i];
      match ParseEntries(prefix)
      case Failure(e) =>
        var i :| FirstFailure(prefix, i, e);
        assert FirstFailure(entries, i, e);
      case Success(specs) =>
        match ParseEntry(entries[n])
        case Failure(e) =>
          assert FirstFailure(entries, n, e);
        case Success(spec) =>
      }
  }

  /** Parsing one more entry, when it parses, extends the parsed prefix. */
  lemma ParseEntriesSnoc(entries: seq<string>, entry: string)
    requires ParseEntries(entries).Success? && ParseEntry(entry).Success?
    ensures ParseEntries(entries + [entry]) == Success(ParseEntries(entries).value + [ParseEntry(entry).value])
  {
    assert (entries + [entry])[..|entries|] == entries;
  }

  lemma ParseTwoEntries(x1: string, x2: string)
    requires ParseEntry(x1).Success? && ParseEntry(x2).Success?
    ensures ParseEntries([x1, x2]) == Success([ParseEntry(x1).value, ParseEntry(x2).value])
  {
    var v1, v2 := ParseEntry(x1).value, ParseEntry(x2).value;
    calc {
      ParseEntries([x1]);
      == { assert [x1][..0] == [] && [x1][0] == x1; }
      Success([] + [v1]);
      == { assert [] + [v1] == [v1]; }
      Success([v1]);
    }
    calc {
      ParseEntries([x1, x2]);
      == { assert [x1, x2][..1] == [x1] && [x1, x2][1] == x2; }
      Success([v1] + [v2]);
      == { assert [v1] + [v2] == [v1, v2]; }
      Success([v1, v2]);
    }
  }

  /** Entry `i` is the first one that does not parse, and it fails with `e`. */
  predicate FirstFailure(entries: seq<string>, i: int, e: ParseError)
  {
    && 0 <= i < |entries|
    && ParseEntry(entries[i]) == Failure(e)
    && forall j :: 0 <= j < i ==> ParseEntry(entries[j]).Success?
  }

  /** An entry with an empty package specifier, preceded only by entries that parse,
      makes parsing fail with that entry's error. */
  lemma ParseEntriesFails(entries: seq<string>, i: nat)
    requires i < |entries| && ParseEntry(entries[i]).Failure?
    requires forall j :: 0 <= j < i ==> ParseEntry(entries[j]).Success?
    ensures ParseEntries(entries) == Failure(EmptyPackageSpecifier(entries[i]))
  {
    var r := ParseEntries(entries);
    ParseEntriesOutcome(entries);
    if r.Success? {
      assert false;
    } else {
      var k :| FirstFailure(entries, k, r.error);
      if k != i {
        assert false;
      }
    }
  }
}
