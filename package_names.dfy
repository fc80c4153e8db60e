/**
 * `nameFromPackage`: the bare identifier the generated module binds an addon's
 * default export to. A leading `@` is dropped, the rest is split on `/`, the
 * navigation segments `""`, `"."`, `".."` and `"~"` are discarded, every other
 * segment loses its `.` characters and is camel-cased on `-`, and the results are
 * concatenated, so that a resolved path such as `.../volto-addon1/index.js` still
 * gives an identifier. When nothing is left, a random ten-letter name over
 * `abcdefghjk` is used instead; that name is supplied by the caller here.
 */
module PackageNames {
  import opened Strings

  const FallbackAlphabet := "abcdefghjk"
  const FallbackLength := 10

  predicate IsFallbackName(s: string)
  {
    |s| == FallbackLength && forall k :: 0 <= k < |s| ==> s[k] in FallbackAlphabet
  }

  /** What the random generator may return. */
  type FallbackName = s: string | IsFallbackName(s) witness "aaaaaaaaaa"

  predicate IsNavigationMarker(seg: string)
  {
    seg == "" || seg == "." || seg == ".." || seg == "~"
  }

  predicate OnlyHyphens(seg: string)
  {
    forall k :: 0 <= k < |seg| ==> seg[k] == '-'
  }

  /** A segment made of `-` and `.` only, such as `--` or `.-.`. */
  predicate OnlyPunctuation(seg: string)
  {
    forall k :: 0 <= k < |seg| ==> seg[k] == '-' || seg[k] == '.'
  }

  /** No segment contributes a character to the derived name. */
  predicate NothingLeft(segs: seq<string>)
  {
    forall i :: 0 <= i < |segs| ==> IsNavigationMarker(segs[i]) || OnlyPunctuation(segs[i])
  }

  /** Drops the scope marker `@` of a scoped package name. */
  function StripScope(spec: string): string
  {
    if |spec| > 0 && spec[0] == '@' then spec[1..] else spec
  }

  /** `volto-something-else` becomes `voltoSomethingElse`: the first word as given,
      every later word with its first letter upper-cased. */
  function CamelCase(seg: string): string
  {
    var words := Split(seg, '-');
    words[0] + ConcatMap(Capitalize, words[1..])
  }

  /** What one path segment contributes: nothing for a navigation marker, otherwise the
      camel-case form of the segment without its dots. */
  function SegmentName(seg: string): string
  {
    if IsNavigationMarker(seg) then "" else CamelCase(Remove(seg, '.'))
  }

  /** The identifier derived from a path without its scope marker. */
  function PathName(path: string): string
  {
    ConcatMap(SegmentName, Split(path, '/'))
  }

  /** The identifier derived from the package specifier, before the fallback. */
  function Candidate(spec: string): string
  {
    PathName(StripScope(spec))
  }

  /** `nameFromPackage`: the derived identifier, or the fallback when nothing is left of it.
      The name is never empty and holds none of the characters `-`, `/` and `.`. */
  function NameFromPackage(spec: string, fallback: FallbackName): (r: string)
    ensures r != ""
    ensures '-' !in r && '/' !in r && '.' !in r
  {
    var c := Candidate(spec);
    PathNameAvoids(StripScope(spec));
    if c == "" then fallback else c
  }

  // ----- the characters an identifier can hold -----

  lemma CapitalizeAvoids(w: string, ch: char)
    requires !('A' <= ch <= 'Z') && ch !in w
    ensures ch !in Capitalize(w)
  {
    if w != [] {
      assert Capitalize(w) == [UpperChar(w[0])] + w[1..];
      assert w == [w[0]] + w[1..];
    }
  }

  lemma CamelCaseAvoids(seg: string, ch: char)
    requires !('A' <= ch <= 'Z')
    requires ch == '-' || ch !in seg
    ensures ch !in CamelCase(seg)
  {
    var words := Split(seg, '-');
    SplitPiecesAvoidSeparator(seg, '-');
    forall i | 0 <= i < |words| ensures ch !in words[i] {
      if ch in words[i] {
        var k :| 0 <= k < |words[i]| && words[i][k] == ch;
        SplitPieceChars(seg, '-', i, k);
      }
    }
    forall i | 0 <= i < |words[1..]| ensures ch !in Capitalize(words[1..][i]) {
      assert words[1..][i] == words[i + 1];
      CapitalizeAvoids(words[i + 1], ch);
    }
    ConcatMapAvoids(Capitalize, words[1..], ch);
  }

  /** A segment's name holds no hyphen, no dot, and no character absent from the segment. */
  lemma SegmentNameAvoids(seg: string, ch: char)
    requires !('A' <= ch <= 'Z')
    requires ch == '-' || ch == '.' || ch !in seg
    ensures ch !in SegmentName(seg)
  {
    if !IsNavigationMarker(seg) {
      if ch != '-' && ch != '.' {
        RemoveKeeps(seg, '.', ch);
      }
      CamelCaseAvoids(Remove(seg, '.'), ch);
    }
  }

  /** A derived name holds no hyphen, no path separator and no dot. */
  lemma PathNameAvoids(path: string)
    ensures '-' !in PathName(path) && '/' !in PathName(path) && '.' !in PathName(path)
  {
    var segs := Split(path, '/');
    SplitPiecesAvoidSeparator(path, '/');
    forall i | 0 <= i < |segs|
      ensures '-' !in SegmentName(segs[i]) && '/' !in SegmentName(segs[i]) && '.' !in SegmentName(segs[i])
    {
      SegmentNameAvoids(segs[i], '-');
      SegmentNameAvoids(segs[i], '/');
      SegmentNameAvoids(segs[i], '.');
    }
    ConcatMapAvoids(SegmentName, segs, '-');
    ConcatMapAvoids(SegmentName, segs, '/');
    ConcatMapAvoids(SegmentName, segs, '.');
  }

  // ----- structure of the derivation -----

  /** A segment without hyphens is its own camel-case form. */
  lemma CamelCaseOfWord(w: string)
    requires '-' !in w
    ensures CamelCase(w) == w
  {
    SplitWithoutSeparator(w, '-');
    assert [w][1..] == [];
  }

  /** A path without separators is named by its single segment. */
  lemma PathNameOfSegment(seg: string)
    requires '/' !in seg
    ensures PathName(seg) == SegmentName(seg)
  {
    SplitWithoutSeparator(seg, '/');
    assert [seg][..0] == [];
  }

  /** A single word is its own name. */
  lemma SimpleWordIsItsOwnName(word: string, fallback: FallbackName)
    requires word != "" && word[0] != '@'
    requires '/' !in word && '-' !in word && '.' !in word
    requires !IsNavigationMarker(word)
    ensures NameFromPackage(word, fallback) == word
  {
    assert StripScope(word) == word;
    PathNameOfSegment(word);
    CamelCaseOfWord(word);
  }

  /** Appending `-w` to a kebab segment appends `w` capitalized to its camel-case form. */
  lemma CamelCaseHyphen(a: string, w: string)
    requires '-' !in w
    ensures CamelCase(a + "-" + w) == CamelCase(a) + Capitalize(w)
  {
    var words := Split(a, '-');
    var tail := words[1..] + [w];
    var all := [words[0]] + tail;
    assert Split(a + "-" + w, '-') == all by {
      assert a + "-" + w == a + ['-'] + w;
      SplitAppend(a, '-', w);
      SplitWithoutSeparator(w, '-');
      assert words == [words[0]] + words[1..];
    }
    assert ConcatMap(Capitalize, tail) == ConcatMap(Capitalize, words[1..]) + Capitalize(w) by {
      assert tail[..|tail| - 1] == words[1..];
    }
    assert all[0] == words[0] && all[1..] == tail;
  }

  /** Path segments are named independently and their names concatenated, without capitals. */
  lemma PathNameAppend(a: string, b: string)
    ensures PathName(a + "/" + b) == PathName(a) + PathName(b)
  {
    assert a + "/" + b == a + ['/'] + b;
    SplitAppend(a, '/', b);
    ConcatMapAppend(SegmentName, Split(a, '/'), Split(b, '/'));
  }

  /** `~/addons/volto-addon1` gives `addonsvoltoAddon1` and `@plone/volto-addon1` gives
      `plonevoltoAddon1`: the scope marker and navigation segments vanish and the other
      segments are concatenated as they are named. */
  lemma ScopedPathIsConcatenated(scope: string, rest: string, fallback: FallbackName)
    requires '/' !in scope
    requires PathName(rest) != ""
    ensures NameFromPackage("@" + scope + "/" + rest, fallback) == SegmentName(scope) + PathName(rest)
    ensures NameFromPackage("~/" + rest, fallback) == PathName(rest)
  {
    ScopedCandidate(scope, rest);
    HomeCandidate(rest);
  }

  lemma ScopedCandidate(scope: string, rest: string)
    requires '/' !in scope
    ensures Candidate("@" + scope + "/" + rest) == SegmentName(scope) + PathName(rest)
  {
    var s := "@" + scope + "/" + rest;
    calc {
      Candidate(s);
      == { assert s[0] == '@' && s[1..] == scope + "/" + rest; }
      PathName(scope + "/" + rest);
      == { PathNameAppend(scope, rest); }
      PathName(scope) + PathName(rest);
      == { PathNameOfSegment(scope); }
      SegmentName(scope) + PathName(rest);
    }
  }

  lemma HomeCandidate(rest: string)
    ensures Candidate("~/" + rest) == PathName(rest)
  {
    var t := "~/" + rest;
    calc {
      Candidate(t);
      == { assert t[0] == '~'; }
      PathName(t);
      == { assert t == "~" + "/" + rest; }
      PathName("~" + "/" + rest);
      == { PathNameAppend("~", rest); }
      PathName("~") + PathName(rest);
      == { PathNameOfSegment("~"); assert SegmentName("~") == ""; }
      PathName(rest);
    }
  }

  // ----- when the fallback is used -----

  lemma JoinOfEmptiesIsSeparators(words: seq<string>, c: char)
    requires forall i :: 0 <= i < |words| ==> words[i] == ""
    ensures forall k :: 0 <= k < |Join(words, [c])| ==> Join(words, [c])[k] == c
    decreases |words|
  {
    if |words| > 1 {
      JoinOfEmptiesIsSeparators(words[1..], c);
      assert Join(words, [c]) == [c] + Join(words[1..], [c]);
    }
  }

  /** A segment camel-cases to nothing exactly when it consists of hyphens only. */
  lemma CamelCaseEmpty(seg: string)
    ensures CamelCase(seg) == "" <==> OnlyHyphens(seg)
  {
    var words := Split(seg, '-');
    var tail := words[1..];
    SplitPiecesAvoidSeparator(seg, '-');
    ConcatMapEmpty(Capitalize, tail);
    assert forall i :: 0 <= i < |tail| ==> tail[i] == words[i + 1];
    if OnlyHyphens(seg) {
      forall i | 0 <= i < |words| ensures words[i] == "" {
        if words[i] != "" {
          SplitPieceChars(seg, '-', i, 0);
        }
      }
    }
    if CamelCase(seg) == "" {
      assert forall i :: 0 <= i < |words| ==> words[i] == "" by {
        forall i | 0 <= i < |words| ensures words[i] == "" {
          if i > 0 {
            assert |Capitalize(tail[i - 1])| == |words[i]|;
          }
        }
      }
      JoinSplit(seg, '-');
      JoinOfEmptiesIsSeparators(words, '-');
    }
  }

  /** Taking the dots out of a segment leaves hyphens only exactly when the segment is
      made of hyphens and dots. */
  lemma RemoveDotsOnlyHyphens(seg: string)
    ensures OnlyHyphens(Remove(seg, '.')) <==> OnlyPunctuation(seg)
  {
    var r := Remove(seg, '.');
    if OnlyPunctuation(seg) {
      forall k | 0 <= k < |r| ensures r[k] == '-' {
        assert r[k] in r;
        if r[k] != '.' {
          RemoveKeeps(seg, '.', r[k]);
        }
      }
    }
    if OnlyHyphens(r) {
      forall k | 0 <= k < |seg| ensures seg[k] == '-' || seg[k] == '.' {
        if seg[k] != '.' {
          assert seg[k] in seg;
          RemoveKeeps(seg, '.', seg[k]);
        }
      }
    }
  }

  /** A segment contributes nothing exactly when it is a navigation marker or made of
      hyphens and dots only. */
  lemma SegmentNameEmpty(seg: string)
    ensures SegmentName(seg) == "" <==> IsNavigationMarker(seg) || OnlyPunctuation(seg)
  {
    CamelCaseEmpty(Remove(seg, '.'));
    RemoveDotsOnlyHyphens(seg);
    if OnlyPunctuation(seg) && IsNavigationMarker(seg) {
      assert SegmentName(seg) == "";
    }
  }

  lemma PathNameEmpty(path: string)
    ensures PathName(path) == "" <==> NothingLeft(Split(path, '/'))
  {
    var segs := Split(path, '/');
    ConcatMapEmpty(SegmentName, segs);
    forall i | 0 <= i < |segs|
      ensures SegmentName(segs[i]) == "" <==> IsNavigationMarker(segs[i]) || OnlyPunctuation(segs[i])
    {
      SegmentNameEmpty(segs[i]);
    }
  }

  /** The fallback is taken exactly when every segment is a navigation marker or
      made of hyphens and dots only; otherwise the derived name is the candidate. */
  lemma FallbackExactlyWhenNothingIsLeft(spec: string, fallback: FallbackName)
    ensures NothingLeft(Split(StripScope(spec), '/')) ==> NameFromPackage(spec, fallback) == fallback
    ensures !NothingLeft(Split(StripScope(spec), '/')) ==> NameFromPackage(spec, fallback) == Candidate(spec)
  {
    PathNameEmpty(StripScope(spec));
  }

  /** A path made of navigation markers only, such as `../../` or `~/../`, gets a
      ten-letter name over `abcdefghjk`. */
  lemma NavigationPathGetsFallback(spec: string, fallback: FallbackName)
    requires forall i :: 0 <= i < |Split(StripScope(spec), '/')| ==> IsNavigationMarker(Split(StripScope(spec), '/')[i])
    ensures NameFromPackage(spec, fallback) == fallback
    ensures |NameFromPackage(spec, fallback)| == 10
    ensures forall k :: 0 <= k < 10 ==> NameFromPackage(spec, fallback)[k] in "abcdefghjk"
  {
    FallbackExactlyWhenNothingIsLeft(spec, fallback);
  }

  /** A kebab name is camel-cased: `volto-something-else` gives `voltoSomethingElse`. */
  lemma KebabNameIsCamelCased(a: string, w: string, fallback: FallbackName)
    requires a != "" && a[0] != '@' && a[0] != '-' && !IsNavigationMarker(a)
    requires '/' !in a && '/' !in w && '-' !in w && '.' !in a && '.' !in w
    ensures NameFromPackage(a + "-" + w, fallback) == NameFromPackage(a, fallback) + Capitalize(w)
  {
    var s := a + "-" + w;
    assert s[0] == a[0] && s[|a|] == '-';
    assert StripScope(s) == s && StripScope(a) == a;
    assert s == a + ['-'] + w;
    assert '.' !in s;
    PathNameOfSegment(s);
    PathNameOfSegment(a);
    CamelCaseHyphen(a, w);
    CamelCaseEmpty(a);
  }

  // ----- the names the tests expect -----
  // The shapes used by the tests are proved for any words; each test's own example is
  // then one instance, with the spelling of the expected name checked on its own.

  /** A word that forms a segment of its own and is named by itself. */
  predicate PlainWord(w: string)
  {
    w != "" && '-' !in w && '.' !in w && '/' !in w && !IsNavigationMarker(w)
  }

  /** A segment without dots that is no navigation marker is named by its camel-case form. */
  lemma DotFreeSegment(seg: string)
    requires '.' !in seg && !IsNavigationMarker(seg)
    ensures SegmentName(seg) == CamelCase(seg)
  {
  }

  /** A plain word, as a path of its own, is named by itself. */
  lemma PlainSegmentName(w: string)
    requires PlainWord(w)
    ensures SegmentName(w) == w && PathName(w) == w
  {
    PathNameOfSegment(w);
    CamelCaseOfWord(w);
  }

  /** The segment `a-w` of two plain words is named `a` followed by `w` capitalised. */
  lemma {:induction false} KebabSegment(a: string, w: string)
    requires PlainWord(a) && '-' !in w && '.' !in w && '/' !in w
    ensures PathName(a + "-" + w) == a + Capitalize(w)
  {
    var seg := a + "-" + w;
    assert seg == a + ['-'] + w;
    assert seg[|a|] == '-' && |seg| >= 2;
    assert '.' !in seg && '/' !in seg;
    assert !IsNavigationMarker(seg);
    PathNameOfSegment(seg);
    CamelCaseHyphen(a, w);
    CamelCaseOfWord(a);
  }

  /** `a-v-w` is named `a`, then `v` and `w` capitalised. */
  lemma {:induction false} ThreeWordKebabName(a: string, v: string, w: string, fallback: FallbackName)
    requires PlainWord(a) && a[0] != '@'
    requires '-' !in v && '.' !in v && '/' !in v
    requires '-' !in w && '.' !in w && '/' !in w
    ensures NameFromPackage(a + "-" + v + "-" + w, fallback) == a + Capitalize(v) + Capitalize(w)
  {
    var av := a + "-" + v;
    assert av == a + ['-'] + v;
    assert av[0] == a[0] && av[|a|] == '-' && |av| >= 2;
    assert '.' !in av && '/' !in av && !IsNavigationMarker(av);
    KebabNameIsCamelCased(av, w, fallback);
    KebabNameIsCamelCased(a, v, fallback);
    SimpleWordIsItsOwnName(a, fallback);
  }

  /** `~/dir/a-w` is named `dir`, then `a`, then `w` capitalised. */
  lemma {:induction false} HomeKebabName(dir: string, a: string, w: string, fallback: FallbackName)
    requires PlainWord(dir) && PlainWord(a)
    requires '-' !in w && '.' !in w && '/' !in w
    ensures NameFromPackage("~/" + dir + "/" + a + "-" + w, fallback) == dir + a + Capitalize(w)
  {
    var rest := dir + "/" + (a + "-" + w);
    assert "~/" + dir + "/" + a + "-" + w == "~/" + rest;
    HomeCandidate(rest);
    PathNameAppend(dir, a + "-" + w);
    PlainSegmentName(dir);
    KebabSegment(a, w);
  }

  /** `@scope/a-w` is named `scope`, then `a`, then `w` capitalised. */
  lemma {:induction false} ScopedKebabName(scope: string, a: string, w: string, fallback: FallbackName)
    requires PlainWord(scope) && PlainWord(a)
    requires '-' !in w && '.' !in w && '/' !in w
    ensures NameFromPackage("@" + scope + "/" + a + "-" + w, fallback) == scope + a + Capitalize(w)
  {
    assert "@" + scope + "/" + a + "-" + w == "@" + scope + "/" + (a + "-" + w);
    ScopedCandidate(scope, a + "-" + w);
    PlainSegmentName(scope);
    KebabSegment(a, w);
  }

  /** `m1/m2/` for navigation markers `m1` and `m2` is named by the fallback. */
  lemma {:induction false} TwoMarkersGetFallback(m1: string, m2: string, fallback: FallbackName)
    requires IsNavigationMarker(m1) && IsNavigationMarker(m2) && m1 != ""
    ensures NameFromPackage(m1 + "/" + m2 + "/", fallback) == fallback
  {
    var spec := m1 + "/" + m2 + "/";
    var tail := m2 + ['/'] + "";
    assert spec == m1 + ['/'] + tail;
    assert spec[0] == m1[0];
    assert StripScope(spec) == spec;
    calc {
      Split(spec, '/');
      == { SplitAppend(m1, '/', tail); }
      Split(m1, '/') + Split(tail, '/');
      == { SplitAppend(m2, '/', ""); }
      Split(m1, '/') + (Split(m2, '/') + Split("", '/'));
      == { SplitWithoutSeparator(m1, '/'); SplitWithoutSeparator(m2, '/'); }
      [m1] + ([m2] + [""]);
    }
    FallbackExactlyWhenNothingIsLeft(spec, fallback);
  }

  /** `something` is named `something`. */
  lemma SomethingIsItsOwnName(fallback: FallbackName)
    ensures NameFromPackage("something", fallback) == "something"
  {
    SimpleWordIsItsOwnName("something", fallback);
  }

  lemma VoltoSomethingElseSpelling()
    ensures "volto" + Capitalize("something") + Capitalize("else") == "voltoSomethingElse"
  {
  }

  /** `volto-something-else` is named `voltoSomethingElse`. */
  lemma VoltoSomethingElseName(fallback: FallbackName)
    ensures NameFromPackage("volto-something-else", fallback) == "voltoSomethingElse"
  {
    assert "volto-something-else" == "volto" + "-" + "something" + "-" + "else";
    ThreeWordKebabName("volto", "something", "else", fallback);
    VoltoSomethingElseSpelling();
  }

  lemma AddonsVoltoAddon1Spelling()
    ensures "addons" + "volto" + Capitalize("addon1") == "addonsvoltoAddon1"
  {
  }

  /** `~/addons/volto-addon1` is named `addonsvoltoAddon1`. */
  lemma HomePathName(fallback: FallbackName)
    ensures NameFromPackage("~/addons/volto-addon1", fallback) == "addonsvoltoAddon1"
  {
    assert "~/addons/volto-addon1" == "~/" + "addons" + "/" + "volto" + "-" + "addon1";
    HomeKebabName("addons", "volto", "addon1", fallback);
    AddonsVoltoAddon1Spelling();
  }

  lemma PloneVoltoAddon1Spelling()
    ensures "plone" + "volto" + Capitalize("addon1") == "plonevoltoAddon1"
  {
  }

  /** `@plone/volto-addon1` is named `plonevoltoAddon1`. */
  lemma ScopedPackageName(fallback: FallbackName)
    ensures NameFromPackage("@plone/volto-addon1", fallback) == "plonevoltoAddon1"
  {
    assert "@plone/volto-addon1" == "@" + "plone" + "/" + "volto" + "-" + "addon1";
    ScopedKebabName("plone", "volto", "addon1", fallback);
    PloneVoltoAddon1Spelling();
  }

  /** `../../` has nothing to derive a name from and gets the fallback. */
  lemma ParentPathGetsFallback(fallback: FallbackName)
    ensures NameFromPackage("../../", fallback) == fallback
  {
    assert "../../" == ".." + "/" + ".." + "/";
    TwoMarkersGetFallback("..", "..", fallback);
  }

  /** `~/../` has nothing to derive a name from and gets the fallback. */
  lemma HomeParentPathGetsFallback(fallback: FallbackName)
    ensures NameFromPackage("~/../", fallback) == fallback
  {
    assert "~/../" == "~" + "/" + ".." + "/";
    TwoMarkersGetFallback("~", "..", fallback);
  }
}
