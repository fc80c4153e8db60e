# Volto addon loader and sharing actions, modelled in Dafny

This project models two parts of the Volto front end.

1. **The addon-loader generator.** `getAddonsLoaderCode` takes the raw `addons` entries of a
   project (`package` or `package:extra1,extra2`). It writes the text of a JavaScript module
   with three parts:
   - one import line per addon, binding its default export to an identifier derived by
     `nameFromPackage` and each named extra to an alias `exportName + k`, where `k` is one
     counter that runs across all addons;
   - an array of loaders in addon-major order;
   - a `load(config)` function that folds the array over the configuration from left to right.

   The model covers:
   - entry parsing;
   - name derivation;
   - alias allocation;
   - the exact text, produced by an imperative loop proved against a functional definition;
   - what calling the emitted `load` does: the fold, "last wins", and the TypeError raised
     by an extra the addon does not export.
2. **The sharing action creators** `updateSharing` and `getSharing`. Each returns an action
   record: the action type, and the request its `promise` makes through the `api` object. The
   request is a value (verb, path, optional data), never sent.

The generator's implementation file is not part of this model. Its behaviour is taken from the
assertions of `__tests__/create-addons-loader.test.js`, which fix its output character for
character, and from the entry split that the test helper performs (lines 160-166). Where the
tests leave a choice open, the model follows the rules listed under "## Left out".

Files and modules:
- `wrappers.dfy` (`Wrappers`): `Option` and `Result`.
- `strings.dfy` (`Strings`): string helpers:
  - `Split`, `Join`, `IndexOf` and `Remove`;
  - camel-casing, through `Capitalize` and `ConcatMap`;
  - decimal rendering (`NatToString`).
- `addon_entries.dfy` (`AddonEntries`): parsing of raw entries.
- `package_names.dfy` (`PackageNames`): `nameFromPackage`.
- `alias_allocation.dfy` (`AliasAllocation`): the running alias counter.
- `loader_code.dfy` (`LoaderCode`): the text of the generated module.
  - `GetAddonsLoaderCode` is a method with a loop, proved equal to the function
    `AddonsLoaderCode`.
  - `GenerateParts` holds the loop. It is written for any naming function.
    `GetAddonsLoaderCode` instantiates it with `NameFromPackage`.
- `addon_loading.dfy` (`AddonLoading`): what the emitted `load` computes.
- `sharing.dfy` (`Sharing`): the two action creators.

## Model

| member | source | states |
|---|---|---|
| AddonEntries.ParseEntry | __tests__/create-addons-loader.test.js:160-166 | An entry fails exactly when it is empty or starts with `:`, and the error names the entry. Otherwise the package is the text before the first `:` (all of the entry when there is none, with no extras). The package is non-empty and colon-free, and every extra is non-empty and comma-free. |
| AddonEntries.ParseExtras | __tests__/create-addons-loader.test.js:162-165 | No extra is empty and none holds a comma. |
| AddonEntries.ParseExtrasOfJoin | __tests__/create-addons-loader.test.js:162-165 | Comma-free tokens joined by `,` read back as exactly those tokens, in order, without the empty ones. |
| AddonEntries.DropEmpty | __tests__/create-addons-loader.test.js:162-165 | Every kept token is non-empty and was in the input, and every non-empty token of the input is kept. An input without empty tokens is returned unchanged. |
| AddonEntries.DropEmptyAppend | __tests__/create-addons-loader.test.js:162-165 | Dropping the empty tokens of two lists run together gives the tokens kept from the first, then those kept from the second, so the order is preserved. |
| AddonEntries.ParseFormatRoundTrip | __tests__/create-addons-loader.test.js:160-166 | Parsing the entry `package:e1,e2,...` written for a well-formed addon gives that addon back. |
| AddonEntries.ParseEntries | __tests__/create-addons-loader.test.js:160-168 | A successful parse of the entry list has one addon per entry. |
| AddonEntries.ParseEntriesOutcome | __tests__/create-addons-loader.test.js:160-168 | A successful parse holds each entry's own parse at its position. A failed one reports the first entry that does not parse, and every entry before it parses. |
| AddonEntries.ParseEntriesFails | __tests__/create-addons-loader.test.js:160-168 | When entry `i` is the first that does not parse, the whole list fails with that entry's error. |
| AddonEntries.ParseEntriesSnoc | __tests__/create-addons-loader.test.js:160-168 | Parsing one more entry appends its addon to the parsed prefix. |
| AddonEntries.ParseTwoEntries | __tests__/create-addons-loader.test.js:97-101 | Two parsable entries give their two addons, in order. |
| PackageNames.NameFromPackage | __tests__/create-addons-loader.test.js:122-147 | The name is never empty and holds none of `-`, `/` and `.`, so a resolved file path such as the ones the loading tests pass (lines 160-168) still gives an identifier. When the fallback is used is stated by FallbackExactlyWhenNothingIsLeft. |
| PackageNames.SimpleWordIsItsOwnName | __tests__/create-addons-loader.test.js:122-124 | A plain word without `@`, `/`, `-` or `.` is its own name. |
| PackageNames.SomethingIsItsOwnName | __tests__/create-addons-loader.test.js:122-124 | `something` is named `something`. |
| PackageNames.VoltoSomethingElseName | __tests__/create-addons-loader.test.js:126-128 | `volto-something-else` is named `voltoSomethingElse`. |
| PackageNames.HomePathName | __tests__/create-addons-loader.test.js:135-138 | `~/addons/volto-addon1` is named `addonsvoltoAddon1`. |
| PackageNames.ScopedPackageName | __tests__/create-addons-loader.test.js:139-142 | `@plone/volto-addon1` is named `plonevoltoAddon1`. |
| PackageNames.ParentPathGetsFallback | __tests__/create-addons-loader.test.js:130-134 | `../../` is named by the fallback. |
| PackageNames.HomeParentPathGetsFallback | __tests__/create-addons-loader.test.js:143-147 | `~/../` is named by the fallback. |
| PackageNames.DotFreeSegment | __tests__/create-addons-loader.test.js:126-128 | A segment without dots that is no navigation marker is named by its camel-case form. |
| PackageNames.PlainSegmentName | __tests__/create-addons-loader.test.js:122-124 | A word without `-`, `.` or `/` that is no navigation marker is its own name, both as a segment and as a whole path. |
| PackageNames.KebabSegment | __tests__/create-addons-loader.test.js:126-128 | A path `a-w` of plain words is named `a` followed by `w` with its first letter upper-cased. |
| PackageNames.ThreeWordKebabName | __tests__/create-addons-loader.test.js:126-128 | A package `a-v-w` of plain words is named `a`, then `v` and `w` each with a capital first letter. |
| PackageNames.HomeKebabName | __tests__/create-addons-loader.test.js:135-138 | A home path `~/dir/a-w` of plain words is named `dir`, `a`, then `w` capitalised: the `~` vanishes and the segments join without a capital at the `/`. |
| PackageNames.ScopedKebabName | __tests__/create-addons-loader.test.js:139-142 | A scoped package `@scope/a-w` of plain words is named `scope`, `a`, then `w` capitalised: the `@` vanishes. |
| PackageNames.TwoMarkersGetFallback | __tests__/create-addons-loader.test.js:130-147 | A specifier of two navigation markers followed by `/`, such as `../../` or `~/../`, is named by the fallback. |
| PackageNames.CamelCaseHyphen | __tests__/create-addons-loader.test.js:126-128 | Appending `-w` to a segment appends `w` with its first letter upper-cased. |
| PackageNames.KebabNameIsCamelCased | __tests__/create-addons-loader.test.js:126-128 | `a-w` is named as `a` followed by `w` capitalised, so `volto-something-else` becomes `voltoSomethingElse`. |
| PackageNames.CamelCaseOfWord | __tests__/create-addons-loader.test.js:122-124 | A segment without hyphens is its own camel-case form. |
| PackageNames.PathNameAppend | __tests__/create-addons-loader.test.js:135-142 | The segments of a path are named independently and concatenated without capitals. |
| PackageNames.PathNameOfSegment | __tests__/create-addons-loader.test.js:135-142 | A path without separators is named by its one segment. |
| PackageNames.ScopedPathIsConcatenated | __tests__/create-addons-loader.test.js:135-142 | `@scope/rest` is named as the scope's segment name followed by the name of `rest`. `~/rest` is named as `rest` alone: the scope marker and the home marker vanish. |
| PackageNames.ScopedCandidate | __tests__/create-addons-loader.test.js:139-142 | The derivation for `@scope/rest` drops the `@` and concatenates the names of the segments. |
| PackageNames.HomeCandidate | __tests__/create-addons-loader.test.js:135-138 | The derivation for `~/rest` drops the `~` segment. |
| PackageNames.CamelCaseAvoids | __tests__/create-addons-loader.test.js:126-128 | A character that is not an upper-case letter, and is either `-` or absent from the segment, is absent from its camel-case form. |
| PackageNames.CapitalizeAvoids | __tests__/create-addons-loader.test.js:126-128 | Capitalising a word introduces no character other than an upper-case letter. |
| PackageNames.SegmentNameAvoids | __tests__/create-addons-loader.test.js:122-147 | A segment's name holds no hyphen, no dot, and no other character the segment lacks, upper-case letters aside. |
| PackageNames.PathNameAvoids | __tests__/create-addons-loader.test.js:122-147 | A derived name holds no hyphen, no path separator and no dot. |
| PackageNames.CamelCaseEmpty | __tests__/create-addons-loader.test.js:130-147 | A segment camel-cases to nothing exactly when it consists of hyphens only. |
| PackageNames.RemoveDotsOnlyHyphens | __tests__/create-addons-loader.test.js:130-147 | A segment without its dots is hyphens only exactly when the segment is made of hyphens and dots. |
| PackageNames.SegmentNameEmpty | __tests__/create-addons-loader.test.js:130-147 | A segment contributes nothing exactly when it is a navigation marker (`""`, `.`, `..`, `~`) or made of hyphens and dots only. |
| PackageNames.PathNameEmpty | __tests__/create-addons-loader.test.js:130-147 | A path derives nothing exactly when none of its segments contributes. |
| PackageNames.JoinOfEmptiesIsSeparators | __tests__/create-addons-loader.test.js:130-147 | Joining empty pieces gives separators only. |
| PackageNames.FallbackExactlyWhenNothingIsLeft | __tests__/create-addons-loader.test.js:130-147 | The fallback is used exactly when no segment contributes. Otherwise the derived text is used. |
| PackageNames.NavigationPathGetsFallback | __tests__/create-addons-loader.test.js:130-147 | A specifier of navigation markers only, such as `../../` or `~/../`, is named by the fallback: ten letters over `abcdefghjk`. |
| AliasAllocation.AliasCarriesCounter | __tests__/create-addons-loader.test.js:68 | An alias is the export name followed by the decimal digits of the counter, and those digits read back as the counter. |
| AliasAllocation.BindExtras | __tests__/create-addons-loader.test.js:87 | There is one binding per extra. |
| AliasAllocation.BindExtrasAt | __tests__/create-addons-loader.test.js:87 | Extra `j` of a list named from counter `k` is bound as `extra as extra<k + j>`. |
| AliasAllocation.BindExtrasAppend | __tests__/create-addons-loader.test.js:107-108 | Naming two lists of extras one after the other continues the counter across them. |
| AliasAllocation.Allocate | __tests__/create-addons-loader.test.js:107-108 | There is one list of bindings per addon. |
| AliasAllocation.AllocateAt | __tests__/create-addons-loader.test.js:107-108 | Addon `i`'s extras are named from the number of extras of the addons before it. The counter is never reset. |
| AliasAllocation.GlobalCounter | __tests__/create-addons-loader.test.js:107-108 | All bindings, flattened, are the extras of all addons named from 0 in one run. |
| LoaderCode.MapNames | __tests__/create-addons-loader.test.js:50-54 | There is one name per addon. |
| LoaderCode.MapNamesAt | __tests__/create-addons-loader.test.js:50-54 | Name `i` is the naming function applied to addon `i`'s specifier and to fallback `i`. |
| LoaderCode.MapNamesSnoc | __tests__/create-addons-loader.test.js:50-54 | One more addon appends its own name. |
| LoaderCode.MapNamesOfTwo | __tests__/create-addons-loader.test.js:107-108 | Two addons get their two names, in order. |
| LoaderCode.DerivedNames | __tests__/create-addons-loader.test.js:50-54 | There is one derived identifier per addon. |
| LoaderCode.DerivedNamesAt | __tests__/create-addons-loader.test.js:50-54 | The identifier of addon `i` is `nameFromPackage` of its own specifier. |
| LoaderCode.Plan | __tests__/create-addons-loader.test.js:107-108 | There is one import per addon. |
| LoaderCode.PlanAt | __tests__/create-addons-loader.test.js:107-108 | Import `i` binds name `i` to addon `i`'s package. Its extras are named from the number of extras of the addons before it. |
| LoaderCode.PlanUsesAllocation | __tests__/create-addons-loader.test.js:107-108 | Import `i` uses the derived name and the allocated bindings of addon `i`. |
| LoaderCode.PlanSnoc | __tests__/create-addons-loader.test.js:107-111 | One more addon appends one import, with its extras named from the running total. |
| LoaderCode.PlanFollowsGlobalCounter | __tests__/create-addons-loader.test.js:107-108 | Across the whole plan, the aliases are the extras of all addons named from 0 in one run. |
| LoaderCode.BindAliases | __tests__/create-addons-loader.test.js:87 | The loop over one addon's extras produces exactly `BindExtras` from the current counter, and advances the counter by the number of extras. |
| LoaderCode.GetAddonsLoaderCode | __tests__/create-addons-loader.test.js:7-116 | The generator's result is the functional definition of the generated module, including the error of the first unparsable entry. |
| LoaderCode.GenerateParts | __tests__/create-addons-loader.test.js:107-111 | The loop keeps one running counter across addons. It returns the import block and loader array of the plan, or the first parse error. |
| LoaderCode.GeneratedParts | __tests__/create-addons-loader.test.js:7-116 | The functional definition of the import block and loader array, for any naming function. They are produced exactly when the entries parse, and otherwise the generation fails with the parse error. |
| LoaderCode.GenerationStep | __tests__/create-addons-loader.test.js:107-111 | One pass of the loop appends exactly one addon's import line and its loader entries, and advances the counter by its extras. |
| LoaderCode.GenerationStopsAt | __tests__/create-addons-loader.test.js:160-168 | An entry that does not parse ends generation with its error. |
| LoaderCode.GenerationEnds | __tests__/create-addons-loader.test.js:7-116 | After the last entry, the collected text is the module's variable part. |
| LoaderCode.GenerationSucceedsIffEveryEntryParses | __tests__/create-addons-loader.test.js:160-168 | Generation succeeds exactly when every entry parses. On failure it reports the first entry that does not. |
| LoaderCode.AddonsLoaderCode | __tests__/create-addons-loader.test.js:7-116 | The module text is produced exactly when the entries parse, and otherwise the generation fails with their error. Its text is stated by GeneratedFromParsed and the example lemmas below. |
| LoaderCode.GeneratedCodeFollowsParse | __tests__/create-addons-loader.test.js:160-168 | With any naming function, the code is produced exactly when the entries parse, and otherwise fails with their error. |
| LoaderCode.GeneratedFromParsed | __tests__/create-addons-loader.test.js:7-116 | Once the entries parse, the text is the header, then the import block, then `load` over the loader array of the plan. |
| LoaderCode.ImportBlockSnoc | __tests__/create-addons-loader.test.js:50-51 | One more import appends its line and a newline. |
| LoaderCode.LoaderEntriesSnoc | __tests__/create-addons-loader.test.js:111 | One more import appends its default identifier, then its aliases. |
| LoaderCode.ImportBlockIsTerminated | __tests__/create-addons-loader.test.js:50-51 | The import block is the import lines, each ended by a newline. |
| LoaderCode.ImportBlockLines | __tests__/create-addons-loader.test.js:50-51 | Split at newlines, the import block gives back exactly its import lines, in order. |
| LoaderCode.LoaderEntriesAppend | __tests__/create-addons-loader.test.js:111 | The loader array of two plans run together is the two arrays concatenated. Each addon's entries are contiguous and come before the next addon's. |
| LoaderCode.LoaderEntriesCount | __tests__/create-addons-loader.test.js:111 | The loader array has one entry per addon plus one per extra. |
| LoaderCode.NoAddonsText | __tests__/create-addons-loader.test.js:7-21 | Without addons, the text is exactly the header, two newlines, the empty loader array, the reduce line and the default export. |
| LoaderCode.NoAddonsParts | __tests__/create-addons-loader.test.js:7-21 | Without addons, the import block is empty and so is the loader array. |
| LoaderCode.EmptyModuleSource | __tests__/create-addons-loader.test.js:9-20 | The module text around an empty import block and an empty array, character for character. |
| LoaderCode.AddonsWithoutExtras | __tests__/create-addons-loader.test.js:23-59 | N addons without extras give exactly N lines `import <name> from '<spec>';` in input order, and the loader array lists those names in the same order. |
| LoaderCode.BareImportBlock | __tests__/create-addons-loader.test.js:30 | Addons without extras have plain import lines, each ended by a newline. |
| LoaderCode.BareLoaderArray | __tests__/create-addons-loader.test.js:54 | Addons without extras have a loader array that is their names. |
| LoaderCode.BarePlan | __tests__/create-addons-loader.test.js:50-51 | Each addon without extras is imported under its name from its unchanged specifier, with no bindings. |
| LoaderCode.PlainImport | __tests__/create-addons-loader.test.js:30 | An import without bindings is the line `import <name> from '<package>';`. |
| LoaderCode.BareLines | __tests__/create-addons-loader.test.js:50-51 | The import lines of addons without extras are the plain lines, in order. |
| LoaderCode.ParseBareEntries | __tests__/create-addons-loader.test.js:160-166 | Entries without a colon parse to addons without extras. |
| LoaderCode.LoaderEntriesOfBare | __tests__/create-addons-loader.test.js:54 | Imports without bindings contribute only their default identifiers. |
| LoaderCode.ExtrasImportLine | __tests__/create-addons-loader.test.js:68-87 | An addon with extras has the import line `import <name>, { e as e<k>, ... } from '<package>';`, with the extras in their given order. |
| LoaderCode.ExtrasNamedImports | __tests__/create-addons-loader.test.js:87 | The named-import clause lists `e as e<k>` for each extra, joined by `, `. |
| LoaderCode.ExtrasLoaders | __tests__/create-addons-loader.test.js:90 | The aliases in the loader array are the extras suffixed with consecutive counter values. |
| LoaderCode.TwoAliases | __tests__/create-addons-loader.test.js:87 | Two extras named from `k` get the suffixes `k` and `k + 1`. |
| LoaderCode.TwoAddonsWithExtras | __tests__/create-addons-loader.test.js:97-116 | Two addons with two extras each give exactly the two import lines and the loader array `[n1, e10, e21, n2, e32, e43]`. The counter is not reset between addons. |
| LoaderCode.TwoAddonsPlan | __tests__/create-addons-loader.test.js:107-108 | The second addon's extras are named from 2. |
| LoaderCode.TwoEntriesParse | __tests__/create-addons-loader.test.js:99-100 | The two entries parse to their two addons. |
| LoaderCode.TwoAddonsImportBlock | __tests__/create-addons-loader.test.js:107-108 | The two import lines, character for character. |
| LoaderCode.TwoAddonsLoaderArray | __tests__/create-addons-loader.test.js:111 | The loader array, element for element. |
| LoaderCode.PlanOfTwo | __tests__/create-addons-loader.test.js:107-108 | The second import's extras are named after the first addon's extras. |
| LoaderCode.ImportBlockOfTwo | __tests__/create-addons-loader.test.js:107-108 | Two imports give two newline-ended lines. |
| LoaderCode.LoaderEntriesOfTwo | __tests__/create-addons-loader.test.js:111 | Two imports give each name followed by its own aliases. |
| LoaderCode.EntryWithTwoExtras | __tests__/create-addons-loader.test.js:80 | `package:e1,e2` parses to the package with the extras `e1`, `e2`. |
| AddonLoading.Load | __tests__/create-addons-loader.test.js:17 | The fold succeeds whenever every loader is callable. Its failures are stated by LoadFailsAtFirstNotCallable, its value by LoadIsComposition. |
| AddonLoading.AddonLoaders | __tests__/create-addons-loader.test.js:111 | The loader array once resolved. AddonLoadersFollowArray states that element `k` is the binding of identifier `k` of the emitted array, imported from the export ExportRefs gives for it. AddonLoadersAppend states that it follows the plan's order. NotCallableIffMissingExport states when its elements are functions. |
| AddonLoading.LoadFailsAtFirstNotCallable | __tests__/create-addons-loader.test.js:293-303 | The fold fails exactly when some loader is not callable. The model's error value records the identifier of the first such loader; the program itself throws the reduce callback's `apply is not a function`. |
| AddonLoading.LoadAppend | __tests__/create-addons-loader.test.js:17 | Folding `p + q` is folding `p`, then folding `q` over its result. A failure in `p` stops the fold. |
| AddonLoading.Transforms | __tests__/create-addons-loader.test.js:17 | There is one transform per callable loader. |
| AddonLoading.LoadIsComposition | __tests__/create-addons-loader.test.js:17 | For callable loaders, the fold is the composition of their transforms, applied left to right. |
| AddonLoading.LastWins | __tests__/create-addons-loader.test.js:193-223 | A setting fixed by the last loader has that loader's value, whatever came before. |
| AddonLoading.SwapFlipsWinner | __tests__/create-addons-loader.test.js:193-291 | Swapping the last two loaders swaps which value wins, so the results differ when their values differ. |
| AddonLoading.TwoBareLoaders | __tests__/create-addons-loader.test.js:193-223 | The resolved array of two addons without extras is their two default exports, in entry order. |
| AddonLoading.TwoAddonsLastWins | __tests__/create-addons-loader.test.js:193-223 | For two addons without extras whose defaults each fix a setting, the later entry's value wins, and listing the entries the other way round makes the other value win. |
| AddonLoading.Resolve | __tests__/create-addons-loader.test.js:293-303 | An identifier is callable exactly when the module exports that name, and is then that export. Otherwise it is a non-callable value carrying the identifier. |
| AddonLoading.ResolveExtras | __tests__/create-addons-loader.test.js:293-303 | There is one loader per extra. |
| AddonLoading.AddonLoadersFollowArray | __tests__/create-addons-loader.test.js:111 | Element `k` of the resolved array is identifier `k` of the emitted array resolved against the export it imports: the addon's default for its own identifier, the named extra for an alias. It is that export when the module has it, and otherwise a non-callable value carrying the identifier. |
| AddonLoading.AddonLoadersAppend | __tests__/create-addons-loader.test.js:193-223 | The resolved array of two plans run together is the first one's array followed by the second one's, so addons load in entry order. |
| AddonLoading.NotCallableIffMissingExport | __tests__/create-addons-loader.test.js:293-303 | Every resolved loader is callable exactly when every addon exports its default and all its named extras. |
| AddonLoading.AllCallableAppend | __tests__/create-addons-loader.test.js:17 | Loaders run together are all callable exactly when both parts are. |
| AddonLoading.LoadFailsIffMissingExport | __tests__/create-addons-loader.test.js:293-303 | Loading the resolved array fails exactly when some export is missing. |
| AddonLoading.MissingExportBreaksOnlyLoad | __tests__/create-addons-loader.test.js:293-303 | Naming a missing extra still generates the module. Only calling `load` fails, and it fails exactly when an export is missing. |
| AddonLoading.LastExtraWins | __tests__/create-addons-loader.test.js:242-291 | Within one addon the extras run after its default, in the order named. A setting fixed by the last extra has its value. |
| Sharing.UpdateSharing | src/actions/sharing/sharing.js:15-19 | The action has type `UPDATE_SHARING` and describes a POST to exactly `url + "/@sharing"` carrying `sharing` as its data. |
| Sharing.GetSharing | src/actions/sharing/sharing.js:29-34 | The action has type `GET_SHARING` and describes a GET without data. |
| Sharing.GetSharingPathHasEndpointPrefix | src/actions/sharing/sharing.js:33 | Every requested path starts with `url + "/@sharing"`. |
| Sharing.GetSharingWithoutSearch | src/actions/sharing/sharing.js:29-33 | With the default or an empty search, the path is exactly `url + "/@sharing"`. |
| Sharing.GetSharingWithSearch | src/actions/sharing/sharing.js:33 | A non-empty search is appended verbatim after `?search=`. |
| Sharing.SearchRoundTrip | src/actions/sharing/sharing.js:33 | The search reads back from the path. |
| Sharing.GetSharingInjective | src/actions/sharing/sharing.js:33 | For one content url, two searches give the same action exactly when they are equal. |
| Sharing.UpdateCarriesPayload | src/actions/sharing/sharing.js:15-34 | The update request carries the payload unchanged. The two creators never describe the same request or action type. |
| Sharing.UnencodedSearchIsAmbiguous | src/actions/sharing/sharing.js:33 | Because the search is not encoded, two different url/search pairs can ask for the same path. |

## Left out

- The generator's implementation file is not part of this model. How it behaves comes from the test assertions. Behaviour the tests do not fix is a modelling choice:
  - dots inside a path segment are dropped before camel-casing, so `index.js` contributes `indexjs`;
  - extras are split on `,`, and empty tokens are dropped;
  - an entry with an empty package specifier aborts the whole generation with an error;
  - upper-casing affects ASCII `a`-`z` only.
- PackageNames.NameFromPackage: the name is proved free of `-`, `/` and `.` only. Other characters a JavaScript identifier cannot hold (a space, `\`, `@` or `~` after the first character, a leading digit) pass through unchanged, because no test fixes how they are treated.
- AddonLoading.MissingExportBreaksOnlyLoad: "load fails exactly when an export is missing" presumes that JavaScript accepts the generated module. It does not when two imports bind the same identifier (the same entry twice, or `@volto/addon1` next to `volto/addon1`, which both derive `voltoaddon1`), and then the module is rejected before `load` runs. This follows from the derived-name uniqueness line below. The clash of a derived name with `config`, `addonLoaders`, `load` or a reserved word is the AddonLoading.AddonLoaders line above.
- AddonLoading.AddonLoaders: element `k` is resolved by its position in the array. JavaScript instead looks the identifier up inside `load`'s scope, and the two differ for some derived names, where the model still says `load` succeeds once every export exists:
  - an entry named `config` (or `./config`, `~/config`) derives `config`, which inside `load` is its own parameter, so `load` throws a TypeError;
  - an entry named `addon-loaders` derives `addonLoaders`, so the array refers to itself before it is initialised and `load` throws a ReferenceError;
  - a derived name `load`, or a reserved word such as `new`, `class` or `default`, makes the generated module a syntax error.
  No test names such an addon.
- AddonLoading.LoadFailsIffMissingExport: it shares the two caveats above. Duplicate identifiers and names that clash with `config`, `addonLoaders`, `load` or a reserved word are outside its "exactly when".
- Derived-name uniqueness and disambiguation: two addons may derive the same identifier, and aliases `exportName + k` may collide (`a1` with 1 and `a` with 11). No distinctness is claimed.
- The random fallback name is a parameter, one per entry. The model constrains it to exactly ten letters, every one of them from `abcdefghjk`. The tests check less: a length of 10 and at least one letter from that alphabet. NameFromPackage is free of `-`, `/` and `.` on the fallback path only because of this constraint.
- The I/O of the test helpers (`__tests__/create-addons-loader.test.js:150-177`) is not modelled: Babel transpilation, file writes, `require.resolve` and `require`. Entries are taken as already resolved.
- The fixture addons and their merge logic are not part of this model. Transforms are arbitrary total functions on an abstract configuration.
- The configuration changes made by loaders before the TypeError are not modelled. The fold's failure is a value, and the configuration is not mutated in place.
- `razzle.config.js` (build wiring) and the UI components are not modelled.
- The `api` promise of the sharing actions is not executed. Only the request it would make is described.
- The action type constants come from a file that is not part of this model. Their values are taken to equal their names.
