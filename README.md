# Radonis build pipeline and hydration bookkeeping, in Dafny

This project models the core of Radonis, a framework that renders React
on the server and hydrates islands of it in the browser. The model covers
two groups of code.

The build side:

- **Identifier extraction.** The three extractors scan bundle text for
  flash-message, message and route identifiers.
- **Path predicates.** `isComponentFile` and `filePathToFileUrl`.
- **The two island transforms.** They rewrite island markers into
  hydration calls. The radonis plugin also records which islands each
  file holds.
- **The resolve and load hooks.** They claim client and island scripts.
- **The `onEnd` hooks of both plugins.** They turn bundler outputs into
  built assets.
- **The assets manifest builder.** It folds the hydration requirements of
  every internally imported chunk into each asset that imports it,
  transitively.
- **The loader table and `getLoaderForFile`.**

The runtime side:

- **The client hydration manager.** It keeps the component registry,
  hydrates roots, and unobserves each root after hydrating it.
- **The head manager.** It holds the title, meta and tags of one response
  and renders them to HTML.
- **The flash-message manager.** It tracks which flash messages are
  shipped for hydration.
- **`useRoute().isCurrent`.**
- **`getManifestOrFail` and its write-once cache.**

Modules follow the program's files:

| Module | Models |
|---|---|
| `Wrappers` | `Option` and `Result` |
| `Collections` | `dedupe` as first-occurrence de-duplication; JavaScript's insertion-ordered `Map` (`OrderedMap`, `Set`, `SetAll`) |
| `Strings` | `split`, `join`, `trim` (JavaScript whitespace), and literal first-occurrence `replace` |
| `Paths` | POSIX `basename` and `extname` |
| `BuildUtils` | `utils.ts` |
| `Islands` | the marker-rewriting loops of `plugin.ts` and `plugins.ts` |
| `Resolvers` | the resolve and load hooks of `plugin.ts` and `plugins.ts` |
| `BuildPlugins` | the `islandsByFile` registries and `onEnd` hooks of `plugin.ts` and `plugins/assets.ts` |
| `AssetsManifest` | `assets_manifest_builder.ts` |
| `Loaders` | `Compiler/loaders.ts` |
| `ManifestCache` | `getManifestOrFail.ts` |
| `Hydration` | `HydrationManager/index.tsx` |
| `Head` | `headManager/index.ts` |
| `FlashMessages` | `FlashMessagesManager/index.ts` |
| `RouteHook` | `useRoute.ts` |

Some code works on state step by step: the plugins' registries, the
managers, the manifest cache, and the loops of the extractors and the
island transforms. That code is modelled as classes and methods with
loops. Each method's ensures give its result and the new state: in terms
of a function of the inputs and the old state where one exists (`Batch`,
`RootOutcome`, `Call`, `RadonisAssets`, `BuiltAssetsOf`, `Extracted`,
`Rewritten`), and otherwise field by field. Code that only computes is
modelled as functions with lemmas about them.

Some helpers are not part of this model: `getOutputMeta`,
`normalizePath`, `relative`, `stripLeadingSlash`, `pathToFileURL`,
`buildTitle`, `stringifyAttributes`, `extractTokens` and superjson's
`deserialize`. Each one appears as a function-typed parameter or field.
Two more helpers, `dedupe` and `nonNull` (imported at
packages/radonis-build/src/assets_manifest_builder.ts:14), have bodies
that are not part of this model either. `dedupe` is assumed to keep the
first occurrence of each element in order (`Collections.Dedupe`), and
`nonNull` to drop the `null`s and keep the rest in order (the filter in
`AssetsManifest.FollowedImports`).
The regular expressions are not part of this model either, so their
match lists are inputs.

### Behaviour worth knowing

- **Chunk entries.** `build()` emits an entry for every built asset,
  chunks included (`AssetsManifest.Build`).
- **Cycles.** `#createEntry` keeps no visited set, so it recurses without
  end on a cycle of chunk imports. The model needs a rank that strictly
  decreases along every followed edge (`Ranked`), which is exactly
  acyclicity of the followed edges.
- **De-duplication.** An asset with no followed chunk keeps its own
  requirement lists as they are, repeats included
  (`AssetsManifest.EntryWithoutChunks`). Only an asset with a followed
  chunk gets de-duplicated lists.
- **Order of hydration and unobserve.** The observer callback hydrates a
  root first and unobserves it afterwards. A root whose hydration throws
  therefore stays observed, and the rest of its batch is abandoned
  (`Hydration.AbandonedAfterError`, `Hydration.UnregisteredStopsBatch`).

## Model

| member | source | states |
|---|---|---|
| Collections.Dedupe | packages/radonis-build/src/assets_manifest_builder.ts:54-56 | the result has no repeats, holds exactly the input's elements, and is no longer than the input |
| Collections.DedupeFirstOccurrenceOrder | packages/radonis-build/src/utils.ts:88-96 | de-duplicated elements appear in the order of their first occurrence in the input |
| Collections.DedupeNoDups | packages/radonis-build/src/utils.ts:88-96 | a list without repeats is returned unchanged |
| Collections.DedupeSnoc | packages/radonis-build/src/utils.ts:92 | adding one more element adds it at the end when new and changes nothing when it was seen |
| Collections.OrderedMap.Set | packages/radonis-build/src/plugins/assets.ts:63 | `Map.set` takes the new value; a new key goes last and an existing key keeps its position |
| Collections.SetAllKeys | packages/radonis-build/src/plugins/assets.ts:43-76 | after setting a run of entries, the keys are the old keys followed by the new keys in first-set order |
| Collections.SetAllLastWins | packages/radonis-build/src/plugins/assets.ts:63 | a key's value is the one of the last entry that set it |
| Collections.SetAllUntouched | packages/radonis-build/src/plugins/assets.ts:63 | a key no entry sets keeps its earlier value or stays absent |
| Collections.SetAllHas | packages/radonis-build/src/plugins/assets.ts:63 | a key is present afterwards exactly when it was before or some entry sets it |
| Strings.Trim | packages/radonis-build/src/utils.ts:92 | the result is a slice of the input with only whitespace before and after it, and it neither starts nor ends with whitespace: the input minus its leading and trailing whitespace; all-whitespace text trims to "" |
| Strings.SplitJoin | packages/radonis-build/src/utils.ts:79 | splitting a separator-free list joined with that separator gives the list back |
| Strings.SplitConcat | packages/radonis-build/src/utils.ts:79 | splitting two parts joined by the separator is splitting each part |
| Strings.JoinAppend | packages/radonis-server/src/headManager/index.ts:108 | joining two non-empty lists is joining each with the separator between them |
| Strings.IndexOfSpec | packages/radonis-build/src/plugin.ts:83 | the position found is the first occurrence at or after the start, and "not found" means there is none |
| Strings.ReplaceFirstSpec | packages/radonis-build/src/plugin.ts:83 | `replace` with a string pattern replaces the first occurrence only, and leaves text without one unchanged |
| Strings.ReplaceFirst | packages/radonis-build/src/plugin.ts:83 | text without an occurrence comes back unchanged; with one, exactly one occurrence is exchanged for the replacement; `ReplaceFirstSpec` pins which one: the first |
| Paths.LastIndexOf | packages/radonis-server/src/Compiler/loaders.ts:32 | the index holds the character and no later index does; -1 means the character is absent |
| Paths.BaseName | packages/radonis-build/src/utils.ts:33 | the base name holds no `/`; `BaseNameOfChild` gives the last segment of `dir/name` |
| Paths.ExtName | packages/radonis-server/src/Compiler/loaders.ts:32 | the extension is empty or a dot, without further dots, that ends the base name; `ExtNameOfChild`, `ExtNameNoDot` and `ExtNameBySuffix` pin it down |
| Paths.BaseNameOfChild | packages/radonis-build/src/utils.ts:33 | the base name of `dir/name` is `name` |
| Paths.ExtNameOfChild | packages/radonis-server/src/Compiler/loaders.ts:32 | the extension is the base name from its last dot on |
| Paths.ExtNameNoDot | packages/radonis-server/src/Compiler/loaders.ts:32 | a base name without a dot has the empty extension |
| Paths.ExtNameBySuffix | packages/radonis-build/src/plugin.ts:40 | a path ending in `<pre><.ext>` has extension `.ext` |
| BuildUtils.CollectIdentifiers | packages/radonis-build/src/utils.ts:88-96 | the shared extractor loop returns exactly `Extracted` of the match list: the trimmed non-empty captures, de-duplicated |
| BuildUtils.ExtractFlashMessages | packages/radonis-build/src/utils.ts:86-97 | `extractFlashMessages` is the shared extraction over its match list |
| BuildUtils.ExtractMessages | packages/radonis-build/src/utils.ts:103-114 | `extractMessages` is the shared extraction over its match list |
| BuildUtils.ExtractRoutes | packages/radonis-build/src/utils.ts:120-131 | `extractRoutes` is the shared extraction over its match list |
| BuildUtils.CapturedMembers | packages/radonis-build/src/utils.ts:90-94 | an identifier is captured exactly when it is the trim of some non-empty capture |
| BuildUtils.ExtractedSpec | packages/radonis-build/src/utils.ts:88-96 | the output has no repeats, follows first-occurrence order, and holds exactly the trimmed non-empty captures |
| BuildUtils.WhitespaceCaptureGivesEmpty | packages/radonis-build/src/utils.ts:91-92 | a whitespace-only capture is truthy and contributes "" |
| BuildUtils.ExtractedRepeat | packages/radonis-build/src/utils.ts:88-96 | repeating matches already seen leaves the output unchanged |
| BuildUtils.ComponentFileIntro | packages/radonis-build/src/utils.ts:32-36 | every `<dir>/<A-Z><word chars>.<ts/tsx/js/jsx>` is a component file |
| BuildUtils.IsComponentFile | packages/radonis-build/src/utils.ts:32-36 | a component file's base name ends in `.ts`, `.tsx`, `.js` or `.jsx`; `ComponentFileIntro` and `ComponentFileParts` give both directions of the pattern |
| BuildUtils.ComponentExtName | packages/radonis-build/src/utils.ts:32-36 | a component file's `extname` is `.ts`, `.tsx`, `.js` or `.jsx` |
| BuildUtils.ComponentFileParts | packages/radonis-build/src/utils.ts:32-36 | conversely, the base name of every component file is an upper-case letter, at least one word character, a dot and a script extension |
| BuildUtils.SecondaryExtensionRejected | packages/radonis-build/src/utils.ts:25-35 | a base name with a second dot before the extension (`Foo.client.tsx`) is not a component file |
| BuildUtils.ComponentFileIgnoresDirectories | packages/radonis-build/src/utils.ts:33-35 | only the base name decides, not the directories |
| BuildUtils.NonEmpty | packages/radonis-build/src/utils.ts:79 | `filter(Boolean)` keeps exactly the non-empty segments of the input |
| BuildUtils.NonEmptySingle | packages/radonis-build/src/utils.ts:79 | one segment is kept exactly when it is non-empty |
| BuildUtils.NonEmptyAppend | packages/radonis-build/src/utils.ts:79 | the filter goes element by element, so the kept segments keep their order |
| BuildUtils.FilePathToFileUrl | packages/radonis-build/src/utils.ts:78-80 | the URL is empty exactly when the path has no non-empty segment; `FileUrlRoundTrip` states its segments |
| BuildUtils.FileUrlRoundTrip | packages/radonis-build/src/utils.ts:78-80 | for any platform separator, splitting the URL on `/` gives the path's non-empty segments in order, when no segment holds a `/` |
| BuildUtils.FileUrlSegments | packages/radonis-build/src/utils.ts:78-80 | on a platform whose separator is `/`, the URL's segments are the path's non-empty segments, in order |
| Islands.IslandStep | packages/radonis-build/src/plugin.ts:73-84 | one loop pass: a match with both groups rewrites its first occurrence and adds its identifier once; any other match changes nothing |
| Islands.Rewritten | packages/radonis-build/src/plugin.ts:73-84 | with no valid match the text is unchanged; `RewrittenIgnoresInvalid` and `OneMatchReplacesFirstOccurrence` state what valid matches do |
| Islands.RewriteIslands | packages/radonis-build/src/plugin.ts:68-88 | the island `onLoad` text is the import line, a newline, and the text with every valid match rewritten in order; the island list is `IslandIds` of the matches |
| Islands.RewriteIslandsPublic | packages/radonis-build/src/plugins.ts:33-47 | the same for `radonisIslandsPlugin` with `hydrateIsland`, and the callbacks are `FoundEvents` of the matches |
| Islands.RewrittenIgnoresInvalid | packages/radonis-build/src/plugin.ts:77-79 | matches missing a group do not affect the text |
| Islands.NoValidMatchKeepsText | packages/radonis-build/src/plugins.ts:37 | a file without a valid match keeps its text |
| Islands.OneMatchReplacesFirstOccurrence | packages/radonis-build/src/plugin.ts:83 | a valid match replaces the first occurrence of its text with the registration call |
| Islands.AbsentMatchKeepsText | packages/radonis-build/src/plugin.ts:83 | a valid match whose text no longer occurs changes nothing |
| Islands.ValidIdentifiersInclude | packages/radonis-build/src/plugin.ts:81 | every valid match's identifier is collected |
| Islands.ValidIdentifiersOrigin | packages/radonis-build/src/plugin.ts:74-81 | every collected identifier comes from a valid match |
| Islands.IslandIdsSpec | packages/radonis-build/src/plugin.ts:71-88 | the island list has no repeats and holds exactly the identifiers of valid matches, untrimmed |
| Islands.FoundEventsAreValidMatches | packages/radonis-build/src/plugins.ts:36-41 | one `onIslandFound` per valid match, in match order, with the trimmed identifier and the file's path |
| Resolvers.ResolveEntryPoint | packages/radonis-build/src/plugin.ts:40-46 | a path is claimed exactly when it has the role's suffix and `kind` is `entry-point`; it keeps its path and goes to the role's namespace |
| Resolvers.ResolveAny | packages/radonis-build/src/plugins.ts:29-31 | the islands plugin claims every path with the role's suffix, whatever the kind |
| Resolvers.EntryPointResolverIsNarrower | packages/radonis-build/src/plugin.ts:60-65 | what the radonis plugin claims, the islands plugin claims too; for entry points the two agree |
| Resolvers.RolesAreDisjoint | packages/radonis-build/src/plugin.ts:40-65 | no path is both a client script and an island script |
| Resolvers.ClaimedFilesHaveLoader | packages/radonis-build/src/plugin.ts:53 | every claimed file has a script extension and a loader from the table |
| Resolvers.LoadClient | packages/radonis-build/src/plugins.ts:67-74 | the client `onLoad` returns the text unchanged with the file's loader, and fails exactly when `getLoaderForFile` throws |
| Resolvers.ClaimedClientLoads | packages/radonis-build/src/plugins.ts:64-74 | a claimed client script always loads, unchanged |
| Resolvers.LoadIslandPublic | packages/radonis-build/src/plugins.ts:32-54 | the islands plugin's `onLoad` gives the callbacks of its matches and the rewritten text with the file's loader |
| BuildPlugins.RadonisEntry | packages/radonis-build/src/plugin.ts:114-137 | an output is set exactly when the metafile has its key, `getOutputMeta` succeeds and the output has an original path; the key is the outbase-relative path without its leading slash |
| BuildPlugins.RadonisPlugin.LoadIsland | packages/radonis-build/src/plugin.ts:67-95 | the island file is rewritten, and its island list is recorded under its normalised path even when empty |
| BuildPlugins.RadonisPlugin.OutputEntry | packages/radonis-build/src/plugin.ts:114-137 | one loop pass computes exactly `RadonisEntry` of the output |
| BuildPlugins.RadonisPlugin.OnEnd | packages/radonis-build/src/plugin.ts:97-142 | without outputs nothing is delivered and the registry stays; otherwise the delivered map is `RadonisAssets` of the outputs and the registry is cleared |
| BuildPlugins.RadonisAssetsSpec | packages/radonis-build/src/plugin.ts:102-138 | the keys are those of the outputs that pass, in first-set order, and a key is present exactly when some output sets it |
| BuildPlugins.RadonisLastOutputWins | packages/radonis-build/src/plugin.ts:127 | an asset is the one of the last output with its key |
| BuildPlugins.RadonisIslandsReachAsset | packages/radonis-build/src/plugin.ts:125-131 | an asset's islands are those recorded under its normalised original path, or none |
| BuildPlugins.AssetIslands | packages/radonis-build/src/plugins/assets.ts:60-61 | only island scripts with an original path look islands up; any other asset gets `[]` |
| BuildPlugins.AssetsEntry | packages/radonis-build/src/plugins/assets.ts:48-75 | an output is set exactly when the metafile has its outbase-relative path and `getOutputMeta` succeeds, under that path |
| BuildPlugins.AssetsPlugin.OnStart | packages/radonis-build/src/plugins/assets.ts:28-30 | every pass starts with an empty registry |
| BuildPlugins.AssetsPlugin.OnResolve | packages/radonis-build/src/plugins/assets.ts:32-38 | a non-empty island list with an original path is recorded; otherwise the registry is unchanged |
| BuildPlugins.AssetsPlugin.OutputEntry | packages/radonis-build/src/plugins/assets.ts:48-75 | one loop pass computes exactly `AssetsEntry` of the output |
| BuildPlugins.AssetsPlugin.OnEnd | packages/radonis-build/src/plugins/assets.ts:40-79 | the map handed on is `BuiltAssetsOf` of the outputs, and of none when there are no output files |
| BuildPlugins.NoOutputsNoAssets | packages/radonis-build/src/plugins/assets.ts:43 | a pass without output files hands on an empty map |
| BuildPlugins.BuiltAssetsSpec | packages/radonis-build/src/plugins/assets.ts:43-76 | the keys are the outbase-relative paths of the outputs that pass, in first-set order, and a key is present exactly when some output sets it |
| BuildPlugins.AssetsLastOutputWins | packages/radonis-build/src/plugins/assets.ts:63 | an asset is the one of the last output with its key |
| BuildPlugins.RecordedIslandsReachAsset | packages/radonis-build/src/plugins/assets.ts:34-67 | the island list recorded on resolve reaches the island-script asset built from that source |
| BuildPlugins.AssetRequirementsExtracted | packages/radonis-build/src/plugins/assets.ts:69-71 | an asset's three lists are what the extractors find: no repeats, and exactly the trimmed captures |
| AssetsManifest.WithoutImports | packages/radonis-build/src/assets_manifest_builder.ts:63 | the rest spread keeps type, name, path, islands and requirements and drops imports |
| AssetsManifest.ReducedField | packages/radonis-build/src/assets_manifest_builder.ts:39-57 | each reduced list is the de-duplicated concatenation of that list over all entries |
| AssetsManifest.ReduceRequirements | packages/radonis-build/src/assets_manifest_builder.ts:39-58 | each reduced list has no repeats and holds exactly the elements of that list over all entries; `ReducedField` gives the order |
| AssetsManifest.GatherIncludes | packages/radonis-build/src/assets_manifest_builder.ts:40-51 | the concatenation holds everything any entry lists |
| AssetsManifest.GatherOrigin | packages/radonis-build/src/assets_manifest_builder.ts:40-51 | everything in the concatenation is listed by some entry |
| AssetsManifest.CreateEntry | packages/radonis-build/src/assets_manifest_builder.ts:63-87 | an entry keeps its asset's type, name, path and islands |
| AssetsManifest.FollowedImports | packages/radonis-build/src/assets_manifest_builder.ts:65-76 | the followed edges are internal imports of chunk assets in the map, and there are none exactly when no edge qualifies |
| AssetsManifest.ChunkEntries | packages/radonis-build/src/assets_manifest_builder.ts:64-77 | the nulls removed leave one chunk entry per followed edge, in import order |
| AssetsManifest.FollowedImportsInclude | packages/radonis-build/src/assets_manifest_builder.ts:66-75 | every followed edge is descended into |
| AssetsManifest.ChunkEntriesInclude | packages/radonis-build/src/assets_manifest_builder.ts:75 | the entry of every followed edge is among the chunk entries |
| AssetsManifest.ChunkEntriesOrigin | packages/radonis-build/src/assets_manifest_builder.ts:66-75 | every chunk entry is the entry of some followed edge |
| AssetsManifest.Build | packages/radonis-build/src/assets_manifest_builder.ts:32-34 | one entry per built asset, chunks included, in map order, each the `#createEntry` of its asset |
| AssetsManifest.EntryWithoutChunks | packages/radonis-build/src/assets_manifest_builder.ts:63-86 | with no followed import, the entry is the asset minus imports, its lists not de-duplicated |
| AssetsManifest.EntryWithChunks | packages/radonis-build/src/assets_manifest_builder.ts:79-83 | with a followed import, each list is the de-duplication of the own list followed by the chunk entries' lists in import order, and has no repeats |
| AssetsManifest.EntryIncludesOwn | packages/radonis-build/src/assets_manifest_builder.ts:82 | an entry keeps all of its asset's own requirements |
| AssetsManifest.EntryIncludesChunk | packages/radonis-build/src/assets_manifest_builder.ts:75-82 | an entry includes everything the reduced entry of any followed chunk requires |
| AssetsManifest.EntryOrigin | packages/radonis-build/src/assets_manifest_builder.ts:64-86 | everything an entry requires is the asset's own or comes from a followed chunk's entry |
| AssetsManifest.UnfollowedEdgeIrrelevant | packages/radonis-build/src/assets_manifest_builder.ts:66-73 | an external edge, or one to a missing or non-chunk asset, can be removed without changing the entry |
| AssetsManifest.SameChunksSameEntry | packages/radonis-build/src/assets_manifest_builder.ts:79-86 | an entry depends only on the asset without imports and its chunk entries |
| AssetsManifest.ChainIncluded | packages/radonis-build/src/assets_manifest_builder.ts:75-82 | an entry includes the own requirements of every chunk reachable along followed edges, however deep |
| AssetsManifest.ChainOrigin | packages/radonis-build/src/assets_manifest_builder.ts:63-87 | everything an entry requires is the asset's own or that of a chunk reachable along followed edges |
| Loaders.GetLoaderForFile | packages/radonis-server/src/Compiler/loaders.ts:31-35 | the loader is the table's entry for the file's extension; an extension not in the table fails with the file named |
| Loaders.ScriptLoaders | packages/radonis-server/src/Compiler/loaders.ts:12-22 | `.js` loads as `jsx`; `.ts`, `.tsx`, `.jsx` and `.json` load with their own loaders |
| Loaders.MediaLoadsAsFile | packages/radonis-server/src/Compiler/loaders.ts:5-28 | every image, font, audio and video extension loads as `file` |
| Loaders.NoExtensionFails | packages/radonis-server/src/Compiler/loaders.ts:34 | a file without an extension fails |
| Loaders.LoaderByExtension | packages/radonis-server/src/Compiler/loaders.ts:31-34 | `<dir>/<stem><.ext>` loads exactly when `.ext` is in the table, with that loader |
| ManifestCache.Call | packages/radonis-hydrate/src/hydrator/utils/getManifestOrFail.ts:31-45 | a client with a cache answers from it; otherwise no global fails; otherwise the client caches and returns the deserialised global and the server the raw one |
| ManifestCache.ManifestStore.GetManifestOrFail | packages/radonis-hydrate/src/hydrator/utils/getManifestOrFail.ts:25-45 | the result and the new cache are those of `Call` on the old cache |
| ManifestCache.ClientCallsAreStable | packages/radonis-hydrate/src/hydrator/utils/getManifestOrFail.ts:32-34 | after a successful client call, every later call returns the same manifest whatever the global holds |
| ManifestCache.ServerReadsGlobal | packages/radonis-hydrate/src/hydrator/utils/getManifestOrFail.ts:32-44 | the server's result always reflects the current global |
| Hydration.RootOutcome | packages/radonis-hydrate/src/HydrationManager/index.tsx:48-80 | a missing root id or component name fails first, then an unregistered component; a root with both attributes and a registered component mounts exactly when the manifest is available, and otherwise fails with that manifest error; a mount carries the registered component, the props hash defaulting to "0" and `props[hash]` or `{}` |
| Hydration.AbandonedAfterError | packages/radonis-hydrate/src/HydrationManager/index.tsx:90-97 | once a root's hydration throws, the rest of the batch changes nothing |
| Hydration.IgnoresNonIntersecting | packages/radonis-hydrate/src/HydrationManager/index.tsx:91 | a non-intersecting entry changes nothing |
| Hydration.StepShape | packages/radonis-hydrate/src/HydrationManager/index.tsx:90-97 | one entry either changes nothing or mounts its root and unobserves exactly that element |
| Hydration.UnobservedAreMounted | packages/radonis-hydrate/src/HydrationManager/index.tsx:95-96 | exactly the mounted elements are unobserved |
| Hydration.MountsAreRegistered | packages/radonis-hydrate/src/HydrationManager/index.tsx:62-91 | every mount uses the registered component its root names, and only reported elements are mounted |
| Hydration.MountedAtMostOnce | packages/radonis-hydrate/src/HydrationManager/index.tsx:89-97 | a later batch of the same observer, holding only elements the earlier batch did not unobserve, never mounts an element the earlier batch mounted |
| Hydration.UnregisteredStopsBatch | packages/radonis-hydrate/src/HydrationManager/index.tsx:62-95 | a root naming an unregistered component ends the batch with that error, and nothing after it is mounted |
| Hydration.HydrationManager.HydrateRoot | packages/radonis-hydrate/src/HydrationManager/index.tsx:45-81 | nothing on the server; on the client the outcome, mount and manifest cache are those of `RootOutcome` |
| Hydration.HydrationManager.ObserverCallback | packages/radonis-hydrate/src/HydrationManager/index.tsx:89-98 | the callback's error, mounts, remaining observed elements and manifest cache are those of `Batch` over the entries |
| Hydration.HydrationManager.HydrateRoots | packages/radonis-hydrate/src/HydrationManager/index.tsx:104-115 | on the client a new observer watches exactly the roots' elements; on the server nothing changes |
| Hydration.HydrationManager.RegisterComponent | packages/radonis-hydrate/src/HydrationManager/index.tsx:120-126 | on the client the identifier now names the component, overwriting; on the server nothing changes |
| Hydration.HydrationManager.Require | packages/radonis-hydrate/src/HydrationManager/index.tsx:131-165 | on the server the requirement is forwarded; on the client nothing happens |
| Hydration.Singleton.Construct | packages/radonis-hydrate/src/HydrationManager/index.tsx:34-40 | once an instance exists it is returned; otherwise a fresh manager becomes the instance |
| Hydration.HydrationManager.constructor | packages/radonis-hydrate/src/HydrationManager/index.tsx:29-40 | a new manager has no components, mounts, observers or forwarded requirements |
| Head.HeadManager.constructor | packages/radonis-server/src/headManager/index.ts:43-55 | a new manager holds the built default title, the default meta and no tags |
| Head.HeadManager.SetTitle | packages/radonis-server/src/headManager/index.ts:60-64 | the title becomes `buildTitle` of the given title with the configured prefix, suffix and separator |
| Head.HeadManager.AddMeta | packages/radonis-server/src/headManager/index.ts:76-78 | the meta becomes the spread merge of the old and the added meta |
| Head.HeadManager.AddTags | packages/radonis-server/src/headManager/index.ts:114-116 | the tags are the old tags followed by the added ones |
| Head.HeadManager.ResetForNewRequest | packages/radonis-server/src/headManager/index.ts:139-141 | back to the built default title, the default meta and no tags |
| Head.MergeValues | packages/radonis-server/src/headManager/index.ts:77 | a merge holds the names of both; added names take their new value and the other names keep theirs |
| Head.MergeOrder | packages/radonis-server/src/headManager/index.ts:77 | old names keep their place and new names follow in their order |
| Head.NameAttribute | packages/radonis-server/src/headManager/index.ts:98-105 | Open Graph names (`og:` prefix) use `property` and all others `name` |
| Head.Contents | packages/radonis-server/src/headManager/index.ts:100 | `[value].flat()`: an array's elements, or the value alone |
| Head.ContentTags | packages/radonis-server/src/headManager/index.ts:100-106 | one meta tag per content, in order |
| Head.FalsyMetaAddsEmptyLine | packages/radonis-server/src/headManager/index.ts:86-108 | a falsy value emits no tag, but its null still adds an empty line to the join |
| Head.CharsetSpellingsAgree | packages/radonis-server/src/headManager/index.ts:90-92 | `charset` and `charSet` render the same `{charset: value}` tag |
| Head.StringMetaTag | packages/radonis-server/src/headManager/index.ts:98-105 | a non-empty string renders one tag with `content` and the name under `property` or `name` |
| Head.ArrayMetaSplits | packages/radonis-server/src/headManager/index.ts:100-108 | an array renders one tag per element, comma-joined by the outer join |
| Head.SingletonArrayIsFlat | packages/radonis-server/src/headManager/index.ts:100 | an array of one string renders as that string does |
| Head.TagShape | packages/radonis-server/src/headManager/index.ts:121-126 | a tag opens and closes with its name, and without attributes it is `<name>content</name>` |
| Head.AddedTagsFollow | packages/radonis-server/src/headManager/index.ts:114-127 | adding tags keeps the earlier tags' HTML and puts the new ones after it on new lines |
| Head.HtmlLayout | packages/radonis-server/src/headManager/index.ts:132-134 | the page head is the title tag, the meta tags and the tags, joined by newlines |
| Head.MetaTags | packages/radonis-server/src/headManager/index.ts:83-109 | no names give the empty string, and the first name's line comes first; `MetaTagsAppend` places every later name's line, and `StringMetaTag` and `ArrayMetaSplits` state what a line holds |
| Head.MetaTagsAppend | packages/radonis-server/src/headManager/index.ts:83-109 | a meta entry under a new name adds its own line, after a newline, behind the lines of the earlier names, whether its value is a string, an array, an object or falsy |
| Head.TagsHtml | packages/radonis-server/src/headManager/index.ts:121-127 | no tags give the empty string, and the first tag's HTML comes first; `TagShape` and `AddedTagsFollow` state the rest |
| Head.Html | packages/radonis-server/src/headManager/index.ts:132-134 | the head opens with the title tag on a line of its own and closes with the tags; `HtmlLayout` gives the whole layout |
| Head.HeadManager.GetTitleTag | packages/radonis-server/src/headManager/index.ts:69-71 | the current title between `<title>` and `</title>` |
| Head.HeadManager.GetMetaTags | packages/radonis-server/src/headManager/index.ts:83-109 | the current meta's lines, the first name's line first; empty without meta |
| Head.HeadManager.GetTags | packages/radonis-server/src/headManager/index.ts:121-127 | the current tags' lines, the first tag first; empty without tags |
| Head.HeadManager.GetHtml | packages/radonis-server/src/headManager/index.ts:132-134 | the current title tag on the first line and the current tags at the end |
| FlashMessages.SetAdd | packages/radonis-server/src/FlashMessagesManager/index.ts:61-64 | `Set.add` keeps the set free of repeats and adds exactly the element |
| FlashMessages.SetAddIdempotent | packages/radonis-server/src/FlashMessagesManager/index.ts:63 | requiring the same identifier twice is requiring it once |
| FlashMessages.FlashMessagesManager.SetFlashMessages | packages/radonis-server/src/FlashMessagesManager/index.ts:35-37 | the messages are replaced wholesale and the required identifiers are kept |
| FlashMessages.FlashMessagesManager.constructor | packages/radonis-server/src/FlashMessagesManager/index.ts:14-30 | a new manager has no messages and requires none for hydration |
| FlashMessages.FlashMessagesManager.GetFlashMessages | packages/radonis-server/src/FlashMessagesManager/index.ts:42-56 | with `all`, every message; otherwise exactly the required identifiers whose message is truthy, with their current messages |
| FlashMessages.FlashMessagesManager.RequireFlashMessageForHydration | packages/radonis-server/src/FlashMessagesManager/index.ts:61-64 | the identifier is added once, and only when its message is truthy |
| FlashMessages.FlashMessagesManager.PrepareForNewRequest | packages/radonis-server/src/FlashMessagesManager/index.ts:69-71 | the required identifiers are emptied and the messages kept |
| RouteHook.IsCurrent | packages/radonis-hooks/src/hooks/useRoute.ts:23-37 | exact checks compare identifiers; other checks of a known route test the pattern prefix and require the route inside a hydration root; unknown routes are not current |
| RouteHook.ParentRouteIsCurrent | packages/radonis-hooks/src/hooks/useRoute.ts:33 | a route is current on every page whose pattern extends its own |
| RouteHook.NoPatternNoMatch | packages/radonis-hooks/src/hooks/useRoute.ts:33 | without a current pattern no non-exact check is true |
| RouteHook.RequiresOnlyInsideRoots | packages/radonis-hooks/src/hooks/useRoute.ts:28-31 | a route is required exactly for a non-exact check of a known route inside a hydration root |

## Left out

- File and bundler I/O: reading, writing, minifying and creating directories in the `onEnd` hooks, `discoverComponents`, and reading or writing the build manifest. The hooks are modelled as plain method calls on their inputs.
- The regular expressions (the island, route, message and flash-message patterns, and the resolve filters beyond their suffix rule). Their match lists are inputs.
- `String.prototype.replace` is modelled as literal replacement of the first occurrence. `$` patterns in the replacement are not expanded.
- `Object.entries` lists integer-like keys first. The meta is modelled as an insertion-ordered map, so that ordering is not modelled.
- `getOutputMeta`, `normalizePath`, `relative`, `pathToFileURL`, `stripLeadingSlash`, `buildTitle`, `stringifyAttributes`, `extractTokens` and superjson are uninterpreted function parameters. The radonis plugin's `tokens` field is therefore `extractTokens(text)` taken as given.
- BuildPlugins.RadonisEntry: an output whose metadata has no original path is skipped, because `relative` throws on `undefined`. An empty original path goes to the uninterpreted normaliser like any other.
- React, the DOM and `IntersectionObserver` are abstract. A root is an element number with its dataset, a batch is a list of entries, and an observer is the set of elements it still watches. `isServer` is a constructor flag.
- Hydration.HydrationManager.Require: the server-side `RoutesManager`, `FlashMessagesManager` and `I18nManager` that the three methods load are not part of this model. On the server a requirement is appended to a log of forwarded requirements.
- The build package's own `./loaders` module, which `packages/radonis-build/src/plugin.ts:20` and `packages/radonis-build/src/plugins.ts:16` import `getLoaderForFile` from, is not part of this model. The loader lookup is modelled on the extension table of `packages/radonis-server/src/Compiler/loaders.ts`, and `Resolvers.ClaimedFilesHaveLoader`, `Resolvers.LoadClient` and `Resolvers.LoadIslandPublic` rest on that table.
- The `resolveDir: dirname(path)` field of the `onLoad` results (plugin.ts:52 and 92, plugins.ts:51 and 72) is not modelled. The results carry only their contents and loader.
- `options.onEnd` is optional in the source (plugin.ts:140, plugins/assets.ts:78). The model returns the map the hook hands on, as if a callback were always given; the case without one is not modelled.
- Node's `path` functions (`parse`, `basename`, `extname`) follow the platform. `Paths` models the POSIX `path` only, with `/` as the separator; the Windows backslash separator and drive letters are not modelled.
- `globalThis` assignments and the window global are not modelled. The global manifest is a parameter of each call.
- `useRoute().current` only reads the manifest's route and has no contract worth stating.
- RouteHook.IsCurrent: `packages/radonis-hooks/src/hooks/useRoute.ts:30` calls `HydrationManager.getSingletonInstance()`, which the `HydrationManager` of `packages/radonis-hydrate/src/HydrationManager/index.tsx` does not define. The model takes the intended `requireRouteForHydration(identifier)` call as made, and records it as the `requiresRoute` flag of the result.
- AssetsManifest.CreateEntry: it requires a rank witness (`Ranked`) that the followed edges form no cycle. On a cycle the source recurses without end, and the model does not describe that case.
- The component, context and hook wiring (HydrationRoot, document wrapper, context providers, the other hooks), the query hook, the CSS plugin, the example application and the compiler's own plugins have no logic of their own to state and are not part of this model.
