/** The island registries and end-of-pass hooks of the two bundler plugins
    that produce built assets. `radonisPlugin` records the islands of every
    island file it loads and, when the pass ends, builds one asset per
    output with the output's tokens; `assetsPlugin` records the islands it
    is handed on resolve and builds one asset per output with the output's
    requirement lists, the input of the assets manifest builder. */
module BuildPlugins {
  import opened Wrappers
  import opened Collections
  import opened Paths
  import opened Loaders
  import opened BuildUtils
  import opened Islands
  import opened Resolvers
  import opened AssetsManifest

  // ---------------------------------------------------------------------
  // What the bundler hands to the end-of-pass hooks

  /** What `getOutputMeta` reads from a metafile output: the asset type,
      and the source file the output was built from when there is one. */
  datatype OutputMeta = OutputMeta(kind: AssetType, originalPath: Option<string>)

  /** A metafile output: its imports, and what `getOutputMeta` makes of it
      (None where it throws). */
  datatype MetaOutput = MetaOutput(imports: seq<ImportEdge>, meta: Option<OutputMeta>)

  /** The metafile's outputs by outbase-relative path; None when the pass
      has no metafile. */
  type Metafile = Option<map<string, MetaOutput>>

  /** An output file of the pass: its absolute path, its text, and the
      matches of the three identifier patterns in that text. */
  datatype OutputFile = OutputFile(
    path: string, text: string,
    flashMessageMatches: seq<IdentifierMatch>,
    messageMatches: seq<IdentifierMatch>,
    routeMatches: seq<IdentifierMatch>)

  /** `metafile?.outputs[key]`. */
  function MetaLookup(metafile: Metafile, key: string): Option<MetaOutput> {
    if metafile.Some? && key in metafile.value then Some(metafile.value[key]) else None
  }

  /** The registry both plugins keep: island identifiers by source file. */
  type IslandsByFile = OrderedMap<string, seq<string>>

  // ---------------------------------------------------------------------
  // radonisPlugin

  /** The helpers `radonisPlugin` calls and that are not part of this
      model: `normalizePath` against the outbase and against the public
      path, `stripLeadingSlash`, and `extractTokens`. */
  datatype RadonisEnv = RadonisEnv(
    normalize: string -> string,
    normalizePublic: string -> string,
    stripLeadingSlash: string -> string,
    extractTokens: string -> seq<string>)

  /** An asset as `radonisPlugin` builds it: the requirements are the
      output's tokens. */
  datatype TokenAsset = TokenAsset(
    kind: AssetType, name: string, path: string, islands: seq<string>,
    imports: seq<ImportEdge>, tokens: seq<string>)

  /** What one pass of the `onEnd` loop sets for an output, or None where it
      continues: no metafile output under the key, `getOutputMeta` throws,
      or the output has no original path (normalising it throws). */
  function RadonisEntry(env: RadonisEnv, registry: IslandsByFile, metafile: Metafile, f: OutputFile)
    : (r: Option<(string, TokenAsset)>)
    ensures r.Some? <==>
      && MetaLookup(metafile, env.stripLeadingSlash(env.normalize(f.path))).Some?
      && MetaLookup(metafile, env.stripLeadingSlash(env.normalize(f.path))).value.meta.Some?
      && MetaLookup(metafile, env.stripLeadingSlash(env.normalize(f.path))).value.meta.value.originalPath.Some?
    ensures r.Some? ==> r.value.0 == env.stripLeadingSlash(env.normalize(f.path))
  {
    var rel := env.normalize(f.path);
    var key := env.stripLeadingSlash(rel);
    match MetaLookup(metafile, key)
    case None => None
    case Some(output) =>
      if output.meta.None? || output.meta.value.originalPath.None? then None
      else
        var meta := output.meta.value;
        var islands := registry.Get(env.normalize(meta.originalPath.value)).GetOr([]);
        Some((key, TokenAsset(meta.kind, BaseName(rel), env.normalizePublic(f.path), islands,
                              output.imports, env.extractTokens(f.text))))
  }

  function RadonisEntries(env: RadonisEnv, registry: IslandsByFile, metafile: Metafile, files: seq<OutputFile>)
    : (r: seq<Option<(string, TokenAsset)>>)
    ensures |r| == |files|
    ensures forall i :: 0 <= i < |files| ==> r[i] == RadonisEntry(env, registry, metafile, files[i])
  {
    seq(|files|, i requires 0 <= i < |files| => RadonisEntry(env, registry, metafile, files[i]))
  }

  /** The map `radonisPlugin` hands to `options.onEnd`. */
  function RadonisAssets(env: RadonisEnv, registry: IslandsByFile, metafile: Metafile, files: seq<OutputFile>)
    : (r: OrderedMap<string, TokenAsset>)
    ensures r.Valid()
  {
    SetAll(EmptyMap(), RadonisEntries(env, registry, metafile, files))
  }

  class RadonisPlugin {
    const env: RadonisEnv

    /** `islandsByFile`: the islands of every island file loaded in this
        pass, keyed by its normalised path. */
    var islandsByFile: IslandsByFile

    ghost predicate Valid()
      reads this
    {
      islandsByFile.Valid()
    }

    constructor(env: RadonisEnv)
      ensures Valid() && islandsByFile == EmptyMap()
    {
      this.env := env;
      islandsByFile := EmptyMap();
    }

    /** The island `onLoad` hook: rewrites the file, records its islands
        (an empty list too) under its normalised path, and only then looks
        up the loader, so the record stays when the lookup throws. */
    method LoadIsland(path: string, text: string, matches: seq<IslandMatch>)
      returns (r: Result<Loaded, LoaderError>)
      requires Valid()
      modifies this
      ensures Valid()
      ensures islandsByFile == old(islandsByFile).Set(env.normalize(path), IslandIds(matches))
      ensures r.Ok? <==> GetLoaderForFile(path).Ok?
      ensures r.Ok? ==> r.value == Loaded(Header(Internal) + "\n" + Rewritten(Internal, text, matches), GetLoaderForFile(path).value)
    {
      var contents, islands := RewriteIslands(text, matches);
      islandsByFile := islandsByFile.Set(env.normalize(path), islands);
      var loader := GetLoaderForFile(path);
      if loader.Err? {
        return Err(loader.error);
      }
      r := Ok(Loaded(contents, loader.value));
    }

    /** The body of the `onEnd` loop for one output file: the key and the
        asset it sets, or None where it continues. */
    method OutputEntry(f: OutputFile, metafile: Metafile) returns (entry: Option<(string, TokenAsset)>)
      ensures entry == RadonisEntry(env, islandsByFile, metafile, f)
    {
      var pathRelativeToOutbase := env.normalize(f.path);
      var pathRelativeToPublic := env.normalizePublic(f.path);
      var assetKey := env.stripLeadingSlash(pathRelativeToOutbase);
      if metafile.None? || assetKey !in metafile.value {
        return None;
      }
      var output := metafile.value[assetKey];
      if output.meta.None? || output.meta.value.originalPath.None? {
        return None;
      }
      var meta := output.meta.value;
      var islandFileKey := env.normalize(meta.originalPath.value);
      var islands := islandsByFile.Get(islandFileKey).GetOr([]);
      entry := Some((assetKey, TokenAsset(meta.kind, BaseName(pathRelativeToOutbase), pathRelativeToPublic,
                                          islands, output.imports, env.extractTokens(f.text))));
    }

    /** The `onEnd` hook: without output files it returns at once, handing
        nothing on and keeping the registry; otherwise it builds the assets
        of the outputs, hands them on, and clears the registry. */
    method OnEnd(outputFiles: Option<seq<OutputFile>>, metafile: Metafile)
      returns (delivered: Option<OrderedMap<string, TokenAsset>>)
      requires Valid()
      modifies this
      ensures Valid()
      ensures outputFiles.None? ==> delivered.None? && islandsByFile == old(islandsByFile)
      ensures outputFiles.Some? ==>
        && delivered == Some(RadonisAssets(env, old(islandsByFile), metafile, outputFiles.value))
        && islandsByFile == EmptyMap()
    {
      if outputFiles.None? {
        return None;
      }
      var files := outputFiles.value;
      ghost var entries := RadonisEntries(env, islandsByFile, metafile, files);
      var built: OrderedMap<string, TokenAsset> := EmptyMap();
      for i := 0 to |files|
        invariant islandsByFile == old(islandsByFile)
        invariant built.Valid()
        invariant built == SetAll(EmptyMap(), entries[..i])
      {
        SetAllPrefix(EmptyMap(), entries, i);
        var entry := OutputEntry(files[i], metafile);
        if entry.Some? {
          built := built.Set(entry.value.0, entry.value.1);
        }
      }
      assert entries[..|files|] == entries;
      delivered := Some(built);
      islandsByFile := EmptyMap();
    }
  }

  /** The assets are keyed by the outputs that pass the skip rules, in the
      order their keys first occur, and each key's asset is the one of the
      last output with that key. */
  lemma RadonisAssetsSpec(env: RadonisEnv, registry: IslandsByFile, metafile: Metafile, files: seq<OutputFile>, k: string)
    ensures RadonisAssets(env, registry, metafile, files).keys
      == Dedupe(PresentKeys(RadonisEntries(env, registry, metafile, files)))
    ensures k in RadonisAssets(env, registry, metafile, files).values <==>
      exists i :: 0 <= i < |files| && RadonisEntry(env, registry, metafile, files[i]).Some?
                  && RadonisEntry(env, registry, metafile, files[i]).value.0 == k
  {
    var entries := RadonisEntries(env, registry, metafile, files);
    SetAllKeys(EmptyMap(), entries);
    assert EmptyMap<string, TokenAsset>().keys + PresentKeys(entries) == PresentKeys(entries);
    SetAllHas(EmptyMap(), entries, k);
  }

  /** An output that passes, and that no later output overrides, is the
      asset under its key. */
  lemma RadonisLastOutputWins(env: RadonisEnv, registry: IslandsByFile, metafile: Metafile, files: seq<OutputFile>, i: nat)
    requires i < |files| && RadonisEntry(env, registry, metafile, files[i]).Some?
    requires forall j :: i < j < |files| && RadonisEntry(env, registry, metafile, files[j]).Some? ==>
      RadonisEntry(env, registry, metafile, files[j]).value.0 != RadonisEntry(env, registry, metafile, files[i]).value.0
    ensures var (k, a) := RadonisEntry(env, registry, metafile, files[i]).value;
      k in RadonisAssets(env, registry, metafile, files).values
      && RadonisAssets(env, registry, metafile, files).values[k] == a
  {
    SetAllLastWins(EmptyMap(), RadonisEntries(env, registry, metafile, files), i);
  }

  /** The islands recorded when an island file was loaded reach the asset
      built from it: the output's original path normalises to the key the
      load hook used. An output whose source was never loaded as an island
      file gets no islands. */
  lemma RadonisIslandsReachAsset(env: RadonisEnv, registry: IslandsByFile, metafile: Metafile, f: OutputFile)
    requires registry.Valid()
    requires RadonisEntry(env, registry, metafile, f).Some?
    ensures var output := MetaLookup(metafile, env.stripLeadingSlash(env.normalize(f.path))).value;
      var source := env.normalize(output.meta.value.originalPath.value);
      RadonisEntry(env, registry, metafile, f).value.1.islands
        == if source in registry.values then registry.values[source] else []
  {
  }

  // ---------------------------------------------------------------------
  // assetsPlugin

  /** The path helpers `assetsPlugin` calls: `relative` against the outbase
      and against the public path, and the `pathname` of the file URL of
      `join('/', p)`. */
  datatype AssetsEnv = AssetsEnv(
    relativeToOutbase: string -> string,
    relativeToPublic: string -> string,
    fileUrlPath: string -> string)

  /** The `pluginData` an island script is resolved with. */
  datatype PluginData = PluginData(islands: Option<seq<string>>, originalPath: Option<string>)

  /** `pluginData?.islands?.length && pluginData?.originalPath`: a
      non-empty island list and a non-empty original path. */
  predicate Records(d: Option<PluginData>) {
    && d.Some?
    && d.value.islands.Some? && |d.value.islands.value| > 0
    && d.value.originalPath.Some? && d.value.originalPath.value != ""
  }

  /** The islands of an asset: looked up by original path for island
      scripts that have one, none otherwise. */
  function AssetIslands(registry: IslandsByFile, meta: OutputMeta): (r: seq<string>)
    ensures meta.kind != IslandScript ==> r == []
    ensures meta.originalPath.None? || meta.originalPath.value == "" ==> r == []
  {
    if meta.kind == IslandScript && meta.originalPath.Some? && meta.originalPath.value != "" then
      registry.Get(meta.originalPath.value).GetOr([])
    else []
  }

  /** What one pass of the `onEnd` loop sets for an output, or None where it
      continues: no metafile output under the key, or `getOutputMeta`
      throws. */
  function AssetsEntry(env: AssetsEnv, registry: IslandsByFile, metafile: Metafile, f: OutputFile)
    : (r: Option<(string, BuiltAsset)>)
    ensures r.Some? <==>
      && MetaLookup(metafile, env.relativeToOutbase(f.path)).Some?
      && MetaLookup(metafile, env.relativeToOutbase(f.path)).value.meta.Some?
    ensures r.Some? ==> r.value.0 == env.relativeToOutbase(f.path)
  {
    var key := env.relativeToOutbase(f.path);
    match MetaLookup(metafile, key)
    case None => None
    case Some(output) =>
      if output.meta.None? then None
      else
        var meta := output.meta.value;
        var requirements := Requirements(
          Extracted(f.flashMessageMatches), Extracted(f.messageMatches), Extracted(f.routeMatches));
        Some((key, BuiltAsset(meta.kind, BaseName(key), env.fileUrlPath(env.relativeToPublic(f.path)),
                              AssetIslands(registry, meta), output.imports, requirements)))
  }

  function AssetsEntries(env: AssetsEnv, registry: IslandsByFile, metafile: Metafile, files: seq<OutputFile>)
    : (r: seq<Option<(string, BuiltAsset)>>)
    ensures |r| == |files|
    ensures forall i :: 0 <= i < |files| ==> r[i] == AssetsEntry(env, registry, metafile, files[i])
  {
    seq(|files|, i requires 0 <= i < |files| => AssetsEntry(env, registry, metafile, files[i]))
  }

  /** The map `assetsPlugin` hands to `options.onEnd`. */
  function BuiltAssetsOf(env: AssetsEnv, registry: IslandsByFile, metafile: Metafile, files: seq<OutputFile>)
    : (r: BuiltAssets)
    ensures r.Valid()
  {
    SetAll(EmptyMap(), AssetsEntries(env, registry, metafile, files))
  }

  class AssetsPlugin {
    const env: AssetsEnv

    /** `islandsByFile`: the island lists handed over on resolve, keyed by
        original path. */
    var islandsByFile: IslandsByFile

    ghost predicate Valid()
      reads this
    {
      islandsByFile.Valid()
    }

    constructor(env: AssetsEnv)
      ensures Valid() && islandsByFile == EmptyMap()
    {
      this.env := env;
      islandsByFile := EmptyMap();
    }

    /** The `onStart` hook: every pass starts with an empty registry. */
    method OnStart()
      modifies this
      ensures Valid() && islandsByFile == EmptyMap()
    {
      islandsByFile := EmptyMap();
    }

    /** The `onResolve` hook for island scripts: records a non-empty island
        list under a non-empty original path, and never claims the path. */
    method OnResolve(pluginData: Option<PluginData>)
      requires Valid()
      modifies this
      ensures Valid()
      ensures Records(pluginData) ==>
        islandsByFile == old(islandsByFile).Set(pluginData.value.originalPath.value, pluginData.value.islands.value)
      ensures !Records(pluginData) ==> islandsByFile == old(islandsByFile)
    {
      if pluginData.Some? && pluginData.value.islands.Some? && |pluginData.value.islands.value| > 0
        && pluginData.value.originalPath.Some? && pluginData.value.originalPath.value != ""
      {
        islandsByFile := islandsByFile.Set(pluginData.value.originalPath.value, pluginData.value.islands.value);
      }
    }

    /** The body of the `onEnd` loop for one output file: the key and the
        asset it sets, or None where it continues. */
    method OutputEntry(f: OutputFile, metafile: Metafile) returns (entry: Option<(string, BuiltAsset)>)
      ensures entry == AssetsEntry(env, islandsByFile, metafile, f)
    {
      var pathRelativeToOutbase := env.relativeToOutbase(f.path);
      var pathRelativeToPublic := env.relativeToPublic(f.path);
      if metafile.None? || pathRelativeToOutbase !in metafile.value {
        return None;
      }
      var output := metafile.value[pathRelativeToOutbase];
      if output.meta.None? {
        return None;
      }
      var meta := output.meta.value;
      var fileUrl := env.fileUrlPath(pathRelativeToPublic);
      var islands: seq<string> := [];
      if meta.kind == IslandScript && meta.originalPath.Some? && meta.originalPath.value != "" {
        islands := islandsByFile.Get(meta.originalPath.value).GetOr([]);
      }
      var flashMessages := ExtractFlashMessages(f.flashMessageMatches);
      var messages := ExtractMessages(f.messageMatches);
      var routes := ExtractRoutes(f.routeMatches);
      assert islands == AssetIslands(islandsByFile, meta);
      assert MetaLookup(metafile, pathRelativeToOutbase) == Some(output);
      entry := Some((pathRelativeToOutbase, BuiltAsset(meta.kind, BaseName(pathRelativeToOutbase), fileUrl,
                                                       islands, output.imports, Requirements(flashMessages, messages, routes))));
    }

    /** The `onEnd` hook: builds the asset of every output that has a
        metafile entry and readable metadata (a pass without output files
        gives the empty map), and hands the map on; the registry is left as
        it is. */
    method OnEnd(outputFiles: Option<seq<OutputFile>>, metafile: Metafile) returns (built: BuiltAssets)
      requires Valid()
      ensures built == BuiltAssetsOf(env, islandsByFile, metafile, outputFiles.GetOr([]))
    {
      var files := outputFiles.GetOr([]);
      ghost var entries := AssetsEntries(env, islandsByFile, metafile, files);
      built := EmptyMap();
      for i := 0 to |files|
        invariant built.Valid()
        invariant built == SetAll(EmptyMap(), entries[..i])
      {
        SetAllPrefix(EmptyMap(), entries, i);
        var entry := OutputEntry(files[i], metafile);
        if entry.Some? {
          built := built.Set(entry.value.0, entry.value.1);
        }
      }
      assert entries[..|files|] == entries;
    }
  }

  /** A pass without output files builds no assets. */
  lemma NoOutputsNoAssets(env: AssetsEnv, registry: IslandsByFile, metafile: Metafile)
    ensures BuiltAssetsOf(env, registry, metafile, None.GetOr([])).keys == []
  {
  }

  /** The assets are keyed by the outbase-relative paths of the outputs that
      pass the skip rules, in the order they first occur, and each key's
      asset is the one of the last output with that key. */
  lemma BuiltAssetsSpec(env: AssetsEnv, registry: IslandsByFile, metafile: Metafile, files: seq<OutputFile>, k: string)
    ensures BuiltAssetsOf(env, registry, metafile, files).keys
      == Dedupe(PresentKeys(AssetsEntries(env, registry, metafile, files)))
    ensures k in BuiltAssetsOf(env, registry, metafile, files).values <==>
      exists i :: 0 <= i < |files| && AssetsEntry(env, registry, metafile, files[i]).Some?
                  && env.relativeToOutbase(files[i].path) == k
  {
    var entries := AssetsEntries(env, registry, metafile, files);
    SetAllKeys(EmptyMap(), entries);
    assert EmptyMap<string, BuiltAsset>().keys + PresentKeys(entries) == PresentKeys(entries);
    SetAllHas(EmptyMap(), entries, k);
  }

  /** An output that passes, and that no later output with the same key
      overrides, is the asset under its key. */
  lemma AssetsLastOutputWins(env: AssetsEnv, registry: IslandsByFile, metafile: Metafile, files: seq<OutputFile>, i: nat)
    requires i < |files| && AssetsEntry(env, registry, metafile, files[i]).Some?
    requires forall j :: i < j < |files| && AssetsEntry(env, registry, metafile, files[j]).Some? ==>
      env.relativeToOutbase(files[j].path) != env.relativeToOutbase(files[i].path)
    ensures var (k, a) := AssetsEntry(env, registry, metafile, files[i]).value;
      k in BuiltAssetsOf(env, registry, metafile, files).values
      && BuiltAssetsOf(env, registry, metafile, files).values[k] == a
  {
    SetAllLastWins(EmptyMap(), AssetsEntries(env, registry, metafile, files), i);
  }

  /** The island list recorded on resolve for a source file reaches the
      asset of an island script built from it, and no other kind of asset
      gets islands. */
  lemma RecordedIslandsReachAsset(env: AssetsEnv, registry: IslandsByFile, d: PluginData, metafile: Metafile, f: OutputFile)
    requires registry.Valid() && Records(Some(d))
    requires AssetsEntry(env, registry.Set(d.originalPath.value, d.islands.value), metafile, f).Some?
    ensures var output := MetaLookup(metafile, env.relativeToOutbase(f.path)).value;
      var asset := AssetsEntry(env, registry.Set(d.originalPath.value, d.islands.value), metafile, f).value.1;
      && (output.meta.value.kind == IslandScript && output.meta.value.originalPath == d.originalPath ==>
            asset.islands == d.islands.value)
      && (output.meta.value.kind != IslandScript ==> asset.islands == [])
  {
  }

  /** Each asset's requirement lists are what the three extractors find in
      the output's text: trimmed, without repeats, in first-seen order. */
  lemma AssetRequirementsExtracted(env: AssetsEnv, registry: IslandsByFile, metafile: Metafile, f: OutputFile, x: string)
    requires AssetsEntry(env, registry, metafile, f).Some?
    ensures var req := AssetsEntry(env, registry, metafile, f).value.1.requirements;
      && NoDups(req.flashMessages) && NoDups(req.messages) && NoDups(req.routes)
      && (x in req.flashMessages <==> x in CaptureSet(f.flashMessageMatches))
      && (x in req.messages <==> x in CaptureSet(f.messageMatches))
      && (x in req.routes <==> x in CaptureSet(f.routeMatches))
  {
    ExtractedSpec(f.flashMessageMatches);
    ExtractedSpec(f.messageMatches);
    ExtractedSpec(f.routeMatches);
  }
}
