/** The resolve and load hooks of the build plugins: which import paths
    each plugin claims for its namespaces, and what it hands back to esbuild
    for a claimed file. */
module Resolvers {
  import opened Wrappers
  import opened Strings
  import opened Paths
  import opened Loaders
  import opened Islands

  /** The two script roles a file name can carry before its extension. */
  datatype Role = Client | Island

  function RoleName(role: Role): string {
    match role
    case Client => "client"
    case Island => "island"
  }

  /** The extensions `(ts(x)?|js(x)?)` of the resolve filters, with their
      dot. */
  predicate IsScriptExt(ext: string) {
    ext == ".ts" || ext == ".tsx" || ext == ".js" || ext == ".jsx"
  }

  lemma ScriptExtShape(ext: string)
    requires IsScriptExt(ext)
    ensures 3 <= |ext| <= 4 && ext[0] == '.' && '.' !in ext[1..] && '/' !in ext
  {
  }

  /** The suffix `.<role><ext>`. */
  function RoleSuffix(role: Role, ext: string): string {
    "." + RoleName(role) + ext
  }

  /** The resolve filters `\.client\.(ts(x)?|js(x)?)$` and
      `\.island\.(ts(x)?|js(x)?)$`: the path ends with the role and one of
      the four script extensions. */
  predicate MatchesRole(path: string, role: Role) {
    || EndsWith(path, RoleSuffix(role, ".ts"))
    || EndsWith(path, RoleSuffix(role, ".tsx"))
    || EndsWith(path, RoleSuffix(role, ".js"))
    || EndsWith(path, RoleSuffix(role, ".jsx"))
  }

  /** The namespaces the plugins put claimed files in: the asset types for
      `radonisPlugin`, two plain names for the stand-alone plugins. */
  datatype Namespace =
    | ClientScriptNamespace
    | IslandScriptNamespace
    | RadonisClientScript
    | RadonisIslandScript

  /** A claimed import: the path, unchanged, in the plugin's namespace. */
  datatype Resolved = Resolved(path: string, namespace: Namespace)

  /** `radonisPlugin`'s two `onResolve` hooks: a path matching the role's
      filter is claimed only when it is an entry point; every other path is
      left to the next resolver (None). */
  function ResolveEntryPoint(role: Role, path: string, kind: string): (r: Option<Resolved>)
    ensures r.Some? <==> MatchesRole(path, role) && kind == "entry-point"
    ensures r.Some? ==> r.value.path == path
    ensures r.Some? ==> r.value.namespace == (if role == Client then ClientScriptNamespace else IslandScriptNamespace)
  {
    if !MatchesRole(path, role) then None
    else if kind != "entry-point" then None
    else Some(Resolved(path, if role == Client then ClientScriptNamespace else IslandScriptNamespace))
  }

  /** The `onResolve` hooks of `radonisIslandsPlugin` and
      `radonisClientPlugin`: every path matching the filter is claimed,
      whatever the kind of import. */
  function ResolveAny(role: Role, path: string): (r: Option<Resolved>)
    ensures r.Some? <==> MatchesRole(path, role)
    ensures r.Some? ==> r.value.path == path
    ensures r.Some? ==> r.value.namespace == (if role == Client then RadonisClientScript else RadonisIslandScript)
  {
    if MatchesRole(path, role) then Some(Resolved(path, if role == Client then RadonisClientScript else RadonisIslandScript))
    else None
  }

  /** An entry point claimed by `radonisPlugin` is claimed by the
      stand-alone plugin of the same role too, which also claims imports of
      any other kind. */
  lemma EntryPointResolverIsNarrower(role: Role, path: string, kind: string)
    ensures ResolveEntryPoint(role, path, kind).Some? ==> ResolveAny(role, path).Some?
    ensures kind == "entry-point" ==> (ResolveEntryPoint(role, path, kind).Some? <==> ResolveAny(role, path).Some?)
  {
  }

  /** A path with a role suffix has its last dot right before the
      extension, and the role's first letter seven characters before it. */
  lemma RoleSuffixShape(path: string, role: Role, ext: string)
    requires IsScriptExt(ext) && EndsWith(path, RoleSuffix(role, ext))
    ensures LastIndexOf(path, '.') == |path| - |ext|
    ensures path[|path| - |ext| - 6] == RoleName(role)[0]
  {
    var name := RoleName(role);
    var suf := RoleSuffix(role, ext);
    var n := |path| - |suf|;
    ScriptExtShape(ext);
    assert |name| == 6 && |suf| == 7 + |ext|;
    assert path[n..] == suf;
    forall k | |path| - |ext| < k < |path| ensures path[k] != '.' {
      var t := k - n - 7;
      assert path[k] == suf[7 + t];
      assert suf[7 + t] == ext[t];
      assert ext[t] == ext[1..][t - 1];
    }
    assert path[|path| - |ext|] == suf[7] == ext[0];
    LastIndexOfAt(path, '.', |path| - |ext|);
    assert path[n + 1] == suf[1] == name[0];
  }

  /** A claimed path ends with one of the four suffixes of its role. */
  lemma ClaimedSuffix(path: string, role: Role) returns (ext: string)
    requires MatchesRole(path, role)
    ensures IsScriptExt(ext) && EndsWith(path, RoleSuffix(role, ext))
  {
    if EndsWith(path, RoleSuffix(role, ".ts")) {
      ext := ".ts";
    } else if EndsWith(path, RoleSuffix(role, ".tsx")) {
      ext := ".tsx";
    } else if EndsWith(path, RoleSuffix(role, ".js")) {
      ext := ".js";
    } else {
      ext := ".jsx";
    }
  }

  /** No path is both a client script and an island script, so the two
      namespaces never compete for a file. */
  lemma RolesAreDisjoint(path: string)
    ensures !(MatchesRole(path, Client) && MatchesRole(path, Island))
  {
    if MatchesRole(path, Client) && MatchesRole(path, Island) {
      var c := ClaimedSuffix(path, Client);
      var i := ClaimedSuffix(path, Island);
      RoleSuffixShape(path, Client, c);
      RoleSuffixShape(path, Island, i);
      assert false;
    }
  }

  /** A claimed path has the extension its role suffix ends with. */
  lemma RoleSuffixExtension(path: string, role: Role, ext: string)
    requires IsScriptExt(ext) && EndsWith(path, RoleSuffix(role, ext))
    ensures ExtName(path) == ext
  {
    ScriptExtShape(ext);
    assert RoleSuffix(role, ext) == ("." + RoleName(role)) + ext;
    ExtNameBySuffix(path, "." + RoleName(role), ext);
  }

  /** Every file either resolver claims has a script extension and loads
      with that extension's loader (`.ts` and `.tsx` their own, `.js` and
      `.jsx` the JSX loader, as `ScriptLoaders` states). */
  lemma ClaimedFilesHaveLoader(path: string, role: Role)
    requires MatchesRole(path, role)
    ensures IsScriptExt(ExtName(path)) && ExtName(path) in ScriptTable
    ensures GetLoaderForFile(path) == Ok(ScriptTable[ExtName(path)])
  {
    var ext := ClaimedSuffix(path, role);
    RoleSuffixExtension(path, role, ext);
    ScriptFileLoader(path, ext);
  }

  // ---------------------------------------------------------------------
  // Load hooks

  /** What a load hook hands back: the file's contents and its loader
      (the resolve directory is the file's directory and is not modelled). */
  datatype Loaded = Loaded(contents: string, loader: Loader)

  /** The client `onLoad` hooks of both plugins: the file's text, unchanged,
      with the loader for its extension; a file without one fails the load. */
  function LoadClient(path: string, text: string): (r: Result<Loaded, LoaderError>)
    ensures r.Ok? ==> r.value.contents == text && Ok(r.value.loader) == GetLoaderForFile(path)
    ensures r.Err? <==> GetLoaderForFile(path).Err?
  {
    match GetLoaderForFile(path)
    case Ok(l) => Ok(Loaded(text, l))
    case Err(e) => Err(e)
  }

  /** A client script claimed by either resolver always loads, unchanged. */
  lemma ClaimedClientLoads(path: string, text: string)
    requires ResolveAny(Client, path).Some?
    ensures GetLoaderForFile(path).Ok?
    ensures LoadClient(path, text) == Ok(Loaded(text, GetLoaderForFile(path).value))
  {
    ClaimedFilesHaveLoader(path, Client);
  }

  /** `radonisIslandsPlugin`'s `onLoad`: the island callbacks of the match
      loop are made before the loader lookup, so they happen even when the
      load then fails. */
  method LoadIslandPublic(path: string, text: string, matches: seq<IslandMatch>)
    returns (found: seq<IslandFound>, r: Result<Loaded, LoaderError>)
    ensures found == FoundEvents(matches, path)
    ensures r.Ok? <==> GetLoaderForFile(path).Ok?
    ensures r.Ok? ==> r.value == Loaded(Header(Public) + "\n" + Rewritten(Public, text, matches), GetLoaderForFile(path).value)
  {
    var contents;
    contents, found := RewriteIslandsPublic(path, text, matches);
    var loader := GetLoaderForFile(path);
    if loader.Err? {
      return found, Err(loader.error);
    }
    r := Ok(Loaded(contents, loader.value));
  }
}
