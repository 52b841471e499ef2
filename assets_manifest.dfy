/** The assets manifest builder: from the assets of one build pass to the
    manifest the client reads, folding the hydration requirements of every
    internally imported chunk into the assets that import it. */
module AssetsManifest {
  import opened Collections

  datatype AssetType = ClientScript | IslandScript | ChunkScript | Other

  /** Names one of the three requirement lists. */
  datatype Field = FlashMessages | Messages | Routes

  /** The hydration requirements of an asset: the flash messages, messages
      and routes its components need on the client. */
  datatype Requirements = Requirements(flashMessages: seq<string>, messages: seq<string>, routes: seq<string>) {

    function Get(f: Field): seq<string> {
      match f
      case FlashMessages => flashMessages
      case Messages => messages
      case Routes => routes
    }

    /** The three lists of `other` appended to these, list by list. */
    function Append(other: Requirements): (r: Requirements)
      ensures forall f :: r.Get(f) == Get(f) + other.Get(f)
    {
      Requirements(flashMessages + other.flashMessages, messages + other.messages, routes + other.routes)
    }
  }

  const NoRequirements := Requirements([], [], [])

  /** An import of a built asset: the key of the imported output, and
      whether the bundler left it external. */
  datatype ImportEdge = ImportEdge(path: string, external: bool)

  /** An output of the build pass, with its imports. */
  datatype BuiltAsset = BuiltAsset(
    kind: AssetType, name: string, path: string, islands: seq<string>,
    imports: seq<ImportEdge>, requirements: Requirements)

  /** A manifest entry: a built asset without its imports. */
  datatype Asset = Asset(
    kind: AssetType, name: string, path: string, islands: seq<string>,
    requirements: Requirements)

  /** The built assets, keyed by output path, in insertion order. */
  type BuiltAssets = OrderedMap<string, BuiltAsset>

  /** The rest-spread `{ imports, ...asset }`: every field but `imports`. */
  function WithoutImports(a: BuiltAsset): (r: Asset)
    ensures r.kind == a.kind && r.name == a.name && r.path == a.path
    ensures r.islands == a.islands && r.requirements == a.requirements
  {
    Asset(a.kind, a.name, a.path, a.islands, a.requirements)
  }

  /** An import edge the builder descends into: internal, and naming a
      built asset of type `ChunkScript`. */
  predicate Followed(assets: BuiltAssets, e: ImportEdge) {
    !e.external && e.path in assets.values && assets.values[e.path].kind == ChunkScript
  }

  // ---------------------------------------------------------------------
  // Termination witness. The builder keeps no visited set, so it only
  // terminates when followed edges form no cycle; a rank that strictly
  // decreases along every followed edge is the witness of that.

  /** Every followed edge of `imps` leads to an asset ranked below `bound`. */
  ghost predicate EdgesBelow(assets: BuiltAssets, imps: seq<ImportEdge>, rank: map<string, nat>, bound: nat) {
    forall e :: e in imps && Followed(assets, e) ==> e.path in rank && rank[e.path] < bound
  }

  /** Every asset is ranked above the assets its followed edges lead to. */
  ghost predicate Ranked(assets: BuiltAssets, rank: map<string, nat>) {
    forall k :: k in assets.values ==>
      k in rank && EdgesBelow(assets, assets.values[k].imports, rank, rank[k])
  }

  // ---------------------------------------------------------------------
  // The builder

  /** The reduce of `#reduceHydrationRequirements`: the requirement lists of
      all entries, concatenated in entry order. */
  function Gather(entries: seq<Asset>): (r: Requirements)
    decreases |entries|
  {
    if |entries| == 0 then NoRequirements
    else Gather(entries[..|entries| - 1]).Append(entries[|entries| - 1].requirements)
  }

  /** `#reduceHydrationRequirements`: the gathered lists, each de-duplicated,
      so each holds, once, exactly what some entry lists. */
  function ReduceRequirements(entries: seq<Asset>): (r: Requirements)
    ensures NoDups(r.flashMessages) && NoDups(r.messages) && NoDups(r.routes)
    ensures forall x :: x in r.flashMessages <==> x in Gather(entries).flashMessages
    ensures forall x :: x in r.messages <==> x in Gather(entries).messages
    ensures forall x :: x in r.routes <==> x in Gather(entries).routes
  {
    var g := Gather(entries);
    Requirements(Dedupe(g.flashMessages), Dedupe(g.messages), Dedupe(g.routes))
  }

  lemma ReducedField(entries: seq<Asset>, f: Field)
    ensures ReduceRequirements(entries).Get(f) == Dedupe(Gather(entries).Get(f))
  {
    match f
    case FlashMessages =>
    case Messages =>
    case Routes =>
  }

  /** `#createEntry`: the asset without its imports; when some followed
      import yields a chunk entry, its requirement lists become the reduced
      lists of the asset followed by those chunk entries. */
  function CreateEntry(assets: BuiltAssets, a: BuiltAsset, ghost rank: map<string, nat>, ghost bound: nat): (r: Asset)
    requires Ranked(assets, rank) && EdgesBelow(assets, a.imports, rank, bound)
    ensures r.kind == a.kind && r.name == a.name && r.path == a.path && r.islands == a.islands
    decreases bound, 1
  {
    var own := WithoutImports(a);
    var chunks := ChunkEntries(assets, a.imports, rank, bound);
    if |chunks| > 0 then own.(requirements := ReduceRequirements([own] + chunks)) else own
  }

  /** The imports `#createEntry` descends into, in import order. */
  function FollowedImports(assets: BuiltAssets, imps: seq<ImportEdge>): (r: seq<ImportEdge>)
    ensures |r| <= |imps|
    ensures forall e :: e in r ==> e in imps && Followed(assets, e)
    ensures |r| == 0 <==> forall i :: 0 <= i < |imps| ==> !Followed(assets, imps[i])
    decreases |imps|
  {
    if |imps| == 0 then []
    else
      assert forall i :: 1 <= i < |imps| ==> imps[i] == imps[1..][i - 1];
      (if Followed(assets, imps[0]) then [imps[0]] else []) + FollowedImports(assets, imps[1..])
  }

  /** The `imports.map(...)` of `#createEntry` with the nulls removed: the
      entry of the chunk behind every followed edge, in import order. */
  function ChunkEntries(assets: BuiltAssets, imps: seq<ImportEdge>, ghost rank: map<string, nat>, ghost bound: nat): (r: seq<Asset>)
    requires Ranked(assets, rank) && EdgesBelow(assets, imps, rank, bound)
    ensures |r| == |FollowedImports(assets, imps)|
    ensures forall k :: 0 <= k < |r| ==> r[k] == ChunkEntry(assets, FollowedImports(assets, imps)[k], rank)
    decreases bound, 0
  {
    var fs := FollowedImports(assets, imps);
    seq(|fs|, k requires 0 <= k < |fs| =>
      CreateEntry(assets, assets.values[fs[k].path], rank, rank[fs[k].path]))
  }

  /** The entry of the chunk a followed edge leads to. */
  function ChunkEntry(assets: BuiltAssets, e: ImportEdge, ghost rank: map<string, nat>): Asset
    requires Ranked(assets, rank) && Followed(assets, e)
    decreases rank[e.path], 2
  {
    CreateEntry(assets, assets.values[e.path], rank, rank[e.path])
  }

  /** `build`: one entry per built asset, chunks included, in the map's
      insertion order. */
  function Build(assets: BuiltAssets, ghost rank: map<string, nat>): (r: seq<Asset>)
    requires assets.Valid() && Ranked(assets, rank)
    ensures |r| == |assets.keys|
    ensures forall i :: 0 <= i < |r| ==>
      r[i].path == assets.values[assets.keys[i]].path && r[i].kind == assets.values[assets.keys[i]].kind
    ensures forall i :: 0 <= i < |r| ==>
      r[i] == CreateEntry(assets, assets.values[assets.keys[i]], rank, rank[assets.keys[i]])
  {
    seq(|assets.keys|, i requires 0 <= i < |assets.keys| =>
      CreateEntry(assets, assets.values[assets.keys[i]], rank, rank[assets.keys[i]]))
  }

  // ---------------------------------------------------------------------
  // Gathering

  /** Everything any entry requires is in the gathered lists. */
  lemma {:induction false} GatherIncludes(entries: seq<Asset>, f: Field, i: nat)
    requires i < |entries|
    ensures forall x :: x in entries[i].requirements.Get(f) ==> x in Gather(entries).Get(f)
    decreases |entries|
  {
    var n := |entries| - 1;
    var init := entries[..n];
    var before, last := Gather(init).Get(f), entries[n].requirements.Get(f);
    assert Gather(entries).Get(f) == before + last;
    if i < n {
      assert init[i] == entries[i];
      GatherIncludes(init, f, i);
      forall x | x in entries[i].requirements.Get(f) ensures x in before + last {
        assert x in before;
      }
    } else {
      forall x | x in last ensures x in before + last {
      }
    }
  }

  /** Everything in the gathered lists is required by some entry. */
  lemma {:induction false} GatherOrigin(entries: seq<Asset>, f: Field, x: string) returns (i: nat)
    requires x in Gather(entries).Get(f)
    ensures i < |entries| && x in entries[i].requirements.Get(f)
    decreases |entries|
  {
    var n := |entries| - 1;
    var init := entries[..n];
    assert Gather(entries).Get(f) == Gather(init).Get(f) + entries[n].requirements.Get(f);
    if x in entries[n].requirements.Get(f) {
      i := n;
    } else {
      i := GatherOrigin(init, f, x);
      assert init[i] == entries[i];
    }
  }

  // ---------------------------------------------------------------------
  // Chunk entries

  /** Every followed edge is among the followed imports. */
  lemma {:induction false} FollowedImportsInclude(assets: BuiltAssets, imps: seq<ImportEdge>, i: nat) returns (j: nat)
    requires i < |imps| && Followed(assets, imps[i])
    ensures j < |FollowedImports(assets, imps)| && FollowedImports(assets, imps)[j] == imps[i]
    decreases i
  {
    if i == 0 {
      j := 0;
    } else {
      assert imps[1..][i - 1] == imps[i];
      var j' := FollowedImportsInclude(assets, imps[1..], i - 1);
      j := if Followed(assets, imps[0]) then j' + 1 else j';
    }
  }

  /** The followed imports of a joined list are those of both parts. */
  lemma {:induction false} FollowedImportsAppend(assets: BuiltAssets, xs: seq<ImportEdge>, ys: seq<ImportEdge>)
    ensures FollowedImports(assets, xs + ys) == FollowedImports(assets, xs) + FollowedImports(assets, ys)
    decreases |xs|
  {
    if |xs| == 0 {
      assert xs + ys == ys;
    } else {
      assert (xs + ys)[1..] == xs[1..] + ys;
      FollowedImportsAppend(assets, xs[1..], ys);
    }
  }

  /** The chunk entry of every followed edge is among the chunk entries. */
  lemma ChunkEntriesInclude(assets: BuiltAssets, imps: seq<ImportEdge>, rank: map<string, nat>, bound: nat, i: nat)
    returns (j: nat)
    requires Ranked(assets, rank) && EdgesBelow(assets, imps, rank, bound)
    requires i < |imps| && Followed(assets, imps[i])
    ensures j < |ChunkEntries(assets, imps, rank, bound)|
    ensures ChunkEntries(assets, imps, rank, bound)[j] == ChunkEntry(assets, imps[i], rank)
  {
    j := FollowedImportsInclude(assets, imps, i);
  }

  /** Every chunk entry is the entry of some followed edge. */
  lemma ChunkEntriesOrigin(assets: BuiltAssets, imps: seq<ImportEdge>, rank: map<string, nat>, bound: nat, j: nat) returns (i: nat)
    requires Ranked(assets, rank) && EdgesBelow(assets, imps, rank, bound)
    requires j < |ChunkEntries(assets, imps, rank, bound)|
    ensures i < |imps| && Followed(assets, imps[i])
    ensures ChunkEntries(assets, imps, rank, bound)[j] == ChunkEntry(assets, imps[i], rank)
  {
    var e := FollowedImports(assets, imps)[j];
    assert e in imps;
    i :| 0 <= i < |imps| && imps[i] == e;
  }

  // ---------------------------------------------------------------------
  // One entry

  /** An asset none of whose imports is followed becomes its own entry
      unchanged, its lists not de-duplicated. */
  lemma EntryWithoutChunks(assets: BuiltAssets, a: BuiltAsset, rank: map<string, nat>, bound: nat)
    requires Ranked(assets, rank) && EdgesBelow(assets, a.imports, rank, bound)
    requires forall i :: 0 <= i < |a.imports| ==> !Followed(assets, a.imports[i])
    ensures CreateEntry(assets, a, rank, bound) == WithoutImports(a)
  {
  }

  /** An asset with a followed import gets, list by list, the de-duplicated
      concatenation of its own list and those of its chunk entries, in
      import order. */
  lemma EntryWithChunks(assets: BuiltAssets, a: BuiltAsset, rank: map<string, nat>, bound: nat, i: nat)
    requires Ranked(assets, rank) && EdgesBelow(assets, a.imports, rank, bound)
    requires i < |a.imports| && Followed(assets, a.imports[i])
    ensures forall f ::
      CreateEntry(assets, a, rank, bound).requirements.Get(f) ==
      Dedupe(Gather([WithoutImports(a)] + ChunkEntries(assets, a.imports, rank, bound)).Get(f))
    ensures forall f :: NoDups(CreateEntry(assets, a, rank, bound).requirements.Get(f))
  {
    var own := WithoutImports(a);
    var chunks := ChunkEntries(assets, a.imports, rank, bound);
    assert |chunks| > 0;
    forall f
      ensures CreateEntry(assets, a, rank, bound).requirements.Get(f) == Dedupe(Gather([own] + chunks).Get(f))
    {
      ReducedField([own] + chunks, f);
    }
  }

  /** An entry keeps all of its asset's own requirements. */
  lemma EntryIncludesOwn(assets: BuiltAssets, a: BuiltAsset, rank: map<string, nat>, bound: nat, f: Field)
    requires Ranked(assets, rank) && EdgesBelow(assets, a.imports, rank, bound)
    ensures forall x :: x in a.requirements.Get(f) ==> x in CreateEntry(assets, a, rank, bound).requirements.Get(f)
  {
    var own := WithoutImports(a);
    var chunks := ChunkEntries(assets, a.imports, rank, bound);
    if |chunks| > 0 {
      assert ([own] + chunks)[0] == own;
      GatherIncludes([own] + chunks, f, 0);
      ReducedField([own] + chunks, f);
    }
  }

  /** The reduced lists include every list they reduce. */
  lemma ReducedIncludes(es: seq<Asset>, f: Field, j: nat)
    requires j < |es|
    ensures forall x :: x in es[j].requirements.Get(f) ==> x in ReduceRequirements(es).Get(f)
  {
    GatherIncludes(es, f, j);
    ReducedField(es, f);
  }

  /** An entry includes everything the entry of any chunk it follows
      requires. */
  lemma EntryIncludesChunk(assets: BuiltAssets, a: BuiltAsset, rank: map<string, nat>, bound: nat, f: Field, i: nat)
    requires Ranked(assets, rank) && EdgesBelow(assets, a.imports, rank, bound)
    requires i < |a.imports| && Followed(assets, a.imports[i])
    ensures forall x :: x in ChunkEntry(assets, a.imports[i], rank).requirements.Get(f) ==>
      x in CreateEntry(assets, a, rank, bound).requirements.Get(f)
  {
    var j := ChunkEntriesInclude(assets, a.imports, rank, bound, i);
    ChunkInReduced(WithoutImports(a), ChunkEntries(assets, a.imports, rank, bound), j, f);
    ReducedEntry(assets, a, rank, bound);
  }

  /** The reduced lists include those of every chunk entry. */
  lemma ChunkInReduced(own: Asset, chunks: seq<Asset>, j: nat, f: Field)
    requires j < |chunks|
    ensures forall x :: x in chunks[j].requirements.Get(f) ==> x in ReduceRequirements([own] + chunks).Get(f)
  {
    assert ([own] + chunks)[j + 1] == chunks[j];
    ReducedIncludes([own] + chunks, f, j + 1);
  }

  /** With some chunk entry, an entry's lists are the reduced lists. */
  lemma ReducedEntry(assets: BuiltAssets, a: BuiltAsset, rank: map<string, nat>, bound: nat)
    requires Ranked(assets, rank) && EdgesBelow(assets, a.imports, rank, bound)
    requires |ChunkEntries(assets, a.imports, rank, bound)| > 0
    ensures CreateEntry(assets, a, rank, bound).requirements ==
      ReduceRequirements([WithoutImports(a)] + ChunkEntries(assets, a.imports, rank, bound))
  {
  }

  /** Everything an entry requires is required by its asset itself (-1) or
      by the entry of a chunk it follows (the index of that edge). */
  lemma EntryOrigin(assets: BuiltAssets, a: BuiltAsset, rank: map<string, nat>, bound: nat, f: Field, x: string) returns (i: int)
    requires Ranked(assets, rank) && EdgesBelow(assets, a.imports, rank, bound)
    requires x in CreateEntry(assets, a, rank, bound).requirements.Get(f)
    ensures -1 <= i < |a.imports|
    ensures i == -1 ==> x in a.requirements.Get(f)
    ensures i >= 0 ==> Followed(assets, a.imports[i]) && x in ChunkEntry(assets, a.imports[i], rank).requirements.Get(f)
  {
    var own := WithoutImports(a);
    var chunks := ChunkEntries(assets, a.imports, rank, bound);
    if |chunks| == 0 {
      i := -1;
    } else {
      ReducedField([own] + chunks, f);
      var j := GatherOrigin([own] + chunks, f, x);
      if j == 0 {
        i := -1;
      } else {
        assert ([own] + chunks)[j] == chunks[j - 1];
        var k := ChunkEntriesOrigin(assets, a.imports, rank, bound, j - 1);
        i := k;
      }
    }
  }

  /** An import edge the builder does not follow (external, unknown, or not
      a chunk) can be removed from any position without changing the entry. */
  lemma UnfollowedEdgeIrrelevant(assets: BuiltAssets, a: BuiltAsset, xs: seq<ImportEdge>, e: ImportEdge, ys: seq<ImportEdge>, rank: map<string, nat>, bound: nat)
    requires Ranked(assets, rank) && !Followed(assets, e)
    requires a.imports == xs + [e] + ys && EdgesBelow(assets, a.imports, rank, bound)
    ensures EdgesBelow(assets, xs + ys, rank, bound)
    ensures CreateEntry(assets, a, rank, bound) == CreateEntry(assets, a.(imports := xs + ys), rank, bound)
  {
    ChunkEntriesSkip(assets, xs, e, ys, rank, bound);
    SameChunksSameEntry(assets, a, a.(imports := xs + ys), rank, bound);
  }

  /** Removing an unfollowed edge leaves the followed imports as they are. */
  lemma FollowedImportsSkip(assets: BuiltAssets, xs: seq<ImportEdge>, e: ImportEdge, ys: seq<ImportEdge>)
    requires !Followed(assets, e)
    ensures FollowedImports(assets, xs + [e] + ys) == FollowedImports(assets, xs + ys)
  {
    var none := FollowedImports(assets, [e]);
    assert none == [] by {
      assert [e][1..] == [];
    }
    var fx := FollowedImports(assets, xs);
    var fy := FollowedImports(assets, ys);
    FollowedImportsAppend(assets, xs, [e]);
    assert FollowedImports(assets, xs + [e]) == fx;
    FollowedImportsAppend(assets, xs + [e], ys);
    FollowedImportsAppend(assets, xs, ys);
  }

  /** Import lists with the same followed imports have the same chunk
      entries. */
  lemma SameFollowedSameChunks(assets: BuiltAssets, xs: seq<ImportEdge>, ys: seq<ImportEdge>, rank: map<string, nat>, bound: nat)
    requires Ranked(assets, rank)
    requires EdgesBelow(assets, xs, rank, bound) && EdgesBelow(assets, ys, rank, bound)
    requires FollowedImports(assets, xs) == FollowedImports(assets, ys)
    ensures ChunkEntries(assets, xs, rank, bound) == ChunkEntries(assets, ys, rank, bound)
  {
  }

  lemma ChunkEntriesSkip(assets: BuiltAssets, xs: seq<ImportEdge>, e: ImportEdge, ys: seq<ImportEdge>, rank: map<string, nat>, bound: nat)
    requires Ranked(assets, rank) && !Followed(assets, e)
    requires EdgesBelow(assets, xs + [e] + ys, rank, bound)
    ensures EdgesBelow(assets, xs + ys, rank, bound)
    ensures ChunkEntries(assets, xs + [e] + ys, rank, bound) == ChunkEntries(assets, xs + ys, rank, bound)
  {
    assert forall d :: d in xs + ys ==> d in xs + [e] + ys;
    FollowedImportsSkip(assets, xs, e, ys);
    SameFollowedSameChunks(assets, xs + [e] + ys, xs + ys, rank, bound);
  }

  /** Two assets that differ at most in imports with the same chunk entries
      have the same entry. */
  lemma SameChunksSameEntry(assets: BuiltAssets, a: BuiltAsset, b: BuiltAsset, rank: map<string, nat>, bound: nat)
    requires Ranked(assets, rank)
    requires EdgesBelow(assets, a.imports, rank, bound) && EdgesBelow(assets, b.imports, rank, bound)
    requires WithoutImports(a) == WithoutImports(b)
    requires ChunkEntries(assets, a.imports, rank, bound) == ChunkEntries(assets, b.imports, rank, bound)
    ensures CreateEntry(assets, a, rank, bound) == CreateEntry(assets, b, rank, bound)
  {
  }

  // ---------------------------------------------------------------------
  // The transitive fold

  /** `k` is the key of an import of `a` that the builder follows. */
  ghost predicate FollowsTo(assets: BuiltAssets, a: BuiltAsset, k: string) {
    exists i :: 0 <= i < |a.imports| && Followed(assets, a.imports[i]) && a.imports[i].path == k
  }

  /** `chain` lists the keys met walking followed imports from `a`, one
      edge at a time. */
  ghost predicate ImportChain(assets: BuiltAssets, a: BuiltAsset, chain: seq<string>)
    ensures ImportChain(assets, a, chain) ==> |chain| > 0 && chain[|chain| - 1] in assets.values
    decreases |chain|
  {
    && |chain| > 0
    && chain[0] in assets.values
    && FollowsTo(assets, a, chain[0])
    && (|chain| == 1 || ImportChain(assets, assets.values[chain[0]], chain[1..]))
  }

  /** An entry includes the entry of every chunk its asset follows. */
  lemma FollowedEntryIncluded(assets: BuiltAssets, a: BuiltAsset, rank: map<string, nat>, bound: nat, k: string, f: Field, x: string)
    requires Ranked(assets, rank) && EdgesBelow(assets, a.imports, rank, bound)
    requires k in assets.values && FollowsTo(assets, a, k)
    requires k in rank && x in CreateEntry(assets, assets.values[k], rank, rank[k]).requirements.Get(f)
    ensures x in CreateEntry(assets, a, rank, bound).requirements.Get(f)
  {
    var i :| 0 <= i < |a.imports| && Followed(assets, a.imports[i]) && a.imports[i].path == k;
    EntryIncludesChunk(assets, a, rank, bound, f, i);
  }

  /** An entry includes the own requirements of every chunk reachable from
      its asset along followed imports, however deep. */
  lemma {:induction false} ChainIncluded(assets: BuiltAssets, a: BuiltAsset, rank: map<string, nat>, bound: nat, chain: seq<string>, f: Field, x: string)
    requires Ranked(assets, rank) && EdgesBelow(assets, a.imports, rank, bound)
    requires ImportChain(assets, a, chain)
    requires x in assets.values[chain[|chain| - 1]].requirements.Get(f)
    ensures x in CreateEntry(assets, a, rank, bound).requirements.Get(f)
    decreases |chain|
  {
    var k := chain[0];
    var c := assets.values[k];
    assert x in CreateEntry(assets, c, rank, rank[k]).requirements.Get(f) by {
      if |chain| == 1 {
        EntryIncludesOwn(assets, c, rank, rank[k], f);
      } else {
        var rest := chain[1..];
        assert rest[|rest| - 1] == chain[|chain| - 1];
        ChainIncluded(assets, c, rank, rank[k], rest, f, x);
      }
    }
    FollowedEntryIncluded(assets, a, rank, bound, k, f, x);
  }

  /** Everything an entry requires is required by its asset itself (empty
      chain) or by a chunk reachable from it along followed imports (the
      last key of the chain). */
  lemma {:induction false} ChainOrigin(assets: BuiltAssets, a: BuiltAsset, rank: map<string, nat>, bound: nat, f: Field, x: string) returns (chain: seq<string>)
    requires Ranked(assets, rank) && EdgesBelow(assets, a.imports, rank, bound)
    requires x in CreateEntry(assets, a, rank, bound).requirements.Get(f)
    ensures chain == [] ==> x in a.requirements.Get(f)
    ensures chain != [] ==> ImportChain(assets, a, chain) && x in assets.values[chain[|chain| - 1]].requirements.Get(f)
    decreases bound
  {
    var i := EntryOrigin(assets, a, rank, bound, f, x);
    if i == -1 {
      chain := [];
    } else {
      var e := a.imports[i];
      var c := ChunkStep(assets, a, rank, bound, i);
      var sub := ChainOrigin(assets, c, rank, rank[e.path], f, x);
      chain := ChainCons(assets, a, i, sub);
      if sub == [] {
        assert x in assets.values[chain[|chain| - 1]].requirements.Get(f);
      }
    }
  }

  /** The chunk a followed edge leads to is ranked below `bound`, and its
      entry is the edge's chunk entry. */
  lemma ChunkStep(assets: BuiltAssets, a: BuiltAsset, rank: map<string, nat>, bound: nat, i: nat) returns (c: BuiltAsset)
    requires Ranked(assets, rank) && EdgesBelow(assets, a.imports, rank, bound)
    requires i < |a.imports| && Followed(assets, a.imports[i])
    ensures c == assets.values[a.imports[i].path]
    ensures rank[a.imports[i].path] < bound && EdgesBelow(assets, c.imports, rank, rank[a.imports[i].path])
    ensures ChunkEntry(assets, a.imports[i], rank) == CreateEntry(assets, c, rank, rank[a.imports[i].path])
  {
    assert a.imports[i] in a.imports;
    c := assets.values[a.imports[i].path];
  }

  /** A followed edge of `a` in front of a chain from the chunk it leads
      to (or of no chain) is a chain from `a` with the same last key. */
  lemma ChainCons(assets: BuiltAssets, a: BuiltAsset, i: nat, sub: seq<string>) returns (chain: seq<string>)
    requires i < |a.imports| && Followed(assets, a.imports[i])
    requires sub != [] ==> ImportChain(assets, assets.values[a.imports[i].path], sub)
    ensures chain == [a.imports[i].path] + sub
    ensures ImportChain(assets, a, chain)
    ensures chain[|chain| - 1] == if sub == [] then a.imports[i].path else sub[|sub| - 1]
  {
    chain := [a.imports[i].path] + sub;
    assert chain[1..] == sub;
    assert FollowsTo(assets, a, chain[0]);
  }
}
