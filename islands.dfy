/** The island transforms of the two build plugins: which files each
    resolver claims, and how the load hook rewrites every island marker of
    a file into a hydration call and prepends the matching import. */
module Islands {
  import opened Wrappers
  import opened Collections
  import opened Strings
  import opened Paths
  import opened Loaders
  import opened BuildUtils

  // ---------------------------------------------------------------------
  // Matches

  /** One match of the island pattern in a source text: the matched text
      and its `identifier` and `symbol` groups, None when absent. */
  datatype IslandMatch = IslandMatch(text: string, identifier: Option<string>, symbol: Option<string>)

  /** A regex group is truthy: present and not the empty string. */
  predicate Truthy(g: Option<string>) {
    g.Some? && g.value != ""
  }

  /** Both groups are truthy; every other match is skipped. */
  predicate IsValid(m: IslandMatch) {
    Truthy(m.identifier) && Truthy(m.symbol)
  }

  // ---------------------------------------------------------------------
  // The rewrite

  /** The two transforms: `radonisPlugin` registers islands through the
      internal call with the groups as matched, `radonisIslandsPlugin`
      through the public call with the groups trimmed. */
  datatype Transform = Internal | Public

  /** The import line put in front of a transformed file. */
  function Header(t: Transform): string {
    match t
    case Internal => "import { __internal__hydrateIsland } from '@microeinhundert/radonis';"
    case Public => "import { hydrateIsland } from '@microeinhundert/radonis';"
  }

  /** The call that replaces a valid match. */
  function Replacement(t: Transform, m: IslandMatch): string
    requires IsValid(m)
  {
    match t
    case Internal => "__internal__hydrateIsland('" + m.identifier.value + "', " + m.symbol.value + ")"
    case Public => "hydrateIsland('" + Trim(m.identifier.value) + "', " + Trim(m.symbol.value) + ")"
  }

  /** The text after the match loop: each valid match, in order, replaces
      the first remaining occurrence of its text in the text so far; with
      no valid match the text is unchanged. */
  function Rewritten(t: Transform, text: string, ms: seq<IslandMatch>): (r: string)
    ensures (forall i :: 0 <= i < |ms| ==> !IsValid(ms[i])) ==> r == text
    decreases |ms|
  {
    if |ms| == 0 then text
    else
      var prev := Rewritten(t, text, ms[..|ms| - 1]);
      var m := ms[|ms| - 1];
      if IsValid(m) then ReplaceFirst(prev, m.text, Replacement(t, m)) else prev
  }

  /** One more match rewrites the text so far once more when it is valid. */
  lemma RewrittenPrefix(t: Transform, text: string, ms: seq<IslandMatch>, i: nat)
    requires i < |ms|
    ensures Rewritten(t, text, ms[..i + 1]) ==
      if IsValid(ms[i]) then ReplaceFirst(Rewritten(t, text, ms[..i]), ms[i].text, Replacement(t, ms[i]))
      else Rewritten(t, text, ms[..i])
  {
    assert ms[..i + 1][..i] == ms[..i];
  }

  lemma ValidIdentifiersPrefix(ms: seq<IslandMatch>, i: nat)
    requires i < |ms|
    ensures ValidIdentifiers(ms[..i + 1]) ==
      if IsValid(ms[i]) then ValidIdentifiers(ms[..i]) + [ms[i].identifier.value] else ValidIdentifiers(ms[..i])
  {
    assert ms[..i + 1][..i] == ms[..i];
  }

  lemma FoundEventsPrefix(ms: seq<IslandMatch>, i: nat, path: string)
    requires i < |ms|
    ensures FoundEvents(ms[..i + 1], path) ==
      if IsValid(ms[i]) then FoundEvents(ms[..i], path) + [IslandFound(Trim(ms[i].identifier.value), path)]
      else FoundEvents(ms[..i], path)
  {
    assert ms[..i + 1][..i] == ms[..i];
  }

  /** The valid matches, in order. */
  function ValidOnly(ms: seq<IslandMatch>): (r: seq<IslandMatch>)
    ensures |r| <= |ms|
    ensures forall i :: 0 <= i < |r| ==> IsValid(r[i])
    decreases |ms|
  {
    if |ms| == 0 then []
    else
      var prev := ValidOnly(ms[..|ms| - 1]);
      if IsValid(ms[|ms| - 1]) then prev + [ms[|ms| - 1]] else prev
  }

  /** The untrimmed identifiers of the valid matches, repeats included. */
  function ValidIdentifiers(ms: seq<IslandMatch>): (r: seq<string>)
    ensures |r| <= |ms|
    decreases |ms|
  {
    if |ms| == 0 then []
    else
      var prev := ValidIdentifiers(ms[..|ms| - 1]);
      var m := ms[|ms| - 1];
      if IsValid(m) then prev + [m.identifier.value] else prev
  }

  /** The island list `radonisPlugin` records for a file: the identifiers
      added to a `Set`, read back in first-seen order. */
  function IslandIds(ms: seq<IslandMatch>): seq<string> {
    Dedupe(ValidIdentifiers(ms))
  }

  /** One `onIslandFound(identifier, path)` callback. */
  datatype IslandFound = IslandFound(identifier: string, path: string)

  /** The callbacks `radonisIslandsPlugin` makes for a file: one per valid
      match, in match order, repeats included, with the trimmed identifier. */
  function FoundEvents(ms: seq<IslandMatch>, path: string): (r: seq<IslandFound>)
    ensures |r| <= |ms|
    decreases |ms|
  {
    if |ms| == 0 then []
    else
      var prev := FoundEvents(ms[..|ms| - 1], path);
      var m := ms[|ms| - 1];
      if IsValid(m) then prev + [IslandFound(Trim(m.identifier.value), path)] else prev
  }

  // ---------------------------------------------------------------------
  // The loops of the two load hooks

  /** One pass of `radonisPlugin`'s match loop: a valid match adds its
      identifier to the island set and rewrites the text. */
  method IslandStep(contents: string, islands: seq<string>, m: IslandMatch) returns (contents': string, islands': seq<string>)
    ensures contents' == if IsValid(m) then ReplaceFirst(contents, m.text, Replacement(Internal, m)) else contents
    ensures islands' == if IsValid(m) && m.identifier.value !in islands then islands + [m.identifier.value] else islands
  {
    contents', islands' := contents, islands;
    if m.identifier.None? || m.identifier.value == "" || m.symbol.None? || m.symbol.value == "" {
      return;
    }
    var identifier := m.identifier.value;
    if identifier !in islands {
      islands' := islands + [identifier];
    }
    contents' := ReplaceFirst(contents, m.text, Replacement(Internal, m));
  }

  /** The match loop of `radonisPlugin`'s island `onLoad`: rewrites every
      valid match with the internal call, collects the identifiers in a
      `Set` (here the sequence of its elements in insertion order), then
      prepends the import line. */
  method RewriteIslands(source: string, matches: seq<IslandMatch>) returns (contents: string, islands: seq<string>)
    ensures contents == Header(Internal) + "\n" + Rewritten(Internal, source, matches)
    ensures islands == IslandIds(matches)
  {
    contents := source;
    islands := [];
    for i := 0 to |matches|
      invariant contents == Rewritten(Internal, source, matches[..i])
      invariant islands == Dedupe(ValidIdentifiers(matches[..i]))
    {
      var m := matches[i];
      RewrittenPrefix(Internal, source, matches, i);
      ValidIdentifiersPrefix(matches, i);
      if IsValid(m) {
        DedupeSnoc(ValidIdentifiers(matches[..i]), m.identifier.value);
      }
      contents, islands := IslandStep(contents, islands, m);
    }
    assert matches[..|matches|] == matches;
    contents := Header(Internal) + "\n" + contents;
  }

  /** The match loop of `radonisIslandsPlugin`'s `onLoad`: for every valid
      match, trims both groups, reports the island, and rewrites the match
      with the public call; then prepends the import line. */
  method RewriteIslandsPublic(path: string, source: string, matches: seq<IslandMatch>) returns (contents: string, found: seq<IslandFound>)
    ensures contents == Header(Public) + "\n" + Rewritten(Public, source, matches)
    ensures found == FoundEvents(matches, path)
  {
    contents := source;
    found := [];
    for i := 0 to |matches|
      invariant contents == Rewritten(Public, source, matches[..i])
      invariant found == FoundEvents(matches[..i], path)
    {
      var m := matches[i];
      RewrittenPrefix(Public, source, matches, i);
      FoundEventsPrefix(matches, i, path);
      if m.identifier.Some? && m.identifier.value != "" && m.symbol.Some? && m.symbol.value != "" {
        found := found + [IslandFound(Trim(m.identifier.value), path)];
        contents := ReplaceFirst(contents, m.text, Replacement(Public, m));
      }
    }
    assert matches[..|matches|] == matches;
    contents := Header(Public) + "\n" + contents;
  }

  // ---------------------------------------------------------------------
  // What the rewrite and the island lists mean

  /** Invalid matches have no effect on the text: the rewrite over all
      matches is the rewrite over the valid ones. */
  lemma {:induction false} RewrittenIgnoresInvalid(t: Transform, text: string, ms: seq<IslandMatch>)
    ensures Rewritten(t, text, ms) == Rewritten(t, text, ValidOnly(ms))
    decreases |ms|
  {
    if |ms| > 0 {
      var init := ms[..|ms| - 1];
      var m := ms[|ms| - 1];
      RewrittenIgnoresInvalid(t, text, init);
      if IsValid(m) {
        var v := ValidOnly(init);
        assert (v + [m])[..|v|] == v;
      }
    }
  }

  /** A file without a valid match keeps its text. */
  lemma NoValidMatchKeepsText(t: Transform, text: string, ms: seq<IslandMatch>)
    requires forall i :: 0 <= i < |ms| ==> !IsValid(ms[i])
    ensures Rewritten(t, text, ms) == text
  {
    RewrittenIgnoresInvalid(t, text, ms);
    ValidOnlyOrigin(ms);
  }

  /** Every valid match is kept by `ValidOnly`, in order; a sequence
      without valid matches keeps none. */
  lemma {:induction false} ValidOnlyOrigin(ms: seq<IslandMatch>)
    ensures (forall i :: 0 <= i < |ms| ==> !IsValid(ms[i])) ==> ValidOnly(ms) == []
    decreases |ms|
  {
    if |ms| > 0 {
      var init := ms[..|ms| - 1];
      assert forall i :: 0 <= i < |init| ==> init[i] == ms[i];
      ValidOnlyOrigin(init);
    }
  }

  /** A valid match whose text occurs in the file replaces the first
      occurrence, and only it, with the hydration call. */
  lemma OneMatchReplacesFirstOccurrence(t: Transform, text: string, m: IslandMatch, k: nat)
    requires IsValid(m) && OccursAt(text, m.text, k)
    requires forall j :: 0 <= j < k ==> !OccursAt(text, m.text, j)
    ensures Rewritten(t, text, [m]) == text[..k] + Replacement(t, m) + text[k + |m.text|..]
  {
    assert [m][..0] == [];
    ReplaceFirstSpec(text, m.text, Replacement(t, m));
  }

  /** A valid match whose text does not occur leaves the text alone. */
  lemma AbsentMatchKeepsText(t: Transform, text: string, m: IslandMatch)
    requires forall j :: !OccursAt(text, m.text, j)
    ensures Rewritten(t, text, [m]) == text
  {
    assert [m][..0] == [];
    ReplaceFirstSpec(text, m.text, if IsValid(m) then Replacement(t, m) else "");
  }

  /** Every valid match contributes its identifier. */
  lemma {:induction false} ValidIdentifiersInclude(ms: seq<IslandMatch>, i: nat)
    requires i < |ms| && IsValid(ms[i])
    ensures ms[i].identifier.value in ValidIdentifiers(ms)
    decreases |ms|
  {
    if i < |ms| - 1 {
      var init := ms[..|ms| - 1];
      assert init[i] == ms[i];
      ValidIdentifiersInclude(init, i);
    }
  }

  /** Every identifier collected comes from a valid match. */
  lemma {:induction false} ValidIdentifiersOrigin(ms: seq<IslandMatch>, x: string) returns (i: nat)
    requires x in ValidIdentifiers(ms)
    ensures i < |ms| && IsValid(ms[i]) && ms[i].identifier.value == x
    decreases |ms|
  {
    var init := ms[..|ms| - 1];
    var m := ms[|ms| - 1];
    if IsValid(m) && m.identifier.value == x {
      i := |ms| - 1;
    } else {
      i := ValidIdentifiersOrigin(init, x);
      assert init[i] == ms[i];
    }
  }

  /** The island list of a file holds each identifier of a valid match
      exactly once, and nothing else. */
  lemma IslandIdsSpec(ms: seq<IslandMatch>, x: string)
    ensures NoDups(IslandIds(ms))
    ensures x in IslandIds(ms) <==> exists i :: 0 <= i < |ms| && IsValid(ms[i]) && ms[i].identifier.value == x
  {
    var v := ValidIdentifiers(ms);
    if x in IslandIds(ms) {
      var k :| 0 <= k < |IslandIds(ms)| && IslandIds(ms)[k] == x;
      var i := ValidIdentifiersOrigin(ms, x);
    }
    if exists i :: 0 <= i < |ms| && IsValid(ms[i]) && ms[i].identifier.value == x {
      var i :| 0 <= i < |ms| && IsValid(ms[i]) && ms[i].identifier.value == x;
      ValidIdentifiersInclude(ms, i);
      var k :| 0 <= k < |v| && v[k] == x;
    }
  }

  /** The callbacks of `radonisIslandsPlugin` are the valid matches, one
      each and in order, reported with the trimmed identifier and the file's
      path. */
  lemma {:induction false} FoundEventsAreValidMatches(ms: seq<IslandMatch>, path: string)
    ensures |FoundEvents(ms, path)| == |ValidOnly(ms)|
    ensures forall k :: 0 <= k < |ValidOnly(ms)| ==>
      FoundEvents(ms, path)[k] == IslandFound(Trim(ValidOnly(ms)[k].identifier.value), path)
    decreases |ms|
  {
    if |ms| > 0 {
      var init := ms[..|ms| - 1];
      var m := ms[|ms| - 1];
      FoundEventsAreValidMatches(init, path);
      var events, valid := FoundEvents(init, path), ValidOnly(init);
      if IsValid(m) {
        assert FoundEvents(ms, path) == events + [IslandFound(Trim(m.identifier.value), path)];
        assert ValidOnly(ms) == valid + [m];
      } else {
        assert FoundEvents(ms, path) == events;
        assert ValidOnly(ms) == valid;
      }
    }
  }
}
