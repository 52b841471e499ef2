/** The build package's text utilities: identifier extraction from bundle
    text, the component-file naming rule and the path-to-URL normaliser. */
module BuildUtils {
  import opened Wrappers
  import opened Collections
  import opened Strings
  import opened Paths

  // ---------------------------------------------------------------------
  // Identifier extraction

  /** One match of an identifier pattern: its named `identifier` group, or
      None when the match has no such group. */
  datatype IdentifierMatch = IdentifierMatch(identifier: Option<string>)

  /** The group is truthy: present and not the empty string. */
  predicate HasIdentifier(m: IdentifierMatch) {
    m.identifier.Some? && m.identifier.value != ""
  }

  /** The trimmed identifiers of the matches that have one, in match order,
      repeats included. */
  function Captured(ms: seq<IdentifierMatch>): (r: seq<string>)
    ensures |r| <= |ms|
  {
    if |ms| == 0 then []
    else
      var prefix := Captured(ms[..|ms| - 1]);
      var m := ms[|ms| - 1];
      if HasIdentifier(m) then prefix + [Trim(m.identifier.value)] else prefix
  }

  /** What an extractor returns for a list of matches: the trimmed captures
      read back from a `Set`, i.e. without repeats, in first-seen order. */
  function Extracted(ms: seq<IdentifierMatch>): seq<string> {
    Dedupe(Captured(ms))
  }

  /** The loop shared by `extractFlashMessages`, `extractMessages` and
      `extractRoutes`: add the trimmed identifier of every match that has a
      non-empty one to a `Set`, then read the set back. */
  method CollectIdentifiers(matches: seq<IdentifierMatch>) returns (ids: seq<string>)
    ensures ids == Extracted(matches)
  {
    var identifiers: seq<string> := [];
    var seen: set<string> := {};
    for i := 0 to |matches|
      invariant identifiers == Dedupe(Captured(matches[..i]))
      invariant forall x :: x in seen <==> x in identifiers
    {
      assert matches[..i + 1][..i] == matches[..i];
      var m := matches[i];
      if m.identifier.Some? && m.identifier.value != "" {
        var id := Trim(m.identifier.value);
        DedupeSnoc(Captured(matches[..i]), id);
        if id !in seen {
          identifiers := identifiers + [id];
          seen := seen + {id};
        }
      }
    }
    assert matches[..|matches|] == matches;
    ids := identifiers;
  }

  /** `extractFlashMessages`, given the matches of the flash-message pattern. */
  method ExtractFlashMessages(matches: seq<IdentifierMatch>) returns (ids: seq<string>)
    ensures ids == Extracted(matches)
  {
    ids := CollectIdentifiers(matches);
  }

  /** `extractMessages`, given the matches of the message pattern. */
  method ExtractMessages(matches: seq<IdentifierMatch>) returns (ids: seq<string>)
    ensures ids == Extracted(matches)
  {
    ids := CollectIdentifiers(matches);
  }

  /** `extractRoutes`, given the matches of the route pattern. */
  method ExtractRoutes(matches: seq<IdentifierMatch>) returns (ids: seq<string>)
    ensures ids == Extracted(matches)
  {
    ids := CollectIdentifiers(matches);
  }

  /** The set of trimmed non-empty captures of a match list. */
  ghost function CaptureSet(ms: seq<IdentifierMatch>): set<string> {
    set i | 0 <= i < |ms| && HasIdentifier(ms[i]) :: Trim(ms[i].identifier.value)
  }

  lemma CaptureSetSnoc(ms: seq<IdentifierMatch>)
    requires |ms| > 0
    ensures var p := ms[..|ms| - 1]; var m := ms[|ms| - 1];
      CaptureSet(ms) == CaptureSet(p) + (if HasIdentifier(m) then {Trim(m.identifier.value)} else {})
  {
    var p := ms[..|ms| - 1];
    var m := ms[|ms| - 1];
    forall x | x in CaptureSet(ms)
      ensures x in CaptureSet(p) + (if HasIdentifier(m) then {Trim(m.identifier.value)} else {})
    {
      var i :| 0 <= i < |ms| && HasIdentifier(ms[i]) && Trim(ms[i].identifier.value) == x;
      if i < |p| {
        assert p[i] == ms[i];
      }
    }
    forall x | x in CaptureSet(p)
      ensures x in CaptureSet(ms)
    {
      var i :| 0 <= i < |p| && HasIdentifier(p[i]) && Trim(p[i].identifier.value) == x;
      assert ms[i] == p[i];
    }
    if HasIdentifier(m) {
      assert ms[|ms| - 1] == m;
    }
  }

  /** Every captured identifier comes from a match with a non-empty group,
      trimmed; and every such match contributes its trimmed group. */
  lemma {:induction false} CapturedMembers(ms: seq<IdentifierMatch>)
    ensures forall x :: x in Captured(ms) <==> x in CaptureSet(ms)
  {
    if |ms| > 0 {
      CapturedMembers(ms[..|ms| - 1]);
      CaptureSetSnoc(ms);
    }
  }

  /** The extractor output has no repeats, lists identifiers in the order
      they are first captured, and holds exactly the trimmed non-empty
      captures. */
  lemma ExtractedSpec(ms: seq<IdentifierMatch>)
    ensures NoDups(Extracted(ms))
    ensures InFirstOccurrenceOrder(Captured(ms), Extracted(ms))
    ensures forall x :: x in Extracted(ms) <==> x in CaptureSet(ms)
  {
    DedupeFirstOccurrenceOrder(Captured(ms));
    CapturedMembers(ms);
    forall x ensures x in Extracted(ms) <==> x in Captured(ms) {
    }
  }

  /** A capture made only of whitespace is truthy, so it is kept, and
      contributes the empty identifier. */
  lemma WhitespaceCaptureGivesEmpty(ms: seq<IdentifierMatch>, i: nat)
    requires i < |ms| && ms[i].identifier.Some? && |ms[i].identifier.value| > 0
    requires forall j :: 0 <= j < |ms[i].identifier.value| ==> IsJsWhitespace(ms[i].identifier.value[j])
    ensures "" in Extracted(ms)
  {
    ExtractedSpec(ms);
    assert Trim(ms[i].identifier.value) in CaptureSet(ms);
  }

  /** Repeating the whole match list changes nothing: a repeated usage of
      an identifier is reported once. */
  lemma {:induction false} ExtractedRepeat(ms: seq<IdentifierMatch>, extra: seq<IdentifierMatch>)
    requires forall j :: 0 <= j < |extra| ==> extra[j] in ms
    ensures Extracted(ms + extra) == Extracted(ms)
  {
    if |extra| > 0 {
      var e := extra[..|extra| - 1];
      var last := extra[|extra| - 1];
      ExtractedRepeat(ms, e);
      assert (ms + extra)[..|ms + extra| - 1] == ms + e;
      assert (ms + extra)[|ms + extra| - 1] == last;
      if HasIdentifier(last) {
        var t := Trim(last.identifier.value);
        assert Captured(ms + extra) == Captured(ms + e) + [t];
        var i :| 0 <= i < |ms| && ms[i] == last;
        CapturedMembers(ms + e);
        assert (ms + e)[i] == ms[i];
        assert t in CaptureSet(ms + e);
        DedupeSnoc(Captured(ms + e), t);
      } else {
        assert Captured(ms + extra) == Captured(ms + e);
      }
    } else {
      assert ms + extra == ms;
    }
  }

  // ---------------------------------------------------------------------
  // Component files

  predicate IsUpperAscii(c: char) {
    'A' <= c <= 'Z'
  }

  /** The `\w` class of a regular expression without the `u` flag. */
  predicate IsWordChar(c: char) {
    ('A' <= c <= 'Z') || ('a' <= c <= 'z') || ('0' <= c <= '9') || c == '_'
  }

  predicate IsScriptExtension(e: string) {
    e == "ts" || e == "tsx" || e == "js" || e == "jsx"
  }

  /** `^[A-Z]\w+\.(ts(x)?|js(x)?)$` on a base name: an upper-case letter, at
      least one word character, a dot, and a script extension. Word
      characters exclude the dot, so the dot is the only one. */
  predicate IsComponentBaseName(b: string) {
    var d := LastIndexOf(b, '.');
    && d >= 2
    && IsUpperAscii(b[0])
    && (forall i :: 1 <= i < d ==> IsWordChar(b[i]))
    && IsScriptExtension(b[d + 1..])
  }

  /** `isComponentFile`: the rule is applied to the base name only, so a
      component file's base name ends in a script extension. */
  function IsComponentFile(filePath: string): (r: bool)
    ensures r ==> var b := BaseName(filePath);
      EndsWith(b, ".ts") || EndsWith(b, ".tsx") || EndsWith(b, ".js") || EndsWith(b, ".jsx")
  {
    var b := BaseName(filePath);
    if IsComponentBaseName(b) then
      var d := LastIndexOf(b, '.');
      ScriptExtensionSuffix(b, d);
      true
    else false
  }

  lemma ScriptExtensionSuffix(b: string, d: int)
    requires 0 <= d < |b| && b[d] == '.' && IsScriptExtension(b[d + 1..])
    ensures EndsWith(b, ".ts") || EndsWith(b, ".tsx") || EndsWith(b, ".js") || EndsWith(b, ".jsx")
  {
    assert b[d..] == "." + b[d + 1..];
    ScriptExtensionDotted(b[d + 1..]);
  }

  /** A component file has a script extension in the sense of `extname`,
      the extension the loader table is keyed by. */
  lemma ComponentExtName(filePath: string)
    requires IsComponentFile(filePath)
    ensures ExtName(filePath) in {".ts", ".tsx", ".js", ".jsx"}
  {
    var b := BaseName(filePath);
    assert IsComponentBaseName(b);
    var d := LastIndexOf(b, '.');
    SplitAtDot(b, d);
    ExtNameOfBase(filePath, b[..d], b[d + 1..]);
    ScriptExtensionDotted(b[d + 1..]);
  }

  lemma ScriptExtensionDotted(e: string)
    requires IsScriptExtension(e)
    ensures "." + e in {".ts", ".tsx", ".js", ".jsx"}
  {
    if e == "ts" { assert "." + e == ".ts"; }
    else if e == "tsx" { assert "." + e == ".tsx"; }
    else if e == "js" { assert "." + e == ".js"; }
    else { assert "." + e == ".jsx"; }
  }

  lemma ScriptExtensionChars(e: string)
    requires IsScriptExtension(e)
    ensures '.' !in e && '/' !in e
  {
  }

  /** `stem.ext` matches the component pattern when the stem is an
      upper-case letter followed by word characters. */
  lemma ComponentBaseIntro(stem: string, ext: string)
    requires |stem| >= 2 && IsUpperAscii(stem[0])
    requires forall i :: 1 <= i < |stem| ==> IsWordChar(stem[i])
    requires IsScriptExtension(ext)
    ensures IsComponentBaseName(stem + ['.'] + ext)
    ensures '/' !in stem + ['.'] + ext
  {
    ScriptExtensionChars(ext);
    var name := stem + ['.'] + ext;
    assert '.' !in stem by {
      forall i | 0 <= i < |stem| ensures stem[i] != '.' {
        if i > 0 { assert IsWordChar(stem[i]); }
      }
    }
    assert '/' !in stem by {
      forall i | 0 <= i < |stem| ensures stem[i] != '/' {
        if i > 0 { assert IsWordChar(stem[i]); }
      }
    }
    LastIndexOfConcat(stem, ext, '.');
    assert name[|stem| + 1..] == ext;
  }

  /** Every name of the form `U w... .ext` is a component file, wherever it
      lives. */
  lemma ComponentFileIntro(dir: string, upper: char, word: string, ext: string)
    requires IsUpperAscii(upper) && |word| > 0
    requires forall i :: 0 <= i < |word| ==> IsWordChar(word[i])
    requires IsScriptExtension(ext)
    ensures IsComponentFile(dir + "/" + ([upper] + word + "." + ext))
  {
    var stem := [upper] + word;
    assert forall i :: 1 <= i < |stem| ==> stem[i] == word[i - 1];
    ComponentBaseIntro(stem, ext);
    var name := stem + ['.'] + ext;
    assert [upper] + word + "." + ext == name;
    BaseNameOfChild(dir, name);
  }

  /** Conversely, the base name of every component file has that form. */
  lemma ComponentFileParts(filePath: string) returns (upper: char, word: string, ext: string)
    requires IsComponentFile(filePath)
    ensures BaseName(filePath) == [upper] + word + "." + ext
    ensures IsUpperAscii(upper) && |word| > 0
    ensures forall i :: 0 <= i < |word| ==> IsWordChar(word[i])
    ensures IsScriptExtension(ext)
  {
    var b := BaseName(filePath);
    assert IsComponentBaseName(b);
    upper, word, ext := ComponentBaseParts(b);
  }

  lemma ComponentBaseParts(b: string) returns (upper: char, word: string, ext: string)
    requires IsComponentBaseName(b)
    ensures b == [upper] + word + "." + ext
    ensures IsUpperAscii(upper) && |word| > 0
    ensures forall i :: 0 <= i < |word| ==> IsWordChar(word[i])
    ensures IsScriptExtension(ext)
  {
    var d := LastIndexOf(b, '.');
    upper, word, ext := b[0], b[1..d], b[d + 1..];
    forall i | 0 <= i < |word| ensures IsWordChar(word[i]) {
      assert word[i] == b[i + 1];
    }
    SplitAtDot(b, d);
  }

  /** A name cut around one of its dots, with its first character apart. */
  lemma SplitAtDot(b: string, d: int)
    requires 0 < d < |b| && b[d] == '.'
    ensures b == b[..d] + "." + b[d + 1..]
    ensures b == [b[0]] + b[1..d] + "." + b[d + 1..]
  {
    assert b[..d] == [b[0]] + b[1..d];
    assert b == b[..d] + [b[d]] + b[d + 1..];
  }

  /** A base name with a secondary extension (`Foo.client.tsx`) is not a
      component file: its last dot is preceded by another dot. */
  lemma SecondaryExtensionRejected(filePath: string, j: nat)
    requires var b := BaseName(filePath); 0 < j < LastIndexOf(b, '.') && b[j] == '.'
    ensures !IsComponentFile(filePath)
  {
  }

  /** The directories in front of a base name do not matter. */
  lemma ComponentFileIgnoresDirectories(dir: string, name: string)
    requires |name| > 0 && '/' !in name
    ensures IsComponentFile(dir + "/" + name) == IsComponentFile(name)
  {
    BaseNameOfChild(dir, name);
  }

  // ---------------------------------------------------------------------
  // File URLs

  /** `filter(Boolean)` on strings: the non-empty ones, in order. */
  function NonEmpty(xs: seq<string>): (r: seq<string>)
    ensures |r| <= |xs|
    ensures forall i :: 0 <= i < |r| ==> r[i] != "" && r[i] in xs
    ensures forall x :: x in r <==> x in xs && x != ""
  {
    if |xs| == 0 then []
    else if xs[0] == "" then NonEmpty(xs[1..])
    else [xs[0]] + NonEmpty(xs[1..])
  }

  /** One element is kept exactly when it is non-empty. */
  lemma NonEmptySingle(x: string)
    ensures NonEmpty([x]) == if x == "" then [] else [x]
  {
    assert [x][1..] == [];
  }

  /** The filter works element by element: filtering a concatenation is
      concatenating the filtered parts, so the kept elements keep their
      order. */
  lemma {:induction false} NonEmptyAppend(xs: seq<string>, ys: seq<string>)
    ensures NonEmpty(xs + ys) == NonEmpty(xs) + NonEmpty(ys)
  {
    if |xs| == 0 {
      assert xs + ys == ys;
    } else {
      assert (xs + ys)[0] == xs[0];
      assert (xs + ys)[1..] == xs[1..] + ys;
      NonEmptyAppend(xs[1..], ys);
    }
  }

  /** `filePathToFileUrl`: split on the platform separator, drop the empty
      segments, join with `/`. The URL is empty exactly when the path has
      no non-empty segment. */
  function FilePathToFileUrl(path: string, sep: char): (r: string)
    ensures r == "" <==> NonEmpty(Split(path, sep)) == []
  {
    var segs := NonEmpty(Split(path, sep));
    if |segs| > 0 then assert segs[0] != ""; Join(segs, "/") else Join(segs, "/")
  }

  /** Splitting the URL on `/` gives back exactly the non-empty segments of
      the path, in order, whatever the platform separator, as long as no
      segment holds a `/` itself. */
  lemma FileUrlRoundTrip(path: string, sep: char)
    requires NonEmpty(Split(path, sep)) != []
    requires forall i :: 0 <= i < |Split(path, sep)| ==> '/' !in Split(path, sep)[i]
    ensures Split(FilePathToFileUrl(path, sep), '/') == NonEmpty(Split(path, sep))
  {
    var segs := NonEmpty(Split(path, sep));
    forall i | 0 <= i < |segs| ensures '/' !in segs[i] {
      assert segs[i] in Split(path, sep);
    }
    SplitJoin(segs, '/');
  }

  /** On a platform whose separator is `/` no segment holds a `/`, so the
      round trip always holds there. */
  lemma FileUrlSegments(path: string)
    requires NonEmpty(Split(path, '/')) != []
    ensures Split(FilePathToFileUrl(path, '/'), '/') == NonEmpty(Split(path, '/'))
  {
    FileUrlRoundTrip(path, '/');
  }
}
