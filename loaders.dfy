/** The file-extension to esbuild-loader table and its lookup-or-throw. */
module Loaders {
  import opened Wrappers
  import opened Strings
  import opened Paths

  datatype Loader = File | Jsx | Json | Ts | Tsx

  /** The image, font, audio and video extensions of the `loaders` table. */
  const MediaExtensions: set<string> := {
    ".aac", ".eot", ".flac", ".gif", ".ico", ".jpeg", ".jpg", ".mp3", ".mp4",
    ".ogg", ".otf", ".png", ".svg", ".ttf", ".wav", ".webm", ".webp", ".woff", ".woff2"
  }

  /** The `loaders` table: the media extensions are copied as files, `.js`
      is parsed as JSX, the other script extensions and `.json` by their own
      loader. */
  const Table: map<string, Loader> :=
    (map ext | ext in MediaExtensions :: File) + ScriptTable

  /** The script and JSON entries of the `loaders` table. */
  const ScriptTable: map<string, Loader> :=
    map[".js" := Jsx, ".jsx" := Jsx, ".json" := Json, ".ts" := Ts, ".tsx" := Tsx]

  /** No media extension is also a script extension. */
  lemma MediaAndScriptsDisjoint()
    ensures forall ext :: ext in ScriptTable ==> ext !in MediaExtensions
  {
  }

  /** The error `getLoaderForFile` throws ("Cannot get loader for file ..."). */
  datatype LoaderError = CannotGetLoader(file: string)

  /** `getLoaderForFile`: the table entry for the file's extension, or the
      error the source throws. */
  function GetLoaderForFile(file: string): (r: Result<Loader, LoaderError>)
    ensures r.Ok? <==> ExtName(file) in Table
    ensures r.Ok? ==> r.value == Table[ExtName(file)]
    ensures r.Err? ==> r.error == CannotGetLoader(file)
  {
    var ext := ExtName(file);
    if ext in Table then Ok(Table[ext]) else Err(CannotGetLoader(file))
  }

  /** Every media extension is in the table and maps to `file`; the table
      has nothing else but the script and JSON extensions. */
  lemma MediaLoadsAsFile()
    ensures forall ext :: ext in MediaExtensions ==> ext in Table && Table[ext] == File
  {
    MediaAndScriptsDisjoint();
  }

  /** A file named `stem` + `ext`, where `ext` is a dot followed by text
      without a dot, gets the loader the table gives `ext`, and fails exactly
      when `ext` is not in the table, whatever its directories. */
  lemma LoaderByExtension(dir: string, stem: string, ext: string)
    requires |stem| > 0 && '/' !in stem && '/' !in ext
    requires |ext| > 0 && ext[0] == '.' && '.' !in ext[1..]
    requires !(stem == "." && ext == ".")
    ensures var r := GetLoaderForFile(dir + "/" + (stem + ext));
      && (r.Ok? <==> ext in Table)
      && (r.Ok? ==> r.value == Table[ext])
  {
    var name := stem + ext;
    assert forall i :: |stem| < i < |name| ==> name[i] == ext[1..][i - |stem| - 1];
    assert IsDotDot(name) ==> stem == "." && ext == ".";
    ExtNameOfChild(dir, name, |stem|);
    assert name[|stem|..] == ext;
  }

  /** `.js` is loaded as JSX, not as plain JavaScript; `.ts`, `.tsx`,
      `.jsx` and `.json` are loaded by their own loader. */
  lemma ScriptLoaders()
    ensures ".js" in Table && Table[".js"] == Jsx
    ensures ".ts" in Table && Table[".ts"] == Ts
    ensures ".tsx" in Table && Table[".tsx"] == Tsx
    ensures ".jsx" in Table && Table[".jsx"] == Jsx
    ensures ".json" in Table && Table[".json"] == Json
  {
  }

  /** Every key of the table is a dot followed by at least two characters. */
  lemma TableKeysAreExtensions()
    ensures forall ext :: ext in Table ==> |ext| >= 3 && ext[0] == '.'
  {
  }

  /** A file whose base name has no dot has no extension and is refused. */
  lemma NoExtensionFails(file: string)
    requires '.' !in BaseName(file)
    ensures GetLoaderForFile(file).Err?
  {
    ExtNameNoDot(file);
    TableKeysAreExtensions();
  }

  /** A file whose extension is one of the script and JSON extensions gets
      that extension's loader. */
  lemma ScriptFileLoader(file: string, ext: string)
    requires ext in ScriptTable && ExtName(file) == ext
    ensures GetLoaderForFile(file) == Ok(ScriptTable[ext])
  {
  }
}
