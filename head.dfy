/** The server's head manager for one request: the page title, the meta
    entries and the extra head tags, and their rendering as HTML. */
module Head {
  import opened Wrappers
  import opened Collections
  import opened Strings

  /** A meta value or attribute object as JavaScript sees it: a falsy value
      (`null`, `undefined`, `false`), a string, an object of attributes, or
      an array. */
  datatype Value = Falsy | Str(s: string) | Obj(entries: seq<(string, Value)>) | Arr(items: seq<Value>)

  /** JavaScript truthiness of a value: an empty string is falsy, an empty
      object or array is not. */
  predicate Truthy(v: Value) {
    !v.Falsy? && !(v.Str? && v.s == "")
  }

  /** The meta entries, by name, in the order the object lists them. */
  type Meta = OrderedMap<string, Value>

  /** An extra head tag. */
  datatype Tag = Tag(name: string, content: string, attributes: Value)

  /** The `title` part of the head configuration. */
  datatype TitleConfig = TitleConfig(default: string, prefix: string, suffix: string, separator: string)

  /** The head configuration: title settings and the default meta. */
  datatype HeadConfig = HeadConfig(title: TitleConfig, defaultMeta: Meta)

  /** The entries of a meta object, in order, for spreading into another. */
  function Entries(m: Meta): (r: seq<Option<(string, Value)>>)
    requires m.Valid()
    ensures |r| == |m.keys|
    ensures forall i :: 0 <= i < |r| ==> r[i] == Some((m.keys[i], m.values[m.keys[i]]))
  {
    seq(|m.keys|, i requires 0 <= i < |m.keys| => Some((m.keys[i], m.values[m.keys[i]])))
  }

  /** `{ ...meta, ...added }`. */
  function Merge(meta: Meta, added: Meta): (r: Meta)
    requires meta.Valid() && added.Valid()
    ensures r.Valid()
  {
    SetAll(meta, Entries(added))
  }

  /** A merge holds the names of both, each added name with its new value
      and every other name with its old one. */
  lemma MergeValues(meta: Meta, added: Meta, k: string)
    requires meta.Valid() && added.Valid()
    ensures k in Merge(meta, added).values <==> k in meta.values || k in added.values
    ensures k in added.values ==> Merge(meta, added).values[k] == added.values[k]
    ensures k !in added.values ==> Merge(meta, added).Get(k) == meta.Get(k)
  {
    var es := Entries(added);
    SetAllHas(meta, es, k);
    if k in added.values {
      var i := FirstIndex(added.keys, k);
      assert es[i].value.0 == k;
      forall j | i < j < |es| && es[j].Some?
        ensures es[j].value.0 != es[i].value.0
      {
        assert added.keys[j] != added.keys[i];
      }
      SetAllLastWins(meta, es, i);
    } else {
      SetAllUntouched(meta, es, k);
    }
  }

  /** A merge keeps the old names in place and appends the new names in
      the order they are added. */
  lemma MergeOrder(meta: Meta, added: Meta)
    requires meta.Valid() && added.Valid()
    ensures Merge(meta, added).keys == Dedupe(meta.keys + added.keys)
  {
    SetAllKeys(meta, Entries(added));
    PresentKeysAll(Entries(added), added.keys);
  }

  /** `charset` and `charSet` name the character-set meta. */
  predicate IsCharset(name: string) {
    name == "charset" || name == "charSet"
  }

  /** The attribute naming a meta tag: Open Graph tags use `property`,
      others `name`. */
  function NameAttribute(name: string): (r: string)
    ensures r == "property" <==> StartsWith(name, "og:")
    ensures r == "name" <==> !StartsWith(name, "og:")
  {
    if StartsWith(name, "og:") then "property" else "name"
  }

  /** One `<meta>` tag for one content of the meta named `name`. */
  function MetaContentTag(stringify: Value -> string, name: string, content: Value): string {
    if content.Str? then
      "<meta " + stringify(Obj([("content", content), (NameAttribute(name), Str(name))])) + " />"
    else "<meta " + stringify(content) + " />"
  }

  /** The contents a meta value stands for: the elements of an array, or
      the value itself (`[value].flat()`). */
  function Contents(value: Value): (r: seq<Value>)
    ensures value.Arr? ==> r == value.items
    ensures !value.Arr? ==> r == [value]
  {
    if value.Arr? then value.items else [value]
  }

  /** The tags of the given contents, in order. */
  function ContentTags(stringify: Value -> string, name: string, contents: seq<Value>): (r: seq<string>)
    ensures |r| == |contents|
    ensures forall i :: 0 <= i < |r| ==> r[i] == MetaContentTag(stringify, name, contents[i])
  {
    seq(|contents|, i requires 0 <= i < |contents| => MetaContentTag(stringify, name, contents[i]))
  }

  /** What one meta entry contributes to the `\n` join: nothing for a falsy
      value, one charset tag, or one tag per content joined by commas (the
      inner array's string form). */
  function MetaLine(stringify: Value -> string, name: string, value: Value): string {
    if !Truthy(value) then ""
    else if IsCharset(name) then "<meta " + stringify(Obj([("charset", value)])) + " />"
    else Join(ContentTags(stringify, name, Contents(value)), ",")
  }

  /** The meta lines in the order of the names. */
  function MetaLines(stringify: Value -> string, meta: Meta): (r: seq<string>)
    requires meta.Valid()
    ensures |r| == |meta.keys|
  {
    seq(|meta.keys|, i requires 0 <= i < |meta.keys| => MetaLine(stringify, meta.keys[i], meta.values[meta.keys[i]]))
  }

  /** `getMetaTags`: one line per name, the first name's line first; no
      names give the empty string. */
  function MetaTags(stringify: Value -> string, meta: Meta): (r: string)
    requires meta.Valid()
    ensures |meta.keys| == 0 ==> r == ""
    ensures |meta.keys| > 0 ==> StartsWith(r, MetaLine(stringify, meta.keys[0], meta.values[meta.keys[0]]))
  {
    Join(MetaLines(stringify, meta), "\n")
  }

  /** One extra tag: `<name attrs>content</name>`, the attributes omitted
      when falsy. */
  function TagHtml(stringify: Value -> string, t: Tag): string {
    "<" + t.name + (if Truthy(t.attributes) then " " + stringify(t.attributes) else "") + ">"
      + t.content + "</" + t.name + ">"
  }

  function TagLines(stringify: Value -> string, tags: seq<Tag>): (r: seq<string>)
    ensures |r| == |tags|
  {
    seq(|tags|, i requires 0 <= i < |tags| => TagHtml(stringify, tags[i]))
  }

  /** `getTags`: one line per tag, the first tag's HTML first; no tags
      give the empty string. */
  function TagsHtml(stringify: Value -> string, tags: seq<Tag>): (r: string)
    ensures |tags| == 0 ==> r == ""
    ensures |tags| > 0 ==> StartsWith(r, TagHtml(stringify, tags[0]))
  {
    Join(TagLines(stringify, tags), "\n")
  }

  /** `getTitleTag`. */
  function TitleTag(title: string): string {
    "<title>" + title + "</title>"
  }

  /** `getHTML`: the title tag on the first line, the tags at the end. */
  function Html(stringify: Value -> string, title: string, meta: Meta, tags: seq<Tag>): (r: string)
    requires meta.Valid()
    ensures StartsWith(r, TitleTag(title) + "\n")
    ensures EndsWith(r, "\n" + TagsHtml(stringify, tags))
  {
    var t, m, g := TitleTag(title), MetaTags(stringify, meta), TagsHtml(stringify, tags);
    JoinThree(t, m, g, "\n");
    assert t + "\n" + m + "\n" + g == (t + "\n") + (m + "\n" + g);
    assert t + "\n" + m + "\n" + g == (t + "\n" + m) + ("\n" + g);
    Join([t, m, g], "\n")
  }

  class HeadManager {
    const config: HeadConfig

    /** The title builder and attribute serialiser the manager uses. */
    const buildTitle: (string, string, string, string) -> string
    const stringify: Value -> string

    var title: string
    var meta: Meta
    var tags: seq<Tag>

    ghost predicate Valid()
      reads this
    {
      meta.Valid() && config.defaultMeta.Valid()
    }

    /** The title `setTitle(t)` stores: `t` with the configured prefix,
        suffix and separator. */
    function BuiltTitle(t: string): string {
      buildTitle(t, config.title.prefix, config.title.suffix, config.title.separator)
    }

    /** The state a manager starts each request in. */
    ghost predicate AtDefaults()
      reads this
    {
      title == BuiltTitle(config.title.default) && meta == config.defaultMeta && tags == []
    }

    constructor(config: HeadConfig, buildTitle: (string, string, string, string) -> string, stringify: Value -> string)
      requires config.defaultMeta.Valid()
      ensures this.config == config && this.buildTitle == buildTitle && this.stringify == stringify
      ensures Valid() && AtDefaults()
    {
      this.config := config;
      this.buildTitle := buildTitle;
      this.stringify := stringify;
      title := buildTitle(config.title.default, config.title.prefix, config.title.suffix, config.title.separator);
      meta := config.defaultMeta;
      tags := [];
    }

    method SetTitle(t: string)
      modifies this
      ensures title == BuiltTitle(t) && meta == old(meta) && tags == old(tags)
    {
      title := buildTitle(t, config.title.prefix, config.title.suffix, config.title.separator);
    }

    method AddMeta(added: Meta)
      requires Valid() && added.Valid()
      modifies this
      ensures Valid() && meta == Merge(old(meta), added)
      ensures title == old(title) && tags == old(tags)
    {
      meta := Merge(meta, added);
    }

    method AddTags(ts: seq<Tag>)
      modifies this
      ensures tags == old(tags) + ts && title == old(title) && meta == old(meta)
    {
      tags := tags + ts;
    }

    /** Back to the configured title, the default meta and no tags. */
    method ResetForNewRequest()
      requires Valid()
      modifies this
      ensures Valid() && AtDefaults()
    {
      SetTitle(config.title.default);
      meta := config.defaultMeta;
      tags := [];
    }

    /** The current title between `<title>` and `</title>`. */
    function GetTitleTag(): (r: string)
      reads this
      ensures |r| == |title| + 15 && r[7..|r| - 8] == title
      ensures StartsWith(r, "<title>") && EndsWith(r, "</title>")
    {
      TitleTag(title)
    }

    /** The current meta, one line per name. */
    function GetMetaTags(): (r: string)
      requires Valid()
      reads this
      ensures |meta.keys| == 0 ==> r == ""
      ensures |meta.keys| > 0 ==> StartsWith(r, MetaLine(stringify, meta.keys[0], meta.values[meta.keys[0]]))
    {
      MetaTags(stringify, meta)
    }

    /** The current tags, one line per tag. */
    function GetTags(): (r: string)
      reads this
      ensures |tags| == 0 ==> r == ""
      ensures |tags| > 0 ==> StartsWith(r, TagHtml(stringify, tags[0]))
    {
      TagsHtml(stringify, tags)
    }

    /** The current page head: the title tag first, the tags last. */
    function GetHtml(): (r: string)
      requires Valid()
      reads this
      ensures StartsWith(r, GetTitleTag() + "\n") && EndsWith(r, "\n" + GetTags())
    {
      Html(stringify, title, meta, tags)
    }
  }

  /** A meta entry under a new name renders its line after the earlier
      ones, on a line of its own, whatever its value. */
  lemma MetaTagsAppend(stringify: Value -> string, meta: Meta, name: string, v: Value)
    requires meta.Valid() && |meta.keys| > 0 && name !in meta.values
    ensures meta.Set(name, v).Valid()
    ensures MetaTags(stringify, meta.Set(name, v)) == MetaTags(stringify, meta) + "\n" + MetaLine(stringify, name, v)
  {
    var m' := meta.Set(name, v);
    var lines := MetaLines(stringify, meta);
    assert MetaLines(stringify, m') == lines + [MetaLine(stringify, name, v)];
    JoinAppend(lines, [MetaLine(stringify, name, v)], "\n");
  }

  /** Adding a falsy meta value under a new name adds an empty line: the
      entry renders no tag but still takes its place in the join. */
  lemma FalsyMetaAddsEmptyLine(stringify: Value -> string, meta: Meta, name: string, v: Value)
    requires meta.Valid() && |meta.keys| > 0 && name !in meta.values && !Truthy(v)
    ensures MetaTags(stringify, meta.Set(name, v)) == MetaTags(stringify, meta) + "\n"
  {
    MetaTagsAppend(stringify, meta, name, v);
  }

  /** Both spellings of the character-set name render the same tag. */
  lemma CharsetSpellingsAgree(stringify: Value -> string, v: Value)
    requires Truthy(v)
    ensures MetaLine(stringify, "charSet", v) == MetaLine(stringify, "charset", v)
      == "<meta " + stringify(Obj([("charset", v)])) + " />"
  {
  }

  /** A non-empty string value renders one tag carrying it as `content`,
      named by `property` for an Open Graph name and by `name` otherwise. */
  lemma StringMetaTag(stringify: Value -> string, name: string, c: string)
    requires c != "" && !IsCharset(name)
    ensures MetaLine(stringify, name, Str(c)) ==
      "<meta " + stringify(Obj([("content", Str(c)), (if StartsWith(name, "og:") then "property" else "name", Str(name))])) + " />"
  {
  }

  /** An array value renders one tag per element, comma-joined: the
      rendering of two arrays' concatenation is the two renderings joined
      by a comma. */
  lemma ArrayMetaSplits(stringify: Value -> string, name: string, xs: seq<Value>, ys: seq<Value>)
    requires !IsCharset(name) && |xs| > 0 && |ys| > 0
    ensures MetaLine(stringify, name, Arr(xs + ys)) ==
      MetaLine(stringify, name, Arr(xs)) + "," + MetaLine(stringify, name, Arr(ys))
  {
    var left := ContentTags(stringify, name, xs);
    var right := ContentTags(stringify, name, ys);
    assert ContentTags(stringify, name, xs + ys) == left + right;
    JoinAppend(left, right, ",");
  }

  /** An array of one string renders as that string does. */
  lemma SingletonArrayIsFlat(stringify: Value -> string, name: string, c: string)
    requires c != "" && !IsCharset(name)
    ensures MetaLine(stringify, name, Arr([Str(c)])) == MetaLine(stringify, name, Str(c))
  {
    assert ContentTags(stringify, name, [Str(c)]) == [MetaContentTag(stringify, name, Str(c))];
  }

  /** A tag opens and closes with its name, and without attributes it is
      just the content between the two. */
  lemma TagShape(stringify: Value -> string, t: Tag)
    ensures StartsWith(TagHtml(stringify, t), "<" + t.name)
    ensures EndsWith(TagHtml(stringify, t), "</" + t.name + ">")
    ensures !Truthy(t.attributes) ==> TagHtml(stringify, t) == "<" + t.name + ">" + t.content + "</" + t.name + ">"
  {
    var h := TagHtml(stringify, t);
    var open := "<" + t.name;
    var close := "</" + t.name + ">";
    var mid := (if Truthy(t.attributes) then " " + stringify(t.attributes) else "") + ">" + t.content;
    assert h == open + mid + close;
    assert h[..|open|] == open;
    assert h[|h| - |close|..] == close;
  }

  /** Adding tags keeps the earlier tags' rendering and puts the new ones
      after it, on lines of their own. */
  lemma AddedTagsFollow(stringify: Value -> string, tags: seq<Tag>, added: seq<Tag>)
    ensures TagsHtml(stringify, tags + added) ==
      if |tags| == 0 then TagsHtml(stringify, added)
      else if |added| == 0 then TagsHtml(stringify, tags)
      else TagsHtml(stringify, tags) + "\n" + TagsHtml(stringify, added)
  {
    assert TagLines(stringify, tags + added) == TagLines(stringify, tags) + TagLines(stringify, added);
    if |tags| > 0 && |added| > 0 {
      JoinAppend(TagLines(stringify, tags), TagLines(stringify, added), "\n");
    } else if |tags| == 0 {
      assert tags + added == added;
    } else {
      assert tags + added == tags;
    }
  }

  /** The page head is the title tag, the meta tags and the extra tags on
      lines of their own, in that order. */
  lemma HtmlLayout(stringify: Value -> string, title: string, meta: Meta, tags: seq<Tag>)
    requires meta.Valid()
    ensures Html(stringify, title, meta, tags) ==
      "<title>" + title + "</title>" + "\n" + MetaTags(stringify, meta) + "\n" + TagsHtml(stringify, tags)
    ensures StartsWith(Html(stringify, title, meta, tags), "<title>" + title + "</title>\n")
  {
    var m, t := MetaTags(stringify, meta), TagsHtml(stringify, tags);
    JoinThree(TitleTag(title), m, t, "\n");
    assert TitleTag(title) + "\n" == "<title>" + title + "</title>\n";
  }
}
