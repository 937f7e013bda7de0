/**
 * The MediaWiki formatters: file and media links, random file names, the
 * collapsible code box, the wikitable skeleton of a data frame, figure links
 * and image galleries, and the table that picks a formatter by type.
 *
 * Saving a figure is not performed here: a formatter returns the images it
 * would have saved, as `SavedImage` values, in the order it saves them.
 */
module Formatters {
  import opened Wrappers
  import opened Text

  // ---------------------------------------------------------------- links

  /** `"[[" + ns + ":" + e + "]]"`, a link into namespace `ns`. */
  function Link(ns: string, e: string): string {
    "[[" + ns + ":" + e + "]]"
  }

  /** The target of a link into namespace `ns`, or `None` when `s` is not one. */
  function LinkTarget(ns: string, s: string): (t: Option<string>)
    ensures t.Some? ==> s == Link(ns, t.value)
  {
    var p := "[[" + ns + ":";
    if |s| >= |p| + 2 && s[..|p|] == p && s[|s| - 2..] == "]]" then
      var t := s[|p|..|s| - 2];
      assert s == p + t + "]]";
      Some(t)
    else None
  }

  /** Reading a link back yields the linked name. */
  lemma LinkRoundTrip(ns: string, e: string)
    ensures LinkTarget(ns, Link(ns, e)) == Some(e)
  {
    var s := Link(ns, e);
    var p := "[[" + ns + ":";
    assert s[..|p|] == p;
    assert s[|s| - 2..] == "]]";
    assert s[|p|..|s| - 2] == e;
  }

  /** A file link is never read as a media link, nor the other way round. */
  lemma FileAndMediaLinksDiffer(e: string)
    ensures LinkTarget("Media", Link("File", e)) == None
    ensures LinkTarget("File", Link("Media", e)) == None
  {
    assert Link("File", e)[2] == 'F';
    assert Link("Media", e)[2] == 'M';
  }

  /** `filelink(col)`. */
  function FileLinks(col: seq<string>): seq<string> {
    seq(|col|, i requires 0 <= i < |col| => Link("File", col[i]))
  }

  /** `medialink(col)`. */
  function MediaLinks(col: seq<string>): seq<string> {
    seq(|col|, i requires 0 <= i < |col| => Link("Media", col[i]))
  }

  /** `filelink` keeps length and order: the i-th link points at the i-th name. */
  lemma FileLinksRoundTrip(col: seq<string>)
    ensures |FileLinks(col)| == |col|
    ensures forall i :: 0 <= i < |col| ==> LinkTarget("File", FileLinks(col)[i]) == Some(col[i])
  {
    forall i | 0 <= i < |col| ensures LinkTarget("File", FileLinks(col)[i]) == Some(col[i]) {
      LinkRoundTrip("File", col[i]);
    }
  }

  /** `medialink` keeps length and order: the i-th link points at the i-th name. */
  lemma MediaLinksRoundTrip(col: seq<string>)
    ensures |MediaLinks(col)| == |col|
    ensures forall i :: 0 <= i < |col| ==> LinkTarget("Media", MediaLinks(col)[i]) == Some(col[i])
  {
    forall i | 0 <= i < |col| ensures LinkTarget("Media", MediaLinks(col)[i]) == Some(col[i]) {
      LinkRoundTrip("Media", col[i]);
    }
  }

  // ---------------------------------------------------------- random names

  /** `string.ascii_uppercase + string.digits`. */
  const IdAlphabet: string := "ABCDEFGHIJKLMNOPQRSTUVWXYZ0123456789"

  predicate IsId(s: string, size: nat) {
    |s| == size && forall i :: 0 <= i < |s| ==> s[i] in IdAlphabet
  }

  /**
   * `id_generator(size)`: `size` characters, each chosen from the alphabet.
   * The random choice is modelled as an unconstrained choice.
   */
  method IdGenerator(size: nat) returns (id: string)
    ensures IsId(id, size)
  {
    id := "";
    for i := 0 to size
      invariant IsId(id, i)
    {
      assert IdAlphabet[0] in IdAlphabet;
      var c :| c in IdAlphabet;
      id := id + [c];
    }
  }

  /** A name made up by the formatters: a 20-character id, a dot and the format. */
  predicate IsGeneratedName(name: string, format: string) {
    |name| == 21 + |format| && IsId(name[..20], 20) && name[20..] == "." + format
  }

  /** An image the formatter saves, under the file name it saves it as. */
  datatype Figure = Figure(handle: nat)

  datatype SavedImage = Saved(fig: Figure, name: string)

  /** The name `id_generator(20) + '.' + format` builds. */
  method GeneratedName(format: string) returns (name: string)
    ensures IsGeneratedName(name, format)
  {
    var id := IdGenerator(20);
    name := id + "." + format;
    assert name[..20] == id;
  }

  // ------------------------------------------------------------ code boxes

  function Spaces(n: nat): string {
    seq(n, _ => ' ')
  }

  /** Everything `code_formatter` puts before the code. */
  function CodeHead(title: string, lang: string): string {
    "<div class=\"toccolours mw-collapsible mw-collapsed\">\n"
    + Spaces(20) + "\n[[File:" + lang + ".png|40px]] '''" + title + "'''\n\n"
    + Spaces(20) + "<div class=\"mw-collapsible-content\">\n\n"
    + Spaces(24) + "<source lang=\"" + lang + "\">\n"
  }

  /** Everything `code_formatter` puts after the code. */
  function CodeTail(): string {
    "\n</source>\n\n" + Spaces(20) + "</div>\n</div>"
  }

  /** `code_formatter({'code': code, 'title': title, 'lang': lang})`. */
  function CodeBox(code: string, title: string, lang: string): string {
    CodeHead(title, lang) + code + CodeTail()
  }

  /**
   * The code box opens the collapsed frame, shows the language icon and the
   * title, and holds the code verbatim between the `<source>` tags, from
   * which it can be read back.
   */
  lemma CodeBoxRoundTrip(code: string, title: string, lang: string)
    ensures var s := CodeBox(code, title, lang);
      var h := |CodeHead(title, lang)|;
      |s| == h + |code| + |CodeTail()| && s[h..h + |code|] == code
    ensures StartsWith(CodeBox(code, title, lang), "<div class=\"toccolours mw-collapsible mw-collapsed\">")
    ensures var h := CodeHead(title, lang); var open := "<source lang=\"" + lang + "\">\n";
      |open| <= |h| && h[|h| - |open|..] == open
  {
    var s := CodeBox(code, title, lang);
    var h := CodeHead(title, lang);
    assert s == h + code + CodeTail();
    assert s[|h|..|h| + |code|] == code;
    var p := "<div class=\"toccolours mw-collapsible mw-collapsed\">";
    assert s[..|p|] == p;
  }

  // ---------------------------------------------------------------- tables

  /** One record of a data frame: its index labels (one per index level) and its cells as text. */
  datatype Row = Row(labels: seq<string>, cells: seq<string>)

  /** A data frame reduced to what the formatter prints: column names and records in order. */
  datatype Table = Table(columns: seq<string>, rows: seq<Row>)

  /** CSS declarations in the order the style dictionary yields them, or no style. */
  type Style = Option<seq<(string, string)>>

  /** `';'.join("%s:%s" % (k, v) ...)`. */
  function StyleDecls(kv: seq<(string, string)>): string {
    Join(";", seq(|kv|, i requires 0 <= i < |kv| => kv[i].0 + ":" + kv[i].1))
  }

  /** The style value exactly as the formatter builds it; for a style it carries its own `style=`. */
  function StyleAttrAsWritten(style: Style): string {
    match style
    case None => "\"\""
    case Some(kv) => "style=\"" + StyleDecls(kv) + ";\""
  }

  /** The style value the table header needs after its `style=`: one quoted declaration list. */
  function StyleAttr(style: Style): string {
    match style
    case None => "\"\""
    case Some(kv) => "\"" + StyleDecls(kv) + ";\""
  }

  predicate IsQuoted(v: string) {
    |v| >= 2 && v[0] == '"' && v[|v| - 1] == '"'
  }

  function SortableWord(sortable: bool): string {
    if sortable then "sortable" else ""
  }

  /** The first line group of the table, given the text that follows `style=`. */
  function HeaderWith(sortable: bool, styleValue: string, index: bool, columns: seq<string>): string {
    "{| class=\"wikitable " + SortableWord(sortable) + "\" style=" + styleValue + " \n|-\n! "
    + (if index then " !! " else "") + Join(" !! ", columns) + " "
  }

  function Header(sortable: bool, style: Style, index: bool, columns: seq<string>): string {
    HeaderWith(sortable, StyleAttr(style), index, columns)
  }

  function HeaderAsWritten(sortable: bool, style: Style, index: bool, columns: seq<string>): string {
    HeaderWith(sortable, StyleAttrAsWritten(style), index, columns)
  }

  /** The bold label cell of an indexed record; one level prints as itself, several joined by commas. */
  function LabelCell(r: Row): string {
    "'''" + Join(", ", r.labels) + "'''"
  }

  function RowLine(index: bool, r: Row): string {
    "|-\n| " + Join(" || ", (if index then [LabelCell(r)] else []) + r.cells) + " "
  }

  function RowLines(index: bool, rows: seq<Row>): seq<string> {
    seq(|rows|, i requires 0 <= i < |rows| => RowLine(index, rows[i]))
  }

  /** A table under the header line group `head`: one line group per record, then the closing `|}`. */
  function TableWith(t: Table, head: string, index: bool): string {
    Join("\n", [head] + RowLines(index, t.rows) + ["|}"])
  }

  /** `dataframe_formatter(df, sortable, style, index)` as written: the header with the style value as the code builds it. */
  function TableMarkup(t: Table, sortable: bool, style: Style, index: bool): string {
    TableWith(t, HeaderAsWritten(sortable, style, index, t.columns), index)
  }

  /** The table the formatter evidently means to write: the header with one quoted style value. */
  function TableMarkupIntended(t: Table, sortable: bool, style: Style, index: bool): string {
    TableWith(t, Header(sortable, style, index, t.columns), index)
  }

  /**
   * The formatter's loop: start from the header, append one line per record,
   * close with `|}` and join with line breaks.
   */
  method DataFrameFormat(t: Table, sortable: bool, style: Style, index: bool) returns (s: string)
    ensures s == TableMarkup(t, sortable, style, index)
  {
    var styleValue := if style.None? then "\"\"" else "style=\"" + StyleDecls(style.value) + ";\"";
    var head := HeaderWith(sortable, styleValue, index, t.columns);
    var lines := [head];
    var i := 0;
    while i < |t.rows|
      invariant 0 <= i <= |t.rows|
      invariant lines == [head] + RowLines(index, t.rows[..i])
    {
      var row := t.rows[i];
      var cells := row.cells;
      if index {
        cells := [LabelCell(row)] + cells;
      }
      assert cells == (if index then [LabelCell(row)] else []) + row.cells;
      lines := lines + ["|-\n| " + Join(" || ", cells) + " "];
      assert RowLines(index, t.rows[..i + 1]) == RowLines(index, t.rows[..i]) + [RowLine(index, row)];
      i := i + 1;
    }
    assert t.rows[..i] == t.rows;
    lines := lines + ["|}"];
    s := Join("\n", lines);
  }

  /**
   * The table is the header, then each record on its own line group in
   * order, then the closing `|}` on a line of its own.
   */
  lemma TableLayout(t: Table, head: string, index: bool)
    ensures TableWith(t, head, index) == head + Concat(Prefixed("\n", RowLines(index, t.rows))) + "\n|}"
  {
    var rl := RowLines(index, t.rows);
    assert [head] + rl + ["|}"] == ([head] + rl) + ["|}"];
    JoinSnoc("\n", [head] + rl, "|}");
    JoinThen("\n", [head], rl);
  }

  /** A table starts with its header and ends with `|}` on a line of its own. */
  lemma TableEnds(t: Table, head: string, index: bool)
    ensures StartsWith(TableWith(t, head, index), head)
    ensures var s := TableWith(t, head, index);
      |s| >= 3 && s[|s| - 3..] == "\n|}"
  {
    TableLayout(t, head, index);
    var s := TableWith(t, head, index);
    assert s[..|head|] == head;
    assert s[|s| - 3..] == "\n|}";
  }

  /** What a table opens with, whatever its style value: the class, `sortable` if asked for, and `style=`. */
  function TableOpen(sortable: bool): string {
    "{| class=\"wikitable " + SortableWord(sortable) + "\" style="
  }

  lemma HeaderOpens(sortable: bool, styleValue: string, index: bool, columns: seq<string>)
    ensures StartsWith(HeaderWith(sortable, styleValue, index, columns), TableOpen(sortable) + styleValue)
  {
    var h := HeaderWith(sortable, styleValue, index, columns);
    var p := TableOpen(sortable) + styleValue;
    assert h == p + (" \n|-\n! " + (if index then " !! " else "") + Join(" !! ", columns) + " ");
    assert h[..|p|] == p;
  }

  lemma PrefixTrans(s: string, m: string, p: string)
    requires StartsWith(s, m) && StartsWith(m, p)
    ensures StartsWith(s, p)
  {
    assert s[..|p|] == m[..|m|][..|p|];
  }

  /**
   * The table, as written and as intended, opens with the `wikitable` class,
   * followed by `sortable` exactly when asked for, and ends with `|}`.
   */
  lemma TableFrame(t: Table, sortable: bool, style: Style, index: bool)
    ensures StartsWith(TableMarkup(t, sortable, style, index), TableOpen(sortable))
    ensures StartsWith(TableMarkupIntended(t, sortable, style, index), TableOpen(sortable))
    ensures var s := TableMarkup(t, sortable, style, index);
      |s| >= 3 && s[|s| - 3..] == "\n|}"
    ensures var s := TableMarkupIntended(t, sortable, style, index);
      |s| >= 3 && s[|s| - 3..] == "\n|}"
  {
    var written := HeaderAsWritten(sortable, style, index, t.columns);
    var intended := Header(sortable, style, index, t.columns);
    TableEnds(t, written, index);
    TableEnds(t, intended, index);
    HeaderOpens(sortable, StyleAttrAsWritten(style), index, t.columns);
    HeaderOpens(sortable, StyleAttr(style), index, t.columns);
    var open := TableOpen(sortable);
    assert StartsWith(written, open) by {
      assert written[..|open|] == (open + StyleAttrAsWritten(style))[..|open|];
    }
    assert StartsWith(intended, open) by {
      assert intended[..|open|] == (open + StyleAttr(style))[..|open|];
    }
    PrefixTrans(TableMarkup(t, sortable, style, index), written, open);
    PrefixTrans(TableMarkupIntended(t, sortable, style, index), intended, open);
  }

  /**
   * With `index`, a record's line starts with its bold label, followed by
   * its cells; without it, the line holds the cells only.
   */
  lemma RowLineShape(r: Row)
    ensures r.cells != [] ==>
      RowLine(true, r) == "|-\n| " + LabelCell(r) + " || " + Join(" || ", r.cells) + " "
    ensures r.cells == [] ==> RowLine(true, r) == "|-\n| " + LabelCell(r) + " "
    ensures RowLine(false, r) == "|-\n| " + Join(" || ", r.cells) + " "
  {
    if r.cells != [] {
      JoinAppend(" || ", [LabelCell(r)], r.cells);
    } else {
      assert [LabelCell(r)] + r.cells == [LabelCell(r)];
    }
    assert [] + r.cells == r.cells;
  }

  /** The corrected header always gives `style=` one quoted value, the declarations and a final `;`. */
  lemma StyleAttrQuoted(style: Style)
    ensures IsQuoted(StyleAttr(style))
    ensures style.Some? ==> StyleAttr(style)[1..|StyleAttr(style)| - 1] == StyleDecls(style.value) + ";"
  {
  }

  /** As written, a given style's value starts with `style=` instead of a quote, so it is not a quoted value. */
  lemma StyleAttrAsWrittenNotQuoted(kv: seq<(string, string)>)
    ensures !IsQuoted(StyleAttrAsWritten(Some(kv)))
    ensures StartsWith(StyleAttrAsWritten(Some(kv)), "style=\"")
  {
    assert StyleAttrAsWritten(Some(kv))[..7] == "style=\"";
  }

  /** As written, any style makes the header read `style=style="…"`: the doubled attribute name. */
  lemma HeaderAsWrittenDoublesStyle(sortable: bool, kv: seq<(string, string)>, index: bool, columns: seq<string>)
    ensures StartsWith(HeaderAsWritten(sortable, Some(kv), index, columns), TableOpen(sortable) + "style=\"")
  {
    var attr := StyleAttrAsWritten(Some(kv));
    HeaderOpens(sortable, attr, index, columns);
    StyleAttrAsWrittenNotQuoted(kv);
    var h := HeaderAsWritten(sortable, Some(kv), index, columns);
    var p := TableOpen(sortable) + "style=\"";
    assert p == (TableOpen(sortable) + attr)[..|p|];
  }

  /** As written, the whole table given any style opens with `style=style="`. */
  lemma TableMarkupDoublesStyle(t: Table, sortable: bool, kv: seq<(string, string)>, index: bool)
    ensures StartsWith(TableMarkup(t, sortable, Some(kv), index), TableOpen(sortable) + "style=\"")
  {
    var h := HeaderAsWritten(sortable, Some(kv), index, t.columns);
    HeaderAsWrittenDoublesStyle(sortable, kv, index, t.columns);
    TableEnds(t, h, index);
    PrefixTrans(TableMarkup(t, sortable, Some(kv), index), h, TableOpen(sortable) + "style=\"");
  }

  /**
   * The intended table gives `style=` exactly one quoted value, the
   * declarations followed by `;`, and then the rest of the header.
   */
  lemma IntendedTableQuotesStyle(t: Table, sortable: bool, style: Style, index: bool)
    ensures StartsWith(TableMarkupIntended(t, sortable, style, index), TableOpen(sortable) + StyleAttr(style) + " \n")
    ensures IsQuoted(StyleAttr(style))
    ensures style.Some? ==> StyleAttr(style)[1..|StyleAttr(style)| - 1] == StyleDecls(style.value) + ";"
  {
    var h := Header(sortable, style, index, t.columns);
    var p := TableOpen(sortable) + StyleAttr(style) + " \n";
    assert h == p + ("|-\n! " + (if index then " !! " else "") + Join(" !! ", t.columns) + " ");
    assert h[..|p|] == p;
    TableEnds(t, h, index);
    PrefixTrans(TableMarkupIntended(t, sortable, style, index), h, p);
    StyleAttrQuoted(style);
  }

  /** The header as written and the corrected header differ only for a given style, and so do the tables. */
  lemma StyleAttrAgreesWithoutStyle(t: Table, sortable: bool, index: bool)
    ensures Header(sortable, None, index, t.columns) == HeaderAsWritten(sortable, None, index, t.columns)
    ensures TableMarkup(t, sortable, None, index) == TableMarkupIntended(t, sortable, None, index)
  {
  }

  // --------------------------------------------------------------- figures

  /**
   * `figure_formatter(fig, filename, format=format)`: saves the figure under
   * the given name, or a generated one, and links to that file.
   */
  method FigureFormat(fig: Figure, filename: Option<string>, format: string) returns (link: string, saved: SavedImage)
    ensures saved.fig == fig
    ensures filename.Some? ==> saved.name == filename.value
    ensures filename.None? ==> IsGeneratedName(saved.name, format)
    ensures LinkTarget("File", link) == Some(saved.name)
  {
    var name: string;
    if filename.None? {
      name := GeneratedName(format);
    } else {
      name := filename.value;
    }
    saved := Saved(fig, name);
    link := Link("File", name);
    LinkRoundTrip("File", name);
  }

  // -------------------------------------------------------------- galleries

  /** A gallery image: the name of an already saved file, or a figure still to be saved. */
  datatype ImageRef = FileName(name: string) | InMemory(fig: Figure)

  /** A list of images, or a mapping from image to caption in the order the mapping yields it. */
  datatype GalleryInput =
    | GalleryList(items: seq<ImageRef>)
    | GalleryMap(entries: seq<(ImageRef, string)>)

  const NoCaption: string := "no caption given"

  function Refs(g: GalleryInput): seq<ImageRef> {
    match g
    case GalleryList(items) => items
    case GalleryMap(entries) => seq(|entries|, i requires 0 <= i < |entries| => entries[i].0)
  }

  function Captions(g: GalleryInput): (caps: seq<string>)
    ensures |caps| == |Refs(g)|
    ensures g.GalleryList? ==> forall i :: 0 <= i < |caps| ==> caps[i] == NoCaption
    ensures g.GalleryMap? ==> forall i :: 0 <= i < |caps| ==> caps[i] == g.entries[i].1
  {
    match g
    case GalleryList(items) => seq(|items|, _ => NoCaption)
    case GalleryMap(entries) => seq(|entries|, i requires 0 <= i < |entries| => entries[i].1)
  }

  function GalleryEntry(name: string, caption: string): string {
    "File:" + name + "|" + caption + "\n"
  }

  function GalleryEntries(names: seq<string>, caps: seq<string>): seq<string>
    requires |names| == |caps|
  {
    seq(|names|, i requires 0 <= i < |names| => GalleryEntry(names[i], caps[i]))
  }

  /** The gallery tag around one `File:name|caption` line per image, in order. */
  function GalleryMarkup(names: seq<string>, caps: seq<string>): string
    requires |names| == |caps|
  {
    "<gallery>\n" + Concat(GalleryEntries(names, caps)) + "</gallery>\n"
  }

  /** How the formatter names an image: a file keeps its name, a figure gets a generated one. */
  predicate NamedAs(ref: ImageRef, name: string, format: string) {
    match ref
    case FileName(n) => name == n
    case InMemory(_) => IsGeneratedName(name, format)
  }

  /** The saves made for `refs` named `names`: one per figure, in order. */
  function SavesOf(refs: seq<ImageRef>, names: seq<string>): seq<SavedImage>
    requires |refs| <= |names|
    decreases |refs|
  {
    if refs == [] then []
    else
      var k := |refs| - 1;
      SavesOf(refs[..k], names) + (if refs[k].InMemory? then [Saved(refs[k].fig, names[k])] else [])
  }

  /**
   * `gallery_formatter(figures, format)`: an empty mapping fails; otherwise
   * every figure is saved under a generated name, every file name is used
   * as it is, and each image becomes one line of the gallery, in order.
   */
  method GalleryFormat(g: GalleryInput, format: string) returns (r: Result<string>, names: seq<string>, saves: seq<SavedImage>)
    ensures g == GalleryMap([]) <==> r == Err(EmptyMapping)
    ensures g != GalleryMap([]) ==> r.Ok?
    ensures r.Err? ==> names == [] && saves == []
    ensures r.Ok? ==> |names| == |Refs(g)|
    ensures r.Ok? ==> forall i :: 0 <= i < |names| ==> NamedAs(Refs(g)[i], names[i], format)
    ensures r.Ok? ==> r.value == GalleryMarkup(names, Captions(g))
    ensures r.Ok? ==> saves == SavesOf(Refs(g), names)
  {
    if g.GalleryMap? && g.entries == [] {
      return Err(EmptyMapping), [], [];
    }
    var body;
    body, names, saves := GalleryBody(Refs(g), Captions(g), format);
    r := Ok("<gallery>\n" + body + "</gallery>\n");
  }

  /** The loop of `gallery_formatter`: names, saves and the text of one line per image. */
  method GalleryBody(figures: seq<ImageRef>, captions: seq<string>, format: string)
    returns (s: string, names: seq<string>, saves: seq<SavedImage>)
    requires |figures| == |captions|
    ensures |names| == |figures|
    ensures forall i :: 0 <= i < |names| ==> NamedAs(figures[i], names[i], format)
    ensures s == Concat(GalleryEntries(names, captions))
    ensures saves == SavesOf(figures, names)
  {
    s := "";
    names := [];
    saves := [];
    for i := 0 to |figures|
      invariant |names| == i
      invariant forall j :: 0 <= j < i ==> NamedAs(figures[j], names[j], format)
      invariant saves == SavesOf(figures[..i], names)
      invariant s == Concat(GalleryEntries(names, captions[..i]))
    {
      var filename: string;
      match figures[i] {
        case InMemory(fig) =>
          filename := GeneratedName(format);
          saves := saves + [Saved(fig, filename)];
        case FileName(n) =>
          filename := n;
      }
      EntriesStep(names, captions, filename);
      SavesStep(figures, names, filename);
      names := names + [filename];
      s := s + GalleryEntry(filename, captions[i]);
    }
    assert figures[..|figures|] == figures;
    assert captions[..|figures|] == captions;
  }

  /** One more image adds its line to the gallery text built so far. */
  lemma EntriesStep(names: seq<string>, caps: seq<string>, filename: string)
    requires |names| < |caps|
    ensures var i := |names|;
      Concat(GalleryEntries(names + [filename], caps[..i + 1]))
        == Concat(GalleryEntries(names, caps[..i])) + GalleryEntry(filename, caps[i])
  {
    var i := |names|;
    var e := GalleryEntry(filename, caps[i]);
    assert GalleryEntries(names + [filename], caps[..i + 1]) == GalleryEntries(names, caps[..i]) + [e];
    ConcatAppend(GalleryEntries(names, caps[..i]), [e]);
    assert Concat([e]) == e by {
      assert [e][..0] == [];
    }
  }

  /** One more image adds its save, if it is a figure, to the saves so far. */
  lemma SavesStep(refs: seq<ImageRef>, names: seq<string>, filename: string)
    requires |names| < |refs|
    ensures var i := |names|;
      SavesOf(refs[..i + 1], names + [filename])
        == SavesOf(refs[..i], names) + (if refs[i].InMemory? then [Saved(refs[i].fig, filename)] else [])
  {
    var i := |names|;
    assert refs[..i + 1][..i] == refs[..i];
    SavesPrefix(refs[..i], names, names + [filename]);
  }

  /** The saves for `refs` depend only on the names given to `refs`. */
  lemma {:induction false} SavesPrefix(refs: seq<ImageRef>, names: seq<string>, names': seq<string>)
    requires |refs| <= |names| && |refs| <= |names'|
    requires forall i :: 0 <= i < |refs| ==> names[i] == names'[i]
    ensures SavesOf(refs, names) == SavesOf(refs, names')
    decreases |refs|
  {
    if refs != [] {
      SavesPrefix(refs[..|refs| - 1], names, names');
    }
  }

  function InMemoryIndices(refs: seq<ImageRef>): set<nat> {
    set i: nat | i < |refs| && refs[i].InMemory?
  }

  /**
   * One save per figure and none per file name: the number of saves is the
   * number of figures, and every save is one of the input figures under a
   * generated name.
   */
  lemma {:induction false} SavesCount(refs: seq<ImageRef>, names: seq<string>, format: string)
    requires |refs| <= |names|
    requires forall i :: 0 <= i < |refs| ==> NamedAs(refs[i], names[i], format)
    ensures |SavesOf(refs, names)| == |InMemoryIndices(refs)|
    ensures forall sv :: sv in SavesOf(refs, names) ==> InMemory(sv.fig) in refs && IsGeneratedName(sv.name, format)
    decreases |refs|
  {
    if refs != [] {
      var k := |refs| - 1;
      var init := refs[..k];
      SavesCount(init, names, format);
      if refs[k].InMemory? {
        assert InMemoryIndices(refs) == InMemoryIndices(init) + {k};
        assert k !in InMemoryIndices(init);
      } else {
        assert InMemoryIndices(refs) == InMemoryIndices(init);
      }
    }
  }

  /** An empty list gives an empty gallery. */
  lemma EmptyGallery()
    ensures GalleryMarkup([], []) == "<gallery>\n</gallery>\n"
  {
  }

  /** Adding an image to the input adds exactly its line before the closing tag. */
  lemma GallerySnoc(names: seq<string>, caps: seq<string>, n: string, c: string)
    requires |names| == |caps|
    ensures GalleryMarkup(names + [n], caps + [c])
      == "<gallery>\n" + Concat(GalleryEntries(names, caps)) + GalleryEntry(n, c) + "</gallery>\n"
  {
    assert GalleryEntries(names + [n], caps + [c]) == GalleryEntries(names, caps) + [GalleryEntry(n, c)];
    ConcatAppend(GalleryEntries(names, caps), [GalleryEntry(n, c)]);
    assert Concat([GalleryEntry(n, c)]) == GalleryEntry(n, c) by {
      assert [GalleryEntry(n, c)][..0] == [];
    }
  }

  // ------------------------------------------------------- formatter table

  /** What `add` can be given, by runtime type. */
  datatype Artifact =
    | Str(text: string)
    | Fig(fig: Figure)
    | Frame(table: Table)
    | Gallery(gallery: GalleryInput)
    | Other(typeName: string)

  /** The exact runtime type name `type(element)` has. */
  function TypeName(a: Artifact): string {
    match a
    case Str(_) => "str"
    case Fig(_) => "Figure"
    case Frame(_) => "DataFrame"
    case Gallery(GalleryList(_)) => "list"
    case Gallery(GalleryMap(_)) => "dict"
    case Other(t) => t
  }

  /** The formatting functions: the identity, the three formatters, or one supplied by the caller. */
  datatype Formatter =
    | Identity
    | FigureFormatter
    | DataFrameFormatter
    | GalleryFormatter
    | Custom(render: Artifact -> string)

  /** `format_factory`: a formatter for figures and one for data frames, looked up by exact type name. */
  function FormatFactory(typeName: string): (f: Option<Formatter>)
    ensures f.Some? <==> typeName == "Figure" || typeName == "DataFrame"
    ensures f.Some? ==> f.value.FigureFormatter? || f.value.DataFrameFormatter?
  {
    if typeName == "Figure" then Some(FigureFormatter)
    else if typeName == "DataFrame" then Some(DataFrameFormatter)
    else None
  }

  /** The table sends each artifact kind to its own formatter, and nothing else anywhere. */
  lemma FactoryByArtifact(a: Artifact)
    ensures a.Fig? ==> FormatFactory(TypeName(a)) == Some(FigureFormatter)
    ensures a.Frame? ==> FormatFactory(TypeName(a)) == Some(DataFrameFormatter)
    ensures (a.Str? || a.Gallery?) ==> FormatFactory(TypeName(a)).None?
  {
  }
}
