/**
 * The logger object: a store of rendered fragments keyed by integer
 * position, filled with the script's annotation paragraphs when it is
 * created and with formatted artifacts afterwards, plus the modules the
 * script imports; printing it gives the MediaWiki page.
 *
 * The script is given as its `readlines()` list, each line with its line
 * terminator. Clocks, the host name, the interpreter version and the working
 * directory are given as strings, and what the logger learns about an
 * imported module (version, repository state) as the function `probe`.
 */
module Logger {
  import opened Wrappers
  import opened Text
  import opened Annotations
  import opened Imports
  import opened Formatters

  // --------------------------------------------------------------- dispatch

  /** The keyword arguments `add` passes on to a formatter; `Defaults` holds the formatters' own defaults. */
  datatype Settings = Settings(filename: Option<string>, format: string, sortable: bool, style: Style, index: bool)

  const Defaults: Settings := Settings(None, "png", true, None, false)

  /** The formatter `add` picks: the one passed explicitly, else the identity for `str`, else the table's. */
  function Resolve(element: Artifact, explicit: Option<Formatter>): Result<Formatter> {
    if explicit.Some? then Ok(explicit.value)
    else if element.Str? then Ok(Identity)
    else
      match FormatFactory(TypeName(element))
      case Some(f) => Ok(f)
      case None => Err(UnsupportedType(TypeName(element)))
  }

  /**
   * An explicit formatter always wins; without one, a string is kept as it
   * is, figures and data frames get their formatters, and anything else
   * (galleries included) fails with its type name.
   */
  lemma ResolvePrecedence(element: Artifact, explicit: Option<Formatter>)
    ensures explicit.Some? ==> Resolve(element, explicit) == Ok(explicit.value)
    ensures explicit.None? && element.Str? ==> Resolve(element, explicit) == Ok(Identity)
    ensures explicit.None? && element.Fig? ==> Resolve(element, explicit) == Ok(FigureFormatter)
    ensures explicit.None? && element.Frame? ==> Resolve(element, explicit) == Ok(DataFrameFormatter)
    ensures explicit.None? && element.Gallery? ==> Resolve(element, explicit) == Err(UnsupportedType(TypeName(element)))
    ensures explicit.None? && element.Other? ==>
      (Resolve(element, explicit).Err? <==> element.typeName != "Figure" && element.typeName != "DataFrame")
    ensures explicit.None? && element.Other? && element.typeName != "Figure" && element.typeName != "DataFrame" ==>
      Resolve(element, explicit) == Err(UnsupportedType(element.typeName))
  {
    FactoryByArtifact(element);
  }

  /** How a figure's file is named: as asked for, or generated with the requested format. */
  predicate NamedFigure(settings: Settings, name: string) {
    match settings.filename
    case Some(n) => name == n
    case None => IsGeneratedName(name, settings.format)
  }

  /** The text a formatter produces, given the file names it chose for the images it saved. */
  function FormatResult(f: Formatter, element: Artifact, settings: Settings, names: seq<string>): Result<string> {
    match f
    case Identity => if element.Str? then Ok(element.text) else Err(NotApplicable)
    case Custom(render) => Ok(render(element))
    case FigureFormatter =>
      if element.Fig? && |names| == 1 then Ok(Link("File", names[0])) else Err(NotApplicable)
    case DataFrameFormatter =>
      if element.Frame? then Ok(TableMarkup(element.table, settings.sortable, settings.style, settings.index))
      else Err(NotApplicable)
    case GalleryFormatter =>
      if !element.Gallery? then Err(NotApplicable)
      else if element.gallery == GalleryMap([]) then Err(EmptyMapping)
      else if |names| == |Refs(element.gallery)| then Ok(GalleryMarkup(names, Captions(element.gallery)))
      else Err(NotApplicable)
  }

  /** The file names a formatter chooses and the images it saves. */
  ghost predicate Formatted(f: Formatter, element: Artifact, settings: Settings, names: seq<string>, saves: seq<SavedImage>) {
    if f.FigureFormatter? && element.Fig? then
      |names| == 1 && NamedFigure(settings, names[0]) && saves == [Saved(element.fig, names[0])]
    else if f.GalleryFormatter? && element.Gallery? && element.gallery != GalleryMap([]) then
      var refs := Refs(element.gallery);
      |names| == |refs| && (forall i :: 0 <= i < |refs| ==> NamedAs(refs[i], names[i], settings.format))
      && saves == SavesOf(refs, names)
    else names == [] && saves == []
  }

  /** `formatfunc(element, **kwargs)`. */
  method ApplyFormatter(f: Formatter, element: Artifact, settings: Settings)
    returns (r: Result<string>, names: seq<string>, saves: seq<SavedImage>)
    ensures r == FormatResult(f, element, settings, names)
    ensures Formatted(f, element, settings, names, saves)
  {
    names, saves := [], [];
    match f {
      case Identity =>
        r := if element.Str? then Ok(element.text) else Err(NotApplicable);
      case Custom(render) =>
        r := Ok(render(element));
      case FigureFormatter =>
        if element.Fig? {
          var link, saved := FigureFormat(element.fig, settings.filename, settings.format);
          r, names, saves := Ok(link), [saved.name], [saved];
        } else {
          r := Err(NotApplicable);
        }
      case DataFrameFormatter =>
        if element.Frame? {
          var s := DataFrameFormat(element.table, settings.sortable, settings.style, settings.index);
          r := Ok(s);
        } else {
          r := Err(NotApplicable);
        }
      case GalleryFormatter =>
        if element.Gallery? {
          r, names, saves := GalleryFormat(element.gallery, settings.format);
        } else {
          r := Err(NotApplicable);
        }
    }
  }

  /**
   * What one call of `add` does to the store: a failed lookup or formatter
   * leaves it alone; otherwise the text is stored under a free position, and
   * an occupied position fails and leaves the store alone.
   */
  ghost predicate AddOutcome(
    before: map<int, string>, after: map<int, string>, pos: int,
    element: Artifact, explicit: Option<Formatter>, settings: Settings,
    r: Result<string>, names: seq<string>, saves: seq<SavedImage>)
  {
    match Resolve(element, explicit)
    case Err(e) => r == Err(e) && names == [] && saves == [] && after == before
    case Ok(f) =>
      Formatted(f, element, settings, names, saves) &&
      match FormatResult(f, element, settings, names)
      case Err(e) => r == Err(e) && after == before
      case Ok(text) =>
        if pos in before then r == Err(DuplicatePosition(pos)) && after == before
        else r == Ok(text) && after == before[pos := text]
  }

  /**
   * The store only grows: entries already there are never changed or
   * removed, and at most one new position appears, holding the returned text.
   */
  lemma AddOnlyGrows(
    before: map<int, string>, after: map<int, string>, pos: int,
    element: Artifact, explicit: Option<Formatter>, settings: Settings,
    r: Result<string>, names: seq<string>, saves: seq<SavedImage>)
    requires AddOutcome(before, after, pos, element, explicit, settings, r, names, saves)
    ensures forall k :: k in before ==> k in after && after[k] == before[k]
    ensures after.Keys - before.Keys <= {pos}
    ensures r.Ok? <==> pos in after.Keys - before.Keys
    ensures r.Ok? ==> after[pos] == r.value
  {
  }

  /** A string added without a formatter is stored verbatim and saves nothing. */
  lemma TextIsStoredVerbatim(
    before: map<int, string>, after: map<int, string>, pos: int, t: string, settings: Settings,
    r: Result<string>, names: seq<string>, saves: seq<SavedImage>)
    requires AddOutcome(before, after, pos, Str(t), None, settings, r, names, saves)
    ensures names == [] && saves == []
    ensures pos !in before ==> r == Ok(t) && after == before[pos := t]
    ensures pos in before ==> r == Err(DuplicatePosition(pos)) && after == before
  {
  }

  /** A figure added under a taken position is still saved: the formatter runs before the store is checked. */
  lemma FigureSavedEvenIfPositionTaken(
    before: map<int, string>, after: map<int, string>, pos: int, fig: Figure, settings: Settings,
    r: Result<string>, names: seq<string>, saves: seq<SavedImage>)
    requires AddOutcome(before, after, pos, Fig(fig), None, settings, r, names, saves)
    requires pos in before
    ensures r == Err(DuplicatePosition(pos)) && after == before
    ensures |saves| == 1 && saves[0].fig == fig && NamedFigure(settings, saves[0].name)
  {
  }

  // ------------------------------------------------------------------ code

  /** Where `add_code` takes its code from: an object's source, a file's text, or the script's lines. */
  datatype CodeSource =
    | ObjectSource(source: string)
    | FileSource(text: string)
    | ScriptSource(lines: seq<string>)

  const DefaultCodeTitle: string := "no code title given"

  /** The script's lines without its marker lines, in order. */
  function CodeLines(lines: seq<string>): seq<string>
    decreases |lines|
  {
    if lines == [] then []
    else
      var k := |lines| - 1;
      CodeLines(lines[..k]) + (if IsMarker(lines[k]) then [] else [lines[k]])
  }

  /** The filter works line by line: filtering two pieces and putting them together is filtering the whole. */
  lemma {:induction false} CodeLinesAppend(xs: seq<string>, ys: seq<string>)
    ensures CodeLines(xs + ys) == CodeLines(xs) + CodeLines(ys)
    decreases |ys|
  {
    if ys == [] {
      assert xs + ys == xs;
    } else {
      var init := ys[..|ys| - 1];
      assert (xs + ys)[..|xs + ys| - 1] == xs + init;
      CodeLinesAppend(xs, init);
    }
  }

  function MarkerIndices(lines: seq<string>): set<nat> {
    set i: nat | i < |lines| && IsMarker(lines[i])
  }

  /**
   * The code keeps every line that is not a marker line and no other; the
   * kept lines and the marker lines together account for every line.
   */
  lemma {:induction false} CodeLinesSpec(lines: seq<string>)
    ensures forall l :: l in CodeLines(lines) <==> l in lines && !IsMarker(l)
    ensures |CodeLines(lines)| + |MarkerIndices(lines)| == |lines|
    decreases |lines|
  {
    if lines != [] {
      var k := |lines| - 1;
      var init := lines[..k];
      CodeLinesSpec(init);
      assert lines == init + [lines[k]];
      if IsMarker(lines[k]) {
        assert MarkerIndices(lines) == MarkerIndices(init) + {k};
        assert k !in MarkerIndices(init);
      } else {
        assert MarkerIndices(lines) == MarkerIndices(init);
      }
    }
  }

  /** The lines `add_code` leaves out of the script are exactly the lines the annotation runs are made of. */
  lemma DroppedLinesAreAnnotations(lines: seq<string>, i: nat)
    requires i < |lines|
    ensures CodeLines(lines[i..i + 1]) == [] <==> Covered(Runs(lines), i)
  {
    MarkerLinesAreInRuns(lines, i);
    assert lines[i..i + 1] == [lines[i]];
    assert lines[i..i + 1][..0] == [];
  }

  /** The code text: the source as read, or the script without its marker lines, joined back together. */
  function CodeText(src: CodeSource): string {
    match src
    case ObjectSource(s) => s
    case FileSource(t) => t
    case ScriptSource(lines) => Concat(CodeLines(lines))
  }

  function LangOrPython(lang: Option<string>): string {
    if lang.None? then "python" else lang.value
  }

  function TitleOrDefault(title: Option<string>): string {
    if title.None? then DefaultCodeTitle else title.value
  }

  // --------------------------------------------------------------- the page

  /** `infofunc`: the module's notes in parentheses, or nothing when there are none. */
  function InfoText(info: seq<string>): string {
    if |info| > 0 then "(" + Join(", ", info) + ")" else ""
  }

  /** The notes render empty exactly when there are none, and otherwise as their comma list in parentheses. */
  lemma InfoTextSpec(info: seq<string>)
    ensures InfoText(info) == "" <==> info == []
    ensures info != [] ==>
      |InfoText(info)| >= 2 && InfoText(info)[0] == '(' && InfoText(info)[|InfoText(info)| - 1] == ')' &&
      InfoText(info)[1..|InfoText(info)| - 1] == Join(", ", info)
  {
  }

  function LibraryLine(name: string, info: seq<string>): string {
    "* " + name + " " + InfoText(info)
  }

  /** The `Libraries` cell: a line break, then one bullet per recorded module in recording order. */
  function LibrariesCell(mods: map<string, seq<string>>, order: seq<string>): string
    requires forall n :: n in order ==> n in mods
  {
    "\n" + Join("\n", seq(|order|, i requires 0 <= i < |order| => LibraryLine(order[i], mods[order[i]])))
  }

  /** The information table: one `Settings` column, one row per parameter, labelled by the parameter. */
  function InfoTable(startTime: string, now: string, directory: string, host: string, pythonVersion: string, libraries: string): Table {
    Table(["Settings"], [
      Row(["Running time"], [startTime + " - " + now]),
      Row(["Running Directory"], [directory]),
      Row(["Host"], [host]),
      Row(["Python version"], [pythonVersion]),
      Row(["Libraries"], [libraries])
    ])
  }

  /** The category tags, one per category in order. */
  function CategoryTags(cats: seq<string>): seq<string> {
    seq(|cats|, i requires 0 <= i < |cats| => Link("Category", cats[i]))
  }

  /** Each tag names its category, in order. */
  lemma CategoryTagsRoundTrip(cats: seq<string>)
    ensures |CategoryTags(cats)| == |cats|
    ensures forall i :: 0 <= i < |cats| ==> LinkTarget("Category", CategoryTags(cats)[i]) == Some(cats[i])
  {
    forall i | 0 <= i < |cats| ensures LinkTarget("Category", CategoryTags(cats)[i]) == Some(cats[i]) {
      LinkRoundTrip("Category", cats[i]);
    }
  }

  predicate IsLeast(m: int, keys: set<int>) {
    m in keys && forall k :: k in keys ==> m <= k
  }

  /** Some element of a non-empty set. */
  ghost function Element<T>(s: set<T>): (x: T)
    requires s != {}
    ensures x in s
  {
    var x :| x in s; x
  }

  /** Every non-empty set of positions has a least element. */
  lemma {:induction false} HasLeast(keys: set<int>)
    requires |keys| > 0
    ensures exists m :: IsLeast(m, keys)
    decreases |keys|
  {
    var x := Element(keys);
    var rest := keys - {x};
    if |rest| > 0 {
      HasLeast(rest);
      var m :| IsLeast(m, rest);
      var least := if x < m then x else m;
      forall k | k in keys ensures least <= k {
        if k != x {
          assert k in rest;
        }
      }
      assert IsLeast(least, keys);
    } else {
      forall k | k in keys ensures x <= k {
        assert k in rest || k == x;
      }
      assert IsLeast(x, keys);
    }
  }

  /** The positions in ascending order, least first. */
  ghost function SortedKeys(keys: set<int>): (r: seq<int>)
    ensures forall i :: 0 <= i < |r| ==> r[i] in keys
    decreases |keys|
  {
    if keys == {} then []
    else
      HasLeast(keys);
      var m :| IsLeast(m, keys);
      [m] + SortedKeys(keys - {m})
  }

  /** The sorted positions start with the least one. */
  lemma SortedKeysUnfold(keys: set<int>, m: int)
    requires IsLeast(m, keys)
    ensures SortedKeys(keys) == [m] + SortedKeys(keys - {m})
  {
  }

  /** Sorting lists every position exactly once, in strictly ascending order. */
  lemma SortedKeysSpec(keys: set<int>)
    ensures |SortedKeys(keys)| == |keys|
    ensures forall k :: k in keys <==> k in SortedKeys(keys)
    ensures forall i, j :: 0 <= i < j < |SortedKeys(keys)| ==> SortedKeys(keys)[i] < SortedKeys(keys)[j]
  {
    SortedKeysMembers(keys);
    SortedKeysAscending(keys);
  }

  lemma {:induction false} SortedKeysMembers(keys: set<int>)
    ensures |SortedKeys(keys)| == |keys|
    ensures forall k :: k in keys <==> k in SortedKeys(keys)
    decreases |keys|
  {
    if keys != {} {
      HasLeast(keys);
      var m :| IsLeast(m, keys);
      SortedKeysUnfold(keys, m);
      var rest := keys - {m};
      SortedKeysMembers(rest);
      var tail := SortedKeys(rest);
      assert SortedKeys(keys) == [m] + tail;
      assert |keys| == |rest| + 1;
      forall k ensures k in keys <==> k in SortedKeys(keys) {
        assert k in keys <==> k == m || k in rest;
        assert k in SortedKeys(keys) <==> k == m || k in tail;
      }
    }
  }

  lemma {:induction false} SortedKeysAscending(keys: set<int>)
    ensures forall i, j :: 0 <= i < j < |SortedKeys(keys)| ==> SortedKeys(keys)[i] < SortedKeys(keys)[j]
    decreases |keys|
  {
    if keys != {} {
      HasLeast(keys);
      var m :| IsLeast(m, keys);
      SortedKeysUnfold(keys, m);
      var rest := keys - {m};
      SortedKeysAscending(rest);
      var tail := SortedKeys(rest);
      var r := SortedKeys(keys);
      assert r == [m] + tail;
      forall i, j | 0 <= i < j < |r| ensures r[i] < r[j] {
        assert r[j] == tail[j - 1];
        if i == 0 {
          assert tail[j - 1] in rest;
        } else {
          assert r[i] == tail[i - 1];
        }
      }
    }
  }

  /** `sorted(keys)`: the least remaining position, again and again. */
  method SortKeys(keys: set<int>) returns (r: seq<int>)
    ensures r == SortedKeys(keys)
  {
    r := [];
    var rest := keys;
    while rest != {}
      invariant r + SortedKeys(rest) == SortedKeys(keys)
      decreases |rest|
    {
      HasLeast(rest);
      var m :| IsLeast(m, rest);
      SortedKeysUnfold(rest, m);
      r := r + [m];
      rest := rest - {m};
    }
  }

  /** The stored fragments in ascending position order. */
  ghost function SortedValues(content: map<int, string>): seq<string> {
    var ks := SortedKeys(content.Keys);
    seq(|ks|, i requires 0 <= i < |ks| => content[ks[i]])
  }

  /** Every fragment appears, at the rank of its position among all positions. */
  lemma SortedValuesSpec(content: map<int, string>)
    ensures |SortedValues(content)| == |content|
    ensures forall k :: k in content ==>
      exists i :: 0 <= i < |SortedValues(content)| && SortedKeys(content.Keys)[i] == k && SortedValues(content)[i] == content[k]
  {
    var ks := SortedKeys(content.Keys);
    SortedKeysSpec(content.Keys);
    forall k | k in content
      ensures exists i :: 0 <= i < |SortedValues(content)| && ks[i] == k && SortedValues(content)[i] == content[k]
    {
      var i :| 0 <= i < |ks| && ks[i] == k;
      assert SortedValues(content)[i] == content[k];
    }
  }

  /** The page: category tags, the information block, the fragments by position, one per line group. */
  ghost function Document(tags: seq<string>, info: string, content: map<int, string>): string {
    Join("\n", tags + [info] + SortedValues(content))
  }

  /**
   * The page starts with the category tags and the information block and
   * then has each fragment, in position order, after a line break.
   */
  lemma DocumentLayout(tags: seq<string>, info: string, content: map<int, string>)
    ensures Document(tags, info, content) == Join("\n", tags + [info]) + Concat(Prefixed("\n", SortedValues(content)))
    ensures tags == [] ==> Join("\n", tags + [info]) == info
    ensures tags != [] ==> Join("\n", tags + [info]) == Join("\n", tags) + "\n" + info
  {
    JoinThen("\n", tags + [info], SortedValues(content));
    if tags != [] {
      JoinSnoc("\n", tags, info);
    } else {
      assert tags + [info] == [info];
    }
  }

  /** The information block: a heading and the information table, indexed and sortable. */
  function InfoBlock(table: Table): string {
    "=Information=\n\n" + TableMarkup(table, true, None, true)
  }

  /** The loop of `__str__` over the stored fragments, in ascending position order. */
  method AppendFragments(ret: seq<string>, content: map<int, string>) returns (out: seq<string>)
    ensures out == ret + SortedValues(content)
  {
    out := ret;
    var keys := SortKeys(content.Keys);
    for i := 0 to |keys|
      invariant out == ret + SortedValues(content)[..i]
    {
      assert SortedValues(content)[..i + 1] == SortedValues(content)[..i] + [content[keys[i]]];
      out := out + [content[keys[i]]];
    }
    assert SortedValues(content)[..|keys|] == SortedValues(content);
  }

  // ------------------------------------------------------------ the logger

  /** The state of a scan after some lines: no run yet, or the last run open and the earlier ones stored. */
  ghost predicate ScanState(lines: seq<string>, runs: seq<Run>, currStr: string, oldLine: int, content: map<int, string>)
    requires forall j :: 0 <= j < |runs| ==> runs[j].first <= runs[j].last < |lines|
  {
    if runs == [] then currStr == "" && oldLine == -5 && content == map[]
    else
      oldLine == Last(runs).last && currStr == RunText(lines, Last(runs))
      && content == ToMap(BlocksOf(lines, AllButLast(runs)))
      && forall key :: key in content ==> key < oldLine
  }

  /** What recording modules has done so far, given the names met so far. */
  ghost predicate ModsState(
    oldMods: map<string, seq<string>>, oldOrder: seq<string>,
    mods: map<string, seq<string>>, order: seq<string>, names: seq<string>, probe: string -> seq<string>)
  {
    Recorded(oldMods, oldOrder, mods, order, NewNames(names, oldMods.Keys), probe)
  }

  /** The names `added` were recorded, in order and with what `probe` tells, after what was there before. */
  ghost predicate Recorded(
    oldMods: map<string, seq<string>>, oldOrder: seq<string>,
    mods: map<string, seq<string>>, order: seq<string>, added: seq<string>, probe: string -> seq<string>)
  {
    && order == oldOrder + added
    && (forall n :: n in mods <==> n in oldMods || n in added)
    && (forall n :: n in oldMods ==> mods[n] == oldMods[n])
    && (forall n :: n in mods && n !in oldMods ==> mods[n] == probe(n))
  }

  class MediaWikiLogger {
    /** Rendered fragments by position. */
    var content: map<int, string>
    /** Recorded modules: each name with its notes. */
    var mods: map<string, seq<string>>
    /** The recorded module names, in the order the page lists them. */
    var modOrder: seq<string>
    var categories: Option<seq<string>>
    var startTime: string
    var directory: string
    var pythonVersion: string

    /** Every recorded module is listed once. */
    ghost predicate Valid()
      reads this`mods, this`modOrder
    {
      Distinct(modOrder) && forall n :: n in mods <==> n in modOrder
    }

    /**
     * The state construction leaves: the script's annotation paragraphs
     * stored, and each name its import lines mention recorded once, in order,
     * with what `probe` tells about it.
     */
    ghost predicate Loaded(script: seq<string>, probe: string -> seq<string>)
      reads this`content, this`mods, this`modOrder
    {
      && Valid()
      && content == ToMap(Blocks(script))
      && modOrder == NewNames(ImportNames(script), {})
      && (forall n :: n in mods ==> mods[n] == probe(n))
    }

    /**
     * `MediaWikiLogger(categories)` run on `script`: the annotation
     * paragraphs are stored and the imported modules recorded.
     */
    constructor (script: seq<string>, categories: Option<seq<string>>, startTime: string, directory: string,
                 pythonVersion: string, probe: string -> seq<string>)
      ensures Loaded(script, probe)
      ensures this.categories == categories && this.startTime == startTime
      ensures this.directory == directory && this.pythonVersion == pythonVersion
    {
      content := map[];
      mods := map[];
      modOrder := [];
      new;
      Load(script, probe);
      ghost var loaded := (content, mods, modOrder);
      this.categories := categories;
      this.startTime := startTime;
      this.directory := directory;
      this.pythonVersion := pythonVersion;
      assert (content, mods, modOrder) == loaded;
    }

    /** What the constructor does after setting the fields: scan the annotations, then the imports. */
    method Load(script: seq<string>, probe: string -> seq<string>)
      requires content == map[] && mods == map[] && modOrder == []
      modifies this`content, this`mods, this`modOrder
      ensures Loaded(script, probe)
    {
      ParseComments(script);
      assert mods.Keys == {};
      ParseModules(script, probe);
    }

    /** `_add_content(pos, cont, formatfunc)`: store the formatted text under a free position. */
    method AddContent(pos: int, cont: string, formatfunc: Option<string -> string>) returns (r: Result<string>)
      modifies this`content
      ensures pos in old(content) ==> r == Err(DuplicatePosition(pos)) && content == old(content)
      ensures pos !in old(content) ==>
        r == Ok(if formatfunc.Some? then formatfunc.value(cont) else cont) && content == old(content)[pos := r.value]
    {
      if pos in content {
        return Err(DuplicatePosition(pos));
      }
      var tmp := if formatfunc.Some? then formatfunc.value(cont) else cont;
      content := content[pos := tmp];
      r := Ok(tmp);
    }

    /**
     * `_parse_comments`: one pass over the lines, collecting the current
     * paragraph and storing it when a new run starts and at the end.
     */
    method ParseComments(lines: seq<string>)
      requires content == map[]
      modifies this`content
      ensures content == ToMap(Blocks(lines))
    {
      var currStr := "";
      var oldLine := -5;
      for k := 0 to |lines|
        invariant ScanState(lines, RunsOf(Marks(lines)[..k]), currStr, oldLine, content)
      {
        currStr, oldLine := ScanLine(lines, k, currStr, oldLine);
      }
      ScanEnd(lines, currStr, oldLine, content);
      StoreParagraph(oldLine, currStr);
    }

    /**
     * One turn of the scan: a marker line right after the open paragraph
     * extends it; any other marker line stores the open paragraph and opens a
     * new one; any other line changes nothing.
     */
    method ScanLine(lines: seq<string>, k: nat, currStr: string, oldLine: int) returns (currStr': string, oldLine': int)
      requires k < |lines|
      requires ScanState(lines, RunsOf(Marks(lines)[..k]), currStr, oldLine, content)
      modifies this`content
      ensures ScanState(lines, RunsOf(Marks(lines)[..k + 1]), currStr', oldLine', content)
    {
      currStr', oldLine' := currStr, oldLine;
      var l := LStrip(lines[k]);
      if StartsWith(l, Marker) {
        assert Strip(l[2..]) == Remainder(lines[k]);
        if oldLine + 1 == k {
          ScanExtend(lines, k, currStr, oldLine, content);
          currStr', oldLine' := currStr + " " + Strip(l[2..]), k;
        } else {
          ScanOpen(lines, k, currStr, oldLine, content);
          StoreParagraph(oldLine, currStr);
          currStr', oldLine' := Strip(l[2..]), k;
        }
      } else {
        ScanPlain(lines, k, currStr, oldLine, content);
      }
    }

    /** Store the paragraph collected so far, wrapped in line breaks, under its last line, unless it is empty. */
    method StoreParagraph(oldLine: int, currStr: string)
      requires |currStr| > 0 ==> oldLine !in content
      modifies this`content
      ensures content == if |currStr| > 0 then old(content)[oldLine := "\n" + currStr + "\n"] else old(content)
    {
      if |currStr| > 0 {
        var stored := AddContent(oldLine, "\n" + currStr + "\n", None);
      }
    }

    /**
     * `_parse_modules`: for every import line, collect its module tokens and
     * record each top-level name not recorded yet, in order.
     */
    method ParseModules(lines: seq<string>, probe: string -> seq<string>)
      requires Valid()
      modifies this`mods, this`modOrder
      ensures Valid()
      ensures modOrder == old(modOrder) + NewNames(ImportNames(lines), old(mods).Keys)
      ensures forall n :: n in mods <==> n in old(mods) || n in NewNames(ImportNames(lines), old(mods).Keys)
      ensures forall n :: n in old(mods) ==> mods[n] == old(mods)[n]
      ensures forall n :: n in mods && n !in old(mods) ==> mods[n] == probe(n)
    {
      ghost var oldMods := mods;
      ghost var oldOrder := modOrder;
      for i := 0 to |lines|
        invariant ModsState(oldMods, oldOrder, mods, modOrder, ImportNames(lines[..i]), probe)
      {
        ImportNamesSnoc(lines, i);
        var l := lines[i];
        if StartsWith(l, "from") || StartsWith(l, "import") {
          var hits := Tokens(l);
          var mymods := CollectModuleTokens(hits);
          RecordModules(mymods, probe, oldMods, oldOrder, ImportNames(lines[..i]));
        } else {
          assert ImportNames(lines[..i]) + LineNames(l) == ImportNames(lines[..i]);
        }
      }
      assert lines[..|lines|] == lines;
      ModsValid(oldMods, oldOrder, mods, modOrder, ImportNames(lines), probe);
    }

    /** The inner loop of `_parse_modules`: record the top-level name of each collected token unless known. */
    method RecordModules(mymods: seq<string>, probe: string -> seq<string>,
                         ghost oldMods: map<string, seq<string>>, ghost oldOrder: seq<string>, ghost before: seq<string>)
      requires ModsState(oldMods, oldOrder, mods, modOrder, before, probe)
      modifies this`mods, this`modOrder
      ensures ModsState(oldMods, oldOrder, mods, modOrder, before + TopLevel(mymods), probe)
    {
      assert before + TopLevel(mymods[..0]) == before;
      for j := 0 to |mymods|
        invariant ModsState(oldMods, oldOrder, mods, modOrder, before + TopLevel(mymods[..j]), probe)
      {
        var name := BeforeDot(mymods[j]);
        TopLevelSnoc(before, mymods, j);
        if name !in mods {
          NewNameStep(oldMods, oldOrder, mods, modOrder, before + TopLevel(mymods[..j]), name, probe);
          mods := mods[name := probe(name)];
          modOrder := modOrder + [name];
        } else {
          KnownNameStep(oldMods, oldOrder, mods, modOrder, before + TopLevel(mymods[..j]), name, probe);
        }
      }
      assert mymods[..|mymods|] == mymods;
    }

    /**
     * `add(element, **kwargs)` at position `pos`: pick the formatter, run it,
     * and store its text.
     */
    method Add(pos: int, element: Artifact, explicit: Option<Formatter>, settings: Settings)
      returns (r: Result<string>, names: seq<string>, saves: seq<SavedImage>)
      modifies this`content
      ensures AddOutcome(old(content), content, pos, element, explicit, settings, r, names, saves)
    {
      var f := Resolve(element, explicit);
      if f.Err? {
        return Err(f.error), [], [];
      }
      var formatted;
      formatted, names, saves := ApplyFormatter(f.value, element, settings);
      if formatted.Err? {
        return Err(formatted.error), names, saves;
      }
      r := AddContent(pos, formatted.value, None);
    }

    /** `add_gallery(gallery, **kwargs)`: `add` with the gallery formatter; the stored text is not returned. */
    method AddGallery(pos: int, gallery: GalleryInput, settings: Settings)
      returns (r: Result<()>, names: seq<string>, saves: seq<SavedImage>, ghost stored: Result<string>)
      modifies this`content
      ensures AddOutcome(old(content), content, pos, Gallery(gallery), Some(GalleryFormatter), settings, stored, names, saves)
      ensures r == if stored.Ok? then Ok(()) else Err(stored.error)
    {
      var added;
      added, names, saves := Add(pos, Gallery(gallery), Some(GalleryFormatter), settings);
      stored := added;
      r := if added.Ok? then Ok(()) else Err(added.error);
    }

    /** `logger + other`: `add` with no keyword arguments. */
    method Plus(pos: int, other: Artifact) returns (r: Result<string>, names: seq<string>, saves: seq<SavedImage>)
      modifies this`content
      ensures AddOutcome(old(content), content, pos, other, None, Defaults, r, names, saves)
    {
      r, names, saves := Add(pos, other, None, Defaults);
    }

    /** `add_code(obj, file, title, lang)`: the code box of the chosen source, added as a string; the title and language have defaults. */
    method AddCode(pos: int, src: CodeSource, title: Option<string>, lang: Option<string>)
      returns (r: Result<string>, names: seq<string>, saves: seq<SavedImage>)
      modifies this`content
      ensures AddOutcome(old(content), content, pos,
        Str(CodeBox(CodeText(src), TitleOrDefault(title), LangOrPython(lang))), None, Defaults, r, names, saves)
    {
      var code: string;
      match src {
        case ObjectSource(s) => code := s;
        case FileSource(t) => code := t;
        case ScriptSource(lines) => code := Concat(CodeLines(lines));
      }
      var box := CodeBox(code, if title.None? then DefaultCodeTitle else title.value,
                       if lang.None? then "python" else lang.value);
      r, names, saves := Add(pos, Str(box), None, Defaults);
    }

    /**
     * `str(logger)` at time `now` on `host`: fails without categories;
     * otherwise the tags, the information block and the fragments by position.
     */
    method Render(now: string, host: string) returns (r: Result<string>)
      requires Valid()
      ensures categories.None? ==> r == Err(NoCategories)
      ensures categories.Some? ==> r == Ok(Document(CategoryTags(categories.value),
        InfoBlock(InfoTable(startTime, now, directory, host, pythonVersion, LibrariesCell(mods, modOrder))), content))
    {
      if categories.None? {
        return Err(NoCategories);
      }
      var ret := CategoryTags(categories.value);
      var table := DataFrameFormat(InfoTable(startTime, now, directory, host, pythonVersion, LibrariesCell(mods, modOrder)), true, None, true);
      ret := ret + ["=Information=\n\n" + table];
      ret := AppendFragments(ret, content);
      r := Ok(Join("\n", ret));
    }
  }

  // ------------------------------------------------ steps of the two scans

  /** A marker line right after the open run extends it. */
  lemma ScanExtend(lines: seq<string>, k: nat, currStr: string, oldLine: int, content: map<int, string>)
    requires k < |lines| && IsMarker(lines[k]) && oldLine + 1 == k
    requires ScanState(lines, RunsOf(Marks(lines)[..k]), currStr, oldLine, content)
    ensures ScanState(lines, RunsOf(Marks(lines)[..k + 1]), currStr + " " + Remainder(lines[k]), k, content)
  {
    var marks := Marks(lines);
    var prev := RunsOf(marks[..k]);
    RunsOfSnoc(marks, k);
    RunTextSnoc(lines, Last(prev).first, k);
    assert AllButLast(AllButLast(prev) + [Run(Last(prev).first, k)]) == AllButLast(prev);
  }

  /** Any other marker line closes the open run, storing its paragraph if non-empty, and opens a new one. */
  lemma ScanOpen(lines: seq<string>, k: nat, currStr: string, oldLine: int, content: map<int, string>)
    requires k < |lines| && IsMarker(lines[k]) && oldLine + 1 != k
    requires ScanState(lines, RunsOf(Marks(lines)[..k]), currStr, oldLine, content)
    ensures |currStr| > 0 ==> oldLine !in content
    ensures ScanState(lines, RunsOf(Marks(lines)[..k + 1]), Remainder(lines[k]), k,
      if |currStr| > 0 then content[oldLine := "\n" + currStr + "\n"] else content)
  {
    var marks := Marks(lines);
    var prev := RunsOf(marks[..k]);
    RunsOfSnoc(marks, k);
    RunTextSingle(lines, k);
    var runs := prev + [Run(k, k)];
    assert RunsOf(marks[..k + 1]) == runs;
    assert AllButLast(runs) == prev && Last(runs) == Run(k, k);
    if prev != [] {
      ClosedRunBlocks(lines, prev);
      assert oldLine < k;
    } else {
      assert ToMap(BlocksOf(lines, prev)) == map[];
    }
  }

  /** A line that is not a marker line changes nothing. */
  lemma ScanPlain(lines: seq<string>, k: nat, currStr: string, oldLine: int, content: map<int, string>)
    requires k < |lines| && !IsMarker(lines[k])
    requires ScanState(lines, RunsOf(Marks(lines)[..k]), currStr, oldLine, content)
    ensures ScanState(lines, RunsOf(Marks(lines)[..k + 1]), currStr, oldLine, content)
  {
    RunsOfSnoc(Marks(lines), k);
  }

  /** At the end, storing the open paragraph, if non-empty, completes the scanner's dictionary. */
  lemma ScanEnd(lines: seq<string>, currStr: string, oldLine: int, content: map<int, string>)
    requires ScanState(lines, RunsOf(Marks(lines)[..|lines|]), currStr, oldLine, content)
    ensures |currStr| > 0 ==> oldLine !in content
    ensures ToMap(Blocks(lines)) == if |currStr| > 0 then content[oldLine := "\n" + currStr + "\n"] else content
  {
    var marks := Marks(lines);
    assert marks[..|lines|] == marks;
    var runs := RunsOf(marks);
    if runs != [] {
      ClosedRunBlocks(lines, runs);
    }
  }

  /** Meeting a name already recorded changes nothing. */
  lemma KnownNameStep(
    oldMods: map<string, seq<string>>, oldOrder: seq<string>,
    mods: map<string, seq<string>>, order: seq<string>, names: seq<string>, name: string, probe: string -> seq<string>)
    requires ModsState(oldMods, oldOrder, mods, order, names, probe)
    requires name in mods
    ensures ModsState(oldMods, oldOrder, mods, order, names + [name], probe)
  {
    NewNamesSnoc(names, name, oldMods.Keys);
    assert name in oldMods.Keys || name in NewNames(names, oldMods.Keys);
  }

  /** Meeting a new name records it, with what `probe` tells about it, after the others. */
  lemma NewNameStep(
    oldMods: map<string, seq<string>>, oldOrder: seq<string>,
    mods: map<string, seq<string>>, order: seq<string>, names: seq<string>, name: string, probe: string -> seq<string>)
    requires ModsState(oldMods, oldOrder, mods, order, names, probe)
    requires name !in mods
    ensures ModsState(oldMods, oldOrder, mods[name := probe(name)], order + [name], names + [name], probe)
  {
    NewNamesSnoc(names, name, oldMods.Keys);
    RecordNew(oldMods, oldOrder, mods, order, NewNames(names, oldMods.Keys), name, probe);
  }

  lemma RecordNew(
    oldMods: map<string, seq<string>>, oldOrder: seq<string>,
    mods: map<string, seq<string>>, order: seq<string>, added: seq<string>, name: string, probe: string -> seq<string>)
    requires Recorded(oldMods, oldOrder, mods, order, added, probe)
    requires name !in mods
    ensures name !in oldMods && name !in added
    ensures Recorded(oldMods, oldOrder, mods[name := probe(name)], order + [name], added + [name], probe)
  {
    assert order + [name] == oldOrder + (added + [name]);
  }

  /** Recording only new names, once each, keeps every recorded module listed once. */
  lemma ModsValid(
    oldMods: map<string, seq<string>>, oldOrder: seq<string>,
    mods: map<string, seq<string>>, order: seq<string>, names: seq<string>, probe: string -> seq<string>)
    requires ModsState(oldMods, oldOrder, mods, order, names, probe)
    requires Distinct(oldOrder) && forall n :: n in oldMods <==> n in oldOrder
    ensures Distinct(order) && forall n :: n in mods <==> n in order
  {
    var added := NewNames(names, oldMods.Keys);
    NewNamesSpec(names, oldMods.Keys);
    forall i, j | 0 <= i < j < |order| ensures order[i] != order[j] {
      if j >= |oldOrder| && i < |oldOrder| {
        assert order[i] in oldMods && order[j] in added;
      }
    }
  }

  lemma TopLevelSnoc(before: seq<string>, mymods: seq<string>, j: nat)
    requires j < |mymods|
    ensures before + TopLevel(mymods[..j + 1]) == (before + TopLevel(mymods[..j])) + [BeforeDot(mymods[j])]
  {
    assert TopLevel(mymods[..j + 1]) == TopLevel(mymods[..j]) + [BeforeDot(mymods[j])];
  }
}
