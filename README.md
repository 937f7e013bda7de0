# mediawikilogger in Dafny

A verified model of `mediawikilogger`: a small Python 2 library that turns a
running script into a MediaWiki page. When a `MediaWikiLogger` is created, it
reads the script and does two things:

- It stores every paragraph of `#@` annotation lines, keyed by line.
- It records every top-level module the script imports.

Afterwards, the script adds the following, each stored under the line that
added it:

- strings;
- matplotlib figures, saved to files and linked;
- pandas data frames, as wikitables;
- image galleries;
- code boxes.

Printing the logger gives the page. It has these parts, in order:

1. the category tags;
2. an information table (running time, directory, host, Python version and libraries);
3. the stored fragments, in line order.

The model has six modules:

- `Wrappers` (wrappers.dfy): `Option`, `Result` and the error cases.
- `Text` (text.dfy): the Python string operations the source relies on, which are `lstrip`, `strip`, `startswith`, `join` and `split('.')[0]`.
- `Annotations` (annotations.dfy): what the annotation scan of the script stores, as a specification.
- `Imports` (imports.dfy): which module names an import line yields.
- `Formatters` (formatters.dfy): the functions of `Formatters.py`.
- `Logger` (logger.dfy): the `MediaWikiLogger` class, whose fields (`content`, `mods`, …) its methods update in place.

Some inputs from the outside world are taken as parameters:

- The script is given as the list of its lines, as `readlines()` returns them.
- The line that called `add` is given as the integer `pos`.
- The clock readings, host name, Python version string and working directory are given as strings.
- What importing a module and asking git about it yields is given as a function `probe` from module name to its notes.

The randomness of generated file names is an unconstrained choice. Saving a
figure is not performed. Instead, every formatter returns the images it saves,
with their file names, in the order it saves them.

## Model

| member | source | states |
|---|---|---|
| Text.LStripSpec | mediawikilogger/MediaWikiLogger.py:160 | `lstrip` leaves a suffix of the line: everything it drops is whitespace, and what is left does not start with whitespace |
| Text.RStripSpec | mediawikilogger/MediaWikiLogger.py:163 | the right half of `strip`: a prefix, with only whitespace dropped, not ending in whitespace |
| Text.StripSpec | mediawikilogger/MediaWikiLogger.py:163 | `strip` leaves a slice of the text that neither starts nor ends with whitespace |
| Text.BeforeDot | mediawikilogger/MediaWikiLogger.py:106 | `split('.')[0]` is the prefix before the first dot, or the whole name when it has no dot |
| Text.JoinSnoc | mediawikilogger/MediaWikiLogger.py:206 | joining one more part adds exactly one separator and the part |
| Text.JoinAppend | mediawikilogger/Formatters.py:83 | joining two non-empty lists puts one separator between the two joins |
| Text.JoinIsEmpty | mediawikilogger/MediaWikiLogger.py:195 | with a non-empty separator, a join is empty exactly when it joins nothing or a single empty string |
| Text.ConcatAppend | mediawikilogger/MediaWikiLogger.py:68 | `''.join` distributes over putting two lists together |
| Text.JoinThen | mediawikilogger/MediaWikiLogger.py:203-206 | joining more parts onto a non-empty list appends each part after a separator |
| Annotations.RunsAreMaximal | mediawikilogger/MediaWikiLogger.py:159-169 | the runs the scan builds one line at a time are exactly the maximal blocks of consecutive `#@` lines, in ascending order, missing none |
| Annotations.MarkerLinesAreInRuns | mediawikilogger/MediaWikiLogger.py:160-161 | a line lies in some run if and only if, once left-stripped, it starts with `#@` |
| Annotations.FirstMarkerOpensRun | mediawikilogger/MediaWikiLogger.py:157-162 | the first marker line opens the first run even at line 0, because the sentinel `-5` is never one line before a line |
| Annotations.RunTextSnoc | mediawikilogger/MediaWikiLogger.py:163 | a line that extends a run adds a space and its stripped remainder to the paragraph |
| Annotations.RunTextEmpty | mediawikilogger/MediaWikiLogger.py:166 | a paragraph is empty exactly when its run is one line whose remainder is empty, which is when the `len(curr_str) > 0` guard skips storing it |
| Annotations.BlockKeys | mediawikilogger/MediaWikiLogger.py:167 | every stored paragraph is keyed by the last line of its run, and keys strictly increase in storing order |
| Annotations.ToMapContents | mediawikilogger/MediaWikiLogger.py:167-172 | storing paragraphs one after another yields a dictionary with exactly their keys, each holding its paragraph |
| Annotations.ScannedContent | mediawikilogger/MediaWikiLogger.py:155-172 | the scan stores exactly one entry per run with a non-empty paragraph, under the 0-based index of the run's last line, holding the paragraph between line breaks, and nothing else |
| Annotations.BlockOfRun | mediawikilogger/MediaWikiLogger.py:166-172 | the entry for a run's last line, if any, is that run's paragraph and no other |
| Annotations.NoMarkersNoBlocks | mediawikilogger/MediaWikiLogger.py:159-172 | a script without `#@` lines stores nothing |
| Annotations.RunsOfSnoc | mediawikilogger/MediaWikiLogger.py:161-169 | one more line leaves the runs alone, extends the last run when it follows it directly, or opens a new run |
| Annotations.ClosedRunBlocks | mediawikilogger/MediaWikiLogger.py:166-172 | closing a run stores its paragraph under its last line unless the paragraph is empty |
| Imports.NameRunLength | mediawikilogger/MediaWikiLogger.py:95 | the longest prefix made of `[a-zA-Z0-9_.]` characters, stopping at the first other character |
| Imports.TokensSpec | mediawikilogger/MediaWikiLogger.py:95 | every `findall` token is a non-empty run of name characters, and the tokens together are exactly the line's name characters in order |
| Imports.TokensWord | mediawikilogger/MediaWikiLogger.py:95 | a run made only of name characters is one single token, so a name is never split |
| Imports.TokensSplit | mediawikilogger/MediaWikiLogger.py:95 | a character outside `[a-zA-Z0-9_.]` separates tokens: the tokens around it are those of the text before it, then those of the text after it |
| Imports.NameRunStops | mediawikilogger/MediaWikiLogger.py:95 | a run of name characters ends at the first other character, whatever follows it |
| Imports.StopIndex | mediawikilogger/MediaWikiLogger.py:97-101 | the first `as`, or `import` after the first token, where collection breaks; no earlier token is one |
| Imports.KeptSpec | mediawikilogger/MediaWikiLogger.py:102-103 | the kept tokens are exactly the tokens that are not `from` or `import` |
| Imports.CollectModuleTokens | mediawikilogger/MediaWikiLogger.py:96-103 | the token loop returns the non-keyword tokens before the first stop token, in order |
| Imports.CollectedSpec | mediawikilogger/MediaWikiLogger.py:97-103 | a collected token is a token of the line and is never `from`, `import` or `as` |
| Imports.NewNamesSpec | mediawikilogger/MediaWikiLogger.py:105-111 | the recorded names are distinct, and a name is recorded exactly when it occurs and was not already known |
| Imports.NewNamesSnoc | mediawikilogger/MediaWikiLogger.py:107 | one more name is recorded exactly when it is neither known nor already recorded |
| Imports.ImportNamesSnoc | mediawikilogger/MediaWikiLogger.py:93-94 | the names of one more line follow those of the lines before it; only unindented `from`/`import` lines contribute |
| Formatters.LinkTarget | mediawikilogger/Formatters.py:16 | a text read back as a link is the link to the name it yields |
| Formatters.LinkRoundTrip | mediawikilogger/Formatters.py:16 | reading back a `[[ns:name]]` link yields the name |
| Formatters.FileAndMediaLinksDiffer | mediawikilogger/Formatters.py:16-25 | a file link is never read as a media link, nor the other way round |
| Formatters.FileLinksRoundTrip | mediawikilogger/Formatters.py:9-16 | `filelink` keeps length and order, and the i-th link points at the i-th name |
| Formatters.MediaLinksRoundTrip | mediawikilogger/Formatters.py:18-25 | `medialink` keeps length and order, and the i-th link points at the i-th name |
| Formatters.IdGenerator | mediawikilogger/Formatters.py:28-29 | the id has exactly `size` characters, each an upper-case letter or a digit |
| Formatters.GeneratedName | mediawikilogger/Formatters.py:90 | a generated file name is a 20-character id, a dot and the format |
| Formatters.CodeBoxRoundTrip | mediawikilogger/Formatters.py:33-45 | the code box opens the collapsed frame and holds the code verbatim right after the `<source lang=…>` line, so it can be cut back out |
| Formatters.DataFrameFormat | mediawikilogger/Formatters.py:64-85 | the formatter builds the style value as written, then the header, then one line group per record in order, then `\|}`, joined by line breaks |
| Formatters.TableLayout | mediawikilogger/Formatters.py:74-85 | the table is the header, then each record's line after a line break, then `\n\|}` |
| Formatters.TableEnds | mediawikilogger/Formatters.py:74-85 | a table starts with its header and ends with `\|}` on a line of its own |
| Formatters.HeaderOpens | mediawikilogger/Formatters.py:69-74 | the header opens with the `wikitable` class, `sortable` if asked for, and `style=` followed by the style value |
| Formatters.TableFrame | mediawikilogger/Formatters.py:70-85 | the table, as written and as intended, opens with the `wikitable` class, followed by `sortable` exactly when asked for, and ends with `\|}` |
| Formatters.RowLineShape | mediawikilogger/Formatters.py:77-83 | with `index`, a record's line starts with its bold label and then its cells; without it, the line holds only the cells |
| Formatters.StyleAttrQuoted | mediawikilogger/Formatters.py:64-67 | the corrected style value is always one quoted string; with a style, it holds the `k:v` declarations joined by `;` and a final `;` |
| Formatters.StyleAttrAsWrittenNotQuoted | mediawikilogger/Formatters.py:67 | as written, a given style's value starts with `style="`, so it is not a quoted value |
| Formatters.HeaderAsWrittenDoublesStyle | mediawikilogger/Formatters.py:67-74 | as written, any style makes the header read `style=style="…` |
| Formatters.TableMarkupDoublesStyle | mediawikilogger/Formatters.py:64-85 | as written, the table for any style opens with `style=style="` |
| Formatters.IntendedTableQuotesStyle | mediawikilogger/Formatters.py:64-74 | the intended table gives `style=` exactly one quoted value, holding the declarations and a final `;` |
| Formatters.StyleAttrAgreesWithoutStyle | mediawikilogger/Formatters.py:64-74 | without a style, the header and the table as written agree with the corrected ones |
| Formatters.FigureFormat | mediawikilogger/Formatters.py:88-92 | the figure is saved once, under the given name or a generated one, and the result links to exactly that file |
| Formatters.Captions | mediawikilogger/Formatters.py:97-100 | a list gets `no caption given` for every image, and a mapping uses each image's own caption |
| Formatters.GalleryFormat | mediawikilogger/Formatters.py:96-112 | an empty mapping fails, and nothing else does; otherwise each figure is saved under a generated name, each file name is used as given, and each image becomes one `File:name\|caption` line, in order, inside the gallery tags |
| Formatters.GalleryBody | mediawikilogger/Formatters.py:102-110 | the loop names each image, saves each figure and appends one line per image, in order |
| Formatters.SavesCount | mediawikilogger/Formatters.py:104-108 | there is one save per figure and none per file name, and every save is an input figure under a generated name |
| Formatters.EmptyGallery | mediawikilogger/Formatters.py:96-112 | an empty list gives an empty gallery |
| Formatters.GallerySnoc | mediawikilogger/Formatters.py:103-111 | one more image adds exactly its line before the closing tag |
| Formatters.FormatFactory | mediawikilogger/Formatters.py:114-117 | there is a formatter exactly for the types `Figure` and `DataFrame`, and it is theirs |
| Formatters.FactoryByArtifact | mediawikilogger/Formatters.py:114-117 | figures get the figure formatter and data frames the table formatter; strings and galleries have no entry |
| Logger.ResolvePrecedence | mediawikilogger/MediaWikiLogger.py:132-137 | an explicit `formatfunc` always wins; otherwise a string is kept as it is, figures and data frames get their formatters, and any other type fails with its type name |
| Logger.ApplyFormatter | mediawikilogger/MediaWikiLogger.py:140 | running the chosen formatter gives its text, the file names it chose and the images it saved |
| Logger.AddOnlyGrows | mediawikilogger/MediaWikiLogger.py:124-140 | `add` never changes or removes a stored fragment; it adds at most the given position, and does so exactly when it succeeds, holding the returned text |
| Logger.TextIsStoredVerbatim | mediawikilogger/MediaWikiLogger.py:132-140 | a string added without a formatter is stored verbatim, or fails on a taken position and changes nothing |
| Logger.FigureSavedEvenIfPositionTaken | mediawikilogger/MediaWikiLogger.py:137-140 | a figure added at a taken position fails, but it is saved anyway, because the formatter runs before the position is checked |
| Logger.CodeLinesAppend | mediawikilogger/MediaWikiLogger.py:68 | the marker-line filter works line by line |
| Logger.CodeLinesSpec | mediawikilogger/MediaWikiLogger.py:68 | the code keeps every non-marker line and no other; the kept lines and the marker lines add up to all lines |
| Logger.DroppedLinesAreAnnotations | mediawikilogger/MediaWikiLogger.py:68 | the lines `add_code` drops from the script are exactly the lines the annotation paragraphs come from |
| Logger.InfoTextSpec | mediawikilogger/MediaWikiLogger.py:195 | a module's notes are empty exactly when it has none; otherwise they are their comma list in parentheses |
| Logger.CategoryTagsRoundTrip | mediawikilogger/MediaWikiLogger.py:180 | there is one `[[Category:…]]` tag per category, in order, each naming its category |
| Logger.HasLeast | mediawikilogger/MediaWikiLogger.py:203 | every non-empty set of positions has a least one |
| Logger.SortedKeysSpec | mediawikilogger/MediaWikiLogger.py:203 | sorting lists every position exactly once, in strictly ascending order |
| Logger.SortKeys | mediawikilogger/MediaWikiLogger.py:203 | the method yields the sorted positions |
| Logger.SortedValuesSpec | mediawikilogger/MediaWikiLogger.py:203-204 | every stored fragment appears once, at the rank of its position |
| Logger.DocumentLayout | mediawikilogger/MediaWikiLogger.py:180-206 | the page is the tags, then the information block, then each fragment in position order, each after a line break |
| Logger.AppendFragments | mediawikilogger/MediaWikiLogger.py:203-204 | the loop appends the fragments in ascending position order |
| Logger.MediaWikiLogger.constructor | mediawikilogger/MediaWikiLogger.py:27-38 | a new logger holds the script's annotation paragraphs and each imported top-level module once, in order, with its notes |
| Logger.MediaWikiLogger.Load | mediawikilogger/MediaWikiLogger.py:28-31 | starting from empty stores, the annotations are scanned and then the modules recorded |
| Logger.MediaWikiLogger.AddContent | mediawikilogger/MediaWikiLogger.py:41-50 | a taken position fails and changes nothing; otherwise the formatted text is stored there and returned |
| Logger.MediaWikiLogger.ParseComments | mediawikilogger/MediaWikiLogger.py:155-172 | the scan leaves the store equal to the specification's dictionary of maximal-run paragraphs |
| Logger.MediaWikiLogger.ScanLine | mediawikilogger/MediaWikiLogger.py:160-169 | one turn of the scan keeps the scan invariant for one more line |
| Logger.MediaWikiLogger.StoreParagraph | mediawikilogger/MediaWikiLogger.py:166-172 | a non-empty paragraph is stored between line breaks under its last line; an empty one is not stored |
| Logger.MediaWikiLogger.ParseModules | mediawikilogger/MediaWikiLogger.py:89-122 | every top-level name of every import line is recorded once, in order of first appearance, with what `probe` yields; names known before are kept unchanged, and each recorded module is listed once |
| Logger.MediaWikiLogger.RecordModules | mediawikilogger/MediaWikiLogger.py:105-122 | the inner loop records the top-level name of each collected token unless it is already recorded |
| Logger.MediaWikiLogger.Add | mediawikilogger/MediaWikiLogger.py:124-140 | picks the formatter, runs it and stores its text, as `AddOutcome` describes |
| Logger.MediaWikiLogger.AddGallery | mediawikilogger/MediaWikiLogger.py:143-150 | `add` with the gallery formatter; the stored text is not returned |
| Logger.MediaWikiLogger.Plus | mediawikilogger/MediaWikiLogger.py:152-153 | `logger + x` is `add` with no keyword arguments |
| Logger.MediaWikiLogger.AddCode | mediawikilogger/MediaWikiLogger.py:52-70 | adds, as a string, the code box of the object's source, of the file's text, or of the script without its marker lines, titled `no code title given` unless another title is given, and in `python` unless another language is given |
| Logger.MediaWikiLogger.Render | mediawikilogger/MediaWikiLogger.py:175-206 | without categories, printing fails; otherwise the page is the category tags, the information block and the fragments in position order, joined by line breaks |
| Logger.KnownNameStep | mediawikilogger/MediaWikiLogger.py:107 | meeting a recorded name changes nothing |
| Logger.NewNameStep | mediawikilogger/MediaWikiLogger.py:107-122 | meeting a new name records it after the others, with what `probe` yields |
| Logger.ModsValid | mediawikilogger/MediaWikiLogger.py:105-111 | recording only new names, once each, keeps every recorded module listed exactly once |
| Logger.ScanEnd | mediawikilogger/MediaWikiLogger.py:170-172 | storing the open paragraph at the end completes the dictionary |
| Logger.ScanOpen | mediawikilogger/MediaWikiLogger.py:165-169 | a marker line that does not follow the open run stores the run's paragraph, if non-empty, and opens a new run |
| Logger.ScanExtend | mediawikilogger/MediaWikiLogger.py:162-164 | a marker line right after the open run extends it |

## Left out

- Reading the script from `sys.argv[0]` and any other file is left out. The script's lines and the text of a code file are parameters.
- `save` (MediaWikiLogger.py:209-216) is left out: it only writes the rendered page to a file.
- `inspect` is left out. The calling line number that `add` stores under is the parameter `pos`, the source text of an object given to `add_code` is a parameter, and so is the running directory.
- Importing each module, reading its `__version__` and asking git for its branch and changes (`add_repo`) are left out. They are foreign calls. Their combined result is the function `probe` from a module name to its notes.
- A module that fails to import is left out. The source raises `ImportError` from the constructor, and the model assumes every import succeeds.
- Reading the clock, the host name and `sys.version_info` is left out. They come in as strings.
- The order in which a Python 2 dict yields its entries is unspecified. The model fixes it in three places:
  - the recorded modules follow the order they were first imported in (`modOrder`);
  - a gallery mapping is a sequence of image and caption pairs in the order the mapping yields them;
  - a table's style mapping is a sequence of property and value pairs in the order `iteritems` yields them.
- Formatters.DataFrameFormat: `col_mapper` is left out. It applies arbitrary functions to the columns first.
- Formatters.DataFrameFormat: a data frame comes in already reduced to its column names, index labels and cell texts, as `str` renders them. pandas itself is not modelled.
- Formatters.FigureFormat: `width` is accepted by the source and never used, so it is left out.
- Formatters.FigureFormat: saving a figure is not performed. The formatter returns the saves it makes instead.
- Formatters.IdGenerator: the random choice is an unconstrained choice, so the model promises only the length and the alphabet.
- Keyword arguments that a formatter does not accept raise `TypeError` in the source. In the model every formatter reads only the settings it knows.
- Logger.ApplyFormatter: a formatter applied to the wrong kind of value (for example a figure formatter given a string through `formatfunc`) fails with an attribute error somewhere inside the source. The model returns `NotApplicable` for it.
- Logger.Resolve: a type missing from `format_factory` raises `KeyError` in the source. The model returns `UnsupportedType` with the type name. Subclasses of `str` are not distinguished from other types.
- Formatters.Artifact: `Other(typeName)` stands for a value of any other type. Its type name is meant to differ from `str`, `Figure` and `DataFrame`, but the model does not enforce that. An `Other` value named `Figure` or `DataFrame` would get that formatter, which then fails with `NotApplicable`.
- Logger.FormatResult: `formatfunc=lambda x: x` given explicitly with a value that is not a string stores that value itself in the source. The model's `Identity` only handles strings and returns `NotApplicable` for anything else, because fragments are strings in the model.
- Logger.MediaWikiLogger.ParseComments: requires an empty store, which is always the case where the constructor calls it.
- Formatters.GalleryFormat: captions are strings. A `None` caption, which Python would print as `None`, is not modelled.
- Module-level imports of IPython, numpy and matplotlib have no behaviour to model.

## Findings

| source | as written | input that shows it | evidently intended | confidence | as-written member | corrected member |
|---|---|---|---|---|---|---|
| mediawikilogger/Formatters.py:67 | the style value is built as `style="k:v;"` and then placed after the template's own `style=` (line 74), so the header reads `style=style="k:v;"` | `dataframe_formatter(df, style={'width': '50%'})` | the header reads `style="width:50%;"` | high, not executed | Formatters.TableMarkupDoublesStyle | Formatters.IntendedTableQuotesStyle |

The model keeps both versions:

- As written: `Formatters.StyleAttrAsWritten`, `Formatters.HeaderAsWritten` and `Formatters.TableMarkup` build the style value, the header and the table as the source does. `Formatters.DataFrameFormat`, and so `add` for a data frame, produces this table. `Formatters.HeaderAsWrittenDoublesStyle` and `Formatters.TableMarkupDoublesStyle` show the doubled attribute.
- Corrected: `Formatters.StyleAttr`, `Formatters.Header` and `Formatters.TableMarkupIntended` build the table the code evidently means. `Formatters.IntendedTableQuotesStyle` proves that its style value is one quoted declaration list.
- The two versions agree when no style is given (`Formatters.StyleAttrAgreesWithoutStyle`). This includes the information table, which the page always renders without a style, so the rendered page is the same under both.
