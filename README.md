# pdffill form overlay engine, modelled in Dafny

pdffill fills PDF forms by drawing text on top of the pages of an existing
base document. Two components make up its core:

- **The overlay composer** `PDFFiller` (`pdffill/pdf_filler.py`). It keeps
  one overlay canvas per base page, created lazily on first use, and a
  counter that names derived paragraph styles. It draws single lines
  (`add_text`) and wrapped paragraphs (`add_para`) in a style resolved
  against the stylesheet's Normal preset. `save` walks every base page in
  order and merges a page's overlay onto it only when one exists.
- **The form controller** `PDFForm` (`pdffill/pdf_form.py`). It keeps a
  registry of named line and paragraph fields and a global style. It reads
  field declarations from a parsed configuration, sets and clears values,
  and renders every field onto a fresh composer, once (`generate`) or once
  per record (`generate_batch`). In a batch, each output file is named by
  replacing the `{word}` tokens of a pattern.

The model has these modules:

- `Common` (common.dfy): options, results, the exception kinds, style
  maps, dict merging (`{**a, **b}`), dicts built from key/value pairs, and
  `str` of a natural number.
- `Canvas` (canvas.dfy): a canvas as the log of operations issued on it.
  It covers the Normal preset, style resolution and the setters that
  `apply_style` issues. It also defines when a log leaves the graphics
  state balanced.
- `Filler` (pdf_filler.dfy): the `PDFFiller` class, whose methods are
  proved against the value-level specifications `AddTextSpec`,
  `AddParaSpec` and `SavePages`.
- `Fields` (fields.dfy): the two field kinds, the effective style a field
  is rendered with, `render`, and reading one field declaration.
- `FieldRegistry` (registry.dfy): the field dict together with its
  iteration order. It covers registering, clearing, `set_values` and
  reading a list of declarations, as value-level folds.
- `FileNames` (file_names.dfy): the `re.sub(r'\{(\w+)\}', …)` file-name
  substitution.
- `Form` (pdf_form.dfy): the `PDFForm` class, with `generate` and
  `generate_batch` specified by `GenerateSpec` and `BatchDoc`.

A canvas is the sequence of `Op` values drawn on it:
`SaveState | SetFont | SetFillColor | DrawString | DrawPara | RestoreState | Finalize`.
An output document is its path together with one `OutPage(index, overlay)`
per base page. The overlay is `Some(log)` exactly when that page was
merged. The base document is reduced to its page count. Opening it is a
lookup in a map from path to page count, and a missing path is the
`FileError` that the PDF reader would raise. Python's dict iteration order
is modelled explicitly. The field registry carries an `order` sequence in
which a replaced key keeps its place. Records and value dicts are
sequences of pairs.

## Model

| member | source | states |
|---|---|---|
| `Common.Merge` | pdffill/pdf_form.py:23 | `{**lower, **upper}` has the keys of both dicts; on a shared key the value of `upper` is kept, elsewhere the value of `lower` |
| `Common.LastWins` | pdffill/pdf_form.py:106-107 | the dict built from a sequence of pairs has exactly the keys that occur in it |
| `Common.LastWinsValue` | pdffill/pdf_form.py:110 | a key's value in that dict is the value of its last pair, so a later pair replaces an earlier one |
| `Common.LastWinsSnoc` | pdffill/pdf_form.py:106-107 | a pair added at the end sets its key to its value |
| `Common.NatToString` | pdffill/pdf_form.py:110 | `str(n)` is a non-empty string of decimal digits, with at least two digits exactly when n >= 10 |
| `Common.NatToStringValue` | pdffill/pdf_form.py:110 | `str(n)` spells n: its digits, read most significant first as a decimal numeral, have the value n |
| `Common.NatToStringInjective` | pdffill/pdf_filler.py:64 | distinct numbers have distinct decimal strings |
| `Canvas.Resolve` | pdffill/pdf_filler.py:41-48 | the effective style holds fontName, fontSize and textColor plus every override whose value is not None; a non-None override replaces the base value, and a key with a None override or none at all keeps the Normal preset's value |
| `Canvas.OverridesStep` | pdffill/pdf_filler.py:46-48 | visiting one more override key adds it when its value is not None and changes nothing otherwise |
| `Canvas.StyleOps` | pdffill/pdf_filler.py:49-52 | apply_style issues at most two setters, and only these: setFont with the effective name and size, exactly when the font name is not None, then setFillColor with the effective colour, exactly when the colour is not None |
| `Canvas.NormalPresetWithoutOverrides` | pdffill/pdf_filler.py:41-52 | with no overrides, text is set in exactly the Normal preset's font, size and colour |
| `Canvas.DepthConcat` | pdffill/pdf_filler.py:56-59 | the save/restore depth after two logs is the depth after the second, started from the depth after the first |
| `Canvas.BalancedConcat` | pdffill/pdf_filler.py:54-59 | appending a balanced block to a balanced canvas keeps it balanced |
| `Canvas.DepthNeutral` | pdffill/pdf_filler.py:57-58 | operations that neither save nor restore leave the depth unchanged |
| `Canvas.BracketBalanced` | pdffill/pdf_filler.py:56-59 | a save, then operations that neither save nor restore, then a restore, is balanced |
| `Canvas.TextOpsBalanced` | pdffill/pdf_filler.py:54-59 | the block add_text appends is balanced, starts with saveState, ends with restoreState and draws the string just before the restore |
| `Canvas.AppendNeutralBalanced` | pdffill/pdf_filler.py:71 | appending a paragraph drawing or a finalisation keeps a balanced canvas balanced |
| `Filler.DerivedNamesDistinct` | pdffill/pdf_filler.py:64-65 | the names `parastyle{n}` given to derived paragraph styles are pairwise distinct |
| `Filler.DeriveStyle` | pdffill/pdf_filler.py:63-67 | a non-empty style derives a style named after the current counter and moves the counter by exactly one; an empty style is Normal itself and leaves the counter alone |
| `Filler.AddTextSpec` | pdffill/pdf_filler.py:54-59 | add_text succeeds exactly on a page of the base document, else raises a PageIndexError for that page; it creates at most that page's canvas and leaves the style counter alone |
| `Filler.AddParaSpec` | pdffill/pdf_filler.py:61-71 | add_para raises a TypeError when a style key is `name` or `parent`, which ParagraphStyle also takes by name; otherwise it raises a PageIndexError for a missing page, and on a base page it creates at most that page's canvas and moves the counter as DeriveStyle says |
| `Filler.AddTextFrame` | pdffill/pdf_filler.py:54-59 | add_text changes no page's canvas but its own |
| `Filler.AddTextBlock` | pdffill/pdf_filler.py:54-59 | on its page, add_text keeps what was drawn before and appends a balanced block whose last drawing is the text at (x, y) |
| `Filler.AddParaFrame` | pdffill/pdf_filler.py:61-71 | a successful add_para keeps its page's earlier drawing and appends exactly one paragraph with the text, wrapped to width x1 - x0 and height y0 - y1 and drawn at (x0, y0), in a derived style exactly when the style is non-empty; every other page is untouched |
| `Filler.SavePages` | pdffill/pdf_filler.py:76-81 | save emits exactly the base document's page count of pages, in base order; page i is merged exactly when i has an overlay, and then with that overlay finalised once |
| `Filler.Finalized` | pdffill/pdf_filler.py:78-79 | saving finalises every overlay canvas exactly once and creates no new one |
| `Filler.AddKeepsBalanced` | pdffill/pdf_filler.py:54-71 | add_text and add_para keep every overlay canvas balanced |
| `Filler.FinalizedBalanced` | pdffill/pdf_filler.py:78-79 | finalising keeps every canvas balanced |
| `Filler.AddTextFresh` | pdffill/pdf_filler.py:54-59 | add_text draws no paragraph, so every derived style name drawn stays below the counter and unique |
| `Filler.AddParaFresh` | pdffill/pdf_filler.py:61-71 | add_para names its derived style after the current counter, which no earlier drawing used, and moves the counter past it, so derived style names stay below the counter and pairwise distinct |
| `Filler.PDFFiller.constructor` | pdffill/pdf_filler.py:8-13 | a new composer has no overlays, a zero counter, and the sample stylesheet when none is given |
| `Filler.PDFFiller.GetPage` | pdffill/pdf_filler.py:25-35 | a cached page returns its canvas and changes nothing; otherwise, on a base page, exactly the key `page` is added with a blank canvas and every other entry is untouched; a page the base document lacks raises and changes nothing |
| `Filler.PDFFiller.ApplyStyle` | pdffill/pdf_filler.py:40-52 | the canvas receives exactly the setters StyleOps gives for the style resolved against Normal |
| `Filler.ResolveStyle` | pdffill/pdf_filler.py:41-48 | the dict-updating loop computes exactly Resolve |
| `Filler.PDFFiller.AddText` | pdffill/pdf_filler.py:54-59 | the new state is AddTextSpec of the old one: saveState, the style setters, drawString(x, y, text) and restoreState appended to the page's canvas; on a missing page the error is raised and nothing changes |
| `Filler.PDFFiller.AddPara` | pdffill/pdf_filler.py:61-71 | the new state and the outcome are AddParaSpec of the old state; a failure leaves the overlays alone; the counter moves even when the page then turns out not to exist, and does not move when the style clashes with ParagraphStyle's arguments |
| `Filler.PDFFiller.Save` | pdffill/pdf_filler.py:73-86 | the document written to the path is SavePages of the state before saving, and every overlay is finalised once |
| `Fields.Effective` | pdffill/pdf_form.py:23 | a field is rendered with the baseline's keys and its own; on a shared key its own value wins |
| `Fields.RenderStylePrecedence` | pdffill/pdf_form.py:22-24 | a line field's font and colour are its own non-None value, else the baseline's non-None value unless the field sets the key to None, else the Normal preset's |
| `Fields.RenderSpec` | pdffill/pdf_form.py:22-35 | render raises a TypeError when a key of the effective style is a named argument of add_text or add_para (or, for a paragraph, of ParagraphStyle); otherwise it raises a PageIndexError for a missing page; it succeeds exactly when neither happens, and then creates at most the field's page; the counter moves as DeriveStyle says for a paragraph field and stays put for a line field |
| `Fields.RenderFrame` | pdffill/pdf_form.py:22-35 | a successful render changes only the field's page: a line field appends add_text's block with its value at (x, y) in its effective style, and a paragraph field appends one paragraph with its value in the box (x0, y0)-(x1, y1) |
| `Fields.RenderKeepsBalanced` | pdffill/pdf_form.py:22-35 | rendering keeps every canvas balanced |
| `Fields.RenderFresh` | pdffill/pdf_form.py:22-35 | rendering a field keeps the derived style names below the counter and pairwise distinct |
| `Fields.Render` | pdffill/pdf_form.py:22-35 | the composer ends in the state RenderSpec gives, or render raises the error RenderSpec gives; a failure leaves the overlays alone, and leaves the counter alone too unless a paragraph field failed only on its page, when add_para has already moved it; a clashing style key raises before anything changes |
| `Fields.DeclField` | pdffill/pdf_form.py:52-61 | a declaration without Name is a KeyError; Page, Style and Value default to 0, no style and ""; Rect gives a paragraph field from its first four numbers and is chosen over Point, which gives a line field from its first two; a list that is too short is an IndexError, and neither key is a ValueError |
| `FieldRegistry.PutFrame` | pdffill/pdf_form.py:62 | storing a field keeps the order a duplicate-free list of exactly the registered names |
| `FieldRegistry.Put` | pdffill/pdf_form.py:62 | `fields[name] = f` makes `f` the name's field and keeps every other field; a new name goes last in the iteration order and a present one keeps its place |
| `FieldRegistry.Cleared` | pdffill/pdf_form.py:73-75 | clearing keeps every name and every field's kind, page, style and geometry, and sets every value to "" |
| `FieldRegistry.ClearedAmongStep` | pdffill/pdf_form.py:74-75 | clearing one more name of the loop clears exactly that field's value |
| `FieldRegistry.ClearedAmongAll` | pdffill/pdf_form.py:74-75 | once the loop has visited every name, all fields are cleared |
| `FieldRegistry.ClearedForgetsValues` | pdffill/pdf_form.py:73-75 | two registries whose fields differ only in their values clear to the same registry |
| `FieldRegistry.ClearedIdempotent` | pdffill/pdf_form.py:73-75 | clearing twice is clearing once |
| `FieldRegistry.ApplyValues` | pdffill/pdf_form.py:83-85 | setting values keeps every name and every field's shape; a failure is a KeyError for a name that is not registered |
| `FieldRegistry.ApplyValuesPass` | pdffill/pdf_form.py:83-85 | when every name is registered, set_values succeeds and every field gets the value of its name's last pair, the others keeping theirs |
| `FieldRegistry.WithValuesStep` | pdffill/pdf_form.py:85 | setting one more value extends the values applied so far by that one |
| `FieldRegistry.ApplyValuesOutcome` | pdffill/pdf_form.py:83-85 | set_values succeeds exactly when every name among its pairs is registered |
| `FieldRegistry.ApplyValuesSticks` | pdffill/pdf_form.py:83-85 | once a pair has raised, the later pairs change nothing |
| `FieldRegistry.ApplyValuesStops` | pdffill/pdf_form.py:83-85 | set_values stops at the first unregistered name with a KeyError for it; the values before it stay set, none after it is, and nothing is rolled back |
| `FieldRegistry.ClearedAfterValues` | pdffill/pdf_form.py:104-107 | values set after a clear are forgotten by the next clear |
| `FieldRegistry.Declared` | pdffill/pdf_form.py:50-62 | there is at most one field per declaration, and when every declaration can be read there is exactly one each: entry i is what declaration i reads as |
| `FieldRegistry.DeclareAll` | pdffill/pdf_form.py:50-62 | reading declarations never removes a registered name, and a failure is the error of one of the declarations |
| `FieldRegistry.DeclareAllPass` | pdffill/pdf_form.py:50-62 | when every declaration can be read, all their fields are registered over the existing ones, and where two declarations share a Name the later one is kept |
| `FieldRegistry.DeclaredStep` | pdffill/pdf_form.py:62 | a readable declaration at the end adds its field under its name |
| `FieldRegistry.UnionUpdate` | pdffill/pdf_form.py:62 | storing into a merged dict equals merging the dict with the stored entry |
| `FieldRegistry.DeclareAllWellFormed` | pdffill/pdf_form.py:62 | reading declarations keeps the iteration order a duplicate-free list of the registered names |
| `FieldRegistry.DeclareAllSticks` | pdffill/pdf_form.py:50-62 | once a declaration has raised, the later ones change nothing |
| `FieldRegistry.DeclareAllStops` | pdffill/pdf_form.py:50-62 | the first declaration that cannot be read raises its error, and the fields declared before it stay registered |
| `FileNames.WordRun` | pdffill/pdf_form.py:111 | the scan takes the longest run of word characters, and only word characters |
| `FileNames.Tokenize` | pdffill/pdf_form.py:111 | every token the scan finds is one or more word characters; that every `{word}` of the pattern is found is `FileNames.TokenizeFindsEvery` |
| `FileNames.UnparseCons` | pdffill/pdf_form.py:111 | the text of a piece followed by others is the piece's text followed by theirs |
| `FileNames.TokenizeRoundTrip` | pdffill/pdf_form.py:111 | splitting a pattern into literal characters and `{word}` tokens loses nothing, because the pieces spell the pattern again |
| `FileNames.TokenStep` | pdffill/pdf_form.py:111 | a `{word}` token spells its braces and its word |
| `FileNames.LiteralStep` | pdffill/pdf_form.py:111 | a character outside a token spells itself |
| `FileNames.Fill` | pdffill/pdf_form.py:111 | filling in succeeds exactly when every token has a value; otherwise the error is a KeyError naming one of the tokens, and that token has no value |
| `FileNames.Substitute` | pdffill/pdf_form.py:111 | the file-name substitution succeeds exactly when every token of the pattern has a value; otherwise it is a KeyError for a word-character name that has none (with `FileNames.SubstituteFindsEvery`: every `{word}` anywhere in the pattern needs a value) |
| `FileNames.SubstituteKeepsLiteral` | pdffill/pdf_form.py:111 | text without `{` is copied unchanged in front of whatever the rest becomes |
| `FileNames.SubstituteToken` | pdffill/pdf_form.py:111 | a `{word}` token becomes the word's value, or raises a KeyError for the word when it has none |
| `FileNames.WordRunOfName` | pdffill/pdf_form.py:111 | a name followed by a non-word character is scanned as exactly that name |
| `FileNames.TokenizeLiteralHead` | pdffill/pdf_form.py:111 | a character that does not open a `{word}` token is kept as a literal, and the scan goes on at the next character |
| `FileNames.TokenInside` | pdffill/pdf_form.py:111 | a token found in front of a `{` ends before that `{`, and the scan goes on after the token's `}` |
| `FileNames.LiteralInside` | pdffill/pdf_form.py:111 | a literal found in front of a `{` is the first character of what precedes it |
| `FileNames.FirstPiece` | pdffill/pdf_form.py:111 | the first piece scanned from text followed by a `{` spells a non-empty start of that text, and the scan goes on with the rest of it |
| `FileNames.TokenizeUpToBrace` | pdffill/pdf_form.py:111 | the scan never runs across a `{`: the pieces found before it spell exactly what precedes it, and the scan then starts afresh at that `{` |
| `FileNames.TokenizeToken` | pdffill/pdf_form.py:111 | a `{word}` at the head of a pattern is one token for that word, and the scan goes on after its `}` |
| `FileNames.TokenizeFindsEvery` | pdffill/pdf_form.py:111 | every `{word}` is found as a token wherever it stands in the pattern, with the pieces before it spelling what precedes it |
| `FileNames.SubstituteFindsEvery` | pdffill/pdf_form.py:111 | a file name can only be made when every `{word}` anywhere in the pattern has a value |
| `FileNames.SubstituteDoubledBrace` | pdffill/pdf_form.py:111 | in `{{a}}` the inner `{a}` is the token, so it becomes `{v}` when a is v, and a KeyError for a when a has no value |
| `FileNames.SubstituteWithoutTokens` | pdffill/pdf_form.py:111 | a pattern without `{` is the file name as it stands |
| `FileNames.Replacement` | pdffill/pdf_form.py:110 | the replacement values are the record's own, plus `_i` as the index in decimal unless the record has an `_i` key |
| `FileNames.SubstituteAfterLiteral` | pdffill/pdf_form.py:111 | `pre{a}rest` becomes `pre`, the value of `a` and whatever the rest becomes, or a KeyError for `a` |
| `FileNames.SubstituteTwoTokens` | pdffill/pdf_form.py:111 | `pre{a}mid{b}post` becomes pre, a's value, mid, b's value and post; the first token without a value is the KeyError |
| `FileNames.BatchFileNames` | pdffill/pdf_form.py:110-111 | `out_{_i}_{name}.pdf` names record 0 for Alice `out_0_Alice.pdf`, and a token the record lacks is a KeyError for it |
| `Form.SetStyleFirstWins` | pdffill/pdf_form.py:87-88 | the global style only grows, and a key keeps the first value any call gave it |
| `Form.OpenBase` | pdffill/pdf_filler.py:10 | the base document opens exactly when there is a document at its path, giving its page count; otherwise it is a FileError |
| `Form.PagesOfStep` | pdffill/pdf_form.py:98-99 | the pages of one more field are the pages so far plus its page |
| `Form.RenderAll` | pdffill/pdf_form.py:98-99 | rendering fields in turn only adds overlays and never moves the style counter back; a failure is a TypeError or a PageIndexError |
| `Form.RenderAllOutcome` | pdffill/pdf_form.py:98-99 | rendering the fields succeeds exactly when every field is on a base page and no key of its effective style is a named argument of the call that draws it |
| `Form.RenderAllOkStep` | pdffill/pdf_form.py:98-99 | rendering one more field succeeds exactly when the fields before it did and the new one is on a base page with no style key its call cannot take |
| `Form.AllRenderableEvery` | pdffill/pdf_form.py:98-99 | the field-by-field renderability check holds exactly when every field of the list is on a base page with no clashing style key |
| `Form.RenderAllOkAll` | pdffill/pdf_form.py:98-99 | rendering the fields succeeds exactly when the field-by-field renderability check holds |
| `Form.RenderAllError` | pdffill/pdf_form.py:98-99 | a failed rendering is a TypeError when some field's effective style clashes with its call's named arguments, or a PageIndexError for a page the base document lacks |
| `Form.RenderAllPages` | pdffill/pdf_form.py:98-99 | a successful rendering creates overlays for exactly the pages the fields are on |
| `Form.RenderAllBalanced` | pdffill/pdf_form.py:98-99 | a successful rendering keeps every canvas balanced |
| `Form.RenderAllStep` | pdffill/pdf_form.py:98-99 | after a successful prefix, rendering one more field is that field's render |
| `Form.RenderAllSticks` | pdffill/pdf_form.py:98-99 | once a field has raised, the later fields change nothing |
| `Form.RenderAllFresh` | pdffill/pdf_form.py:98-99 | rendering fields in turn keeps the derived style names below the counter and pairwise distinct |
| `Form.RenderAllDistinctNames` | pdffill/pdf_form.py:97-99 | on the fresh composer that generate and each batch round render onto, the paragraphs drawn in derived styles have pairwise distinct `parastyle{k}` names |
| `Form.OnPagesOfAll` | pdffill/pdf_form.py:98 | iterating the registry's order visits exactly the registered fields: every field in the order is renderable exactly when every registered field is, and the pages of the fields in the order are the pages of all fields |
| `Form.GenerateSpec` | pdffill/pdf_form.py:96-100 | a written document goes to the given path with one page per base page; a failure is the FileError of opening the base, a TypeError or a PageIndexError |
| `Form.GenerateOutcome` | pdffill/pdf_form.py:96-100 | generate succeeds exactly when the base document opens, every field is on one of its pages, and no field's effective style (the global style merged with its own) has a key that add_text, add_para or ParagraphStyle also takes as a named argument |
| `Form.GeneratePages` | pdffill/pdf_form.py:96-100 | generate writes every base page in order to the given path, and a page is merged exactly when some field is on it |
| `Form.GenerateBalanced` | pdffill/pdf_form.py:96-100 | every overlay generate merges leaves the graphics state balanced |
| `Form.BatchRecordValues` | pdffill/pdf_form.py:104-107 | a record is drawn with its own values only: every field it names has its last value for it, every other field is "", and a name that is not registered is a KeyError |
| `Form.BatchDoc` | pdffill/pdf_form.py:104-112 | a round's document has one page per base page; its failure is a FileError, TypeError, PageIndexError or KeyError |
| `Form.BatchFields` | pdffill/pdf_form.py:104-107 | a round leaves every name registered with its field's shape, and with every value "" when the base cannot be opened |
| `Form.BatchFieldsCleared` | pdffill/pdf_form.py:104-107 | a round changes values only: clearing what it leaves is clearing what it found |
| `Form.BatchFieldsForget` | pdffill/pdf_form.py:104 | what a round leaves does not depend on the values before it |
| `Form.BatchOutcome` | pdffill/pdf_form.py:103-112 | record i's document is written exactly when the base opens, every name of the record is registered, every field is on a base page with no effective style key the call drawing it also takes as a named argument, and every token of the pattern has a value |
| `Form.SameShapesRender` | pdffill/pdf_form.py:106-109 | fields that differ from the registered ones only in their values are renderable exactly when the registered ones are |
| `Form.BatchPath` | pdffill/pdf_form.py:110-112 | record i's document is saved under the pattern filled in from the record and its index |
| `Form.BatchNoLeak` | pdffill/pdf_form.py:104-109 | a round's document depends on the registry only through its order and its cleared fields, so values left by earlier records make no difference |
| `Form.Run` | pdffill/pdf_form.py:103-112 | a run of rounds writes at most one document per round |
| `Form.RunWrites` | pdffill/pdf_form.py:103-112 | a run keeps each round's document in order up to the first error: it passes exactly when every round wrote its document, and otherwise ends with the error of the first round that did not |
| `Form.RunStops` | pdffill/pdf_form.py:103-112 | once a run has failed, later rounds change nothing |
| `Form.BatchWrites` | pdffill/pdf_form.py:102-112 | generate_batch writes document j exactly as record j alone with index j would give it, for every record up to the first that fails; it passes exactly when every record was written, and otherwise ends with that first record's error |
| `Form.PDFForm.constructor` | pdffill/pdf_form.py:38-42 | a new form has the given base and stylesheet, an empty global style and no fields |
| `Form.PDFForm.Store` | pdffill/pdf_form.py:62 | `self.fields[name] = f` is Put on the registry |
| `Form.PDFForm.AddLineField` | pdffill/pdf_form.py:65-67 | registers an empty line field with the given page, style and point under the name, as PutFrame describes |
| `Form.PDFForm.AddParaField` | pdffill/pdf_form.py:69-71 | registers an empty paragraph field with the given page, style and box under the name, as PutFrame describes |
| `Form.PDFForm.ClearFields` | pdffill/pdf_form.py:73-75 | the loop leaves the registry Cleared, with the order, the style and the base unchanged |
| `Form.PDFForm.SetField` | pdffill/pdf_form.py:77-78 | a registered name gets the new value and no other field changes; an unregistered name is a KeyError and changes nothing |
| `Form.PDFForm.GetField` | pdffill/pdf_form.py:80-81 | returns the value of a registered field, and is a KeyError for any other name |
| `Form.PDFForm.GetItem` | pdffill/pdf_form.py:90-91 | `form[name]` raises a KeyError for an unregistered name and otherwise yields nothing, because the value it looks up is not returned |
| `Form.PDFForm.SetItem` | pdffill/pdf_form.py:93-94 | `form[name] = value` is set_field |
| `Form.PDFForm.SetValues` | pdffill/pdf_form.py:83-85 | the loop leaves exactly the fields and outcome that ApplyValues gives |
| `Form.PDFForm.SetStyle` | pdffill/pdf_form.py:87-88 | the new global style is the given style with every existing key keeping its old value |
| `Form.PDFForm.FromYaml` | pdffill/pdf_form.py:44-63 | BasePDF replaces the base path, Style merges with existing keys winning, and Fields are registered as DeclareAll says, with a failure leaving the earlier fields, the base and the style set |
| `Form.PDFForm.DeclareFields` | pdffill/pdf_form.py:50-62 | the field loop leaves exactly the registry and outcome that DeclareAll gives |
| `Form.PDFForm.RenderFields` | pdffill/pdf_form.py:98-99 | rendering every field in order leaves the composer in the state RenderAll gives, or raises its error |
| `Form.PDFForm.Generate` | pdffill/pdf_form.py:96-100 | the document is GenerateSpec: the base opened, every field rendered in order with the global style, and saved to the path |
| `Form.PDFForm.BatchOne` | pdffill/pdf_form.py:104-112 | one round writes exactly BatchDoc, and leaves the fields BatchFields gives: cleared, then, once the base opens, set from the record up to its first unregistered name |
| `Form.PDFForm.GenerateBatch` | pdffill/pdf_form.py:102-112 | the documents written and the outcome are Run of the rounds, each round computed from the registry as it was before the batch; the fields left are unchanged for no records, else those of the round that failed or of the last record |

## Left out

- YAML parsing (`yaml.load`). The configuration arrives already parsed as
  a `Config` with optional keys. A `Value` is modelled as text. Keys
  holding null are not modelled: `BasePDF: null`, a field's `Page: null`
  (which in the source fails later in `get_page`), `Style: null` (which
  fails in the style merge) and `Rect: null` (which fails when it is
  indexed).
- `Form.OpenBase`: a form with no base path (`None`) is given the same
  FileError as a path with no document behind it. In the source,
  `PdfFileReader(None)` fails inside PyPDF2 with its own exception.
- PDF reading, merging and writing through PyPDF2, and the `io.BytesIO`
  packets (`get_packet`). Only the page count and the decision whether a
  page is merged are kept. Writing the output file is the `Document` value
  a save returns.
- ReportLab internals: fonts, colours, `ParagraphStyle`, `Paragraph.wrap`
  and `drawOn` layout. These become opaque recorded operations. Of
  `ParagraphStyle` only its named arguments `name` and `parent` are
  modelled, as the style keys that make `add_para` a TypeError; a style key
  that ParagraphStyle does not know is accepted.
- Styles passed as keyword arguments (`set_style`, `add_line_field`,
  `add_para_field`) are modelled as maps, so keys that Python could not
  pass that way are accepted. A key that is a named argument of the
  receiving call is the TypeError Python raises.
- Failures inside ReportLab and PyPDF2: the recorded operations always
  succeed. Bad Paragraph markup (`pdffill/pdf_filler.py:68`), an unknown
  font given to `setFont` (line 50) and an output path that cannot be
  written (line 84) raise in the source but not in the model.
- `get_page_size`: the points-to-millimetres conversion in floating point
  and the two unused locals. Only its failure for a missing page is kept,
  which is what makes `get_page` raise.
- Negative page indices. PyPDF2's `getPage(-k)` counts from the end, so
  `get_page` succeeds and an overlay canvas is created and drawn on, but
  `save` only merges overlays for pages `0 .. numPages - 1`, so that field
  silently disappears from the output. The model raises a PageIndexError
  for any page outside `0 <= page < numPages` instead.
- Coordinates are `real` and are passed through unchanged, apart from the
  two subtractions in `add_para`. IEEE floating-point behaviour is not
  modelled.
- `\w` is modelled as ASCII letters, digits and `_`. Python's Unicode word
  characters are not.
- Style values are `None`, a string or a number. Other YAML values are not
  modelled.
- `generate_batch` sets each record's values with the same loop as
  `set_values`, and the model calls `SetValues` for it.
