# Query fan-out simulator — a Dafny model of its core

The simulator takes a seed search query and asks a generative service for
sub-queries in eight fixed categories. It writes the answer to a CSV table and
then draws the table as a three-level sunburst chart (seed, categories,
sub-queries). This project models the logic between those I/O steps and proves
properties about it:

- **Locale detection** (`Generator.IsJapanese`): a seed is Japanese when it
  contains a kana or CJK code point in the three ranges of the detection
  regular expression.
- **The generation contract** (`Generator.GenerateFanout`): covers each step of a run.
  - The seed is stripped and a `ValueError` is raised when nothing is left.
  - A missing locale defaults from the seed.
  - The prompt is built and the streamed chunks are accumulated in order.
  - The text is decoded with the `{"Raw": [text]}` fallback.
  - The generative service and `json.loads` are parameters.
- **The prompt** (`Prompt`): the fixed template with its five interpolation
  points (output language, per-category cap, seed, locale, seed again) and the
  final `.strip()`.
- **The response schema** (`ResponseSchema`): the closed object schema with
  the eight canonical category keys, plus the predicate `Conforms`, which says
  what the schema asks of a document.
- **The taxonomy** (`Taxonomy`): the eight categories as an enumeration, with
  their canonical Japanese keys.
- **The CSV export** (`Exporter`): the decoded dict flattened to one
  `(seed, locale, category, subquery)` row per sub-query after a header row.
- **The hierarchy builder** (`Sunburst`): rows are grouped by category in
  first-seen order and laid out as five parallel arrays (labels, parents,
  values, colours, hover texts), with the colour table and its default.
- **File names** (`Filenames`): `sanitize_filename`, its inline copy in the
  generator's command-line entry, and the CSV and PNG artifact paths.

`Wrappers` holds `Option`/`Result`. `Text` holds Python's whitespace set and
`str.strip()`, plus decimal rendering of integers. `Json` holds the abstract
value `json.loads` returns and the dict it builds: duplicate keys keep their
first position and take the last value.

## Model

| member | source | states |
|---|---|---|
| Generator.IsJapanese | fanout_generator.py:55-56 | true exactly when some character of the text lies in U+3040–U+30FF, U+3400–U+4DBF or U+4E00–U+9FFF |
| Generator.AsciiIsNotJapanese | fanout_generator.py:55-56 | text made only of ASCII characters is never classified as Japanese |
| Generator.IsJapaneseConcat | fanout_generator.py:55-56 | the classification of a concatenation is the disjunction of the classifications of its parts |
| Generator.IsJapaneseIgnoresStrip | fanout_generator.py:158-159 | detecting on the stripped seed (the generator) and on the raw seed (both command-line entries) gives the same answer |
| Text.Strip | fanout_generator.py:155 | the result is the infix of the input left after removing Python whitespace from both ends |
| Text.StripIdempotent | fanout_generator.py:155 | stripping an already stripped seed changes nothing |
| Generator.ValidateSeed | fanout_generator.py:155-157 | fails with `ValueError("Seed keyword must be non-empty")` exactly when the seed is all whitespace; otherwise yields the stripped seed, which is non-empty and starts and ends with a non-whitespace character |
| Generator.ResolveLocale | fanout_generator.py:158-159 | an explicit locale is kept; otherwise the result is `ja` exactly when the seed holds a Japanese code point, and `en` otherwise |
| Prompt.PromptLanguage | fanout_generator.py:64 | the language is `日本語` exactly for locale `ja` and `English` for every other locale |
| Prompt.PromptLanguageSlot | fanout_generator.py:64-67 | the prompt is the fixed introduction, then the output language, then the rest |
| Prompt.BuildPromptIsStrippedFString | fanout_generator.py:66-105 | `.strip()` removes only the f-string's opening and closing newline, whatever the seed, locale and cap |
| Prompt.PromptInterpolation | fanout_generator.py:80-104 | the prompt contains the seed, the locale and the decimal rendering of the per-category cap |
| Text.DecimalRoundTrip | fanout_generator.py:80 | the cap's decimal rendering (sign for negatives, no leading zeros) parses back to the cap |
| Taxonomy.FromKey | fanout_generator.py:123-130 | a name denotes a category exactly when it is one of the eight canonical keys, and then it is that category's key |
| Taxonomy.KeyRoundTrip | fanout_generator.py:133-140 | every category's key is canonical and names the category back |
| Taxonomy.CanonicalKeysDistinct | fanout_generator.py:133-140 | there are eight canonical keys, pairwise distinct, in taxonomy order |
| ResponseSchema.CategoryMapSchema | fanout_generator.py:120-143 | the `categories` schema is closed, requires exactly the eight keys in order and gives each an array-of-strings schema |
| ResponseSchema.CategoriesSchema | fanout_generator.py:112-147 | the response schema is closed and requires `seed`, `locale`, `categories`; the first two are strings and the third is the `categories` schema |
| ResponseSchema.StringArrayConforms | fanout_generator.py:113-114 | `arr()` accepts exactly the arrays whose items are all strings |
| ResponseSchema.CategoryMapSchemaMeaning | fanout_generator.py:120-143 | a value conforms to the `categories` schema exactly when it is an object with no key outside the eight and every one of the eight maps to an array of strings |
| ResponseSchema.ConformingResponseCategories | fanout_generator.py:115-147 | a conforming response has a `categories` member of that shape |
| Json.GetMeaning | fanout_generator.py:200 | a subscript finds a key exactly when some member has it, and then yields the value of the last such member |
| Json.DictGet | fanout_generator.py:199 | the dict built from an object's members answers every lookup as last-wins lookup in the members does |
| Generator.AccumulateStream | fanout_generator.py:193-196 | the accumulated text is the concatenation, in stream order, of the chunks whose text is present and non-empty |
| Generator.DecodeCategories | fanout_generator.py:198-202 | when the text parses to an object with a `categories` member, that member's value is returned as is; in every other case the result is the object whose only key is `Raw`, holding the whole text |
| Generator.DecodeConformingResponse | fanout_generator.py:198-200 | a response that conforms to the schema decodes to its `categories` member, which has the eight-key shape |
| Generator.RawFallbackOutsideSchema | fanout_generator.py:202 | the fallback object never conforms to the `categories` schema |
| Generator.GenerateFanout | fanout_generator.py:154-202 | fails exactly on an all-whitespace seed. Otherwise it uses the stripped seed and the resolved locale, requests the built prompt with the given model and search flag, concatenates the stream and decodes it |
| Exporter.CategoryMapOfDefined | fanout_generator.py:220-221 | the decoded value can be iterated as a category dict exactly when it is an object whose every member value is a list of strings |
| Exporter.CategoryMapOfGet | fanout_generator.py:220 | each category of that dict holds the list that the object's (last) member of that name holds |
| Exporter.Flatten | fanout_generator.py:220-222 | there is one row per sub-query; every row carries the given seed and locale and a category of the dict |
| Exporter.FlattenAt | fanout_generator.py:220-222 | sub-query `k` of category `i` is row `Offset(i) + k`, in dict order and then list order |
| Exporter.Locate | fanout_generator.py:220-222 | every row is some sub-query `k` of some category `i`, at `Offset(i) + k` |
| Exporter.ExportTable | fanout_generator.py:215-222 | the table is the header `seed,locale,category,subquery` followed by one line per flattened row, in order |
| Exporter.ExportTableAt | fanout_generator.py:218-222 | sub-query `k` of category `i` is written on line `1 + Offset(i) + k` as `[seed, locale, category, subquery]` |
| Exporter.ExportRawFallback | fanout_generator.py:202 | the fallback exports as the header plus the single row `[seed, locale, "Raw", text]` |
| Sunburst.ColorTableEntries | visualize_sunburst.py:21-30 | the colour table lists the eight canonical keys in taxonomy order, each with its own category's colour |
| Sunburst.ColorOfMeaning | visualize_sunburst.py:85 | a canonical key gets its category's colour from the table and any other name gets `#CCCCCC`, so a name gets the default exactly when it is not one of the eight keys |
| Sunburst.CategoryColorsDistinct | visualize_sunburst.py:22-29 | the eight colours are pairwise distinct and differ from the default and from the root colour |
| Sunburst.GroupFacts | visualize_sunburst.py:58-64 | the grouped dict has distinct keys in first-seen order, and its lists hold one entry per row |
| Sunburst.GroupGet | visualize_sunburst.py:58-64 | a category that occurs in the rows maps to its sub-queries in row order; every other name is absent |
| Sunburst.GroupNonEmpty | visualize_sunburst.py:58-64 | no category of the grouped dict has an empty list |
| Sunburst.GroupEntry | visualize_sunburst.py:58-64 | entry `i` of the grouped dict is the `i`-th distinct category with all its sub-queries in row order |
| Sunburst.GroupFlatten | visualize_sunburst.py:58-64 | grouping the exported rows of a dict gives the dict back without its empty lists: same categories, same order, same lists |
| Sunburst.CreateSunburstData | visualize_sunburst.py:51-77 | raises `ValueError("CSV data is empty")` exactly on no rows. Otherwise the five arrays all have length 1 + #categories + #rows, and the root is the first row's seed with parent `""`, value #rows, colour `#E8E8E8` and its hover text |
| Sunburst.Layout | visualize_sunburst.py:73-98 | the five arrays of a dict have equal length, one root plus one node per category and per sub-query, with the root first |
| Sunburst.LayoutCategory | visualize_sunburst.py:80-86 | category `i`'s node has the category as label and the seed as parent. Its value is its leaf count, its colour comes from the table and its hover text is its name and count. The next category starts right after its leaves |
| Sunburst.LayoutLeaf | visualize_sunburst.py:88-94 | leaf `k` of category `i` is the sub-query under its category, with value 1, the category's colour and the sub-query as hover text |
| Sunburst.CategoryValuesSumToRoot | visualize_sunburst.py:67-75 | the category values add up to the root value, which is the number of rows |
| Sunburst.SunburstOfExport | visualize_sunburst.py:51-98 | an exported dict with no sub-query at all raises the empty-data error. Otherwise the chart is the layout, under the exported seed, of the dict without its empty lists |
| Filenames.ReplaceSpaces | main.py:29 | every space becomes `_`; every other character is kept in place |
| Filenames.DeleteForbidden | main.py:31 | the result is no longer than the input, holds none of the characters `<` `>` `:` `"` `/` `\` `?` `*` and the vertical bar, and holds exactly the input's other characters |
| Filenames.DeleteForbiddenChar | main.py:31 | a single character is kept exactly when it is not one of the deleted characters |
| Filenames.DeleteForbiddenConcat | main.py:31 | deleting from a concatenation is deleting from each part and concatenating, so the kept characters stay in order with their multiplicity |
| Filenames.SanitizeFilename | main.py:23-35 | the result has no space and no forbidden character. It is at most 50 characters long: the whole cleaned text when that fits, its first 50 characters otherwise |
| Filenames.CleanIsOnePass | main.py:28-31 | replacing then deleting equals rewriting each character independently |
| Filenames.SanitizeFixed | main.py:32-35 | the sanitiser returns its input unchanged exactly when the input is already safe |
| Filenames.SanitizeIdempotent | main.py:23-35 | sanitising twice is sanitising once |
| Filenames.InlineSafeSeedIsSanitize | fanout_generator.py:283 | the inline copy computes the same stem as `sanitize_filename` |
| Filenames.ArtifactsShareStem | main.py:99-102 | the CSV and PNG paths are in the same directory with the same sanitised stem, and differ |
| Filenames.DefaultCsvPathAgrees | fanout_generator.py:280-284 | the generator's default CSV path is the path the main entry uses with its default output directory |

## Left out

- The generative service is a parameter from the request to the chunk texts it streams. Also outside the model: the client, the API key, the safety settings, the temperature, the thinking configuration, the JSON MIME type and the search tool. The search flag and model name are only passed through in `Request`.
- The `RuntimeError` for a missing client library (fanout_generator.py:161-165) is left out: it concerns the import system, not the logic.
- `json.loads` is a parameter that yields `None` where it raises. Its parser is not modelled.
- Generator.DecodeCategories: the decoded value is returned unchecked, as in the code. `response_schema` is commented out (fanout_generator.py:182), so the schema is modelled with its meaning (`Conforms`) but is not part of the `Request`.
- Exporter.CategoryMapOf: a member value that is not a list of strings gives `None`. Python would iterate a string's characters or a nested object's keys, write the items of a mixed list through `csv.writer` (which writes `None` as an empty cell and other values as their `str()`), or raise on a value that is not iterable. A decoded value that is not an object gives `None` too, where `.items()` would raise.
- Writing the CSV is not modelled: quoting, UTF-8 encoding, the file itself, and `load_csv_data`. The round trip `Sunburst.GroupFlatten` assumes the rows read back are the rows written.
- Rendering the chart is not modelled: `create_sunburst_chart`, plotly, the PNG file, width and height, and the chart script's own entry point.
- The progress prints of `create_sunburst_data` (visualize_sunburst.py:66-71, 96) are not modelled. Neither is the unused `locale` read at line 55.
- Argument parsing of both command-line entries is not modelled: `--n`, `--model`, `--search`, `--width`, `--height`, `--output-dir`, `--csv` and `--json`. Neither are `sys.exit`, `mkdir` and the JSON printed with `--json`.
- The instruction prose of the prompt is kept verbatim as constants. No property is stated about its wording beyond the interpolation points and the strip.
- Filenames.JoinPath models `os.path.join` only for a second argument that does not start with `/`. The artifact names always satisfy this, since the sanitised stem has no `/`.

What the code does, as the model has it:

- A locale is any string. The code does not restrict it to `ja` or `en`: every locale other than `ja` is prompted in English.
- The decoded result is not checked. The eight keys, the per-category cap and non-empty sub-queries are asked for in the prompt only. Any value of the `categories` member is returned. Any category name reaches the table and the chart, where unknown names get the default colour.
- The fallback happens only when parsing raises or the `categories` subscript raises. This covers a missing key and a document that is not an object. It does not cover a wrong shape.
- `build_prompt` performs no validation of its own; the empty-seed check is in `generate_fanout_google_genai`.
- Both command-line entries pass the raw seed, not the stripped one, to `export_to_csv` and to the file-name sanitiser. Auto-detection of the locale on the raw seed agrees with detection on the stripped seed (`Generator.IsJapaneseIgnoresStrip`).
