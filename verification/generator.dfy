/**
 * The generation contract of `fanout_generator.py`: locale detection, seed
 * validation, locale defaulting, the accumulation of the streamed response,
 * its decode policy and one generation run.
 *
 * The generative service is a parameter `stream` from the request to the
 * sequence of chunk texts it streams back (a chunk without text is `None`);
 * `json.loads` is a parameter `parse` that yields `None` where it raises.
 */
module Generator {
  import opened Wrappers
  import opened Text
  import opened Json
  import opened Prompt
  import opened ResponseSchema
  import opened Taxonomy

  // ---------------------------------------------------------------------------
  // Locale detection
  // ---------------------------------------------------------------------------

  /** A hiragana or katakana (U+3040..U+30FF), CJK extension A
      (U+3400..U+4DBF) or CJK unified ideograph (U+4E00..U+9FFF) code point. */
  predicate IsJapaneseChar(c: char) {
    || '\U{3040}' <= c <= '\U{30FF}'
    || '\U{3400}' <= c <= '\U{4DBF}'
    || '\U{4E00}' <= c <= '\U{9FFF}'
  }

  /** `is_japanese`: whether the regular-expression search for a Japanese code
      point succeeds anywhere in `text`. */
  function IsJapanese(text: string): (b: bool)
    ensures b <==> exists i :: 0 <= i < |text| && IsJapaneseChar(text[i])
  {
    if text == [] then false
    else IsJapaneseChar(text[0]) || IsJapanese(text[1..])
  }

  /** Text made only of ASCII characters is never classified as Japanese. */
  lemma AsciiIsNotJapanese(text: string)
    requires forall i :: 0 <= i < |text| ==> text[i] < '\U{80}'
    ensures !IsJapanese(text)
  {
  }

  /** Detection distributes over concatenation. */
  lemma {:induction false} IsJapaneseConcat(s: string, t: string)
    ensures IsJapanese(s + t) == (IsJapanese(s) || IsJapanese(t))
  {
    if s == [] {
      assert s + t == t;
    } else {
      assert (s + t)[1..] == s[1..] + t;
      IsJapaneseConcat(s[1..], t);
    }
  }

  /** Detection gives the same answer on the raw and on the stripped seed, as
      no Japanese code point is whitespace: the command line detecting on the
      raw seed and the generator detecting on the stripped one agree. */
  lemma IsJapaneseIgnoresStrip(seed: string)
    ensures IsJapanese(Strip(seed)) == IsJapanese(seed)
  {
    var r := Strip(seed);
    var a := StripStart(seed);
    if IsJapanese(seed) {
      var i :| 0 <= i < |seed| && IsJapaneseChar(seed[i]);
      assert !IsSpace(seed[i]);
      assert r[i - a] == seed[i];
    }
    if IsJapanese(r) {
      var i :| 0 <= i < |r| && IsJapaneseChar(r[i]);
      assert seed[a + i] == r[i];
    }
  }

  // ---------------------------------------------------------------------------
  // Seed validation and locale defaulting
  // ---------------------------------------------------------------------------

  const EmptySeedError: Error := ValueError("Seed keyword must be non-empty")

  /** The seed after `seed.strip()`, or the `ValueError` raised when nothing
      is left. */
  function ValidateSeed(seed: string): (r: Result<string, Error>)
    ensures r.Failure? <==> AllSpace(seed)
    ensures r.Failure? ==> r.error == EmptySeedError
    ensures r.Success? ==> r.value == Strip(seed)
    ensures r.Success? ==> r.value != [] && !IsSpace(r.value[0]) && !IsSpace(r.value[|r.value| - 1])
  {
    var trimmed := Strip(seed);
    if trimmed == [] then Failure(EmptySeedError) else Success(trimmed)
  }

  /** The locale a run uses: the one supplied, or else `ja` for a seed that
      contains Japanese script and `en` for any other. */
  function ResolveLocale(seed: string, locale: Option<string>): (r: string)
    ensures locale.Some? ==> r == locale.value
    ensures locale.None? ==> (r == "ja" || r == "en")
    ensures locale.None? ==> (r == "ja" <==> exists i :: 0 <= i < |seed| && IsJapaneseChar(seed[i]))
  {
    match locale
    case Some(l) => l
    case None => if IsJapanese(seed) then "ja" else "en"
  }

  // ---------------------------------------------------------------------------
  // The streamed response and its decoding
  // ---------------------------------------------------------------------------

  /** The texts of the chunks whose `text` is present and non-empty (truthy),
      in stream order. */
  function PresentTexts(chunks: seq<Option<string>>): (ts: seq<string>)
    ensures |ts| <= |chunks|
    ensures forall i :: 0 <= i < |ts| ==> ts[i] != []
  {
    if chunks == [] then []
    else if chunks[0].Some? && chunks[0].value != [] then [chunks[0].value] + PresentTexts(chunks[1..])
    else PresentTexts(chunks[1..])
  }

  lemma {:induction false} PresentTextsSnoc(chunks: seq<Option<string>>, c: Option<string>)
    ensures PresentTexts(chunks + [c]) ==
            PresentTexts(chunks) + (if c.Some? && c.value != [] then [c.value] else [])
  {
    if chunks == [] {
      assert chunks + [c] == [c];
    } else {
      assert (chunks + [c])[1..] == chunks[1..] + [c];
      PresentTextsSnoc(chunks[1..], c);
    }
  }

  /** The accumulation loop: `text += chunk.text` for every chunk whose text
      is truthy. */
  method AccumulateStream(chunks: seq<Option<string>>) returns (text: string)
    ensures text == Concat(PresentTexts(chunks))
  {
    text := "";
    var i := 0;
    while i < |chunks|
      invariant 0 <= i <= |chunks|
      invariant text == Concat(PresentTexts(chunks[..i]))
      decreases |chunks| - i
    {
      assert chunks[..i + 1] == chunks[..i] + [chunks[i]];
      PresentTextsSnoc(chunks[..i], chunks[i]);
      if chunks[i].Some? && chunks[i].value != [] {
        ConcatSnoc(PresentTexts(chunks[..i]), chunks[i].value);
        text := text + chunks[i].value;
      } else {
        assert PresentTexts(chunks[..i + 1]) == PresentTexts(chunks[..i]);
      }
      i := i + 1;
    }
    assert chunks[..|chunks|] == chunks;
  }

  /** The fallback result: one `Raw` key whose list holds the whole text. */
  function RawFallback(text: string): Json {
    JObject([("Raw", JArray([JString(text)]))])
  }

  /** `data = json.loads(text); return data["categories"]`, falling back to
      `{"Raw": [text]}` when parsing raises or the subscript does (a missing
      key, or a document that is not an object). The value found is returned
      as it is: nothing checks it against the schema. */
  function DecodeCategories(text: string, parse: string -> Option<Json>): (r: Json)
    ensures (parse(text).Some? && parse(text).value.JObject? && Get(parse(text).value.fields, "categories").Some?)
            ==> r == Get(parse(text).value.fields, "categories").value
    ensures !(parse(text).Some? && parse(text).value.JObject? && Get(parse(text).value.fields, "categories").Some?)
            ==> (r.JObject? && Keys(r.fields) == ["Raw"] && r.fields[0].1 == JArray([JString(text)]))
  {
    match parse(text)
    case Some(JObject(fields)) =>
      (match Get(fields, "categories")
       case Some(v) => v
       case None => RawFallback(text))
    case _ => RawFallback(text)
  }

  /** A response that conforms to `categories_schema` decodes to its
      `categories` member, which has the shape the schema asks for. */
  lemma DecodeConformingResponse(text: string, parse: string -> Option<Json>)
    requires parse(text).Some? && Conforms(parse(text).value, CategoriesSchema())
    ensures DecodeCategories(text, parse) == Get(parse(text).value.fields, "categories").value
    ensures CategoryMapShape(DecodeCategories(text, parse))
  {
    ConformingResponseCategories(parse(text).value);
  }

  /** The fallback never passes for a conforming `categories` object: its
      only key is `Raw`, so the canonical keys it requires are missing. */
  lemma RawFallbackOutsideSchema(text: string)
    ensures !Conforms(RawFallback(text), CategoryMapSchema())
  {
    var key := Key(Disambiguation);
    assert key in CategoryMapSchema().required;
    assert |key| != |"Raw"|;
    assert Get(RawFallback(text).fields, key).None?;
  }

  // ---------------------------------------------------------------------------
  // One generation run
  // ---------------------------------------------------------------------------

  /** What is sent to the service: the prompt plus the pass-through model
      name and search flag. */
  datatype Request = Request(prompt: string, modelName: string, enableSearch: bool)

  /** What one run produced: the trimmed seed and resolved locale it used, the
      request, the accumulated text and the decoded `categories` value. */
  datatype Generation = Generation(seed: string, locale: string, request: Request, text: string, categories: Json)

  /** `generate_fanout_google_genai`. */
  function GenerateFanout(
    seed: string, locale: Option<string>, maxPerCategory: int, modelName: string, enableSearch: bool,
    stream: Request -> seq<Option<string>>, parse: string -> Option<Json>
  ): (r: Result<Generation, Error>)
    ensures r.Failure? <==> AllSpace(seed)
    ensures r.Failure? ==> r.error == EmptySeedError
    ensures r.Success? ==> var g := r.value;
      && g.seed == Strip(seed)
      && g.locale == ResolveLocale(Strip(seed), locale)
      && g.request == Request(BuildPrompt(g.seed, g.locale, maxPerCategory), modelName, enableSearch)
      && g.text == Concat(PresentTexts(stream(g.request)))
      && g.categories == DecodeCategories(g.text, parse)
  {
    match ValidateSeed(seed)
    case Failure(e) => Failure(e)
    case Success(trimmed) =>
      var loc := ResolveLocale(trimmed, locale);
      var request := Request(BuildPrompt(trimmed, loc, maxPerCategory), modelName, enableSearch);
      var text := Concat(PresentTexts(stream(request)));
      Success(Generation(trimmed, loc, request, text, DecodeCategories(text, parse)))
  }
}
