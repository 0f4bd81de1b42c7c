/**
 * The prompt of `fanout_generator.py` (`build_prompt`): a fixed template
 * interpolated with the output language, the per-category cap, the seed and
 * the locale, then stripped.
 */
module Prompt {
  import opened Text

  /** The output language the prompt asks for. */
  function PromptLanguage(locale: string): (lang: string)
    ensures lang == "日本語" <==> locale == "ja"
    ensures lang == "English" <==> locale != "ja"
  {
    if locale == "ja" then "日本語" else "English"
  }

  /** The introduction, up to the output language: one literal per
      sentence, so that the proofs reading its first character see a short
      literal. The other constants hold one literal per line of the
      f-string. */
  const Intro: string :=
    "あなたは検索クエリ設計の専門家です。"
    + "以下の8分類に基づき、シードから多様で重複のない**サブクエリ**を生成してください。"
    + "出力は**JSONのみ**（マークダウンや説明文は禁止）。"
    + "言語は"

  const GenerationRules: string :=
    "- 各サブクエリは query fan-out で派生した検索キーワードとして短い名詞句または命令形で表現し、文や説明は書かない。\n"
    + "- 1クエリ 6〜16語 / 12〜40字 程度で**具体・可動的**に（名詞列よりも動作/条件を入れる）。\n"
    + "- 重複・言い換えを避け、多様な意図（how/compare/risk/cost/policy/benchmark/地域/時期）をカバー。\n"
    + "- 記号は最小限、引用符/絵文字/不要な句読点は使用禁止。\n"
    + "- シードの語をそのまま繰り返しすぎない（同義語・上位下位語を混ぜる）。\n"

  /** The category list: the eight canonical keys, numbered, each with its
      one-line aim. */
  const CategoryGuide: string :=
    "【カテゴリ（固定の日本語キー）と狙い】\n"
    + "1) 曖昧さの解消: 多義語や同名語の意味・文脈を切り分ける。\n"
    + "2) 潜在ニーズの顕在化: 潜在課題・目的に対応した観点を広げる。\n"
    + "3) 詳細深掘りの誘導（次の質問提案）: 次に聞くべき具体的フォローアップを提示。\n"
    + "4) 主張の賛否エビデンス収集: 賛成/反対の根拠・エビデンス・反証を探索。\n"
    + "5) エンティティ取得（人・場所・組織など）: 関連する固有名詞や属性を列挙。\n"
    + "6) 関連性の高い文書予測: 高関連のトピック/文書タイプ/資料を推定。\n"
    + "7) セッション文脈の維持（最近の行動・状態を反映）: 現在の作業文脈やタスク進行を踏まえたクエリ。\n"
    + "8) ユーザー個別化（過去検索や位置・時間などの信号を活用）: セグメント/地域/時間/履歴で差が出る切り口。\n"

  const BeforeCap: string :=
    "。\n"
    + "\n"
    + CategoryGuide
    + "\n"
    + "【生成ルール】\n"
    + "- 各カテゴリ 最大 "

  const BeforeSeed: string :=
    " 件。\n"
    + GenerationRules
    + "\n"
    + "【出力形式（JSONのみ）】\n"
    + "{\n"
    + "  \"seed\": \""

  const BeforeLocale: string :=
    "\",\n"
    + "  \"locale\": \""

  /** The `"key": ["..."]` lines of the output-format example, one per
      canonical key. */
  const KeyLines: string :=
    "    \"曖昧さの解消\": [\"...\"],\n"
    + "    \"潜在ニーズの顕在化\": [\"...\"],\n"
    + "    \"詳細深掘りの誘導（次の質問提案）\": [\"...\"],\n"
    + "    \"主張の賛否エビデンス収集\": [\"...\"],\n"
    + "    \"エンティティ取得（人・場所・組織など）\": [\"...\"],\n"
    + "    \"関連性の高い文書予測\": [\"...\"],\n"
    + "    \"セッション文脈の維持（最近の行動・状態を反映）\": [\"...\"],\n"
    + "    \"ユーザー個別化（過去検索や位置・時間などの信号を活用）\": [\"...\"]\n"

  const BeforeClosingSeed: string :=
    "\",\n"
    + "  \"categories\": {\n"
    + KeyLines
    + "  }\n"
    + "}\n"
    + "※各カテゴリ配列の要素は query fan-out で派生した検索キーワードのみ。\n"
    + "\n"
    + "シード: \""

  /** The fixed text between the interpolation points of the prompt. */
  datatype Template = Template(
    intro: string,              // up to the output language
    beforeCap: string,          // up to the per-category cap
    beforeSeed: string,         // up to the seed in the output-format example
    beforeLocale: string,       // up to the locale in the output-format example
    beforeClosingSeed: string)  // up to the closing copy of the seed

  const PromptTemplate: Template := Template(Intro, BeforeCap, BeforeSeed, BeforeLocale, BeforeClosingSeed)

  /** The rendered template from its closing copy of the seed on. */
  function FromClosingSeed(t: Template, seed: string): string {
    t.beforeClosingSeed + seed + "\""
  }

  /** The rendered template from the locale of the output-format example on. */
  function FromLocale(t: Template, seed: string, locale: string): string {
    t.beforeLocale + locale + FromClosingSeed(t, seed)
  }

  /** The rendered template from the seed of the output-format example on. */
  function FromSeed(t: Template, seed: string, locale: string): string {
    t.beforeSeed + seed + FromLocale(t, seed, locale)
  }

  /** The rendered template from the per-category cap on. */
  function FromCap(t: Template, cap: string, seed: string, locale: string): string {
    t.beforeCap + cap + FromSeed(t, seed, locale)
  }

  /** Interpolates the template with the output language, the cap, the seed,
      the locale and the seed again, closing the last seed's quote. */
  function Render(t: Template, lang: string, cap: string, seed: string, locale: string): string {
    t.intro + lang + FromCap(t, cap, seed, locale)
  }

  /** The f-string of `build_prompt` before `.strip()`: the interpolated
      template between an opening and a closing newline. */
  function PromptFString(seed: string, locale: string, maxPerCategory: int): string {
    "\n" + Render(PromptTemplate, PromptLanguage(locale), IntToDecimal(maxPerCategory), seed, locale) + "\n"
  }

  /** `build_prompt`: the interpolated template, which is what `.strip()`
      leaves of the f-string (BuildPromptIsStrippedFString). */
  function BuildPrompt(seed: string, locale: string, maxPerCategory: int): string {
    Render(PromptTemplate, PromptLanguage(locale), IntToDecimal(maxPerCategory), seed, locale)
  }

  lemma ContainsMiddle(a: string, t: string, b: string)
    ensures Contains(a + t + b, t)
  {
    assert (a + t + b)[|a|..] == t + b;
  }

  lemma ContainsInSuffix(a: string, s: string, t: string)
    requires Contains(s, t)
    ensures Contains(a + s, t)
  {
    var i :| 0 <= i <= |s| && t <= s[i..];
    assert (a + s)[|a| + i..] == s[i..];
  }

  /** The interpolated text starts with the introduction and ends with a
      quote, so stripping the surrounding newlines leaves it intact. */
  lemma RenderSurvivesStrip(t: Template, lang: string, cap: string, seed: string, locale: string)
    requires t.intro != [] && !IsSpace(t.intro[0])
    ensures Strip("\n" + Render(t, lang, cap, seed, locale) + "\n") == Render(t, lang, cap, seed, locale)
  {
    var p := Render(t, lang, cap, seed, locale);
    var c := FromClosingSeed(t, seed);
    var l := FromLocale(t, seed, locale);
    var s := FromSeed(t, seed, locale);
    var k := FromCap(t, cap, seed, locale);
    assert c[|c| - 1] == '"';
    assert l[|l| - 1] == '"';
    assert s[|s| - 1] == '"';
    assert k[|k| - 1] == '"';
    assert p[|p| - 1] == '"';
    assert p[0] == t.intro[0];
    StripSurrounded("\n", p, "\n");
  }

  /** The template's introduction starts with a non-whitespace character. */
  lemma PromptTemplateStartsWithText()
    ensures PromptTemplate.intro != [] && !IsSpace(PromptTemplate.intro[0])
  {
    assert PromptTemplate.intro[0] == 'あ';
  }

  /** The final `.strip()` removes only the f-string's own newlines: the
      prompt begins with the fixed introduction and ends with the quoted seed,
      whatever the seed, locale and cap are. */
  lemma BuildPromptIsStrippedFString(seed: string, locale: string, maxPerCategory: int)
    ensures Strip(PromptFString(seed, locale, maxPerCategory)) == BuildPrompt(seed, locale, maxPerCategory)
  {
    PromptTemplateStartsWithText();
    RenderSurvivesStrip(PromptTemplate, PromptLanguage(locale), IntToDecimal(maxPerCategory), seed, locale);
  }

  /** The output language (`日本語` exactly for the locale `ja`, `English`
      for every other) follows the fixed introduction. */
  lemma PromptLanguageSlot(seed: string, locale: string, maxPerCategory: int)
    ensures exists rest :: BuildPrompt(seed, locale, maxPerCategory) == PromptTemplate.intro + PromptLanguage(locale) + rest
  {
    var rest := FromCap(PromptTemplate, IntToDecimal(maxPerCategory), seed, locale);
    assert BuildPrompt(seed, locale, maxPerCategory) == PromptTemplate.intro + PromptLanguage(locale) + rest;
  }

  /** The rendered text carries the seed, the locale and the cap. */
  lemma RenderContains(t: Template, lang: string, cap: string, seed: string, locale: string)
    ensures var p := Render(t, lang, cap, seed, locale);
      Contains(p, seed) && Contains(p, locale) && Contains(p, cap)
  {
    var l := FromLocale(t, seed, locale);
    var s := FromSeed(t, seed, locale);
    var k := FromCap(t, cap, seed, locale);
    ContainsMiddle(t.beforeLocale, locale, FromClosingSeed(t, seed));
    ContainsMiddle(t.beforeSeed, seed, l);
    ContainsInSuffix(t.beforeSeed + seed, l, locale);
    ContainsMiddle(t.beforeCap, cap, s);
    ContainsInSuffix(t.beforeCap + cap, s, seed);
    ContainsInSuffix(t.beforeCap + cap, s, locale);
    ContainsInSuffix(t.intro + lang, k, seed);
    ContainsInSuffix(t.intro + lang, k, locale);
    ContainsInSuffix(t.intro + lang, k, cap);
  }

  /** The prompt carries the seed, the locale and the decimal rendering of
      the per-category cap. */
  lemma PromptInterpolation(seed: string, locale: string, maxPerCategory: int)
    ensures Contains(BuildPrompt(seed, locale, maxPerCategory), seed)
    ensures Contains(BuildPrompt(seed, locale, maxPerCategory), locale)
    ensures Contains(BuildPrompt(seed, locale, maxPerCategory), IntToDecimal(maxPerCategory))
  {
    RenderContains(PromptTemplate, PromptLanguage(locale), IntToDecimal(maxPerCategory), seed, locale);
  }
}
