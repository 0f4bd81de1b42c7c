/**
 * The closed eight-category taxonomy. The canonical keys are the Japanese
 * names used verbatim in the prompt, the response schema, the exported table
 * and the colour table.
 */
module Taxonomy {
  import opened Wrappers

  datatype Category =
    | Disambiguation      // 曖昧さの解消
    | LatentNeeds         // 潜在ニーズの顕在化
    | FollowUp            // 詳細深掘りの誘導（次の質問提案）
    | ProConEvidence      // 主張の賛否エビデンス収集
    | Entities            // エンティティ取得（人・場所・組織など）
    | RelatedDocuments    // 関連性の高い文書予測
    | SessionContext      // セッション文脈の維持（最近の行動・状態を反映）
    | Personalization     // ユーザー個別化（過去検索や位置・時間などの信号を活用）

  /** The categories in the order the prompt and the schema list them. */
  const Categories: seq<Category> := [
    Disambiguation, LatentNeeds, FollowUp, ProConEvidence,
    Entities, RelatedDocuments, SessionContext, Personalization
  ]

  /** The canonical key of a category. */
  function Key(c: Category): string {
    match c
    case Disambiguation => "曖昧さの解消"
    case LatentNeeds => "潜在ニーズの顕在化"
    case FollowUp => "詳細深掘りの誘導（次の質問提案）"
    case ProConEvidence => "主張の賛否エビデンス収集"
    case Entities => "エンティティ取得（人・場所・組織など）"
    case RelatedDocuments => "関連性の高い文書予測"
    case SessionContext => "セッション文脈の維持（最近の行動・状態を反映）"
    case Personalization => "ユーザー個別化（過去検索や位置・時間などの信号を活用）"
  }

  /** The eight canonical keys, in taxonomy order. */
  const CanonicalKeys: seq<string> := [
    Key(Disambiguation), Key(LatentNeeds), Key(FollowUp), Key(ProConEvidence),
    Key(Entities), Key(RelatedDocuments), Key(SessionContext), Key(Personalization)
  ]

  /** The category a key names, if it is one of the canonical keys. */
  function FromKey(s: string): (r: Option<Category>)
    ensures r.Some? <==> s in CanonicalKeys
    ensures r.Some? ==> Key(r.value) == s
  {
    if s == Key(Disambiguation) then Some(Disambiguation)
    else if s == Key(LatentNeeds) then Some(LatentNeeds)
    else if s == Key(FollowUp) then Some(FollowUp)
    else if s == Key(ProConEvidence) then Some(ProConEvidence)
    else if s == Key(Entities) then Some(Entities)
    else if s == Key(RelatedDocuments) then Some(RelatedDocuments)
    else if s == Key(SessionContext) then Some(SessionContext)
    else if s == Key(Personalization) then Some(Personalization)
    else None
  }

  /** Every category has its own key, and the key names it back. */
  lemma KeyRoundTrip(c: Category)
    ensures FromKey(Key(c)) == Some(c)
    ensures Key(c) in CanonicalKeys
  {
  }

  /** The taxonomy lists each category once, so its keys are pairwise distinct. */
  lemma CanonicalKeysDistinct()
    ensures |CanonicalKeys| == 8
    ensures forall i, j :: 0 <= i < j < |CanonicalKeys| ==> CanonicalKeys[i] != CanonicalKeys[j]
    ensures forall i :: 0 <= i < |CanonicalKeys| ==> CanonicalKeys[i] == Key(Categories[i])
  {
  }
}
