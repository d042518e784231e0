/** `get_model_type` (src/utils.py): RecBole's classification of a model
    name, of which only the knowledge-graph family is told apart. */
module ModelType {

  /** The knowledge-graph models, spelled exactly as RecBole names them. */
  const KnowledgeModels: seq<string> :=
    ["CKE", "CFKG", "KGAT", "KGCN", "KGIN", "KGNNLS", "KTUP", "MCCLK", "MKR", "RippleNet"]

  /** `'knowledge'` for a listed model, `'general'` for every other name. */
  function GetModelType(model: string): (r: string)
    ensures r == "knowledge" || r == "general"
    ensures r == "knowledge" <==> model in KnowledgeModels
  {
    if model in KnowledgeModels then "knowledge" else "general"
  }

  /** The list holds ten distinct names. */
  lemma TenKnowledgeModels()
    ensures |KnowledgeModels| == 10
    ensures forall i, j :: 0 <= i < j < |KnowledgeModels| ==> KnowledgeModels[i] != KnowledgeModels[j]
  {
  }

  /** Matching is exact and case-sensitive: a name differing from a listed
      one only in letter case is a general model. */
  lemma CaseSensitive()
    ensures GetModelType("KGAT") == "knowledge"
    ensures GetModelType("kgat") == "general"
    ensures GetModelType("RippleNet") == "knowledge"
    ensures GetModelType("ripplenet") == "general"
    ensures GetModelType("BPR") == "general"
  {
    assert KnowledgeModels[2] == "KGAT";
    assert KnowledgeModels[9] == "RippleNet";
  }
}
