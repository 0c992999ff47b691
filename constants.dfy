/** The static configuration of constants.ts: the model list, the persona and
    mode instruction tables, and the starter suggestions. */
module Constants {
  import opened Types
  import opened Text

  datatype ModelInfo = ModelInfo(id: string, name: string, description: string)

  const Models: seq<ModelInfo> := [
    ModelInfo("gemini-3-flash-preview", "Gemini 3 Flash (Fast)", "Best for quick tasks and general chat"),
    ModelInfo("gemini-3-pro-preview", "Gemini 3 Pro (Smart)", "High reasoning for coding and complex docs"),
    ModelInfo("gemini-2.5-flash-lite-latest", "Gemini 2.5 Lite Latest", "Lightweight and efficient (latest)"),
    ModelInfo("gemini-2.5-flash-lite", "Gemini 2.5 Lite", "Lightweight and efficient")
  ]

  /** The model the default settings select and the service falls back to. */
  const DefaultModel: string := "gemini-3-flash-preview"

  /** The placeholder title of a new session, also the title fallback. */
  const DefaultTitle: string := "New Conversation"

  const GeneralPrompt: string := "You are Delta, a helpful and professional AI assistant. Provide concise, accurate, and useful information. build by Gamith"
  const DeveloperPrompt: string := "You are Delta a Senior Software Architect. Write clean, efficient, and well-documented code. Focus on best practices and performance. build by Gamith"
  const DesignerPrompt: string := "You are Delta a World-Class UI/UX Designer. Focus on user experience, visual aesthetics, accessibility, and modern design principles. build by Gamith"
  const ManagerPrompt: string := "You are Delta a Senior Product Manager. Focus on strategy, roadmaps, stakeholder communication, and clear project requirements. build by Gamith"
  const AnalystPrompt: string := "You are Delta an Expert Data Analyst. Focus on statistical significance, clear visualizations, and actionable insights from data. build by Gamith"
  const SavagePrompt: string := "You are a helpful, professional, and savage AI assistant.Provide clear, concise, and correct answers.Format your output using Markdown where appropriate."

  /** `SYSTEM_PROMPTS[role]`: a total table over the six personas. */
  function SystemPrompt(role: AIRole): (r: string)
    ensures r != []
  {
    match role
    case General => GeneralPrompt
    case Developer => DeveloperPrompt
    case Designer => DesignerPrompt
    case Manager => ManagerPrompt
    case Analyst => AnalystPrompt
    case Savage => SavagePrompt
  }

  const ChatInstruction: string := "Engage in a natural conversation. Be conversational but professional."
  const DocumentInstruction: string := "Format the response as a formal document. Use markdown headings, lists, and bold text for structure."
  const CodeInstruction: string := "Always provide complete, copy-pasteable code blocks with explanations. Use appropriate language syntax highlighting."
  const ExplanationInstruction: string := "Break down complex concepts into simple, easy-to-understand parts. Use analogies and step-by-step logic."

  /** `MODE_INSTRUCTIONS[mode]`: a total table over the four modes. */
  function ModeInstruction(mode: AIMode): (r: string)
    ensures r != []
  {
    match mode
    case Chat => ChatInstruction
    case Document => DocumentInstruction
    case Code => CodeInstruction
    case Explanation => ExplanationInstruction
  }

  const DesignDocSuggestion: string := "Write a technical design document for a microservices architecture."
  const QuantumSuggestion: string := "Explain quantum computing to a 10-year-old."
  const LandingPageSuggestion: string := "Create a landing page layout using React and Tailwind CSS."
  const MarketSuggestion: string := "Conduct a market analysis for a new fitness app."
  const DebugSuggestion: string := "Debug this JavaScript loop for performance issues."

  const Suggestions: seq<string> :=
    [DesignDocSuggestion, QuantumSuggestion, LandingPageSuggestion, MarketSuggestion, DebugSuggestion]

  /** No two entries of the model list share an id. */
  lemma ModelIdsDistinct()
    ensures forall i, j :: 0 <= i < j < |Models| ==> Models[i].id != Models[j].id
  {
  }

  /** The default model is one the settings list offers. */
  lemma DefaultModelListed()
    ensures exists i :: 0 <= i < |Models| && Models[i].id == DefaultModel
  {
    assert Models[0].id == DefaultModel;
  }

  /** Every suggestion survives the blank-text guard of the send handler. */
  lemma SuggestionsNotBlank()
    ensures forall i :: 0 <= i < |Suggestions| ==> !IsBlank(Suggestions[i])
  {
    forall i | 0 <= i < |Suggestions|
      ensures !IsBlank(Suggestions[i])
    {
      var s := Suggestions[i];
      assert s[|s| - 1] == '.';
    }
  }
}
