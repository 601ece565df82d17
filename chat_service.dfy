/**
 * The chat backend (`chat_service`): the per-session document store, the
 * fallbacks that pick a language name and a prompt family, and the checks
 * `simplify_text` and `answer_question` make, in order, before the language
 * model is called.
 *
 * Whether an API client is configured is a parameter; the model call is a
 * function from the prompt to a completion (its text or an exception
 * message). The prompt templates themselves are not modelled: a prompt is
 * represented by what it is built from.
 */
module ChatService {
  import opened Wrappers
  import opened Text

  // ---------------------------------------------------------- session store

  /** The module-level `document_context` dictionary. */
  class DocumentStore {
    var contexts: map<string, string>

    constructor ()
      ensures contexts == map[]
    {
      contexts := map[];
    }

    /** `get_document_context`: the stored text, or "" for an unknown session. */
    function Get(sessionId: string): (text: string)
      reads this
      ensures sessionId in contexts ==> text == contexts[sessionId]
      ensures sessionId !in contexts ==> text == ""
    {
      if sessionId in contexts then contexts[sessionId] else ""
    }

    /** `store_document_context`: stores or overwrites one session's text. */
    method Store(sessionId: string, documentText: string)
      modifies this
      ensures contexts == old(contexts)[sessionId := documentText]
      ensures Get(sessionId) == documentText
      ensures forall other :: other != sessionId ==> Get(other) == old(Get(other))
    {
      contexts := contexts[sessionId := documentText];
    }

    /** `clear_document_context`: forgets one session, if it is there. */
    method Clear(sessionId: string)
      modifies this
      ensures contexts == old(contexts) - {sessionId}
      ensures Get(sessionId) == ""
      ensures sessionId !in old(contexts) ==> contexts == old(contexts)
      ensures forall other :: other != sessionId ==> Get(other) == old(Get(other))
    {
      if sessionId in contexts {
        contexts := contexts - {sessionId};
      }
    }
  }

  /** The store's state after a sequence of stores and clears, as a value. */
  datatype StoreOp = StoreText(sessionId: string, text: string) | ClearSession(sessionId: string)

  function Replay(contexts: map<string, string>, ops: seq<StoreOp>): map<string, string> {
    if ops == [] then contexts
    else
      var m := Replay(contexts, ops[..|ops| - 1]);
      match ops[|ops| - 1]
      case StoreText(s, t) => m[s := t]
      case ClearSession(s) => m - {s}
  }

  /** The text a session reads back from a state given as a value. */
  function Lookup(contexts: map<string, string>, sessionId: string): string {
    if sessionId in contexts then contexts[sessionId] else ""
  }

  /**
   * What a session reads back depends only on the LAST store or clear of
   * that session: its text, or "" after a clear; with neither, the initial
   * value.
   */
  lemma {:induction false} ReplayLastWriteWins(contexts: map<string, string>, ops: seq<StoreOp>, sessionId: string)
    ensures Lookup(Replay(contexts, ops), sessionId) ==
            if forall k :: 0 <= k < |ops| ==> ops[k].sessionId != sessionId then Lookup(contexts, sessionId)
            else
              var k := LastOp(ops, sessionId);
              if ops[k].StoreText? then ops[k].text else ""
  {
    if ops != [] {
      var init := ops[..|ops| - 1];
      ReplayLastWriteWins(contexts, init, sessionId);
      var last := ops[|ops| - 1];
      if last.sessionId != sessionId {
        assert forall k :: 0 <= k < |init| ==> init[k] == ops[k];
        if exists k :: 0 <= k < |ops| && ops[k].sessionId == sessionId {
          var k :| 0 <= k < |ops| && ops[k].sessionId == sessionId;
          assert init[k].sessionId == sessionId;
        }
      }
    }
  }

  /** Index of the last operation on `sessionId`. */
  function LastOp(ops: seq<StoreOp>, sessionId: string): (k: nat)
    requires exists k :: 0 <= k < |ops| && ops[k].sessionId == sessionId
    ensures k < |ops| && ops[k].sessionId == sessionId
    ensures forall j :: k < j < |ops| ==> ops[j].sessionId != sessionId
  {
    if ops[|ops| - 1].sessionId == sessionId then |ops| - 1
    else
      var init := ops[..|ops| - 1];
      var k :| 0 <= k < |ops| && ops[k].sessionId == sessionId;
      assert init[k].sessionId == sessionId;
      LastOp(init, sessionId)
  }

  // -------------------------------------------------------------- fallbacks

  /** The `language_names` table. */
  const LanguageNames: seq<(string, string)> := [
    ("en", "English"), ("es", "Spanish"), ("fr", "French"), ("de", "German"),
    ("it", "Italian"), ("pt", "Portuguese"), ("hi", "Hindi"), ("ar", "Arabic"),
    ("zh", "Chinese"), ("ja", "Japanese"), ("ko", "Korean"), ("ru", "Russian")
  ]

  /** `language_names.get(language, "English")`. */
  function LanguageName(language: string): (name: string)
    ensures (forall i :: 0 <= i < |LanguageNames| ==> LanguageNames[i].0 != language) ==> name == "English"
    ensures forall i :: 0 <= i < |LanguageNames| && LanguageNames[i].0 == language ==> name == LanguageNames[i].1
  {
    FirstName(LanguageNames, language)
  }

  function FirstName(entries: seq<(string, string)>, key: string): (name: string)
    requires forall i, j :: 0 <= i < j < |entries| ==> entries[i].0 != entries[j].0
    ensures (forall i :: 0 <= i < |entries| ==> entries[i].0 != key) ==> name == "English"
    ensures forall i :: 0 <= i < |entries| && entries[i].0 == key ==> name == entries[i].1
  {
    if entries == [] then "English"
    else if entries[0].0 == key then entries[0].1
    else FirstName(entries[1..], key)
  }

  /** The prompt families the templates are keyed by. */
  datatype PromptKind = Phonological | Surface | Visual | Auditory | Mixed | General

  /** `prompts_by_type.get(dyslexia_type, prompts_by_type["general"])`, for either template table. */
  function PromptKindFor(dyslexiaType: string): (k: PromptKind)
    ensures k == General <==> dyslexiaType !in {"phonological", "surface", "visual", "auditory", "mixed"}
  {
    match dyslexiaType
    case "phonological" => Phonological
    case "surface" => Surface
    case "visual" => Visual
    case "auditory" => Auditory
    case "mixed" => Mixed
    case _ => General
  }

  // ------------------------------------------------------- model requests

  /** What a prompt is built from. */
  datatype Prompt =
    | SimplifyPrompt(text: string, kind: PromptKind, languageName: string)
    | QaPrompt(question: string, document: string, kind: PromptKind, languageName: string)

  /** The model call's outcome: the message content, or the exception's message. */
  datatype Completion = Content(text: string) | Failed(message: string)

  datatype ChatResult =
    | Rejected(error: string)
    | Simplified(original: string, simplified: string, dyslexiaType: string, language: string)
    | Answered(question: string, answer: string)

  /** `simplify_text`: client check, then blank text, then the model call. */
  function SimplifyText(hasClient: bool, text: string, dyslexiaType: string, language: string,
                        llm: Prompt -> Completion): (r: ChatResult)
    ensures !hasClient ==> r == Rejected("Groq API key not configured.")
    ensures hasClient && IsBlank(PySpace, text) ==> r == Rejected("Please provide text to simplify.")
    ensures r.Simplified? <==>
              hasClient && !IsBlank(PySpace, text) && llm(SimplifyPrompt(text, PromptKindFor(dyslexiaType), LanguageName(language))).Content?
    ensures r.Simplified? ==>
              && r.original == text && r.dyslexiaType == dyslexiaType && r.language == language
              && r.simplified == Strip(llm(SimplifyPrompt(text, PromptKindFor(dyslexiaType), LanguageName(language))).text)
    ensures !r.Simplified? && hasClient && !IsBlank(PySpace, text) ==>
              r == Rejected("Error simplifying text: " + llm(SimplifyPrompt(text, PromptKindFor(dyslexiaType), LanguageName(language))).message)
  {
    if !hasClient then Rejected("Groq API key not configured.")
    else if IsBlank(PySpace, text) then Rejected("Please provide text to simplify.")
    else
      match llm(SimplifyPrompt(text, PromptKindFor(dyslexiaType), LanguageName(language)))
      case Content(c) => Simplified(text, Strip(c), dyslexiaType, language)
      case Failed(e) => Rejected("Error simplifying text: " + e)
  }

  /**
   * `answer_question`: client check, then the session's document (an empty
   * one counts as none), then a blank question, then the model call.
   */
  function AnswerQuestion(hasClient: bool, store: DocumentStore, question: string, sessionId: string,
                          dyslexiaType: string, language: string, llm: Prompt -> Completion): (r: ChatResult)
    reads store
    ensures !hasClient ==> r == Rejected("Groq API key not configured.")
    ensures hasClient && store.Get(sessionId) == "" ==>
              r == Rejected("No document uploaded for this session. Please upload a document first.")
    ensures hasClient && store.Get(sessionId) != "" && IsBlank(PySpace, question) ==> r == Rejected("Please enter a question.")
    ensures r.Answered? ==>
              && hasClient && store.Get(sessionId) != "" && !IsBlank(PySpace, question)
              && r.question == question
              && var c := llm(QaPrompt(question, store.Get(sessionId), PromptKindFor(dyslexiaType), LanguageName(language)));
                 c.Content? && r.answer == Strip(c.text)
    ensures hasClient && store.Get(sessionId) != "" && !IsBlank(PySpace, question) ==>
              var c := llm(QaPrompt(question, store.Get(sessionId), PromptKindFor(dyslexiaType), LanguageName(language)));
              c.Failed? ==> r == Rejected("Error processing question: " + c.message)
  {
    if !hasClient then Rejected("Groq API key not configured.")
    else
      var documentText := store.Get(sessionId);
      if documentText == "" then Rejected("No document uploaded for this session. Please upload a document first.")
      else if IsBlank(PySpace, question) then Rejected("Please enter a question.")
      else
        match llm(QaPrompt(question, documentText, PromptKindFor(dyslexiaType), LanguageName(language)))
        case Content(c) => Answered(question, Strip(c))
        case Failed(e) => Rejected("Error processing question: " + e)
  }

  /**
   * The checks run before the model call: a request a check rejects gives
   * the same result whatever the model would have said.
   */
  lemma RejectionIgnoresModel(hasClient: bool, store: DocumentStore, question: string, sessionId: string,
                              text: string, dyslexiaType: string, language: string,
                              llm1: Prompt -> Completion, llm2: Prompt -> Completion)
    ensures !hasClient || IsBlank(PySpace, text) ==>
              SimplifyText(hasClient, text, dyslexiaType, language, llm1)
              == SimplifyText(hasClient, text, dyslexiaType, language, llm2)
    ensures !hasClient || store.Get(sessionId) == "" || IsBlank(PySpace, question) ==>
              AnswerQuestion(hasClient, store, question, sessionId, dyslexiaType, language, llm1)
              == AnswerQuestion(hasClient, store, question, sessionId, dyslexiaType, language, llm2)
  {
  }

  /** A question about a session cleared before it is refused as having no document. */
  method AskAfterClear(store: DocumentStore, sessionId: string, question: string, llm: Prompt -> Completion)
    returns (r: ChatResult)
    modifies store
    ensures r == Rejected("No document uploaded for this session. Please upload a document first.")
  {
    store.Clear(sessionId);
    r := AnswerQuestion(true, store, question, sessionId, "general", "en", llm);
  }
}
