/** The deterministic part of the AI service: locating the JSON object in a reply, the
    fixed fallback insights, and the keyword-chosen fallback advice. The remote model is
    not part of this model: its reply arrives as `Option<string>`, `None` when the call
    failed. */
module GeminiService {
  import opened Types
  import opened Strings

  // ---------------------------------------------------------------- JSON span

  /** Position of the last `c` in `s`, if any. */
  function LastIndexOf(s: string, c: char): (r: Option<nat>)
    ensures r.None? <==> c !in s
    ensures r.Some? ==> r.value < |s| && s[r.value] == c && forall k :: r.value < k < |s| ==> s[k] != c
  {
    if |s| == 0 then None
    else if s[|s| - 1] == c then Some(|s| - 1)
    else LastIndexOf(s[..|s| - 1], c)
  }

  /** There is a '{' at `i` and a later '}' at `j`: the pattern `\{[\s\S]*\}` can match
      the span between them. */
  ghost predicate BracePair(text: string, i: int, j: int) {
    0 <= i < j < |text| && text[i] == '{' && text[j] == '}'
  }

  /** The match of `/\{[\s\S]*\}/`: the leftmost start and, being greedy, the longest
      span, which runs from the first '{' to the last '}'. No match when no '}' follows a
      '{'. */
  function ExtractJson(text: string): (r: Option<string>)
    ensures r.None? <==> forall i, j :: !BracePair(text, i, j)
    ensures r.Some? ==> exists i, j ::
      && BracePair(text, i, j) && r.value == text[i..j + 1]
      && (forall k :: 0 <= k < i ==> text[k] != '{')
      && (forall k :: j < k < |text| ==> text[k] != '}')
  {
    var i := IndexOf(text, '{');
    var last := LastIndexOf(text, '}');
    if i < |text| && last.Some? && i < last.value then
      assert BracePair(text, i, last.value);
      Some(text[i..last.value + 1])
    else
      assert forall a, b :: !BracePair(text, a, b) by {
        forall a, b | 0 <= a < b < |text| && text[a] == '{' ensures text[b] != '}' {
          assert i <= a;
        }
      }
      None
  }

  /** The match is the widest span of its kind: every brace pair lies within it. */
  lemma ExtractJsonIsWidest(text: string, a: int, b: int)
    requires BracePair(text, a, b)
    ensures ExtractJson(text).Some?
    ensures exists i, j :: i <= a && b <= j && BracePair(text, i, j) && ExtractJson(text).value == text[i..j + 1]
  {
    var i := IndexOf(text, '{');
    var last := LastIndexOf(text, '}');
    assert i <= a && last.Some? && b <= last.value;
  }

  // ---------------------------------------------------------------- insights

  /** The insights returned whenever the call, the span search or the parse fails. */
  const FallbackInsights: AIResponse := AIResponse(
    [ "Tell me about yourself and your experience",
      "Why are you interested in this role?",
      "What are your greatest strengths?",
      "Describe a challenging project you worked on",
      "Where do you see yourself in 5 years?"],
    [ "Tailor your resume to match job requirements",
      "Research the company culture and values",
      "Prepare specific examples using STAR method",
      "Practice common interview questions",
      "Follow up within 24 hours after applying"],
    "Dear Hiring Manager, I am writing to express my strong interest in the position at your company. With my background and skills, I believe I would be a valuable addition to your team. I look forward to discussing how I can contribute to your organization.")

  /** The fallback holds five questions and five tips. */
  lemma FallbackInsightsShape()
    ensures |FallbackInsights.interviewQuestions| == 5 && |FallbackInsights.applicationTips| == 5
    ensures FallbackInsights.coverLetter != ""
  {
  }

  /** `generateJobInsights` once the reply is known. `parse` stands for `JSON.parse`,
      `None` where it throws. Every failure yields the fallback; nothing is thrown. */
  function JobInsights(reply: Option<string>, parse: string -> Option<AIResponse>): (r: AIResponse)
    ensures reply.None? ==> r == FallbackInsights
    ensures reply.Some? && ExtractJson(reply.value).None? ==> r == FallbackInsights
    ensures r != FallbackInsights ==>
      reply.Some? && ExtractJson(reply.value).Some? && parse(ExtractJson(reply.value).value) == Some(r)
  {
    match reply
    case None => FallbackInsights
    case Some(text) =>
      match ExtractJson(text)
      case None => FallbackInsights
      case Some(span) =>
        match parse(span)
        case None => FallbackInsights
        case Some(insights) => insights
  }

  /** A reply whose JSON span parses yields exactly the parsed insights. */
  lemma ParsedReplyIsUsed(text: string, parse: string -> Option<AIResponse>)
    requires ExtractJson(text).Some? && parse(ExtractJson(text).value).Some?
    ensures JobInsights(Some(text), parse) == parse(ExtractJson(text).value).value
  {
  }

  // ---------------------------------------------------------------- career advice

  /** The four canned answers. */
  datatype Topic = InterviewTopic | CoverLetterTopic | SalaryTopic | GeneralTopic

  /** The keyword tests in the order the service runs them. */
  function FallbackTopic(query: string): (t: Topic)
    ensures t == InterviewTopic <==> Contains(Lower(query), "interview")
    ensures t == CoverLetterTopic <==>
      !Contains(Lower(query), "interview") && Contains(Lower(query), "cover letter")
    ensures t == SalaryTopic <==>
      && !Contains(Lower(query), "interview") && !Contains(Lower(query), "cover letter")
      && (Contains(Lower(query), "salary") || Contains(Lower(query), "negotiate"))
  {
    var q := Lower(query);
    if Contains(q, "interview") then InterviewTopic
    else if Contains(q, "cover letter") then CoverLetterTopic
    else if Contains(q, "salary") || Contains(q, "negotiate") then SalaryTopic
    else GeneralTopic
  }

  const InterviewAdvice := "Here are some key interview tips:\n\n\U{2022} Research the company thoroughly\n\U{2022} Prepare STAR method examples\n\U{2022} Practice common questions\n\U{2022} Ask thoughtful questions about the role\n\U{2022} Follow up within 24 hours\n\nWould you like me to help with specific interview questions for any particular role?"
  const CoverLetterAdvice := "Here's a cover letter structure:\n\n\U{2022} Opening: Mention the specific role and how you found it\n\U{2022} Body: Highlight 2-3 relevant achievements\n\U{2022} Closing: Express enthusiasm and next steps\n\nKeep it to one page and customize for each application. Would you like help writing one for a specific position?"
  const SalaryAdvice := "Salary negotiation tips:\n\n\U{2022} Research market rates for your role\n\U{2022} Wait for them to make the first offer\n\U{2022} Consider the total compensation package\n\U{2022} Be prepared to justify your ask\n\U{2022} Stay professional and positive\n\nWhat specific aspect of salary negotiation would you like to discuss?"
  const GeneralAdvice := "I'd be happy to help with your career question! I can assist with:\n\n\U{2022} Interview preparation and questions\n\U{2022} Cover letter writing\n\U{2022} Resume optimization\n\U{2022} Salary negotiation\n\U{2022} Career planning\n\nCould you provide more details about what you'd like help with?"

  function AdviceText(t: Topic): string {
    match t
    case InterviewTopic => InterviewAdvice
    case CoverLetterTopic => CoverLetterAdvice
    case SalaryTopic => SalaryAdvice
    case GeneralTopic => GeneralAdvice
  }

  /** `generateCareerAdvice` once the reply is known: the reply's text, or the canned
      answer for the query's topic when the call failed. */
  function CareerAdvice(query: string, reply: Option<string>): (r: string)
    ensures reply.Some? ==> r == reply.value
    ensures reply.None? ==> r == AdviceText(FallbackTopic(query))
  {
    if reply.Some? then reply.value else AdviceText(FallbackTopic(query))
  }

  /** A query mentioning both interviews and salary gets the interview answer. */
  lemma InterviewTakesPriority(query: string)
    requires Contains(Lower(query), "interview") && Contains(Lower(query), "salary")
    ensures CareerAdvice(query, None) == InterviewAdvice
  {
  }

  /** The keywords are found in any letter case: the choice depends only on the
      lowercased query, and a keyword written in any case selects its topic. */
  lemma KeywordsIgnoreCase(query: string, word: string)
    ensures FallbackTopic(query) == FallbackTopic(Lower(query))
    ensures Contains(query, word) && Lower(word) == "interview" ==> FallbackTopic(query) == InterviewTopic
  {
    LowerIdempotent(query);
    if Contains(query, word) {
      ContainsLower(query, word);
    }
  }
}
