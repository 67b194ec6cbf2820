/**
 * How the chat client turns the message of a failed generation into the
 * title and text of the notification it shows: an ordered table of
 * substring tests, first hit wins, with a default for everything else.
 */
module ChatErrors {
  import opened JsStrings

  /** A notification: its title and its description. */
  datatype Toast = Toast(title: string, description: string)

  const QuotaTitle: string := "API Quota Exceeded"
  const KeyTitle: string := "API Key Issue"
  const PlainTitle: string := "Error"

  const QuotaText: string :=
    "You've exceeded your OpenAI API quota. Please check your billing details at platform.openai.com or try using Groq API (free alternative)."
  const KeyText: string :=
    "AI API key is not configured. Please add either GROQ_API_KEY (free) or OPENAI_API_KEY environment variable."
  const RateLimitText: string := "Rate limit exceeded. Please wait a moment and try again."
  const NetworkText: string := "Network error. Please check your connection and try again."
  const DefaultText: string := "Failed to generate response. Please try again."

  /** The quota test shared by the client and the generation route: "quota" or "billing" occurs. */
  predicate MentionsQuota(message: string) {
    Includes(message, "quota") || Includes(message, "billing")
  }

  /** The notification for an error with the given message. */
  function Classify(message: string): (t: Toast)
    ensures t.title == QuotaTitle <==> MentionsQuota(message)
    ensures t.title == KeyTitle <==> !MentionsQuota(message) && Includes(message, "API key")
    ensures t.title == PlainTitle <==> !MentionsQuota(message) && !Includes(message, "API key")
    ensures t.description == DefaultText <==>
      !MentionsQuota(message) && !Includes(message, "API key")
      && !Includes(message, "rate limit") && !Includes(message, "network")
  {
    if MentionsQuota(message) then Toast(QuotaTitle, QuotaText)
    else if Includes(message, "API key") then Toast(KeyTitle, KeyText)
    else if Includes(message, "rate limit") then Toast(PlainTitle, RateLimitText)
    else if Includes(message, "network") then Toast(PlainTitle, NetworkText)
    else Toast(PlainTitle, DefaultText)
  }

  /** A message that says "quota" or "billing" anywhere is a quota error, whatever else it says. */
  lemma QuotaWins(before: string, word: string, after: string)
    requires word == "quota" || word == "billing"
    ensures Classify(before + word + after) == Toast(QuotaTitle, QuotaText)
  {
    IncludesInfix(before, word, after);
  }

  /** Short of a quota word, a message that mentions "API key" is a key issue, whatever else it says. */
  lemma ApiKeyBeatsRateLimitAndNetwork(before: string, after: string)
    requires !MentionsQuota(before + "API key" + after)
    ensures Classify(before + "API key" + after) == Toast(KeyTitle, KeyText)
  {
    IncludesInfix(before, "API key", after);
  }

  /** "rate limit" is tested before "network": a message with both gets the rate-limit text. */
  lemma RateLimitBeatsNetwork(before: string, after: string)
    requires !MentionsQuota(before + "rate limit" + after)
    requires !Includes(before + "rate limit" + after, "API key")
    ensures Classify(before + "rate limit" + after) == Toast(PlainTitle, RateLimitText)
  {
    IncludesInfix(before, "rate limit", after);
  }

  /** A message that mentions "network" and none of the earlier words gets the network text. */
  lemma NetworkMentioned(before: string, after: string)
    requires !MentionsQuota(before + "network" + after)
    requires !Includes(before + "network" + after, "API key")
    requires !Includes(before + "network" + after, "rate limit")
    ensures Classify(before + "network" + after) == Toast(PlainTitle, NetworkText)
  {
    IncludesInfix(before, "network", after);
  }
}
