/** The one call to the text-generation service, reduced to what the rest of the program
    can observe of it: the string the call resolves to. The request itself (endpoint,
    headers, key, JSON envelope) is not modelled; how it ended is an input. */
module Gateway {
  import opened Text

  datatype Option<T> = None | Some(value: T)

  /** How one request ended. */
  datatype Outcome =
    | Threw                          // the request failed, or its body was not JSON
    | Decoded(text: Option<string>)  // the body's candidates[0].content.parts[0].text, when present

  const NoResponse: string := "No response from Gemini."
  const ContactError: string := "Error contacting Gemini API."

  /** One of the two fixed strings substituted for a real completion. */
  predicate IsFallback(reply: string) {
    reply == NoResponse || reply == ContactError
  }

  /** The completion when there is a non-empty one, otherwise a fallback string: the call
      never fails and never resolves to the empty string. */
  function Ask(outcome: Outcome): (reply: string)
    ensures reply != []
    ensures outcome.Decoded? && outcome.text.Some? && outcome.text.value != [] ==> reply == outcome.text.value
    ensures !(outcome.Decoded? && outcome.text.Some? && outcome.text.value != []) ==> IsFallback(reply)
    ensures outcome.Decoded? && (outcome.text.None? || outcome.text.value == []) ==> reply == NoResponse
    ensures outcome.Threw? ==> reply == ContactError
  {
    match outcome
    case Threw => ContactError
    case Decoded(text) =>
      if text.Some? && text.value != [] then text.value else NoResponse
  }

  /** Neither fallback string contains a digit, so neither can hold an ordinal marker. */
  lemma NoResponseDigitFree()
    ensures DigitFree(NoResponse)
  {
  }

  lemma ContactErrorDigitFree()
    ensures DigitFree(ContactError)
  {
  }
}
