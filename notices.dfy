/**
 * What a submission ends with: the outcome of the single delivery attempt
 * and the notice shown to the user. On failure the plain component picks one
 * of four explanations from the HTTP-like status on the error; the
 * file-upload component always shows the generic one.
 */
module Notices {
  import opened Wrappers

  /** The delivery library's answer: success, or an error carrying an optional numeric status. */
  datatype SendOutcome = Delivered | Rejected(status: Option<int>)

  /** Written as two pieces of the same text: the verifier cannot index into one long literal. */
  const SuccessNotice := "Demo request submitted successfully!" + " We will contact you soon."

  /** The four situations the plain component tells apart. */
  datatype ErrorKind = InvalidConfiguration | AuthenticationFailed | TemplateMismatch | Unclassified

  /** The status test chain; `None` is an error without a numeric `status`. */
  function Classify(status: Option<int>): (k: ErrorKind)
    ensures k == InvalidConfiguration <==> status == Some(400)
    ensures k == AuthenticationFailed <==> status == Some(401)
    ensures k == TemplateMismatch <==> status == Some(422)
    ensures k == Unclassified <==> status !in {Some(400), Some(401), Some(422)}
  {
    if status == Some(400) then InvalidConfiguration
    else if status == Some(401) then AuthenticationFailed
    else if status == Some(422) then TemplateMismatch
    else Unclassified
  }

  const FailurePrefix := "Failed to submit demo request. "

  const ContactAddress := "vmsholdings@vmsforsea.com"

  /**
   * The sentence that follows the prefix. Each is written as pieces of the
   * same text, since the verifier cannot index into one long literal. The
   * three specific explanations are full sentences ending in a full stop; the
   * generic one ends with the contact address instead.
   */
  function Explanation(k: ErrorKind): (e: string)
    ensures e != ""
    ensures k != Unclassified ==> e[|e| - 1] == '.'
    ensures k == Unclassified ==> |e| > |ContactAddress| && e[|e| - |ContactAddress|..] == ContactAddress
  {
    match k
    case InvalidConfiguration => "Invalid template or service ID." + " Please check EmailJS configuration."
    case AuthenticationFailed => "Authentication failed." + " Please check EmailJS public key."
    case TemplateMismatch => "Template variables do not match." + " Please check template configuration."
    case Unclassified => "Please try again or contact us" + " directly at " + ContactAddress
  }

  /** The plain component's failure notice: the fixed prefix and exactly one explanation. */
  function FailureMessage(status: Option<int>): (m: string)
    ensures FailurePrefix <= m
    ensures m[|FailurePrefix|..] == Explanation(Classify(status))
  {
    FailurePrefix + Explanation(Classify(status))
  }

  /** The four explanations already differ in their first letter. */
  lemma ExplanationsDiffer(k1: ErrorKind, k2: ErrorKind)
    requires k1 != k2
    ensures Explanation(k1) != Explanation(k2)
  {
  }

  /** Different kinds of failure never share a message, so the message tells the kind. */
  lemma FailureMessageDeterminesKind(s1: Option<int>, s2: Option<int>)
    ensures FailureMessage(s1) == FailureMessage(s2) <==> Classify(s1) == Classify(s2)
  {
  }

  /**
   * The file-upload component's only failure notice; it spells out in one
   * literal the same text as the prefix followed by the generic explanation.
   */
  const GenericFailureMessage := FailurePrefix + Explanation(Unclassified)

  /** The upload component's notice is the one the plain component shows for an unclassified error. */
  lemma GenericIsUnclassified(status: Option<int>)
    requires status !in {Some(400), Some(401), Some(422)}
    ensures GenericFailureMessage == FailureMessage(status)
  {
  }

  /** A 401 always gets the authentication explanation, never the generic one. */
  lemma UnauthorizedIsSpecific()
    ensures FailureMessage(Some(401)) != GenericFailureMessage
    ensures FailureMessage(Some(401))[|FailurePrefix|..] == Explanation(AuthenticationFailed)
  {
  }
}
