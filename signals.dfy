/**
  The two page signals both scripts read the same way: the Cloudflare Turnstile response
  field, taken as solved when it holds more than ten characters, and the words whose
  presence on the page after submitting counts as a successful renewal.
 */
module Signals {
  import opened PyStr

  /** Longest response value still taken as "not yet solved". */
  const Threshold: nat := 10

  predicate Solved(response: string) {
    |response| > Threshold
  }

  /** The page after submitting says "completed", "updated" or "continued". */
  predicate HasSuccessWord(text: string) {
    Contains(text, "完了") || Contains(text, "更新") || Contains(text, "継続")
  }

  /**
    `継続` is both the caption of the renew button and a success word: a page text
    holding that caption has a success word.
   */
  lemma RenewCaptionIsSuccessWord(text: string)
    requires Contains(text, "継続")
    ensures HasSuccessWord(text)
  {
  }
}
