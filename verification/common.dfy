/** Vocabulary shared by every part of the filter engine model. */
module Common {

  /** A Ruby symbol naming a method of the service: an endpoint, a filter action or a condition. */
  type Name = string

  /** One entry of the service instance's call log (`@called` in the fixture). */
  type Label = string

  /** The name of an exception class. */
  type ClassName = string

  datatype Option<+T> = None | Some(value: T)

  datatype Result<+T, +E> = Ok(value: T) | Err(error: E)

  /** Number of occurrences of `l` in the log `s`. */
  function Count(s: seq<Label>, l: Label): (n: nat)
    ensures n <= |s|
    ensures n == 0 <==> l !in s
  {
    if |s| == 0 then 0
    else (if s[0] == l then 1 else 0) + Count(s[1..], l)
  }

  /** `word` occurs as a contiguous piece of `text`. */
  predicate Mentions(text: string, word: string)
  {
    exists i | 0 <= i <= |text| :: OccursAt(text, word, i)
  }

  /** `word` occurs in `text` starting at position `i`. */
  predicate OccursAt(text: string, word: string, i: int)
  {
    0 <= i && i + |word| <= |text| && text[i..i + |word|] == word
  }
}
