/** Counting and cutting texts by tokens, over an encoder and decoder that are not looked into. */
module Tokens {
  datatype Tokenizer = Tokenizer(encode: string -> seq<int>, decode: seq<int> -> string)

  function Count(t: Tokenizer, text: string): nat {
    if text == "" then 0 else |t.encode(text)|
  }

  function Truncate(t: Tokenizer, text: string, maxTokens: int): string {
    if text == "" || maxTokens <= 0 then ""
    else if |t.encode(text)| <= maxTokens then text
    else t.decode(t.encode(text)[..maxTokens])
  }

  /**
   A law of some encoders: what is decoded from the first tokens of a text encodes to at most
   `slack` tokens more. Encoders of whole characters have no slack; ByteTokens says what those of
   bytes have.
   */
  ghost predicate CutsWithin(t: Tokenizer, slack: nat) {
    forall text, n: nat :: n < |t.encode(text)| ==> Count(t, t.decode(t.encode(text)[..n])) <= n + slack
  }

  lemma TruncateFits(t: Tokenizer, slack: nat, text: string, n: nat)
    requires CutsWithin(t, slack)
    ensures Count(t, Truncate(t, text, n)) <= n + slack
  {
  }
}
