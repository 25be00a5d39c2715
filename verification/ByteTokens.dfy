/**
 Vocabularies whose tokens stand for bytes, as those of the program's encoder do: what a text becomes
 when it is cut after some tokens, and when it still fits the number it was cut to.
 */
module ByteTokens {
  import opened Tokens
  import opened Utf8

  // ---------- Any vocabulary ----------

  /** The bytes that a list of tokens stands for. */
  function Expand(bytes: int -> seq<int>, tokens: seq<int>): seq<int> {
    if tokens == [] then [] else bytes(tokens[0]) + Expand(bytes, tokens[1..])
  }

  /** Every token stands for some bytes, those of a text for its bytes, and decoding reads them. */
  ghost predicate ByteLevel(t: Tokenizer, bytes: int -> seq<int>) {
    && (forall token: int :: |bytes(token)| > 0)
    && (forall text :: Expand(bytes, t.encode(text)) == Encode(text))
    && (forall tokens :: t.decode(tokens) == Decode(Expand(bytes, tokens)))
  }

  lemma {:induction false} ExpandConcat(bytes: int -> seq<int>, a: seq<int>, b: seq<int>)
    ensures Expand(bytes, a + b) == Expand(bytes, a) + Expand(bytes, b)
  {
    if a == [] {
      assert a + b == b;
    } else {
      assert (a + b)[1..] == a[1..] + b;
      ExpandConcat(bytes, a[1..], b);
    }
  }

  lemma ExpandSplit(bytes: int -> seq<int>, tokens: seq<int>, n: nat)
    requires n <= |tokens|
    ensures Expand(bytes, tokens) == Expand(bytes, tokens[..n]) + Expand(bytes, tokens[n..])
  {
    hide Expand;
    var front, back := tokens[..n], tokens[n..];
    assert front + back == tokens;
    ExpandConcat(bytes, front, back);
  }

  lemma ExpandIsEmptyIff(t: Tokenizer, bytes: int -> seq<int>, tokens: seq<int>)
    requires ByteLevel(t, bytes)
    ensures Expand(bytes, tokens) == [] <==> tokens == []
  {
    if tokens != [] {
      var token: int := tokens[0];
      assert |bytes(token)| > 0;
    }
  }

  /** The number of bytes before the cut. */
  function CutAt(t: Tokenizer, bytes: int -> seq<int>, text: string, n: int): nat {
    if n <= 0 then 0
    else if |t.encode(text)| <= n then |Encode(text)|
    else |Expand(bytes, t.encode(text)[..n])|
  }

  lemma CutBytes(t: Tokenizer, bytes: int -> seq<int>, text: string, n: int)
    requires ByteLevel(t, bytes) && 0 < n < |t.encode(text)|
    ensures var cut := CutAt(t, bytes, text, n);
      cut <= |Encode(text)| && Encode(text)[..cut] == Expand(bytes, t.encode(text)[..n])
  {
    ExpandSplit(bytes, t.encode(text), n);
    assert Expand(bytes, t.encode(text)) == Encode(text);
    hide Expand, Encode;
  }

  /** The complete characters before the cut. */
  function Kept(t: Tokenizer, bytes: int -> seq<int>, text: string, n: int): string {
    text[..Whole(text, CutAt(t, bytes, text, n))]
  }

  /** The bytes the cut leaves of the character it falls into. */
  function Rest(t: Tokenizer, bytes: int -> seq<int>, text: string, n: int): nat {
    Leftover(text, CutAt(t, bytes, text, n))
  }

  lemma WholeText(text: string)
    ensures text[..Whole(text, |Encode(text)|)] + Mark(Leftover(text, |Encode(text)|)) == text
  {
    DecodeEncode(text);
    DecodeCut(text, |Encode(text)|);
    assert Encode(text)[..|Encode(text)|] == Encode(text);
  }

  /**
   Whatever the vocabulary, a cut text is its complete characters before the cut, in order, and
   after them one replacement character exactly when the cut falls inside a character.
   */
  lemma TruncateIsPrefix(t: Tokenizer, bytes: int -> seq<int>, text: string, n: int)
    requires ByteLevel(t, bytes)
    ensures Truncate(t, text, n) == Kept(t, bytes, text, n) + Mark(Rest(t, bytes, text, n))
  {
    var tokens := t.encode(text);
    if 0 < n < |tokens| {
      CutBytes(t, bytes, text, n);
      ExpandIsEmptyIff(t, bytes, tokens);
      var cut := CutAt(t, bytes, text, n);
      assert t.decode(tokens[..n]) == Decode(Expand(bytes, tokens[..n]));
      assert Encode("") == [];
      hide Encode, Decode, Expand, Leftover, Whole, CutAt;
      DecodeCut(text, cut);
    } else if n <= 0 {
      assert text[..0] + Mark(0) == "";
    } else {
      WholeText(text);
    }
  }

  // ---------- When a cut text fits ----------

  /**
   The law of additivity at a cut: the complete characters have the tokens they had in the text, and a
   replacement character after them adds its own.
   */
  ghost predicate SplitsAt(t: Tokenizer, bytes: int -> seq<int>, text: string, n: int) {
    var kept := Kept(t, bytes, text, n);
    && t.encode(kept) <= t.encode(text)[..if 0 <= n <= |t.encode(text)| then n else |t.encode(text)|]
    && t.encode(kept + [REPLACEMENT]) == t.encode(kept) + t.encode([REPLACEMENT])
  }

  /** The tokens that held what the cut leaves of a character. */
  function Torn(t: Tokenizer, bytes: int -> seq<int>, text: string, n: int): int {
    n - |t.encode(Kept(t, bytes, text, n))|
  }

  lemma CountOfKept(t: Tokenizer, bytes: int -> seq<int>, text: string)
    requires ByteLevel(t, bytes)
    ensures Count(t, text) == |t.encode(text)|
  {
    assert Expand(bytes, t.encode("")) == Encode("") == [];
    ExpandIsEmptyIff(t, bytes, t.encode(""));
  }

  /** They stand for exactly these bytes, so there is one of them if and only if a character was cut. */
  lemma TornHoldRest(t: Tokenizer, bytes: int -> seq<int>, text: string, n: int)
    requires ByteLevel(t, bytes) && 0 < n < |t.encode(text)| && SplitsAt(t, bytes, text, n)
    ensures var m := |t.encode(Kept(t, bytes, text, n))|;
      && m <= n && |Expand(bytes, t.encode(text)[m..n])| == Rest(t, bytes, text, n)
      && (Rest(t, bytes, text, n) > 0 <==> Torn(t, bytes, text, n) > 0)
  {
    var tokens, kept, cut := t.encode(text), Kept(t, bytes, text, n), CutAt(t, bytes, text, n);
    var m := |t.encode(kept)|;
    CutBytes(t, bytes, text, n);
    WholeSize(text, cut);
    assert Expand(bytes, t.encode(kept)) == Encode(kept);
    hide Expand, Encode, Leftover, Whole;
    assert tokens[..n][..m] == t.encode(kept) && tokens[..n][m..] == tokens[m..n];
    ExpandSplit(bytes, tokens[..n], m);
    ExpandIsEmptyIff(t, bytes, tokens[m..n]);
  }

  /**
   For any vocabulary of byte strings, where the law holds at the cut: the cut text has at most `n`
   tokens exactly when no character was cut, or the replacement takes no more tokens than the part of
   the character did.
   */
  lemma TruncateFitsIff(t: Tokenizer, bytes: int -> seq<int>, text: string, n: int)
    requires ByteLevel(t, bytes) && 0 < n < |t.encode(text)| && SplitsAt(t, bytes, text, n)
    ensures Count(t, Truncate(t, text, n)) <= n <==>
      Rest(t, bytes, text, n) == 0 || |t.encode([REPLACEMENT])| <= Torn(t, bytes, text, n)
    ensures Count(t, Truncate(t, text, n)) ==
      n - Torn(t, bytes, text, n) + if Rest(t, bytes, text, n) > 0 then |t.encode([REPLACEMENT])| else 0
  {
    TruncateIsPrefix(t, bytes, text, n);
    TornHoldRest(t, bytes, text, n);
    CountOfKept(t, bytes, Truncate(t, text, n));
    hide ByteLevel, Truncate, Count, CutAt, Encode, Leftover, Whole;
    var kept := Kept(t, bytes, text, n);
    hide Kept, Rest;
    assert kept + "" == kept;
  }

  /** Texts of one-byte characters always fit: no cut leaves a part of one. */
  lemma NarrowTextsFit(t: Tokenizer, bytes: int -> seq<int>, text: string, n: nat)
    requires ByteLevel(t, bytes) && (0 < n < |t.encode(text)| ==> SplitsAt(t, bytes, text, n))
    requires forall c :: c in text ==> Width(c) == 1
    ensures Count(t, Truncate(t, text, n)) <= n
  {
    NarrowLeftover(text, CutAt(t, bytes, text, n));
    hide ByteLevel, SplitsAt, CutAt, Leftover;
    if 0 < n < |t.encode(text)| {
      TruncateFitsIff(t, bytes, text, n);
    }
  }

  lemma {:induction false} NarrowLeftover(text: string, n: nat)
    requires forall c :: c in text ==> Width(c) == 1
    ensures Leftover(text, n) == 0
  {
    if text != "" && n > 0 {
      NarrowLeftover(text[1..], n - 1);
    }
  }

  /** A vocabulary for which the law holds at every cut. */
  ghost predicate Additive(t: Tokenizer, bytes: int -> seq<int>) {
    forall text, n :: 0 < n < |t.encode(text)| ==> SplitsAt(t, bytes, text, n)
  }

  /** Then no cut text has more tokens too many than the replacement has after its first. */
  lemma AdditiveCutsWithin(t: Tokenizer, bytes: int -> seq<int>)
    requires ByteLevel(t, bytes) && Additive(t, bytes)
    ensures |t.encode([REPLACEMENT])| > 0
    ensures CutsWithin(t, |t.encode([REPLACEMENT])| - 1)
  {
    ReplacementHasTokens(t, bytes);
    forall text, n: nat | n < |t.encode(text)|
      ensures Count(t, t.decode(t.encode(text)[..n])) <= n + (|t.encode([REPLACEMENT])| - 1)
    {
      if n == 0 {
        assert t.encode(text)[..0] == [];
        assert t.decode([]) == Decode(Expand(bytes, [])) == "";
      } else {
        assert SplitsAt(t, bytes, text, n);
        TruncateFitsIff(t, bytes, text, n);
        TornHoldRest(t, bytes, text, n);
        EmptyHasNoTokens(t, bytes, text);
        hide ByteLevel, Additive, SplitsAt, Torn, Rest, CutsWithin, Count;
        assert Truncate(t, text, n) == t.decode(t.encode(text)[..n]);
      }
    }
  }

  /** So the promise always holds where the replacement character is a single token. */
  lemma OneTokenReplacementFits(t: Tokenizer, bytes: int -> seq<int>, text: string, n: nat)
    requires ByteLevel(t, bytes) && Additive(t, bytes) && |t.encode([REPLACEMENT])| == 1
    ensures Count(t, Truncate(t, text, n)) <= n
  {
    AdditiveCutsWithin(t, bytes);
    hide ByteLevel, Additive;
    TruncateFits(t, 0, text, n);
  }

  /** An encoder that takes characters one by one, whatever tokens each has. */
  ghost predicate Concatenative(t: Tokenizer) {
    forall a: string, b: string :: t.encode(a + b) == t.encode(a) + t.encode(b)
  }

  lemma FewerTokensFewerBytes(t: Tokenizer, bytes: int -> seq<int>, tokens: seq<int>, n: nat, m: nat)
    requires ByteLevel(t, bytes) && n <= |tokens| && m <= |tokens|
    requires |Expand(bytes, tokens[..m])| <= |Expand(bytes, tokens[..n])|
    ensures m <= n
  {
    hide Expand, ByteLevel;
    if n < m {
      assert tokens[..m][..n] == tokens[..n];
      ExpandSplit(bytes, tokens[..m], n);
      ExpandIsEmptyIff(t, bytes, tokens[..m][n..]);
    }
  }

  lemma PrefixTokens(t: Tokenizer, a: string, text: string)
    requires Concatenative(t) && a <= text
    ensures t.encode(a) <= t.encode(text)
  {
    assert text == a + text[|a|..];
    assert t.encode(a + text[|a|..]) == t.encode(a) + t.encode(text[|a|..]);
  }

  lemma KeptBytes(t: Tokenizer, bytes: int -> seq<int>, text: string, n: int)
    requires ByteLevel(t, bytes) && 0 < n < |t.encode(text)|
    ensures |Expand(bytes, t.encode(Kept(t, bytes, text, n)))| <= |Expand(bytes, t.encode(text)[..n])|
  {
    CutBytes(t, bytes, text, n);
    WholeSize(text, CutAt(t, bytes, text, n));
    assert Expand(bytes, t.encode(Kept(t, bytes, text, n))) == Encode(Kept(t, bytes, text, n));
    hide Encode, Leftover, Whole, Expand;
  }

  /** The tokens of the complete characters are the first of the text's, and no more than were kept. */
  lemma KeptIsPrefix(t: Tokenizer, bytes: int -> seq<int>, text: string, n: int)
    requires ByteLevel(t, bytes) && Concatenative(t) && 0 < n < |t.encode(text)|
    ensures t.encode(Kept(t, bytes, text, n)) <= t.encode(text)[..n]
  {
    var kept := Kept(t, bytes, text, n);
    assert kept <= text;
    hide Kept, ByteLevel, Expand, Concatenative;
    PrefixTokens(t, kept, text);
    KeptBytes(t, bytes, text, n);
    var m := |t.encode(kept)|;
    assert t.encode(text)[..m] == t.encode(kept);
    FewerTokensFewerBytes(t, bytes, t.encode(text), n, m);
  }

  lemma ConcatenativeSplits(t: Tokenizer, bytes: int -> seq<int>, text: string, n: int)
    requires ByteLevel(t, bytes) && Concatenative(t) && 0 < n < |t.encode(text)|
    ensures SplitsAt(t, bytes, text, n)
  {
    hide ByteLevel, Kept, CutAt, Encode;
    KeptIsPrefix(t, bytes, text, n);
  }

  /** Such encoders obey the law. */
  lemma ConcatenativeIsAdditive(t: Tokenizer, bytes: int -> seq<int>)
    requires ByteLevel(t, bytes) && Concatenative(t)
    ensures Additive(t, bytes)
  {
    hide SplitsAt;
    forall text, n | 0 < n < |t.encode(text)| ensures SplitsAt(t, bytes, text, n) {
      ConcatenativeSplits(t, bytes, text, n);
    }
  }

  lemma EmptyHasNoTokens(t: Tokenizer, bytes: int -> seq<int>, text: string)
    requires ByteLevel(t, bytes)
    ensures t.encode(text) == [] <==> text == ""
  {
    ExpandIsEmptyIff(t, bytes, t.encode(text));
    assert Expand(bytes, t.encode(text)) == Encode(text);
    assert text != "" ==> |Encode(text)| >= Width(text[0]);
  }

  lemma ReplacementHasTokens(t: Tokenizer, bytes: int -> seq<int>)
    requires ByteLevel(t, bytes)
    ensures |t.encode([REPLACEMENT])| > 0
  {
    EmptyHasNoTokens(t, bytes, [REPLACEMENT]);
  }

  // ---------- One token for each byte ----------

  /** The vocabulary of single bytes. */
  const BYTES := Tokenizer((text: string) => Encode(text), (tokens: seq<int>) => Decode(tokens))

  const SINGLE: int -> seq<int> := token => [token]

  lemma {:induction false} ExpandSingle(tokens: seq<int>)
    ensures Expand(SINGLE, tokens) == tokens
  {
    if tokens != [] {
      ExpandSingle(tokens[1..]);
    }
  }

  lemma BytesAreByteLevel()
    ensures ByteLevel(BYTES, SINGLE)
  {
    forall tokens: seq<int> ensures Expand(SINGLE, tokens) == tokens {
      ExpandSingle(tokens);
    }
  }

  lemma ReplacementIsThree()
    ensures |Encode([REPLACEMENT])| == 3
  {
    assert [REPLACEMENT][1..] == "";
    assert Width(REPLACEMENT) == 3;
  }

  lemma BytesAreAdditive()
    ensures ByteLevel(BYTES, SINGLE) && Additive(BYTES, SINGLE) && CutsWithin(BYTES, 2)
  {
    BytesAreByteLevel();
    forall a: string, b: string ensures BYTES.encode(a + b) == BYTES.encode(a) + BYTES.encode(b) {
      EncodeConcat(a, b);
    }
    hide ByteLevel, Additive;
    ConcatenativeIsAdditive(BYTES, SINGLE);
    ReplacementIsThree();
    AdditiveCutsWithin(BYTES, SINGLE);
  }

  /** With one token for each byte the promise is kept exactly when a cut leaves no byte of a character, or three. */
  lemma BytesFitIff(text: string, n: int)
    requires 0 < n < |Encode(text)|
    ensures Count(BYTES, Truncate(BYTES, text, n)) <= n <==> Leftover(text, n) in {0, 3}
    ensures Count(BYTES, Truncate(BYTES, text, n))
      == n - Leftover(text, n) + if Leftover(text, n) > 0 then 3 else 0
  {
    BytesAreAdditive();
    ReplacementIsThree();
    WholeSize(text, n);
    ExpandSingle(Encode(text)[..n]);
    assert CutAt(BYTES, SINGLE, text, n) == n;
    assert BYTES.encode(text) == Encode(text) && SplitsAt(BYTES, SINGLE, text, n);
    assert Torn(BYTES, SINGLE, text, n) == Rest(BYTES, SINGLE, text, n) == Leftover(text, n);
    hide ByteLevel, SplitsAt, Torn, Rest, CutAt, Encode, Leftover, Whole;
    TruncateFitsIff(BYTES, SINGLE, text, n);
  }

  /** There a two-byte letter cut to one token has three. */
  lemma BytesCanGrow()
    ensures Count(BYTES, Truncate(BYTES, "\U{e9}", 1)) == 3
  {
    var text := "\U{e9}";
    assert text[1..] == "";
    assert Width(text[0]) == 2 && |Encode(text)| == 2;
    BytesFitIff(text, 1);
  }
}
