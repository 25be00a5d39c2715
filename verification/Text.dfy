/** The string operations the program uses, over sequences of characters. */
module Text {
  /** The characters Python's strip removes. */
  predicate IsSpace(c: char) {
    || '\t' <= c <= '\r'
    || '\U{1c}' <= c <= ' '
    || c == '\U{85}' || c == '\U{a0}' || c == '\U{1680}'
    || '\U{2000}' <= c <= '\U{200a}'
    || c == '\U{2028}' || c == '\U{2029}' || c == '\U{202f}' || c == '\U{205f}' || c == '\U{3000}'
  }

  function LStrip(s: string): (r: string)
    ensures r == [] || !IsSpace(r[0])
  {
    if s == [] || !IsSpace(s[0]) then s else LStrip(s[1..])
  }

  function RStrip(s: string): (r: string)
    ensures r == [] || !IsSpace(r[|r| - 1])
    ensures r <= s
  {
    if s == [] || !IsSpace(s[|s| - 1]) then s else RStrip(s[..|s| - 1])
  }

  function Strip(s: string): string {
    RStrip(LStrip(s))
  }

  predicate Stripped(s: string) {
    s == [] || (!IsSpace(s[0]) && !IsSpace(s[|s| - 1]))
  }

  lemma StripStrips(s: string)
    ensures Stripped(Strip(s))
  {
  }

  lemma StripKeepsStripped(s: string)
    requires Stripped(s)
    ensures Strip(s) == s
  {
  }

  predicate Blank(s: string) {
    forall c :: c in s ==> IsSpace(c)
  }

  lemma {:induction false} LStripMeans(s: string)
    ensures exists front: string :: s == front + LStrip(s) && Blank(front)
  {
    if s != "" && IsSpace(s[0]) {
      LStripMeans(s[1..]);
      var front: string :| s[1..] == front + LStrip(s[1..]) && Blank(front);
      assert s == ([s[0]] + front) + LStrip(s);
    } else {
      assert s == "" + LStrip(s);
    }
  }

  lemma {:induction false} RStripMeans(s: string)
    ensures exists back: string :: s == RStrip(s) + back && Blank(back)
  {
    if s != "" && IsSpace(s[|s| - 1]) {
      var n := |s| - 1;
      RStripMeans(s[..n]);
      var back: string :| s[..n] == RStrip(s[..n]) + back && Blank(back);
      assert s == RStrip(s) + (back + [s[n]]);
    } else {
      assert s == RStrip(s) + "";
    }
  }

  /** Stripping takes blanks away on both sides and nothing else, and leaves none there. */
  lemma StripMeans(s: string)
    ensures Stripped(Strip(s))
    ensures exists front: string, back: string :: s == front + Strip(s) + back && Blank(front) && Blank(back)
  {
    hide LStrip, RStrip, Blank, Stripped;
    StripStrips(s);
    LStripMeans(s);
    RStripMeans(LStrip(s));
    var front: string :| s == front + LStrip(s) && Blank(front);
    var back: string :| LStrip(s) == Strip(s) + back && Blank(back);
    assert s == front + Strip(s) + back;
  }

  /** Stripping twice is stripping once. */
  lemma StripIdempotent(s: string)
    ensures Strip(Strip(s)) == Strip(s)
  {
    StripStrips(s);
    StripKeepsStripped(Strip(s));
  }

  predicate StartsWith(s: string, prefix: string) {
    prefix <= s
  }

  /** `part` occurs in `s`. */
  predicate Contains(s: string, part: string) {
    StartsWith(s, part) || (s != [] && Contains(s[1..], part))
  }

  /** A text contains exactly its middle parts. */
  lemma {:induction false} ContainsIff(s: string, part: string)
    ensures Contains(s, part) <==> exists front: string, back: string :: s == front + part + back
  {
    if part <= s {
      assert s == "" + part + s[|part|..];
    } else if s != "" {
      ContainsIff(s[1..], part);
      if front: string, back: string :| s[1..] == front + part + back {
        assert s == [s[0]] + front + part + back;
      }
      if front: string, back: string :| s == front + part + back {
        assert s[1..] == front[1..] + part + back;
      }
    }
  }

  /** Every occurrence of `part` replaced, left to right. */
  function Replace(s: string, part: string, sub: string): string
    requires part != []
  {
    if s == [] then []
    else if StartsWith(s, part) then sub + Replace(s[|part|..], part, sub)
    else [s[0]] + Replace(s[1..], part, sub)
  }

  function UpperChar(c: char): char {
    if 'a' <= c <= 'z' then c - 'a' + 'A' else c
  }

  function LowerChar(c: char): char {
    if 'A' <= c <= 'Z' then c - 'A' + 'a' else c
  }

  /** Upper and lower case of the ASCII letters. */
  function Upper(s: string): string {
    if s == [] then [] else [UpperChar(s[0])] + Upper(s[1..])
  }

  function Lower(s: string): string {
    if s == [] then [] else [LowerChar(s[0])] + Lower(s[1..])
  }

  function Digit(n: nat): char
    requires n < 10
  {
    '0' + n as char
  }

  function Decimal(n: nat): string {
    if n < 10 then [Digit(n)] else Decimal(n / 10) + [Digit(n % 10)]
  }
}
