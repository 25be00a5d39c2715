/**
 Relevance ranking with diversity: term vectors over the query and the documents, cosine
 scores, and selection by maximal marginal relevance. Exact reals; the logarithm and the
 square root are functions with the laws used here.
 */
module Ranking {
  import opened Pigeonhole
  import opened Wrappers

  type Vec = seq<real>

  datatype Maths = Maths(ln: real -> real, root: real -> real)

  function Product(x: real, y: real): real {
    x * y
  }

  function Sq(x: real): real {
    Product(x, x)
  }

  /** The logarithm grows and turns products into sums; the root squares to its argument. */
  ghost predicate Lawful(m: Maths) {
    && m.ln(1.0) == 0.0
    && (forall x, y :: 0.0 < x < y ==> m.ln(x) < m.ln(y))
    && (forall x, y :: 0.0 < x && 0.0 < y ==> m.ln(Product(x, y)) == m.ln(x) + m.ln(y))
    && (forall x :: x >= 0.0 ==> m.root(x) >= 0.0 && Sq(m.root(x)) == x)
  }

  // ---------- Vectors ----------

  function Dot(u: Vec, v: Vec): real
    requires |u| == |v|
  {
    if u == [] then 0.0 else u[0] * v[0] + Dot(u[1..], v[1..])
  }

  ghost predicate NonNegative(u: Vec) {
    forall i :: 0 <= i < |u| ==> u[i] >= 0.0
  }

  /** A vector as the ranker produces it: no negative entry, and length one or zero. */
  ghost predicate Unit(u: Vec) {
    NonNegative(u) && (Dot(u, u) == 0.0 || Dot(u, u) == 1.0)
  }

  lemma SquareBound(a: real, b: real)
    ensures 2.0 * (a * b) <= a * a + b * b
  {
    assert (a - b) * (a - b) >= 0.0;
    assert (a - b) * (a - b) == a * a - 2.0 * (a * b) + b * b;
  }

  /** Twice the product of two vectors is at most the sum of their squares. */
  lemma {:induction false} DotBound(u: Vec, v: Vec)
    requires |u| == |v|
    ensures 2.0 * Dot(u, v) <= Dot(u, u) + Dot(v, v)
  {
    if u != [] {
      SquareBound(u[0], v[0]);
      DotBound(u[1..], v[1..]);
    }
  }

  lemma MulNonNegative(a: real, b: real)
    requires a >= 0.0 && b >= 0.0
    ensures a * b >= 0.0
    ensures a * b > 0.0 <==> a > 0.0 && b > 0.0
  {
  }

  /** Some place is positive in both vectors. */
  ghost predicate Meet(u: Vec, v: Vec)
    requires |u| == |v|
  {
    exists i :: 0 <= i < |u| && u[i] > 0.0 && v[i] > 0.0
  }

  lemma MeetStep(u: Vec, v: Vec)
    requires |u| == |v| && u != []
    ensures Meet(u, v) <==> (u[0] > 0.0 && v[0] > 0.0) || Meet(u[1..], v[1..])
  {
    if i :| 0 <= i < |u| && u[i] > 0.0 && v[i] > 0.0 {
      assert i > 0 ==> u[1..][i - 1] > 0.0 && v[1..][i - 1] > 0.0;
    }
    if i :| 0 <= i < |u| - 1 && u[1..][i] > 0.0 && v[1..][i] > 0.0 {
      assert u[i + 1] > 0.0 && v[i + 1] > 0.0;
    }
  }

  /** The product of two non-negative vectors is positive exactly when they share a positive place. */
  lemma {:induction false} DotPositiveIff(u: Vec, v: Vec)
    requires |u| == |v| && NonNegative(u) && NonNegative(v)
    ensures Dot(u, v) >= 0.0
    ensures Dot(u, v) > 0.0 <==> Meet(u, v)
  {
    if u != [] {
      assert u[0] >= 0.0 && v[0] >= 0.0 && NonNegative(u[1..]) && NonNegative(v[1..]);
      hide NonNegative, Meet;
      MulNonNegative(u[0], v[0]);
      MeetStep(u, v);
      DotPositiveIff(u[1..], v[1..]);
    }
  }

  /** Scores of produced vectors lie between zero and one. */
  lemma ScoreInUnitInterval(u: Vec, v: Vec)
    requires |u| == |v| && Unit(u) && Unit(v)
    ensures 0.0 <= Dot(u, v) <= 1.0
  {
    DotPositiveIff(u, v);
    DotBound(u, v);
  }

  function Divide(u: Vec, d: real): (r: Vec)
    requires d != 0.0
    ensures |r| == |u|
  {
    if u == [] then [] else [u[0] / d] + Divide(u[1..], d)
  }

  lemma DivideSquare(a: real, d: real)
    requires d != 0.0
    ensures a * a == (a / d) * (a / d) * (d * d)
  {
    var q := a / d;
    assert a == q * d;
    assert a * a == (q * d) * (q * d) == q * q * (d * d);
  }

  lemma {:induction false} DivideDot(u: Vec, d: real)
    requires d != 0.0
    ensures Dot(u, u) == Dot(Divide(u, d), Divide(u, d)) * Sq(d)
  {
    if u != [] {
      DivideDot(u[1..], d);
      DivideSquare(u[0], d);
      var r := Divide(u, d);
      assert r[1..] == Divide(u[1..], d);
      var h, t, s := r[0] * r[0], Dot(r[1..], r[1..]), d * d;
      assert (h + t) * s == h * s + t * s;
    }
  }

  lemma {:induction false} DivideSigns(u: Vec, d: real)
    requires d > 0.0
    ensures forall i :: 0 <= i < |u| ==>
      (u[i] >= 0.0 ==> Divide(u, d)[i] >= 0.0) && (u[i] > 0.0 <==> Divide(u, d)[i] > 0.0)
  {
    if u != [] {
      DivideSigns(u[1..], d);
      forall i | 0 <= i < |u|
        ensures (u[i] >= 0.0 ==> Divide(u, d)[i] >= 0.0) && (u[i] > 0.0 <==> Divide(u, d)[i] > 0.0)
      {
        if i > 0 {
          assert Divide(u, d)[i] == Divide(u[1..], d)[i - 1] && u[i] == u[1..][i - 1];
        }
      }
    }
  }

  function Normalize(u: Vec, root: real -> real): (r: Vec)
    ensures |r| == |u|
  {
    var norm := root(Dot(u, u));
    Divide(u, if norm == 0.0 then 1.0 else norm)
  }

  lemma DividedByLength(u: Vec, n: real)
    requires n != 0.0 && Sq(n) == Dot(u, u)
    ensures Dot(Divide(u, n), Divide(u, n)) == 1.0
  {
    hide Dot, Divide, Sq;
    DivideDot(u, n);
    SquarePositive(n);
    CancelFactor(Dot(Divide(u, n), Divide(u, n)), Sq(n));
  }

  lemma DividedByOne(u: Vec)
    ensures Dot(Divide(u, 1.0), Divide(u, 1.0)) == Dot(u, u)
  {
    hide Dot, Divide;
    DivideDot(u, 1.0);
  }

  lemma RootOf(m: Maths, x: real)
    requires Lawful(m) && x >= 0.0
    ensures m.root(x) >= 0.0 && Sq(m.root(x)) == x
  {
  }

  /** Normalizing gives length one or zero, and keeps which entries are positive. */
  lemma NormalizeIsUnit(u: Vec, m: Maths)
    requires Lawful(m) && NonNegative(u)
    ensures Unit(Normalize(u, m.root))
    ensures forall i :: 0 <= i < |u| ==> (u[i] > 0.0 <==> Normalize(u, m.root)[i] > 0.0)
  {
    var n := m.root(Dot(u, u));
    DotPositiveIff(u, u);
    RootOf(m, Dot(u, u));
    assert n == 0.0 ==> Dot(u, u) == 0.0;
    hide Dot, Divide, Lawful, Sq;
    if n == 0.0 {
      DividedByOne(u);
      DivideSigns(u, 1.0);
    } else {
      DividedByLength(u, n);
      DivideSigns(u, n);
    }
  }

  lemma ProductPositive(a: real, b: real)
    requires a > 0.0 && b > 0.0
    ensures Product(a, b) > 0.0
  {
  }

  lemma SquarePositive(n: real)
    requires n != 0.0
    ensures Sq(n) > 0.0
  {
    if n < 0.0 {
      ProductPositive(-n, -n);
      assert Product(-n, -n) == Product(n, n);
    } else {
      ProductPositive(n, n);
    }
  }

  lemma CancelFactor(x: real, s: real)
    requires s > 0.0 && s == x * s
    ensures x == 1.0
  {
    assert (x - 1.0) * s == 0.0;
  }

  // ---------- Term vectors ----------

  type Token = string

  /** `vocab` gives each token its column, and `names` each column its token. */
  ghost predicate Columns(vocab: map<Token, nat>, names: seq<Token>) {
    && |names| == |vocab|
    && (forall t :: t in vocab ==> vocab[t] < |names| && names[vocab[t]] == t)
    && (forall j :: 0 <= j < |names| ==> names[j] in vocab && vocab[names[j]] == j)
  }

  /** Every token of the corpus has a column. */
  ghost predicate Covers(vocab: map<Token, nat>, corpus: seq<seq<Token>>) {
    forall d, i :: 0 <= d < |corpus| && 0 <= i < |corpus[d]| ==> corpus[d][i] in vocab
  }

  method AddTokens(vocab: map<Token, nat>, tokens: seq<Token>, ghost names: seq<Token>)
    returns (vocab': map<Token, nat>, ghost names': seq<Token>)
    requires Columns(vocab, names)
    ensures Columns(vocab', names') && vocab.Keys <= vocab'.Keys
    ensures forall i :: 0 <= i < |tokens| ==> tokens[i] in vocab'
  {
    vocab', names' := vocab, names;
    for i := 0 to |tokens|
      invariant Columns(vocab', names') && vocab.Keys <= vocab'.Keys
      invariant forall j :: 0 <= j < i ==> tokens[j] in vocab'
    {
      if tokens[i] !in vocab' {
        vocab', names' := vocab'[tokens[i] := |vocab'|], names' + [tokens[i]];
      }
    }
  }

  method BuildVocabulary(corpus: seq<seq<Token>>) returns (vocab: map<Token, nat>, ghost names: seq<Token>)
    ensures Columns(vocab, names) && Covers(vocab, corpus)
  {
    vocab, names := map[], [];
    for d := 0 to |corpus|
      invariant Columns(vocab, names)
      invariant Covers(vocab, corpus[..d])
    {
      vocab, names := AddTokens(vocab, corpus[d], names);
    }
    assert corpus[..|corpus|] == corpus;
  }

  /** A row of term counts. */
  ghost predicate CountRow(row: Vec, tokens: seq<Token>, names: seq<Token>) {
    |row| == |names| && forall j :: 0 <= j < |row| ==> row[j] == multiset(tokens)[names[j]] as real
  }

  method TermFrequencies(tokens: seq<Token>, vocab: map<Token, nat>, ghost names: seq<Token>) returns (row: Vec)
    requires Columns(vocab, names) && forall i :: 0 <= i < |tokens| ==> tokens[i] in vocab
    ensures CountRow(row, tokens, names) && |row| == |vocab|
  {
    var counts := new real[|vocab|](_ => 0.0);
    for i := 0 to |tokens|
      invariant CountRow(counts[..], tokens[..i], names)
    {
      var column := vocab[tokens[i]];
      assert tokens[..i + 1] == tokens[..i] + [tokens[i]];
      ghost var before := counts[..];
      counts[column] := counts[column] + 1.0;
      CountNext(before, counts[..], tokens[..i], names, column);
    }
    assert tokens[..|tokens|] == tokens;
    row := counts[..];
  }

  lemma CountNext(before: Vec, after: Vec, tokens: seq<Token>, names: seq<Token>, column: nat)
    requires CountRow(before, tokens, names) && column < |names|
    requires forall j :: 0 <= j < |names| && j != column ==> names[j] != names[column]
    requires |after| == |before| && after == before[column := before[column] + 1.0]
    ensures CountRow(after, tokens + [names[column]], names)
  {
  }

  /** The number of documents whose row has a positive entry in column `j`. */
  function DocumentCount(rows: seq<Vec>, j: nat): (n: nat)
    requires forall r :: r in rows ==> j < |r|
    ensures n <= |rows|
  {
    if rows == [] then 0 else (if rows[0][j] > 0.0 then 1 else 0) + DocumentCount(rows[1..], j)
  }

  /** The weight of column `j`, from the document rows only. */
  function Idf(docs: seq<Vec>, j: nat, ln: real -> real): real
    requires forall r :: r in docs ==> j < |r|
  {
    ln((|docs| as real + 1.0) / (DocumentCount(docs, j) as real + 1.0)) + 1.0
  }

  /** A column's weight is at least one: no token is in more documents than there are. */
  lemma IdfAtLeastOne(docs: seq<Vec>, j: nat, m: Maths)
    requires Lawful(m) && forall r :: r in docs ==> j < |r|
    ensures Idf(docs, j, m.ln) >= 1.0
  {
    var n, df := |docs| as real + 1.0, DocumentCount(docs, j) as real + 1.0;
    RatioAtLeastOne(n, df);
    assert n / df == 1.0 || 1.0 < n / df;
  }

  lemma NonNegativeQuotient(a: real, d: real)
    requires a >= 0.0 && d > 0.0
    ensures a / d >= 0.0
  {
  }

  lemma RatioAtLeastOne(n: real, d: real)
    requires n >= d > 0.0
    ensures n / d >= 1.0
  {
    var q, gap := n / d, (n - d) / d;
    assert q * d == n && gap * d == n - d;
    assert (q - 1.0 - gap) * d == 0.0;
    NonNegativeQuotient(n - d, d);
  }

  function Weigh(row: Vec, weights: Vec): (r: Vec)
    requires |row| == |weights|
    ensures |r| == |row|
  {
    if row == [] then [] else [row[0] * weights[0]] + Weigh(row[1..], weights[1..])
  }

  lemma {:induction false} WeighSigns(row: Vec, weights: Vec)
    requires |row| == |weights| && NonNegative(row) && forall i :: 0 <= i < |weights| ==> weights[i] >= 1.0
    ensures NonNegative(Weigh(row, weights))
    ensures forall i :: 0 <= i < |row| ==> (row[i] > 0.0 <==> Weigh(row, weights)[i] > 0.0)
  {
    if row != [] {
      MulNonNegative(row[0], weights[0]);
      WeighSigns(row[1..], weights[1..]);
      var r, rest := Weigh(row, weights), Weigh(row[1..], weights[1..]);
      forall i | 0 <= i < |row| ensures r[i] >= 0.0 && (row[i] > 0.0 <==> r[i] > 0.0) {
        assert i > 0 ==> r[i] == rest[i - 1] && row[i] == row[1..][i - 1];
      }
    }
  }

  ghost predicate Shares(a: seq<Token>, b: seq<Token>) {
    exists t :: t in a && t in b
  }

  /** A produced vector: of unit or zero length, and positive exactly at the columns of its tokens. */
  ghost predicate VectorOf(v: Vec, tokens: seq<Token>, names: seq<Token>) {
    && |v| == |names| && Unit(v)
    && forall j :: 0 <= j < |names| ==> (v[j] > 0.0 <==> names[j] in tokens)
  }

  /** The score of two produced vectors is in [0, 1], and positive exactly when their texts share a token. */
  lemma ScoreMeaning(u: Vec, v: Vec, a: seq<Token>, b: seq<Token>, vocab: map<Token, nat>, names: seq<Token>)
    requires Columns(vocab, names) && VectorOf(u, a, names) && VectorOf(v, b, names)
    requires forall i :: 0 <= i < |a| ==> a[i] in vocab
    ensures 0.0 <= Dot(u, v) <= 1.0
    ensures Dot(u, v) > 0.0 <==> Shares(a, b)
  {
    ScoreInUnitInterval(u, v);
    DotPositiveIff(u, v);
    if t :| t in a && t in b {
      assert names[vocab[t]] == t;
    }
  }

  /** A text without tokens has the zero vector; any other has a vector of length one. */
  lemma SelfScore(u: Vec, a: seq<Token>, vocab: map<Token, nat>, names: seq<Token>)
    requires Columns(vocab, names) && VectorOf(u, a, names)
    requires forall i :: 0 <= i < |a| ==> a[i] in vocab
    ensures Dot(u, u) == if a == [] then 0.0 else 1.0
  {
    ScoreMeaning(u, u, a, a, vocab, names);
    if a != [] {
      assert a[0] in a;
    }
  }

  /** The rows, weights and normalised vectors of a corpus whose first text is the query. */
  ghost predicate TermVectors(
      vectors: seq<Vec>, rows: seq<Vec>, weights: Vec, corpus: seq<seq<Token>>, names: seq<Token>, m: Maths)
  {
    && |vectors| == |rows| == |corpus| >= 1
    && |weights| == |names|
    && (forall d :: 0 <= d < |rows| ==> CountRow(rows[d], corpus[d], names))
    && (forall j :: 0 <= j < |weights| ==> weights[j] == Idf(rows[1..], j, m.ln))
    && (forall d :: 0 <= d < |vectors| ==> vectors[d] == Normalize(Weigh(rows[d], weights), m.root))
  }

  /** Term vectors are unit or zero, and positive exactly at the columns of their tokens. */
  lemma TermVectorsMean(
      vectors: seq<Vec>, rows: seq<Vec>, weights: Vec, corpus: seq<seq<Token>>, names: seq<Token>, m: Maths)
    requires Lawful(m) && TermVectors(vectors, rows, weights, corpus, names, m)
    ensures |vectors| == |corpus| && forall d :: 0 <= d < |corpus| ==> |vectors[d]| == |names|
    ensures forall d :: 0 <= d < |corpus| ==> VectorOf(vectors[d], corpus[d], names)
  {
    forall j | 0 <= j < |weights| ensures weights[j] >= 1.0 {
      IdfAtLeastOne(rows[1..], j, m);
    }
    forall d | 0 <= d < |corpus| ensures VectorOf(vectors[d], corpus[d], names) {
      hide VectorOf, Normalize, Weigh, Idf, Lawful;
      RowGivesVector(rows[d], weights, corpus[d], names, m);
    }
  }

  /** Counts, weighs and normalises every text of the corpus. */
  method BuildVectors(corpus: seq<seq<Token>>, m: Maths)
    returns (vectors: seq<Vec>, ghost vocab: map<Token, nat>, ghost names: seq<Token>,
             ghost rows: seq<Vec>, ghost weights: Vec)
    requires |corpus| >= 1
    ensures Columns(vocab, names) && Covers(vocab, corpus)
    ensures TermVectors(vectors, rows, weights, corpus, names, m)
  {
    hide Normalize, Weigh, Idf, Columns, Covers, CountRow;
    var columns, counts;
    columns, names := BuildVocabulary(corpus);
    counts := CountAll(corpus, columns, names);
    vocab, rows := columns, counts;
    var idf: Vec := [];
    for j := 0 to |columns|
      invariant |idf| == j && forall k :: 0 <= k < j ==> idf[k] == Idf(counts[1..], k, m.ln)
    {
      idf := idf + [Idf(counts[1..], j, m.ln)];
    }
    weights := idf;
    vectors := [];
    for d := 0 to |corpus|
      invariant |vectors| == d && forall e :: 0 <= e < d ==> vectors[e] == Normalize(Weigh(counts[e], idf), m.root)
    {
      vectors := vectors + [Normalize(Weigh(counts[d], idf), m.root)];
    }
  }

  method CountAll(corpus: seq<seq<Token>>, vocab: map<Token, nat>, ghost names: seq<Token>) returns (rows: seq<Vec>)
    requires Columns(vocab, names) && Covers(vocab, corpus)
    ensures |rows| == |corpus| && forall d :: 0 <= d < |corpus| ==> CountRow(rows[d], corpus[d], names)
    ensures forall d :: 0 <= d < |corpus| ==> |rows[d]| == |vocab|
  {
    hide Columns, CountRow;
    rows := [];
    for d := 0 to |corpus|
      invariant |rows| == d && forall e :: 0 <= e < d ==> CountRow(rows[e], corpus[e], names)
      invariant forall e :: 0 <= e < d ==> |rows[e]| == |vocab|
    {
      var row := TermFrequencies(corpus[d], vocab, names);
      rows := rows + [row];
    }
  }

  lemma RowGivesVector(row: Vec, weights: Vec, tokens: seq<Token>, names: seq<Token>, m: Maths)
    requires Lawful(m) && CountRow(row, tokens, names) && |weights| == |row|
    requires forall k :: 0 <= k < |weights| ==> weights[k] >= 1.0
    ensures VectorOf(Normalize(Weigh(row, weights), m.root), tokens, names)
  {
    WeighSigns(row, weights);
    NormalizeIsUnit(Weigh(row, weights), m);
  }

  // ---------- Selection by marginal relevance ----------
  // `mix` is the ranker's diversity weight: one means relevance alone.

  /** A square table of pairwise similarities. */
  predicate Square(sim: seq<Vec>, n: nat) {
    |sim| == n && forall i :: 0 <= i < n ==> |sim[i]| == n
  }

  /** The largest similarity of item `c` to a selected one. */
  function MaxSim(sim: seq<Vec>, c: nat, selected: seq<nat>): real
    requires Square(sim, |sim|) && c < |sim| && selected != []
    requires forall i :: 0 <= i < |selected| ==> selected[i] < |sim|
  {
    var n := |selected| - 1;
    var last := sim[c][selected[n]];
    if n == 0 then last
    else
      var before := MaxSim(sim, c, selected[..n]);
      if before >= last then before else last
  }

  /** An item's marginal relevance: its relevance against its likeness to what is already selected. */
  function Score(rel: Vec, sim: seq<Vec>, mix: real, c: nat, selected: seq<nat>): real
    requires Square(sim, |rel|) && c < |rel|
    requires forall i :: 0 <= i < |selected| ==> selected[i] < |rel|
  {
    if selected == [] then rel[c] else mix * rel[c] - (1.0 - mix) * MaxSim(sim, c, selected)
  }

  ghost predicate InUnitInterval(v: Vec) {
    forall i :: 0 <= i < |v| ==> 0.0 <= v[i] <= 1.0
  }

  lemma {:induction false} MaxSimBounds(sim: seq<Vec>, c: nat, selected: seq<nat>)
    requires Square(sim, |sim|) && c < |sim| && selected != []
    requires forall i :: 0 <= i < |selected| ==> selected[i] < |sim|
    ensures exists i :: 0 <= i < |selected| && MaxSim(sim, c, selected) == sim[c][selected[i]]
    ensures forall i :: 0 <= i < |selected| ==> sim[c][selected[i]] <= MaxSim(sim, c, selected)
    decreases |selected|
  {
    var n := |selected| - 1;
    if n == 0 {
      assert MaxSim(sim, c, selected) == sim[c][selected[0]];
    } else {
      MaxSimBounds(sim, c, selected[..n]);
      forall i | 0 <= i < |selected| ensures sim[c][selected[i]] <= MaxSim(sim, c, selected) {
        assert i < n ==> selected[i] == selected[..n][i];
      }
      var k :| 0 <= k < n && MaxSim(sim, c, selected[..n]) == sim[c][selected[..n][k]];
      assert MaxSim(sim, c, selected) == sim[c][selected[k]] || MaxSim(sim, c, selected) == sim[c][selected[n]];
    }
  }

  /** With scores in [0, 1], every marginal relevance lies between -(1 - mix) and mix. */
  lemma ScoreBounds(rel: Vec, sim: seq<Vec>, mix: real, c: nat, selected: seq<nat>)
    requires 0.0 <= mix <= 1.0 && Square(sim, |rel|) && c < |rel| && selected != []
    requires forall i :: 0 <= i < |selected| ==> selected[i] < |rel|
    requires InUnitInterval(rel) && forall i :: 0 <= i < |sim| ==> InUnitInterval(sim[i])
    ensures -(1.0 - mix) <= Score(rel, sim, mix, c, selected) <= mix
  {
    MaxSimBounds(sim, c, selected);
    var r, s := rel[c], MaxSim(sim, c, selected);
    assert 0.0 <= s <= 1.0;
    MulNonNegative(mix, r);
    MulNonNegative(mix, 1.0 - r);
    MulNonNegative(1.0 - mix, s);
    MulNonNegative(1.0 - mix, 1.0 - s);
    assert mix * (1.0 - r) == mix - mix * r;
    assert (1.0 - mix) * (1.0 - s) == (1.0 - mix) - (1.0 - mix) * s;
  }

  /** Marginal relevance mixes two scores: relevance alone, and likeness to the selected items counted against it. */
  lemma ScoreIsMixture(rel: Vec, sim: seq<Vec>, mix: real, c: nat, selected: seq<nat>)
    requires Square(sim, |rel|) && c < |rel| && selected != []
    requires forall i :: 0 <= i < |selected| ==> selected[i] < |rel|
    ensures Score(rel, sim, 1.0, c, selected) == rel[c]
    ensures Score(rel, sim, 0.0, c, selected) == -MaxSim(sim, c, selected)
    ensures Score(rel, sim, mix, c, selected)
      == mix * Score(rel, sim, 1.0, c, selected) + (1.0 - mix) * Score(rel, sim, 0.0, c, selected)
  {
    var r, s := rel[c], MaxSim(sim, c, selected);
    assert (1.0 - mix) * (-s) == -((1.0 - mix) * s);
  }

  /** Of two equally relevant items the one that is less like every selected item than the other is like some wins. */
  lemma FresherWins(rel: Vec, sim: seq<Vec>, mix: real, c: nat, d: nat, selected: seq<nat>, k: nat)
    requires 0.0 <= mix < 1.0 && Square(sim, |rel|) && c < |rel| && d < |rel| && k < |selected|
    requires forall i :: 0 <= i < |selected| ==> selected[i] < |rel|
    requires rel[c] == rel[d]
    requires forall i :: 0 <= i < |selected| ==> sim[c][selected[i]] < sim[d][selected[k]]
    ensures Score(rel, sim, mix, c, selected) > Score(rel, sim, mix, d, selected)
  {
    hide MaxSim;
    MaxSimBounds(sim, c, selected);
    MaxSimBounds(sim, d, selected);
    MixtureFalls(mix, rel[c], MaxSim(sim, c, selected), MaxSim(sim, d, selected));
  }

  lemma MixtureFalls(mix: real, relevance: real, a: real, b: real)
    requires mix < 1.0 && a < b
    ensures mix * relevance - (1.0 - mix) * a > mix * relevance - (1.0 - mix) * b
  {
    ProductPositive(1.0 - mix, b - a);
    assert Product(1.0 - mix, b - a) == (1.0 - mix) * b - (1.0 - mix) * a;
  }

  /** `c` has the best score of all items not selected, and the lowest index among those that share it. */
  ghost predicate IsBest(rel: Vec, sim: seq<Vec>, mix: real, c: nat, selected: seq<nat>)
    requires Square(sim, |rel|)
    requires forall i :: 0 <= i < |selected| ==> selected[i] < |rel|
  {
    && c < |rel| && c !in selected
    && forall d :: 0 <= d < |rel| && d !in selected ==>
         var sd, sc := Score(rel, sim, mix, d, selected), Score(rel, sim, mix, c, selected);
         sd < sc || (sd == sc && c <= d)
  }

  /** Each item of `selected` was the best choice after the ones before it. */
  ghost predicate Greedy(rel: Vec, sim: seq<Vec>, mix: real, selected: seq<nat>)
    requires Square(sim, |rel|)
  {
    && (forall i :: 0 <= i < |selected| ==> selected[i] < |rel|)
    && forall p :: 0 <= p < |selected| ==> IsBest(rel, sim, mix, selected[p], selected[..p])
  }

  /** Items of a greedy selection are distinct. */
  lemma GreedyIsDistinct(rel: Vec, sim: seq<Vec>, mix: real, selected: seq<nat>)
    requires Square(sim, |rel|) && Greedy(rel, sim, mix, selected)
    ensures Distinct(selected)
  {
    forall i, j | 0 <= i < j < |selected| ensures selected[i] != selected[j] {
      assert IsBest(rel, sim, mix, selected[j], selected[..j]);
      assert selected[..j][i] == selected[i];
    }
  }

  /** A greedy selection is determined by its length: a shorter one is a prefix of a longer one. */
  lemma BestAt(rel: Vec, sim: seq<Vec>, mix: real, selected: seq<nat>, n: nat)
    requires Square(sim, |rel|) && n < |selected| && Greedy(rel, sim, mix, selected)
    ensures forall i :: 0 <= i < |selected| ==> selected[i] < |rel|
    ensures IsBest(rel, sim, mix, selected[n], selected[..n])
  {
    hide IsBest;
  }

  lemma BestIsUnique(rel: Vec, sim: seq<Vec>, mix: real, c: nat, d: nat, selected: seq<nat>)
    requires Square(sim, |rel|) && forall i :: 0 <= i < |selected| ==> selected[i] < |rel|
    requires IsBest(rel, sim, mix, c, selected) && IsBest(rel, sim, mix, d, selected)
    ensures c == d
  {
    hide Score;
  }

  lemma {:induction false} GreedyIsPrefix(rel: Vec, sim: seq<Vec>, mix: real, short: seq<nat>, long: seq<nat>)
    requires Square(sim, |rel|) && |short| <= |long|
    requires Greedy(rel, sim, mix, short) && Greedy(rel, sim, mix, long)
    ensures short == long[..|short|]
    decreases |short|
  {
    hide IsBest, Greedy, Score, Square;
    if short != [] {
      var n := |short| - 1;
      GreedyFront(rel, sim, mix, short);
      GreedyIsPrefix(rel, sim, mix, short[..n], long);
      assert short[..n] == long[..n];
      BestAt(rel, sim, mix, short, n);
      BestAt(rel, sim, mix, long, n);
      BestIsUnique(rel, sim, mix, short[n], long[n], short[..n]);
      assert short == short[..n] + [short[n]] && long[..n + 1] == long[..n] + [long[n]];
    }
  }

  lemma GreedyFront(rel: Vec, sim: seq<Vec>, mix: real, selected: seq<nat>)
    requires Square(sim, |rel|) && selected != [] && Greedy(rel, sim, mix, selected)
    ensures Greedy(rel, sim, mix, selected[..|selected| - 1])
  {
    var n := |selected| - 1;
    forall p | 0 <= p < n ensures IsBest(rel, sim, mix, selected[..n][p], selected[..n][..p]) {
      assert selected[..n][..p] == selected[..p];
    }
  }

  /** The stable descending order by relevance: higher first, and lower index first among equals. */
  ghost predicate Before(rel: Vec, a: nat, b: nat)
    requires a < |rel| && b < |rel|
  {
    rel[a] > rel[b] || (rel[a] == rel[b] && a < b)
  }

  /** With weight one on relevance, diversity plays no part: the selection is the start of the stable sort. */
  lemma PureRelevanceIsSorted(rel: Vec, sim: seq<Vec>, selected: seq<nat>)
    requires Square(sim, |rel|) && Greedy(rel, sim, 1.0, selected)
    ensures forall p, q :: 0 <= p < q < |selected| ==> Before(rel, selected[p], selected[q])
    ensures forall p, d :: 0 <= p < |selected| && 0 <= d < |rel| && d !in selected ==> Before(rel, selected[p], d)
  {
    forall p, d | 0 <= p < |selected| && 0 <= d < |rel| && d !in selected[..p] && d != selected[p]
      ensures Before(rel, selected[p], d)
    {
      assert IsBest(rel, sim, 1.0, selected[p], selected[..p]);
    }
    GreedyIsDistinct(rel, sim, 1.0, selected);
    forall p, q | 0 <= p < q < |selected| ensures Before(rel, selected[p], selected[q]) {
      assert selected[q] !in selected[..p];
    }
    forall p, d | 0 <= p < |selected| && 0 <= d < |rel| && d !in selected
      ensures Before(rel, selected[p], d)
    {
      assert d !in selected[..p] && d != selected[p];
    }
  }

  ghost predicate NotBetter(
      rel: Vec, sim: seq<Vec>, mix: real, d: nat, best: nat, bestScore: Option<real>, selected: seq<nat>)
    requires Square(sim, |rel|) && d < |rel|
    requires forall i :: 0 <= i < |selected| ==> selected[i] < |rel|
  {
    var sd := Score(rel, sim, mix, d, selected);
    bestScore.Some? && (sd < bestScore.value || (sd == bestScore.value && best <= d))
  }

  /** The candidate loop of one round: the first of the best-scoring candidates, in index order. */
  method PickBest(rel: Vec, sim: seq<Vec>, mix: real, candidates: seq<nat>, selected: seq<nat>) returns (best: nat)
    requires Square(sim, |rel|) && candidates != []
    requires forall i :: 0 <= i < |selected| ==> selected[i] < |rel|
    requires forall d :: d in candidates <==> 0 <= d < |rel| && d !in selected
    requires forall i, j :: 0 <= i < j < |candidates| ==> candidates[i] < candidates[j]
    ensures IsBest(rel, sim, mix, best, selected)
  {
    var bestScore: Option<real> := None;
    best := 0;
    for i := 0 to |candidates|
      invariant bestScore.Some? <==> i > 0
      invariant i > 0 ==> best in candidates[..i] && best < |rel|
      invariant i > 0 ==> bestScore.value == Score(rel, sim, mix, best, selected)
      invariant forall j :: 0 <= j < i ==> 
        candidates[j] < |rel| && NotBetter(rel, sim, mix, candidates[j], best, bestScore, selected)
    {
      var c := candidates[i];
      assert c in candidates;
      var score := Score(rel, sim, mix, c, selected);
      if bestScore.None? || score > bestScore.value {
        bestScore, best := Some(score), c;
      }
    }
    assert best in candidates;
    forall d | 0 <= d < |rel| && d !in selected
      ensures var sd, sc := Score(rel, sim, mix, d, selected), Score(rel, sim, mix, best, selected);
        sd < sc || (sd == sc && best <= d)
    {
      assert d in candidates;
      var j :| 0 <= j < |candidates| && candidates[j] == d;
      assert NotBetter(rel, sim, mix, candidates[j], best, bestScore, selected);
    }
  }

  /** The list without item `x`, in order. */
  function Without(s: seq<nat>, x: nat): seq<nat> {
    if s == [] then []
    else if s[0] == x then Without(s[1..], x)
    else [s[0]] + Without(s[1..], x)
  }

  lemma {:induction false} WithoutKeeps(s: seq<nat>, x: nat)
    requires forall i, j :: 0 <= i < j < |s| ==> s[i] < s[j]
    ensures forall d :: d in Without(s, x) <==> d in s && d != x
    ensures forall i, j :: 0 <= i < j < |Without(s, x)| ==> Without(s, x)[i] < Without(s, x)[j]
  {
    if s != [] {
      WithoutKeeps(s[1..], x);
      var r := Without(s[1..], x);
      forall d ensures d in Without(s, x) <==> d in s && d != x {
        assert d in s <==> d == s[0] || d in s[1..];
      }
      if s[0] != x {
        forall j | 0 <= j < |r| ensures s[0] < r[j] {
          assert r[j] in s[1..];
        }
      }
    }
  }

  /** How many items a request for `topK` of `n` asks for; no number and zero both mean all. */
  function Wanted(topK: Option<int>, n: nat): int {
    var k := if topK.Some? && topK.value != 0 then topK.value else n;
    if k < n then k else n
  }

  /**
   Selection by marginal relevance. At least one item is selected, so a negative request gives
   one; otherwise exactly as many as wanted, each the best choice after the ones before it.
   */
  method SelectDiverse(rel: Vec, sim: seq<Vec>, mix: real, topK: Option<int>) returns (selected: seq<nat>)
    requires |rel| >= 1 && Square(sim, |rel|)
    ensures Greedy(rel, sim, mix, selected)
    ensures |selected| == if Wanted(topK, |rel|) < 1 then 1 else Wanted(topK, |rel|)
  {
    var k := Wanted(topK, |rel|);
    var candidates: seq<nat> := seq(|rel|, i requires 0 <= i < |rel| => i);
    assert forall d: nat :: d in candidates <==> 0 <= d < |rel| by {
      forall d: nat | d < |rel| ensures d in candidates {
        assert candidates[d] == d;
      }
    }
    var first := PickBest(rel, sim, mix, candidates, []);
    selected := [first];
    WithoutKeeps(candidates, first);
    candidates := Without(candidates, first);
    GreedyNext(rel, sim, mix, [], first);
    while |selected| < k && candidates != []
      invariant Greedy(rel, sim, mix, selected) && selected != []
      invariant |selected| <= if k < 1 then 1 else k
      invariant forall d: nat :: d in candidates <==> 0 <= d < |rel| && d !in selected
      invariant forall i, j :: 0 <= i < j < |candidates| ==> candidates[i] < candidates[j]
      decreases k - |selected|
    {
      var best := PickBest(rel, sim, mix, candidates, selected);
      GreedyNext(rel, sim, mix, selected, best);
      WithoutKeeps(candidates, best);
      selected, candidates := selected + [best], Without(candidates, best);
    }
    if |selected| < k {
      GreedyIsDistinct(rel, sim, mix, selected);
      AllSelected(selected, |rel|);
    }
  }

  lemma GreedyNext(rel: Vec, sim: seq<Vec>, mix: real, selected: seq<nat>, best: nat)
    requires Square(sim, |rel|) && Greedy(rel, sim, mix, selected) && IsBest(rel, sim, mix, best, selected)
    ensures Greedy(rel, sim, mix, selected + [best])
  {
    var all := selected + [best];
    forall p | 0 <= p < |all| ensures IsBest(rel, sim, mix, all[p], all[..p]) {
      assert all[..p] == selected[..p];
      if p == |selected| {
        assert selected[..p] == selected;
      }
    }
  }

  /** A list that holds every number below `n` has at least `n` entries. */
  lemma {:induction false} AllSelected(s: seq<nat>, n: nat)
    requires forall d: nat :: d < n ==> d in s
    ensures |s| >= n
    decreases n
  {
    if n > 0 {
      var last: nat := n - 1;
      assert last in s;
      var i :| 0 <= i < |s| && s[i] == last;
      var rest := s[..i] + s[i + 1..];
      forall d: nat | d < n - 1 ensures d in rest {
        assert d in s;
        var j :| 0 <= j < |s| && s[j] == d;
        assert rest[if j < i then j else j - 1] == d;
      }
      AllSelected(rest, n - 1);
    }
  }

  // ---------- The plain branch, and ranking as a whole ----------

  /** `order` lists all items by descending relevance; equal ones may come in any order. */
  ghost predicate Descending(rel: Vec, order: seq<nat>) {
    && |order| == |rel| && Distinct(order)
    && (forall i :: 0 <= i < |order| ==> order[i] < |rel|)
    && forall i, j :: 0 <= i < j < |order| ==> rel[order[i]] >= rel[order[j]]
  }

  /** The slice up to `k`, where a negative `k` counts from the end. */
  function FirstOf(s: seq<nat>, k: int): seq<nat> {
    if k >= |s| then s
    else if k >= 0 then s[..k]
    else if |s| + k >= 0 then s[..|s| + k]
    else []
  }

  /** Scores of texts `1..` of the corpus against text `d`, in order. */
  ghost predicate ScoresOf(scores: Vec, vectors: seq<Vec>, d: nat) {
    && d < |vectors| && |scores| == |vectors| - 1
    && forall i :: 0 <= i < |scores| ==>
         |vectors[i + 1]| == |vectors[d]| && scores[i] == Dot(vectors[i + 1], vectors[d])
  }

  /** Each score is in [0, 1], and positive exactly when the two texts share a token. */
  lemma ScoresMean(
      scores: Vec, vectors: seq<Vec>, d: nat, corpus: seq<seq<Token>>, vocab: map<Token, nat>, names: seq<Token>)
    requires ScoresOf(scores, vectors, d) && |vectors| == |corpus|
    requires Columns(vocab, names) && Covers(vocab, corpus)
    requires forall e :: 0 <= e < |corpus| ==> VectorOf(vectors[e], corpus[e], names)
    ensures |scores| == |vectors| - 1 && InUnitInterval(scores)
    ensures forall i :: 0 <= i < |scores| ==> (scores[i] > 0.0 <==> Shares(corpus[i + 1], corpus[d]))
  {
    hide VectorOf, Columns, Shares, Dot;
    forall i | 0 <= i < |scores|
      ensures 0.0 <= scores[i] <= 1.0 && (scores[i] > 0.0 <==> Shares(corpus[i + 1], corpus[d]))
    {
      ScoreMeaning(vectors[i + 1], vectors[d], corpus[i + 1], corpus[d], vocab, names);
    }
  }

  method ScoresAgainst(vectors: seq<Vec>, d: nat) returns (scores: Vec)
    requires d < |vectors| && forall e :: 0 <= e < |vectors| ==> |vectors[e]| == |vectors[d]|
    ensures ScoresOf(scores, vectors, d)
  {
    scores := [];
    for i := 0 to |vectors| - 1
      invariant |scores| == i && forall j :: 0 <= j < i ==> scores[j] == Dot(vectors[j + 1], vectors[d])
    {
      scores := scores + [Dot(vectors[i + 1], vectors[d])];
    }
  }

  /** What `rank` selects from its score tables; `order` lists items by descending relevance. */
  ghost predicate Selects(
      rel: Vec, sim: seq<Vec>, mix: real, topK: Option<int>, useMmr: bool, order: seq<nat>, selected: seq<nat>)
    requires Square(sim, |rel|)
  {
    if rel == [] then selected == []
    else if !useMmr || |rel| == 1 then selected == FirstOf(order, Wanted(topK, |rel|))
    else
      && Greedy(rel, sim, mix, selected)
      && |selected| == if Wanted(topK, |rel|) < 1 then 1 else Wanted(topK, |rel|)
  }

  ghost function Indices(n: nat): (s: set<nat>)
    ensures |s| == n && forall d: nat :: d in s <==> d < n
  {
    if n == 0 then {} else Indices(n - 1) + {n - 1}
  }

  /**
   How many items are selected. None or zero stands for all. Without diversity a negative number drops
   that many from the end, as a Python slice does; with it at least one is selected.
   */
  lemma HowManyAreSelected(
      rel: Vec, sim: seq<Vec>, mix: real, topK: Option<int>, useMmr: bool, order: seq<nat>, selected: seq<nat>)
    requires rel != [] && |order| == |rel| && Square(sim, |rel|)
    requires Selects(rel, sim, mix, topK, useMmr, order, selected)
    ensures topK in {None, Some(0)} ==> |selected| == |rel|
    ensures topK.Some? && topK.value > 0 ==> |selected| == if topK.value < |rel| then topK.value else |rel|
    ensures topK.Some? && topK.value < 0 ==>
      |selected| == if useMmr && |rel| > 1 then 1 else if |rel| + topK.value > 0 then |rel| + topK.value else 0
  {
    hide Greedy, Square;
  }

  /** An order of distinct items, as many as there are, lists every item. */
  lemma OrderListsAll(rel: Vec, order: seq<nat>, d: nat)
    requires Descending(rel, order) && d < |rel|
    ensures d in order
  {
    DistinctSize(order);
    var all := Indices(|rel|);
    var listed := Members(order);
    if listed != all {
      StrictSubsetSize(listed, all);
      assert false;
    }
    assert d in all;
  }

  /** Without diversity the selected documents are the most relevant ones, highest first. */
  lemma PlainSelectsHighest(rel: Vec, sim: seq<Vec>, mix: real, topK: Option<int>, order: seq<nat>, selected: seq<nat>)
    requires Square(sim, |rel|) && Descending(rel, order)
    requires Selects(rel, sim, mix, topK, false, order, selected)
    ensures selected <= order && Distinct(selected)
    ensures forall p, d :: 0 <= p < |selected| && 0 <= d < |rel| && d !in selected ==> rel[selected[p]] >= rel[d]
  {
    hide Members, Indices, Square;
    forall p, d | 0 <= p < |selected| && 0 <= d < |rel| && d !in selected ensures rel[selected[p]] >= rel[d] {
      OrderListsAll(rel, order, d);
      var q :| 0 <= q < |order| && order[q] == d;
    }
  }

  /**
   Ranks documents against a query. `order` stands for the library sort by descending relevance
   that is used when diversity is off or there is one document only.
   */
  method Rank(
      query: seq<Token>, docs: seq<seq<Token>>, m: Maths, mix: real, topK: Option<int>, useMmr: bool,
      order: Vec -> seq<nat>)
    returns (selected: seq<nat>, rel: Vec, sim: seq<Vec>)
    requires Lawful(m)
    ensures |rel| == |docs| && Square(sim, |rel|)
    ensures InUnitInterval(rel) && forall i :: 0 <= i < |sim| ==> InUnitInterval(sim[i])
    ensures forall i :: 0 <= i < |rel| ==> (rel[i] > 0.0 <==> Shares(docs[i], query))
    ensures docs != [] ==> TablesFor(query, docs, m, rel, sim)
    ensures Selects(rel, sim, mix, topK, useMmr, order(rel), selected)
  {
    hide FirstOf, InUnitInterval, Shares, Greedy, TablesFor;
    if docs == [] {
      NoScores();
      return [], [], [];
    }
    rel, sim := ScoreTables(query, docs, m);
    if !useMmr || |docs| <= 1 {
      selected := FirstOf(order(rel), Wanted(topK, |rel|));
    } else {
      selected := SelectDiverse(rel, sim, mix, topK);
    }
  }

  /** Relevance of each document to the query, and of each document to each other. */
  method ScoreTables(query: seq<Token>, docs: seq<seq<Token>>, m: Maths) returns (rel: Vec, sim: seq<Vec>)
    requires Lawful(m)
    ensures |rel| == |docs| && Square(sim, |rel|)
    ensures InUnitInterval(rel) && forall i :: 0 <= i < |sim| ==> InUnitInterval(sim[i])
    ensures forall i :: 0 <= i < |rel| ==> (rel[i] > 0.0 <==> Shares(docs[i], query))
    ensures TablesFor(query, docs, m, rel, sim)
  {
    hide InUnitInterval, Shares, VectorOf, Columns, Covers, TermVectors, ScoresOf;
    ghost var corpus := [query] + docs;
    ghost var vocab, names, rows, weights;
    var vectors;
    vectors, vocab, names, rows, weights := BuildVectors([query] + docs, m);
    TermVectorsMean(vectors, rows, weights, corpus, names, m);
    rel := ScoresAgainst(vectors, 0);
    ScoresMean(rel, vectors, 0, corpus, vocab, names);
    sim := [];
    for i := 0 to |rel|
      invariant |sim| == i
      invariant forall j :: 0 <= j < i ==>
        |sim[j]| == |rel| && InUnitInterval(sim[j]) && ScoresOf(sim[j], vectors, j + 1)
    {
      var row := ScoresAgainst(vectors, i + 1);
      ScoresMean(row, vectors, i + 1, corpus, vocab, names);
      sim := sim + [row];
    }
    assert forall i :: 0 <= i < |rel| ==> corpus[i + 1] == docs[i];
    assert TablesOf(rel, sim, vectors);
    assert ScoredBy(query, docs, m, rel, sim, vectors, rows, weights, names, vocab);
  }

  lemma NoScores()
    ensures InUnitInterval([])
  {
  }

  /** The tables are scores of the term vectors of the query and the documents, over all their tokens. */
  ghost predicate ScoredBy(
      query: seq<Token>, docs: seq<seq<Token>>, m: Maths, rel: Vec, sim: seq<Vec>,
      vectors: seq<Vec>, rows: seq<Vec>, weights: Vec, names: seq<Token>, vocab: map<Token, nat>)
  {
    && TermVectors(vectors, rows, weights, [query] + docs, names, m) && TablesOf(rel, sim, vectors)
    && Columns(vocab, names) && Covers(vocab, [query] + docs)
  }

  ghost predicate TablesFor(query: seq<Token>, docs: seq<seq<Token>>, m: Maths, rel: Vec, sim: seq<Vec>) {
    exists vectors, rows, weights, names, vocab ::
      ScoredBy(query, docs, m, rel, sim, vectors, rows, weights, names, vocab)
  }

  /** `rel` scores the documents against the query, and `sim` against each other. */
  ghost predicate TablesOf(rel: Vec, sim: seq<Vec>, vectors: seq<Vec>) {
    ScoresOf(rel, vectors, 0) && forall i :: 0 <= i < |sim| ==> ScoresOf(sim[i], vectors, i + 1)
  }
}
