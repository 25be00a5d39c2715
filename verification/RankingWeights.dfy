/**
 What the token weights do: rarer tokens weigh more, by the logarithm of how much rarer they are,
 and of two documents that each match the query in one token, the rarer match scores higher.
 */
module RankingWeights {
  import opened Ranking

  // ---------- Weights ----------

  lemma QuotientGrows(n: real, d: real, e: real)
    requires 0.0 < n && 0.0 < d < e
    ensures 0.0 < n / e < n / d
  {
    var p, q := n / d, n / e;
    PositiveQuotient(n, d);
    PositiveQuotient(n, e);
    ProductPositive(p, e - d);
    assert p * d == n && q * e == n && Product(p, e - d) == p * e - p * d;
    Cancel(p - q, e, Product(p, e - d));
  }

  lemma Cancel(x: real, e: real, y: real)
    requires e > 0.0 && x * e == y > 0.0
    ensures x > 0.0
  {
    PositiveQuotient(y, e);
    assert (x - y / e) * e == 0.0;
  }

  /** A token in fewer documents weighs strictly more. */
  lemma RarerWeighsMore(docs: seq<Vec>, j: nat, k: nat, m: Maths)
    requires Lawful(m) && (forall r :: r in docs ==> j < |r| && k < |r|)
    requires DocumentCount(docs, j) < DocumentCount(docs, k)
    ensures Idf(docs, j, m.ln) > Idf(docs, k, m.ln)
  {
    QuotientGrows(
      |docs| as real + 1.0, DocumentCount(docs, j) as real + 1.0, DocumentCount(docs, k) as real + 1.0);
  }

  /** A token in every document weighs exactly one. */
  lemma EverywhereWeighsOne(docs: seq<Vec>, j: nat, m: Maths)
    requires Lawful(m) && (forall r :: r in docs ==> j < |r|)
    ensures Idf(docs, j, m.ln) == 1.0 <==> DocumentCount(docs, j) == |docs|
  {
    LnOfRatio(|docs| as real + 1.0, DocumentCount(docs, j) as real + 1.0, m);
  }

  lemma LnOfRatio(n: real, d: real, m: Maths)
    requires Lawful(m) && 0.0 < d <= n
    ensures m.ln(n / d) == 0.0 <==> d == n
  {
    if d < n {
      QuotientGrows(n, d, n);
      assert n / n == 1.0;
    } else {
      assert n / d == 1.0;
    }
  }

  /** The weights of two tokens differ by the logarithm of the ratio of their document counts, each plus one. */
  lemma WeightsDifferByRatio(docs: seq<Vec>, j: nat, k: nat, m: Maths)
    requires Lawful(m) && (forall r :: r in docs ==> j < |r| && k < |r|)
    ensures Idf(docs, j, m.ln) - Idf(docs, k, m.ln)
      == m.ln((DocumentCount(docs, k) as real + 1.0) / (DocumentCount(docs, j) as real + 1.0))
  {
    hide DocumentCount, Lawful;
    LnChain(
      |docs| as real + 1.0, DocumentCount(docs, j) as real + 1.0, DocumentCount(docs, k) as real + 1.0, m);
  }

  lemma LnChain(n: real, d: real, e: real, m: Maths)
    requires Lawful(m) && 0.0 < n && 0.0 < d && 0.0 < e
    ensures m.ln(n / d) == m.ln(n / e) + m.ln(e / d)
  {
    hide Product;
    Chain(n, d, e);
    assert m.ln(Product(n / e, e / d)) == m.ln(n / e) + m.ln(e / d);
  }

  lemma Chain(n: real, d: real, e: real)
    requires 0.0 < n && 0.0 < d && 0.0 < e
    ensures 0.0 < n / e && 0.0 < e / d && Product(n / e, e / d) == n / d
  {
    PositiveQuotient(n, e);
    PositiveQuotient(e, d);
    var p, q, r := n / e, e / d, n / d;
    assert p * e == n && q * d == e && r * d == n;
    assert (p * q) * d == p * (q * d);
    assert (p * q - r) * d == 0.0;
  }

  lemma PositiveQuotient(a: real, b: real)
    requires 0.0 < a && 0.0 < b
    ensures 0.0 < a / b
  {
    assert (a / b) * b == a;
  }

  // ---------- Documents that hold a token ----------

  function Holding(docs: seq<seq<Token>>, token: Token): nat {
    if docs == [] then 0 else (if token in docs[0] then 1 else 0) + Holding(docs[1..], token)
  }

  /** The column count is the number of documents with the token. */
  lemma {:induction false} DocumentCountIs(rows: seq<Vec>, docs: seq<seq<Token>>, names: seq<Token>, j: nat)
    requires |rows| == |docs| && j < |names|
    requires forall d :: 0 <= d < |rows| ==> CountRow(rows[d], docs[d], names)
    ensures (forall r :: r in rows ==> j < |r|)
    ensures DocumentCount(rows, j) == Holding(docs, names[j])
  {
    forall r | r in rows ensures j < |r| {
      var d :| 0 <= d < |rows| && rows[d] == r;
      assert CountRow(rows[d], docs[d], names);
    }
    if rows != [] {
      assert CountRow(rows[0], docs[0], names);
      assert multiset(docs[0])[names[j]] > 0 <==> names[j] in docs[0];
      forall d | 0 <= d < |rows| - 1 ensures CountRow(rows[1..][d], docs[1..][d], names) {
        assert CountRow(rows[d + 1], docs[d + 1], names);
      }
      DocumentCountIs(rows[1..], docs[1..], names, j);
    }
  }

  // ---------- Vectors ----------

  lemma {:induction false} DivideAt(u: Vec, d: real, i: nat)
    requires d != 0.0 && i < |u|
    ensures Divide(u, d)[i] == u[i] / d
  {
    if i > 0 {
      DivideAt(u[1..], d, i - 1);
    }
  }

  lemma {:induction false} WeighAt(row: Vec, weights: Vec, i: nat)
    requires |row| == |weights| && i < |row|
    ensures Weigh(row, weights)[i] == Product(row[i], weights[i])
  {
    if i > 0 {
      WeighAt(row[1..], weights[1..], i - 1);
    }
  }

  /** Normalizing divides every entry by one positive number. */
  lemma NormalizeIsScaled(u: Vec, m: Maths) returns (d: real)
    requires Lawful(m) && NonNegative(u)
    ensures d > 0.0 && forall i :: 0 <= i < |u| ==> Normalize(u, m.root)[i] == u[i] / d
  {
    DotPositiveIff(u, u);
    RootOf(m, Dot(u, u));
    var n := m.root(Dot(u, u));
    d := if n == 0.0 then 1.0 else n;
    forall i | 0 <= i < |u| ensures Normalize(u, m.root)[i] == u[i] / d {
      DivideAt(u, d, i);
    }
  }

  lemma {:induction false} ZeroDot(v: Vec, u: Vec)
    requires |v| == |u| && forall i :: 0 <= i < |v| ==> v[i] == 0.0
    ensures Dot(v, u) == 0.0
  {
    if v != [] {
      ZeroDot(v[1..], u[1..]);
    }
  }

  lemma {:induction false} SingleDot(v: Vec, u: Vec, k: nat)
    requires |v| == |u| && k < |v| && forall i :: 0 <= i < |v| && i != k ==> v[i] == 0.0
    ensures Dot(v, u) == Product(v[k], u[k])
  {
    if k == 0 {
      ZeroDot(v[1..], u[1..]);
    } else {
      SingleDot(v[1..], u[1..], k - 1);
    }
  }

  lemma UnitSquare(x: real)
    requires x > 0.0 && (Product(x, x) == 0.0 || Product(x, x) == 1.0)
    ensures x == 1.0
  {
    ProductPositive(x, x);
    assert (x - 1.0) * (x + 1.0) == Product(x, x) - 1.0;
    if x < 1.0 {
      ProductPositive(1.0 - x, x + 1.0);
    } else if x > 1.0 {
      ProductPositive(x - 1.0, x + 1.0);
    }
  }

  /** A text of one token, however often, has the vector that is one at its column. */
  lemma SingleToken(v: Vec, u: Vec, tokens: seq<Token>, names: seq<Token>, vocab: map<Token, nat>, x: Token)
    requires Columns(vocab, names) && VectorOf(v, tokens, names) && |u| == |v| && x in vocab
    requires tokens != [] && forall t :: t in tokens ==> t == x
    ensures vocab[x] < |u| && Dot(v, u) == u[vocab[x]]
  {
    var k := vocab[x];
    assert tokens[0] in tokens;
    assert v[k] > 0.0;
    forall i | 0 <= i < |v| && i != k ensures v[i] == 0.0 {
      assert names[i] != names[k];
    }
    SingleDot(v, v, k);
    SingleDot(v, u, k);
    UnitSquare(v[k]);
  }

  lemma SmallerShare(a: real, b: real, d: real)
    requires d > 0.0
    ensures a / d > b / d <==> a > b
  {
    var p, q := a / d, b / d;
    assert p * d == a && q * d == b;
    if p > q {
      ProductPositive(p - q, d);
      assert Product(p - q, d) == p * d - q * d;
    } else if p < q {
      ProductPositive(q - p, d);
      assert Product(q - p, d) == q * d - p * d;
    }
  }

  lemma ScaledOrder(c: real, a: real, b: real)
    requires c > 0.0
    ensures Product(c, a) > Product(c, b) <==> a > b
  {
    if a > b {
      ProductPositive(c, a - b);
      assert Product(c, a - b) == Product(c, a) - Product(c, b);
    } else if a < b {
      ProductPositive(c, b - a);
      assert Product(c, b - a) == Product(c, b) - Product(c, a);
    }
  }

  // ---------- Scores ----------

  /** The weight of a token in the score tables, told from the documents. */
  lemma WeightOrder(
      docs: seq<seq<Token>>, rows: seq<Vec>, weights: Vec, names: seq<Token>, m: Maths, j: nat, k: nat)
    requires Lawful(m) && |rows| == |docs| && j < |names| && k < |names| == |weights|
    requires forall d :: 0 <= d < |rows| ==> CountRow(rows[d], docs[d], names)
    requires Weighs(rows, weights, j, m) && Weighs(rows, weights, k, m)
    ensures weights[j] > weights[k] <==> Holding(docs, names[j]) < Holding(docs, names[k])
  {
    hide Lawful, Idf, CountRow, Holding, DocumentCount;
    DocumentCountIs(rows, docs, names, j);
    DocumentCountIs(rows, docs, names, k);
    if DocumentCount(rows, j) < DocumentCount(rows, k) {
      RarerWeighsMore(rows, j, k, m);
    } else if DocumentCount(rows, k) < DocumentCount(rows, j) {
      RarerWeighsMore(rows, k, j, m);
    } else {
      WeightsDifferByRatio(rows, j, k, m);
      SameCountSameWeight(rows, j, k, m);
    }
  }

  lemma SameCountSameWeight(rows: seq<Vec>, j: nat, k: nat, m: Maths)
    requires forall r :: r in rows ==> j < |r| && k < |r|
    requires DocumentCount(rows, j) == DocumentCount(rows, k)
    ensures Idf(rows, j, m.ln) == Idf(rows, k, m.ln)
  {
  }

  /** The column of a query token holds its count times its weight, scaled alike for all columns. */
  lemma QueryOrder(row: Vec, weights: Vec, tokens: seq<Token>, names: seq<Token>, m: Maths, j: nat, k: nat)
    requires Lawful(m) && CountRow(row, tokens, names) && |weights| == |names| && j < |names| && k < |names|
    requires NonNegative(Weigh(row, weights))
    requires names[j] in tokens && multiset(tokens)[names[j]] == multiset(tokens)[names[k]]
    ensures var u := Normalize(Weigh(row, weights), m.root); u[j] > u[k] <==> weights[j] > weights[k]
  {
    hide Normalize, Weigh, NonNegative, Lawful;
    var d := NormalizeIsScaled(Weigh(row, weights), m);
    WeighAt(row, weights, j);
    WeighAt(row, weights, k);
    assert multiset(tokens)[names[j]] > 0;
    ScaledOrder(row[j], weights[j], weights[k]);
    SmallerShare(Weigh(row, weights)[j], Weigh(row, weights)[k], d);
  }

  ghost predicate Weighs(rows: seq<Vec>, weights: Vec, i: nat, m: Maths)
    requires i < |weights|
  {
    (forall r :: r in rows ==> i < |r|) && weights[i] == Idf(rows, i, m.ln) >= 1.0
  }

  lemma RowsAfterQuery(
      rel: Vec, sim: seq<Vec>, query: seq<Token>, docs: seq<seq<Token>>, m: Maths,
      vectors: seq<Vec>, rows: seq<Vec>, weights: Vec, names: seq<Token>, vocab: map<Token, nat>)
    requires Lawful(m) && ScoredBy(query, docs, m, rel, sim, vectors, rows, weights, names, vocab)
    ensures |rows| == |docs| + 1 && |weights| == |names|
    ensures forall d :: 0 <= d < |docs| ==> CountRow(rows[1..][d], docs[d], names)
    ensures forall i :: 0 <= i < |weights| ==> Weighs(rows[1..], weights, i, m)
  {
    hide Idf, CountRow, Lawful, Columns, Covers, TablesOf, Weighs, Normalize, Weigh;
    var corpus := [query] + docs;
    forall d | 0 <= d < |docs| ensures CountRow(rows[1..][d], docs[d], names) {
      assert CountRow(rows[d + 1], corpus[d + 1], names);
    }
    forall i | 0 <= i < |weights| ensures Weighs(rows[1..], weights, i, m) {
      WeightAt(rows, weights, corpus, names, m, vectors, i);
    }
  }

  lemma WeightAt(
      rows: seq<Vec>, weights: Vec, corpus: seq<seq<Token>>, names: seq<Token>, m: Maths, vectors: seq<Vec>, i: nat)
    requires Lawful(m) && TermVectors(vectors, rows, weights, corpus, names, m) && i < |weights|
    ensures Weighs(rows[1..], weights, i, m)
  {
    hide Idf, Lawful, Normalize, Weigh;
    IdfAtLeastOne(rows[1..], i, m);
  }

  /** The score of a document of one query token is the query's entry at its column. */
  lemma OneTokenScore(
      rel: Vec, sim: seq<Vec>, query: seq<Token>, docs: seq<seq<Token>>, m: Maths,
      vectors: seq<Vec>, rows: seq<Vec>, weights: Vec, names: seq<Token>, vocab: map<Token, nat>, i: nat, x: Token)
    requires Lawful(m) && ScoredBy(query, docs, m, rel, sim, vectors, rows, weights, names, vocab)
    requires i < |docs| && docs[i] != [] && (forall t :: t in docs[i] ==> t == x) && x in query
    ensures x in vocab && |rel| == |docs| && vocab[x] < |names| == |vectors[0]| && names[vocab[x]] == x
    ensures rel[i] == vectors[0][vocab[x]]
  {
    hide Lawful, Normalize, Weigh, Idf, Dot;
    var corpus := [query] + docs;
    TermVectorsMean(vectors, rows, weights, corpus, names, m);
    var q :| 0 <= q < |query| && query[q] == x;
    assert corpus[0][q] == x && corpus[i + 1] == docs[i];
    assert VectorOf(vectors[i + 1], corpus[i + 1], names);
    hide VectorOf;
    SingleToken(vectors[i + 1], vectors[0], docs[i], names, vocab, x);
  }

  /**
   In the tables of every ranking: of two documents that each consist of one token of the query, tokens
   the query has equally often, the one with the rarer token scores strictly higher, and only then.
   */
  lemma RarerMatchScoresHigher(
      query: seq<Token>, docs: seq<seq<Token>>, m: Maths, rel: Vec, sim: seq<Vec>,
      i: nat, j: nat, x: Token, y: Token)
    requires Lawful(m) && TablesFor(query, docs, m, rel, sim) && i < |docs| && j < |docs|
    requires docs[i] != [] && (forall t :: t in docs[i] ==> t == x)
    requires docs[j] != [] && (forall t :: t in docs[j] ==> t == y)
    requires x in query && multiset(query)[x] == multiset(query)[y]
    ensures |rel| == |docs| && (rel[i] > rel[j] <==> Holding(docs, x) < Holding(docs, y))
  {
    hide Lawful, Holding, Idf, ScoredBy, CountRow, Normalize, Weigh;
    var vectors, rows, weights, names, vocab :|
      ScoredBy(query, docs, m, rel, sim, vectors, rows, weights, names, vocab);
    assert multiset(query)[x] > 0 && y in query;
    OneTokenScore(rel, sim, query, docs, m, vectors, rows, weights, names, vocab, i, x);
    OneTokenScore(rel, sim, query, docs, m, vectors, rows, weights, names, vocab, j, y);
    RowsAfterQuery(rel, sim, query, docs, m, vectors, rows, weights, names, vocab);
    WeightOrder(docs, rows[1..], weights, names, m, vocab[x], vocab[y]);
    forall c | 0 <= c < |weights| ensures weights[c] >= 1.0 {
      assert Weighs(rows[1..], weights, c, m);
    }
    QueryVector(rel, sim, query, docs, m, vectors, rows, weights, names, vocab);
    QueryOrder(rows[0], weights, query, names, m, vocab[x], vocab[y]);
  }

  lemma QueryVector(
      rel: Vec, sim: seq<Vec>, query: seq<Token>, docs: seq<seq<Token>>, m: Maths,
      vectors: seq<Vec>, rows: seq<Vec>, weights: Vec, names: seq<Token>, vocab: map<Token, nat>)
    requires ScoredBy(query, docs, m, rel, sim, vectors, rows, weights, names, vocab)
    requires forall i :: 0 <= i < |weights| ==> weights[i] >= 1.0
    ensures |rows| >= 1 && |weights| == |names| && CountRow(rows[0], query, names)
    ensures |rows[0]| == |weights| && NonNegative(Weigh(rows[0], weights))
    ensures |vectors| >= 1 && vectors[0] == Normalize(Weigh(rows[0], weights), m.root)
  {
    hide Idf, Normalize, Weigh;
    assert ([query] + docs)[0] == query;
    WeighSigns(rows[0], weights);
  }
}
