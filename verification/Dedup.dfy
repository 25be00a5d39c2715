/**
 Removal of near duplicates from a prompt's items. `near(x, y)` says that the similarity ratio
 of `x` to an accepted `y` reaches the threshold; nothing is assumed about it unless stated.

 The loops are compared with `Selection`, which says which positions are kept without saying
 how they are found, and which determines them.
 */
module Dedup {
  import opened Pigeonhole
  import opened Text

  type Near = (string, string) -> bool

  /** The items without surrounding white space. */
  function Clean(items: seq<string>): (r: seq<string>)
    ensures |r| == |items| && forall i :: 0 <= i < |items| ==> r[i] == Strip(items[i])
  {
    seq(|items|, i requires 0 <= i < |items| => Strip(items[i]))
  }

  predicate NearAny(near: Near, x: string, kept: seq<string>) {
    exists i :: 0 <= i < |kept| && near(x, kept[i])
  }

  /** The texts kept, in order: each that is not blank and not near one kept before it. */
  ghost function Unique(near: Near, texts: seq<string>): seq<string> {
    if texts == [] then []
    else
      var n := |texts| - 1;
      var kept := Unique(near, texts[..n]);
      if texts[n] == "" || NearAny(near, texts[n], kept) then kept else kept + [texts[n]]
  }

  lemma UniqueNext(near: Near, texts: seq<string>, x: string)
    ensures Unique(near, texts + [x]) == if x == "" || NearAny(near, x, Unique(near, texts))
      then Unique(near, texts) else Unique(near, texts) + [x]
  {
    assert (texts + [x])[..|texts|] == texts;
  }

  // ---------- Which positions are kept ----------

  ghost predicate Increasing(at: seq<nat>) {
    forall i, j :: 0 <= i < j < |at| ==> at[i] < at[j]
  }

  ghost predicate Below(at: seq<nat>, n: nat) {
    forall i :: 0 <= i < |at| ==> at[i] < n
  }

  ghost predicate Chosen(near: Near, texts: seq<string>, at: seq<nat>, p: nat)
    requires p < |texts|
  {
    texts[p] != "" && forall q :: q in at && q < p ==> !near(texts[p], texts[q])
  }

  /** Position `p` is in `at` exactly when its text is not blank and not near an earlier one in `at`. */
  ghost predicate Selection(near: Near, texts: seq<string>, at: seq<nat>) {
    && Increasing(at) && Below(at, |texts|)
    && forall p: nat :: p < |texts| ==> (p in at <==> Chosen(near, texts, at, p))
  }

  ghost function At(texts: seq<string>, at: seq<nat>): (r: seq<string>)
    requires Below(at, |texts|)
    ensures |r| == |at| && forall i :: 0 <= i < |at| ==> r[i] == texts[at[i]]
  {
    seq(|at|, i requires 0 <= i < |at| => texts[at[i]])
  }

  lemma AtNext(texts: seq<string>, x: string, at: seq<nat>)
    requires Below(at, |texts|)
    ensures At(texts + [x], at) == At(texts, at)
    ensures At(texts + [x], at + [|texts|]) == At(texts, at) + [x]
  {
  }

  /** The last text is chosen exactly when the loop accepts it. */
  lemma LastIsChosen(near: Near, texts: seq<string>, x: string, at: seq<nat>)
    requires Below(at, |texts|)
    ensures Chosen(near, texts + [x], at, |texts|) <==> x != "" && !NearAny(near, x, At(texts, at))
  {
    if q :| q in at && near(x, (texts + [x])[q]) {
      var i :| 0 <= i < |at| && at[i] == q;
      assert At(texts, at)[i] == texts[q];
    }
    if i :| 0 <= i < |at| && near(x, At(texts, at)[i]) {
      assert at[i] in at;
    }
  }

  lemma ChosenStays(near: Near, texts: seq<string>, x: string, at: seq<nat>, more: seq<nat>, p: nat)
    requires Below(at, |texts|) && p < |texts| && forall q :: q in more ==> q >= |texts|
    ensures Chosen(near, texts + [x], at + more, p) <==> Chosen(near, texts, at, p)
  {
    forall q ensures q in at + more && q < p <==> q in at && q < p {
    }
  }

  lemma SelectionNext(near: Near, texts: seq<string>, x: string, at: seq<nat>)
    requires Selection(near, texts, at)
    ensures x != "" && !NearAny(near, x, At(texts, at)) ==> Selection(near, texts + [x], at + [|texts|])
    ensures x == "" || NearAny(near, x, At(texts, at)) ==> Selection(near, texts + [x], at)
  {
    var all, n := texts + [x], |texts|;
    LastIsChosen(near, texts, x, at);
    ChosenLast(near, all, at, n);
    forall p: nat, more | p < n && (more == [] || more == [n])
      ensures p in at + more <==> Chosen(near, all, at + more, p)
    {
      ChosenStays(near, texts, x, at, more, p);
    }
    hide Chosen, NearAny, At;
    assert at + [] == at;
    assert n !in at;
    if x != "" && !NearAny(near, x, At(texts, at)) {
      forall p: nat | p < |all| ensures p in at + [n] <==> Chosen(near, all, at + [n], p) {
      }
    } else {
      forall p: nat | p < |all| ensures p in at <==> Chosen(near, all, at, p) {
        assert p < n ==> (p in at + [] <==> Chosen(near, all, at + [], p));
      }
    }
  }

  lemma ChosenLast(near: Near, texts: seq<string>, at: seq<nat>, p: nat)
    requires p < |texts|
    ensures Chosen(near, texts, at + [p], p) <==> Chosen(near, texts, at, p)
  {
    forall q ensures q in at + [p] && q < p <==> q in at && q < p {
    }
  }

  /** The texts kept are those of a selection. */
  lemma {:induction false} UniqueIsSelection(near: Near, texts: seq<string>) returns (at: seq<nat>)
    ensures Selection(near, texts, at) && At(texts, at) == Unique(near, texts)
  {
    if texts == [] {
      at := [];
    } else {
      var n := |texts| - 1;
      assert texts == texts[..n] + [texts[n]];
      at := UniqueIsSelection(near, texts[..n]);
      SelectionNext(near, texts[..n], texts[n], at);
      AtNext(texts[..n], texts[n], at);
      hide Selection, At, NearAny;
      if texts[n] != "" && !NearAny(near, texts[n], At(texts[..n], at)) {
        at := at + [n];
      }
    }
  }

  lemma {:induction false} SelectionsAgree(near: Near, texts: seq<string>, a: seq<nat>, b: seq<nat>, n: nat)
    requires Selection(near, texts, a) && Selection(near, texts, b) && n <= |texts|
    ensures forall p: nat :: p < n ==> (p in a <==> p in b)
    decreases n
  {
    if n > 0 {
      SelectionsAgree(near, texts, a, b, n - 1);
      assert Chosen(near, texts, a, n - 1) <==> Chosen(near, texts, b, n - 1);
    }
  }

  lemma {:induction false} SameIncreasing(a: seq<nat>, b: seq<nat>)
    requires Increasing(a) && Increasing(b) && forall p :: p in a <==> p in b
    ensures a == b
    decreases |a|
  {
    DistinctSize(a);
    DistinctSize(b);
    assert Members(a) == Members(b);
    if a != [] {
      assert a[|a| - 1] in b;
      var n := |a| - 1;
      assert b[n] in a;
      assert a[n] == b[n];
      forall p ensures p in a[..n] <==> p in b[..n] {
        assert p in a <==> p in a[..n] || p == a[n];
        assert p in b <==> p in b[..n] || p == b[n];
      }
      SameIncreasing(a[..n], b[..n]);
    }
  }

  /** There is only one selection. */
  lemma SelectionIsUnique(near: Near, texts: seq<string>, a: seq<nat>, b: seq<nat>)
    requires Selection(near, texts, a) && Selection(near, texts, b)
    ensures a == b
  {
    SelectionsAgree(near, texts, a, b, |texts|);
    SameIncreasing(a, b);
  }

  /** Nothing is lost silently: a text that is not blank is kept, or near one kept before it. */
  lemma EveryTextIsCovered(near: Near, texts: seq<string>, at: seq<nat>, p: nat)
    requires Selection(near, texts, at) && p < |texts| && texts[p] != ""
    ensures p in at || exists q :: q in at && q < p && near(texts[p], texts[q])
  {
  }

  // ---------- What is kept ----------

  /** No text is blank or near an earlier one. */
  ghost predicate Spread(near: Near, kept: seq<string>) {
    && (forall i :: 0 <= i < |kept| ==> kept[i] != "")
    && forall i, j :: 0 <= i < j < |kept| ==> !near(kept[j], kept[i])
  }

  lemma {:induction false} UniqueIsSpread(near: Near, texts: seq<string>)
    ensures Spread(near, Unique(near, texts))
  {
    if texts != [] {
      UniqueIsSpread(near, texts[..|texts| - 1]);
    }
  }

  lemma {:induction false} SpreadIsKept(near: Near, kept: seq<string>)
    requires Spread(near, kept)
    ensures Unique(near, kept) == kept
  {
    if kept != [] {
      var n := |kept| - 1;
      SpreadIsKept(near, kept[..n]);
      assert kept == kept[..n] + [kept[n]];
    }
  }

  lemma {:induction false} UniqueKeepsStripped(near: Near, texts: seq<string>)
    requires forall i :: 0 <= i < |texts| ==> Stripped(texts[i])
    ensures forall i :: 0 <= i < |Unique(near, texts)| ==> Stripped(Unique(near, texts)[i])
  {
    if texts != [] {
      UniqueKeepsStripped(near, texts[..|texts| - 1]);
    }
  }

  /** Removing duplicates from the result changes nothing, whatever the similarity. */
  lemma DedupIdempotent(near: Near, items: seq<string>)
    ensures var once := Unique(near, Clean(items)); Unique(near, Clean(once)) == once
  {
    var once := Unique(near, Clean(items));
    forall i | 0 <= i < |items| ensures Stripped(Clean(items)[i]) {
      StripStrips(items[i]);
    }
    UniqueKeepsStripped(near, Clean(items));
    forall i | 0 <= i < |once| ensures Clean(once)[i] == once[i] {
      StripKeepsStripped(once[i]);
    }
    assert Clean(once) == once;
    UniqueIsSpread(near, Clean(items));
    SpreadIsKept(near, once);
  }

  /** Items added later never change what was kept before. */
  lemma {:induction false} UniqueIsStable(near: Near, texts: seq<string>, more: seq<string>)
    ensures Unique(near, texts) <= Unique(near, texts + more)
    decreases |more|
  {
    if more == [] {
      assert texts + more == texts;
    } else {
      var n := |more| - 1;
      assert texts + more == (texts + more[..n]) + [more[n]];
      UniqueIsStable(near, texts, more[..n]);
      UniqueNext(near, texts + more[..n], more[n]);
    }
  }

  ghost predicate Reflexive(near: Near) {
    forall x :: x != "" ==> near(x, x)
  }

  /** When equal texts are near, the kept texts are distinct. */
  lemma EqualTextsAreDropped(near: Near, texts: seq<string>)
    requires Reflexive(near)
    ensures Distinct(Unique(near, texts))
  {
    UniqueIsSpread(near, texts);
    var kept := Unique(near, texts);
    hide Unique;
    forall i, j | 0 <= i < j < |kept| ensures kept[i] != kept[j] {
      assert !near(kept[j], kept[i]) && near(kept[i], kept[i]);
    }
  }

  // ---------- Groups of repeated errors ----------

  datatype Group = Group(rep: string, count: nat)

  function Reps(groups: seq<Group>): (r: seq<string>)
    ensures |r| == |groups| && forall i :: 0 <= i < |r| ==> r[i] == groups[i].rep
  {
    seq(|groups|, i requires 0 <= i < |groups| => groups[i].rep)
  }

  /** The first of the texts that `x` is near to, or how many there are if none is. */
  ghost function FirstNear(near: Near, x: string, kept: seq<string>): (g: nat)
    ensures g <= |kept|
  {
    if kept == [] || near(x, kept[0]) then 0 else 1 + FirstNear(near, x, kept[1..])
  }

  lemma {:induction false} FirstNearIs(near: Near, x: string, kept: seq<string>, g: nat)
    requires g <= |kept| && (g < |kept| ==> near(x, kept[g]))
    requires forall i :: 0 <= i < g ==> !near(x, kept[i])
    ensures FirstNear(near, x, kept) == g
  {
    if g > 0 {
      FirstNearIs(near, x, kept[1..], g - 1);
    }
  }

  lemma {:induction false} FirstNearFinds(near: Near, x: string, kept: seq<string>)
    ensures var g := FirstNear(near, x, kept);
      && (g < |kept| ==> near(x, kept[g]))
      && (g < |kept| <==> NearAny(near, x, kept))
      && forall i :: 0 <= i < g ==> !near(x, kept[i])
  {
    if kept != [] && !near(x, kept[0]) {
      FirstNearFinds(near, x, kept[1..]);
      if i :| 0 <= i < |kept| && near(x, kept[i]) {
        assert kept[1..][i - 1] == kept[i];
      }
    }
  }

  /** Counts one more error: in the first group it is near to, or in a new one. */
  ghost function CountIn(near: Near, groups: seq<Group>, x: string): seq<Group> {
    var g := FirstNear(near, x, Reps(groups));
    if x == "" then groups
    else if g < |groups| then groups[g := groups[g].(count := groups[g].count + 1)]
    else groups + [Group(x, 1)]
  }

  ghost function Groups(near: Near, texts: seq<string>): seq<Group> {
    if texts == [] then [] else CountIn(near, Groups(near, texts[..|texts| - 1]), texts[|texts| - 1])
  }

  ghost function Total(groups: seq<Group>): nat {
    if groups == [] then 0 else Total(groups[..|groups| - 1]) + groups[|groups| - 1].count
  }

  lemma {:induction false} TotalBump(groups: seq<Group>, g: nat)
    requires g < |groups|
    ensures Total(groups[g := groups[g].(count := groups[g].count + 1)]) == Total(groups) + 1
  {
    var n := |groups| - 1;
    var bumped := groups[g := groups[g].(count := groups[g].count + 1)];
    if g < n {
      TotalBump(groups[..n], g);
      assert bumped[..n] == groups[..n][g := groups[g].(count := groups[g].count + 1)];
    } else {
      assert bumped[..n] == groups[..n];
    }
  }

  ghost function NonBlank(texts: seq<string>): nat {
    if texts == [] then 0
    else NonBlank(texts[..|texts| - 1]) + if texts[|texts| - 1] == "" then 0 else 1
  }

  /** How many texts are counted in group `g`: those whose first near text among the kept is the g-th. */
  ghost function Belonging(near: Near, texts: seq<string>, kept: seq<string>, g: nat): nat {
    if texts == [] then 0
    else
      var x := texts[|texts| - 1];
      Belonging(near, texts[..|texts| - 1], kept, g) + if x != "" && FirstNear(near, x, kept) == g then 1 else 0
  }

  lemma CountInKeeps(near: Near, groups: seq<Group>, x: string, kept: seq<string>)
    requires Reps(groups) == kept
    ensures var after := CountIn(near, groups, x);
      && Reps(after) == (if x == "" || NearAny(near, x, kept) then kept else kept + [x])
      && Total(after) == Total(groups) + if x == "" then 0 else 1
  {
    FirstNearFinds(near, x, kept);
    var g := FirstNear(near, x, kept);
    hide FirstNear, Unique, NearAny;
    if x != "" && g < |groups| {
      hide Total;
      TotalBump(groups, g);
    } else if x != "" {
      assert (groups + [Group(x, 1)])[..|groups|] == groups;
    }
  }

  /** One group for each kept text, and every error that is not blank is counted exactly once. */
  lemma {:induction false} GroupsPartitionErrors(near: Near, texts: seq<string>)
    ensures Reps(Groups(near, texts)) == Unique(near, texts)
    ensures Total(Groups(near, texts)) == NonBlank(texts)
  {
    if texts != [] {
      var n := |texts| - 1;
      GroupsPartitionErrors(near, texts[..n]);
      hide CountIn, NearAny, Total;
      CountInKeeps(near, Groups(near, texts[..n]), texts[n], Unique(near, texts[..n]));
    }
  }

  /** A kept text is the first near text of itself, also among texts kept later. */
  lemma FirstNearIsStable(near: Near, x: string, kept: seq<string>, more: seq<string>)
    requires Reflexive(near) && x != "" && kept <= more
    requires FirstNear(near, x, kept) == |kept| ==> |more| > |kept| && more[|kept|] == x
    ensures FirstNear(near, x, more) == FirstNear(near, x, kept)
  {
    FirstNearFinds(near, x, kept);
    FirstNearIs(near, x, more, FirstNear(near, x, kept));
  }

  lemma {:induction false} CountsFor(near: Near, texts: seq<string>, kept: seq<string>, g: nat)
    requires Reflexive(near) && Unique(near, texts) <= kept && g < |kept|
    ensures Belonging(near, texts, kept, g) == if g < |Groups(near, texts)| then Groups(near, texts)[g].count else 0
  {
    hide FirstNear, Reflexive, NearAny, Unique;
    if texts != [] {
      var n := |texts| - 1;
      var x, before, groups := texts[n], Unique(near, texts[..n]), Groups(near, texts[..n]);
      assert texts == texts[..n] + [x];
      UniqueNext(near, texts[..n], x);
      CountsFor(near, texts[..n], kept, g);
      GroupsPartitionErrors(near, texts[..n]);
      FirstNearFinds(near, x, before);
      if x != "" {
        FirstNearIsStable(near, x, before, kept);
      }
    }
  }

  /** With equal texts near, a group's count is the number of errors whose first near representative it is. */
  lemma GroupCountIsExact(near: Near, texts: seq<string>, g: nat)
    requires Reflexive(near) && g < |Groups(near, texts)|
    ensures Groups(near, texts)[g].count == Belonging(near, texts, Unique(near, texts), g)
  {
    GroupsPartitionErrors(near, texts);
    CountsFor(near, texts, Unique(near, texts), g);
  }

  function Label(g: Group): string {
    if g.count > 1 then g.rep + " [x" + Decimal(g.count) + " instances]" else g.rep
  }

  function Labels(groups: seq<Group>): (r: seq<string>)
    ensures |r| == |groups| && forall i :: 0 <= i < |r| ==> r[i] == Label(groups[i])
  {
    seq(|groups|, i requires 0 <= i < |groups| => Label(groups[i]))
  }

  // ---------- The loops ----------

  method DedupStrings(near: Near, items: seq<string>) returns (unique: seq<string>)
    ensures unique == Unique(near, Clean(items))
  {
    unique := [];
    ghost var texts := Clean(items);
    for i := 0 to |items|
      invariant unique == Unique(near, texts[..i])
    {
      assert texts[..i + 1] == texts[..i] + [texts[i]];
      UniqueNext(near, texts[..i], texts[i]);
      var clean := Strip(items[i]);
      if clean != "" {
        var isDup := IsNearAny(near, clean, unique);
        if !isDup {
          unique := unique + [clean];
        }
      }
    }
    assert texts[..|items|] == texts;
  }

  method IsNearAny(near: Near, clean: string, unique: seq<string>) returns (isDup: bool)
    ensures isDup <==> NearAny(near, clean, unique)
  {
    isDup := false;
    for j := 0 to |unique|
      invariant !isDup && forall k :: 0 <= k < j ==> !near(clean, unique[k])
    {
      if near(clean, unique[j]) {
        isDup := true;
        break;
      }
    }
  }

  method DedupErrors(near: Near, errors: seq<string>) returns (result: seq<string>)
    ensures result == Labels(Groups(near, Clean(errors)))
  {
    if errors == [] {
      return [];
    }
    var groups: seq<Group> := [];
    ghost var texts := Clean(errors);
    for i := 0 to |errors|
      invariant groups == Groups(near, texts[..i])
    {
      assert texts[..i + 1][..i] == texts[..i];
      var clean := Strip(errors[i]);
      if clean != "" {
        groups := CountError(near, groups, clean);
      }
    }
    assert texts[..|errors|] == texts;
    result := Labels(groups);
  }

  method CountError(near: Near, groups: seq<Group>, clean: string) returns (groups': seq<Group>)
    requires clean != ""
    ensures groups' == CountIn(near, groups, clean)
  {
    groups' := groups;
    for j := 0 to |groups|
      invariant groups' == groups && forall k :: 0 <= k < j ==> !near(clean, groups[k].rep)
    {
      if near(clean, groups[j].rep) {
        FirstNearIs(near, clean, Reps(groups), j);
        groups' := groups[j := groups[j].(count := groups[j].count + 1)];
        return;
      }
    }
    FirstNearIs(near, clean, Reps(groups), |groups|);
    groups' := groups' + [Group(clean, 1)];
  }

  /** The stripped contents of candidates. */
  ghost function Contents<T>(cands: seq<T>, content: T -> string): (r: seq<string>)
    ensures |r| == |cands| && forall i :: 0 <= i < |r| ==> r[i] == Strip(content(cands[i]))
  {
    seq(|cands|, i requires 0 <= i < |cands| => Strip(content(cands[i])))
  }

  /** `unique` holds the candidates at the positions `at`. */
  ghost predicate Taken<T>(cands: seq<T>, at: seq<nat>, unique: seq<T>) {
    |unique| == |at| && forall i :: 0 <= i < |at| ==> at[i] < |cands| && unique[i] == cands[at[i]]
  }

  lemma TakenNext<T>(cands: seq<T>, at: seq<nat>, unique: seq<T>, i: nat, content: T -> string)
    requires Taken(cands, at, unique) && Below(at, i) && i < |cands|
    ensures Taken(cands, at + [i], unique + [cands[i]])
    ensures Below(at, i + 1) && Below(at + [i], i + 1)
    ensures Contents(unique + [cands[i]], content) == Contents(unique, content) + [Strip(content(cands[i]))]
  {
  }

  /** Keeps the candidates themselves, unstripped, at exactly the selected positions. */
  method DedupCandidates<T>(near: Near, cands: seq<T>, content: T -> string)
    returns (unique: seq<T>, ghost at: seq<nat>)
    ensures Selection(near, Contents(cands, content), at)
    ensures Taken(cands, at, unique)
    ensures Contents(unique, content) == Unique(near, Contents(cands, content))
  {
    unique, at := [], [];
    assert Below(at, 0) && Selection(near, [], at) && Taken(cands, at, unique);
    assert Contents(unique, content) == At([], at);
    hide Selection, At, NearAny, Contents, Taken, Below;
    ghost var texts := Contents(cands, content);
    for i := 0 to |cands|
      invariant Selection(near, texts[..i], at)
      invariant Taken(cands, at, unique) && Below(at, i)
      invariant Contents(unique, content) == At(texts[..i], at)
    {
      assert texts[..i + 1] == texts[..i] + [texts[i]];
      SelectionNext(near, texts[..i], texts[i], at);
      AtNext(texts[..i], texts[i], at);
      TakenNext(cands, at, unique, i, content);
      var clean := Strip(content(cands[i]));
      if clean != "" {
        var isDup := IsNearContent(near, clean, unique, content);
        if !isDup {
          unique, at := unique + [cands[i]], at + [i];
        }
      }
    }
    assert texts[..|cands|] == texts;
    var other := UniqueIsSelection(near, texts);
    SelectionIsUnique(near, texts, at, other);
  }

  method IsNearContent<T>(near: Near, clean: string, unique: seq<T>, content: T -> string) returns (isDup: bool)
    ensures isDup <==> NearAny(near, clean, Contents(unique, content))
  {
    isDup := false;
    for j := 0 to |unique|
      invariant !isDup && forall k :: 0 <= k < j ==> !near(clean, Contents(unique, content)[k])
    {
      if near(clean, Strip(content(unique[j]))) {
        assert Contents(unique, content)[j] == Strip(content(unique[j]));
        isDup := true;
        break;
      }
    }
  }
}
