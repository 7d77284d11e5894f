/**
 * The model picker of the side panel (`isFreeModel`, `isStealthModel`,
 * `fuzzyScore`, `filterModels`, `limitPaid` and `flattenGroups` in
 * sidepanel.js): the models the service lists are filtered by a
 * subsequence score against the typed query and shown in a Free and a Paid
 * group, best match first.
 */
module ModelPicker {
  import opened Wrappers
  import opened Text

  /** A model of the listing: its id and display name. */
  datatype Model = Model(id: string, name: string)

  // ---------------------------------------------------------------------------
  // Free and stealth models

  /** The regular expression `:free\s*$`, ignoring case, matches at position i. */
  predicate FreeSuffixAt(id: string, i: nat) {
    i + 5 <= |id| && Lower(id[i..i + 5]) == ":free" && AllSpace(id[i + 5..])
  }

  /** `isFreeModel`: the id ends in ":free", in any case, before trailing white space. */
  predicate IsFreeModel(id: string) {
    EndsWith(Lower(TrimEnd(id)), ":free")
  }

  /** `isFreeModel` holds exactly where its regular expression matches. */
  lemma IsFreeModelSpec(id: string)
    ensures IsFreeModel(id) <==> exists i: nat :: FreeSuffixAt(id, i)
  {
    var t := TrimEnd(id);
    TrimEndSpec(id);
    if IsFreeModel(id) {
      var i := |t| - 5;
      LowerSlice(id, t, i);
      assert FreeSuffixAt(id, i);
    }
    if i: nat :| FreeSuffixAt(id, i) {
      assert LowerChar(id[i + 4]) == 'e';
      assert !IsSpace(id[i + 4]);
      TrimEndAt(id, i + 5);
      assert |t| == i + 5;
      LowerSlice(id, t, i);
    }
  }

  /** The last five characters of a prefix `t` of `id`, from `i` on, lower-case alike in both. */
  lemma LowerSlice(id: string, t: string, i: nat)
    requires |t| <= |id| && t == id[..|t|] && i + 5 == |t|
    ensures Lower(id[i..i + 5]) == Lower(t)[i..]
  {
    forall k | 0 <= k < 5
      ensures Lower(id[i..i + 5])[k] == Lower(t)[i..][k]
    {
      assert id[i..i + 5][k] == id[i + k] == t[i + k];
    }
  }

  const RouterPrefix: string := "openrouter/"

  /** `isStealthModel`: a model of the router's own namespace other than its automatic choice. */
  predicate IsStealthModel(id: string) {
    StartsWith(id, RouterPrefix) && id != "openrouter/auto" && id != "openrouter/auto:free"
  }

  /**
   * The stealth models are the ids of the form "openrouter/" + rest, for any
   * rest but "auto" and "auto:free"; unlike the free test, the prefix is
   * matched with its letter case.
   */
  lemma StealthModelSpec(id: string)
    ensures IsStealthModel(id) <==> exists rest :: id == RouterPrefix + rest && rest != "auto" && rest != "auto:free"
    ensures !IsStealthModel("OpenRouter/" + id)
  {
    if IsStealthModel(id) {
      var rest := id[|RouterPrefix|..];
      assert id == RouterPrefix + rest;
    }
    if rest :| id == RouterPrefix + rest && rest != "auto" && rest != "auto:free" {
      assert id[..|RouterPrefix|] == RouterPrefix && id[|RouterPrefix|..] == rest;
    }
    assert ("OpenRouter/" + id)[0] == 'O' != RouterPrefix[0];
  }

  predicate IsFree(m: Model) {
    IsFreeModel(m.id)
  }

  predicate IsStealth(m: Model) {
    IsStealthModel(m.id)
  }

  // ---------------------------------------------------------------------------
  // Subsequence score

  /** `n` can be read off `h` left to right, skipping characters of `h`. */
  predicate IsSubsequence(n: string, h: string)
    decreases |h|
  {
    n == [] || (h != [] && ((h[0] == n[0] && IsSubsequence(n[1..], h[1..])) || IsSubsequence(n, h[1..])))
  }

  /**
   * The scan of `fuzzyScore`: each character of `h` that is the next one
   * wanted of `n` is taken, and scores 2 plus the length of the current run of
   * consecutive takes, counted up to 3. The result is the number of
   * characters taken and the score.
   */
  function Greedy(h: string, n: string, run: nat): (g: (nat, nat))
    ensures g.0 <= |n|
    ensures 3 * g.0 <= g.1 <= 5 * g.0
    decreases |h|
  {
    if h == [] || n == [] then (0, 0)
    else if h[0] == n[0] then
      var r := Greedy(h[1..], n[1..], run + 1);
      (r.0 + 1, r.1 + 2 + Min(run + 1, 3))
    else Greedy(h[1..], n, 0)
  }

  /** `fuzzyScore(hay, needle)`. */
  function FuzzyScoreOf(hay: string, needle: string): int {
    var h := Lower(hay);
    var n := Lower(needle);
    if n == [] then 0
    else
      var g := Greedy(h, n, 0);
      if g.0 < |n| then -1 else g.1 + (if StartsWith(h, n) then 8 else 0)
  }

  lemma {:induction false} SubsequenceTail(n: string, h: string)
    requires n != [] && IsSubsequence(n, h)
    ensures IsSubsequence(n[1..], h)
    decreases |h|
  {
    if !(h[0] == n[0] && IsSubsequence(n[1..], h[1..])) {
      SubsequenceTail(n, h[1..]);
    }
  }

  /** Taking every wanted character as soon as it appears finds the needle exactly when it is a subsequence. */
  lemma {:induction false} GreedyComplete(h: string, n: string, run: nat)
    ensures Greedy(h, n, run).0 == |n| <==> IsSubsequence(n, h)
    decreases |h|
  {
    if h != [] && n != [] {
      if h[0] == n[0] {
        GreedyComplete(h[1..], n[1..], run + 1);
        if IsSubsequence(n, h[1..]) {
          SubsequenceTail(n, h[1..]);
          SubsequencePrepend(n[1..], h[1..], h[0]);
        }
      } else {
        GreedyComplete(h[1..], n, 0);
      }
    }
  }

  lemma {:induction false} SubsequencePrepend(n: string, h: string, c: char)
    requires IsSubsequence(n, h)
    ensures IsSubsequence(n, [c] + h)
  {
    assert ([c] + h)[1..] == h;
  }

  lemma {:induction false} PrefixIsSubsequence(n: string, h: string)
    requires StartsWith(h, n)
    ensures IsSubsequence(n, h)
    decreases |n|
  {
    if n != [] {
      assert h[1..][..|n| - 1] == n[1..];
      PrefixIsSubsequence(n[1..], h[1..]);
    }
  }

  /**
   * The score is 0 for an empty needle and -1 unless the needle is a
   * subsequence of the haystack (both lower-cased); otherwise it lies between
   * 3 and 5 points per needle character, and the bonus of 8 is there exactly
   * when the haystack starts with the needle.
   */
  lemma FuzzyScoreRange(hay: string, needle: string)
    ensures var h, n, s := Lower(hay), Lower(needle), FuzzyScoreOf(hay, needle);
      && (n == [] ==> s == 0)
      && (n != [] ==> (s == -1 <==> !IsSubsequence(n, h)))
      && (n != [] && IsSubsequence(n, h) && StartsWith(h, n) ==> 3 * |n| + 8 <= s <= 5 * |n| + 8)
      && (n != [] && IsSubsequence(n, h) && !StartsWith(h, n) ==> 3 * |n| <= s <= 5 * |n|)
  {
    var h, n := Lower(hay), Lower(needle);
    GreedyComplete(h, n, 0);
    if StartsWith(h, n) {
      PrefixIsSubsequence(n, h);
    }
  }

  /** `fuzzyScore`, as the side panel runs it. */
  method FuzzyScore(hay: string, needle: string) returns (score: int)
    ensures score == FuzzyScoreOf(hay, needle)
  {
    var h := Lower(hay);
    var n := Lower(needle);
    if |n| == 0 {
      return 0;
    }
    ghost var total := Greedy(h, n, 0);
    var s, j, run := 0, 0, 0;
    var i := 0;
    while i < |h| && j < |n|
      invariant 0 <= i <= |h| && 0 <= j <= |n|
      invariant j + Greedy(h[i..], n[j..], run).0 == total.0
      invariant s + Greedy(h[i..], n[j..], run).1 == total.1
    {
      assert h[i..][1..] == h[i + 1..];
      assert n[j..][1..] == n[j + 1..];
      if h[i] == n[j] {
        j := j + 1;
        run := run + 1;
        s := s + 2 + Min(run, 3);
      } else {
        run := 0;
      }
      i := i + 1;
    }
    assert h[i..] == [] || n[j..] == [];
    if j < |n| {
      return -1;
    }
    if StartsWith(h, n) {
      s := s + 8;
    }
    return s;
  }

  // ---------------------------------------------------------------------------
  // Filtering and ranking

  /** `xs.filter(p)`. */
  function Keep<T(!new)>(xs: seq<T>, p: T -> bool): (ys: seq<T>)
    ensures |ys| <= |xs|
    ensures forall y :: y in ys <==> y in xs && p(y)
  {
    if xs == [] then [] else (if p(xs[0]) then [xs[0]] else []) + Keep(xs[1..], p)
  }

  /** Filtering keeps every copy of a kept element and no copy of the others. */
  lemma {:induction false} KeepCounts<T(!new)>(xs: seq<T>, p: T -> bool)
    ensures forall y :: multiset(Keep(xs, p))[y] == if p(y) then multiset(xs)[y] else 0
  {
    if xs != [] {
      KeepCounts(xs[1..], p);
      assert xs == [xs[0]] + xs[1..];
    }
  }

  /** A model with its score against the query. */
  type Scored = (Model, int)

  /** Non-increasing by score. */
  predicate Sorted(xs: seq<Scored>) {
    forall i, j :: 0 <= i < j < |xs| ==> xs[i].1 >= xs[j].1
  }

  lemma {:induction false} KeepSorted(xs: seq<Scored>, p: Scored -> bool)
    requires Sorted(xs)
    ensures Sorted(Keep(xs, p))
  {
    if xs != [] {
      KeepSorted(xs[1..], p);
      var rest := Keep(xs[1..], p);
      forall k | 0 <= k < |rest|
        ensures xs[0].1 >= rest[k].1
      {
        assert rest[k] in xs[1..];
      }
    }
  }

  /** Puts x after every element of the sorted `xs` that scores at least as much, so equal scores keep their arrival order. */
  function Insert(x: Scored, xs: seq<Scored>): (ys: seq<Scored>)
    ensures multiset(ys) == multiset(xs) + multiset{x}
    ensures |ys| == |xs| + 1
  {
    assert xs != [] ==> xs == [xs[0]] + xs[1..];
    if xs == [] then [x]
    else if xs[0].1 >= x.1 then [xs[0]] + Insert(x, xs[1..])
    else [x] + xs
  }

  lemma {:induction false} InsertSorted(x: Scored, xs: seq<Scored>)
    requires Sorted(xs)
    ensures Sorted(Insert(x, xs))
  {
    if xs != [] && xs[0].1 >= x.1 {
      InsertSorted(x, xs[1..]);
      var rest := Insert(x, xs[1..]);
      forall k | 0 <= k < |rest|
        ensures xs[0].1 >= rest[k].1
      {
        assert rest[k] in multiset(rest);
        assert rest[k] in xs[1..] || rest[k] == x;
      }
    }
  }

  /** `sort((a, b) => b.s - a.s)`: a stable sort, best score first. */
  function SortDesc(xs: seq<Scored>): (ys: seq<Scored>)
    ensures multiset(ys) == multiset(xs)
  {
    assert xs != [] ==> xs == xs[..|xs| - 1] + [xs[|xs| - 1]];
    if xs == [] then [] else Insert(xs[|xs| - 1], SortDesc(xs[..|xs| - 1]))
  }

  lemma {:induction false} SortDescSorted(xs: seq<Scored>)
    ensures Sorted(SortDesc(xs))
  {
    if xs != [] {
      SortDescSorted(xs[..|xs| - 1]);
      InsertSorted(xs[|xs| - 1], SortDesc(xs[..|xs| - 1]));
    }
  }

  /** Every model with its score. */
  function ScoredModels(all: seq<Model>, q: string): (xs: seq<Scored>)
    ensures |xs| == |all|
    ensures forall k :: 0 <= k < |all| ==> xs[k] == (all[k], FuzzyScoreOf(all[k].id, q))
  {
    seq(|all|, k requires 0 <= k < |all| => (all[k], FuzzyScoreOf(all[k].id, q)))
  }

  predicate Matched(x: Scored) {
    x.1 >= 0
  }

  predicate FreePair(x: Scored) {
    IsFreeModel(x.0.id)
  }

  predicate PaidPair(x: Scored) {
    !IsFreeModel(x.0.id)
  }

  /** The models that match the query, best first. */
  function Ranked(all: seq<Model>, q: string): seq<Scored> {
    SortDesc(Keep(ScoredModels(all, q), Matched))
  }

  function Models(xs: seq<Scored>): (ms: seq<Model>)
    ensures |ms| == |xs|
    ensures forall k :: 0 <= k < |xs| ==> ms[k] == xs[k].0
  {
    seq(|xs|, k requires 0 <= k < |xs| => xs[k].0)
  }

  const PaidLimit: nat := 50

  /** `limitPaid`: the first fifty, or all of them when there are fewer. */
  function LimitPaid<T>(items: seq<T>): (shown: seq<T>)
    ensures |shown| == Min(|items|, PaidLimit)
    ensures shown == items[..|shown|]
    ensures |items| <= PaidLimit ==> shown == items
  {
    if |items| <= PaidLimit then items else items[..PaidLimit]
  }

  /** A titled group of the dropdown. */
  datatype Group = Group(title: string, items: seq<Model>)

  /**
   * `filterModels`: a blank query shows the stealth and the free models; any
   * other query shows the matching free models, and the first fifty matching
   * paid ones, best match first.
   */
  function FilterModels(all: seq<Model>, query: string, onlyFree: bool): (groups: seq<Group>)
    ensures |groups| == 2
  {
    var q := Trim(query);
    if q == [] then
      [Group("OpenRouter Stealth", Keep(all, IsStealth)), Group("Free", Keep(all, IsFree))]
    else
      var items := Considered(all, q, onlyFree);
      [Group("Free", Models(Keep(items, FreePair))), Group("Paid", LimitPaid(Models(Keep(items, PaidPair))))]
  }

  /** A blank query lists exactly the stealth models, then exactly the free ones, in listing order. */
  lemma BlankQuery(all: seq<Model>, query: string, onlyFree: bool)
    requires Trim(query) == []
    ensures var gs := FilterModels(all, query, onlyFree);
      && gs[0].title == "OpenRouter Stealth" && gs[1].title == "Free"
      && (forall m :: m in gs[0].items <==> m in all && IsStealthModel(m.id))
      && (forall m :: m in gs[1].items <==> m in all && IsFreeModel(m.id))
  {
  }

  /** What ranking keeps: each matching model once per listing with its own score, best first. */
  lemma RankedSpec(all: seq<Model>, q: string)
    ensures Sorted(Ranked(all, q))
    ensures forall x :: x in Ranked(all, q) <==> x.0 in all && x.1 == FuzzyScoreOf(x.0.id, q) && x.1 >= 0
    ensures forall x :: Matched(x) ==> multiset(Ranked(all, q))[x] == multiset(ScoredModels(all, q))[x]
  {
    var scored := ScoredModels(all, q);
    SortDescSorted(Keep(scored, Matched));
    KeepCounts(scored, Matched);
    forall x: Scored | x.0 in all && x.1 == FuzzyScoreOf(x.0.id, q)
      ensures x in scored
    {
      var k :| 0 <= k < |all| && all[k] == x.0;
      assert scored[k] == x;
    }
    assert forall x :: x in Ranked(all, q) <==> x in multiset(Ranked(all, q));
  }

  /** The items of a ranked list, by score. */
  lemma ModelsOrdered(xs: seq<Scored>, q: string)
    requires Sorted(xs)
    requires forall x :: x in xs ==> x.1 == FuzzyScoreOf(x.0.id, q)
    ensures forall i, j :: 0 <= i < j < |xs| ==> FuzzyScoreOf(Models(xs)[i].id, q) >= FuzzyScoreOf(Models(xs)[j].id, q)
  {
    forall i, j | 0 <= i < j < |xs|
      ensures FuzzyScoreOf(Models(xs)[i].id, q) >= FuzzyScoreOf(Models(xs)[j].id, q)
    {
      assert xs[i] in xs && xs[j] in xs;
    }
  }

  /** The ranked pairs a non-blank query considers: only the free ones when free models are asked for alone. */
  function Considered(all: seq<Model>, q: string, onlyFree: bool): seq<Scored> {
    if onlyFree then Keep(Ranked(all, q), FreePair) else Ranked(all, q)
  }

  lemma ConsideredSpec(all: seq<Model>, q: string, onlyFree: bool)
    ensures Sorted(Considered(all, q, onlyFree))
    ensures forall x :: x in Considered(all, q, onlyFree) <==>
      x.0 in all && x.1 == FuzzyScoreOf(x.0.id, q) && x.1 >= 0 && (onlyFree ==> FreePair(x))
  {
    RankedSpec(all, q);
    if onlyFree {
      KeepSorted(Ranked(all, q), FreePair);
    }
  }

  /** The models of a list of scored pairs are those whose pair is in the list. */
  lemma ScoredGroup(xs: seq<Scored>, all: seq<Model>, q: string, p: Scored -> bool)
    requires forall x :: x in xs <==> x.0 in all && x.1 == FuzzyScoreOf(x.0.id, q) && x.1 >= 0 && p(x)
    ensures forall m :: m in Models(xs) <==> m in all && FuzzyScoreOf(m.id, q) >= 0 && p((m, FuzzyScoreOf(m.id, q)))
  {
    forall m | m in Models(xs)
      ensures m in all && FuzzyScoreOf(m.id, q) >= 0 && p((m, FuzzyScoreOf(m.id, q)))
    {
      var k :| 0 <= k < |xs| && Models(xs)[k] == m;
      assert xs[k] in xs;
    }
    forall m | m in all && FuzzyScoreOf(m.id, q) >= 0 && p((m, FuzzyScoreOf(m.id, q)))
      ensures m in Models(xs)
    {
      var x := (m, FuzzyScoreOf(m.id, q));
      assert x in xs;
      var k :| 0 <= k < |xs| && xs[k] == x;
      assert Models(xs)[k] == m;
    }
  }

  /** Keeping the paid pairs among the free ones leaves nothing. */
  lemma NoPaidAmongFree(xs: seq<Scored>)
    ensures Keep(Keep(xs, FreePair), PaidPair) == []
  {
    KeepCounts(Keep(xs, FreePair), PaidPair);
    KeepCounts(xs, FreePair);
    assert multiset(Keep(Keep(xs, FreePair), PaidPair)) == multiset{};
  }

  /** For a query that is not blank, the Free group holds exactly the free models that match, best match first. */
  lemma FreeGroupSpec(all: seq<Model>, query: string, onlyFree: bool)
    requires Trim(query) != []
    ensures var q := Trim(query);
      var g := FilterModels(all, query, onlyFree)[0];
      && g.title == "Free"
      && (forall m :: m in g.items <==> m in all && IsFreeModel(m.id) && FuzzyScoreOf(m.id, q) >= 0)
      && (forall i, j :: 0 <= i < j < |g.items| ==> FuzzyScoreOf(g.items[i].id, q) >= FuzzyScoreOf(g.items[j].id, q))
  {
    var q := Trim(query);
    var items := Considered(all, q, onlyFree);
    ConsideredSpec(all, q, onlyFree);
    var free := Keep(items, FreePair);
    KeepSorted(items, FreePair);
    ScoredGroup(free, all, q, FreePair);
    ModelsOrdered(free, q);
    assert FilterModels(all, query, onlyFree)[0].items == Models(free);
  }

  /**
   * For a query that is not blank, the Paid group holds only paid models
   * that match, best match first; none when free models are asked for alone;
   * otherwise as many as there are matching paid listings, up to fifty, and
   * they are the best: a matching paid model left out scores no more than
   * any shown.
   */
  lemma PaidGroupSpec(all: seq<Model>, query: string, onlyFree: bool)
    requires Trim(query) != []
    ensures var q := Trim(query);
      var g := FilterModels(all, query, onlyFree)[1];
      && g.title == "Paid"
      && |g.items| <= PaidLimit
      && (forall m :: m in g.items ==> m in all && !IsFreeModel(m.id) && FuzzyScoreOf(m.id, q) >= 0)
      && (onlyFree ==> g.items == [])
      && (!onlyFree ==> |g.items| == Min(|Keep(Ranked(all, q), PaidPair)|, PaidLimit))
      && (!onlyFree && |Keep(Ranked(all, q), PaidPair)| <= PaidLimit ==>
            forall m :: m in all && !IsFreeModel(m.id) && FuzzyScoreOf(m.id, q) >= 0 ==> m in g.items)
      && (!onlyFree ==>
            forall m :: m in all && !IsFreeModel(m.id) && FuzzyScoreOf(m.id, q) >= 0 && m !in g.items ==>
              forall i :: 0 <= i < |g.items| ==> FuzzyScoreOf(g.items[i].id, q) >= FuzzyScoreOf(m.id, q))
      && (forall i, j :: 0 <= i < j < |g.items| ==> FuzzyScoreOf(g.items[i].id, q) >= FuzzyScoreOf(g.items[j].id, q))
  {
    var q := Trim(query);
    var g := FilterModels(all, query, onlyFree)[1];
    assert g.items == LimitPaid(Models(Keep(Considered(all, q, onlyFree), PaidPair)));
    PaidShown(all, q, onlyFree);
    if onlyFree {
      NoPaidAmongFree(Ranked(all, q));
    } else {
      PaidOfRanked(all, q);
    }
  }

  /** The paid models shown hold only matching paid models, best first. */
  lemma PaidShown(all: seq<Model>, q: string, onlyFree: bool)
    ensures var shown := LimitPaid(Models(Keep(Considered(all, q, onlyFree), PaidPair)));
      && (forall m :: m in shown ==> m in all && !IsFreeModel(m.id) && FuzzyScoreOf(m.id, q) >= 0)
      && (forall i, j :: 0 <= i < j < |shown| ==> FuzzyScoreOf(shown[i].id, q) >= FuzzyScoreOf(shown[j].id, q))
  {
    var items := Considered(all, q, onlyFree);
    ConsideredSpec(all, q, onlyFree);
    var paid := Keep(items, PaidPair);
    KeepSorted(items, PaidPair);
    ModelsOrdered(paid, q);
    var shown := LimitPaid(Models(paid));
    forall m | m in shown
      ensures m in all && !IsFreeModel(m.id) && FuzzyScoreOf(m.id, q) >= 0
    {
      var k :| 0 <= k < |shown| && shown[k] == m;
      assert Models(paid)[k] == m && paid[k] in paid;
    }
    forall i, j | 0 <= i < j < |shown|
      ensures FuzzyScoreOf(shown[i].id, q) >= FuzzyScoreOf(shown[j].id, q)
    {
      assert shown[i] == Models(paid)[i] && shown[j] == Models(paid)[j];
    }
  }

  /**
   * The paid group of a ranked list: all of its matching paid models when
   * there are at most fifty, and otherwise fifty that none left out outscores.
   */
  lemma PaidOfRanked(all: seq<Model>, q: string)
    ensures var paid := Keep(Ranked(all, q), PaidPair);
      var shown := LimitPaid(Models(paid));
      && (|paid| <= PaidLimit ==>
            forall m :: m in all && !IsFreeModel(m.id) && FuzzyScoreOf(m.id, q) >= 0 ==> m in shown)
      && (forall m :: m in all && !IsFreeModel(m.id) && FuzzyScoreOf(m.id, q) >= 0 && m !in shown ==>
            forall i :: 0 <= i < |shown| ==> FuzzyScoreOf(shown[i].id, q) >= FuzzyScoreOf(m.id, q))
  {
    var paid := Keep(Ranked(all, q), PaidPair);
    RankedSpec(all, q);
    ScoredGroup(paid, all, q, PaidPair);
    PaidAreBest(all, q);
  }

  /** A matching paid model that the fifty leave out scores no more than any of them. */
  lemma PaidAreBest(all: seq<Model>, q: string)
    ensures var shown := LimitPaid(Models(Keep(Ranked(all, q), PaidPair)));
      forall m :: m in all && !IsFreeModel(m.id) && FuzzyScoreOf(m.id, q) >= 0 && m !in shown ==>
        forall i :: 0 <= i < |shown| ==> FuzzyScoreOf(shown[i].id, q) >= FuzzyScoreOf(m.id, q)
  {
    var paid := Keep(Ranked(all, q), PaidPair);
    var shown := LimitPaid(Models(paid));
    RankedSpec(all, q);
    KeepSorted(Ranked(all, q), PaidPair);
    forall m | m in all && !IsFreeModel(m.id) && FuzzyScoreOf(m.id, q) >= 0 && m !in shown
      ensures forall i :: 0 <= i < |shown| ==> FuzzyScoreOf(shown[i].id, q) >= FuzzyScoreOf(m.id, q)
    {
      LeftOutRanksLower(paid, shown, m, q);
    }
  }

  /** What a ranked list's first fifty leave out ranks no higher than any of them. */
  lemma LeftOutRanksLower(paid: seq<Scored>, shown: seq<Model>, m: Model, q: string)
    requires Sorted(paid)
    requires forall x :: x in paid ==> x.1 == FuzzyScoreOf(x.0.id, q)
    requires shown == LimitPaid(Models(paid))
    requires (m, FuzzyScoreOf(m.id, q)) in paid && m !in shown
    ensures forall i :: 0 <= i < |shown| ==> FuzzyScoreOf(shown[i].id, q) >= FuzzyScoreOf(m.id, q)
  {
    var k :| 0 <= k < |paid| && paid[k] == (m, FuzzyScoreOf(m.id, q));
    assert Models(paid)[k] == m;
    assert forall i :: 0 <= i < |shown| ==> Models(paid)[i] in shown;
    assert |shown| <= k;
    forall i | 0 <= i < |shown|
      ensures FuzzyScoreOf(shown[i].id, q) >= FuzzyScoreOf(m.id, q)
    {
      assert shown[i] == Models(paid)[i] == paid[i].0;
      assert paid[i] in paid;
    }
  }

  // ---------------------------------------------------------------------------
  // The dropdown's rows

  /** A row of the dropdown: a group title or a model. */
  datatype Row = Header(title: string) | Item(model: Model)

  /** The rows of the groups: each non-empty group's title, then its items. */
  function Flatten(groups: seq<Group>): seq<Row> {
    if groups == [] then []
    else GroupRows(groups[0]) + Flatten(groups[1..])
  }

  function GroupRows(g: Group): (rows: seq<Row>)
    ensures g.items == [] ==> rows == []
    ensures g.items != [] ==> |rows| == 1 + |g.items| && rows[0] == Header(g.title)
    ensures forall k :: 0 <= k < |g.items| ==> rows[k + 1] == Item(g.items[k])
  {
    if g.items == [] then [] else [Header(g.title)] + seq(|g.items|, k requires 0 <= k < |g.items| => Item(g.items[k]))
  }

  /** `flattenGroups`. */
  method FlattenGroups(groups: seq<Group>) returns (out: seq<Row>)
    ensures out == Flatten(groups)
  {
    out := [];
    for i := 0 to |groups|
      invariant out == Flatten(groups[..i])
    {
      var g := groups[i];
      FlattenStep(groups, i);
      if |g.items| == 0 {
        continue;
      }
      var rows := seq(|g.items|, k requires 0 <= k < |g.items| => Item(g.items[k]));
      HeaderThenRows(g, out, rows);
      out := out + [Header(g.title)];
      out := out + rows;
    }
    assert groups[..|groups|] == groups;
  }

  /** The number of rows: one title and the items of each non-empty group. */
  function RowCount(groups: seq<Group>): nat {
    if groups == [] then 0
    else RowCount(groups[1..]) + (if groups[0].items == [] then 0 else 1 + |groups[0].items|)
  }

  /** The models of the rows, in order. */
  function ItemsOf(rows: seq<Row>): seq<Model> {
    if rows == [] then [] else (if rows[0].Item? then [rows[0].model] else []) + ItemsOf(rows[1..])
  }

  /** All the groups' items, in order. */
  function AllItems(groups: seq<Group>): seq<Model> {
    if groups == [] then [] else groups[0].items + AllItems(groups[1..])
  }

  lemma {:induction false} ItemsOfAppend(a: seq<Row>, b: seq<Row>)
    ensures ItemsOf(a + b) == ItemsOf(a) + ItemsOf(b)
  {
    if a == [] {
      assert a + b == b;
    } else {
      assert (a + b)[1..] == a[1..] + b;
      assert (a + b)[0] == a[0];
      ItemsOfAppend(a[1..], b);
    }
  }

  lemma {:induction false} GroupRowsItems(g: Group)
    ensures ItemsOf(GroupRows(g)) == g.items
  {
    if g.items != [] {
      var rows := GroupRows(g);
      var tail := rows[1..];
      assert rows == [Header(g.title)] + tail;
      ItemRows(g.items, tail);
    }
  }

  lemma {:induction false} ItemRows(items: seq<Model>, rows: seq<Row>)
    requires |rows| == |items|
    requires forall k :: 0 <= k < |items| ==> rows[k] == Item(items[k])
    ensures ItemsOf(rows) == items
  {
    if items != [] {
      ItemRows(items[1..], rows[1..]);
    }
  }

  lemma FlattenStep(groups: seq<Group>, i: nat)
    requires i < |groups|
    ensures Flatten(groups[..i + 1]) == Flatten(groups[..i]) + GroupRows(groups[i])
  {
    assert groups[..i + 1] == groups[..i] + [groups[i]];
    FlattenSnoc(groups[..i], groups[i]);
  }

  /** Pushing the header, then one row per item, appends the group's rows. */
  lemma HeaderThenRows(g: Group, before: seq<Row>, rows: seq<Row>)
    requires g.items != [] && |rows| == |g.items|
    requires forall k :: 0 <= k < |rows| ==> rows[k] == Item(g.items[k])
    ensures (before + [Header(g.title)]) + rows == before + GroupRows(g)
  {
    assert GroupRows(g) == [Header(g.title)] + rows;
  }

  /** Appending a group appends its rows, which is what `FlattenGroups`' loop does. */
  lemma {:induction false} FlattenSnoc(groups: seq<Group>, g: Group)
    ensures Flatten(groups + [g]) == Flatten(groups) + GroupRows(g)
  {
    if groups == [] {
      assert [] + [g] == [g];
      assert [g][1..] == [];
    } else {
      assert (groups + [g])[0] == groups[0];
      assert (groups + [g])[1..] == groups[1..] + [g];
      FlattenSnoc(groups[1..], g);
    }
  }

  /** Each non-empty group gives its title and its items: the row count is the sum of one plus the size of each non-empty group. */
  lemma {:induction false} FlattenLength(groups: seq<Group>)
    ensures |Flatten(groups)| == RowCount(groups)
  {
    if groups != [] {
      FlattenLength(groups[1..]);
    }
  }

  /** The models of the rows are the groups' items, in group order. */
  lemma {:induction false} FlattenItems(groups: seq<Group>)
    ensures ItemsOf(Flatten(groups)) == AllItems(groups)
  {
    if groups != [] {
      ItemsOfAppend(GroupRows(groups[0]), Flatten(groups[1..]));
      GroupRowsItems(groups[0]);
      FlattenItems(groups[1..]);
    }
  }
}
