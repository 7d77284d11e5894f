/**
 * Finding a browser tab from a free-text description (`activateTabByMatch`
 * and `closeTabByMatch` in sw.js).
 *
 * A tab matches outright when its lower-cased title or URL contains the
 * lower-cased needle; the first such tab wins. Failing that, activation (but
 * not closing) falls back to a fuzzy score: the similarity of the needle to
 * the title, the URL and the host name, where similarity is one minus the
 * Levenshtein distance divided by the longer length. The earliest tab with the
 * strictly greatest positive score is taken when that score reaches 0.6.
 */
module TabMatch {
  import opened Wrappers
  import opened Text

  /**
   * A tab as `chrome.tabs.query` reports it. `host` is the host name of its
   * URL, or "" when the URL does not parse.
   */
  datatype Tab = Tab(id: int, title: Option<string>, url: Option<string>, host: string, active: bool)

  // ---------------------------------------------------------------------------
  // Edit distance

  function Min3(x: nat, y: nat, z: nat): nat {
    if x <= y && x <= z then x else if y <= z then y else z
  }

  function Max(x: nat, y: nat): nat {
    if x < y then y else x
  }

  /** The Levenshtein distance between the first `i` characters of `a` and the first `j` of `b`. */
  function Dist(a: string, b: string, i: nat, j: nat): nat
    requires i <= |a| && j <= |b|
    decreases i + j
  {
    if i == 0 then j
    else if j == 0 then i
    else
      var cost := if a[i - 1] == b[j - 1] then 0 else 1;
      Min3(Dist(a, b, i - 1, j) + 1, Dist(a, b, i, j - 1) + 1, Dist(a, b, i - 1, j - 1) + cost)
  }

  /** Row `i` of the table, from the row above it and its first cell; no other row changes. */
  method FillRow(a: string, b: string, dp: array2<nat>, i: nat)
    requires dp.Length0 == |a| + 1 && dp.Length1 == |b| + 1 && 0 < i <= |a|
    requires forall j' {:trigger dp[i - 1, j']} :: 0 <= j' <= |b| ==> dp[i - 1, j'] == Dist(a, b, i - 1, j')
    requires dp[i, 0] == i
    modifies dp
    ensures forall j' {:trigger dp[i, j']} :: 0 <= j' <= |b| ==> dp[i, j'] == Dist(a, b, i, j')
    ensures forall i', j' :: 0 <= i' <= |a| && i' != i && 0 <= j' <= |b| ==> dp[i', j'] == old(dp[i', j'])
  {
    for j := 1 to |b| + 1
      invariant forall i', j' :: 0 <= i' <= |a| && i' != i && 0 <= j' <= |b| ==> dp[i', j'] == old(dp[i', j'])
      invariant forall j' {:trigger dp[i, j']} :: 0 <= j' < j ==> dp[i, j'] == Dist(a, b, i, j')
    {
      var cost := if a[i - 1] == b[j - 1] then 0 else 1;
      assert dp[i - 1, j] == Dist(a, b, i - 1, j) && dp[i - 1, j - 1] == Dist(a, b, i - 1, j - 1);
      assert dp[i, j - 1] == Dist(a, b, i, j - 1);
      DistStep(a, b, i, j);
      dp[i, j] := Min3(dp[i - 1, j] + 1, dp[i, j - 1] + 1, dp[i - 1, j - 1] + cost);
      assert dp[i, j] == Dist(a, b, i, j);
    }
  }

  /** One step of the recurrence: delete, insert or change the last character. */
  lemma DistStep(a: string, b: string, i: nat, j: nat)
    requires 0 < i <= |a| && 0 < j <= |b|
    ensures Dist(a, b, i, j) ==
      Min3(Dist(a, b, i - 1, j) + 1, Dist(a, b, i, j - 1) + 1, Dist(a, b, i - 1, j - 1) + if a[i - 1] == b[j - 1] then 0 else 1)
  {
  }

  /** The distance between whole strings. */
  function Distance(a: string, b: string): nat {
    Dist(a, b, |a|, |b|)
  }

  /** The dynamic-programming table of `sim`, filled row by row. */
  method EditDistance(a: string, b: string) returns (d: nat)
    ensures d == Distance(a, b)
  {
    var dp := new nat[|a| + 1, |b| + 1]((i, j) => 0);
    for i := 0 to |a| + 1
      invariant forall i' :: 0 <= i' < i ==> dp[i', 0] == i'
    {
      dp[i, 0] := i;
    }
    for j := 0 to |b| + 1
      invariant forall i' :: 0 <= i' <= |a| ==> dp[i', 0] == i'
      invariant forall j' :: 0 <= j' < j ==> dp[0, j'] == j'
    {
      dp[0, j] := j;
    }
    for i := 1 to |a| + 1
      invariant forall i', j' {:trigger dp[i', j']} :: 0 <= i' < i && 0 <= j' <= |b| ==> dp[i', j'] == Dist(a, b, i', j')
      invariant forall i' :: i <= i' <= |a| ==> dp[i', 0] == i'
    {
      FillRow(a, b, dp, i);
    }
    d := dp[|a|, |b|];
  }

  /** Distance is zero exactly between equal prefixes. */
  lemma DistZero(a: string, b: string, i: nat, j: nat)
    requires i <= |a| && j <= |b|
    ensures Dist(a, b, i, j) == 0 <==> a[..i] == b[..j]
  {
    if a[..i] == b[..j] {
      DistOfEqual(a, b, i, j);
    }
    if Dist(a, b, i, j) == 0 {
      EqualOfDistZero(a, b, i, j);
    }
  }

  lemma {:induction false} DistOfEqual(a: string, b: string, i: nat, j: nat)
    requires i <= |a| && j <= |b| && a[..i] == b[..j]
    ensures Dist(a, b, i, j) == 0
    decreases i + j
  {
    if i > 0 && j > 0 {
      assert a[..i - 1] == a[..i][..i - 1] && b[..j - 1] == b[..j][..j - 1];
      assert a[i - 1] == a[..i][i - 1] && b[j - 1] == b[..j][j - 1];
      DistOfEqual(a, b, i - 1, j - 1);
    }
  }

  lemma {:induction false} EqualOfDistZero(a: string, b: string, i: nat, j: nat)
    requires i <= |a| && j <= |b| && Dist(a, b, i, j) == 0
    ensures a[..i] == b[..j]
    decreases i + j
  {
    if i > 0 && j > 0 {
      DistStep(a, b, i, j);
      assert Dist(a, b, i - 1, j - 1) == 0 && a[i - 1] == b[j - 1];
      EqualOfDistZero(a, b, i - 1, j - 1);
      assert a[..i] == a[..i - 1] + [a[i - 1]] && b[..j] == b[..j - 1] + [b[j - 1]];
    }
  }

  /** Distance is at least the difference in length. */
  lemma {:induction false} DistLower(a: string, b: string, i: nat, j: nat)
    requires i <= |a| && j <= |b|
    ensures Dist(a, b, i, j) >= i - j && Dist(a, b, i, j) >= j - i
    decreases i + j
  {
    if i > 0 && j > 0 {
      DistLower(a, b, i - 1, j);
      DistLower(a, b, i, j - 1);
      DistLower(a, b, i - 1, j - 1);
    }
  }

  /** Distance never exceeds the longer length: replace the common part, insert or delete the rest. */
  lemma {:induction false} DistUpper(a: string, b: string, i: nat, j: nat)
    requires i <= |a| && j <= |b|
    ensures Dist(a, b, i, j) <= Max(i, j)
    decreases i + j
  {
    if i > 0 && j > 0 {
      DistUpper(a, b, i - 1, j - 1);
    }
  }

  /** Distance is symmetric. */
  lemma {:induction false} DistSymmetric(a: string, b: string, i: nat, j: nat)
    requires i <= |a| && j <= |b|
    ensures SymmetricAt(a, b, i, j)
    decreases i + j
  {
    if i > 0 && j > 0 {
      DistSymmetric(a, b, i - 1, j);
      DistSymmetric(a, b, i, j - 1);
      DistSymmetric(a, b, i - 1, j - 1);
      SymmetricStep(a, b, i, j);
    }
  }

  lemma SymmetricStep(a: string, b: string, i: nat, j: nat)
    requires 0 < i <= |a| && 0 < j <= |b|
    requires SymmetricAt(a, b, i - 1, j) && SymmetricAt(a, b, i, j - 1) && SymmetricAt(a, b, i - 1, j - 1)
    ensures Dist(a, b, i, j) == Dist(b, a, j, i)
  {
    var cost := if a[i - 1] == b[j - 1] then 0 else 1;
    Min3Swap(Dist(a, b, i - 1, j) + 1, Dist(a, b, i, j - 1) + 1, Dist(a, b, i - 1, j - 1) + cost);
  }

  predicate SymmetricAt(a: string, b: string, i: nat, j: nat)
    requires i <= |a| && j <= |b|
  {
    Dist(a, b, i, j) == Dist(b, a, j, i)
  }

  lemma Min3Swap(x: nat, y: nat, z: nat)
    ensures Min3(x, y, z) == Min3(y, x, z)
  {
  }

  // ---------------------------------------------------------------------------
  // Similarity

  /** `sim(a, b)`: one minus the distance of the lower-cased strings over the longer length; 1 for two empty strings. */
  function Similarity(a: string, b: string): real {
    var x := Lower(a);
    var y := Lower(b);
    if |x| == 0 && |y| == 0 then 1.0
    else
      var m := Max(|x|, |y|);
      var maxLen := if m == 0 then 1 else m;
      1.0 - (Distance(x, y) as real) / (maxLen as real)
  }

  lemma Ratio(d: nat, m: nat)
    requires 0 < m && d <= m
    ensures 0.0 <= 1.0 - (d as real) / (m as real) <= 1.0
    ensures 1.0 - (d as real) / (m as real) == 1.0 <==> d == 0
  {
    var q := (d as real) / (m as real);
    assert q * (m as real) == d as real;
  }

  /** Similarity lies in [0, 1], and is 1 exactly when the strings agree up to case. */
  lemma SimilarityRange(a: string, b: string)
    ensures 0.0 <= Similarity(a, b) <= 1.0
    ensures Similarity(a, b) == 1.0 <==> Lower(a) == Lower(b)
  {
    var x := Lower(a);
    var y := Lower(b);
    DistUpper(x, y, |x|, |y|);
    DistZero(x, y, |x|, |y|);
    assert x[..|x|] == x && y[..|y|] == y;
    if |x| > 0 || |y| > 0 {
      Ratio(Distance(x, y), Max(|x|, |y|));
    }
  }

  /** Two empty strings score exactly 1. */
  lemma SimilarityEmpty()
    ensures Similarity([], []) == 1.0
  {
  }

  /** `sim` itself: lower-case both sides, then fill the table. */
  method Sim(a: string, b: string) returns (r: real)
    ensures r == Similarity(a, b)
  {
    var x := Lower(a);
    var y := Lower(b);
    if |x| == 0 && |y| == 0 {
      return 1.0;
    }
    var dist := EditDistance(x, y);
    var m := Max(|x|, |y|);
    var maxLen := if m == 0 then 1 else m;
    r := 1.0 - (dist as real) / (maxLen as real);
  }

  // ---------------------------------------------------------------------------
  // Selecting a tab

  /** `s?.toLowerCase().includes(needle)`: false when the field is absent. */
  predicate FieldContains(field: Option<string>, needle: string) {
    field.Some? && Contains(Lower(field.value), needle)
  }

  /** The substring test of `tabs.find`. */
  predicate Hit(t: Tab, needle: string) {
    FieldContains(t.title, needle) || FieldContains(t.url, needle)
  }

  /** `tabs.find(...)`: the first tab whose title or URL contains the needle. */
  function FindHit(tabs: seq<Tab>, needle: string): (r: Option<nat>)
    ensures r.Some? ==> r.value < |tabs| && Hit(tabs[r.value], needle)
  {
    if tabs == [] then None
    else if Hit(tabs[0], needle) then Some(0)
    else match FindHit(tabs[1..], needle)
      case None => None
      case Some(k) => Some(k + 1)
  }

  /** `find` returns the first hit, and none only when no tab hits. */
  lemma {:induction false} FindHitFirst(tabs: seq<Tab>, needle: string)
    ensures FindHit(tabs, needle).None? <==> forall k :: 0 <= k < |tabs| ==> !Hit(tabs[k], needle)
    ensures FindHit(tabs, needle).Some? ==> forall k :: 0 <= k < FindHit(tabs, needle).value ==> !Hit(tabs[k], needle)
  {
    if tabs != [] {
      FindHitFirst(tabs[1..], needle);
      assert forall k :: 1 <= k < |tabs| ==> tabs[k] == tabs[1..][k - 1];
    }
  }

  /** The fuzzy score of a tab: its best similarity by title, URL or host. */
  function Score(t: Tab, needle: string): real {
    var s1 := Similarity(t.title.GetOr(""), needle);
    var s2 := Similarity(t.url.GetOr(""), needle);
    var s3 := Similarity(t.host, needle);
    if s1 >= s2 && s1 >= s3 then s1 else if s2 >= s3 then s2 else s3
  }

  /** `Math.max` of the three `sim` calls for one tab. */
  method TabScore(x: Tab, needle: string) returns (score: real)
    ensures score == Score(x, needle)
  {
    var s1 := Sim(x.title.GetOr(""), needle);
    var s2 := Sim(x.url.GetOr(""), needle);
    var s3 := Sim(x.host, needle);
    score := if s1 >= s2 && s1 >= s3 then s1 else if s2 >= s3 then s2 else s3;
  }

  /** The threshold a fuzzy match must reach. */
  const Threshold: real := 0.6

  /** The fuzzy scores of all tabs, in order. */
  function Scores(tabs: seq<Tab>, needle: string): (s: seq<real>)
    ensures |s| == |tabs|
  {
    if tabs == [] then [] else [Score(tabs[0], needle)] + Scores(tabs[1..], needle)
  }

  lemma {:induction false} ScoresAt(tabs: seq<Tab>, needle: string, k: nat)
    requires k < |tabs|
    ensures Scores(tabs, needle)[k] == Score(tabs[k], needle)
  {
    if k > 0 {
      ScoresAt(tabs[1..], needle, k - 1);
    }
  }

  /** Position `i` holds the earliest greatest score, and that score is positive. */
  predicate IsBest(scores: seq<real>, i: nat) {
    && i < |scores|
    && scores[i] > 0.0
    && (forall k :: 0 <= k < i ==> scores[k] < scores[i])
    && (forall k :: i < k < |scores| ==> scores[k] <= scores[i])
  }

  /** The earliest best position is unique. */
  lemma BestUnique(scores: seq<real>, i: nat, j: nat)
    requires IsBest(scores, i) && IsBest(scores, j)
    ensures i == j
  {
  }

  /** A reference for the fuzzy pass: the earliest greatest positive score, found from the right end of the prefix. */
  function BestIndex(scores: seq<real>): (r: Option<nat>)
    ensures r.Some? ==> r.value < |scores|
  {
    if scores == [] then None
    else
      var init := scores[..|scores| - 1];
      var last := scores[|scores| - 1];
      match BestIndex(init)
      case None => if last > 0.0 then Some(|scores| - 1) else None
      case Some(i) => if last > init[i] then Some(|scores| - 1) else Some(i)
  }

  /** `BestIndex` finds exactly the best position, and finds none only when no score is positive. */
  lemma {:induction false} BestIndexSpec(scores: seq<real>)
    ensures BestIndex(scores).Some? ==> IsBest(scores, BestIndex(scores).value)
    ensures BestIndex(scores).None? <==> forall k :: 0 <= k < |scores| ==> scores[k] <= 0.0
  {
    if scores != [] {
      var init := scores[..|scores| - 1];
      BestIndexSpec(init);
      assert forall k :: 0 <= k < |init| ==> init[k] == scores[k];
    }
  }

  /** The tab `activateTabByMatch` activates, as a function of the tabs and the lower-cased needle. */
  function Activation(tabs: seq<Tab>, needle: string): (r: Option<nat>)
    ensures r.Some? ==> r.value < |tabs|
  {
    match FindHit(tabs, needle)
    case Some(i) => Some(i)
    case None =>
      var scores := Scores(tabs, needle);
      var b := BestIndex(scores);
      if b.Some? && scores[b.value] >= Threshold then b else None
  }

  /** What the fuzzy pass knows after the first k scores. */
  predicate BestSoFar(scores: seq<real>, k: nat, best: Option<nat>, bestScore: real)
    requires k <= |scores|
  {
    && (best.None? ==> bestScore == 0.0 && forall k' :: 0 <= k' < k ==> scores[k'] <= 0.0)
    && (best.Some? ==> best.value < k && bestScore == scores[best.value] && IsBest(scores[..k], best.value))
  }

  /** One more score: a strictly greater one takes over. */
  lemma BestSoFarStep(scores: seq<real>, k: nat, best: Option<nat>, bestScore: real)
    requires k < |scores| && BestSoFar(scores, k, best, bestScore)
    ensures scores[k] > bestScore ==> BestSoFar(scores, k + 1, Some(k), scores[k])
    ensures scores[k] <= bestScore ==> BestSoFar(scores, k + 1, best, bestScore)
  {
    assert scores[..k + 1] == scores[..k] + [scores[k]];
  }

  /** The fuzzy pass of `activateTabByMatch`: a strict `>` against the best score so far, starting from 0. */
  method BestMatch(tabs: seq<Tab>, needle: string) returns (best: Option<nat>, bestScore: real)
    ensures best.None? ==> bestScore == 0.0 && forall k :: 0 <= k < |tabs| ==> Scores(tabs, needle)[k] <= 0.0
    ensures best.Some? ==> IsBest(Scores(tabs, needle), best.value) && bestScore == Scores(tabs, needle)[best.value]
  {
    ghost var scores := Scores(tabs, needle);
    best := None;
    bestScore := 0.0;
    for k := 0 to |tabs|
      invariant BestSoFar(scores, k, best, bestScore)
    {
      var score := TabScore(tabs[k], needle);
      ScoresAt(tabs, needle, k);
      BestSoFarStep(scores, k, best, bestScore);
      if score > bestScore {
        bestScore := score;
        best := Some(k);
      }
    }
    assert scores[..|tabs|] == scores;
  }

  /**
   * `activateTabByMatch`: the index of the tab it activates, or None for
   * `{ok: false, error: 'No tab matched'}`. Without a substring hit, the tab
   * taken is the earliest best-scoring one, and only if it reaches the threshold.
   */
  method ActivateTabByMatch(tabs: seq<Tab>, query: string) returns (r: Option<nat>)
    ensures var needle := Lower(query);
      match FindHit(tabs, needle)
      case Some(i) => r == Some(i)
      case None =>
        var scores := Scores(tabs, needle);
        && (r.Some? ==> IsBest(scores, r.value) && scores[r.value] >= Threshold)
        && (r.None? ==> forall k :: 0 <= k < |tabs| ==> scores[k] < Threshold)
    ensures r == Activation(tabs, Lower(query))
  {
    var needle := Lower(query);
    r := FindHit(tabs, needle);
    if r.None? {
      var best, bestScore := BestMatch(tabs, needle);
      BestIndexSpec(Scores(tabs, needle));
      if best.Some? && BestIndex(Scores(tabs, needle)).Some? {
        BestUnique(Scores(tabs, needle), best.value, BestIndex(Scores(tabs, needle)).value);
      }
      if bestScore >= Threshold {
        r := best;
      }
    }
  }

  /** A tab whose title or URL contains the needle is chosen over any better-scoring tab after it. */
  lemma SubstringWins(tabs: seq<Tab>, query: string, i: nat)
    requires i < |tabs| && Hit(tabs[i], Lower(query))
    ensures FindHit(tabs, Lower(query)).Some? && FindHit(tabs, Lower(query)).value <= i
  {
    FindHitFirst(tabs, Lower(query));
  }

  /** The result of `closeTabByMatch`. */
  datatype Closing = NoTabMatched | Closed(id: int, remaining: seq<Tab>)

  /** `closeTabByMatch`: substring matching only; the first hit is removed. */
  function CloseTabByMatch(tabs: seq<Tab>, query: string): (r: Closing)
    ensures r.NoTabMatched? <==> forall k :: 0 <= k < |tabs| ==> !Hit(tabs[k], Lower(query))
    ensures r.Closed? ==> exists i :: (
      && 0 <= i < |tabs| && Hit(tabs[i], Lower(query)) && r.id == tabs[i].id
      && (forall k :: 0 <= k < i ==> !Hit(tabs[k], Lower(query)))
      && r.remaining == tabs[..i] + tabs[i + 1..])
  {
    FindHitFirst(tabs, Lower(query));
    match FindHit(tabs, Lower(query))
    case None => NoTabMatched
    case Some(i) => Closed(tabs[i].id, tabs[..i] + tabs[i + 1..])
  }
}
