/**
 * The logic of `createJsonViewer` in the side panel: the raw result is shown
 * with every string under a key named `html` or `text` (in any case) replaced
 * by a short placeholder; when such a field exists, the first one found in
 * breadth-first order is offered as a preview that grows by clicks.
 */
module JsonViewer {
  import opened Wrappers
  import opened Text

  /** A parsed JSON value; an object keeps its members in key order. */
  datatype Json =
    | JNull
    | JBool(b: bool)
    | JNum(literal: string)
    | JStr(s: string)
    | JArr(items: seq<Json>)
    | JObj(members: seq<(string, Json)>)

  /** `value && typeof value === 'object'`: arrays and objects. */
  predicate IsObject(j: Json) {
    j.JArr? || j.JObj?
  }

  // ---------------------------------------------------------------------------
  // Size, for termination

  function Size(j: Json): nat
    decreases j
  {
    match j
    case JArr(items) => 1 + ItemsSize(items)
    case JObj(members) => 1 + FieldsSize(members)
    case _ => 1
  }

  function ItemsSize(items: seq<Json>): nat
    decreases items
  {
    if items == [] then 0 else Size(items[0]) + ItemsSize(items[1..])
  }

  function FieldSize(f: (string, Json)): nat
    decreases f
  {
    Size(f.1)
  }

  function FieldsSize(fs: seq<(string, Json)>): nat
    decreases fs
  {
    if fs == [] then 0 else FieldSize(fs[0]) + FieldsSize(fs[1..])
  }

  lemma {:induction false} FieldsSizeAt(fs: seq<(string, Json)>, k: nat)
    requires k < |fs|
    ensures Size(fs[k].1) <= FieldsSize(fs)
  {
    if k > 0 {
      FieldsSizeAt(fs[1..], k - 1);
    }
  }

  // ---------------------------------------------------------------------------
  // Keys

  function DigitChar(d: nat): (c: char)
    requires d < 10
    ensures '0' <= c <= '9'
  {
    ['0', '1', '2', '3', '4', '5', '6', '7', '8', '9'][d]
  }

  /** The decimal form of a number, as template literals and array keys write it. */
  function NatToString(n: nat): (s: string)
    ensures |s| >= 1 && forall k :: 0 <= k < |s| ==> '0' <= s[k] <= '9'
  {
    if n < 10 then [DigitChar(n)] else NatToString(n / 10) + [DigitChar(n % 10)]
  }

  /** A key named `html` or `text`, in any case (the empty key of the root never is). */
  predicate HeavyKey(k: string) {
    k != [] && (Lower(k) == "html" || Lower(k) == "text")
  }

  /** A string under a heavy key. */
  predicate HeavyField(f: (string, Json)) {
    HeavyKey(f.0) && f.1.JStr?
  }

  /** Array indices are never heavy keys. */
  lemma IndexNotHeavy(n: nat)
    ensures !HeavyKey(NatToString(n))
  {
    var s := NatToString(n);
    assert Lower(s)[0] == s[0];
  }

  /** The members of an array from index `from` on, keyed by index. */
  function ArrayFields(items: seq<Json>, from: nat): (fs: seq<(string, Json)>)
    requires from <= |items|
    ensures |fs| == |items| - from
    ensures forall k :: 0 <= k < |fs| ==> fs[k] == (NatToString(from + k), items[from + k])
    ensures FieldsSize(fs) == ItemsSize(items[from..])
    decreases |items| - from
  {
    if from == |items| then []
    else
      var rest := ArrayFields(items, from + 1);
      assert items[from..][1..] == items[from + 1..];
      [(NatToString(from), items[from])] + rest
  }

  /** `Object.keys(value)` with each key's value: the members of an object, the indexed items of an array, nothing otherwise. */
  function Fields(j: Json): (fs: seq<(string, Json)>)
    ensures FieldsSize(fs) < Size(j)
    ensures forall f :: f in fs ==> Size(f.1) < Size(j)
    ensures !IsObject(j) ==> fs == []
  {
    var fs := match j
      case JArr(items) => ArrayFields(items, 0)
      case JObj(members) => members
      case _ => [];
    forall f | f in fs
      ensures Size(f.1) < Size(j)
    {
      var k :| 0 <= k < |fs| && fs[k] == f;
      FieldsSizeAt(fs, k);
    }
    fs
  }

  /** A heavy field lies somewhere below `j`. */
  predicate HasHeavy(j: Json)
    decreases Size(j)
  {
    exists f :: f in Fields(j) && (HeavyField(f) || HasHeavy(f.1))
  }

  /** A string, a number, a boolean or null holds no field. */
  lemma ScalarNotHeavy(j: Json)
    requires !IsObject(j)
    ensures !HasHeavy(j)
  {
  }

  // ---------------------------------------------------------------------------
  // The replacer

  /** `placeholderFor(name, len)`. */
  function Placeholder(name: string, len: nat): string {
    "[" + name + " omitted: " + NatToString(len) + " chars]"
  }

  /**
   * The value `JSON.stringify` writes with the replacer, and whether the
   * replacer met a heavy field (`hasHeavy`). Nothing changes when it met none.
   */
  function Redact(j: Json): (r: (Json, bool))
    ensures !r.1 ==> r.0 == j
    decreases j
  {
    match j
    case JArr(items) => var rs := RedactItems(items); (JArr(rs.0), rs.1)
    case JObj(members) => var rs := RedactFields(members); (JObj(rs.0), rs.1)
    case _ => (j, false)
  }

  function RedactItems(items: seq<Json>): (r: (seq<Json>, bool))
    ensures !r.1 ==> r.0 == items
    decreases items
  {
    if items == [] then ([], false)
    else
      var a := Redact(items[0]);
      var b := RedactItems(items[1..]);
      assert !(a.1 || b.1) ==> [a.0] + b.0 == items;
      ([a.0] + b.0, a.1 || b.1)
  }

  function RedactField(f: (string, Json)): (r: ((string, Json), bool))
    ensures !r.1 ==> r.0 == f
    decreases f
  {
    if HeavyField(f) then ((f.0, JStr(Placeholder(Lower(f.0), |f.1.s|))), true)
    else var v := Redact(f.1); ((f.0, v.0), v.1)
  }

  function RedactFields(fs: seq<(string, Json)>): (r: (seq<(string, Json)>, bool))
    ensures !r.1 ==> r.0 == fs
    decreases fs
  {
    if fs == [] then ([], false)
    else
      var a := RedactField(fs[0]);
      var b := RedactFields(fs[1..]);
      assert !(a.1 || b.1) ==> [a.0] + b.0 == fs;
      ([a.0] + b.0, a.1 || b.1)
  }

  /**
   * What the replacer writes: a string under a heavy key becomes the
   * placeholder naming the lower-cased key and the string's length, keys and
   * order stay, every other member and item is redacted in turn, and a
   * scalar is unchanged.
   */
  lemma RedactShape(j: Json)
    ensures match j
      case JArr(items) =>
        && Redact(j).0.JArr? && |Redact(j).0.items| == |items|
        && (forall k :: 0 <= k < |items| ==> Redact(j).0.items[k] == Redact(items[k]).0)
      case JObj(members) =>
        && Redact(j).0.JObj? && |Redact(j).0.members| == |members|
        && (forall k :: 0 <= k < |members| ==> Redact(j).0.members[k].0 == members[k].0)
        && (forall k :: 0 <= k < |members| && HeavyField(members[k]) ==>
              Redact(j).0.members[k].1 == JStr(Placeholder(Lower(members[k].0), |members[k].1.s|)))
        && (forall k :: 0 <= k < |members| && !HeavyField(members[k]) ==>
              Redact(j).0.members[k].1 == Redact(members[k].1).0)
      case _ => Redact(j).0 == j
  {
    match j
    case JArr(items) => RedactItemsAt(items);
    case JObj(members) => RedactFieldsAt(members);
    case _ =>
  }

  lemma {:induction false} RedactItemsAt(items: seq<Json>)
    ensures |RedactItems(items).0| == |items|
    ensures forall k :: 0 <= k < |items| ==> RedactItems(items).0[k] == Redact(items[k]).0
  {
    if items != [] {
      RedactItemsAt(items[1..]);
      forall k | 1 <= k < |items|
        ensures RedactItems(items).0[k] == Redact(items[k]).0
      {
        assert items[1..][k - 1] == items[k];
      }
    }
  }

  lemma {:induction false} RedactFieldsAt(fs: seq<(string, Json)>)
    ensures |RedactFields(fs).0| == |fs|
    ensures forall k :: 0 <= k < |fs| ==> RedactFields(fs).0[k] == RedactField(fs[k]).0
  {
    if fs != [] {
      RedactFieldsAt(fs[1..]);
      forall k | 1 <= k < |fs|
        ensures RedactFields(fs).0[k] == RedactField(fs[k]).0
      {
        assert fs[1..][k - 1] == fs[k];
      }
    }
  }

  /** The replacer reports a heavy field exactly when one exists. */
  lemma {:induction false} RedactFlag(j: Json)
    ensures Redact(j).1 <==> HasHeavy(j)
    decreases j
  {
    match j
    case JArr(items) =>
      RedactItemsFlag(items);
      ArrayHeavy(items);
    case JObj(members) =>
      assert Fields(j) == members;
      RedactFieldsFlag(members);
    case _ =>
  }

  /** An array holds a heavy field exactly when one of its items does: its index keys are never heavy. */
  lemma ArrayHeavy(items: seq<Json>)
    ensures HasHeavy(JArr(items)) <==> exists v :: v in items && HasHeavy(v)
  {
    var j := JArr(items);
    var fs := Fields(j);
    assert fs == ArrayFields(items, 0);
    forall f | f in fs
      ensures !HeavyField(f) && f.1 in items
    {
      var k :| 0 <= k < |fs| && fs[k] == f;
      IndexNotHeavy(k);
    }
    if v :| v in items && HasHeavy(v) {
      var k :| 0 <= k < |items| && items[k] == v;
      assert fs[k] in fs;
    }
  }

  lemma {:induction false} RedactItemsFlag(items: seq<Json>)
    ensures RedactItems(items).1 <==> exists v :: v in items && HasHeavy(v)
    decreases items
  {
    if items != [] {
      RedactFlag(items[0]);
      RedactItemsFlag(items[1..]);
      assert items == [items[0]] + items[1..];
    }
  }

  lemma {:induction false} RedactFieldFlag(f: (string, Json))
    ensures RedactField(f).1 <==> HeavyField(f) || HasHeavy(f.1)
    decreases f
  {
    RedactFlag(f.1);
  }

  lemma {:induction false} RedactFieldsFlag(fs: seq<(string, Json)>)
    ensures RedactFields(fs).1 <==> exists f :: f in fs && (HeavyField(f) || HasHeavy(f.1))
    decreases fs
  {
    if fs != [] {
      RedactFieldFlag(fs[0]);
      RedactFieldsFlag(fs[1..]);
      assert fs == [fs[0]] + fs[1..];
    }
  }

  // ---------------------------------------------------------------------------
  // The breadth-first search

  /** A queued value and the keys that lead to it. */
  datatype Item = Item(value: Json, path: seq<string>)

  /** The first heavy field: its lower-cased key, its text and the keys that lead to it. */
  datatype Hit = Hit(key: string, value: string, path: seq<string>)

  function QSize(q: seq<Item>): nat {
    if q == [] then 0 else Size(q[0].value) + QSize(q[1..])
  }

  lemma {:induction false} QSizeAppend(a: seq<Item>, b: seq<Item>)
    ensures QSize(a + b) == QSize(a) + QSize(b)
  {
    if a == [] {
      assert a + b == b;
    } else {
      assert (a + b)[1..] == a[1..] + b;
      QSizeAppend(a[1..], b);
    }
  }

  /** What scanning a non-heavy member queues: its value, one key below, when that value is an object. */
  function Queued(f: (string, Json), path: seq<string>): (r: seq<Item>)
    ensures |r| <= 1 && (r != [] <==> IsObject(f.1))
    ensures r != [] ==> r[0] == Item(f.1, path + [f.0])
  {
    if IsObject(f.1) then [Item(f.1, path + [f.0])] else []
  }

  /** Scanning the keys of one value: a heavy field ends the search; otherwise the values to visit later. */
  datatype Scan = Found(hit: Hit) | Pushed(items: seq<Item>)

  function ScanFields(fs: seq<(string, Json)>, path: seq<string>): (r: Scan)
    ensures r.Pushed? ==> QSize(r.items) <= FieldsSize(fs)
  {
    if fs == [] then Pushed([])
    else if HeavyField(fs[0]) then Found(Hit(Lower(fs[0].0), fs[0].1.s, path + [fs[0].0]))
    else
      match ScanFields(fs[1..], path)
      case Found(h) => Found(h)
      case Pushed(rest) =>
        var head := Queued(fs[0], path);
        QSizeAppend(head, rest);
        Pushed(head + rest)
  }

  /** The first heavy field in breadth-first order from the queue. */
  function Search(q: seq<Item>): Option<Hit>
    decreases QSize(q)
  {
    if q == [] then None
    else
      match ScanFields(Fields(q[0].value), q[0].path)
      case Found(h) => Some(h)
      case Pushed(items) =>
        QSizeAppend(q[1..], items);
        Search(q[1..] + items)
  }

  /**
   * The loop over `Object.keys(value)`: stops at the first heavy field, and
   * otherwise appends every object-valued member to the queue.
   */
  method ScanKeys(fields: seq<(string, Json)>, path: seq<string>, queue: seq<Item>) returns (hit: Option<Hit>, after: seq<Item>)
    ensures ScanFields(fields, path).Found? ==> hit == Some(ScanFields(fields, path).hit)
    ensures ScanFields(fields, path).Pushed? ==> hit.None? && after == queue + ScanFields(fields, path).items
  {
    after := queue;
    ghost var pushed: seq<Item> := [];
    for i := 0 to |fields|
      invariant after == queue + pushed
      invariant ScanFields(fields, path) == Resume(pushed, ScanFields(fields[i..], path))
    {
      var k := fields[i].0;
      var v := fields[i].1;
      var p := path + [k];
      if HeavyKey(k) && v.JStr? {
        assert HeavyField(fields[i]);
        ScanStops(fields, i, path, pushed);
        return Some(Hit(Lower(k), v.s, p)), after;
      }
      assert !HeavyField(fields[i]);
      var head := if IsObject(v) then [Item(v, p)] else [];
      assert head == Queued(fields[i], path);
      ScanGoesOn(fields, i, path, pushed);
      assert after + head == queue + (pushed + head);
      after := after + head;
      pushed := pushed + head;
    }
    assert fields[|fields|..] == [];
    assert pushed + [] == pushed;
    assert ScanFields(fields, path) == Pushed(pushed);
    hit := None;
  }

  /** Continuing a scan after some values were already queued. */
  function Resume(pushed: seq<Item>, r: Scan): Scan {
    match r
    case Found(h) => Found(h)
    case Pushed(items) => Pushed(pushed + items)
  }

  lemma ResumeAppend(a: seq<Item>, b: seq<Item>, r: Scan)
    ensures Resume(a, Resume(b, r)) == Resume(a + b, r)
  {
    if r.Pushed? {
      assert a + (b + r.items) == (a + b) + r.items;
    }
  }

  /** A heavy field `i` ends the scan with its hit. */
  lemma ScanStops(fs: seq<(string, Json)>, i: nat, path: seq<string>, pushed: seq<Item>)
    requires i < |fs| && HeavyField(fs[i])
    requires ScanFields(fs, path) == Resume(pushed, ScanFields(fs[i..], path))
    ensures ScanFields(fs, path) == Found(Hit(Lower(fs[i].0), fs[i].1.s, path + [fs[i].0]))
  {
    ScanStep(fs, i, path);
  }

  /** Past a field that is not heavy, the scan goes on with that field's value queued if it is an object. */
  lemma ScanGoesOn(fs: seq<(string, Json)>, i: nat, path: seq<string>, pushed: seq<Item>)
    requires i < |fs| && !HeavyField(fs[i])
    requires ScanFields(fs, path) == Resume(pushed, ScanFields(fs[i..], path))
    ensures ScanFields(fs, path) ==
      Resume(pushed + Queued(fs[i], path), ScanFields(fs[i + 1..], path))
  {
    ScanStep(fs, i, path);
    ResumeAppend(pushed, Queued(fs[i], path), ScanFields(fs[i + 1..], path));
  }

  /** Scanning from field `i` looks at field `i`, then at the fields after it. */
  lemma ScanStep(fs: seq<(string, Json)>, i: nat, path: seq<string>)
    requires i < |fs|
    ensures ScanFields(fs[i..], path) ==
      if HeavyField(fs[i]) then Found(Hit(Lower(fs[i].0), fs[i].1.s, path + [fs[i].0]))
      else Resume(Queued(fs[i], path), ScanFields(fs[i + 1..], path))
  {
    assert fs[i..][0] == fs[i];
    assert fs[i..][1..] == fs[i + 1..];
  }

  /**
   * `findFirstHeavy`: a queue drained from the front, each object's keys
   * scanned in order. It finds a field exactly when the result holds a heavy
   * one; the field it finds is a heavy string its path leads to, and no
   * heavy string lies on a shorter path.
   */
  method FindFirstHeavy(root: Json) returns (hit: Option<Hit>)
    ensures hit == Search([Item(root, [])])
    ensures hit.Some? <==> HasHeavy(root)
    ensures hit.Some? ==> SoundHit(root, hit.value)
    ensures hit.Some? ==> forall p :: HeavyPath(root, p) ==> |p| >= |hit.value.path|
  {
    SearchFindsIff([Item(root, [])]);
    assert Item(root, []) in [Item(root, [])];
    SearchSound(root, [Item(root, [])]);
    FindFirstHeavyFirst(root);
    var queue := [Item(root, [])];
    while |queue| > 0
      invariant Search(queue) == Search([Item(root, [])])
      decreases QSize(queue)
    {
      var item := queue[0];
      var rest := queue[1..];
      var fields := Fields(item.value);
      var found;
      if IsObject(item.value) {
        found, queue := ScanKeys(fields, item.path, rest);
      } else {
        found := None;
        queue := rest;
        assert rest + [] == rest;
      }
      if found.Some? {
        return found;
      }
      QSizeAppend(rest, ScanFields(fields, item.path).items);
    }
    return None;
  }

  /** Some queued value holds a heavy field. */
  predicate AnyHeavy(q: seq<Item>) {
    exists it :: it in q && HasHeavy(it.value)
  }

  lemma AnyHeavyAppend(a: seq<Item>, b: seq<Item>)
    ensures AnyHeavy(a + b) <==> AnyHeavy(a) || AnyHeavy(b)
  {
    assert forall it :: it in a + b <==> it in a || it in b;
  }

  /** A scan finds something exactly when one of the fields is heavy. */
  lemma {:induction false} ScanFound(fs: seq<(string, Json)>, path: seq<string>)
    ensures ScanFields(fs, path).Found? <==> exists f :: f in fs && HeavyField(f)
  {
    if fs != [] && !HeavyField(fs[0]) {
      ScanFound(fs[1..], path);
      assert fs == [fs[0]] + fs[1..];
    }
  }

  /** What a scan queues holds a heavy field exactly when some field's value does. */
  lemma {:induction false} ScanPushed(fs: seq<(string, Json)>, path: seq<string>)
    requires ScanFields(fs, path).Pushed?
    ensures (exists f :: f in fs && HasHeavy(f.1)) <==> AnyHeavy(ScanFields(fs, path).items)
  {
    if fs != [] {
      ScanPushed(fs[1..], path);
      var rest := ScanFields(fs[1..], path).items;
      var head: seq<Item> := Queued(fs[0], path);
      AnyHeavyAppend(head, rest);
      if !IsObject(fs[0].1) {
        ScalarNotHeavy(fs[0].1);
      } else {
        assert head[0] in head;
      }
      assert fs == [fs[0]] + fs[1..];
    }
  }

  /** The search finds something exactly when some queued value holds a heavy field. */
  lemma {:induction false} SearchFindsIff(q: seq<Item>)
    ensures Search(q).Some? <==> AnyHeavy(q)
    decreases QSize(q)
  {
    if q != [] {
      var fs := Fields(q[0].value);
      ScanFound(fs, q[0].path);
      assert q == [q[0]] + q[1..];
      AnyHeavyAppend([q[0]], q[1..]);
      match ScanFields(fs, q[0].path)
      case Found(h) =>
        assert q[0] in q;
      case Pushed(items) =>
        ScanPushed(fs, q[0].path);
        QSizeAppend(q[1..], items);
        SearchFindsIff(q[1..] + items);
        AnyHeavyAppend(q[1..], items);
    }
  }

  /** A preview is offered exactly when the replacer met a heavy field. */
  lemma PreviewIffRedacted(root: Json)
    ensures Search([Item(root, [])]).Some? <==> Redact(root).1
  {
    SearchFindsIff([Item(root, [])]);
    RedactFlag(root);
  }

  /** `path` leads from `root` to `v`, one member key at a time. */
  ghost predicate Reaches(root: Json, path: seq<string>, v: Json)
    decreases |path|
  {
    if path == [] then v == root
    else exists u :: Reaches(root, path[..|path| - 1], u) && (path[|path| - 1], v) in Fields(u)
  }

  /** A scan's hit is a heavy field of the scanned value, one key below it. */
  lemma {:induction false} ScanFoundSound(fs: seq<(string, Json)>, path: seq<string>)
    requires ScanFields(fs, path).Found?
    ensures var h := ScanFields(fs, path).hit;
      && |h.path| == |path| + 1 && h.path == path + [h.path[|path|]]
      && (h.path[|path|], JStr(h.value)) in fs
      && HeavyKey(h.path[|path|]) && h.key == Lower(h.path[|path|])
  {
    if !HeavyField(fs[0]) {
      ScanFoundSound(fs[1..], path);
      assert fs == [fs[0]] + fs[1..];
    }
  }

  /** What a scan queues are member values of the scanned value, one key below it. */
  lemma {:induction false} ScanPushedSound(fs: seq<(string, Json)>, path: seq<string>)
    requires ScanFields(fs, path).Pushed?
    ensures forall it :: it in ScanFields(fs, path).items ==>
      |it.path| == |path| + 1 && it.path == path + [it.path[|path|]] && (it.path[|path|], it.value) in fs
  {
    if fs != [] {
      ScanPushedSound(fs[1..], path);
      assert fs == [fs[0]] + fs[1..];
    }
  }

  /** One more key below a reached value is reached. */
  lemma ReachesStep(root: Json, u: Json, path: seq<string>, key: string, v: Json)
    requires Reaches(root, path, u) && (key, v) in Fields(u)
    ensures Reaches(root, path + [key], v)
  {
    assert (path + [key])[..|path|] == path;
  }

  /** A hit names a heavy key holding a string that its path reaches from the root. */
  ghost predicate SoundHit(root: Json, h: Hit) {
    && |h.path| >= 1 && HeavyKey(h.path[|h.path| - 1]) && h.key == Lower(h.path[|h.path| - 1])
    && Reaches(root, h.path, JStr(h.value))
  }

  /** A heavy field found in a reached value is a sound hit. */
  lemma FoundSound(root: Json, item: Item)
    requires Reaches(root, item.path, item.value)
    requires ScanFields(Fields(item.value), item.path).Found?
    ensures SoundHit(root, ScanFields(Fields(item.value), item.path).hit)
  {
    var fs := Fields(item.value);
    var path := item.path;
    ScanFoundSound(fs, path);
    var h := ScanFields(fs, path).hit;
    ReachesStep(root, item.value, path, h.path[|path|], JStr(h.value));
  }

  /** The values a scan of a reached value queues are reached too. */
  lemma PushedReached(root: Json, item: Item)
    requires Reaches(root, item.path, item.value)
    requires ScanFields(Fields(item.value), item.path).Pushed?
    ensures forall it :: it in ScanFields(Fields(item.value), item.path).items ==> Reaches(root, it.path, it.value)
  {
    var fs := Fields(item.value);
    var path := item.path;
    ScanPushedSound(fs, path);
    forall it | it in ScanFields(fs, path).items
      ensures Reaches(root, it.path, it.value)
    {
      ReachesStep(root, item.value, path, it.path[|path|], it.value);
    }
  }

  /** Every hit of a search from reached values is sound. */
  lemma {:induction false} SearchSound(root: Json, q: seq<Item>)
    requires forall it :: it in q ==> Reaches(root, it.path, it.value)
    ensures Search(q).Some? ==> SoundHit(root, Search(q).value)
    decreases QSize(q)
  {
    if q != [] {
      assert q[0] in q;
      match ScanFields(Fields(q[0].value), q[0].path)
      case Found(h) =>
        FoundSound(root, q[0]);
      case Pushed(items) =>
        PushedReached(root, q[0]);
        QSizeAppend(q[1..], items);
        assert forall it :: it in q[1..] + items ==> it in q[1..] || it in items;
        SearchSound(root, q[1..] + items);
    }
  }

  /** The preview, when there is one, is a heavy string of the result and its path leads to it. */
  lemma FindFirstHeavySound(root: Json)
    ensures Search([Item(root, [])]).Some? ==>
      var h := Search([Item(root, [])]).value;
      && |h.path| >= 1
      && (h.key == "html" || h.key == "text") && h.key == Lower(h.path[|h.path| - 1])
      && Reaches(root, h.path, JStr(h.value))
  {
    var q := [Item(root, [])];
    assert forall it :: it in q ==> it == q[0];
    assert Reaches(root, [], root);
    SearchSound(root, q);
    var r := Search(q);
    if r.Some? {
      SoundHitKey(root, r.value);
    }
  }

  /** A sound hit's key is `html` or `text`, as the last key of its path reads in lower case. */
  lemma SoundHitKey(root: Json, h: Hit)
    requires SoundHit(root, h)
    ensures |h.path| >= 1 && (h.key == "html" || h.key == "text") && h.key == Lower(h.path[|h.path| - 1])
    ensures Reaches(root, h.path, JStr(h.value))
  {
  }

  // ---------------------------------------------------------------------------
  // Breadth first: no heavy string lies nearer the root than the hit

  /** A heavy key whose value is a string, at the end of `p`. */
  ghost predicate HeavyPath(root: Json, p: seq<string>) {
    && |p| >= 1 && HeavyKey(p[|p| - 1])
    && exists u, s :: Reaches(root, p[..|p| - 1], u) && (p[|p| - 1], JStr(s)) in Fields(u)
  }

  /** One of the keys of `u` is heavy and holds a string. */
  predicate DirectHeavy(u: Json) {
    exists f :: f in Fields(u) && HeavyField(f)
  }

  /** The queue is ordered by depth, and holds at most two depths. */
  predicate Layered(q: seq<Item>) {
    forall i, j :: 0 <= i <= j < |q| ==> |q[i].path| <= |q[j].path| <= |q[i].path| + 1
  }

  /** `u`, reached by `p`, lies below a queued value on the way `p` takes. */
  ghost predicate Covered(q: seq<Item>, p: seq<string>, u: Json) {
    exists i, rest :: 0 <= i < |q| && p == q[i].path + rest && Reaches(q[i].value, rest, u)
  }

  /** Every value holding a heavy string lies below a queued value. */
  ghost predicate CoversHeavy(root: Json, q: seq<Item>) {
    forall p, u :: Reaches(root, p, u) && DirectHeavy(u) ==> Covered(q, p, u)
  }

  /** A path can be walked from its first key. */
  lemma {:induction false} ReachesFront(x: Json, p: seq<string>, u: Json)
    requires |p| >= 1 && Reaches(x, p, u)
    ensures exists w :: (p[0], w) in Fields(x) && Reaches(w, p[1..], u)
    decreases |p|
  {
    var last := p[|p| - 1];
    var init := p[..|p| - 1];
    var u' :| Reaches(x, init, u') && (last, u) in Fields(u');
    if |p| == 1 {
      assert init == [];
      assert u' == x;
      assert p[1..] == [];
      assert Reaches(u, p[1..], u);
    } else {
      ReachesFront(x, init, u');
      var w :| (init[0], w) in Fields(x) && Reaches(w, init[1..], u');
      InitTail(p);
      ReachesStep(w, u', init[1..], last, u);
    }
  }

  /** Dropping the last key, then the first, and putting the last back drops only the first. */
  lemma InitTail(p: seq<string>)
    requires |p| >= 2
    ensures p[..|p| - 1][0] == p[0]
    ensures p[..|p| - 1][1..] + [p[|p| - 1]] == p[1..]
  {
  }

  /** Only an array or an object leads to a value holding a heavy string. */
  lemma ReachesDirectObject(x: Json, p: seq<string>, u: Json)
    requires Reaches(x, p, u) && DirectHeavy(u)
    ensures IsObject(x)
  {
    if p != [] {
      ReachesFront(x, p, u);
    }
  }

  /** A scan that finds nothing queues every object-valued member, one key below. */
  lemma {:induction false} ScanPushedComplete(fs: seq<(string, Json)>, path: seq<string>)
    requires ScanFields(fs, path).Pushed?
    ensures forall f :: f in fs && IsObject(f.1) ==> Item(f.1, path + [f.0]) in ScanFields(fs, path).items
  {
    if fs != [] {
      ScanPushedComplete(fs[1..], path);
      assert fs == [fs[0]] + fs[1..];
    }
  }

  /** Scanning the front of a layered queue keeps it layered. */
  lemma StepLayered(q: seq<Item>, items: seq<Item>)
    requires q != [] && Layered(q)
    requires forall it :: it in items ==> |it.path| == |q[0].path| + 1
    ensures Layered(q[1..] + items)
  {
    var q' := q[1..] + items;
    forall i, j | 0 <= i <= j < |q'|
      ensures |q'[i].path| <= |q'[j].path| <= |q'[i].path| + 1
    {
      if j < |q| - 1 {
        assert q'[i] == q[i + 1] && q'[j] == q[j + 1];
      } else if i < |q| - 1 {
        assert q'[i] == q[i + 1] && q'[j] in items;
      } else {
        assert q'[i] in items && q'[j] in items;
      }
    }
  }

  /** Scanning a front that holds no heavy string keeps every heavy string covered. */
  lemma StepCovers(root: Json, q: seq<Item>, items: seq<Item>)
    requires q != [] && CoversHeavy(root, q)
    requires ScanFields(Fields(q[0].value), q[0].path) == Pushed(items)
    ensures CoversHeavy(root, q[1..] + items)
  {
    forall p, u | Reaches(root, p, u) && DirectHeavy(u)
      ensures Covered(q[1..] + items, p, u)
    {
      CoveredAfterStep(q, items, p, u);
    }
  }

  /** A value holding a heavy string that lies below the queue still does after the front is scanned. */
  lemma CoveredAfterStep(q: seq<Item>, items: seq<Item>, p: seq<string>, u: Json)
    requires q != [] && Covered(q, p, u) && DirectHeavy(u)
    requires ScanFields(Fields(q[0].value), q[0].path) == Pushed(items)
    ensures Covered(q[1..] + items, p, u)
  {
    var q' := q[1..] + items;
    var i, rest :| 0 <= i < |q| && p == q[i].path + rest && Reaches(q[i].value, rest, u);
    if i >= 1 {
      assert q'[i - 1] == q[i];
      assert 0 <= i - 1 < |q'| && p == q'[i - 1].path + rest && Reaches(q'[i - 1].value, rest, u);
    } else {
      FrontCovered(q[0], items, rest, u);
      CoveredByPushed(q, items, p, u);
    }
  }

  /** What lies below a value just queued is covered by the queue after the step. */
  lemma CoveredByPushed(q: seq<Item>, items: seq<Item>, p: seq<string>, u: Json)
    requires q != []
    requires exists it, rest :: it in items && p == it.path + rest && Reaches(it.value, rest, u)
    ensures Covered(q[1..] + items, p, u)
  {
    var q' := q[1..] + items;
    var it, rest :| it in items && p == it.path + rest && Reaches(it.value, rest, u);
    var k :| 0 <= k < |items| && items[k] == it;
    assert q'[|q| - 1 + k] == it;
  }

  /** What lies below a scanned value that holds no heavy string lies below one of the values queued. */
  lemma FrontCovered(item: Item, items: seq<Item>, rest: seq<string>, u: Json)
    requires ScanFields(Fields(item.value), item.path) == Pushed(items)
    requires Reaches(item.value, rest, u) && DirectHeavy(u)
    ensures exists it, rest' :: it in items && item.path + rest == it.path + rest' && Reaches(it.value, rest', u)
  {
    var fs := Fields(item.value);
    ScanFound(fs, item.path);
    ScanPushedComplete(fs, item.path);
    assert rest != [];
    ReachesFront(item.value, rest, u);
    var w :| (rest[0], w) in fs && Reaches(w, rest[1..], u);
    ReachesDirectObject(w, rest[1..], u);
    var it := Item(w, item.path + [rest[0]]);
    assert it in items;
    PathShift(item.path, rest);
  }

  lemma PathShift(path: seq<string>, rest: seq<string>)
    requires rest != []
    ensures path + rest == (path + [rest[0]]) + rest[1..]
  {
  }

  /** A search from a layered queue that covers every heavy string finds one no deeper than any other. */
  lemma {:induction false} SearchFirst(root: Json, q: seq<Item>)
    requires Layered(q) && CoversHeavy(root, q)
    ensures Search(q).Some? ==> forall p :: HeavyPath(root, p) ==> |p| >= |Search(q).value.path|
    decreases QSize(q)
  {
    if q != [] {
      var fs := Fields(q[0].value);
      match ScanFields(fs, q[0].path)
      case Found(h) =>
        ScanFoundSound(fs, q[0].path);
        forall p | HeavyPath(root, p)
          ensures |p| >= |h.path|
        {
          HeavyBelowFront(root, q, p);
        }
      case Pushed(items) =>
        ScanPushedSound(fs, q[0].path);
        StepLayered(q, items);
        StepCovers(root, q, items);
        QSizeAppend(q[1..], items);
        SearchFirst(root, q[1..] + items);
    }
  }

  /** Every heavy string lies strictly below the front of a layered queue that covers them all. */
  lemma HeavyBelowFront(root: Json, q: seq<Item>, p: seq<string>)
    requires q != [] && Layered(q) && CoversHeavy(root, q) && HeavyPath(root, p)
    ensures |p| >= |q[0].path| + 1
  {
    var init := p[..|p| - 1];
    var u, s :| Reaches(root, init, u) && (p[|p| - 1], JStr(s)) in Fields(u);
    assert DirectHeavy(u) by {
      assert HeavyField((p[|p| - 1], JStr(s)));
    }
    assert Covered(q, init, u);
    CoveredDepth(q, init, u);
  }

  /** What lies below a layered queue lies no nearer the root than its front. */
  lemma CoveredDepth(q: seq<Item>, p: seq<string>, u: Json)
    requires q != [] && Layered(q) && Covered(q, p, u)
    ensures |p| >= |q[0].path|
  {
    var i, rest :| 0 <= i < |q| && p == q[i].path + rest && Reaches(q[i].value, rest, u);
    assert |q[0].path| <= |q[i].path|;
  }

  /** The search from the root finds a heavy string no deeper than any other. */
  lemma FindFirstHeavyFirst(root: Json)
    ensures Search([Item(root, [])]).Some? ==>
      forall p :: HeavyPath(root, p) ==> |p| >= |Search([Item(root, [])]).value.path|
  {
    var q := [Item(root, [])];
    forall p, u | Reaches(root, p, u) && DirectHeavy(u)
      ensures Covered(q, p, u)
    {
      assert p == q[0].path + p;
    }
    SearchFirst(root, q);
  }

  // ---------------------------------------------------------------------------
  // The incremental preview

  const FirstShown: nat := 1000
  const StepShown: nat := 500

  /** The preview of a heavy string: `shown` characters, and the two buttons. */
  class Preview {
    const full: string
    var shown: nat
    var text: string
    var moreDisabled: bool
    var allDisabled: bool

    /** The text is the first `shown` characters, and the buttons are off exactly when all of it shows. */
    ghost predicate Valid()
      reads this
    {
      && text == full[..Min(shown, |full|)]
      && moreDisabled == (shown >= |full|)
      && allDisabled == (shown >= |full|)
    }

    /** Builds the preview and renders its first thousand characters. */
    constructor (value: string)
      ensures full == value && shown == FirstShown && Valid()
    {
      full := value;
      shown := FirstShown;
      text := [];
      moreDisabled := false;
      allDisabled := false;
      new;
      Render();
    }

    /** `render`: shows the first `shown` characters and switches both buttons off once all of them show. */
    method Render()
      modifies this
      ensures shown == old(shown)
      ensures text == full[..Min(shown, |full|)]
      ensures shown >= |full| ==> moreDisabled && allDisabled
      ensures shown < |full| ==> moreDisabled == old(moreDisabled) && allDisabled == old(allDisabled)
    {
      text := full[..Min(shown, |full|)];
      if shown >= |full| {
        moreDisabled := true;
        allDisabled := true;
      }
    }

    /** "Read more (+500)". */
    method ReadMore()
      requires Valid()
      modifies this
      ensures shown == Min(|full|, old(shown) + StepShown) && Valid()
    {
      shown := Min(|full|, shown + StepShown);
      Render();
    }

    /** "Show all". */
    method ShowAll()
      requires Valid()
      modifies this
      ensures shown == |full| && text == full && moreDisabled && allDisabled && Valid()
    {
      shown := |full|;
      Render();
    }
  }

  /** What `shown` is after `n` clicks on "Read more". */
  function ShownAfter(len: nat, n: nat): nat {
    if n == 0 then FirstShown else Min(len, ShownAfter(len, n - 1) + StepShown)
  }

  /** Each click adds five hundred characters until the whole text shows. */
  lemma {:induction false} ShownAfterClicks(len: nat, n: nat)
    requires n >= 1
    ensures ShownAfter(len, n) == Min(len, FirstShown + StepShown * n)
  {
    if n > 1 {
      ShownAfterClicks(len, n - 1);
    }
  }

  /** A text of `len` characters shows in full after `(len - 1000) / 500` clicks, rounded up. */
  lemma ClicksToShowAll(len: nat)
    requires len > FirstShown
    ensures var n := (len - FirstShown + StepShown - 1) / StepShown;
      && ShownAfter(len, n) == len
      && ShownAfter(len, n - 1) < len
  {
    var n := (len - FirstShown + StepShown - 1) / StepShown;
    ShownAfterClicks(len, n);
    if n > 1 {
      ShownAfterClicks(len, n - 1);
    }
  }
}
