/**
 * The storage-backed stubs of the MCP tools (`mcp_fs_read`, `mcp_fs_write`
 * and `mcp_rag_query` in sw.js): a virtual file system kept as a map from
 * path to whatever JSON value was written there, and a notes corpus searched
 * by case-insensitive substring.
 */
module VirtualFs {
  import opened Wrappers
  import opened Text

  /**
   * A JSON value as a tool receives it in its arguments: a string, or any
   * other value, given by what `String(value)` reads and whether it is truthy
   * (`false`, `0` and `null` are not).
   */
  datatype Value = Str(s: string) | Other(text: string, truthy: bool)

  /** JavaScript's truthiness: the empty string is falsy too. */
  predicate Truthy(v: Value) {
    match v
    case Str(s) => s != []
    case Other(_, truthy) => truthy
  }

  /** `fs[path] || ''`: the stored value when it is truthy, and "" for a missing path or a falsy value. */
  function ReadOf(files: map<string, Value>, path: string): (content: Value)
    ensures path in files && Truthy(files[path]) ==> content == files[path]
    ensures !(path in files && Truthy(files[path])) ==> content == Str([])
  {
    if path in files && Truthy(files[path]) then files[path] else Str([])
  }

  /**
   * The file map after `fs[path] = content`: the value itself is kept.
   * Storing an undefined content leaves the key out once the object is
   * serialised, so None removes it.
   */
  function WriteOf(files: map<string, Value>, path: string, content: Option<Value>): (after: map<string, Value>)
    ensures content.Some? ==> path in after && after[path] == content.value
    ensures content.None? ==> path !in after
    ensures forall p :: p != path ==> (p in after <==> p in files)
    ensures forall p :: p != path && p in files ==> after[p] == files[p]
  {
    match content
    case Some(c) => files[path := c]
    case None => files - {path}
  }

  /**
   * Reading a path just written gives what was written when it is truthy,
   * and "" when it is falsy (so `0`, `false` and `null` read back as ""); a
   * string always reads back as itself.
   */
  lemma ReadAfterWrite(files: map<string, Value>, path: string, content: Value)
    ensures Truthy(content) ==> ReadOf(WriteOf(files, path, Some(content)), path) == content
    ensures !Truthy(content) ==> ReadOf(WriteOf(files, path, Some(content)), path) == Str([])
    ensures content.Str? ==> ReadOf(WriteOf(files, path, Some(content)), path) == content
  {
  }

  /** Writing one path does not change what any other path reads. */
  lemma WriteIsolated(files: map<string, Value>, path: string, other: string, content: Option<Value>)
    requires other != path
    ensures ReadOf(WriteOf(files, path, content), other) == ReadOf(files, other)
  {
  }

  /** Writing what a path already reads changes nothing a reader can see. */
  lemma WriteSameIsInvisible(files: map<string, Value>, path: string, p: string)
    ensures ReadOf(WriteOf(files, path, Some(ReadOf(files, path))), p) == ReadOf(files, p)
  {
  }

  /** The `fs` object in extension storage. */
  class Store {
    var files: map<string, Value>

    constructor (initial: map<string, Value>)
      ensures files == initial
    {
      files := initial;
    }

    /** `mcp_fs_read`: always succeeds. */
    method Read(path: string) returns (content: Value)
      ensures content == ReadOf(files, path)
    {
      content := Str([]);
      if path in files && Truthy(files[path]) {
        content := files[path];
      }
    }

    /** `mcp_fs_write`: stores `content` under `path`. */
    method Write(path: string, content: Option<Value>)
      modifies this
      ensures files == WriteOf(old(files), path, content)
    {
      if content.Some? {
        files := files[path := content.value];
      } else {
        files := files - {path};
      }
    }
  }

  // ---------------------------------------------------------------------------
  // Notes

  /** A note of the corpus; only its `text` field is searched, and it may be absent. */
  datatype Note = Note(id: int, text: Option<string>)

  /** `(n.text || '').toLowerCase().includes(q.toLowerCase())`. */
  predicate Matches(n: Note, q: string) {
    Contains(Lower(n.text.GetOr([])), Lower(q))
  }

  /** The notes that match, in corpus order. */
  function Matching(notes: seq<Note>, q: string): (r: seq<Note>)
    ensures |r| <= |notes|
    ensures forall k :: 0 <= k < |r| ==> Matches(r[k], q) && r[k] in notes
  {
    if notes == [] then []
    else if Matches(notes[0], q) then [notes[0]] + Matching(notes[1..], q)
    else Matching(notes[1..], q)
  }

  const MaxResults: nat := 10

  /** `mcp_rag_query`: the first ten matching notes. */
  function RagQuery(notes: seq<Note>, q: string): (results: seq<Note>)
    ensures |results| <= MaxResults
    ensures forall k :: 0 <= k < |results| ==> Matches(results[k], q) && results[k] in notes
  {
    var all := Matching(notes, q);
    if |all| <= MaxResults then all else all[..MaxResults]
  }

  /** A matching note appears among the matches right after those of the notes before it. */
  lemma {:induction false} MatchingComplete(notes: seq<Note>, q: string, i: nat)
    requires i < |notes| && Matches(notes[i], q)
    ensures notes[i] in Matching(notes, q)
    ensures |Matching(notes[..i], q)| < |Matching(notes, q)|
    ensures Matching(notes, q)[|Matching(notes[..i], q)|] == notes[i]
  {
    if i == 0 {
      assert notes[..0] == [];
    } else {
      MatchingComplete(notes[1..], q, i - 1);
      assert notes[1..][i - 1] == notes[i];
      assert notes[..i][1..] == notes[1..][..i - 1];
      assert notes[..i][0] == notes[0];
    }
  }

  /** A matching note preceded by fewer than ten matching notes is among the results, in its place. */
  lemma RagQueryComplete(notes: seq<Note>, q: string, i: nat)
    requires i < |notes| && Matches(notes[i], q)
    requires |Matching(notes[..i], q)| < MaxResults
    ensures |Matching(notes[..i], q)| < |RagQuery(notes, q)|
    ensures RagQuery(notes, q)[|Matching(notes[..i], q)|] == notes[i]
  {
    MatchingComplete(notes, q, i);
  }

  /** The query is insensitive to the case of its letters. */
  lemma RagQueryCaseInsensitive(notes: seq<Note>, q: string)
    ensures RagQuery(notes, q) == RagQuery(notes, Lower(q))
  {
    MatchingCaseInsensitive(notes, q);
  }

  lemma {:induction false} MatchingCaseInsensitive(notes: seq<Note>, q: string)
    ensures Matching(notes, q) == Matching(notes, Lower(q))
  {
    LowerIdempotent(q);
    if notes != [] {
      MatchingCaseInsensitive(notes[1..], q);
    }
  }
}
