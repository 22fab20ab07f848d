/**
 * The directory snapshot every detector reads instead of the disk. A
 * directory lists its entries in the order the operating system returns
 * them; a file carries its name, its exec bit, its size, its text split into
 * lines (None when it cannot be opened as text) and, for JSON/YAML
 * manifests, the parsed view of its top-level mapping (None when it does not
 * parse to a mapping).
 */
module FileTree {
  import opened Text

  /** A parsed JSON/YAML value: a string, a mapping with its keys in
      declaration order, a list, or any other scalar (number, boolean, null)
      with its Python truth value. */
  datatype Value = Str(s: string) | Mapping(entries: seq<(string, Value)>) | List(items: seq<Value>) | Scalar(truthy: bool)

  /** Python's truth value of a parsed value. */
  predicate Truthy(v: Value) {
    match v
    case Str(s) => s != ""
    case Mapping(es) => es != []
    case List(items) => items != []
    case Scalar(t) => t
  }

  /** len(v); None where len raises (a scalar). */
  function Len(v: Value): Option<nat> {
    match v
    case Str(s) => Some(|s|)
    case Mapping(es) => Some(|es|)
    case List(items) => Some(|items|)
    case Scalar(_) => None
  }

  /** The parsed top-level mapping of a manifest. A parsed mapping holds each
      key once (DistinctKeys); where the file repeats a key the parser keeps
      the last occurrence, so a document is built with that one entry. */
  datatype Doc = Doc(fields: seq<(string, Value)>)

  datatype File = File(
    name: string,
    executable: bool,
    size: nat,
    text: Option<seq<string>>,
    doc: Option<Doc>)

  datatype Entry = FileEntry(file: File) | DirEntry(dir: Dir)

  datatype Dir = Dir(name: string, readable: bool, entries: seq<Entry>)

  function EntryName(e: Entry): string {
    match e
    case FileEntry(f) => f.name
    case DirEntry(d) => d.name
  }

  /** The first entry of d with this name. */
  function Find(d: Dir, name: string): (r: Option<Entry>)
    ensures r.Some? ==> r.value in d.entries && EntryName(r.value) == name
    ensures r.None? ==> forall e :: e in d.entries ==> EntryName(e) != name
  {
    FindFrom(d.entries, name)
  }

  function FindFrom(es: seq<Entry>, name: string): (r: Option<Entry>)
    ensures r.Some? ==> r.value in es && EntryName(r.value) == name
    ensures r.None? ==> forall e :: e in es ==> EntryName(e) != name
  {
    if es == [] then None
    else if EntryName(es[0]) == name then Some(es[0])
    else FindFrom(es[1..], name)
  }

  /** (path / name).exists(): a file or a directory of that name. */
  predicate Exists(d: Dir, name: string) {
    Find(d, name).Some?
  }

  /** (path / a / b / ...).exists() for a relative path of several segments. */
  predicate ExistsPath(d: Dir, segs: seq<string>)
    decreases |segs|
  {
    if segs == [] then true
    else if |segs| == 1 then Exists(d, segs[0])
    else match Find(d, segs[0])
      case Some(DirEntry(sub)) => ExistsPath(sub, segs[1..])
      case _ => false
  }

  /** The lines of a file of d, when it exists, is a file, and can be read as text. */
  function TextOf(d: Dir, name: string): Option<seq<string>> {
    match Find(d, name)
    case Some(FileEntry(f)) => f.text
    case _ => None
  }

  /** The parsed mapping of a manifest of d, when it exists and parses. */
  function DocOf(d: Dir, name: string): Option<Doc> {
    match Find(d, name)
    case Some(FileEntry(f)) => f.doc
    case _ => None
  }

  /** data.get(key, {}): the value under key, an empty mapping when absent. */
  function Get(doc: Doc, key: string): (r: Value)
    ensures ValueOf(doc.fields, key).None? ==> r == Mapping([])
    ensures ValueOf(doc.fields, key).Some? ==> r == ValueOf(doc.fields, key).value
  {
    match ValueOf(doc.fields, key)
    case Some(v) => v
    case None => Mapping([])
  }

  function Keys(entries: seq<(string, Value)>): (r: seq<string>)
    ensures |r| == |entries|
    ensures forall i :: 0 <= i < |r| ==> r[i] == entries[i].0
  {
    seq(|entries|, i requires 0 <= i < |entries| => entries[i].0)
  }

  /** Each key occurs at most once, as in a mapping a JSON, TOML or YAML parser returns. */
  predicate DistinctKeys(entries: seq<(string, Value)>) {
    forall i, j :: 0 <= i < j < |entries| ==> entries[i].0 != entries[j].0
  }

  /** In a mapping with distinct keys, every entry is what its key looks up. */
  lemma {:induction false} ValueOfDistinct(entries: seq<(string, Value)>, k: nat)
    requires DistinctKeys(entries) && k < |entries|
    ensures ValueOf(entries, entries[k].0) == Some(entries[k].1)
  {
    if k > 0 {
      assert entries[0].0 != entries[k].0;
      assert entries[k] == entries[1..][k - 1];
      ValueOfDistinct(entries[1..], k - 1);
    }
  }

  /** The value stored under key in a mapping, if any. */
  function ValueOf(entries: seq<(string, Value)>, key: string): (r: Option<Value>)
    ensures r.Some? <==> key in Keys(entries)
  {
    if entries == [] then None
    else if entries[0].0 == key then Some(entries[0].1)
    else
      var r := ValueOf(entries[1..], key);
      assert Keys(entries) == [entries[0].0] + Keys(entries[1..]);
      r
  }

  /** Python's Path.suffix: from the last dot, unless the dot is first or last. */
  function Suffix(name: string): (r: string)
    ensures EndsWith(name, r)
    ensures r != [] ==> r[0] == '.' && |r| >= 2 && |r| < |name|
    ensures r != [] ==> forall j :: 1 <= j < |r| ==> r[j] != '.'
    ensures r == [] <==> forall i :: 0 < i < |name| - 1 && name[i] == '.' ==>
      exists j :: i < j < |name| && name[j] == '.'
  {
    match LastDot(name)
    case Some(i) =>
      if 0 < i < |name| - 1 then
        var r := name[i..];
        assert forall j :: 1 <= j < |r| ==> r[j] == name[i + j];
        r
      else
        assert i == |name| - 1 ==> forall k :: 0 < k < |name| - 1 && name[k] == '.' ==> k < i && name[i] == '.';
        ""
    case None => ""
  }

  /** Python's Path.stem: the name without its suffix. */
  function Stem(name: string): (r: string)
    ensures name == r + Suffix(name)
  {
    name[..|name| - |Suffix(name)|]
  }

  function LastDot(s: string): (r: Option<nat>)
    ensures r.Some? ==> r.value < |s| && s[r.value] == '.'
    ensures r.Some? ==> forall j :: r.value < j < |s| ==> s[j] != '.'
    ensures r.None? ==> !('.' in s)
  {
    if s == [] then None
    else if s[|s| - 1] == '.' then Some(|s| - 1)
    else
      var r := LastDot(s[..|s| - 1]);
      assert s == s[..|s| - 1] + [s[|s| - 1]];
      r
  }

  /** The path separator of the host. */
  function Sep(windows: bool): string {
    if windows then "\\" else "/"
  }

  /** str(path / name). */
  function Child(path: string, name: string, windows: bool): string {
    path + Sep(windows) + name
  }

  /** A snapshot that a real file system could produce: non-empty entry names
      without a path separator, unique within their directory. */
  predicate WellFormed(d: Dir) {
    && (forall i :: 0 <= i < |d.entries| ==> NameOk(EntryName(d.entries[i])))
    && (forall i, j :: 0 <= i < j < |d.entries| ==> EntryName(d.entries[i]) != EntryName(d.entries[j]))
    && (forall i :: 0 <= i < |d.entries| && d.entries[i].DirEntry? ==> WellFormed(d.entries[i].dir))
  }

  predicate NameOk(name: string) {
    name != "" && !('/' in name) && !('\\' in name)
  }
}
