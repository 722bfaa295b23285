/** Python values as the resume parser handles them: the data `json.loads`
    returns, and the few Python operations the code applies to such data
    (truthiness, `in`, subscripting, `len`), including the exceptions those
    operations raise on values of the wrong type. */
module Values {

  import opened Text

  datatype Option<T> = None | Some(value: T)

  /** The exception classes the modelled code raises or catches. */
  datatype PyError =
    | TypeError
    | AttributeError
    | KeyError
    | ValueError(message: string)
    | DecoderError  // raised by a document decoder (PDF or DOCX reader)

  /** Outcome of a Python call that may raise. */
  datatype Result<T> = Ok(value: T) | Raised(error: PyError)

  /** A Python value built from JSON data. A dict keeps insertion order, as
      Python dicts do; floating-point numbers are not modelled. */
  datatype Value =
    | VNull
    | VBool(b: bool)
    | VInt(i: int)
    | VStr(s: string)
    | VList(items: seq<Value>)
    | VDict(entries: seq<(string, Value)>)

  /** The entries of a Python dict, in insertion order. */
  type Dict = seq<(string, Value)>

  /** Python's truth test. */
  predicate Truthy(v: Value) {
    match v
    case VNull => false
    case VBool(b) => b
    case VInt(i) => i != 0
    case VStr(s) => s != ""
    case VList(items) => items != []
    case VDict(entries) => entries != []
  }

  /** `d.get(k)`: the value stored under `k`, if any. */
  function Get(d: Dict, k: string): Option<Value> {
    if d == [] then None
    else if d[0].0 == k then Some(d[0].1)
    else Get(d[1..], k)
  }

  predicate HasKey(d: Dict, k: string) {
    Get(d, k).Some?
  }

  /** `d.get(k, default)` */
  function GetOr(d: Dict, k: string, default: Value): Value {
    match Get(d, k)
    case Some(v) => v
    case None => default
  }

  /** The keys of a dict, in order. */
  function KeysOf(d: Dict): (r: seq<string>)
    ensures |r| == |d| && forall i :: 0 <= i < |d| ==> r[i] == d[i].0
  {
    seq(|d|, i requires 0 <= i < |d| => d[i].0)
  }

  /** `d[k] = v`: overwrite in place, or append a new key at the end. */
  function Put(d: Dict, k: string, v: Value): (r: Dict)
    ensures Get(r, k) == Some(v)
    ensures forall k' :: k' != k ==> Get(r, k') == Get(d, k')
    ensures KeysOf(r) == if HasKey(d, k) then KeysOf(d) else KeysOf(d) + [k]
    decreases |d|
  {
    if d == [] then [(k, v)]
    else if d[0].0 == k then [(k, v)] + d[1..]
    else [d[0]] + Put(d[1..], k, v)
  }

  /** Assigning to one key leaves the value of another alone. */
  lemma PutOther(d: Dict, k: string, v: Value, k': string)
    requires k' != k
    ensures Get(Put(d, k, v), k') == Get(d, k')
  {
  }

  /** Assigning a key the value it already holds changes nothing. */
  lemma {:induction false} PutSame(d: Dict, k: string, v: Value)
    requires Get(d, k) == Some(v)
    ensures Put(d, k, v) == d
    decreases |d|
  {
    if d[0].0 != k {
      PutSame(d[1..], k, v);
    }
  }

  /** Two dicts with the same distinct keys in the same order and the same
      value under each key are the same dict. */
  lemma DictExt(a: Dict, b: Dict)
    requires KeysOf(a) == KeysOf(b)
    requires forall i, j :: 0 <= i < j < |a| ==> a[i].0 != a[j].0
    requires forall i :: 0 <= i < |a| ==> Get(a, a[i].0) == Get(b, a[i].0)
    ensures a == b
  {
    forall i | 0 <= i < |a|
      ensures a[i] == b[i]
    {
      assert b[i].0 == a[i].0;
      GetAt(a, i);
      GetAt(b, i);
    }
  }

  /** A dict has a key exactly when the key is among its keys. */
  lemma {:induction false} KeysOfHasKey(d: Dict, k: string)
    ensures HasKey(d, k) <==> k in KeysOf(d)
    decreases |d|
  {
    if d != [] {
      KeysOfHasKey(d[1..], k);
      assert KeysOf(d) == [d[0].0] + KeysOf(d[1..]);
    }
  }

  /** Assigning to the key at position `j`, the first with that key,
      replaces that entry and nothing else. */
  lemma {:induction false} PutAt(d: Dict, j: int, v: Value)
    requires 0 <= j < |d|
    requires forall i :: 0 <= i < j ==> d[i].0 != d[j].0
    ensures Put(d, d[j].0, v) == d[j := (d[j].0, v)]
    decreases j
  {
    if j > 0 {
      var k, t := d[j].0, d[1..];
      assert t[j - 1] == d[j];
      PutAt(t, j - 1, v);
      assert Put(d, k, v) == [d[0]] + t[j - 1 := (k, v)];
      ConsUpdate(d, j, (k, v));
    }
  }

  /** Updating position `j > 0` of a non-empty sequence updates its tail. */
  lemma ConsUpdate<T>(xs: seq<T>, j: int, y: T)
    requires 0 < j < |xs|
    ensures xs[j := y] == [xs[0]] + xs[1..][j - 1 := y]
  {
    var r := [xs[0]] + xs[1..][j - 1 := y];
    assert |r| == |xs[j := y]|;
    forall i | 0 <= i < |xs|
      ensures r[i] == xs[j := y][i]
    {
      if i > 0 { assert r[i] == xs[1..][j - 1 := y][i - 1]; }
    }
  }

  /** The value stored under the key at position `j`, the first with that
      key. */
  lemma {:induction false} GetAt(d: Dict, j: int)
    requires 0 <= j < |d|
    requires forall i :: 0 <= i < j ==> d[i].0 != d[j].0
    ensures Get(d, d[j].0) == Some(d[j].1)
    decreases j
  {
    if j > 0 {
      GetAt(d[1..], j - 1);
    }
  }

  /** The list of strings `xs` as a Python list value. */
  function Strs(xs: seq<string>): (r: seq<Value>)
    ensures |r| == |xs|
    ensures forall i :: 0 <= i < |xs| ==> r[i] == VStr(xs[i])
  {
    seq(|xs|, i requires 0 <= i < |xs| => VStr(xs[i]))
  }

  /** `key in container` for a string key: dict membership, substring test
      or list membership; any other container raises TypeError. */
  function PyIn(key: string, container: Value): Result<bool> {
    match container
    case VDict(entries) => Ok(HasKey(entries, key))
    case VStr(s) => Ok(Contains(s, key))
    case VList(items) => Ok(VStr(key) in items)
    case _ => Raised(TypeError)
  }

  /** `container[key]` for a string key: only dicts accept it. */
  function PySubscript(container: Value, key: string): Result<Value> {
    match container
    case VDict(entries) => (match Get(entries, key)
                            case Some(v) => Ok(v)
                            case None => Raised(KeyError))
    case _ => Raised(TypeError)
  }

  /** `len(v)` */
  function PyLen(v: Value): Result<nat> {
    match v
    case VStr(s) => Ok(|s|)
    case VList(items) => Ok(|items|)
    case VDict(entries) => Ok(|entries|)
    case _ => Raised(TypeError)
  }
}
