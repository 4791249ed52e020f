/**
 * PHP values as application code sees them once a JSON request or response
 * body has been decoded into associative arrays.
 */
module PhpValues {
  import opened Wrappers
  import opened PhpInt

  /** An array key: a decoded JSON array has the keys 0, 1, ..., a decoded JSON object string keys. */
  datatype Key = IntKey(n: int) | StrKey(s: string)

  /** A decoded value; JSON arrays and objects both become PHP arrays, ordered key/value lists. */
  datatype Value =
    | Null
    | Bool(b: bool)
    | Int(i: int)
    | Str(s: string)
    | Arr(entries: seq<Entry>)

  datatype Entry = Entry(key: Key, val: Value)

  /** `$a[$k]` when `$k` is a key of `$a`; a decoded array never repeats a key, so the first binding is the binding. */
  function Lookup(a: seq<Entry>, k: Key): (r: Option<Value>)
    ensures r.Some? ==> Entry(k, r.value) in a
    ensures r.None? ==> forall i :: 0 <= i < |a| ==> a[i].key != k
  {
    if a == [] then None
    else if a[0].key == k then Some(a[0].val)
    else Lookup(a[1..], k)
  }

  /** `$a[$k]` read as an expression: a key that is not there reads as null. */
  function Get(a: seq<Entry>, k: Key): Value {
    match Lookup(a, k)
    case Some(v) => v
    case None => Null
  }

  /** `$a[$k] = $v`: a key already there keeps its place and takes the new value; a new key is appended. */
  function Set(a: seq<Entry>, k: Key, v: Value): seq<Entry> {
    if a == [] then [Entry(k, v)]
    else if a[0].key == k then [Entry(k, v)] + a[1..]
    else [a[0]] + Set(a[1..], k, v)
  }

  /** After `$a[$k] = $v`, `$k` reads `$v`, every other key reads as before, and the array grows only by a new key. */
  lemma {:induction false} SetLookup(a: seq<Entry>, k: Key, v: Value)
    ensures Lookup(Set(a, k, v), k) == Some(v)
    ensures forall k' :: k' != k ==> Lookup(Set(a, k, v), k') == Lookup(a, k')
    ensures |Set(a, k, v)| == if Lookup(a, k).Some? then |a| else |a| + 1
  {
    if a != [] && a[0].key != k {
      SetLookup(a[1..], k, v);
      var r := Set(a, k, v);
      assert r[1..] == Set(a[1..], k, v);
    } else if a != [] {
      assert Set(a, k, v)[1..] == a[1..];
    }
  }

  /** The characters PHP's `trim` strips by default. */
  predicate IsTrimmed(c: char) {
    c == ' ' || c == '\t' || c == '\n' || c == '\r' || c == '\0' || c == '\U{0B}'
  }

  /** `trim($s) === ''` */
  predicate Blank(s: string) {
    forall i :: 0 <= i < |s| ==> IsTrimmed(s[i])
  }

  /** `(string) $v`; an array converts to the word "Array". */
  function ToPhpString(v: Value): string {
    match v
    case Null => ""
    case Bool(b) => if b then "1" else ""
    case Int(i) => ShowInt(i)
    case Str(s) => s
    case Arr(_) => "Array"
  }

  /**
   * `filter_var($v, FILTER_VALIDATE_INT)`, the test behind the `integer`
   * validation rule: an array fails, any other value is read through its
   * string form.
   */
  function FilterValidateInt(v: Value): (r: Option<int>)
    ensures v.Int? && InRange(v.i) ==> r == Some(v.i)
    ensures v.Arr? || v.Null? ==> r == None
    ensures v == Bool(true) ==> r == Some(1)
    ensures v == Bool(false) ==> r == None
    ensures r.Some? ==> InRange(r.value)
  {
    if v.Arr? then None
    else if v.Int? && InRange(v.i) then ParseShowInt(v.i); ParseInt(ToPhpString(v))
    else if v == Bool(true) then ParseDigit('1'); ParseInt(ToPhpString(v))
    else if v.Null? || v == Bool(false) then assert ToPhpString(v) == ""; ParseInt(ToPhpString(v))
    else ParseInt(ToPhpString(v))
  }

  /** A string passes the filter as `n` exactly when, stripped of filter spaces, it is an integer text of the PHP integer `n`. */
  lemma FilterValidateIntString(s: string, n: int)
    ensures FilterValidateInt(Str(s)) == Some(n) <==> InRange(n) && IntegerText(TrimEnd(TrimStart(s)), n)
  {
    ParseIntAccepts(s, n);
  }

  /** A string that `trim` would empty is never an integer. */
  lemma BlankIsNotInteger(s: string)
    requires Blank(s)
    ensures ParseInt(s) == None
  {
    var t := TrimEnd(TrimStart(s));
    if t != [] {
      assert forall i :: 0 <= i < |t| ==> IsTrimmed(t[i]);
      assert t[0] != '-' && t[0] != '+' && t != "0";
    }
  }
}
