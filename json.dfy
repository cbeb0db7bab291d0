/** JSON values as this program handles them: `JSON.parse` results, the bodies
    of GitHub requests and the design-token tree. Numbers are integers (no
    floating point). An object is its list of members in enumeration order
    (the order `Object.entries` and `JSON.stringify` visit them), so two
    objects are equal exactly when `JSON.stringify` renders them alike. */
module Json {
  import opened Util

  datatype Json =
    | JNull
    | JBool(b: bool)
    | JNum(n: int)
    | JStr(s: string)
    | JArr(items: seq<Json>)
    | JObj(members: seq<(string, Json)>)

  /** The member names of an object, in order. */
  function Keys(ms: seq<(string, Json)>): (ks: seq<string>)
    ensures |ks| == |ms|
    ensures forall i :: 0 <= i < |ms| ==> ks[i] == ms[i].0
  {
    if ms == [] then [] else [ms[0].0] + Keys(ms[1..])
  }

  predicate HasKey(ms: seq<(string, Json)>, k: string)
  {
    k in Keys(ms)
  }

  /** `obj[k]`: the value of the first member named k, if any. */
  function Get(ms: seq<(string, Json)>, k: string): (r: Option<Json>)
    ensures r.Some? <==> HasKey(ms, k)
    ensures r.Some? ==> exists i :: 0 <= i < |ms| && ms[i] == (k, r.value)
  {
    if ms == [] then None
    else if ms[0].0 == k then Some(ms[0].1)
    else Get(ms[1..], k)
  }

  /** `obj[k] = v`: an existing member keeps its place, a new one goes last. */
  function Put(ms: seq<(string, Json)>, k: string, v: Json): (r: seq<(string, Json)>)
    ensures HasKey(ms, k) ==> Keys(r) == Keys(ms)
    ensures !HasKey(ms, k) ==> Keys(r) == Keys(ms) + [k]
  {
    if ms == [] then [(k, v)]
    else if ms[0].0 == k then [(k, v)] + ms[1..]
    else [ms[0]] + Put(ms[1..], k, v)
  }

  /** Reading back after `obj[k] = v`: k holds v, every other key is unchanged. */
  lemma {:induction false} GetPut(ms: seq<(string, Json)>, k: string, v: Json, k': string)
    ensures Get(Put(ms, k, v), k') == if k' == k then Some(v) else Get(ms, k')
  {
    if ms != [] && ms[0].0 != k {
      GetPut(ms[1..], k, v, k');
      var r := Put(ms, k, v);
      assert r[0] == ms[0] && r[1..] == Put(ms[1..], k, v);
    }
  }

  /** Looking a name up in two runs of members: the first run wins. */
  lemma {:induction false} GetAppend(a: seq<(string, Json)>, b: seq<(string, Json)>, k: string)
    ensures HasKey(a + b, k) <==> HasKey(a, k) || HasKey(b, k)
    ensures Get(a + b, k) == if HasKey(a, k) then Get(a, k) else Get(b, k)
  {
    if a == [] {
      assert a + b == b;
    } else {
      assert (a + b)[0] == a[0] && (a + b)[1..] == a[1..] + b;
      assert Keys(a + b) == Keys(a) + Keys(b);
      GetAppend(a[1..], b, k);
    }
  }

  /** `obj[k] = a; obj[k] = b` is `obj[k] = b`. */
  lemma {:induction false} PutPut(ms: seq<(string, Json)>, k: string, a: Json, b: Json)
    ensures Put(Put(ms, k, a), k, b) == Put(ms, k, b)
  {
    if ms != [] && ms[0].0 != k {
      PutPut(ms[1..], k, a, b);
      assert Put(ms, k, a)[1..] == Put(ms[1..], k, a);
    }
  }

  /** JavaScript truthiness: `null`, `false`, `0` and `""` are falsy; every
      array and object is truthy. */
  predicate JsTruthy(j: Json)
  {
    match j
    case JNull => false
    case JBool(b) => b
    case JNum(n) => n != 0
    case JStr(s) => s != ""
    case JArr(_) => true
    case JObj(_) => true
  }

  predicate DistinctKeys(ms: seq<(string, Json)>)
  {
    forall i, j :: 0 <= i < j < |ms| ==> ms[i].0 != ms[j].0
  }

  lemma PutKeepsDistinct(ms: seq<(string, Json)>, k: string, v: Json)
    requires DistinctKeys(ms)
    ensures DistinctKeys(Put(ms, k, v))
  {
    var r := Put(ms, k, v);
    var ks := Keys(r);
    if HasKey(ms, k) {
      assert Keys(r) == Keys(ms);
    } else {
      assert Keys(r) == Keys(ms) + [k];
      forall i | 0 <= i < |ms| ensures ms[i].0 != k { assert Keys(ms)[i] == ms[i].0; }
    }
    forall i, j | 0 <= i < j < |r| ensures r[i].0 != r[j].0 {
      assert Keys(r)[i] == r[i].0 && Keys(r)[j] == r[j].0;
      if j < |ms| { assert Keys(ms)[i] == ms[i].0 && Keys(ms)[j] == ms[j].0; }
    }
  }

  // ---------------------------------------------------------------------
  // JSON.stringify (no indentation)

  /** The escape `JSON.stringify` writes for one character of a string. */
  function EscapeChar(c: char): string
  {
    if c == '"' then "\\\""
    else if c == '\\' then "\\\\"
    else if c == '\n' then "\\n"
    else if c == '\r' then "\\r"
    else if c == '\t' then "\\t"
    else if c == '\U{0008}' then "\\b"
    else if c == '\U{000C}' then "\\f"
    else if (c as int) < 0x20 then "\\u00" + [HexDigit(c as int / 16), HexDigit(c as int % 16)]
    else [c]
  }

  function EscapeString(s: string): string
  {
    if s == [] then "" else EscapeChar(s[0]) + EscapeString(s[1..])
  }

  function Quote(s: string): string
  {
    "\"" + EscapeString(s) + "\""
  }

  function Stringify(j: Json): string
  {
    match j
    case JNull => "null"
    case JBool(b) => if b then "true" else "false"
    case JNum(n) => IntToString(n)
    case JStr(s) => Quote(s)
    case JArr(items) =>
      "[" + Join(seq(|items|, i requires 0 <= i < |items| => Stringify(items[i])), ',') + "]"
    case JObj(ms) =>
      "{" + Join(seq(|ms|, i requires 0 <= i < |ms| => Quote(ms[i].0) + ":" + Stringify(ms[i].1)), ',') + "}"
  }
}
