/** JSON documents as the scripts hold them after `json.loads`: Python
    `None`, `bool`, `int`, `str`, `list` and `dict` (insertion-ordered, keys
    unique). Floating-point numbers are not modelled.

    Besides the datatype this module states the Python operations the scripts
    apply to such values: `dict.get`, subscripting, truthiness, `==`, the
    membership test `in`, and `str()`.
 */
module Json {
  import opened Basics
  import opened Text

  datatype Json =
    | JNull
    | JBool(b: bool)
    | JInt(i: int)
    | JStr(s: string)
    | JArr(a: seq<Json>)
    | JObj(o: seq<(string, Json)>)

  /** The keys of an object, in insertion order. */
  function Keys(o: seq<(string, Json)>): (r: seq<string>)
    ensures |r| == |o|
    ensures forall i :: 0 <= i < |o| ==> r[i] == o[i].0
  {
    seq(|o|, i requires 0 <= i < |o| => o[i].0)
  }

  /** A dictionary's keys are unique. */
  predicate UniqueKeys(o: seq<(string, Json)>)
  {
    forall j, k :: 0 <= j < k < |o| ==> o[j].0 != o[k].0
  }

  /** The value stored under `key` in an object, if any. */
  function Lookup(o: seq<(string, Json)>, key: string): (r: Option<Json>)
    ensures r.Some? <==> key in Keys(o)
    ensures r.Some? ==> exists i :: 0 <= i < |o| && o[i] == (key, r.value)
  {
    if |o| == 0 then None
    else if o[0].0 == key then Some(o[0].1)
    else
      var r := Lookup(o[1..], key);
      assert Keys(o) == [o[0].0] + Keys(o[1..]);
      if r.Some? then
        ghost var i :| 0 <= i < |o[1..]| && o[1..][i] == (key, r.value);
        assert o[i + 1] == (key, r.value);
        r
      else r
  }

  /** `d.get(key, default)`: an object answers; anything else has no `get`. */
  function Get(d: Json, key: string, default: Json): (r: Result<Json>)
    ensures r.Raise? <==> !d.JObj?
    ensures r.Raise? ==> r.error == AttributeError
    ensures d.JObj? && key !in Keys(d.o) ==> r == Ok(default)
  {
    if d.JObj? then Ok(Lookup(d.o, key).GetOr(default))
    else Raise(AttributeError)
  }

  /** `d[key]` for a string key. */
  function Index(d: Json, key: string): (r: Result<Json>)
    ensures r.Ok? <==> d.JObj? && key in Keys(d.o)
    ensures r.Ok? ==> Lookup(d.o, key) == Some(r.value)
  {
    if !d.JObj? then Raise(TypeError)
    else match Lookup(d.o, key)
      case Some(v) => Ok(v)
      case None => Raise(KeyError)
  }

  /** Python truthiness. */
  predicate Truthy(j: Json)
  {
    match j
    case JNull => false
    case JBool(b) => b
    case JInt(i) => i != 0
    case JStr(s) => s != ""
    case JArr(a) => a != []
    case JObj(o) => o != []
  }

  /** Python `==`: `True == 1` and `False == 0`; otherwise structural. */
  predicate PyEq(x: Json, y: Json)
  {
    if (x.JBool? || x.JInt?) && (y.JBool? || y.JInt?) then NumOf(x) == NumOf(y)
    else x == y
  }

  function NumOf(j: Json): int
    requires j.JBool? || j.JInt?
  {
    if j.JBool? then (if j.b then 1 else 0) else j.i
  }

  /** `x in c`: list membership, substring test, dictionary key test; other
      containers raise `TypeError`, as does an unhashable key on a dict. */
  function PyIn(x: Json, c: Json): (r: Result<bool>)
    ensures c.JArr? ==> r.Ok? && (r.value <==> exists i :: 0 <= i < |c.a| && PyEq(x, c.a[i]))
    ensures c.JStr? && x.JStr? ==> r == Ok(Contains(c.s, x.s))
    ensures c.JObj? && x.JStr? ==> r == Ok(x.s in Keys(c.o))
    ensures c.JNull? || c.JBool? || c.JInt? ==> r == Raise(TypeError)
  {
    match c
    case JArr(a) => Ok(exists i :: 0 <= i < |a| && PyEq(x, a[i]))
    case JStr(s) => if x.JStr? then Ok(Contains(s, x.s)) else Raise(TypeError)
    case JObj(o) =>
      if x.JStr? then Ok(x.s in Keys(o))
      else if x.JArr? || x.JObj? then Raise(TypeError)
      else Ok(false)
    case _ => Raise(TypeError)
  }

  /** The text of a value as a list or dict display shows it: strings are
      enclosed in `q` without escaping, and `python` chooses Python's
      `None`/`True`/`False` over JSON's `null`/`true`/`false`. Items are
      separated by `", "` and keys from values by `": "`. */
  function Show(j: Json, q: char, python: bool): (r: string)
    ensures |r| > 0
    decreases j, 1
  {
    match j
    case JNull => if python then "None" else "null"
    case JBool(b) =>
      if python then (if b then "True" else "False") else (if b then "true" else "false")
    case JInt(i) => IntToString(i)
    case JStr(s) => [q] + s + [q]
    case JArr(a) => "[" + ShowItems(a, q, python) + "]"
    case JObj(o) => "{" + ShowMembers(o, q, python) + "}"
  }

  function ShowItems(a: seq<Json>, q: char, python: bool): string
    decreases a, 0
  {
    if |a| == 0 then ""
    else Show(a[0], q, python) + (if |a| == 1 then "" else ", " + ShowItems(a[1..], q, python))
  }

  function ShowMembers(o: seq<(string, Json)>, q: char, python: bool): string
    decreases o, 0
  {
    if |o| == 0 then ""
    else
      var m := o[0];
      assert m in o;
      assert m.1 < m;
      [q] + m.0 + [q] + ": " + Show(m.1, q, python)
      + (if |o| == 1 then "" else ", " + ShowMembers(o[1..], q, python))
  }

  /** `repr(x)`; strings are shown in single quotes without escaping. */
  function Repr(j: Json): string
  {
    Show(j, '\'', true)
  }

  /** `json.dumps(x)` with its default separators; strings are not escaped. */
  function Dumps(j: Json): string
  {
    Show(j, '"', false)
  }

  /** `str(x)`: a string is itself; containers show their items' `repr`. */
  function PyStr(j: Json): (r: string)
    ensures j.JStr? ==> r == j.s
    ensures j.JArr? ==> |r| > 0 && r[0] == '['
    ensures j.JObj? ==> |r| > 0 && r[0] == '{'
  {
    if j.JStr? then j.s else Repr(j)
  }

  /** The position of the first entry with `key`. */
  function KeyIndex(o: seq<(string, Json)>, key: string): (r: nat)
    requires key in Keys(o)
    ensures r < |o| && o[r].0 == key
    ensures forall i :: 0 <= i < r ==> o[i].0 != key
  {
    if o[0].0 == key then 0
    else
      KeyInTail(o, key);
      1 + KeyIndex(o[1..], key)
  }

  /** A key other than the first entry's is a key of the rest. */
  lemma KeyInTail(o: seq<(string, Json)>, key: string)
    requires key in Keys(o) && o[0].0 != key
    ensures key in Keys(o[1..])
  {
    var j :| 0 <= j < |o| && Keys(o)[j] == key;
    assert Keys(o[1..])[j - 1] == key;
  }

  /** `d[key] = value` on a dictionary: an existing key keeps its place and
      takes the new value, a new key goes last. */
  function Put(o: seq<(string, Json)>, key: string, value: Json): (r: seq<(string, Json)>)
    ensures key in Keys(o) ==> Keys(r) == Keys(o)
    ensures key !in Keys(o) ==> r == o + [(key, value)]
  {
    if key in Keys(o) then o[KeyIndex(o, key) := (key, value)]
    else o + [(key, value)]
  }

  /** The first entry with a key is the one a lookup finds. */
  lemma {:induction false} LookupFirst(o: seq<(string, Json)>, i: nat)
    requires i < |o|
    requires forall j :: 0 <= j < i ==> o[j].0 != o[i].0
    ensures Lookup(o, o[i].0) == Some(o[i].1)
    decreases i
  {
    if i > 0 {
      assert o[1..][i - 1] == o[i];
      LookupFirst(o[1..], i - 1);
    }
  }

  /** Replacing or adding an entry whose key is not `k` leaves the lookup of
      `k` as it was. */
  lemma {:induction false} LookupOther(o: seq<(string, Json)>, i: nat, x: (string, Json), k: string)
    requires i <= |o| && x.0 != k
    requires i < |o| ==> o[i].0 != k
    ensures i < |o| ==> Lookup(o[i := x], k) == Lookup(o, k)
    ensures i == |o| ==> Lookup(o + [x], k) == Lookup(o, k)
    decreases i
  {
    if |o| == 0 {
      assert Lookup([x], k) == Lookup([x][1..], k);
    } else if i == 0 {
      assert o[i := x][1..] == o[1..];
    } else {
      LookupOther(o[1..], i - 1, x, k);
      if i < |o| {
        assert o[i := x][1..] == o[1..][i - 1 := x];
      } else {
        assert (o + [x])[1..] == o[1..] + [x];
      }
    }
  }

  /** After `d[key] = value`, `d[key]` is `value` and every other key reads
      as before. */
  lemma PutLookup(o: seq<(string, Json)>, key: string, value: Json, k: string)
    ensures Lookup(Put(o, key, value), key) == Some(value)
    ensures k != key ==> Lookup(Put(o, key, value), k) == Lookup(o, k)
  {
    var r := Put(o, key, value);
    if key in Keys(o) {
      var i := KeyIndex(o, key);
      LookupFirst(r, i);
      if k != key {
        LookupOther(o, i, (key, value), k);
      }
    } else {
      LookupFirst(r, |o|);
      if k != key {
        LookupOther(o, |o|, (key, value), k);
      }
    }
  }

  /** Assignment keeps a dictionary's keys unique. */
  lemma PutUnique(o: seq<(string, Json)>, key: string, value: Json)
    requires UniqueKeys(o)
    ensures UniqueKeys(Put(o, key, value))
  {
    var r := Put(o, key, value);
    if key in Keys(o) {
      assert forall i :: 0 <= i < |r| ==> r[i].0 == Keys(r)[i];
      assert forall i :: 0 <= i < |o| ==> o[i].0 == Keys(o)[i];
    } else {
      assert forall i :: 0 <= i < |o| ==> r[i] == o[i];
    }
  }

  /** `str(x).lower() == "true"`, the test the policy code applies to
      permission flags. */
  predicate IsTrueText(j: Json)
  {
    Lower(PyStr(j)) == "true"
  }

  /** `str(x).lower() == "false"`. */
  predicate IsFalseText(j: Json)
  {
    Lower(PyStr(j)) == "false"
  }

  /** The text of an integer never starts with a letter. */
  lemma IntTextNotLetter(i: int)
    ensures IntToString(i)[0] == '-' || IsDigit(IntToString(i)[0])
  {
    if i >= 0 {
      assert IsDigits(NatToString(i));
    } else {
      assert IntToString(i) == "-" + NatToString(-i);
    }
  }

  /** Only the boolean `True` and strings spelling "true" in any case pass
      `str(x).lower() == "true"`. */
  lemma TrueTextExactly(j: Json)
    ensures IsTrueText(j) <==> j == JBool(true) || (j.JStr? && Lower(j.s) == "true")
  {
    var t := PyStr(j);
    if j.JInt? {
      IntTextNotLetter(j.i);
      assert Lower(t)[0] == t[0];
    } else if j.JArr? || j.JObj? {
      assert Lower(t)[0] == t[0];
    } else if j.JBool? && !j.b {
      assert Lower(t)[0] == 'f';
    } else if j.JNull? {
      assert Lower(t)[0] == 'n';
    }
  }

  /** Only the boolean `False` and strings spelling "false" in any case pass
      `str(x).lower() == "false"`. */
  lemma FalseTextExactly(j: Json)
    ensures IsFalseText(j) <==> j == JBool(false) || (j.JStr? && Lower(j.s) == "false")
  {
    var t := PyStr(j);
    if j.JInt? {
      IntTextNotLetter(j.i);
      assert Lower(t)[0] == t[0];
    } else if j.JArr? || j.JObj? {
      assert Lower(t)[0] == t[0];
    } else if j.JBool? && j.b {
      assert Lower(t)[0] == 't';
    } else if j.JNull? {
      assert Lower(t)[0] == 'n';
    }
  }
}
