/** JSON text as `json.loads` reads it (RFC 8259), for the documents the
    scripts exchange: literals, integers, strings without escapes, arrays and
    objects. A duplicate key keeps its first position and takes the last
    value, as a Python dict built from the pairs does.

    The scripts publish attribute values with `str(value)` and read them back
    with `json.loads(payload.replace("'", '"'))`; the lemmas at the end say
    for which values that round trip closes.
 */
module JsonText {
  import opened Basics
  import opened Text
  import opened Json

  /** A value read off the front of a text, and the text after it. */
  datatype Parsed<T> = Parsed(value: T, rest: string)

  /** The four whitespace characters of the JSON grammar. */
  predicate IsWs(c: char)
  {
    c == ' ' || c == '\t' || c == '\n' || c == '\r'
  }

  function SkipWs(s: string): (r: string)
    ensures |r| <= |s|
    ensures |r| == 0 || !IsWs(r[0])
    decreases |s|
  {
    if |s| > 0 && IsWs(s[0]) then SkipWs(s[1..]) else s
  }

  /** The length of the run of decimal digits that starts `s`. */
  function DigitRun(s: string): (n: nat)
    ensures n <= |s|
    ensures forall i :: 0 <= i < n ==> IsDigit(s[i])
    ensures n == |s| || !IsDigit(s[n])
    decreases |s|
  {
    if |s| > 0 && IsDigit(s[0]) then 1 + DigitRun(s[1..]) else 0
  }

  /** `-?(0|[1-9][0-9]*)`: a leading zero is a number on its own. A fraction
      or an exponent would make a float, which this model does not hold. */
  function ParseNumber(s: string): (r: Option<Parsed<Json>>)
    ensures r.Some? ==> |r.value.rest| < |s| && r.value.value.JInt?
    ensures r.Some? ==> |s| > 0 && (s[0] == '-' || IsDigit(s[0]))
  {
    var neg := |s| > 0 && s[0] == '-';
    var t := if neg then s[1..] else s;
    var run := DigitRun(t);
    var n := if run > 0 && t[0] == '0' then 1 else run;
    if n == 0 then None
    else if n < |t| && (t[n] == '.' || t[n] == 'e' || t[n] == 'E') then None
    else
      var v: int := DigitsValue(t[..n]);
      Some(Parsed(JInt(if neg then -v else v), t[n..]))
  }

  /** The body of a string after its opening quote, up to the closing quote.
      Control characters are refused; an escape sequence is outside this
      model and refused too. */
  function ParseString(s: string): (r: Option<Parsed<string>>)
    ensures r.Some? ==> |r.value.rest| < |s|
    decreases |s|
  {
    if |s| == 0 then None
    else if s[0] == '"' then Some(Parsed("", s[1..]))
    else if s[0] == '\\' || s[0] < ' ' then None
    else
      match ParseString(s[1..])
      case None => None
      case Some(p) => Some(Parsed([s[0]] + p.value, p.rest))
  }

  /** One value at the very start of `s` (no leading whitespace). */
  function ParseValue(s: string): (r: Option<Parsed<Json>>)
    ensures r.Some? ==> |r.value.rest| < |s|
    decreases |s|, 1
  {
    if |s| == 0 then None
    else if s[0] == '"' then
      match ParseString(s[1..])
      case None => None
      case Some(p) => Some(Parsed(JStr(p.value), p.rest))
    else if s[0] == '[' then ParseArray(s[1..])
    else if s[0] == '{' then ParseObject(s[1..])
    else if s[0] == 'n' then Literal(s, "null", JNull)
    else if s[0] == 't' then Literal(s, "true", JBool(true))
    else if s[0] == 'f' then Literal(s, "false", JBool(false))
    else ParseNumber(s)
  }

  /** The literal `word` standing for `v`. */
  function Literal(s: string, word: string, v: Json): (r: Option<Parsed<Json>>)
    requires |word| > 0
    ensures r.Some? ==> |r.value.rest| < |s|
  {
    if StartsWith(s, word) then Some(Parsed(v, s[|word|..])) else None
  }

  /** An array after its opening bracket. */
  function ParseArray(s: string): (r: Option<Parsed<Json>>)
    ensures r.Some? ==> |r.value.rest| < |s|
    decreases |s|, 3
  {
    var u := SkipWs(s);
    if |u| > 0 && u[0] == ']' then Some(Parsed(JArr([]), u[1..]))
    else
      match ParseItems(u)
      case None => None
      case Some(p) => Some(Parsed(JArr(p.value), p.rest))
  }

  /** An object after its opening brace. */
  function ParseObject(s: string): (r: Option<Parsed<Json>>)
    ensures r.Some? ==> |r.value.rest| < |s|
    decreases |s|, 3
  {
    var u := SkipWs(s);
    if |u| > 0 && u[0] == '}' then Some(Parsed(JObj([]), u[1..]))
    else
      match ParseMembers(u)
      case None => None
      case Some(p) => Some(Parsed(JObj(Dict(p.value)), p.rest))
  }

  /** `value (, value)* ]`, whitespace allowed around the separators. */
  function ParseItems(s: string): (r: Option<Parsed<seq<Json>>>)
    ensures r.Some? ==> |r.value.rest| < |s|
    decreases |s|, 2
  {
    match ParseValue(s)
    case None => None
    case Some(p) =>
      var t := SkipWs(p.rest);
      if |t| > 0 && t[0] == ']' then Some(Parsed([p.value], t[1..]))
      else if |t| > 0 && t[0] == ',' then
        match ParseItems(SkipWs(t[1..]))
        case None => None
        case Some(q) => Some(Parsed([p.value] + q.value, q.rest))
      else None
  }

  /** `"key" : value (, "key" : value)* }`, as raw pairs in text order. */
  function ParseMembers(s: string): (r: Option<Parsed<seq<(string, Json)>>>)
    ensures r.Some? ==> |r.value.rest| < |s|
    decreases |s|, 2
  {
    if |s| == 0 || s[0] != '"' then None
    else
      match ParseString(s[1..])
      case None => None
      case Some(k) =>
        var t := SkipWs(k.rest);
        if |t| == 0 || t[0] != ':' then None
        else
          match ParseValue(SkipWs(t[1..]))
          case None => None
          case Some(v) =>
            var u := SkipWs(v.rest);
            if |u| > 0 && u[0] == '}' then Some(Parsed([(k.value, v.value)], u[1..]))
            else if |u| > 0 && u[0] == ',' then
              match ParseMembers(SkipWs(u[1..]))
              case None => None
              case Some(m) => Some(Parsed([(k.value, v.value)] + m.value, m.rest))
            else None
  }

  /** `dict(pairs)`: each pair assigned in turn. */
  function Dict(pairs: seq<(string, Json)>): (r: seq<(string, Json)>)
    ensures UniqueKeys(r)
    ensures forall i :: 0 <= i < |pairs| ==> pairs[i].0 in Keys(r)
    decreases |pairs|
  {
    if |pairs| == 0 then []
    else
      var init := Dict(pairs[..|pairs| - 1]);
      var last := pairs[|pairs| - 1];
      PutUnique(init, last.0, last.1);
      PutKeepsKeys(init, last.0, last.1);
      assert forall i :: 0 <= i < |pairs| - 1 ==> pairs[i] == pairs[..|pairs| - 1][i];
      Put(init, last.0, last.1)
  }

  /** Assigning a key keeps every key and adds the one assigned. */
  lemma PutKeepsKeys(o: seq<(string, Json)>, key: string, value: Json)
    ensures key in Keys(Put(o, key, value))
    ensures forall k :: k in Keys(o) ==> k in Keys(Put(o, key, value))
  {
    PutLookup(o, key, value, key);
    forall k | k in Keys(o)
      ensures k in Keys(Put(o, key, value))
    {
      PutLookup(o, key, value, k);
    }
  }

  /** `json.loads(s)`: one value, surrounded by optional whitespace;
      anything else raises `ValueError`. */
  function Loads(s: string): (r: Result<Json>)
    ensures r.Raise? ==> r.error == ValueError
  {
    match ParseValue(SkipWs(s))
    case None => Raise(ValueError)
    case Some(p) => if SkipWs(p.rest) == "" then Ok(p.value) else Raise(ValueError)
  }

  /** Text a string can hold and still be shown and read back unchanged:
      no quote of either kind, no backslash, no control character. */
  predicate PlainText(s: string)
  {
    forall i :: 0 <= i < |s| ==> s[i] != '"' && s[i] != '\'' && s[i] != '\\' && s[i] >= ' '
  }

  /** A value every string and key of which is plain text, and every object
      of which has unique keys. */
  predicate Printable(j: Json)
    decreases j
  {
    match j
    case JStr(s) => PlainText(s)
    case JArr(a) => forall i :: 0 <= i < |a| ==> Printable(a[i])
    case JObj(o) => UniqueKeys(o) && forall i :: 0 <= i < |o| ==> PlainText(o[i].0) && Printable(o[i].1)
    case _ => true
  }

  /** What may follow a value inside a document: its end, or a separator. */
  predicate Follows(rest: string)
  {
    |rest| == 0 || rest[0] == ',' || rest[0] == ']' || rest[0] == '}'
  }

  /** A character no shown value starts with. */
  predicate Closer(c: char)
  {
    IsWs(c) || c == ',' || c == ']' || c == '}'
  }

  lemma ShowStart(j: Json, q: char, python: bool)
    requires !Closer(q)
    ensures !Closer(Show(j, q, python)[0])
  {
    if j.JInt? {
      IntTextNotLetter(j.i);
    }
  }

  /** A positive number is written without a leading zero. */
  lemma {:induction false} NoLeadingZero(n: nat)
    requires n > 0
    ensures NatToString(n)[0] != '0'
    decreases n
  {
    if n >= 10 {
      NoLeadingZero(n / 10);
    }
  }

  lemma {:induction false} DigitRunOf(d: string, rest: string)
    requires forall i :: 0 <= i < |d| ==> IsDigit(d[i])
    requires |rest| == 0 || !IsDigit(rest[0])
    ensures DigitRun(d + rest) == |d|
    decreases |d|
  {
    if |d| > 0 {
      assert (d + rest)[1..] == d[1..] + rest;
      DigitRunOf(d[1..], rest);
    } else {
      assert d + rest == rest;
    }
  }

  /** An integer as `str` writes it reads back as that integer. */
  lemma NumberShow(i: int, rest: string)
    requires Follows(rest)
    ensures ParseNumber(IntToString(i) + rest) == Some(Parsed(JInt(i), rest))
  {
    if i < 0 {
      DigitsShow(-i, rest);
      assert IntToString(i) + rest == "-" + (NatToString(-i) + rest);
      NegativeShow(NatToString(-i) + rest, -i, rest);
    } else {
      DigitsShow(i, rest);
    }
  }

  /** The digits of a natural number, followed by a character that ends a
      number, read back as that number. */
  lemma DigitsShow(m: nat, rest: string)
    requires Follows(rest)
    ensures ParseNumber(NatToString(m) + rest) == Some(Parsed(JInt(m), rest))
  {
    var d := NatToString(m);
    var t := d + rest;
    DigitRunOf(d, rest);
    DigitsOfNat(m);
    if m > 0 {
      NoLeadingZero(m);
    }
    assert t[0] != '-';
    assert t[..|d|] == d;
    assert t[|d|..] == rest;
  }

  /** A minus sign before a number read as a natural number negates it. */
  lemma NegativeShow(t: string, m: nat, rest: string)
    requires ParseNumber(t) == Some(Parsed(JInt(m), rest)) && |t| > 0 && t[0] != '-'
    ensures ParseNumber("-" + t) == Some(Parsed(JInt(-(m as int)), rest))
  {
    var s := "-" + t;
    assert s[0] == '-' && s[1..] == t;
    var run := DigitRun(t);
    var n := if run > 0 && t[0] == '0' then 1 else run;
    assert n > 0 && !(n < |t| && (t[n] == '.' || t[n] == 'e' || t[n] == 'E'));
    assert DigitsValue(t[..n]) == m && t[n..] == rest;
  }

  /** Plain text between quotes reads back as itself. */
  lemma {:induction false} ParseStringPlain(t: string, rest: string)
    requires PlainText(t)
    ensures ParseString(t + "\"" + rest) == Some(Parsed(t, rest))
    decreases |t|
  {
    if |t| == 0 {
      assert t + "\"" + rest == "\"" + rest;
    } else {
      assert (t + "\"" + rest)[1..] == t[1..] + "\"" + rest;
      ParseStringPlain(t[1..], rest);
      assert [t[0]] + t[1..] == t;
    }
  }

  lemma SkipSpace(x: string)
    requires |x| > 0 && !IsWs(x[0])
    ensures SkipWs(" " + x) == x
  {
    assert (" " + x)[1..] == x;
  }

  /* One step of the grammar at a time: each lemma unfolds one parser once. */

  lemma ArrayEmpty(rest: string)
    ensures ParseArray("]" + rest) == Some(Parsed(JArr([]), rest))
  {
    assert ("]" + rest)[1..] == rest;
  }

  lemma ArrayItems(body: string, a: seq<Json>, rest: string)
    requires |body| > 0 && !Closer(body[0])
    requires ParseItems(body) == Some(Parsed(a, rest))
    ensures ParseArray(body) == Some(Parsed(JArr(a), rest))
  {
  }

  lemma ObjectEmpty(rest: string)
    ensures ParseObject("}" + rest) == Some(Parsed(JObj([]), rest))
  {
    assert ("}" + rest)[1..] == rest;
  }

  lemma ObjectMembers(body: string, o: seq<(string, Json)>, rest: string)
    requires |body| > 0 && !Closer(body[0])
    requires ParseMembers(body) == Some(Parsed(o, rest))
    ensures ParseObject(body) == Some(Parsed(JObj(Dict(o)), rest))
  {
  }

  lemma ItemsLast(x: string, v: Json, after: string)
    requires ParseValue(x) == Some(Parsed(v, after))
    requires |after| > 0 && after[0] == ']'
    ensures ParseItems(x) == Some(Parsed([v], after[1..]))
  {
  }

  lemma ItemsMore(x: string, v: Json, after: string, vs: seq<Json>, rest: string)
    requires ParseValue(x) == Some(Parsed(v, after))
    requires |after| > 0 && after[0] == ','
    requires ParseItems(SkipWs(after[1..])) == Some(Parsed(vs, rest))
    ensures ParseItems(x) == Some(Parsed([v] + vs, rest))
  {
  }

  lemma MemberLast(x: string, k: string, colon: string, v: Json, after: string)
    requires |x| > 0 && x[0] == '"'
    requires ParseString(x[1..]) == Some(Parsed(k, colon))
    requires |colon| > 0 && colon[0] == ':'
    requires ParseValue(SkipWs(colon[1..])) == Some(Parsed(v, after))
    requires |after| > 0 && after[0] == '}'
    ensures ParseMembers(x) == Some(Parsed([(k, v)], after[1..]))
  {
    assert SkipWs(colon) == colon;
    assert SkipWs(after) == after;
  }

  lemma MemberMore(x: string, k: string, colon: string, v: Json, after: string,
                   ms: seq<(string, Json)>, rest: string)
    requires |x| > 0 && x[0] == '"'
    requires ParseString(x[1..]) == Some(Parsed(k, colon))
    requires |colon| > 0 && colon[0] == ':'
    requires ParseValue(SkipWs(colon[1..])) == Some(Parsed(v, after))
    requires |after| > 0 && after[0] == ','
    requires ParseMembers(SkipWs(after[1..])) == Some(Parsed(ms, rest))
    ensures ParseMembers(x) == Some(Parsed([(k, v)] + ms, rest))
  {
    assert SkipWs(colon) == colon;
    assert SkipWs(after) == after;
  }

  lemma ValueArray(s: string)
    requires |s| > 0 && s[0] == '['
    ensures ParseValue(s) == ParseArray(s[1..])
  {
  }

  lemma ValueObject(s: string)
    requires |s| > 0 && s[0] == '{'
    ensures ParseValue(s) == ParseObject(s[1..])
  {
  }

  /** The key of a member `"k": sv` followed by `after`, and the text its
      value starts at. */
  lemma MemberText(k: string, sv: string, after: string)
    requires PlainText(k) && |sv| > 0 && !Closer(sv[0])
    ensures var x := "\"" + k + "\"" + ": " + sv + after;
            var colon := ": " + sv + after;
            |x| > 0 && x[0] == '"' && ParseString(x[1..]) == Some(Parsed(k, colon)) &&
            |colon| > 0 && colon[0] == ':' && SkipWs(colon[1..]) == sv + after
  {
    var colon := ": " + sv + after;
    var x := "\"" + k + "\"" + colon;
    assert "\"" + k + "\"" + ": " + sv + after == x;
    assert x[1..] == k + "\"" + colon;
    ParseStringPlain(k, colon);
    assert colon[1..] == " " + (sv + after);
    SkipSpace(sv + after);
  }

  lemma ValueNumber(s: string)
    requires |s| > 0 && (s[0] == '-' || IsDigit(s[0]))
    ensures ParseValue(s) == ParseNumber(s)
  {
    assert s[0] != '"' && s[0] != '[' && s[0] != '{' && s[0] != 'n' && s[0] != 't' && s[0] != 'f';
  }

  lemma ShowNull(rest: string)
    ensures ParseValue(Show(JNull, '"', false) + rest) == Some(Parsed(JNull, rest))
  {
    var s := "null" + rest;
    assert s[..4] == "null" && s[4..] == rest;
  }

  lemma ShowBool(b: bool, rest: string)
    ensures ParseValue(Show(JBool(b), '"', false) + rest) == Some(Parsed(JBool(b), rest))
  {
    if b {
      var s := "true" + rest;
      assert s[..4] == "true" && s[4..] == rest;
    } else {
      var s := "false" + rest;
      assert s[..5] == "false" && s[5..] == rest;
    }
  }

  lemma ShowInt(i: int, rest: string)
    requires Follows(rest)
    ensures ParseValue(Show(JInt(i), '"', false) + rest) == Some(Parsed(JInt(i), rest))
  {
    var s := IntToString(i) + rest;
    assert s[0] == '-' || IsDigit(s[0]) by {
      IntTextNotLetter(i);
      assert s[0] == IntToString(i)[0];
    }
    ValueNumber(s);
    NumberShow(i, rest);
  }

  lemma ShowStr(str: string, rest: string)
    requires PlainText(str)
    ensures ParseValue(Show(JStr(str), '"', false) + rest) == Some(Parsed(JStr(str), rest))
  {
    var s := "\"" + (str + "\"" + rest);
    assert Show(JStr(str), '"', false) + rest == s;
    assert s[1..] == str + "\"" + rest;
    ParseStringPlain(str, rest);
  }

  /** `json.dumps` output reads back as the value it was made from. */
  lemma {:induction false} ParseShow(j: Json, rest: string)
    requires Printable(j) && Follows(rest)
    ensures ParseValue(Show(j, '"', false) + rest) == Some(Parsed(j, rest))
    decreases j, 2
  {
    match j
    case JNull => ShowNull(rest);
    case JBool(b) => ShowBool(b, rest);
    case JInt(i) => ShowInt(i, rest);
    case JStr(str) => ShowStr(str, rest);
    case JArr(a) => ParseShowArray(a, rest);
    case JObj(o) => ParseShowObject(o, rest);
  }

  lemma {:induction false} ParseShowArray(a: seq<Json>, rest: string)
    requires forall i :: 0 <= i < |a| ==> Printable(a[i])
    ensures ParseValue(Show(JArr(a), '"', false) + rest) == Some(Parsed(JArr(a), rest))
    decreases a, 1
  {
    var body := ShowItems(a, '"', false) + "]" + rest;
    var s := "[" + body;
    assert Show(JArr(a), '"', false) + rest == s;
    assert s[1..] == body;
    ValueArray(s);
    if |a| == 0 {
      assert body == "]" + rest;
      ArrayEmpty(rest);
    } else {
      ShowStart(a[0], '"', false);
      assert body[0] == Show(a[0], '"', false)[0];
      ItemsShow(a, rest);
      ArrayItems(body, a, rest);
    }
  }

  lemma {:induction false} ParseShowObject(o: seq<(string, Json)>, rest: string)
    requires UniqueKeys(o)
    requires forall i :: 0 <= i < |o| ==> PlainText(o[i].0) && Printable(o[i].1)
    ensures ParseValue(Show(JObj(o), '"', false) + rest) == Some(Parsed(JObj(o), rest))
    decreases o, 1
  {
    var body := ShowMembers(o, '"', false) + "}" + rest;
    var s := "{" + body;
    assert Show(JObj(o), '"', false) + rest == s;
    assert s[1..] == body;
    ValueObject(s);
    if |o| == 0 {
      assert body == "}" + rest;
      ObjectEmpty(rest);
    } else {
      assert body[0] == '"';
      MembersShow(o, rest);
      ObjectMembers(body, o, rest);
      DictUnique(o);
    }
  }

  lemma {:induction false} ItemsShow(a: seq<Json>, rest: string)
    requires |a| > 0
    requires forall i :: 0 <= i < |a| ==> Printable(a[i])
    ensures ParseItems(ShowItems(a, '"', false) + "]" + rest) == Some(Parsed(a, rest))
    decreases a, 0
  {
    var x := ShowItems(a, '"', false) + "]" + rest;
    if |a| == 1 {
      var after := "]" + rest;
      ItemsTextOne(a, rest);
      ParseShow(a[0], after);
      ItemsLast(x, a[0], after);
      assert after[1..] == rest;
      assert [a[0]] == a;
    } else {
      var next := ShowItems(a[1..], '"', false) + "]" + rest;
      var after := ", " + next;
      ItemsTextMore(a, rest);
      ParseShow(a[0], after);
      assert after[1..] == " " + next;
      SkipSpace(next);
      ItemsShow(a[1..], rest);
      ItemsMore(x, a[0], after, a[1..], rest);
      assert [a[0]] + a[1..] == a;
    }
  }

  /** The text of a one-element list body. */
  lemma ItemsTextOne(a: seq<Json>, rest: string)
    requires |a| == 1
    ensures ShowItems(a, '"', false) + "]" + rest == Show(a[0], '"', false) + ("]" + rest)
  {
  }

  /** The text of a longer list body: the first item, a comma, the rest. */
  lemma ItemsTextMore(a: seq<Json>, rest: string)
    requires |a| > 1
    ensures var next := ShowItems(a[1..], '"', false) + "]" + rest;
            && ShowItems(a, '"', false) + "]" + rest == Show(a[0], '"', false) + (", " + next)
            && |next| > 0 && !IsWs(next[0])
  {
    var head := Show(a[0], '"', false);
    var tail := ShowItems(a[1..], '"', false);
    var next := tail + "]" + rest;
    assert ShowItems(a, '"', false) == head + (", " + tail);
    assert head + (", " + tail) + "]" + rest == head + (", " + next);
    assert next[0] == Show(a[1..][0], '"', false)[0];
    ShowStart(a[1..][0], '"', false);
  }

  lemma MemberLastText(k: string, sv: string, v: Json, rest: string)
    requires PlainText(k) && |sv| > 0 && !Closer(sv[0])
    requires ParseValue(sv + ("}" + rest)) == Some(Parsed(v, "}" + rest))
    ensures ParseMembers("\"" + k + "\"" + ": " + sv + ("}" + rest)) == Some(Parsed([(k, v)], rest))
  {
    var after := "}" + rest;
    MemberText(k, sv, after);
    MemberLast("\"" + k + "\"" + ": " + sv + after, k, ": " + sv + after, v, after);
    assert after[1..] == rest;
  }

  lemma MemberMoreText(k: string, sv: string, v: Json, next: string, ms: seq<(string, Json)>, rest: string)
    requires PlainText(k) && |sv| > 0 && !Closer(sv[0])
    requires ParseValue(sv + (", " + next)) == Some(Parsed(v, ", " + next))
    requires |next| > 0 && !IsWs(next[0])
    requires ParseMembers(next) == Some(Parsed(ms, rest))
    ensures ParseMembers("\"" + k + "\"" + ": " + sv + (", " + next)) == Some(Parsed([(k, v)] + ms, rest))
  {
    var after := ", " + next;
    MemberText(k, sv, after);
    assert after[1..] == " " + next;
    SkipSpace(next);
    MemberMore("\"" + k + "\"" + ": " + sv + after, k, ": " + sv + after, v, after, ms, rest);
  }

  lemma {:induction false} MembersShow(o: seq<(string, Json)>, rest: string)
    requires |o| > 0
    requires forall i :: 0 <= i < |o| ==> PlainText(o[i].0) && Printable(o[i].1)
    ensures ParseMembers(ShowMembers(o, '"', false) + "}" + rest) == Some(Parsed(o, rest))
    decreases o, 0
  {
    var m := o[0];
    assert m in o;
    assert m.1 < m;
    var sv := Show(m.1, '"', false);
    ShowStart(m.1, '"', false);
    if |o| == 1 {
      MembersTextOne(o, rest);
      ParseShow(m.1, "}" + rest);
      MemberLastText(m.0, sv, m.1, rest);
      assert [m] == o;
    } else {
      var next := ShowMembers(o[1..], '"', false) + "}" + rest;
      MembersTextMore(o, rest);
      ParseShow(m.1, ", " + next);
      assert forall i :: 0 <= i < |o| - 1 ==> o[1..][i] == o[i + 1];
      MembersShow(o[1..], rest);
      MemberMoreText(m.0, sv, m.1, next, o[1..], rest);
      assert [m] + o[1..] == o;
    }
  }

  /** The text of a one-member object body. */
  lemma MembersTextOne(o: seq<(string, Json)>, rest: string)
    requires |o| == 1
    ensures ShowMembers(o, '"', false) + "}" + rest == "\"" + o[0].0 + "\"" + ": " + Show(o[0].1, '"', false) + ("}" + rest)
  {
  }

  /** The text of a longer object body: the first member, a comma, the rest. */
  lemma MembersTextMore(o: seq<(string, Json)>, rest: string)
    requires |o| > 1
    ensures var next := ShowMembers(o[1..], '"', false) + "}" + rest;
            && ShowMembers(o, '"', false) + "}" + rest == "\"" + o[0].0 + "\"" + ": " + Show(o[0].1, '"', false) + (", " + next)
            && |next| > 0 && !IsWs(next[0])
  {
  }

  /** A dictionary built from pairs with unique keys holds them in order. */
  lemma {:induction false} DictUnique(pairs: seq<(string, Json)>)
    requires UniqueKeys(pairs)
    ensures Dict(pairs) == pairs
    decreases |pairs|
  {
    if |pairs| > 0 {
      var init := pairs[..|pairs| - 1];
      var last := pairs[|pairs| - 1];
      assert UniqueKeys(init) by {
        forall j, k | 0 <= j < k < |init|
          ensures init[j].0 != init[k].0
        {
          assert init[j] == pairs[j] && init[k] == pairs[k];
        }
      }
      DictUnique(init);
      assert last.0 !in Keys(init);
      assert Dict(pairs) == Put(Dict(init), last.0, last.1);
      InitLast(pairs);
    }
  }

  /** `json.loads(json.dumps(x)) == x`. */
  lemma LoadsDumps(j: Json)
    requires Printable(j)
    ensures Loads(Dumps(j)) == Ok(j)
  {
    ShowStart(j, '"', false);
    ParseShow(j, "");
    assert Dumps(j) + "" == Dumps(j);
  }

  /** `payload.replace("'", '"')`, which the reader applies before
      `json.loads`. */
  function Swap(s: string): string
  {
    Replace(s, "'", "\"")
  }

  lemma SwapConcat(x: string, y: string)
    ensures Swap(x + y) == Swap(x) + Swap(y)
  {
    ReplaceCharConcat(x, y, '\'', '"');
  }

  lemma SwapAbsent(x: string)
    requires '\'' !in x
    ensures Swap(x) == x
  {
    ReplaceCharAbsent(x, '\'', '"');
  }

  lemma SwapQuote()
    ensures Swap("'") == "\""
  {
    assert "'"[1..] == "";
  }

  lemma SwapQuoted(x: string, y: string)
    requires Swap(x) == y
    ensures Swap("'" + x + "'") == "\"" + y + "\""
  {
    SwapConcat("'" + x, "'");
    SwapConcat("'", x);
    SwapQuote();
  }

  lemma SwapWrapped(open: string, x: string, close: string, y: string)
    requires '\'' !in open && '\'' !in close
    requires Swap(x) == y
    ensures Swap(open + x + close) == open + y + close
  {
    SwapConcat(open + x, close);
    SwapConcat(open, x);
    SwapAbsent(open);
    SwapAbsent(close);
  }

  lemma SwapMember(k: string, sv: string, tv: string, more: string, tmore: string)
    requires '\'' !in k
    requires Swap(sv) == tv && Swap(more) == tmore
    ensures Swap("'" + k + "'" + ": " + sv + more) == "\"" + k + "\"" + ": " + tv + tmore
  {
    SwapConcat("'" + k + "'" + ": " + sv, more);
    SwapConcat("'" + k + "'" + ": ", sv);
    SwapConcat("'" + k + "'", ": ");
    SwapAbsent(": ");
    SwapAbsent(k);
    SwapQuoted(k, k);
  }

  /** Showing a value with single quotes and swapping the quotes gives the
      value shown with double quotes. */
  lemma {:induction false} SwapShow(j: Json, python: bool)
    requires Printable(j)
    ensures Swap(Show(j, '\'', python)) == Show(j, '"', python)
    decreases j, 1
  {
    match j
    case JNull => SwapAbsent(Show(j, '\'', python));
    case JBool(b) => SwapAbsent(Show(j, '\'', python));
    case JInt(i) =>
      var t := IntToString(i);
      assert forall k :: 0 <= k < |t| ==> t[k] == '-' || IsDigit(t[k]) by {
        if i < 0 {
          assert IsDigits(NatToString(-i));
          assert forall k :: 1 <= k < |t| ==> t[k] == NatToString(-i)[k - 1];
        } else {
          assert IsDigits(NatToString(i));
        }
      }
      SwapAbsent(t);
    case JStr(str) =>
      SwapAbsent(str);
      SwapQuoted(str, str);
    case JArr(a) =>
      ItemsSwap(a, python);
      SwapWrapped("[", ShowItems(a, '\'', python), "]", ShowItems(a, '"', python));
    case JObj(o) =>
      MembersSwap(o, python);
      SwapWrapped("{", ShowMembers(o, '\'', python), "}", ShowMembers(o, '"', python));
  }

  lemma {:induction false} ItemsSwap(a: seq<Json>, python: bool)
    requires forall i :: 0 <= i < |a| ==> Printable(a[i])
    ensures Swap(ShowItems(a, '\'', python)) == ShowItems(a, '"', python)
    decreases a, 0
  {
    if |a| == 1 {
      SwapShow(a[0], python);
      assert ShowItems(a, '\'', python) == Show(a[0], '\'', python) + "";
      assert Show(a[0], '\'', python) + "" == Show(a[0], '\'', python);
      assert ShowItems(a, '"', python) == Show(a[0], '"', python) + "";
      assert Show(a[0], '"', python) + "" == Show(a[0], '"', python);
    } else if |a| > 1 {
      SwapShow(a[0], python);
      ItemsSwap(a[1..], python);
      SwapConcat(Show(a[0], '\'', python), ", " + ShowItems(a[1..], '\'', python));
      SwapConcat(", ", ShowItems(a[1..], '\'', python));
      SwapAbsent(", ");
    }
  }

  lemma {:induction false} MembersSwap(o: seq<(string, Json)>, python: bool)
    requires forall i :: 0 <= i < |o| ==> PlainText(o[i].0) && Printable(o[i].1)
    ensures Swap(ShowMembers(o, '\'', python)) == ShowMembers(o, '"', python)
    decreases o, 0
  {
    if |o| > 0 {
      var m := o[0];
      assert m in o;
      assert m.1 < m;
      SwapShow(m.1, python);
      var more := if |o| == 1 then "" else ", " + ShowMembers(o[1..], '\'', python);
      var tmore := if |o| == 1 then "" else ", " + ShowMembers(o[1..], '"', python);
      if |o| > 1 {
        assert forall i :: 0 <= i < |o| - 1 ==> o[1..][i] == o[i + 1];
        MembersSwap(o[1..], python);
        SwapConcat(", ", ShowMembers(o[1..], '\'', python));
        SwapAbsent(", ");
      } else {
        SwapAbsent("");
      }
      SwapMember(m.0, Show(m.1, '\'', python), Show(m.1, '"', python), more, tmore);
    }
  }

  /** A value holding no `None`, `True` or `False`: on such values Python's
      display and JSON's differ only in the quotes. */
  predicate NoLiterals(j: Json)
    decreases j
  {
    match j
    case JNull => false
    case JBool(_) => false
    case JArr(a) => forall i :: 0 <= i < |a| ==> NoLiterals(a[i])
    case JObj(o) => forall i :: 0 <= i < |o| ==> NoLiterals(o[i].1)
    case _ => true
  }

  lemma {:induction false} PythonIsJson(j: Json, q: char)
    requires NoLiterals(j)
    ensures Show(j, q, true) == Show(j, q, false)
    decreases j, 1
  {
    match j
    case JArr(a) => ItemsPythonIsJson(a, q);
    case JObj(o) => MembersPythonIsJson(o, q);
    case _ =>
  }

  lemma {:induction false} ItemsPythonIsJson(a: seq<Json>, q: char)
    requires forall i :: 0 <= i < |a| ==> NoLiterals(a[i])
    ensures ShowItems(a, q, true) == ShowItems(a, q, false)
    decreases a, 0
  {
    if |a| > 0 {
      PythonIsJson(a[0], q);
      ItemsPythonIsJson(a[1..], q);
    }
  }

  lemma {:induction false} MembersPythonIsJson(o: seq<(string, Json)>, q: char)
    requires forall i :: 0 <= i < |o| ==> NoLiterals(o[i].1)
    ensures ShowMembers(o, q, true) == ShowMembers(o, q, false)
    decreases o, 0
  {
    if |o| > 0 {
      var m := o[0];
      assert m in o;
      assert m.1 < m;
      PythonIsJson(m.1, q);
      assert forall i :: 0 <= i < |o| - 1 ==> o[1..][i] == o[i + 1];
      MembersPythonIsJson(o[1..], q);
    }
  }

  /** Swapping quotes twice is swapping them once. */
  lemma SwapTwice(x: string)
    ensures Swap(Swap(x)) == Swap(x)
  {
    ReplaceCharRemoves(x, '\'', '"');
    SwapAbsent(Swap(x));
  }

  /** As the scripts write it: an attribute published as `str(value)` is read
      back by the quote swap and `json.loads` when its value is a container
      holding plain strings and numbers only. */
  lemma StrPayloadReadsBack(v: Json)
    requires Printable(v) && NoLiterals(v) && !v.JStr?
    ensures Loads(Swap(PyStr(v))) == Ok(v)
  {
    SwapShow(v, true);
    PythonIsJson(v, '"');
    LoadsDumps(v);
  }

  /** Corrected: an attribute published as `json.dumps(value)` is read back
      by the quote swap and `json.loads`, whatever printable value it holds. */
  lemma DumpsPayloadReadsBack(v: Json)
    requires Printable(v)
    ensures Loads(Swap(Dumps(v))) == Ok(v)
  {
    SwapShow(v, false);
    SwapTwice(Show(v, '\'', false));
    LoadsDumps(v);
  }

  lemma MemberBadValue(k: string, sv: string, after: string)
    requires PlainText(k) && |sv| > 0 && !Closer(sv[0])
    requires ParseValue(sv + after) == None
    ensures ParseMembers("\"" + k + "\"" + ": " + sv + after) == None
  {
    MemberText(k, sv, after);
  }

  /** Python's `True`, `False` and `None` start no JSON value. */
  lemma PythonLiteralFails(s: string)
    requires |s| > 0 && (s[0] == 'T' || s[0] == 'F' || s[0] == 'N')
    ensures ParseValue(s) == None
  {
    assert s[0] != '"' && s[0] != '[' && s[0] != '{' && s[0] != 'n' && s[0] != 't' && s[0] != 'f';
    assert DigitRun(s) == 0;
  }

  /** An NGSI-LD property with a boolean value, `{"value": true, "type":
      "Property"}`. */
  function TrueProperty(): Json
  {
    JObj([("value", JBool(true)), ("type", JStr("Property"))])
  }

  /** The text the reader hands to `json.loads` for `TrueProperty`, cut
      where the parser meets it. */
  lemma TruePropertyText()
    ensures var o := TrueProperty().o;
            Swap(PyStr(TrueProperty())) == "{" + (ShowMembers(o, '"', true) + "}")
    ensures var o := TrueProperty().o;
            ShowMembers(o, '"', true) + "}"
            == "\"" + "value" + "\"" + ": " + "True" + (", " + (ShowMembers(o[1..], '"', true) + "}"))
  {
    var v := TrueProperty();
    SwapShow(v, true);
  }

  /** As the scripts write it, a property whose value is a boolean cannot be
      read back: `str()` writes `True`, which `json.loads` refuses. */
  lemma StrPayloadLosesBoolean()
    ensures Loads(Swap(PyStr(TrueProperty()))) == Raise(ValueError)
  {
    TruePropertyText();
    var o := TrueProperty().o;
    var after := ", " + (ShowMembers(o[1..], '"', true) + "}");
    var members := ShowMembers(o, '"', true) + "}";
    PythonLiteralFails("True" + after);
    MemberBadValue("value", "True", after);
    BadObject(members);
  }

  /** An object whose first member does not parse is refused. */
  lemma BadObject(members: string)
    requires |members| > 0 && members[0] == '"' && ParseMembers(members) == None
    ensures Loads("{" + members) == Raise(ValueError)
  {
    var text := "{" + members;
    assert text[1..] == members;
    ValueObject(text);
  }
}
