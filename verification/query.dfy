/** The NGSI-LD `q` filter as ComDeX evaluates it while rebuilding one entity.

    The query text is cut at the characters `;`, `|`, `(` and `)`; the cut
    characters, in order, are the logical operators. Each piece (an *atom*)
    is cut again at the comparison operators, found left to right by the
    alternation `[><]|==|>=|<=`: `>` or `<` alone wins before the two-character
    forms are tried, so `>=` is read as `>` followed by a literal starting
    with `=`. Every atom's name gets a flag, false at first, which a message
    on the attribute of that name can set to true, never back. At the end the
    flags (in the order their names first appeared, without the empty name)
    are interleaved with the logical operators (`;` as `and`, `|` as `or`,
    parentheses copied) and the text is evaluated as a Python expression.
 */
module Query {
  import opened Basics
  import opened Text
  import opened Json

  /** `re.split('[…]', s)` for a character class. */
  function SplitAny(s: string, seps: set<char>): (r: seq<string>)
    ensures |r| >= 1
    ensures forall i :: 0 <= i < |r| ==> forall c :: c in r[i] ==> c !in seps
  {
    if |s| == 0 then [""]
    else
      var rest := SplitAny(s[1..], seps);
      if s[0] in seps then [""] + rest
      else [[s[0]] + rest[0]] + rest[1..]
  }

  /** `re.findall('[…]', s)` for a character class. */
  function FindAny(s: string, seps: set<char>): (r: seq<char>)
    ensures forall i :: 0 <= i < |r| ==> r[i] in seps
    ensures |SplitAny(s, seps)| == |r| + 1
  {
    if |s| == 0 then []
    else (if s[0] in seps then [s[0]] else []) + FindAny(s[1..], seps)
  }

  const LogicalChars: set<char> := {';', '|', '(', ')'}

  /** An atom cut at its comparison operators: `|pieces| == |ops| + 1`. */
  datatype Atom = Atom(ops: seq<string>, pieces: seq<string>)

  /** `re.findall` and `re.split` with the pattern `[><]|==|>=|<=`. */
  function ScanAtom(s: string): (r: Atom)
    ensures |r.pieces| == |r.ops| + 1
    ensures forall i :: 0 <= i < |r.ops| ==> r.ops[i] in {">", "<", "=="}
  {
    if |s| == 0 then Atom([], [""])
    else if s[0] == '>' || s[0] == '<' then
      var rest := ScanAtom(s[1..]);
      Atom([[s[0]]] + rest.ops, [""] + rest.pieces)
    else if |s| >= 2 && s[..2] == "==" then
      var rest := ScanAtom(s[2..]);
      Atom(["=="] + rest.ops, [""] + rest.pieces)
    else
      var rest := ScanAtom(s[1..]);
      Atom(rest.ops, [[s[0]] + rest.pieces[0]] + rest.pieces[1..])
  }

  /** The scanner with the two-character operators tried first,
      `>=|<=|==|[><]`, so that `>=` and `<=` reach their comparisons. */
  function ScanAtomFixed(s: string): (r: Atom)
    ensures |r.pieces| == |r.ops| + 1
    ensures forall i :: 0 <= i < |r.ops| ==> r.ops[i] in {">=", "<=", "==", ">", "<"}
  {
    if |s| == 0 then Atom([], [""])
    else if |s| >= 2 && s[..2] in {">=", "<=", "=="} then
      var rest := ScanAtomFixed(s[2..]);
      Atom([s[..2]] + rest.ops, [""] + rest.pieces)
    else if s[0] == '>' || s[0] == '<' then
      var rest := ScanAtomFixed(s[1..]);
      Atom([[s[0]]] + rest.ops, [""] + rest.pieces)
    else
      var rest := ScanAtomFixed(s[1..]);
      Atom(rest.ops, [[s[0]] + rest.pieces[0]] + rest.pieces[1..])
  }

  /** `float(x)` of a JSON value; floats are decimals without exponent. */
  function PyFloat(v: Json): Result<real>
  {
    match v
    case JInt(i) => Ok(i as real)
    case JBool(b) => Ok(if b then 1.0 else 0.0)
    case JStr(s) => ParseDecimal(s)
    case _ => Raise(TypeError)
  }

  predicate AllDigits(s: string)
  {
    forall i :: 0 <= i < |s| ==> IsDigit(s[i])
  }

  function Pow10(k: nat): (r: nat)
    ensures r >= 1
  {
    if k == 0 then 1 else 10 * Pow10(k - 1)
  }

  /** `float(s)` for `[+-]digits[.digits]` with surrounding whitespace. */
  function ParseDecimal(s: string): Result<real>
  {
    var t := Strip(s);
    var negative := |t| > 0 && t[0] == '-';
    var body := if |t| > 0 && (t[0] == '-' || t[0] == '+') then t[1..] else t;
    var parts := Split(body, '.');
    if |parts| > 2 || !AllDigits(parts[0]) then Raise(ValueError)
    else
      var frac := if |parts| == 2 then parts[1] else "";
      if !AllDigits(frac) || |parts[0]| + |frac| == 0 then Raise(ValueError)
      else
        var magnitude := DigitsValue(parts[0]) as real + DigitsValue(frac) as real / Pow10(|frac|) as real;
        Ok(if negative then -magnitude else magnitude)
  }

  /** Whether one comparison of an atom holds for a message's value
      (`data2["value"]`); errors are those of the subscripts and `float()`. */
  function Holds(op: string, data: Json, literal: string): Result<bool>
  {
    if op == "==" then
      var v :- Index(data, "value");
      if v.JArr? then Ok(exists i :: 0 <= i < |v.a| && PyEq(v.a[i], JStr(literal)))
      else Ok(PyEq(v, JStr(literal)))
    else if IsDigits(literal) then
      var v :- Index(data, "value");
      var x :- PyFloat(v);
      var bound := DigitsValue(literal) as real;
      Ok(if op == ">" then x > bound else if op == "<" then x < bound else false)
    else Ok(false)
  }

  /** `Holds` with the `>=` and `<=` comparisons the corrected scanner
      can produce. */
  function HoldsFixed(op: string, data: Json, literal: string): Result<bool>
  {
    if op == "==" then Holds(op, data, literal)
    else if IsDigits(literal) then
      var v :- Index(data, "value");
      var x :- PyFloat(v);
      var bound := DigitsValue(literal) as real;
      Ok(if op == ">" then x > bound else if op == "<" then x < bound
         else if op == ">=" then x >= bound else if op == "<=" then x <= bound else false)
    else Ok(false)
  }

  /** The flags: attribute names in order of first appearance. */
  type Flags = seq<(string, bool)>

  function FlagNames(f: Flags): (r: seq<string>)
    ensures |r| == |f|
    ensures forall i :: 0 <= i < |f| ==> r[i] == f[i].0
  {
    seq(|f|, i requires 0 <= i < |f| => f[i].0)
  }

  /** `flags.setdefault(name, False)`. */
  function SetDefault(f: Flags, name: string): (r: Flags)
    ensures name in FlagNames(r)
    ensures name in FlagNames(f) ==> r == f
    ensures name !in FlagNames(f) ==> r == f + [(name, false)]
  {
    if name in FlagNames(f) then f
    else
      var r := f + [(name, false)];
      assert FlagNames(r)[|f|] == name;
      r
  }

  /** `flags[name] = True`. */
  function MarkTrue(f: Flags, name: string): (r: Flags)
    ensures FlagNames(r) == FlagNames(f)
    ensures forall i :: 0 <= i < |f| ==> r[i].1 == (f[i].1 || f[i].0 == name)
  {
    seq(|f|, i requires 0 <= i < |f| => (f[i].0, f[i].1 || f[i].0 == name))
  }

  /** Which comparison scanner reads the atoms: the program's
      `[><]|==|>=|<=`, or the corrected `>=|<=|==|[><]`. */
  datatype Scanner = AsWritten | Corrected

  function Scan(sc: Scanner, atom: string): (r: Atom)
    ensures |r.pieces| == |r.ops| + 1
  {
    match sc
    case AsWritten => ScanAtom(atom)
    case Corrected => ScanAtomFixed(atom)
  }

  function Compare(sc: Scanner, op: string, data: Json, literal: string): Result<bool>
  {
    match sc
    case AsWritten => Holds(op, data, literal)
    case Corrected => HoldsFixed(op, data, literal)
  }

  /** The attribute an atom is about: the text before its first operator. */
  function AtomName(sc: Scanner, atom: string): string
  {
    Scan(sc, atom).pieces[0]
  }

  /** Whether the atom's comparison holds for a message's value. */
  predicate AtomHolds(sc: Scanner, atom: string, data: Json)
  {
    var a := Scan(sc, atom);
    |a.ops| > 0 && Compare(sc, a.ops[0], data, a.pieces[1]) == Ok(true)
  }

  /** One atom against one message on attribute `attr` with value `data`;
      an atom without an operator raises `IndexError` on its own attribute. */
  function UpdateAtom(sc: Scanner, f: Flags, atom: string, attr: string, data: Json): Result<Flags>
  {
    var a := Scan(sc, atom);
    var name := a.pieces[0];
    var f1 := SetDefault(f, name);
    if name != attr then Ok(f1)
    else if |a.ops| == 0 then Raise(IndexError)
    else
      var hit :- Compare(sc, a.ops[0], data, a.pieces[1]);
      Ok(if hit then MarkTrue(f1, name) else f1)
  }

  /** A flag that is set. */
  predicate FlagSet(f: Flags, name: string)
  {
    exists i :: 0 <= i < |f| && f[i] == (name, true)
  }

  /** One atom adds its name to the flags and sets it exactly when the
      message is on that attribute and the comparison holds. */
  lemma UpdateAtomMeaning(sc: Scanner, f: Flags, atom: string, attr: string, data: Json, name: string)
    requires UpdateAtom(sc, f, atom, attr, data).Ok?
    ensures var r := UpdateAtom(sc, f, atom, attr, data).value;
            (name in FlagNames(r) <==> name in FlagNames(f) || name == AtomName(sc, atom)) &&
            (FlagSet(r, name) <==> FlagSet(f, name) || (name == attr && AtomName(sc, atom) == attr && AtomHolds(sc, atom, data)))
  {
    var a := Scan(sc, atom);
    var f1 := SetDefault(f, a.pieces[0]);
    SetDefaultFlags(f, a.pieces[0], name);
    var r := UpdateAtom(sc, f, atom, attr, data).value;
    if a.pieces[0] == attr && r != f1 {
      MarkTrueFlags(f1, attr, name);
    }
  }

  /** `setdefault` adds the name unset and leaves every flag as it was. */
  lemma SetDefaultFlags(f: Flags, n: string, name: string)
    ensures FlagSet(SetDefault(f, n), name) <==> FlagSet(f, name)
    ensures name in FlagNames(SetDefault(f, n)) <==> name in FlagNames(f) || name == n
  {
    var f1 := SetDefault(f, n);
    if FlagSet(f1, name) && f1 != f {
      var i :| 0 <= i < |f1| && f1[i] == (name, true);
      assert i < |f|;
    }
    if FlagSet(f, name) {
      var i :| 0 <= i < |f| && f[i] == (name, true);
      assert f1[i] == f[i];
    }
    assert FlagNames(f1) == if f1 == f then FlagNames(f) else FlagNames(f) + [n];
  }

  /** Marking a present name sets it and leaves the other flags alone. */
  lemma MarkTrueFlags(f: Flags, n: string, name: string)
    requires n in FlagNames(f)
    ensures FlagSet(MarkTrue(f, n), name) <==> FlagSet(f, name) || name == n
  {
    var r := MarkTrue(f, n);
    if name == n {
      var i :| 0 <= i < |f| && FlagNames(f)[i] == n;
      assert r[i] == (name, true);
    } else if FlagSet(r, name) {
      var i :| 0 <= i < |r| && r[i] == (name, true);
      assert f[i] == (name, true);
    }
    if FlagSet(f, name) {
      var i :| 0 <= i < |f| && f[i] == (name, true);
      assert r[i] == (name, true);
    }
  }

  /** Every atom, in order, against one message. */
  function UpdateMessage(sc: Scanner, f: Flags, atoms: seq<string>, attr: string, data: Json): Result<Flags>
    decreases |atoms|
  {
    if |atoms| == 0 then Ok(f)
    else
      var f1 :- UpdateAtom(sc, f, atoms[0], attr, data);
      UpdateMessage(sc, f1, atoms[1..], attr, data)
  }

  /** After one message the flags name every earlier name and every atom's
      name, and a flag is set exactly when it was set before or the message
      is on its attribute and some atom about that attribute holds. */
  lemma {:induction false} UpdateMessageMeaning(sc: Scanner, f: Flags, atoms: seq<string>, attr: string, data: Json, name: string)
    requires UpdateMessage(sc, f, atoms, attr, data).Ok?
    ensures var r := UpdateMessage(sc, f, atoms, attr, data).value;
            (name in FlagNames(r) <==> name in FlagNames(f) || exists j :: 0 <= j < |atoms| && AtomName(sc, atoms[j]) == name) &&
            (FlagSet(r, name) <==>
               FlagSet(f, name) ||
               (name == attr && exists j :: 0 <= j < |atoms| && AtomName(sc, atoms[j]) == attr && AtomHolds(sc, atoms[j], data)))
    decreases |atoms|
  {
    if |atoms| > 0 {
      var f1 := UpdateAtom(sc, f, atoms[0], attr, data).value;
      UpdateAtomMeaning(sc, f, atoms[0], attr, data, name);
      UpdateMessageMeaning(sc, f1, atoms[1..], attr, data, name);
      AtomsCons(sc, atoms, attr, data, name);
    }
  }

  /** Some atom names `name`, or is about `attr` and holds, exactly when
      the first one does or one of the rest does. */
  lemma AtomsCons(sc: Scanner, atoms: seq<string>, attr: string, data: Json, name: string)
    requires |atoms| > 0
    ensures var rest := atoms[1..];
            && ((exists j :: 0 <= j < |atoms| && AtomName(sc, atoms[j]) == name)
                <==> AtomName(sc, atoms[0]) == name || exists j :: 0 <= j < |rest| && AtomName(sc, rest[j]) == name)
            && ((exists j :: 0 <= j < |atoms| && AtomName(sc, atoms[j]) == attr && AtomHolds(sc, atoms[j], data))
                <==> (AtomName(sc, atoms[0]) == attr && AtomHolds(sc, atoms[0], data))
                     || exists j :: 0 <= j < |rest| && AtomName(sc, rest[j]) == attr && AtomHolds(sc, rest[j], data))
  {
    var rest := atoms[1..];
    assert forall j :: 1 <= j < |atoms| ==> rest[j - 1] == atoms[j];
  }

  /** The tokens of the Python expression the flags are turned into. */
  datatype Tok = TBool(b: bool) | TAnd | TOr | TOpen | TClose | TOther(c: char)

  function OpTok(c: char): Tok
  {
    if c == ';' then TAnd else if c == '|' then TOr
    else if c == '(' then TOpen else if c == ')' then TClose else TOther(c)
  }

  /** The inner `while` that copies the non-`;`/`|` operators following
      position `l`; it reads past the end, raising `IndexError`, when no
      `;` or `|` follows. */
  function CopyRun(ops: seq<char>, l: nat): (r: Result<(nat, seq<Tok>)>)
    ensures r.Raise? <==> forall k :: l < k < |ops| ==> ops[k] != ';' && ops[k] != '|'
    ensures r.Raise? ==> r.error == IndexError
    ensures r.Ok? ==> l <= r.value.0 < |ops| - 1 && (ops[r.value.0 + 1] == ';' || ops[r.value.0 + 1] == '|')
    ensures r.Ok? ==> forall k :: l < k <= r.value.0 ==> ops[k] != ';' && ops[k] != '|'
    ensures r.Ok? ==> |r.value.1| == r.value.0 - l
    ensures r.Ok? ==> forall k :: 0 <= k < |r.value.1| ==> r.value.1[k] == OpTok(ops[l + 1 + k])
    decreases |ops| - l
  {
    if l + 1 >= |ops| then Raise(IndexError)
    else if ops[l + 1] == ';' || ops[l + 1] == '|' then Ok((l, []))
    else
      var (l2, toks) :- CopyRun(ops, l + 1);
      Ok((l2, [OpTok(ops[l + 1])] + toks))
  }

  /** The parenthesis run is only looked for when `l + 1 < len(ops) - 1`. */
  function SkipParens(ops: seq<char>, l: nat): Result<(nat, seq<Tok>)>
  {
    if l + 1 < |ops| - 1 then CopyRun(ops, l) else Ok((l, []))
  }

  /** The equation built from the flag values, position `l` in the
      operators being the loop's counter. */
  function Equation(vals: seq<bool>, ops: seq<char>, l: nat): Result<seq<Tok>>
    decreases |vals|
  {
    if |vals| == 0 then Ok([])
    else if l < |ops| then
      match SkipParens(ops, l)
      case Raise(e) => Raise(e)
      case Ok(skip) =>
        var rest :- Equation(vals[1..], ops, skip.0 + 1);
        Ok([TBool(vals[0]), OpTok(ops[l])] + skip.1 + rest)
    else
      var rest :- Equation(vals[1..], ops, l + 1);
      Ok([TBool(vals[0])] + rest)
  }

  // `eval` of the joined equation. The tokens form Python expressions built
  // from `True`, `False`, `and`, `or` and parentheses: `or` binds looser
  // than `and`, both short-circuit and return an operand, `()` is the empty
  // tuple, and a parenthesis after an operand is a call, which raises
  // `TypeError` when it is evaluated. A parse failure (`None`) is Python's
  // `SyntaxError`.

  /** The values such an expression can have. */
  datatype PyVal = PBool(b: bool) | PEmptyTuple

  predicate IsTruthy(v: PyVal)
  {
    v.PBool? && v.b
  }

  /** `x and y` when `x` has been evaluated to `acc`. */
  function PyAnd(acc: Result<PyVal>, v: Result<PyVal>): Result<PyVal>
  {
    if acc.Raise? || !IsTruthy(acc.value) then acc else v
  }

  /** `x or y` when `x` has been evaluated to `acc`. */
  function PyOr(acc: Result<PyVal>, v: Result<PyVal>): Result<PyVal>
  {
    if acc.Raise? || IsTruthy(acc.value) then acc else v
  }

  /** A literal or a parenthesised expression, then any calls. */
  function ParseAtom(ts: seq<Tok>): (r: Option<(Result<PyVal>, seq<Tok>)>)
    ensures r.Some? ==> |r.value.1| < |ts|
    decreases |ts|, 1
  {
    if |ts| == 0 then None
    else if ts[0].TBool? then CallRest(ts[1..], Ok(PBool(ts[0].b)))
    else if ts[0] == TOpen then
      if |ts| > 1 && ts[1] == TClose then CallRest(ts[2..], Ok(PEmptyTuple))
      else match ParseExpr(ts[1..])
        case None => None
        case Some((v, rest)) =>
          if |rest| > 0 && rest[0] == TClose then CallRest(rest[1..], v) else None
    else None
  }

  /** Trailing calls `( )` or `( expr )`: the callee and the argument are
      evaluated, then calling a value that is not callable raises. */
  function CallRest(ts: seq<Tok>, callee: Result<PyVal>): (r: Option<(Result<PyVal>, seq<Tok>)>)
    ensures r.Some? ==> |r.value.1| <= |ts|
    decreases |ts|, 0
  {
    if |ts| > 0 && ts[0] == TOpen then
      if |ts| > 1 && ts[1] == TClose then
        CallRest(ts[2..], if callee.Raise? then callee else Raise(TypeError))
      else match ParseExpr(ts[1..])
        case None => None
        case Some((arg, rest)) =>
          if |rest| > 0 && rest[0] == TClose then
            CallRest(rest[1..], if callee.Raise? then callee else if arg.Raise? then arg else Raise(TypeError))
          else None
    else Some((callee, ts))
  }

  function ParseConj(ts: seq<Tok>): (r: Option<(Result<PyVal>, seq<Tok>)>)
    ensures r.Some? ==> |r.value.1| < |ts|
    decreases |ts|, 2
  {
    match ParseAtom(ts)
    case None => None
    case Some((v, rest)) => ConjRest(rest, v)
  }

  function ConjRest(ts: seq<Tok>, acc: Result<PyVal>): (r: Option<(Result<PyVal>, seq<Tok>)>)
    ensures r.Some? ==> |r.value.1| <= |ts|
    decreases |ts|, 0
  {
    if |ts| > 0 && ts[0] == TAnd then
      match ParseAtom(ts[1..])
      case None => None
      case Some((v, rest)) => ConjRest(rest, PyAnd(acc, v))
    else Some((acc, ts))
  }

  function ParseExpr(ts: seq<Tok>): (r: Option<(Result<PyVal>, seq<Tok>)>)
    ensures r.Some? ==> |r.value.1| < |ts|
    decreases |ts|, 3
  {
    match ParseConj(ts)
    case None => None
    case Some((v, rest)) => ExprRest(rest, v)
  }

  function ExprRest(ts: seq<Tok>, acc: Result<PyVal>): (r: Option<(Result<PyVal>, seq<Tok>)>)
    ensures r.Some? ==> |r.value.1| <= |ts|
    decreases |ts|, 0
  {
    if |ts| > 0 && ts[0] == TOr then
      match ParseConj(ts[1..])
      case None => None
      case Some((v, rest)) => ExprRest(rest, PyOr(acc, v))
    else Some((acc, ts))
  }

  /** `eval(' '.join(tokens))`. */
  function Eval(ts: seq<Tok>): Result<PyVal>
  {
    match ParseExpr(ts)
    case Some((v, rest)) => if rest == [] then v else Raise(SyntaxError)
    case None => Raise(SyntaxError)
  }

  /** The outcome of the whole filter for the flags left after every
      message: whether `eval(...) == True`, or the exception. */
  function Verdict(f: Flags, query: string): Result<bool>
  {
    var ops := FindAny(query, LogicalChars);
    var kept := RemoveName(f, "");
    var toks :- Equation(FlagValues(kept), ops, 0);
    var v :- Eval(toks);
    Ok(v == PBool(true))
  }

  /** `flags.pop(name, None)`. */
  function RemoveName(f: Flags, name: string): (r: Flags)
    ensures forall i :: 0 <= i < |r| ==> r[i] in f && r[i].0 != name
  {
    if |f| == 0 then []
    else (if f[0].0 == name then [] else [f[0]]) + RemoveName(f[1..], name)
  }

  // ---------------------------------------------------------------------
  // Reference semantics for queries without parentheses: `;` is AND, `|` is
  // OR, AND binds tighter. `cur` is the value of the AND-group being read.

  function RefTail(cur: bool, vals: seq<bool>, ops: seq<char>): bool
    requires |vals| == |ops|
    decreases |ops|
  {
    if |ops| == 0 then cur
    else if ops[0] == ';' then RefTail(cur && vals[0], vals[1..], ops[1..])
    else cur || RefTail(vals[0], vals[1..], ops[1..])
  }

  /** The value of `v0 op0 v1 op1 … vn` read with AND before OR. */
  function Reference(vals: seq<bool>, ops: seq<char>): bool
    requires |vals| == |ops| + 1
  {
    RefTail(vals[0], vals[1..], ops)
  }

  /** The tokens `op0 v1 op1 v2 …` following a first operand. */
  function Tail(vals: seq<bool>, ops: seq<char>): seq<Tok>
    requires |vals| == |ops|
    decreases |ops|
  {
    if |ops| == 0 then [] else [OpTok(ops[0]), TBool(vals[0])] + Tail(vals[1..], ops[1..])
  }

  predicate FlatOps(ops: seq<char>)
  {
    forall i :: 0 <= i < |ops| ==> ops[i] == ';' || ops[i] == '|'
  }

  /** The number of leading `;`. */
  function LeadingAnds(ops: seq<char>): (k: nat)
    ensures k <= |ops|
    ensures forall i :: 0 <= i < k ==> ops[i] == ';'
    ensures k < |ops| ==> ops[k] != ';'
  {
    if |ops| == 0 || ops[0] != ';' then 0 else 1 + LeadingAnds(ops[1..])
  }

  /** `cur and v0 and … and v(k-1)` for the leading `;` run. */
  function AndRun(cur: bool, vals: seq<bool>, k: nat): bool
    requires k <= |vals|
  {
    if k == 0 then cur else AndRun(cur && vals[0], vals[1..], k - 1)
  }

  /** A literal followed by a flat tail is not called. */
  lemma AtomFlat(b: bool, vals: seq<bool>, ops: seq<char>)
    requires |vals| == |ops| && FlatOps(ops)
    ensures ParseAtom([TBool(b)] + Tail(vals, ops)) == Some((Ok(PBool(b)), Tail(vals, ops)))
  {
    assert ([TBool(b)] + Tail(vals, ops))[1..] == Tail(vals, ops);
    if |ops| > 0 {
      assert Tail(vals, ops)[0] == OpTok(ops[0]);
    }
  }

  /** `ConjRest` consumes exactly the leading run of `and`s. */
  lemma {:induction false} ConjRestFlat(vals: seq<bool>, ops: seq<char>, acc: bool)
    requires |vals| == |ops| && FlatOps(ops)
    ensures var k := LeadingAnds(ops);
            ConjRest(Tail(vals, ops), Ok(PBool(acc))) == Some((Ok(PBool(AndRun(acc, vals, k))), Tail(vals[k..], ops[k..])))
    decreases |ops|
  {
    if |ops| > 0 && ops[0] == ';' {
      var t := Tail(vals, ops);
      assert t[1..] == [TBool(vals[0])] + Tail(vals[1..], ops[1..]);
      AtomFlat(vals[0], vals[1..], ops[1..]);
      ConjRestFlat(vals[1..], ops[1..], acc && vals[0]);
      var k := LeadingAnds(ops);
      assert vals[1..][k - 1..] == vals[k..] && ops[1..][k - 1..] == ops[k..];
    }
  }

  /** The reference value splits at the end of the first AND-group. */
  lemma {:induction false} RefTailSplit(cur: bool, vals: seq<bool>, ops: seq<char>)
    requires |vals| == |ops| && FlatOps(ops)
    ensures var k := LeadingAnds(ops);
            RefTail(cur, vals, ops) ==
              if k == |ops| then AndRun(cur, vals, k)
              else AndRun(cur, vals, k) || RefTail(vals[k], vals[k + 1..], ops[k + 1..])
    decreases |ops|
  {
    if |ops| > 0 && ops[0] == ';' {
      RefTailSplit(cur && vals[0], vals[1..], ops[1..]);
      var k := LeadingAnds(ops);
      if k < |ops| {
        assert vals[1..][k - 1] == vals[k];
        assert vals[1..][k..] == vals[k + 1..] && ops[1..][k..] == ops[k + 1..];
      }
    }
  }

  /** A literal and the `and`s after it are read as one AND-group. */
  lemma ConjFlat(b: bool, vs: seq<bool>, ops: seq<char>)
    requires |vs| == |ops| && FlatOps(ops)
    ensures var k := LeadingAnds(ops);
            ParseConj([TBool(b)] + Tail(vs, ops)) == Some((Ok(PBool(AndRun(b, vs, k))), Tail(vs[k..], ops[k..])))
  {
    var ts := [TBool(b)] + Tail(vs, ops);
    assert ts[1..] == Tail(vs, ops);
    AtomFlat(b, vs, ops);
    ConjRestFlat(vs, ops, b);
  }

  /** After the first AND-group the operators left start with an `or`, and
      the reference value is the group's value or-ed with the rest. */
  lemma RefAfterGroup(b: bool, vs: seq<bool>, ops: seq<char>)
    requires |vs| == |ops| && FlatOps(ops)
    ensures var k := LeadingAnds(ops);
            var run := AndRun(b, vs, k);
            && |vs[k..]| == |ops[k..]| && FlatOps(ops[k..])
            && (|ops[k..]| > 0 ==> ops[k..][0] == '|')
            && RefTail(b, vs, ops) == if |ops[k..]| == 0 then run else run || RefTail(vs[k..][0], vs[k..][1..], ops[k..][1..])
  {
    var k := LeadingAnds(ops);
    RefTailSplit(b, vs, ops);
    if k < |ops| {
      assert vs[k..][0] == vs[k] && vs[k..][1..] == vs[k + 1..] && ops[k..][1..] == ops[k + 1..];
      assert ops[k..][0] == ops[k];
    }
  }

  /** `ExprRest` over a tail that starts at an `or` (or is empty) adds the
      reference value of the rest. */
  lemma {:induction false} ExprRestFlat(vals: seq<bool>, ops: seq<char>, acc: bool)
    requires |vals| == |ops| && FlatOps(ops)
    requires |ops| > 0 ==> ops[0] == '|'
    ensures ExprRest(Tail(vals, ops), Ok(PBool(acc)))
         == Some((Ok(PBool(if |ops| == 0 then acc else acc || RefTail(vals[0], vals[1..], ops[1..]))), []))
    decreases |ops|
  {
    if |ops| > 0 {
      var t := Tail(vals, ops);
      var vs := vals[1..];
      var os := ops[1..];
      assert t[1..] == [TBool(vals[0])] + Tail(vs, os);
      ConjFlat(vals[0], vs, os);
      var k := LeadingAnds(os);
      RefAfterGroup(vals[0], vs, os);
      ExprRestFlat(vs[k..], os[k..], acc || AndRun(vals[0], vs, k));
    }
  }

  /** For a query without parentheses, `eval` of the flat equation gives the
      reference AND-before-OR value. */
  lemma EvalFlat(vals: seq<bool>, ops: seq<char>)
    requires |vals| == |ops| + 1 && FlatOps(ops)
    ensures Eval([TBool(vals[0])] + Tail(vals[1..], ops)) == Ok(PBool(Reference(vals, ops)))
  {
    var vs := vals[1..];
    ConjFlat(vals[0], vs, ops);
    var k := LeadingAnds(ops);
    RefAfterGroup(vals[0], vs, ops);
    ExprRestFlat(vs[k..], ops[k..], AndRun(vals[0], vs, k));
  }

  /** Without parentheses and with one flag per operand, the equation is the
      flat alternation of values and `and`/`or`. */
  lemma {:induction false} EquationFlat(vals: seq<bool>, ops: seq<char>, l: nat)
    requires FlatOps(ops) && l <= |ops| && |vals| == |ops| - l + 1
    ensures Equation(vals, ops, l) == Ok([TBool(vals[0])] + Tail(vals[1..], ops[l..]))
    decreases |vals|
  {
    if l < |ops| {
      assert SkipParens(ops, l) == Ok((l, [])) by {
        if l + 1 < |ops| - 1 {
          assert ops[l + 1] == ';' || ops[l + 1] == '|';
          assert CopyRun(ops, l) == Ok((l, []));
        }
      }
      EquationFlat(vals[1..], ops, l + 1);
      var rest := [TBool(vals[1])] + Tail(vals[2..], ops[l + 1..]);
      assert Equation(vals[1..], ops, l + 1) == Ok(rest);
      assert Tail(vals[1..], ops[l..]) == [OpTok(ops[l]), TBool(vals[1])] + Tail(vals[2..], ops[l + 1..]) by {
        assert ops[l..][1..] == ops[l + 1..] && ops[l..][0] == ops[l];
        assert vals[1..][1..] == vals[2..];
      }
      var head: seq<Tok> := [TBool(vals[0]), OpTok(ops[l])];
      assert head + [] == head;
      assert Equation(vals, ops, l) == Ok(head + [] + rest);
      assert [TBool(vals[0])] + Tail(vals[1..], ops[l..]) == head + rest;
    } else {
      assert Equation(vals[1..], ops, l + 1) == Ok([]);
    }
  }

  /** The values of the flags, in order. */
  function FlagValues(f: Flags): (r: seq<bool>)
    ensures |r| == |f|
    ensures forall i :: 0 <= i < |f| ==> r[i] == f[i].1
  {
    seq(|f|, i requires 0 <= i < |f| => f[i].1)
  }

  /** For a query without parentheses whose atoms left one flag per
      operand, the filter passes exactly when the AND-before-OR reading of
      the flags is true. */
  lemma FlatVerdict(f: Flags, query: string)
    requires FlatOps(FindAny(query, LogicalChars))
    requires |RemoveName(f, "")| == |FindAny(query, LogicalChars)| + 1
    ensures Verdict(f, query) == Ok(Reference(FlagValues(RemoveName(f, "")), FindAny(query, LogicalChars)))
  {
    var ops := FindAny(query, LogicalChars);
    var kept := RemoveName(f, "");
    var vals := FlagValues(kept);
    EquationFlat(vals, ops, 0);
    assert ops[0..] == ops;
    EvalFlat(vals, ops);
  }

  // ---------------------------------------------------------------------
  // `>=` and `<=` in atoms.

  predicate NoOpChars(p: string)
  {
    forall i :: 0 <= i < |p| ==> p[i] != '<' && p[i] != '>' && p[i] != '='
  }

  /** Text without operator characters only extends the first piece. */
  lemma {:induction false} ScanPlainPrefix(p: string, s: string)
    requires NoOpChars(p)
    ensures ScanAtom(p + s) == Atom(ScanAtom(s).ops, [p + ScanAtom(s).pieces[0]] + ScanAtom(s).pieces[1..])
    decreases |p|
  {
    var r := ScanAtom(s);
    if |p| > 0 {
      var t := p[1..] + s;
      assert p + s == [p[0]] + t;
      ScanPlainStep(p[0], t);
      ScanPlainPrefix(p[1..], s);
      JoinFirstPiece(p, r.pieces);
    } else {
      assert p + s == s;
      JoinFirstPiece(p, r.pieces);
    }
  }

  /** One character that is no operator joins the first piece. */
  lemma ScanPlainStep(c: char, t: string)
    requires c != '<' && c != '>' && c != '='
    ensures ScanAtom([c] + t) == Atom(ScanAtom(t).ops, [[c] + ScanAtom(t).pieces[0]] + ScanAtom(t).pieces[1..])
  {
    var ct := [c] + t;
    assert ct[0] == c && ct[1..] == t;
    assert !(|ct| >= 2 && ct[..2] == "==") by {
      if |ct| >= 2 { assert ct[..2][0] == c; }
    }
  }

  /** The same step for the corrected scanner. */
  lemma ScanFixedPlainStep(c: char, t: string)
    requires c != '<' && c != '>' && c != '='
    ensures ScanAtomFixed([c] + t) == Atom(ScanAtomFixed(t).ops, [[c] + ScanAtomFixed(t).pieces[0]] + ScanAtomFixed(t).pieces[1..])
  {
    var ct := [c] + t;
    assert ct[0] == c && ct[1..] == t;
    assert !(|ct| >= 2 && ct[..2] in {">=", "<=", "=="}) by {
      if |ct| >= 2 { assert ct[..2][0] == c; }
    }
  }

  /** Prefixing the first piece with `p`, one character at a time. */
  lemma JoinFirstPiece(p: string, pieces: seq<string>)
    requires |pieces| > 0
    ensures |p| == 0 ==> [p + pieces[0]] + pieces[1..] == pieces
    ensures |p| > 0 ==> [[p[0]] + (p[1..] + pieces[0])] + pieces[1..] == [p + pieces[0]] + pieces[1..]
  {
    if |p| > 0 {
      assert [p[0]] + (p[1..] + pieces[0]) == p + pieces[0];
    } else {
      assert p + pieces[0] == pieces[0];
    }
  }

  /** The same for the corrected scanner. */
  lemma {:induction false} ScanFixedPlainPrefix(p: string, s: string)
    requires NoOpChars(p)
    ensures ScanAtomFixed(p + s) == Atom(ScanAtomFixed(s).ops, [p + ScanAtomFixed(s).pieces[0]] + ScanAtomFixed(s).pieces[1..])
    decreases |p|
  {
    var r := ScanAtomFixed(s);
    if |p| > 0 {
      var t := p[1..] + s;
      assert p + s == [p[0]] + t;
      ScanFixedPlainStep(p[0], t);
      ScanFixedPlainPrefix(p[1..], s);
      JoinFirstPiece(p, r.pieces);
    } else {
      assert p + s == s;
      JoinFirstPiece(p, r.pieces);
    }
  }

  /** As written, `name>=5` (or `name<=5`) is cut at the single `>` (or
      `<`), leaving the literal `=5`, which is not numeric: the comparison
      never holds, whatever the value. */
  lemma GreaterEqualMisread(name: string, c: char, literal: string, data: Json)
    requires NoOpChars(name) && IsDigits(literal) && (c == '>' || c == '<')
    ensures ScanAtom(name + [c, '='] + literal) == Atom([[c]], [name, "=" + literal])
    ensures Holds([c], data, "=" + literal) == Ok(false)
    ensures AtomName(AsWritten, name + [c, '='] + literal) == name
    ensures !AtomHolds(AsWritten, name + [c, '='] + literal, data)
  {
    MisreadTail(c, literal);
    var tail := [c, '='] + literal;
    var r := ScanAtom(tail);
    ScanPlainPrefix(name, tail);
    assert name + [c, '='] + literal == name + tail;
    assert r.pieces[0] == "" && r.pieces[1..] == ["=" + literal];
    assert name + "" == name;
  }

  /** As written, `>=digits` is cut at the `>`, and `=digits` is not a
      number. */
  lemma MisreadTail(c: char, literal: string)
    requires IsDigits(literal) && (c == '>' || c == '<')
    ensures ScanAtom([c, '='] + literal) == Atom([[c]], ["", "=" + literal])
    ensures !IsDigits("=" + literal)
  {
    DigitsPlain(literal);
    ScanPlainPrefix(literal, "");
    assert literal + "" == literal;
    var eqLit := "=" + literal;
    assert eqLit[1..] == literal;
    assert eqLit[..2] != "==" by {
      assert IsDigit(literal[0]);
      assert eqLit[..2][1] == literal[0];
    }
    assert ScanAtom(eqLit) == Atom([], [eqLit]);
    var tail := [c, '='] + literal;
    assert tail[1..] == eqLit;
    assert !IsDigits(eqLit) by {
      assert !IsDigit(eqLit[0]);
    }
  }

  /** So, as written, a query atom `name>=n` or `name<=n` never sets its
      flag: after any message the flag is set exactly when it was before. */
  lemma GreaterEqualFlagStays(f: Flags, name: string, c: char, literal: string, attr: string, data: Json, other: string)
    requires NoOpChars(name) && IsDigits(literal) && (c == '>' || c == '<')
    requires UpdateAtom(AsWritten, f, name + [c, '='] + literal, attr, data).Ok?
    ensures var r := UpdateAtom(AsWritten, f, name + [c, '='] + literal, attr, data).value;
            name in FlagNames(r) && (FlagSet(r, other) <==> FlagSet(f, other))
  {
    GreaterEqualMisread(name, c, literal, data);
    UpdateAtomMeaning(AsWritten, f, name + [c, '='] + literal, attr, data, other);
    UpdateAtomMeaning(AsWritten, f, name + [c, '='] + literal, attr, data, name);
  }

  /** The corrected scanner cuts `name op literal` at `op` for each of the
      five operators. */
  lemma OperatorsRead(name: string, op: string, literal: string)
    requires NoOpChars(name) && IsDigits(literal) && op in {">=", "<=", "==", ">", "<"}
    ensures ScanAtomFixed(name + op + literal) == Atom([op], [name, literal])
  {
    OperatorTail(op, literal);
    FixedNamePrefix(name, op + literal, [op], literal);
    assert name + op + literal == name + (op + literal);
  }

  /** A name in front of an atom with an empty name becomes its name. */
  lemma FixedNamePrefix(name: string, tail: string, ops: seq<string>, piece: string)
    requires NoOpChars(name) && ScanAtomFixed(tail) == Atom(ops, ["", piece])
    ensures ScanAtomFixed(name + tail) == Atom(ops, [name, piece])
  {
    ScanFixedPlainPrefix(name, tail);
    assert ["", piece][1..] == [piece];
    assert name + "" == name;
  }

  /** An operator followed by digits is read as that operator with an empty
      name. */
  lemma OperatorTail(op: string, literal: string)
    requires IsDigits(literal) && op in {">=", "<=", "==", ">", "<"}
    ensures ScanAtomFixed(op + literal) == Atom([op], ["", literal])
  {
    DigitsPlain(literal);
    var tail := op + literal;
    if |op| == 2 {
      assert tail[..2] == op && tail[2..] == literal;
    } else {
      assert tail[1..] == literal;
      assert tail[0] == op[0];
      assert tail[..2] !in {">=", "<=", "=="} by {
        assert tail[..2][1] == literal[0];
        assert IsDigit(literal[0]);
      }
    }
  }

  /** Digits alone are one operand. */
  lemma DigitsPlain(literal: string)
    requires IsDigits(literal)
    ensures NoOpChars(literal)
    ensures ScanAtomFixed(literal) == Atom([], [literal])
  {
    assert NoOpChars(literal) by {
      forall i | 0 <= i < |literal| ensures literal[i] != '<' && literal[i] != '>' && literal[i] != '=' {
        assert IsDigit(literal[i]);
      }
    }
    ScanFixedPlainPrefix(literal, "");
    assert literal + "" == literal;
  }

  /** With the corrected scanner, `name>=n` holds exactly for values at
      least `n`, and `name<=n` for values at most `n`. */
  lemma GreaterEqualCompares(name: string, literal: string, data: Json, v: int)
    requires NoOpChars(name) && IsDigits(literal)
    requires Index(data, "value") == Ok(JInt(v))
    ensures AtomHolds(Corrected, name + ">=" + literal, data) <==> v >= DigitsValue(literal)
    ensures AtomHolds(Corrected, name + "<=" + literal, data) <==> v <= DigitsValue(literal)
    ensures AtomName(Corrected, name + ">=" + literal) == name && AtomName(Corrected, name + "<=" + literal) == name
  {
    OperatorsRead(name, ">=", literal);
    OperatorsRead(name, "<=", literal);
  }
}
