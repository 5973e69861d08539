/** Rebuilding NGSI-LD entities from retained attribute messages
    (`recreate_single_entity`, `recreate_multiple_entities`) and the
    subscriber's reaction to one notification (`on_message`).

    An entity is never stored whole: each attribute lives on its own topic,
    with two companion topics holding its creation and modification times.
    A reader starts from the id, type and context carried by the first
    message's topic and adds the messages one by one; lineage messages are
    folded into the attribute they belong to.

    What the original program prints is returned here as a value: a printed
    entity (`json.dumps` of the rebuilt dictionary) or nothing.
 */
module Reassembly {
  import opened Basics
  import opened Text
  import opened Json
  import opened JsonText
  import opened Topics
  import opened Broker
  import opened Query
  import opened Writer
  import Reader

  const DefaultContext := "https://uri.etsi.org/ngsi-ld/v1/ngsi-ld-core-context.jsonld"
  const TimeSeparator := "_timerelsystem_"

  /** The attribute filter of a reading. Callers pass either a string, the
      empty one or the `#` default of a `GET` without `attrs`, which filters
      nothing, or the list `attrs=a,b` splits into, whose elements are the
      attribute names kept (Python list membership, not a substring test). */
  type AttrFilter = Option<seq<string>>

  /** The options of one reading. `topics` is the attribute filter;
      `lineage` is `timee != ''`; `dereference` is `context_given == '+'`. */
  datatype Request = Request(query: string, topics: AttrFilter, lineage: bool,
                             georel: string, geoproperty: string, dereference: bool)

  /** What one reading ends with: the printed entity, or nothing printed. */
  datatype Outcome = Printed(entity: seq<(string, Json)>) | Silent

  /** The state of the loop over messages: the dictionary and query flags so
      far, or the early `return` of a failed geo test. */
  datatype Progress = Going(data: seq<(string, Json)>, flags: Flags) | Stopped

  /** `topics != '' and topics != "#"`: true of every list, `['#']` included. */
  predicate Filtered(req: Request)
  {
    req.topics.Some?
  }

  predicate IsLineage(name: string)
  {
    EndsWith(name, "_CreatedAt") || EndsWith(name, "_modifiedAt")
  }

  /** The context list of a rebuilt entity: the topic's context, followed by
      the NGSI-LD core context unless it is that one. */
  function ContextList(context: string): (r: seq<Json>)
    ensures |r| == (if context == DefaultContext then 1 else 2)
    ensures r[0] == JStr(context)
    ensures JStr(DefaultContext) in r
  {
    [JStr(context)] + (if context != DefaultContext then [JStr(DefaultContext)] else [])
  }

  /** `doc["@context"][name]` when both lookups succeed, else `name` itself:
      the lookup is wrapped in a `try` that swallows every exception. */
  function Alias(doc: Json, name: string): (r: Json)
    ensures doc.JObj? && Lookup(doc.o, "@context").Some? && Lookup(doc.o, "@context").value.JObj?
            && Lookup(Lookup(doc.o, "@context").value.o, name).Some?
            ==> r == Lookup(Lookup(doc.o, "@context").value.o, name).value
    ensures !doc.JObj? || Lookup(doc.o, "@context").None? ==> r == JStr(name)
  {
    match Index(doc, "@context")
    case Raise(_) => JStr(name)
    case Ok(terms) =>
      match Index(terms, name)
      case Raise(_) => JStr(name)
      case Ok(v) => v
  }

  /** A value used as a key of the rebuilt dictionary, whose keys are all
      strings: lists and dicts are unhashable, other values are missing. */
  function KeyOf(j: Json): (r: Result<string>)
    ensures r.Ok? <==> j.JStr?
    ensures r.Ok? ==> r.value == j.s
    ensures j.JArr? || j.JObj? ==> r == Raise(TypeError)
  {
    match j
    case JStr(s) => Ok(s)
    case JArr(_) => Raise(TypeError)
    case JObj(_) => Raise(TypeError)
    case _ => Raise(KeyError)
  }

  /** `data[base][field] = value` for a lineage topic `<base>_timerelsystem_<field>`. */
  function SetLineage(data: seq<(string, Json)>, name: string, value: Json, doc: Option<Json>): (r: Result<seq<(string, Json)>>)
    ensures r.Ok? ==> Keys(r.value) == Keys(data)
    ensures |SplitOn(name, TimeSeparator)| < 2 ==> r == Raise(IndexError)
  {
    SetField(data, SplitOn(name, TimeSeparator), value, doc)
  }

  /** `data[parts[-2]][parts[-1]] = value`, the attribute name renamed
      through the context document when one was fetched. The attribute must
      already be in the dictionary and be an object. */
  function SetField(data: seq<(string, Json)>, parts: seq<string>, value: Json, doc: Option<Json>): (r: Result<seq<(string, Json)>>)
    ensures r.Ok? ==> Keys(r.value) == Keys(data)
    ensures |parts| < 2 ==> r == Raise(IndexError)
    ensures |parts| >= 2 && doc.None? && parts[|parts| - 2] !in Keys(data) ==> r == Raise(KeyError)
  {
    if |parts| < 2 then Raise(IndexError)
    else
      var field := parts[|parts| - 1];
      var base := parts[|parts| - 2];
      var key :- KeyOf(if doc.Some? then Alias(doc.value, base) else JStr(base));
      match Lookup(data, key)
      case None => Raise(KeyError)
      case Some(target) =>
        if target.JObj? then Ok(Put(data, key, JObj(Put(target.o, field, value))))
        else Raise(TypeError)
  }

  /** Where one message's value goes. With a filter, an attribute named in
      it is stored; a lineage message is folded in whenever lineage is
      asked for (filtered or not). Without a filter every non-lineage
      attribute is stored. */
  function StoreValue(data: seq<(string, Json)>, name: string, value: Json, req: Request, doc: Option<Json>): (r: Result<seq<(string, Json)>>)
    ensures !Filtered(req) && !IsLineage(name) ==> r == Ok(Put(data, name, value))
    ensures !req.lineage && IsLineage(name) && !Filtered(req) ==> r == Ok(data)
    ensures Filtered(req) && !req.lineage ==> r == Ok(if name in req.topics.value then Put(data, name, value) else data)
    ensures r.Ok? ==> forall k :: k in Keys(r.value) ==>
              k in Keys(data) || (k == name && (!Filtered(req) || name in req.topics.value))
  {
    if Filtered(req) then
      var d1 := if name in req.topics.value then Put(data, name, value) else data;
      if IsLineage(name) && req.lineage then SetLineage(d1, name, value, doc) else Ok(d1)
    else if IsLineage(name) then
      if req.lineage then SetLineage(data, name, value, doc) else Ok(data)
    else Ok(Put(data, name, value))
  }

  /** `topic[-1]`. */
  function LastLevel(topic: string): string
  {
    var l := LevelsOf(topic);
    l[|l| - 1]
  }

  /** One pass of the loop body: decode the payload (after the quote swap),
      then take the decoded value in. */
  function ReadMessage(st: Progress, m: Message, req: Request, geo: Json -> Result<bool>, doc: Option<Json>): (r: Result<Progress>)
    ensures st.Stopped? ==> r == Ok(Stopped)
    ensures st.Going? && Loads(Swap(m.payload)).Raise? ==> r == Raise(ValueError)
  {
    match st
    case Stopped => Ok(Stopped)
    case Going(data, flags) =>
      match Loads(Swap(m.payload))
      case Raise(e) => Raise(e)
      case Ok(value) => Absorb(data, flags, LastLevel(m.topic), value, req, geo, doc)
  }

  /** A decoded value on attribute `name`: the geo test when the message is
      on the geo property, the query flags when there is a query, then the
      store step. `geo` is the geometry test of this request: `Ok(false)` is
      the early `return`. */
  function Absorb(data: seq<(string, Json)>, flags: Flags, name: string, value: Json, req: Request,
                  geo: Json -> Result<bool>, doc: Option<Json>): (r: Result<Progress>)
    ensures r.Ok? && r.value.Going? && req.query == "" ==> r.value.flags == flags
    ensures r.Ok? && r.value.Going? && req.query != "" ==>
              UpdateMessage(AsWritten, flags, SplitAny(req.query, LogicalChars), name, value) == Ok(r.value.flags)
    ensures r.Ok? && r.value.Going? ==> StoreValue(data, name, value, req, doc) == Ok(r.value.data)
    ensures (req.georel == "" || name != req.geoproperty) && req.query == "" ==>
              var stored := StoreValue(data, name, value, req, doc);
              (stored.Raise? ==> r == Raise(stored.error)) && (stored.Ok? ==> r == Ok(Going(stored.value, flags)))
  {
    var keep :- if req.georel != "" && name == req.geoproperty then geo(value) else Ok(true);
    if !keep then Ok(Stopped)
    else
      var flags' :- if req.query != "" then UpdateMessage(AsWritten, flags, SplitAny(req.query, LogicalChars), name, value)
                    else Ok(flags);
      var data' :- StoreValue(data, name, value, req, doc);
      Ok(Going(data', flags'))
  }

  /** The loop over all messages; the first exception ends it. */
  function ReadAll(st: Progress, ms: seq<Message>, req: Request, geo: Json -> Result<bool>, doc: Option<Json>): (r: Result<Progress>)
    ensures st.Stopped? ==> r == Ok(Stopped)
    decreases |ms|
  {
    if |ms| == 0 then Ok(st)
    else
      match ReadMessage(st, ms[0], req, geo, doc)
      case Raise(e) => Raise(e)
      case Ok(next) => ReadAll(next, ms[1..], req, geo, doc)
  }

  /** The fetched context document when dereferencing: `web` is what
      fetching and decoding the context URL gave. */
  function Fetch(req: Request, web: Result<Json>): (r: Result<Option<Json>>)
    ensures !req.dereference ==> r == Ok(None)
    ensures req.dereference ==> (r.Ok? <==> web.Ok?)
  {
    if !req.dereference then Ok(None)
    else match web
      case Ok(d) => Ok(Some(d))
      case Raise(e) => Raise(e)
  }

  /** The dictionary a reading starts from: id and type from the first
      message's topic, the type renamed through the context document. */
  function Header(ref: EntityRef, doc: Option<Json>): (r: seq<(string, Json)>)
    ensures Keys(r) == ["id", "type"]
    ensures r[0] == ("id", JStr(ref.id))
    ensures doc.None? ==> r[1] == ("type", JStr(ref.etype))
  {
    [("id", JStr(ref.id)), ("type", if doc.Some? then Alias(doc.value, ref.etype) else JStr(ref.etype))]
  }

  /** `recreate_single_entity(ms, …)`: the messages of one entity rebuilt
      into one dictionary, printed when there is no query or when the query
      evaluates to `True`. */
  function ReassembleSingle(ms: seq<Message>, req: Request, geo: Json -> Result<bool>, web: Result<Json>): (r: Result<Outcome>)
    ensures |ms| == 0 ==> r == Raise(IndexError)
    ensures |ms| > 0 && |LevelsOf(ms[0].topic)| < 5 ==> r == Raise(IndexError)
    ensures |ms| > 0 && |LevelsOf(ms[0].topic)| >= 5 && req.dereference && web.Raise? ==> r == Raise(web.error)
  {
    if |ms| == 0 then Raise(IndexError)
    else
      var ref :- DecodeEntityTopic(ms[0].topic);
      var doc :- Fetch(req, web);
      var st :- ReadAll(Going(Header(ref, doc), []), ms, req, geo, doc);
      match st
      case Stopped => Ok(Silent)
      case Going(data, flags) =>
        var entity := Put(data, "@context", JArr(ContextList(ref.context)));
        if req.query == "" then Ok(Printed(entity))
        else
          var passed :- Verdict(flags, req.query);
          Ok(if passed then Printed(entity) else Silent)
  }

  /** Each group in turn until the first exception. */
  function ReassembleGroups(groups: seq<(string, seq<Message>)>, req: Request, geo: Json -> Result<bool>, web: Result<Json>): (r: Result<seq<Outcome>>)
    ensures r.Ok? ==> |r.value| == |groups|
    ensures r.Ok? ==> forall i :: 0 <= i < |groups| ==> ReassembleSingle(groups[i].1, req, geo, web) == Ok(r.value[i])
    ensures r.Raise? ==> exists i :: 0 <= i < |groups| && ReassembleSingle(groups[i].1, req, geo, web).Raise?
    decreases |groups|
  {
    if |groups| == 0 then Ok([])
    else
      var first :- ReassembleSingle(groups[0].1, req, geo, web);
      var rest :- ReassembleGroups(groups[1..], req, geo, web);
      assert forall i :: 1 <= i < |groups| ==> groups[1..][i - 1] == groups[i];
      Ok([first] + rest)
  }

  /** `recreate_multiple_entities(ms, …, limit)`: group by entity id, then
      rebuild group after group, counting the limit down. */
  function ReassembleMany(ms: seq<Message>, req: Request, limit: int, geo: Json -> Result<bool>, web: Result<Json>): (r: Result<seq<Outcome>>)
    ensures Reader.GroupById(ms).Raise? ==> r == Raise(Reader.GroupById(ms).error)
  {
    var groups :- Reader.GroupById(ms);
    ReassembleGroups(Reader.Paginate(groups, limit), req, geo, web)
  }

  /** What the subscriber does with one notification. */
  datatype Notice =
    | Deleted(topic: string)
    | Undecodable
    | LineageSkipped
    | Shown(outcome: Outcome)

  /** `on_message`: an empty payload reports a deletion; a payload that does
      not decode is reported and dropped; a lineage topic is ignored; any
      other message is rebuilt on its own, with lineage asked for and no
      filter. `contextGiven` is the subscription's `context_given`. */
  function Notify(m: Message, contextGiven: string, geo: Json -> Result<bool>, web: Result<Json>): (r: Result<Notice>)
    ensures m.payload == "" ==> r == Ok(Deleted(m.topic))
    ensures m.payload != "" && |LevelsOf(m.topic)| < 2 ==> r == Raise(IndexError)
    ensures m.payload != "" && |LevelsOf(m.topic)| >= 2 && Loads(Swap(m.payload)).Raise? ==> r == Ok(Undecodable)
  {
    if m.payload == "" then Ok(Deleted(m.topic))
    else if |LevelsOf(m.topic)| < 2 then Raise(IndexError)
    else if Loads(Swap(m.payload)).Raise? then Ok(Undecodable)
    else if EndsWith(m.topic, "_CreatedAt") || EndsWith(m.topic, "_modifiedAt") then Ok(LineageSkipped)
    else
      var outcome :- ReassembleSingle([m], Request("", None, true, "", "", contextGiven == "+"), geo, web);
      Ok(Shown(outcome))
  }

  // ---------------------------------------------------------------------
  // Reading back what the writer published

  /** The lineage list a reader takes back from `str([now])`. */
  function Stamp(now: string): Json
  {
    JArr([JStr(now)])
  }

  /** An attribute value with both lineage fields set to `now`. */
  function WithLineage(v: Json, now: string): (r: Json)
    requires v.JObj?
    ensures r.JObj?
    ensures Lookup(r.o, "CreatedAt") == Some(Stamp(now)) && Lookup(r.o, "modifiedAt") == Some(Stamp(now))
  {
    var o1 := Put(v.o, "CreatedAt", Stamp(now));
    PutLookup(v.o, "CreatedAt", Stamp(now), "CreatedAt");
    PutLookup(o1, "modifiedAt", Stamp(now), "CreatedAt");
    PutLookup(o1, "modifiedAt", Stamp(now), "modifiedAt");
    JObj(Put(o1, "modifiedAt", Stamp(now)))
  }

  /** The attributes as a reader asking for lineage rebuilds them, in order. */
  function Rebuilt(attrs: seq<(string, Json)>, now: string): (r: seq<(string, Json)>)
    requires forall i :: 0 <= i < |attrs| ==> attrs[i].1.JObj?
    ensures |r| == |attrs|
  {
    if |attrs| == 0 then []
    else [(attrs[0].0, WithLineage(attrs[0].1, now))] + Rebuilt(attrs[1..], now)
  }

  /** Rebuilding keeps every attribute's name, in order. */
  lemma RebuiltKeys(attrs: seq<(string, Json)>, now: string)
    requires forall i :: 0 <= i < |attrs| ==> attrs[i].1.JObj?
    ensures Keys(Rebuilt(attrs, now)) == Keys(attrs)
  {
    var r := Rebuilt(attrs, now);
    forall i | 0 <= i < |attrs|
      ensures Keys(r)[i] == Keys(attrs)[i]
    {
      RebuiltAt(attrs, now, i);
    }
  }

  /** The `i`-th rebuilt attribute is the `i`-th attribute with its lineage. */
  lemma {:induction false} RebuiltAt(attrs: seq<(string, Json)>, now: string, i: nat)
    requires forall i :: 0 <= i < |attrs| ==> attrs[i].1.JObj?
    requires i < |attrs|
    ensures Rebuilt(attrs, now)[i] == (attrs[i].0, WithLineage(attrs[i].1, now))
    decreases i
  {
    if i > 0 {
      var tail := attrs[1..];
      assert tail[i - 1] == attrs[i];
      RebuiltAt(tail, now, i - 1);
    }
  }

  lemma KeysCons(x: (string, Json), o: seq<(string, Json)>)
    ensures Keys([x] + o) == [x.0] + Keys(o)
  {
  }

  /** An attribute the reader can take back: its name is one topic level
      that is neither reserved nor mistaken for a lineage topic, and its
      value is an object that `str()` prints as JSON once quotes are swapped
      (no booleans or `None` inside). */
  predicate Readable(attr: (string, Json))
  {
    && '/' !in attr.0 && !Reserved(attr.0)
    && !IsLineage(attr.0) && !Contains(attr.0, "_timerelsystem")
    && attr.1.JObj? && Printable(attr.1) && NoLiterals(attr.1)
  }

  predicate AllReadable(attrs: seq<(string, Json)>)
  {
    forall i :: 0 <= i < |attrs| ==> Readable(attrs[i])
  }

  /** The reading a `GET` asking for lineage makes, with no query, attribute
      filter, geo test or context dereferencing. */
  const LineageRequest := Request("", None, true, "", "", false)

  /** A lineage topic's last level splits into the attribute name and the
      field, as long as the name does not itself hold the separator. */
  lemma {:induction false} SplitLineageName(a: string, field: string)
    requires !Contains(a, "_timerelsystem") && |field| < |TimeSeparator|
    ensures SplitOn(a + TimeSeparator + field, TimeSeparator) == [a, field]
    decreases |a|
  {
    var s := a + TimeSeparator + field;
    var n := |TimeSeparator|;
    if |a| == 0 {
      assert s[..n] == TimeSeparator;
      assert s[n..] == field;
    } else {
      assert TimeSeparator[..14] == "_timerelsystem";
      assert TimeSeparator[1..14] == "timerelsystem";
      if |a| >= 14 {
        assert !StartsWith(a, "_timerelsystem");
        assert s[..n][..14] == a[..14] != TimeSeparator[..14];
      } else {
        assert s[..n][|a|] == '_';
        assert TimeSeparator[|a|] == TimeSeparator[1..14][|a| - 1] != '_';
      }
      assert s[1..] == a[1..] + TimeSeparator + field;
      SplitLineageName(a[1..], field);
      assert [s[0]] + a[1..] == a;
    }
  }

  /** Both lineage topics of an attribute are recognised as lineage. */
  lemma LineageNames(a: string)
    ensures IsLineage(a + CreatedAtSuffix) && IsLineage(a + ModifiedAtSuffix)
    ensures CreatedAtSuffix == TimeSeparator + "CreatedAt" && ModifiedAtSuffix == TimeSeparator + "modifiedAt"
    ensures a + CreatedAtSuffix == a + TimeSeparator + "CreatedAt"
    ensures a + ModifiedAtSuffix == a + TimeSeparator + "modifiedAt"
  {
    assert CreatedAtSuffix[14..] == "_CreatedAt";
    EndsWithAppend(a, CreatedAtSuffix, "_CreatedAt");
    assert ModifiedAtSuffix[14..] == "_modifiedAt";
    EndsWithAppend(a, ModifiedAtSuffix, "_modifiedAt");
    AppendAssoc(a, TimeSeparator, "CreatedAt");
    AppendAssoc(a, TimeSeparator, "modifiedAt");
  }

  /** What a text ends with, it still ends with after a prefix. */
  lemma EndsWithAppend(a: string, s: string, t: string)
    requires EndsWith(s, t)
    ensures EndsWith(a + s, t)
  {
    assert (a + s)[|a + s| - |t|..] == s[|s| - |t|..];
  }

  lemma AppendAssoc<T>(a: seq<T>, b: seq<T>, c: seq<T>)
    ensures a + b + c == a + (b + c)
  {
  }

  /** Adding a new key puts it last; assigning it again replaces it there. */
  lemma PutAppended(d: seq<(string, Json)>, key: string, x: Json, y: Json)
    requires key !in Keys(d)
    ensures Lookup(d + [(key, x)], key) == Some(x)
    ensures Put(d + [(key, x)], key, y) == d + [(key, y)]
  {
    var e := d + [(key, x)];
    AppendedIndex(d, key, x);
    LookupFirst(e, |d|);
    assert e[|d| := (key, y)] == d + [(key, y)];
  }

  /** A key added to a dictionary without it sits at the end. */
  lemma AppendedIndex(d: seq<(string, Json)>, key: string, x: Json)
    requires key !in Keys(d)
    ensures key in Keys(d + [(key, x)]) && KeyIndex(d + [(key, x)], key) == |d|
    ensures forall j :: 0 <= j < |d| ==> (d + [(key, x)])[j].0 != key
  {
    var e := d + [(key, x)];
    assert Keys(e)[|d|] == key;
    forall j | 0 <= j < |d|
      ensures e[j].0 != key
    {
      assert Keys(d)[j] == e[j].0;
    }
  }


  /** The loop over `xs + ys` is the loop over `xs`, then over `ys`. */
  lemma {:induction false} ReadAllConcat(st: Progress, xs: seq<Message>, ys: seq<Message>, req: Request,
                                         geo: Json -> Result<bool>, doc: Option<Json>)
    ensures ReadAll(st, xs + ys, req, geo, doc) ==
              match ReadAll(st, xs, req, geo, doc)
              case Raise(e) => Raise(e)
              case Ok(next) => ReadAll(next, ys, req, geo, doc)
    decreases |xs|
  {
    if |xs| == 0 {
      assert xs + ys == ys;
    } else {
      assert (xs + ys)[0] == xs[0];
      assert (xs + ys)[1..] == xs[1..] + ys;
      match ReadMessage(st, xs[0], req, geo, doc)
      case Raise(e) =>
      case Ok(next) => ReadAllConcat(next, xs[1..], ys, req, geo, doc);
    }
  }

  /** The last level of an attribute topic is the attribute. */
  lemma AttributeLevel(area: string, cl: string, et: string, id: string, name: string)
    requires '/' !in area && '/' !in cl && '/' !in et && '/' !in id && '/' !in name
    ensures LastLevel(AttributeTopic(area, cl, et, id, name)) == name
  {
    LevelsOfTopic([area, EntitiesLevel, cl, et, LocalOrigin, id, name]);
  }

  /** An attribute message stores the value `str()` published. */
  lemma ReadValue(d: seq<(string, Json)>, f: Flags, area: string, cl: string, et: string, id: string,
                  attr: (string, Json), geo: Json -> Result<bool>)
    requires '/' !in area && '/' !in cl && '/' !in et && '/' !in id
    requires Readable(attr) && attr.0 !in Keys(d)
    ensures ReadMessage(Going(d, f), Message(AttributeTopic(area, cl, et, id, attr.0), PyStr(attr.1), true),
                        LineageRequest, geo, None)
            == Ok(Going(d + [attr], f))
  {
    StrPayloadReadsBack(attr.1);
    AttributeLevel(area, cl, et, id, attr.0);
  }

  /** The lineage payload decodes to the one-element list. */
  lemma StampReadsBack(now: string)
    requires PlainText(now)
    ensures Loads(Swap(LineagePayload(now))) == Ok(Stamp(now))
  {
    StrPayloadReadsBack(Stamp(now));
  }

  /** A lineage name is recognised as one and splits into attribute and field. */
  lemma LineageName(a: string, field: string)
    requires !Contains(a, "_timerelsystem") && (field == "CreatedAt" || field == "modifiedAt")
    ensures IsLineage(a + TimeSeparator + field)
    ensures SplitOn(a + TimeSeparator + field, TimeSeparator) == [a, field]
  {
    SplitLineageName(a, field);
    LineageNames(a);
  }

  /** With lineage asked for, a lineage value is set inside its attribute. */
  lemma StoreStamp(d: seq<(string, Json)>, a: string, o: seq<(string, Json)>, field: string, v: Json)
    requires !Contains(a, "_timerelsystem") && (field == "CreatedAt" || field == "modifiedAt")
    requires Lookup(d, a) == Some(JObj(o))
    ensures StoreValue(d, a + TimeSeparator + field, v, LineageRequest, None) == Ok(Put(d, a, JObj(Put(o, field, v))))
  {
    LineageName(a, field);
    assert SetField(d, [a, field], v, None) == Ok(Put(d, a, JObj(Put(o, field, v))));
  }

  /** A decoded lineage value is set inside its attribute. */
  lemma AbsorbStamp(d: seq<(string, Json)>, f: Flags, a: string, o: seq<(string, Json)>, field: string,
                    v: Json, geo: Json -> Result<bool>)
    requires !Contains(a, "_timerelsystem") && (field == "CreatedAt" || field == "modifiedAt")
    requires Lookup(d, a) == Some(JObj(o))
    ensures Absorb(d, f, a + TimeSeparator + field, v, LineageRequest, geo, None)
            == Ok(Going(Put(d, a, JObj(Put(o, field, v))), f))
  {
    StoreStamp(d, a, o, field, v);
  }

  /** A lineage message sets its field inside the attribute already read. */
  lemma ReadStamp(d: seq<(string, Json)>, f: Flags, area: string, cl: string, et: string, id: string,
                  a: string, o: seq<(string, Json)>, suffix: string, field: string, now: string, geo: Json -> Result<bool>)
    requires '/' !in area && '/' !in cl && '/' !in et && '/' !in id && '/' !in a
    requires !Contains(a, "_timerelsystem") && (field == "CreatedAt" || field == "modifiedAt")
    requires suffix == TimeSeparator + field
    requires PlainText(now)
    requires Lookup(d, a) == Some(JObj(o))
    ensures ReadMessage(Going(d, f), Message(AttributeTopic(area, cl, et, id, a + suffix), LineagePayload(now), true),
                        LineageRequest, geo, None)
            == Ok(Going(Put(d, a, JObj(Put(o, field, Stamp(now)))), f))
  {
    var name := a + suffix;
    LineageSuffix(field);
    assert '/' !in name;
    AttributeLevel(area, cl, et, id, name);
    AppendAssoc(a, TimeSeparator, field);
    ReadStampOn(d, f, AttributeTopic(area, cl, et, id, name), a, o, field, now, geo);
  }

  /** A lineage suffix stays within one topic level. */
  lemma LineageSuffix(field: string)
    requires field == "CreatedAt" || field == "modifiedAt"
    ensures '/' !in TimeSeparator + field
  {
  }

  /** A lineage message on a topic whose last level names the lineage field. */
  lemma ReadStampOn(d: seq<(string, Json)>, f: Flags, topic: string, a: string, o: seq<(string, Json)>,
                    field: string, now: string, geo: Json -> Result<bool>)
    requires !Contains(a, "_timerelsystem") && (field == "CreatedAt" || field == "modifiedAt")
    requires LastLevel(topic) == a + TimeSeparator + field
    requires PlainText(now)
    requires Lookup(d, a) == Some(JObj(o))
    ensures ReadMessage(Going(d, f), Message(topic, LineagePayload(now), true), LineageRequest, geo, None)
            == Ok(Going(Put(d, a, JObj(Put(o, field, Stamp(now)))), f))
  {
    StampReadsBack(now);
    ReadDecoded(d, f, Message(topic, LineagePayload(now), true), Stamp(now), LineageRequest, geo, None);
    AbsorbStamp(d, f, a, o, field, Stamp(now), geo);
  }

  /** A message whose payload decodes is taken in by `Absorb`. */
  lemma ReadDecoded(d: seq<(string, Json)>, f: Flags, m: Message, v: Json, req: Request, geo: Json -> Result<bool>, doc: Option<Json>)
    requires Loads(Swap(m.payload)) == Ok(v)
    ensures ReadMessage(Going(d, f), m, req, geo, doc) == Absorb(d, f, LastLevel(m.topic), v, req, geo, doc)
  {
  }

  /** One step of the loop that does not raise. */
  lemma ReadAllStep(st: Progress, ms: seq<Message>, next: Progress, req: Request, geo: Json -> Result<bool>, doc: Option<Json>)
    requires |ms| > 0 && ReadMessage(st, ms[0], req, geo, doc) == Ok(next)
    ensures ReadAll(st, ms, req, geo, doc) == ReadAll(next, ms[1..], req, geo, doc)
  {
  }

  /** The three messages of one attribute rebuild it with its lineage. */
  lemma ReadAttribute(d: seq<(string, Json)>, f: Flags, area: string, cl: string, et: string, id: string,
                      attr: (string, Json), now: string, geo: Json -> Result<bool>)
    requires '/' !in area && '/' !in cl && '/' !in et && '/' !in id
    requires Readable(attr) && attr.0 !in Keys(d) && PlainText(now)
    ensures ReadAll(Going(d, f), AttributeMessages(area, cl, et, id, attr, now), LineageRequest, geo, None)
            == Ok(Going(d + [(attr.0, WithLineage(attr.1, now))], f))
  {
    var a := attr.0;
    var o := attr.1.o;
    var ms := AttributeMessages(area, cl, et, id, attr, now);
    LineageNames(a);
    ReadValue(d, f, area, cl, et, id, attr, geo);
    var d1 := d + [attr];
    assert d1 == d + [(a, JObj(o))];
    ReadAllStep(Going(d, f), ms, Going(d1, f), LineageRequest, geo, None);
    PutAppended(d, a, JObj(o), JObj(o));
    ReadStamp(d1, f, area, cl, et, id, a, o, CreatedAtSuffix, "CreatedAt", now, geo);
    var o1 := Put(o, "CreatedAt", Stamp(now));
    PutAppended(d, a, JObj(o), JObj(o1));
    var d2 := d + [(a, JObj(o1))];
    assert ms[1..][0] == ms[1];
    ReadAllStep(Going(d1, f), ms[1..], Going(d2, f), LineageRequest, geo, None);
    PutAppended(d, a, JObj(o1), JObj(o1));
    ReadStamp(d2, f, area, cl, et, id, a, o1, ModifiedAtSuffix, "modifiedAt", now, geo);
    var o2 := Put(o1, "modifiedAt", Stamp(now));
    PutAppended(d, a, JObj(o1), JObj(o2));
    assert WithLineage(attr.1, now) == JObj(o2);
    assert ms[1..][1..] == ms[2..] && ms[2..][0] == ms[2];
    ReadAllStep(Going(d2, f), ms[2..], Going(d + [(a, JObj(o2))], f), LineageRequest, geo, None);
    assert ms[2..][1..] == [];
  }

  /** The first attribute's messages come first in the publish order. */
  lemma ReadHead(d: seq<(string, Json)>, f: Flags, area: string, cl: string, et: string, id: string,
                 attrs: seq<(string, Json)>, now: string, geo: Json -> Result<bool>)
    requires '/' !in area && '/' !in cl && '/' !in et && '/' !in id && PlainText(now)
    requires |attrs| > 0 && Readable(attrs[0]) && attrs[0].0 !in Keys(d)
    ensures ReadAll(Going(d, f), AttributePublishes(area, cl, et, id, attrs, now), LineageRequest, geo, None)
            == ReadAll(Going(d + [(attrs[0].0, WithLineage(attrs[0].1, now))], f),
                       AttributePublishes(area, cl, et, id, attrs[1..], now), LineageRequest, geo, None)
  {
    var head := AttributeMessages(area, cl, et, id, attrs[0], now);
    var rest := AttributePublishes(area, cl, et, id, attrs[1..], now);
    assert AttributePublishes(area, cl, et, id, attrs, now) == head + rest;
    ReadAllConcat(Going(d, f), head, rest, LineageRequest, geo, None);
    ReadAttribute(d, f, area, cl, et, id, attrs[0], now, geo);
  }

  /** What remains to be read still meets the round trip's conditions. */
  lemma ReadTail(d: seq<(string, Json)>, attrs: seq<(string, Json)>, now: string)
    requires |attrs| > 0 && UniqueKeys(attrs) && AllReadable(attrs)
    requires forall i :: 0 <= i < |attrs| ==> attrs[i].0 !in Keys(d)
    ensures var d1 := d + [(attrs[0].0, WithLineage(attrs[0].1, now))];
            && UniqueKeys(attrs[1..]) && AllReadable(attrs[1..])
            && (forall i :: 0 <= i < |attrs[1..]| ==> attrs[1..][i].0 !in Keys(d1))
            && d1 + Rebuilt(attrs[1..], now) == d + Rebuilt(attrs, now)
  {
    var x := (attrs[0].0, WithLineage(attrs[0].1, now));
    TailFresh(d, attrs, x.1);
    TailReadable(attrs);
    var r1 := Rebuilt(attrs[1..], now);
    assert Rebuilt(attrs, now) == [x] + r1;
    AppendAssoc(d, [x], r1);
  }

  /** The later attributes are all readable and keyed uniquely. */
  lemma TailReadable(attrs: seq<(string, Json)>)
    requires |attrs| > 0 && UniqueKeys(attrs) && AllReadable(attrs)
    ensures UniqueKeys(attrs[1..]) && AllReadable(attrs[1..])
  {
    assert forall j :: 0 <= j < |attrs| - 1 ==> attrs[1..][j] == attrs[j + 1];
  }

  /** No later attribute is keyed like the first, nor like anything read before. */
  lemma TailFresh(d: seq<(string, Json)>, attrs: seq<(string, Json)>, v: Json)
    requires |attrs| > 0 && UniqueKeys(attrs)
    requires forall i :: 0 <= i < |attrs| ==> attrs[i].0 !in Keys(d)
    ensures forall i :: 0 <= i < |attrs[1..]| ==> attrs[1..][i].0 !in Keys(d + [(attrs[0].0, v)])
  {
    var k1 := Keys(d + [(attrs[0].0, v)]);
    assert k1 == Keys(d) + [attrs[0].0];
    forall i | 0 <= i < |attrs| - 1
      ensures attrs[1..][i].0 !in k1
    {
      assert attrs[1..][i] == attrs[i + 1];
      assert attrs[i + 1].0 != attrs[0].0;
    }
  }

  /** Reading an entity's attribute messages in publish order rebuilds
      every attribute after what was already read. */
  lemma {:induction false} ReadPublishes(d: seq<(string, Json)>, f: Flags, area: string, cl: string, et: string, id: string,
                                         attrs: seq<(string, Json)>, now: string, geo: Json -> Result<bool>)
    requires '/' !in area && '/' !in cl && '/' !in et && '/' !in id && PlainText(now)
    requires UniqueKeys(attrs) && AllReadable(attrs)
    requires forall i :: 0 <= i < |attrs| ==> attrs[i].0 !in Keys(d)
    ensures ReadAll(Going(d, f), AttributePublishes(area, cl, et, id, attrs, now), LineageRequest, geo, None)
            == Ok(Going(d + Rebuilt(attrs, now), f))
    decreases |attrs|
  {
    if |attrs| == 0 {
      assert d + Rebuilt(attrs, now) == d;
    } else {
      ReadHead(d, f, area, cl, et, id, attrs, now, geo);
      ReadTail(d, attrs, now);
      ReadPublishes(d + [(attrs[0].0, WithLineage(attrs[0].1, now))], f, area, cl, et, id, attrs[1..], now, geo);
    }
  }

  /** Round trip: the attribute messages of an entity, read back in the
      order they were published by a reader asking for lineage, rebuild the
      entity: its id and type, every attribute with `CreatedAt` and
      `modifiedAt` set to the publishing time, and the context list. */
  lemma PostThenRead(area: string, context: string, etype: string, id: string,
                     attrs: seq<(string, Json)>, now: string, geo: Json -> Result<bool>, web: Result<Json>)
    requires '/' !in area && '/' !in etype && '/' !in id && '§' !in context
    requires |attrs| >= 1 && UniqueKeys(attrs) && AllReadable(attrs)
    requires PlainText(now)
    ensures ReassembleSingle(AttributePublishes(area, EscapeContext(context), etype, id, attrs, now), LineageRequest, geo, web)
            == Ok(Printed([("id", JStr(id)), ("type", JStr(etype))] + Rebuilt(attrs, now)
                          + [("@context", JArr(ContextList(context)))]))
  {
    var cl := EscapeContext(context);
    var ms := AttributePublishes(area, cl, etype, id, attrs, now);
    var ref := EntityRef(context, etype, id, attrs[0].0);
    FirstTopic(area, context, etype, id, attrs, now);
    var d := Header(ref, None);
    ReadPublishes(d, [], area, cl, etype, id, attrs, now, geo);
    ContextAppended(d, attrs, now, context);
  }

  /** A reader takes the entity's context, type and id from the first
      attribute topic. */
  lemma FirstTopic(area: string, context: string, etype: string, id: string, attrs: seq<(string, Json)>, now: string)
    requires '/' !in area && '/' !in etype && '/' !in id && '§' !in context
    requires |attrs| >= 1 && '/' !in attrs[0].0
    ensures var ms := AttributePublishes(area, EscapeContext(context), etype, id, attrs, now);
            |ms| > 0 && DecodeEntityTopic(ms[0].topic) == Ok(EntityRef(context, etype, id, attrs[0].0))
  {
    var ms := AttributePublishes(area, EscapeContext(context), etype, id, attrs, now);
    assert ms[0..3] == AttributeMessages(area, EscapeContext(context), etype, id, attrs[0], now);
    assert ms[0] == ms[0..3][0];
    DecodeAttributeTopic(area, context, etype, id, attrs[0].0);
  }

  /** The context list goes last, after the id, type and attributes. */
  lemma ContextAppended(d: seq<(string, Json)>, attrs: seq<(string, Json)>, now: string, context: string)
    requires Keys(d) == ["id", "type"] && AllReadable(attrs)
    ensures Put(d + Rebuilt(attrs, now), "@context", JArr(ContextList(context)))
            == d + Rebuilt(attrs, now) + [("@context", JArr(ContextList(context)))]
  {
    RebuiltKeys(attrs, now);
    KeysAppend(d, Rebuilt(attrs, now));
    NoContextKey(attrs);
  }

  lemma KeysAppend(a: seq<(string, Json)>, b: seq<(string, Json)>)
    ensures Keys(a + b) == Keys(a) + Keys(b)
  {
  }

  /** No readable attribute is named `@context`. */
  lemma NoContextKey(attrs: seq<(string, Json)>)
    requires AllReadable(attrs)
    ensures "@context" !in Keys(attrs)
  {
    forall i | 0 <= i < |attrs|
      ensures Keys(attrs)[i] != "@context"
    {
      assert Readable(attrs[i]);
    }
  }

  // ---------------------------------------------------------------------
  // Reading back without lineage

  /** The reading a `GET` without lineage makes, with attribute filter
      `topics` and no query, geo test or context dereferencing. */
  function PlainRequest(topics: AttrFilter): (r: Request)
    ensures !r.lineage && r.query == "" && r.georel == "" && !r.dereference
  {
    Request("", topics, false, "", "", false)
  }

  /** Whether a reading without lineage keeps an attribute: always without
      a filter, otherwise when its name is an element of the filter list. */
  predicate Keeps(topics: AttrFilter, name: string)
  {
    topics.None? || name in topics.value
  }

  /** The filter lists no lineage topic: every name it holds is one an
      attribute could have. */
  predicate AsksNoLineage(topics: AttrFilter)
  {
    topics.Some? ==> forall n :: n in topics.value ==> !IsLineage(n)
  }

  /** The attributes such a reading keeps, in order, values untouched. */
  function Kept(attrs: seq<(string, Json)>, topics: AttrFilter): (r: seq<(string, Json)>)
    ensures forall x :: x in r <==> x in attrs && Keeps(topics, x.0)
    ensures !Filtered(PlainRequest(topics)) ==> r == attrs
  {
    if |attrs| == 0 then []
    else (if Keeps(topics, attrs[0].0) then [attrs[0]] else []) + Kept(attrs[1..], topics)
  }

  /** The filter is list membership: `attrs=temp` keeps `temp` but not
      `te`, though `te` is a substring of `temp`. */
  lemma FilterByMembership(v: Json, w: Json)
    ensures Kept([("te", v), ("temp", w)], Some(["temp"])) == [("temp", w)]
  {
    var two := [("te", v), ("temp", w)];
    var f := Some(["temp"]);
    assert "te" != "temp";
    assert two[1..] == [("temp", w)] && two[1..][1..] == [];
    assert Kept(two[1..], f) == [("temp", w)] + Kept([], f);
    assert Kept(two, f) == [] + Kept(two[1..], f);
  }

  /** `attrs=#` splits into the list `['#']`, which keeps no attribute. */
  lemma {:induction false} HashListKeepsNothing(attrs: seq<(string, Json)>)
    requires forall i :: 0 <= i < |attrs| ==> attrs[i].0 != "#"
    ensures Kept(attrs, Some(["#"])) == []
    decreases |attrs|
  {
    if |attrs| > 0 {
      assert forall i :: 0 <= i < |attrs[1..]| ==> attrs[1..][i] == attrs[i + 1];
      HashListKeepsNothing(attrs[1..]);
      assert !Keeps(Some(["#"]), attrs[0].0);
    }
  }

  /** A value message stores the attribute when the reading keeps it. */
  lemma ReadPlainValue(d: seq<(string, Json)>, f: Flags, area: string, cl: string, et: string, id: string,
                       attr: (string, Json), topics: AttrFilter, geo: Json -> Result<bool>)
    requires '/' !in area && '/' !in cl && '/' !in et && '/' !in id
    requires Readable(attr) && attr.0 !in Keys(d)
    ensures ReadMessage(Going(d, f), Message(AttributeTopic(area, cl, et, id, attr.0), PyStr(attr.1), true),
                        PlainRequest(topics), geo, None)
            == Ok(Going(d + (if Keeps(topics, attr.0) then [attr] else []), f))
  {
    var req := PlainRequest(topics);
    var m := Message(AttributeTopic(area, cl, et, id, attr.0), PyStr(attr.1), true);
    StrPayloadReadsBack(attr.1);
    AttributeLevel(area, cl, et, id, attr.0);
    ReadDecoded(d, f, m, attr.1, req, geo, None);
    assert !IsLineage(attr.0);
    assert Put(d, attr.0, attr.1) == d + [attr];
    var kept := d + (if Keeps(topics, attr.0) then [attr] else []);
    assert d + [] == d;
    if Filtered(req) {
      assert StoreValue(d, attr.0, attr.1, req, None) == Ok(if attr.0 in topics.value then d + [attr] else d);
    }
    assert StoreValue(d, attr.0, attr.1, req, None) == Ok(kept);
    assert LastLevel(m.topic) == attr.0;
    assert Absorb(d, f, attr.0, attr.1, req, geo, None) == Ok(Going(kept, f));
  }

  /** A lineage message is passed over by a reading without lineage. */
  lemma ReadPlainStamp(d: seq<(string, Json)>, f: Flags, area: string, cl: string, et: string, id: string,
                       a: string, field: string, now: string, topics: AttrFilter, geo: Json -> Result<bool>)
    requires '/' !in area && '/' !in cl && '/' !in et && '/' !in id && '/' !in a
    requires field == "CreatedAt" || field == "modifiedAt"
    requires PlainText(now) && AsksNoLineage(topics)
    ensures ReadMessage(Going(d, f), Message(AttributeTopic(area, cl, et, id, a + TimeSeparator + field), LineagePayload(now), true),
                        PlainRequest(topics), geo, None)
            == Ok(Going(d, f))
  {
    var name := a + TimeSeparator + field;
    LineageSuffix(field);
    assert '/' !in name;
    AttributeLevel(area, cl, et, id, name);
    LineageNames(a);
    StampReadsBack(now);
  }

  /** The three messages of one attribute leave just the attribute, when
      kept, and no lineage. */
  lemma ReadPlainAttribute(d: seq<(string, Json)>, f: Flags, area: string, cl: string, et: string, id: string,
                           attr: (string, Json), now: string, topics: AttrFilter, geo: Json -> Result<bool>)
    requires '/' !in area && '/' !in cl && '/' !in et && '/' !in id
    requires Readable(attr) && attr.0 !in Keys(d) && PlainText(now) && AsksNoLineage(topics)
    ensures ReadAll(Going(d, f), AttributeMessages(area, cl, et, id, attr, now), PlainRequest(topics), geo, None)
            == Ok(Going(d + (if Keeps(topics, attr.0) then [attr] else []), f))
  {
    var a := attr.0;
    var req := PlainRequest(topics);
    var ms := AttributeMessages(area, cl, et, id, attr, now);
    var d1 := d + (if Keeps(topics, a) then [attr] else []);
    LineageNames(a);
    ReadPlainValue(d, f, area, cl, et, id, attr, topics, geo);
    ReadAllStep(Going(d, f), ms, Going(d1, f), req, geo, None);
    assert ms[1] == Message(AttributeTopic(area, cl, et, id, a + TimeSeparator + "CreatedAt"), LineagePayload(now), true);
    ReadPlainStamp(d1, f, area, cl, et, id, a, "CreatedAt", now, topics, geo);
    assert ms[1..][0] == ms[1];
    ReadAllStep(Going(d1, f), ms[1..], Going(d1, f), req, geo, None);
    assert ms[2] == Message(AttributeTopic(area, cl, et, id, a + TimeSeparator + "modifiedAt"), LineagePayload(now), true);
    ReadPlainStamp(d1, f, area, cl, et, id, a, "modifiedAt", now, topics, geo);
    assert ms[1..][1..] == ms[2..] && ms[2..][0] == ms[2];
    ReadAllStep(Going(d1, f), ms[2..], Going(d1, f), req, geo, None);
    assert ms[2..][1..] == [];
  }

  /** What remains to be read still meets the conditions, and what is
      kept of it completes what is kept of the whole. */
  lemma PlainTail(d: seq<(string, Json)>, attrs: seq<(string, Json)>, topics: AttrFilter)
    requires |attrs| > 0 && UniqueKeys(attrs) && AllReadable(attrs)
    requires forall i :: 0 <= i < |attrs| ==> attrs[i].0 !in Keys(d)
    ensures var d1 := d + (if Keeps(topics, attrs[0].0) then [attrs[0]] else []);
            && UniqueKeys(attrs[1..]) && AllReadable(attrs[1..])
            && (forall i :: 0 <= i < |attrs[1..]| ==> attrs[1..][i].0 !in Keys(d1))
            && d1 + Kept(attrs[1..], topics) == d + Kept(attrs, topics)
  {
    TailReadable(attrs);
    var rest := Kept(attrs[1..], topics);
    if Keeps(topics, attrs[0].0) {
      assert Kept(attrs, topics) == [attrs[0]] + rest;
      TailFresh(d, attrs, attrs[0].1);
      AppendAssoc(d, [attrs[0]], rest);
    } else {
      assert Kept(attrs, topics) == rest;
      TailStillFresh(d, attrs);
      assert d + [] == d;
    }
  }

  /** No later attribute is keyed like anything read before. */
  lemma TailStillFresh(d: seq<(string, Json)>, attrs: seq<(string, Json)>)
    requires |attrs| > 0
    requires forall i :: 0 <= i < |attrs| ==> attrs[i].0 !in Keys(d)
    ensures forall i :: 0 <= i < |attrs[1..]| ==> attrs[1..][i].0 !in Keys(d)
  {
    forall i | 0 <= i < |attrs| - 1
      ensures attrs[1..][i].0 !in Keys(d)
    {
      assert attrs[1..][i] == attrs[i + 1];
    }
  }

  /** Reading an entity's attribute messages in publish order without
      lineage adds the kept attributes after what was already read. */
  lemma {:induction false} ReadPlainPublishes(d: seq<(string, Json)>, f: Flags, area: string, cl: string, et: string, id: string,
                                              attrs: seq<(string, Json)>, now: string, topics: AttrFilter, geo: Json -> Result<bool>)
    requires '/' !in area && '/' !in cl && '/' !in et && '/' !in id && PlainText(now)
    requires UniqueKeys(attrs) && AllReadable(attrs) && AsksNoLineage(topics)
    requires forall i :: 0 <= i < |attrs| ==> attrs[i].0 !in Keys(d)
    ensures ReadAll(Going(d, f), AttributePublishes(area, cl, et, id, attrs, now), PlainRequest(topics), geo, None)
            == Ok(Going(d + Kept(attrs, topics), f))
    decreases |attrs|
  {
    if |attrs| == 0 {
      assert d + Kept(attrs, topics) == d;
    } else {
      var head := AttributeMessages(area, cl, et, id, attrs[0], now);
      var rest := AttributePublishes(area, cl, et, id, attrs[1..], now);
      assert AttributePublishes(area, cl, et, id, attrs, now) == head + rest;
      ReadAllConcat(Going(d, f), head, rest, PlainRequest(topics), geo, None);
      ReadPlainAttribute(d, f, area, cl, et, id, attrs[0], now, topics, geo);
      PlainTail(d, attrs, topics);
      ReadPlainPublishes(d + (if Keeps(topics, attrs[0].0) then [attrs[0]] else []), f, area, cl, et, id,
                         attrs[1..], now, topics, geo);
    }
  }

  /** Round trip without lineage: the attribute messages of an entity, read
      back in publish order by a `GET` without lineage, rebuild the entity
      with its id and type, every attribute the filter keeps with exactly
      the value posted and no lineage fields or lineage keys, and the
      context list. */
  lemma PostThenReadPlain(area: string, context: string, etype: string, id: string,
                          attrs: seq<(string, Json)>, now: string, topics: AttrFilter, geo: Json -> Result<bool>, web: Result<Json>)
    requires '/' !in area && '/' !in etype && '/' !in id && '§' !in context
    requires |attrs| >= 1 && UniqueKeys(attrs) && AllReadable(attrs)
    requires PlainText(now) && AsksNoLineage(topics)
    ensures ReassembleSingle(AttributePublishes(area, EscapeContext(context), etype, id, attrs, now), PlainRequest(topics), geo, web)
            == Ok(Printed([("id", JStr(id)), ("type", JStr(etype))] + Kept(attrs, topics)
                          + [("@context", JArr(ContextList(context)))]))
  {
    var cl := EscapeContext(context);
    var ref := EntityRef(context, etype, id, attrs[0].0);
    FirstTopic(area, context, etype, id, attrs, now);
    var d := Header(ref, None);
    ReadPlainPublishes(d, [], area, cl, etype, id, attrs, now, topics, geo);
    KeptContextAppended(d, attrs, topics, context);
    ReassembleRead(AttributePublishes(area, cl, etype, id, attrs, now), PlainRequest(topics), geo, web, ref,
                   d + Kept(attrs, topics), []);
  }

  /** A reading with no query and no dereferencing that goes through
      prints what it read, with the context list set. */
  lemma ReassembleRead(ms: seq<Message>, req: Request, geo: Json -> Result<bool>, web: Result<Json>,
                       ref: EntityRef, data: seq<(string, Json)>, f: Flags)
    requires |ms| > 0 && DecodeEntityTopic(ms[0].topic) == Ok(ref)
    requires req.query == "" && !req.dereference
    requires ReadAll(Going(Header(ref, None), []), ms, req, geo, None) == Ok(Going(data, f))
    ensures ReassembleSingle(ms, req, geo, web) == Ok(Printed(Put(data, "@context", JArr(ContextList(ref.context)))))
  {
  }

  /** Without a filter, a `GET` without lineage prints every attribute
      posted, in order, with its value and nothing else. */
  lemma PostThenReadUnfiltered(area: string, context: string, etype: string, id: string,
                               attrs: seq<(string, Json)>, now: string, geo: Json -> Result<bool>, web: Result<Json>)
    requires '/' !in area && '/' !in etype && '/' !in id && '§' !in context
    requires |attrs| >= 1 && UniqueKeys(attrs) && AllReadable(attrs)
    requires PlainText(now)
    ensures ReassembleSingle(AttributePublishes(area, EscapeContext(context), etype, id, attrs, now), PlainRequest(None), geo, web)
            == Ok(Printed([("id", JStr(id)), ("type", JStr(etype))] + attrs + [("@context", JArr(ContextList(context)))]))
  {
    PostThenReadPlain(area, context, etype, id, attrs, now, None, geo, web);
  }

  /** The context list goes last, after the id, type and kept attributes. */
  lemma KeptContextAppended(d: seq<(string, Json)>, attrs: seq<(string, Json)>, topics: AttrFilter, context: string)
    requires Keys(d) == ["id", "type"] && AllReadable(attrs)
    ensures Put(d + Kept(attrs, topics), "@context", JArr(ContextList(context)))
            == d + Kept(attrs, topics) + [("@context", JArr(ContextList(context)))]
  {
    var kept := Kept(attrs, topics);
    var data := d + kept;
    forall i | 0 <= i < |data|
      ensures data[i].0 != "@context"
    {
      if i >= 2 {
        assert data[i] == kept[i - 2] && kept[i - 2] in attrs;
      }
    }
    assert "@context" !in Keys(data);
  }

  // ---------------------------------------------------------------------
  // Order, filters, queries, pagination and notifications

  /** A lineage message read before the attribute it belongs to raises
      `KeyError`: the reader depends on receiving each attribute before its
      lineage. */
  lemma LineageFirstFails(area: string, context: string, etype: string, id: string, attr: (string, Json),
                          now: string, geo: Json -> Result<bool>, web: Result<Json>)
    requires '/' !in area && '/' !in etype && '/' !in id && '§' !in context
    requires Readable(attr) && PlainText(now)
    ensures var ms := AttributeMessages(area, EscapeContext(context), etype, id, attr, now);
            ReassembleSingle([ms[1], ms[0], ms[2]], LineageRequest, geo, web) == Raise(KeyError)
  {
    var cl := EscapeContext(context);
    var ms := AttributeMessages(area, cl, etype, id, attr, now);
    var name := attr.0 + CreatedAtSuffix;
    assert '/' !in CreatedAtSuffix;
    DecodeAttributeTopic(area, context, etype, id, name);
    var d := Header(EntityRef(context, etype, id, name), None);
    StampBeforeAttribute(d, area, cl, etype, id, attr, now, geo);
    var ordered := [ms[1], ms[0], ms[2]];
    assert ordered[0] == ms[1];
    assert ReadAll(Going(d, []), ordered, LineageRequest, geo, None) == Raise(KeyError);
  }

  /** A creation-time message whose attribute has not been read raises
      `KeyError`. */
  lemma StampBeforeAttribute(d: seq<(string, Json)>, area: string, cl: string, etype: string, id: string,
                             attr: (string, Json), now: string, geo: Json -> Result<bool>)
    requires '/' !in area && '/' !in cl && '/' !in etype && '/' !in id
    requires Readable(attr) && PlainText(now) && Keys(d) == ["id", "type"]
    ensures ReadMessage(Going(d, []), AttributeMessages(area, cl, etype, id, attr, now)[1], LineageRequest, geo, None)
            == Raise(KeyError)
  {
    var a := attr.0;
    LineageNames(a);
    var name := a + CreatedAtSuffix;
    assert '/' !in CreatedAtSuffix;
    StampReadsBack(now);
    AttributeLevel(area, cl, etype, id, name);
    LineageName(a, "CreatedAt");
    assert name == a + TimeSeparator + "CreatedAt";
    assert a !in Keys(d);
    assert SetField(d, [a, "CreatedAt"], Stamp(now), None) == Raise(KeyError);
  }

  /** The keys a reading adds come from the messages' attribute names, and
      under a filter only from names the filter mentions. */
  predicate KeysFrom(keys: seq<string>, before: seq<string>, ms: seq<Message>, req: Request)
  {
    forall k :: k in keys ==>
      k in before || exists i :: 0 <= i < |ms| && LastLevel(ms[i].topic) == k && (!Filtered(req) || k in req.topics.value)
  }

  /** A message read without stopping went through the store step. */
  lemma ReadStores(d: seq<(string, Json)>, f: Flags, m: Message, req: Request, geo: Json -> Result<bool>, doc: Option<Json>)
    requires ReadMessage(Going(d, f), m, req, geo, doc).Ok? && ReadMessage(Going(d, f), m, req, geo, doc).value.Going?
    ensures Loads(Swap(m.payload)).Ok?
    ensures StoreValue(d, LastLevel(m.topic), Loads(Swap(m.payload)).value, req, doc)
            == Ok(ReadMessage(Going(d, f), m, req, geo, doc).value.data)
  {
  }

  lemma {:induction false} ReadAllKeys(d: seq<(string, Json)>, f: Flags, ms: seq<Message>, req: Request,
                                       geo: Json -> Result<bool>, doc: Option<Json>)
    requires ReadAll(Going(d, f), ms, req, geo, doc).Ok? && ReadAll(Going(d, f), ms, req, geo, doc).value.Going?
    ensures KeysFrom(Keys(ReadAll(Going(d, f), ms, req, geo, doc).value.data), Keys(d), ms, req)
    decreases |ms|
  {
    if |ms| > 0 {
      var next := ReadMessage(Going(d, f), ms[0], req, geo, doc).value;
      assert next.Going?;
      ReadStores(d, f, ms[0], req, geo, doc);
      ReadAllKeys(next.data, next.flags, ms[1..], req, geo, doc);
      assert forall i :: 0 <= i < |ms| - 1 ==> ms[1..][i] == ms[i + 1];
    }
  }

  /** Every key of a printed entity is `id`, `type`, `@context` or the
      attribute name of one of the messages; under an attribute filter, only
      names the filter mentions. */
  lemma PrintedKeys(ms: seq<Message>, req: Request, geo: Json -> Result<bool>, web: Result<Json>)
    requires ReassembleSingle(ms, req, geo, web).Ok? && ReassembleSingle(ms, req, geo, web).value.Printed?
    ensures KeysFrom(Keys(ReassembleSingle(ms, req, geo, web).value.entity), ["id", "type", "@context"], ms, req)
  {
    PrintedIsRead(ms, req, geo, web);
    var ref := DecodeEntityTopic(ms[0].topic).value;
    var doc := Fetch(req, web).value;
    var st := ReadAll(Going(Header(ref, doc), []), ms, req, geo, doc).value;
    ReadAllKeys(Header(ref, doc), [], ms, req, geo, doc);
    PutContextKeys(st.data, JArr(ContextList(ref.context)));
  }

  /** A printed entity is what the loop read, with the context list set. */
  lemma PrintedIsRead(ms: seq<Message>, req: Request, geo: Json -> Result<bool>, web: Result<Json>)
    requires ReassembleSingle(ms, req, geo, web).Ok? && ReassembleSingle(ms, req, geo, web).value.Printed?
    ensures |ms| > 0 && DecodeEntityTopic(ms[0].topic).Ok? && Fetch(req, web).Ok?
    ensures var ref := DecodeEntityTopic(ms[0].topic).value;
            var doc := Fetch(req, web).value;
            var st := ReadAll(Going(Header(ref, doc), []), ms, req, geo, doc);
            && st.Ok? && st.value.Going?
            && ReassembleSingle(ms, req, geo, web).value.entity == Put(st.value.data, "@context", JArr(ContextList(ref.context)))
  {
  }

  /** Setting `@context` adds no key but `@context`. */
  lemma PutContextKeys(data: seq<(string, Json)>, v: Json)
    ensures forall k :: k in Keys(Put(data, "@context", v)) ==> k in Keys(data) || k == "@context"
  {
    assert Keys(data + [("@context", v)]) == Keys(data) + ["@context"];
  }

  /** The request without its query. */
  function Unqueried(req: Request): Request
  {
    req.(query := "")
  }

  /** One message takes the data the same way with or without a query. */
  lemma AbsorbIgnoresQuery(d: seq<(string, Json)>, f: Flags, g: Flags, name: string, v: Json, req: Request,
                           geo: Json -> Result<bool>, doc: Option<Json>)
    requires Absorb(d, f, name, v, req, geo, doc).Ok? && Absorb(d, f, name, v, req, geo, doc).value.Going?
    ensures Absorb(d, g, name, v, Unqueried(req), geo, doc) == Ok(Going(Absorb(d, f, name, v, req, geo, doc).value.data, g))
  {
  }

  lemma {:induction false} ReadAllIgnoresQuery(d: seq<(string, Json)>, f: Flags, g: Flags, ms: seq<Message>, req: Request,
                                               geo: Json -> Result<bool>, doc: Option<Json>)
    requires ReadAll(Going(d, f), ms, req, geo, doc).Ok? && ReadAll(Going(d, f), ms, req, geo, doc).value.Going?
    ensures ReadAll(Going(d, g), ms, Unqueried(req), geo, doc) == Ok(Going(ReadAll(Going(d, f), ms, req, geo, doc).value.data, g))
    decreases |ms|
  {
    if |ms| > 0 {
      var value := Loads(Swap(ms[0].payload)).value;
      var next := ReadMessage(Going(d, f), ms[0], req, geo, doc).value;
      assert next.Going?;
      AbsorbIgnoresQuery(d, f, g, LastLevel(ms[0].topic), value, req, geo, doc);
      ReadAllIgnoresQuery(next.data, next.flags, g, ms[1..], req, geo, doc);
    }
  }

  /** A query only decides whether an entity is printed, never what is
      printed: an entity a query lets through is the one the same reading
      without the query prints. */
  lemma QueryOnlyFilters(ms: seq<Message>, req: Request, geo: Json -> Result<bool>, web: Result<Json>)
    requires ReassembleSingle(ms, req, geo, web).Ok? && ReassembleSingle(ms, req, geo, web).value.Printed?
    ensures ReassembleSingle(ms, Unqueried(req), geo, web) == ReassembleSingle(ms, req, geo, web)
  {
    var ref := DecodeEntityTopic(ms[0].topic).value;
    var doc := Fetch(req, web).value;
    assert Fetch(Unqueried(req), web) == Fetch(req, web);
    ReadAllIgnoresQuery(Header(ref, doc), [], [], ms, req, geo, doc);
  }

  /** `recreate_multiple_entities` rebuilds the entities in order of first
      arrival, each from exactly its own messages, and stops after `limit`
      of them when `limit` is positive. */
  lemma ManyByEntity(ms: seq<Message>, req: Request, limit: int, geo: Json -> Result<bool>, web: Result<Json>)
    requires Reader.AllHaveIds(ms)
    ensures var ids := Reader.DistinctIds(ms);
            var n := if 1 <= limit < |ids| then limit else |ids|;
            var r := ReassembleMany(ms, req, limit, geo, web);
            && (r.Ok? ==> |r.value| == n && forall i :: 0 <= i < n ==>
                  ReassembleSingle(Reader.OfEntity(ms, ids[i]), req, geo, web) == Ok(r.value[i]))
            && (r.Raise? ==> exists i :: 0 <= i < n && ReassembleSingle(Reader.OfEntity(ms, ids[i]), req, geo, web).Raise?)
  {
    PageOfGroups(ms, limit);
    var ids := Reader.DistinctIds(ms);
    var page := Reader.Paginate(Reader.GroupById(ms).value, limit);
    var r := ReassembleGroups(page, req, geo, web);
    assert ReassembleMany(ms, req, limit, geo, web) == r;
    if r.Raise? {
      var i :| 0 <= i < |page| && ReassembleSingle(page[i].1, req, geo, web).Raise?;
      assert page[i].1 == Reader.OfEntity(ms, ids[i]);
    }
  }

  /** The page of groups holds, for the first `limit` ids in order of first
      arrival, exactly each entity's messages. */
  lemma PageOfGroups(ms: seq<Message>, limit: int)
    requires Reader.AllHaveIds(ms)
    ensures Reader.GroupById(ms).Ok?
    ensures var ids := Reader.DistinctIds(ms);
            var n := if 1 <= limit < |ids| then limit else |ids|;
            var page := Reader.Paginate(Reader.GroupById(ms).value, limit);
            |page| == n && forall i :: 0 <= i < n ==> page[i].1 == Reader.OfEntity(ms, ids[i])
  {
    var ids := Reader.DistinctIds(ms);
    Reader.GroupsPartition(ms);
    var groups := Reader.GroupById(ms).value;
    Reader.PaginateTakes(groups, limit);
  }

  /** Whether an attribute topic ends with a suffix free of `/` depends on
      its attribute level alone. */
  lemma TopicEnding(area: string, cl: string, et: string, id: string, name: string, suffix: string)
    requires '/' !in suffix
    ensures EndsWith(AttributeTopic(area, cl, et, id, name), suffix) <==> EndsWith(name, suffix)
  {
    var levels := [area, EntitiesLevel, cl, et, LocalOrigin, id, name];
    JoinLast(levels, '/');
    EndsWithAfter(TopicOf(levels[..6]), '/', name, suffix);
  }

  /** One attribute message read on its own, as a notification reads it. */
  lemma SingleAttributeRead(area: string, context: string, etype: string, id: string, attr: (string, Json),
                            geo: Json -> Result<bool>, web: Result<Json>)
    requires '/' !in area && '/' !in etype && '/' !in id && '§' !in context && Readable(attr)
    ensures ReassembleSingle([Message(AttributeTopic(area, EscapeContext(context), etype, id, attr.0), PyStr(attr.1), true)],
                             LineageRequest, geo, web)
            == Ok(Printed([("id", JStr(id)), ("type", JStr(etype)), attr, ("@context", JArr(ContextList(context)))]))
  {
    var cl := EscapeContext(context);
    var m := Message(AttributeTopic(area, cl, etype, id, attr.0), PyStr(attr.1), true);
    DecodeAttributeTopic(area, context, etype, id, attr.0);
    var d := Header(EntityRef(context, etype, id, attr.0), None);
    ReadValue(d, [], area, cl, etype, id, attr, geo);
    ReadAllStep(Going(d, []), [m], Going(d + [attr], []), LineageRequest, geo, None);
    ReassembleRead([m], LineageRequest, geo, web, EntityRef(context, etype, id, attr.0), d + [attr], []);
    assert Keys(d + [attr]) == ["id", "type", attr.0];
    var c := ("@context", JArr(ContextList(context)));
    assert Put(d + [attr], "@context", c.1) == d + [attr] + [c];
    assert d + [attr] + [c] == [("id", JStr(id)), ("type", JStr(etype)), attr, c];
  }

  /** A notification on an attribute topic shows the entity with that one
      attribute. */
  lemma NotifyShowsAttribute(area: string, context: string, etype: string, id: string, attr: (string, Json),
                             contextGiven: string, geo: Json -> Result<bool>, web: Result<Json>)
    requires '/' !in area && '/' !in etype && '/' !in id && '§' !in context
    requires Readable(attr) && contextGiven != "+"
    ensures Notify(Message(AttributeTopic(area, EscapeContext(context), etype, id, attr.0), PyStr(attr.1), true), contextGiven, geo, web)
            == Ok(Shown(Printed([("id", JStr(id)), ("type", JStr(etype)), attr, ("@context", JArr(ContextList(context)))])))
  {
    var cl := EscapeContext(context);
    LevelsOfTopic([area, EntitiesLevel, cl, etype, LocalOrigin, id, attr.0]);
    StrPayloadReadsBack(attr.1);
    TopicEnding(area, cl, etype, id, attr.0, "_CreatedAt");
    TopicEnding(area, cl, etype, id, attr.0, "_modifiedAt");
    SingleAttributeRead(area, context, etype, id, attr, geo, web);
    assert Request("", None, true, "", "", contextGiven == "+") == LineageRequest;
  }

  /** A notification on a lineage topic is ignored, whatever it carries. */
  lemma NotifySkipsLineage(area: string, cl: string, etype: string, id: string, name: string, payload: string,
                           contextGiven: string, geo: Json -> Result<bool>, web: Result<Json>)
    requires '/' !in area && '/' !in cl && '/' !in etype && '/' !in id && '/' !in name
    requires IsLineage(name) && payload != "" && Loads(Swap(payload)).Ok?
    ensures Notify(Message(AttributeTopic(area, cl, etype, id, name), payload, true), contextGiven, geo, web)
            == Ok(LineageSkipped)
  {
    LevelsOfTopic([area, EntitiesLevel, cl, etype, LocalOrigin, id, name]);
    TopicEnding(area, cl, etype, id, name, "_CreatedAt");
    TopicEnding(area, cl, etype, id, name, "_modifiedAt");
  }
}
