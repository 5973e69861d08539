# A Dafny model of the Comdex entity store, the CCDUIT federation services and the SHIELD trust pipeline

This project models three pieces of a federated context-data platform and proves properties of them.

**Comdex** keeps NGSI-LD entities on an MQTT broker. Each attribute of an entity is a retained message on a topic
`<area>/entities/<context>/<type>/LNA/<id>/<attribute>`. Each attribute also has two lineage messages, and each
entity type has a provider advertisement under `provider/<broker>/<port>/...`. The model covers:
- posting entities;
- reading them back in `GET` with a page limit and a query language;
- rebuilding entities from their attribute messages;
- deleting, patching and batch-creating entities;
- watching attribute topics;
- discovering other providers through their advertisements.

The broker is a map from topic to retained payload. A zero-length retained publish removes a topic, as section 3.3.1.3
of MQTT 3.1.1 says. Topic filters match as section 4.7 of MQTT 3.1.1 describes.

**CCDUIT** is the federation layer: context policies, interactions, context exchange, registered functions and
collaboration requests between federations. The model covers:
- how policies are stored, stamped, published and forwarded;
- how an interaction or a receipt is validated against a policy's sharing rules;
- how the most suitable policy is chosen;
- how communities and data models are exchanged;
- how a chain of transformation functions is searched for;
- what a collaboration request holds and where it is published.

**SHIELD** builds an attack graph of a network from reachability edges, device vulnerability lists and CVSS
metrics. It then:
- scores the risk of attack paths;
- summarises the paths per source and target;
- turns each summary into a trust value of 0 or 1;
- turns trust into publish/subscribe commands that the experiment publishers send and the subscribers act on.

JSON documents are an ordered `Json` datatype, because Python dictionaries keep insertion order. `json.loads` is
modelled as a parser (RFC 8259, integers only). `json.dumps` and `str()` are modelled as printers. Python
exceptions are the `Raise` case of a `Result`. A `sys.exit` is modelled as an outcome. HTTP answers, clocks,
uuids, the fetched JSON-LD context, geometry tests and the device-community lookup are parameters.

## Model

| member | source | states |
|---|---|---|
| Text.Split | Comdex/actionhandler.py:433 | `topic.split('/')` always yields at least one piece, and no piece holds the separator |
| Text.JoinSplit | Comdex/actionhandler.py:433 | joining the pieces of a split with the separator gives the original string back |
| Text.SplitJoin | Comdex/actionhandler.py:228 | a topic built by joining separator-free levels splits back into exactly those levels |
| Text.JoinSplitOn | Comdex/actionhandler.py:557 | `split('_timerelsystem_')` loses nothing: joining its pieces with the separator restores the name |
| Text.EndsWithAfter | Comdex/actionhandler.py:555 | whether a lineage suffix ends a topic depends only on the topic's last level |
| Text.ContainsWindow | SHIELD/src/srcEx/sub.py:97-111 | Python's substring test `sub in s` holds exactly when some window of `s` equals `sub` |
| Text.StripTrailingSpace | SHIELD/src/srcEx/sub.py:100 | `strip()` ignores a trailing space, so the padded kind field strips to the bare text |
| Text.DigitsOfNat | Comdex/actionhandler.py:1054 | the digits `str()` writes for a natural number read back as that number |
| Text.ParseIntOfString | Comdex/actionhandler.py:1049-1054 | `int(str(n)) == n` for every integer, so the port level of an advertisement key survives its round trip |
| Json.Lookup | Comdex/actionhandler.py:202-217 | `key in d` holds exactly when a lookup finds a value, and the value found belongs to an entry with that key |
| Json.Put | Comdex/actionhandler.py:566 | `d[key] = v` keeps the keys (and their order) when the key exists, and appends the pair otherwise |
| Json.LookupFirst | Comdex/actionhandler.py:566 | a lookup finds the first entry with a key |
| Json.PutLookup | Comdex/actionhandler.py:566 | after `d[key] = v`, `d[key]` is `v` and every other key reads as before |
| Json.PutUnique | Comdex/actionhandler.py:566 | assignment keeps the keys of a dictionary unique |
| Json.KeyIndex | Comdex/actionhandler.py:566 | the position of a key is its first occurrence |
| Json.TrueTextExactly | CCDUIT/Initiate_Collaboration_Service.py:35 | the test `str(x).lower() == "true"` passes exactly for the boolean true and for strings spelling "true" in any case |
| Json.FalseTextExactly | CCDUIT/Initiate_Collaboration_Service.py:40 | the test `str(x).lower() == "false"` passes exactly for the boolean false and for strings spelling "false" in any case |
| Broker.Apply | Comdex/actionhandler.py:1159-1165 | a retained publish replaces its topic's message and a zero-length one removes it; every other topic is untouched, and no empty message is ever stored |
| Broker.ApplyAllUntouched | Comdex/actionhandler.py:245-258 | a topic that no retained publish in a sequence names keeps its retained message |
| Broker.ApplyAllLastWins | Comdex/actionhandler.py:245-258 | the last retained publish on a topic decides what is stored there |
| Broker.ProbeAnswersExistence | Comdex/actionhandler.py:307-345 | on a complete window, `check_existence` reports a find exactly when the filter matches a retained message, and the topic it records is one of them |
| Broker.ClearPublishes | Comdex/actionhandler.py:1159-1165 | every message `clear_retained` sends is a zero-length retained publish |
| Broker.ClearingRemovesRetained | Comdex/actionhandler.py:1150-1196 | `clear_retained` removes exactly the topics of the retained deliveries and keeps every other retained message |
| Broker.ClearRetainedEmptiesFilter | Comdex/actionhandler.py:1150-1196 | after clearing a complete window the filter matches nothing, and the topics it never matched are untouched |
| Topics.MatchSameDepth | Comdex/actionhandler.py:803-840 | a filter without `#` only matches topics with the same number of levels (section 4.7.1 of MQTT 3.1.1) |
| Topics.MatchPointwise | Comdex/actionhandler.py:803-840 | without `#`, a filter matches exactly when every level is `+` or equals the topic's level |
| Topics.MatchHashTail | Comdex/actionhandler.py:230 | a filter ending in `#` matches exactly the topics whose first levels match the levels before it |
| Topics.LevelsOfTopic | Comdex/actionhandler.py:228-250 | a topic built from slash-free levels splits back into those levels |
| Topics.EscapeContext | Comdex/actionhandler.py:212-216 | the context written into a topic level holds no `/` |
| Topics.EscapeRoundTrip | Comdex/actionhandler.py:212-216 | replacing `/` by `§` when writing and `§` by `/` when reading gives back every context without `§` |
| Topics.DecodeEntityTopic | Comdex/actionhandler.py:432-437 | the reader takes the context, type, id and attribute from the split topic by position from the end, and raises `IndexError` exactly when there are fewer than five levels |
| Topics.DecodeAttributeTopic | Comdex/actionhandler.py:245-250 | reading back an attribute topic gives the context, type, id and attribute that built it |
| Topics.ExistenceFilterExact | Comdex/actionhandler.py:230-238 | the existence probe `+/entities/<context>/<type>/+/<id>/#` matches an attribute topic in any area exactly when context, type and id agree |
| Subscriptions.WatchedFilters | Comdex/actionhandler.py:806-808 | one filter per watched attribute, in order, each ending in that attribute |
| Subscriptions.SubscriptionFilters | Comdex/actionhandler.py:803-842 | the filter list of each flag combination, and `sys.exit(2)` when no flag is set |
| Subscriptions.AttributeFilterMatch | Comdex/actionhandler.py:806-834 | a `<area>/entities/<context>/<type>/+/<id>/<last>` filter matches an attribute topic exactly when every named level agrees |
| Subscriptions.TypeFilterMatch | Comdex/actionhandler.py:826-827 | the type-only filter matches exactly the attribute topics of that area, context and type |
| Subscriptions.SubscriptionReceives | Comdex/actionhandler.py:803-842 | a subscription's filters together receive an attribute topic exactly when the area and context agree and every named type, id and watched attribute is met |
| Subscriptions.AdvertisementKey | Comdex/actionhandler.py:1047-1054 | the key is levels 1 to 5 of the advertisement topic with the port re-read as an integer; too few levels raise `IndexError` and a bad port raises `ValueError` |
| Subscriptions.OnAdvertisement | Comdex/actionhandler.py:1037-1111 | a non-empty advertisement records its key; an empty one forgets it; the job table only grows; a failure other than `KeyError` changes nothing |
| Subscriptions.OnAdvertisementConsistent | Comdex/actionhandler.py:1037-1111 | every recorded key keeps its listeners on file |
| Subscriptions.NewAdvertisementStartsOne | Comdex/actionhandler.py:1061-1095 | the first advertisement of a key starts exactly one listener, for the provider named in the topic |
| Subscriptions.RepeatStartsNothing | Comdex/actionhandler.py:1058-1060 | a repeated advertisement of a known key changes nothing |
| Subscriptions.ClearedAdvertisementKills | Comdex/actionhandler.py:1097-1111 | a cleared advertisement forgets its key and kills exactly the listeners on file; a key never advertised raises `KeyError` |
| Subscriptions.SameProviderStartsOnce | Comdex/actionhandler.py:1047-1060 | two advertisements that agree on levels 1 to 5 share a key, so the second starts nothing |
| Subscriptions.AdvertiseThenClear | Comdex/actionhandler.py:1037-1111 | advertising a new provider and clearing it restores the known keys and kills the listener it started |
| Subscriptions.OnAdvertisements | Comdex/actionhandler.py:1037-1111 | folding deliveries keeps the discovery state consistent |
| Subscriptions.RepeatedAdvertisementsStartOnce | Comdex/actionhandler.py:1058-1095 | any run of advertisements of one new key starts exactly one listener |
| Subscriptions.RepeatsChangeNothing | Comdex/actionhandler.py:1058-1060 | advertisements of an already known key leave state and effects unchanged |
| Json.Get | CCDUIT/Initiate_Collaboration_Service.py:35 | `d.get(key, default)` answers on a dictionary (the default when the key is missing) and raises `AttributeError` on anything else |
| Json.Index | Comdex/actionhandler.py:202-209 | `d[key]` succeeds exactly on a dictionary holding the key, with the value a lookup finds |
| Json.PyIn | CCDUIT/Context_Exchange_Service.py:341 | Python's `x in c`: list membership with `True == 1`, substring test on strings, key test on dictionaries, and `TypeError` on scalars |
| JsonText.Loads | Comdex/actionhandler.py:465 | `json.loads` either reads one value or raises `ValueError` |
| JsonText.Dict | Comdex/actionhandler.py:465 | an object read from text has unique keys and holds every key of its text |
| JsonText.DictUnique | Comdex/actionhandler.py:465 | pairs whose keys are already unique are read in their order, unchanged |
| JsonText.ParseShow | CCDUIT/Initiate_Collaboration_Service.py:185 | the text `json.dumps` writes for a value, followed by a separator or the end, reads back as that value |
| JsonText.NumberShow | Comdex/actionhandler.py:251 | an integer as `str` writes it reads back as that integer |
| JsonText.ParseStringPlain | Comdex/actionhandler.py:465 | plain text between quotes reads back as itself |
| JsonText.LoadsDumps | CCDUIT/Initiate_Collaboration_Service.py:185 | `json.loads(json.dumps(x)) == x` for every value whose strings are plain text and whose objects have unique keys |
| JsonText.SwapShow | Comdex/actionhandler.py:462-464 | swapping the single quotes of a value's text for double quotes gives the double-quoted text |
| JsonText.PythonIsJson | Comdex/actionhandler.py:251 | a value without `true`, `false` or `null` is written by `str` as by `json.dumps`, but for the quotes |
| JsonText.SwapTwice | Comdex/actionhandler.py:464 | the quote swap is idempotent |
| JsonText.StrPayloadReadsBack | Comdex/actionhandler.py:462-465 | an attribute value published with `str` is read back by the quote swap and `json.loads` when it is a container of plain strings and numbers only |
| JsonText.PythonLiteralFails | Comdex/actionhandler.py:465 | Python's `True`, `False` and `None` start no JSON value |
| JsonText.StrPayloadLosesBoolean | Comdex/actionhandler.py:462-465 | as written, the property `{"value": True, "type": "Property"}` published with `str` cannot be read back: `json.loads` raises `ValueError` |
| JsonText.DumpsPayloadReadsBack | Comdex/actionhandler.py:462-465 | published with `json.dumps` instead, every printable value is read back unchanged, quote swap included |
| Writer.Attributes | Comdex/actionhandler.py:244-245 | the attribute messages come from exactly the entries other than `type`, `id` and `@context`, no more of them than entries, and unique keys stay unique |
| Writer.AttributesAppend | Comdex/actionhandler.py:244-245 | the filter distributes over concatenation, so the attribute messages follow the order of `data.items()` |
| Writer.ContextLevelOf | Comdex/actionhandler.py:212-216 | a string `@context` is escaped as it is and a list headed by a string contributes that element; an empty list raises `IndexError`, a list headed by a non-string `AttributeError`, a dictionary `KeyError` and any other value `TypeError`; the level never holds `/` |
| Writer.AttributePublishes | Comdex/actionhandler.py:244-261 | three retained messages per attribute, in order: the value's `str()` and the two lineage messages |
| Writer.PostEntity | Comdex/actionhandler.py:196-239 | a missing `type`, `id` or `@context` exits with status 2 and publishes nothing; an `AlreadyExists` answer publishes nothing and only happens without the bypass |
| Writer.AttributeStored | Comdex/actionhandler.py:244-261 | after the call every attribute topic holds `str()` of its value, whatever the call publishes afterwards on other topics |
| Writer.AttributeTopicsDiffer | Comdex/actionhandler.py:247-260 | a lineage topic never coincides with any attribute's value topic |
| Writer.AdvertisementNotAttribute | Comdex/actionhandler.py:266-270 | the advertisement topic, starting with `provider`, never overwrites an attribute topic of an area other than `provider` |
| Writer.CreatedShape | Comdex/actionhandler.py:244-283 | a created entity's messages are its attribute messages, followed by the advertisement exactly when the existence check is bypassed, the node advertises single ids, or no advertisement is retained on that topic after the attribute messages |
| Writer.AdvertisementLevels | Comdex/actionhandler.py:264-268 | the advertisement topic is `provider/<broker>/<port>/<area>/<context>/<type>`, with a seventh level naming the id exactly under single-id advertisement |
| Writer.FoundStopsPost | Comdex/actionhandler.py:236-239 | without the bypass, a probe that finds the entity stops the call before anything is published |
| Writer.CreatedIsVisible | Comdex/actionhandler.py:230-261 | once the attribute messages are published, the existence probe of the entity finds it |
| Writer.PostThenExists | Comdex/actionhandler.py:196-283 | posting an entity with at least one attribute and then posting it again without the bypass publishes nothing and reports that it exists |
| Reader.IdOf | Comdex/actionhandler.py:374-375 | `topic.split('/')[-2]` succeeds exactly when the topic has two levels |
| Reader.Retained | Comdex/actionhandler.py:373 | the callback only looks at retained deliveries of the window, no more of them than deliveries |
| Reader.RetainedComplete | Comdex/actionhandler.py:373 | every retained delivery of the window reaches the callback's dictionary step |
| Reader.RetainedAppend | Comdex/actionhandler.py:373 | keeping the retained deliveries distributes over concatenation, so they stay in arrival order |
| Reader.DistinctIds | Comdex/actionhandler.py:376 | the keys of `messages_by_id`: every delivered id, each once, in order of first arrival |
| Reader.CollectFixedKeepsPrefix | Comdex/actionhandler.py:368-381 | with `>=`, the callback keeps exactly the retained deliveries before the first message of the entity beyond the limit |
| Reader.GetFixedBound | Comdex/actionhandler.py:362-408 | with `>=`, `GET` keeps messages of at most `limit` entities |
| Reader.GetUnderLimit | Comdex/actionhandler.py:362-408 | when the window holds no more entities than the limit, `GET` keeps every retained delivery, and `==` and `>=` agree |
| Reader.GetKeepsPastLimit | Comdex/actionhandler.py:377-381 | as written, a delivery that opens a further id after the count reached `limit + 1` is kept again: with limit 1 and entities A, B, C, A and C are kept |
| Reader.GetDropsWhileAtLimit | Comdex/actionhandler.py:377-381 | as written, every delivery arriving while the id count equals `limit + 1` is dropped: with limit 1, a second message of entity B is dropped like the first |
| Reader.OfEntity | Comdex/actionhandler.py:767-770 | an entity's messages are messages of the window carrying its id |
| Reader.AddToGroup | Comdex/actionhandler.py:770 | `setdefault(id, []).append(m)` either keeps the number of groups or opens one at the end |
| Reader.GroupsPartition | Comdex/actionhandler.py:764-770 | grouping never fails; there is one group per distinct id, in order of first arrival, each holding exactly that entity's messages in arrival order |
| Reader.PaginateTakes | Comdex/actionhandler.py:773-779 | a limit between 1 and the number of groups takes that many groups; a limit of zero or below never reaches zero and takes them all |
| Reassembly.ContextList | Comdex/actionhandler.py:439-444 | the topic's context comes first and the core context is always present, added only when it differs |
| Reassembly.Alias | Comdex/actionhandler.py:455-458 | the name is replaced by the context document's alias when both lookups succeed, and kept as it is otherwise |
| Reassembly.SetLineage | Comdex/actionhandler.py:545-552 | a lineage value is set inside an existing attribute and never adds a top-level key; a name without the separator raises `IndexError` |
| Reassembly.SetField | Comdex/actionhandler.py:552-564 | `data[a][f] = v` keeps the dictionary's keys; fewer than two parts raise `IndexError`, a missing attribute `KeyError` |
| Reassembly.StoreValue | Comdex/actionhandler.py:540-566 | without a filter every plain attribute is stored and lineage is dropped unless asked for; with a filter list only attributes whose name is an element of it are stored; nothing else adds a key |
| Reassembly.ReadMessage | Comdex/actionhandler.py:461-466 | a payload that does not decode after the quote swap raises `ValueError`; a stopped reading stays stopped |
| Reassembly.Absorb | Comdex/actionhandler.py:467-566 | a message that does not stop the reading stores exactly what the store step stores, its query flags are those the program's scanner gives (`UpdateMessage(AsWritten, …)`), and without a geo or query condition it never stops |
| Reassembly.Fetch | Comdex/actionhandler.py:452-454 | the context document is fetched only when dereferencing, and a failed fetch raises |
| Reassembly.Header | Comdex/actionhandler.py:446-458 | the dictionary starts with `id` and `type`, in that order, taken from the topic unless an alias replaces the type |
| Reassembly.ReassembleSingle | Comdex/actionhandler.py:427-571 | no messages, or a first topic with fewer than five levels, raise `IndexError`; a failed fetch raises its error |
| Reassembly.ReassembleGroups | Comdex/actionhandler.py:772-779 | one outcome per group, each the single-entity reading of that group, and an exception comes from some group |
| Reassembly.ReassembleMany | Comdex/actionhandler.py:763-779 | an error while grouping is the outcome of the whole reading |
| Reassembly.ManyByEntity | Comdex/actionhandler.py:763-779 | the entities are rebuilt in order of first arrival, each from exactly its own messages, at most `limit` of them when it is positive |
| Reassembly.PageOfGroups | Comdex/actionhandler.py:764-779 | the page holds, for the first `limit` ids, exactly each entity's messages |
| Reassembly.Notify | Comdex/actionhandler.py:931-962 | an empty payload reports a deletion; an undecodable one is reported and dropped; a topic with fewer than two levels raises |
| Reassembly.NotifyShowsAttribute | Comdex/actionhandler.py:952-960 | a notification on an attribute topic prints the entity with exactly that attribute, its id, type and context list |
| Reassembly.NotifySkipsLineage | Comdex/actionhandler.py:955-957 | a notification on a lineage topic is ignored, whatever its payload |
| Reassembly.WithLineage | Comdex/actionhandler.py:253-261 | an attribute rebuilt with lineage holds `CreatedAt` and `modifiedAt`, both the publication time |
| Reassembly.RebuiltKeys | Comdex/actionhandler.py:552-566 | rebuilding keeps every attribute's name, in publish order |
| Reassembly.SplitLineageName | Comdex/actionhandler.py:545-557 | a lineage name splits at the separator into exactly the attribute and the field |
| Reassembly.ReadAttribute | Comdex/actionhandler.py:461-566 | the three messages of one attribute, read in publish order, add the attribute with both lineage fields |
| Reassembly.ReadPublishes | Comdex/actionhandler.py:244-261 | reading all attribute messages of an entity in publish order adds every attribute, with lineage, after what was read before |
| Reassembly.PostThenRead | Comdex/actionhandler.py:244-261 | round trip: an entity's published attribute messages, read back with lineage, print its id, type, every attribute with `CreatedAt` and `modifiedAt`, and the context list |
| Reassembly.FirstTopic | Comdex/actionhandler.py:432-437 | the reader takes back the context, type and id the writer put in the first attribute topic |
| Reassembly.PlainRequest | Comdex/actionhandler.py:427 | a reading without lineage asks for no lineage, no query, no geo test and no dereferencing |
| Reassembly.Kept | Comdex/actionhandler.py:539-541 | the attributes a reading without lineage keeps are exactly those whose name is an element of the `attrs` list (all of them without a filter), values untouched |
| Reassembly.FilterByMembership | Comdex/actionhandler.py:540-541 | the filter is list membership: `attrs=temp` keeps `temp` and not `te`, though `te` is a substring of `temp` |
| Reassembly.HashListKeepsNothing | Comdex/actionhandler.py:1537-1541 | `attrs=#` splits into `['#']`, which is a filter and keeps no attribute |
| Reassembly.ReadPlainValue | Comdex/actionhandler.py:539-566 | without lineage, a value message adds its attribute exactly when there is no filter or the filter list holds its name |
| Reassembly.ReadPlainStamp | Comdex/actionhandler.py:539-566 | without lineage, a lineage message changes nothing, provided the filter list names no lineage topic |
| Reassembly.ReadPlainAttribute | Comdex/actionhandler.py:539-566 | the three messages of one attribute, read without lineage, add just the attribute when the filter list holds its name (or there is no filter) |
| Reassembly.PlainTail | Comdex/actionhandler.py:539-566 | the attributes still to be read stay readable and new, and the part of them the filter list names completes the kept whole |
| Reassembly.TailStillFresh | Comdex/actionhandler.py:539-566 | no attribute still to be read is keyed like one already read |
| Reassembly.ReadPlainPublishes | Comdex/actionhandler.py:244-261 | reading an entity's attribute messages in publish order without lineage adds the attributes listed in `attrs`, in publish order, after what was read before |
| Reassembly.PostThenReadPlain | Comdex/actionhandler.py:244-261 | round trip without lineage: a `GET` prints the id, type, every posted attribute whose name is in the `attrs` list (all without a filter) with exactly the value posted and no lineage fields or keys, and the context list |
| Reassembly.PostThenReadUnfiltered | Comdex/actionhandler.py:244-261 | without lineage and without a filter, a `GET` prints the id, the type, every attribute posted in order with exactly its value, and the context list last |
| Reassembly.KeptContextAppended | Comdex/actionhandler.py:568 | `@context` is added last, after the id, type and kept attributes |
| Reassembly.ContextAppended | Comdex/actionhandler.py:568 | `@context` is added last, after the id, type and attributes |
| Reassembly.LineageFirstFails | Comdex/actionhandler.py:552-564 | a lineage message read before its attribute raises `KeyError` |
| Reassembly.PrintedKeys | Comdex/actionhandler.py:427-571 | every key of a printed entity is `id`, `type`, `@context` or an attribute name from the messages, and under a filter an element of the filter list |
| Reassembly.AbsorbIgnoresQuery | Comdex/actionhandler.py:573-761 | one message is stored the same way with or without a query |
| Reassembly.QueryOnlyFilters | Comdex/actionhandler.py:573-761 | a query decides only whether an entity is printed: what it lets through is exactly what the reading without the query prints |
| Reassembly.TopicEnding | Comdex/actionhandler.py:955 | whether an attribute topic ends with a lineage suffix depends on its attribute level alone |
| Reassembly.SingleAttributeRead | Comdex/actionhandler.py:960 | one attribute message read alone prints the entity with that attribute |
| Writer.PublishAt | Comdex/actionhandler.py:244-261 | message `3k`, `3k+1` and `3k+2` of the attribute publishes are retained, on the topics of attribute `k`, its creation stamp and its modification stamp |
| Writer.VisibleAfter | Comdex/actionhandler.py:244-283 | after the attribute messages, with or without the advertisement, the existence filter of the entity matches a retained message |
| Writer.EntityVisible | Comdex/actionhandler.py:244-283 | messages on the advertisement topic published after the attributes never hide the entity from its existence filter |
| Writer.SentVisible | Comdex/actionhandler.py:196-283 | whatever a successful `post_entity` with attributes sends leaves the entity visible to its existence filter |
| Reader.CutBound | Comdex/actionhandler.py:362-408 | the deliveries the corrected limit test lets through hold at most `limit` distinct entity ids |
| Reader.RetainedPrefix | Comdex/actionhandler.py:373 | the retained deliveries of a prefix of the window are a prefix of its retained deliveries |
| Reassembly.KeyOf | Comdex/actionhandler.py:540-566 | a value used as a dictionary key must be a string: lists and objects raise `TypeError` |
| Reassembly.ReadAll | Comdex/actionhandler.py:427-571 | once the reading has stopped, the remaining messages change nothing |
| Reassembly.ReadAllKeys | Comdex/actionhandler.py:427-571 | the keys of the rebuilt entity are its header keys followed by the attribute names met, in order |
| Reassembly.ReadAllIgnoresQuery | Comdex/actionhandler.py:427-571 | the query only decides whether an entity is printed, never what is rebuilt |
| Reassembly.ReadStores | Comdex/actionhandler.py:461-566 | a message that is read decodes after the quote swap, and its value is stored under the topic's last level |
| Reassembly.ReadDecoded | Comdex/actionhandler.py:461-566 | a message whose payload decodes is absorbed under the topic's last level |
| Reassembly.StampReadsBack | Comdex/actionhandler.py:253-261 | a lineage message, `str` of a one-element list of the time, reads back as that list |
| Reassembly.LineageName | Comdex/actionhandler.py:258-261 | an attribute name with `_timerelsystem_CreatedAt` or `_timerelsystem_modifiedAt` is a lineage name that splits into the attribute and the field |
| Reassembly.AttributeLevel | Comdex/actionhandler.py:247 | the last level of an attribute topic is the attribute's name |
| GetCommand.SingleAdvertisementMatch | Comdex/actionhandler.py:1578-1594 | the advertisement filter of one area receives an advertisement exactly when area and context agree and the type and id agree or are open |
| GetCommand.CoarseAdvertisementMatch | Comdex/actionhandler.py:1578-1594 | the filter without an id receives an advertisement exactly when area and context agree and the type agrees or is open |
| EntityCommands.BatchOfTwo | Comdex/actionhandler.py:1654-1658 | a batch of two posts the second entity on the store the first one left |
| Broker.ApplyAll | Comdex/actionhandler.py:245-258 | publishing any sequence of messages keeps a store valid |
| Query.SplitAny | Comdex/actionhandler.py:575 | `re.split` with a character class: at least one piece, and no piece holds a separator |
| Query.FindAny | Comdex/actionhandler.py:574 | `re.findall` with a character class finds only separators, exactly one fewer than the pieces of the split |
| Query.ScanAtom | Comdex/actionhandler.py:657-658 | the operators found are `>`, `<` or `==` only, one fewer than the pieces |
| Query.ScanPlainPrefix | Comdex/actionhandler.py:657-658 | text without operator characters only lengthens the first piece, so the attribute name is the text before the first operator |
| Query.GreaterEqualMisread | Comdex/actionhandler.py:657-684 | as written, `name>=n` and `name<=n` are cut at the lone `>` or `<`, and the literal `=n` is not numeric, so the atom never holds under the program's scanner, and its name is still `name` |
| Query.ScanAtomFixed | Comdex/actionhandler.py:657-658 | with the two-character operators tried first, all five operators can be found |
| Query.OperatorsRead | Comdex/actionhandler.py:657-684 | the corrected scanner cuts `name op n` into the name and the literal at `op`, for each of the five operators |
| Query.GreaterEqualCompares | Comdex/actionhandler.py:679-684 | with the corrected scanner, `name>=n` holds exactly for values at least `n`, and `name<=n` for values at most `n` |
| Query.SetDefault | Comdex/actionhandler.py:659 | `setdefault(name, False)` adds the name last when new and changes nothing otherwise |
| Query.MarkTrue | Comdex/actionhandler.py:668-684 | setting a flag keeps the names and their order, and sets exactly the flags of that name |
| Query.UpdateAtomMeaning | Comdex/actionhandler.py:656-684 | for the program's scanner (`AsWritten`, the one the reader uses) and for the corrected one alike: one atom adds its name to the flags, and sets it exactly when the message is on that attribute and that scanner's comparison holds; no flag is ever cleared |
| Query.UpdateMessageMeaning | Comdex/actionhandler.py:656-684 | for either scanner, after one message every earlier name and every atom's name is a flag, and a flag is set exactly when it was set before or some atom about the message's attribute holds under that scanner |
| Query.GreaterEqualFlagStays | Comdex/actionhandler.py:656-684 | as written, an atom `name>=n` or `name<=n` names its flag but never sets any flag, whatever the message |
| Query.CopyRun | Comdex/actionhandler.py:730-733 | the inner `while` raises `IndexError` exactly when no `;` or `|` follows position `l`; otherwise it stops just before the first one, inside the operator list, having copied every operator in between, in order |
| Query.RemoveName | Comdex/actionhandler.py:719 | `pop('', None)` leaves only flags that were there, none with the empty name |
| Query.EquationFlat | Comdex/actionhandler.py:717-735 | without parentheses, the equation alternates the flag values with `and` for `;` and `or` for `|` |
| Query.EvalFlat | Comdex/actionhandler.py:737 | `eval` of such an equation is the reading that groups `and` before `or` |
| Query.FlatVerdict | Comdex/actionhandler.py:717-738 | for a query without parentheses leaving one flag per operand, the entity is printed exactly when the AND-before-OR reading of the flags is true |
| GetCommand.SplitFirst | Comdex/actionhandler.py:1518 | `split("=", 1)`: the key holds no `=`, and key, `=` and value put back together give the field |
| GetCommand.Assign | Comdex/actionhandler.py:1520-1561 | the only error an assignment raises is `ValueError` from a `limit` that is no integer |
| GetCommand.AssignEffect | Comdex/actionhandler.py:1520-1561 | one assignment sets exactly its own parameter, counts a geo-query key once, and leaves the rest unchanged |
| GetCommand.StepAccepts | Comdex/actionhandler.py:1517-1564 | one pass goes on exactly for an accepted field: a recognised key with a value, `idPattern`, or a valid `limit` |
| GetCommand.StepEffect | Comdex/actionhandler.py:1517-1564 | what one accepted field changes, and that nothing else changes |
| GetCommand.ParseAcceptsExactly | Comdex/actionhandler.py:1517-1564 | the loop runs to its end exactly when every field is accepted |
| GetCommand.ParseLastWins | Comdex/actionhandler.py:1488-1561 | each parameter is the value of the last field naming it, or its default; every geo-query field counts |
| GetCommand.ParseLimit | Comdex/actionhandler.py:1489-1535 | the page size is the last `limit` field's value, and 1800 without one |
| GetCommand.QueryFields | Comdex/actionhandler.py:1511-1515 | the text after `GET/entities/`, without one leading `?`, split at `&`, has at least one field |
| GetCommand.Finish | Comdex/actionhandler.py:1566-1576 | the request runs exactly when the geo-query fields number zero or three |
| GetCommand.ParseGetRuns | Comdex/actionhandler.py:1511-1576 | a command runs exactly when every field is accepted and the geo-query fields number zero or three |
| GetCommand.EmptyQueryNotRecognised | Comdex/actionhandler.py:1511-1564 | `GET/entities/` and `GET/entities/?` give the empty key, which is not recognised |
| GetCommand.AdvertisementFilters | Comdex/actionhandler.py:1584-1591 | one advertisement filter per requested area, in order |
| GetCommand.AdvertisementFiltersReceive | Comdex/actionhandler.py:1578-1594 | the advertisement filters receive exactly the advertisements of providers in a requested area with the request's context and type, and id under single-id advertisement |
| GetCommand.EntityFilters | Comdex/actionhandler.py:1613-1619 | what one provider visit appends to the accumulated list: one filter per requested attribute, or a single one for all of them |
| GetCommand.VisitFilters | Comdex/actionhandler.py:1485-1620 | the `GET` of a provider visit asks for that visit's filters last, after those of every visit before it (across types and providers): a filter is sent exactly when some visit up to this one produced it |
| GetCommand.VisitFiltersGrow | Comdex/actionhandler.py:1604-1620 | each visit's request is the previous visit's with the new visit's filters appended |
| GetCommand.EntityFiltersReceive | Comdex/actionhandler.py:1613-1620 | for a request with an id, the entity filters receive exactly the attribute topics with the requested type, id and attributes |
| GetCommand.NoIdFiltersInvalid | Comdex/actionhandler.py:1575-1619 | as written, a request without an id puts `#` before the attribute level, so none of its entity filters is a valid MQTT topic filter |
| GetCommand.EntityFiltersFixed | Comdex/actionhandler.py:1613-1619 | the filters with an open id written as `+`: as many as as written |
| GetCommand.FixedFiltersValid | Comdex/actionhandler.py:1575-1620 | with the open id as `+`, every filter is valid, and a request without an id receives the requested attributes of every entity of the type |
| EntityCommands.LinkLevel | Comdex/actionhandler.py:1434-1455 | the `-H` link becomes one topic level (no `/`), and `+` when none was given |
| EntityCommands.LinkLevelPlain | Comdex/actionhandler.py:1434 | a plain link is used as it is |
| EntityCommands.ClearFilter | Comdex/actionhandler.py:1150-1196 | after the retraction no retained message matches the filter, and every topic outside it keeps its message |
| EntityCommands.ClearRetainedIsClearFilter | Comdex/actionhandler.py:1150-1196 | `clear_retained` on a window holding every retained match retracts exactly what the filter matches |
| EntityCommands.TypeOfFound | Comdex/actionhandler.py:1438 | `split('/')[-4]` of the probe's topic succeeds exactly when it has four levels |
| EntityCommands.EntityTopicLevels | Comdex/actionhandler.py:1434-1438 | a topic the entity's filter delivers has at least six levels with the id sixth, so `split('/')[-4]` exists; on a seven-level attribute topic it is the type level and `[-3]` the origin |
| EntityCommands.Delete | Comdex/actionhandler.py:1425-1446 | given that `found` is a retained topic the probe's filter matches whenever it matches any: deleting only ever retracts messages; it exits with status 2 exactly when the entity filter in this area matches nothing (entity form) or the fourth piece is not `attrs` (attribute form), and raises `IndexError` exactly when the command has under three pieces or the reported topic has under four levels |
| EntityCommands.DeleteReported | Comdex/actionhandler.py:1432-1438 | with no wildcard in the area, link and id, deleting an entity never raises `IndexError`; on success the type is read from a retained topic of that entity in this area, its fourth level on an attribute topic |
| EntityCommands.DeleteEntityRetracts | Comdex/actionhandler.py:1432-1442 | after deleting an entity no message of it is left in the node's area, and every topic outside the entity and the advertisements keeps its message |
| EntityCommands.AdvertisementApart | Comdex/actionhandler.py:1437-1442 | the advertisement is delivered on itself and lies outside the entity's filter |
| EntityCommands.DeleteRetractsAdvertisementWhenLast | Comdex/actionhandler.py:1434-1441 | under coarse advertisement, the advertisement of the type the probe read from a retained topic of the entity goes exactly when no entity of that type is left in the area |
| EntityCommands.DeleteAttributeKeepsLineage | Comdex/actionhandler.py:1443-1446 | deleting one attribute retracts it and leaves its lineage messages in place |
| EntityCommands.PatchMessages | Comdex/actionhandler.py:1464-1473 | two messages per patched attribute, in order: its value, then the clock reading taken for that attribute on the local lineage topic |
| EntityCommands.Patch | Comdex/actionhandler.py:1449-1474 | given that `found` is a retained topic `+/entities/<H>/+/+/<id>/#` matches whenever it matches any, and one clock reading per attribute: it exits with status 2 exactly when the command has under five pieces, its fourth is not `attr`, or that filter matches nothing; any other failure is the `IndexError` of a reported topic under four levels; otherwise two messages per written attribute |
| EntityCommands.PatchReported | Comdex/actionhandler.py:1456-1473 | with no wildcard in the link and id, a well-formed patch succeeds exactly when the entity exists in some area, and then writes under the type level and, for a named attribute, the origin level of a retained topic of the entity |
| EntityCommands.PatchTopicsDiffer | Comdex/actionhandler.py:1466-1473 | distinct messages of one patch go to distinct topics |
| EntityCommands.PatchStores | Comdex/actionhandler.py:1464-1473 | after a patch each patched attribute holds `str()` of its new value |
| EntityCommands.PatchKeepsCreation | Comdex/actionhandler.py:1464-1473 | a patch never touches a creation lineage topic |
| EntityCommands.PatchNameIgnored | Comdex/actionhandler.py:1469-1473 | with a non-empty attribute name the patch writes every key of the file, whatever the name |
| EntityCommands.BatchDeleteOne | Comdex/actionhandler.py:1633-1642 | given the probe's report on the entity's filter, one batch-delete step only ever retracts messages |
| EntityCommands.BatchDelete | Comdex/actionhandler.py:1626-1642 | with each id's probe answered against the store the earlier ids left, the batch delete only ever retracts messages |
| EntityCommands.BatchDeleteOneSucceeds | Comdex/actionhandler.py:1634-1637 | with no wildcard in the area, link and id, a batch step never raises: a found entity has a type level to read |
| EntityCommands.BatchDeleteSucceeds | Comdex/actionhandler.py:1631-1642 | with no wildcard in the area, link and ids, the batch delete runs through the whole list without raising |
| EntityCommands.BatchDeleteKeepsAdvertisement | Comdex/actionhandler.py:1639-1640 | as written, under coarse advertisement the step clears the filter with an extra `+` level, which never matches the six-level advertisement: it stays |
| EntityCommands.BatchDeleteOneFixed | Comdex/actionhandler.py:1633-1642 | the corrected step only ever retracts messages |
| EntityCommands.BatchDeleteFixedRetractsAdvertisement | Comdex/actionhandler.py:1633-1642 | with the type read from the retained topic the probe reported for the entity, the corrected step retracts the deleted entity's advertisement exactly when the node advertises single ids or no entity of that type is left in the area |
| EntityCommands.BatchDeleteFixedIsDelete | Comdex/actionhandler.py:1432-1441 | for an entity that exists, the corrected batch step does what `DELETE/entities/<id>` does |
| EntityCommands.BatchPost | Comdex/actionhandler.py:1654-1658 | `post_entity` over the list, the store carried from one call to the next; one outcome per entity |
| EntityCommands.NoProbeAllCreated | Comdex/actionhandler.py:1661-1665 | when no call reports an existing entity, every entity of the batch is reported created |
| EntityCommands.BatchUpdate | Comdex/actionhandler.py:1661-1665 | the update writes every entity, bypassing the probe |
| EntityCommands.UpsertNeverWrites | Comdex/actionhandler.py:1674 | as written, `json.lo+ad` raises `AttributeError` before anything is published |
| EntityCommands.BatchUpsertFixed | Comdex/actionhandler.py:1668-1675 | with `json.load`, the upsert is the update |
| EntityCommands.BatchCreateSkipsRepeat | Comdex/actionhandler.py:1654-1658 | a batch create listing one entity twice creates it once: the second call finds it and publishes nothing |
| Selection.FederationScore | CCDUIT/collaboration_monitoring.py:622-633 | a falsy `canReceive` or a `canForward` reading "false" rejects; the medium priority 2 can never be given, because its case was rejected first |
| Selection.FirstPublic | CCDUIT/collaboration_monitoring.py:618 | the `public` rule found is one of the rules |
| Selection.FirstPublicOfDicts | CCDUIT/collaboration_monitoring.py:618 | looking for the `public` rule among dictionaries never raises |
| Selection.CountIn | CCDUIT/collaboration_monitoring.py:641 | the number of permitted types found is at most the number of types |
| Selection.Scores | CCDUIT/collaboration_monitoring.py:647 | one score per policy, each that policy's score |
| Selection.Best | CCDUIT/collaboration_monitoring.py:648-650 | the stable descending sort puts first a maximal score, and every policy before it in the list scores strictly less |
| Selection.MostSuitableIsBest | CCDUIT/collaboration_monitoring.py:603-650 | a policy is returned exactly when some policy scores above zero; the one returned has a maximal score and is the earliest with it |
| Selection.RejectedNeverChosen | CCDUIT/collaboration_monitoring.py:625-650 | the returned policy is one of the list and does not score `-inf` |
| Selection.FirstNamingRuleRejects | CCDUIT/collaboration_monitoring.py:621-625 | the first rule naming the federation rejects when its `canReceive` is falsy or its `canForward` reads "false" |
| Selection.RejectingPolicy | CCDUIT/collaboration_monitoring.py:615-625 | such a policy scores `-inf`, whatever its `public` rule says |
| PolicyStore.LastModified | CCDUIT/policy_monitoring.py:266 | the chained `.get` answers exactly when the policy, its `modificationPolicy` (default `{}`) and that one's `value` (default `{}`) are dictionaries, and otherwise raises `AttributeError` |
| PolicyStore.StampOf | CCDUIT/policy_monitoring.py:271-275 | `strptime` accepts exactly strings; any other value raises `TypeError` |
| PolicyStore.MonitorAgainstStored | CCDUIT/policy_monitoring.py:277-309 | the monitor overwrites only after a 200 answer, and posts only after a 200 or a 404 |
| PolicyStore.MonitorStore | CCDUIT/policy_monitoring.py:244-309 | a falsy policy is ignored; an overwrite needs a 200 answer, a post a 200 or a 404 |
| PolicyStore.ManagerAgainstStored | CCDUIT/Policy_Management_Service.py:45-76 | the manager overwrites only after a 200 answer and posts after any other status |
| PolicyStore.ManagerStore | CCDUIT/Policy_Management_Service.py:16-76 | `None` is ignored, a string that is no JSON raises `ValueError`, and an overwrite needs a 200 answer |
| PolicyStore.SkipsIncomplete | CCDUIT/policy_monitoring.py:258-275 | both copies skip a policy without an id or `lastModified`, or one whose `lastModified` does not parse |
| PolicyStore.MonitorSkipsFalsy | CCDUIT/policy_monitoring.py:245-269 | the monitor also skips an unparsable string, a falsy id and an empty `lastModified` |
| PolicyStore.StampedReachesLookup | CCDUIT/policy_monitoring.py:277-280 | a complete, parsable policy goes on to the comparison with the stored copy in both copies |
| PolicyStore.MonitorFreshness | CCDUIT/policy_monitoring.py:284-300 | a stored copy at least as recent is left unchanged; an older one is deleted and replaced |
| PolicyStore.ManagerFreshness | CCDUIT/Policy_Management_Service.py:52-69 | the manager replaces exactly when the incoming policy is strictly newer, the same decision as the monitor's |
| PolicyStore.UnstampedStoredIsPosted | CCDUIT/policy_monitoring.py:282-307 | a stored copy without `lastModified` gets a plain post, without a delete |
| PolicyStore.StatusRules | CCDUIT/policy_monitoring.py:302-307 | on a status other than 200 the monitor posts only after a 404, while the manager posts whatever the status |
| PolicyStore.SlashesRoundTrip | CCDUIT/Policy_Management_Service.py:172-173 | collapsing `//` after doubling every `/` gives the text back, for every text |
| PolicyStore.AddExtraSlashesLength | CCDUIT/Policy_Management_Service.py:172-173 | doubling adds exactly one character per `/` |
| PolicyStore.FilterSlashes | CCDUIT/Policy_Management_Service.py:173 | the characters kept are all `/` |
| PolicyStore.PolicyEntity | CCDUIT/Policy_Management_Service.py:180-218 | the created policy is a dictionary with unique keys |
| PolicyStore.CreatePublish | CCDUIT/Policy_Management_Service.py:175-226 | the policy is published retained, as its JSON text, on `Federation/urn:ngsi-ld:Federation:<p>/Policy/urn:ngsi-ld:ContextPolicy:<id>` |
| PolicyStore.CreatedPolicyIsStored | CCDUIT/Policy_Management_Service.py:210-219 | the created policy is stored by both copies of `store_policy` when the broker does not know it yet |
| PolicyStore.CreatedBrokerUrl | CCDUIT/Policy_Management_Service.py:178-202 | the policy's broker address is the doubled URL, and collapsing it gives the configured one back |
| PolicyStore.RemoveTopic | CCDUIT/Policy_Management_Service.py:303-317 | nothing is published for a missing policy id; otherwise one empty retained message |
| PolicyStore.RemoveUndoesPublish | CCDUIT/Policy_Management_Service.py:225-317 | withdrawing a published policy clears its topic and no other |
| PolicyStore.PublisherOf | CCDUIT/policy_monitoring.py:394-401 | without user properties the publisher is `None`; with them it is the value of the first `PublisherID` entry, and exactly when there is none the name stays unbound (`NameError`) |
| PolicyStore.OriginOf | CCDUIT/policy_monitoring.py:339-342 | the federation is topic level 1 and the policy id its last level; a missing or empty publisher becomes the federation |
| PolicyStore.OriginOfPublished | CCDUIT/policy_monitoring.py:339-342 | the topic a policy is published on is read back as its provider and id |
| PolicyStore.Endpoint | CCDUIT/policy_monitoring.py:354-355 | `host:port` splits into exactly two parts, and the port is their integer |
| PolicyStore.Consider | CCDUIT/policy_monitoring.py:353-359 | a collaborator becomes a destination exactly when the policy lets this federation forward to it and its types name policies |
| PolicyStore.Destinations | CCDUIT/policy_monitoring.py:352-359 | at most one destination per collaborator |
| PolicyStore.DestinationsExact | CCDUIT/policy_monitoring.py:352-359 | every destination is the address of an admitted collaborator, and every admitted collaborator's address is a destination |
| PolicyStore.ForwardPolicy | CCDUIT/policy_monitoring.py:338-361 | destinations come only from the collaborations of the policy's own federation, or the relayed ones when the policy came from elsewhere |
| PolicyStore.UpdateLookup | CCDUIT/policy_monitoring.py:122 | after `update`, a key of the new map has its new value and every other key its old one |
| PolicyStore.MergeOverrides | CCDUIT/policy_monitoring.py:120-122 | the request side wins for a federation found on both sides |
| PolicyStore.Without | CCDUIT/policy_monitoring.py:198-200 | `pop` removes the key and changes no other |
| PolicyStore.AddSenders | CCDUIT/policy_monitoring.py:188-197 | adding the senders of responses addressed to this federation keeps every collaborator already found |
| PolicyStore.RelayedCollaborators | CCDUIT/policy_monitoring.py:187-202 | neither the relaying federation nor the publisher is ever a destination |
| PolicyStore.RelayedKeepsOthers | CCDUIT/policy_monitoring.py:187-202 | every other collaborator found stays |
| Forwarding.Iterate | CCDUIT/collaboration_monitoring.py:454 | `for x in j` yields a list's items, and raises `TypeError` exactly for values that are not iterable |
| Forwarding.EntryEffect | CCDUIT/collaboration_monitoring.py:455-469 | one entry sets the forward flag when it grants and clears the receive flag when it vetoes; a permission read that is not a dictionary raises |
| Forwarding.ItemsEffect | CCDUIT/collaboration_monitoring.py:455-469 | the entries of one rule grant when some entry grants and veto when some entry vetoes |
| Forwarding.RulesEffect | CCDUIT/collaboration_monitoring.py:454-469 | all rules together grant when some entry of some rule grants, and veto when some entry vetoes |
| Forwarding.ValidateForwarding | CCDUIT/collaboration_monitoring.py:444-479 | the result is only computed for a dictionary policy (the same body is at policy_monitoring.py:204-239 and Initiate_Collaboration_Service.py:21-56) |
| Forwarding.ForwardingDecision | CCDUIT/collaboration_monitoring.py:444-479 | forwarding is allowed exactly when some entry grants it (own `canForward` "true", or `public` with both flags "true") and no entry for the target reads `canReceive` "false"; the result then carries the permitted types |
| Forwarding.SameFederationNoVeto | CCDUIT/collaboration_monitoring.py:456-464 | when the own and the target federation are the same, the receive veto is never consulted |
| Forwarding.TargetVeto | CCDUIT/Initiate_Collaboration_Service.py:38-56 | an explicit `canReceive` "false" for a different target denies, whatever grants |
| Forwarding.NotADictionary | CCDUIT/collaboration_monitoring.py:446 | a policy that is not a dictionary raises `AttributeError` |
| Forwarding.DefaultMissingFlag | CCDUIT/collaboration_monitoring.py:458-473 | an own entry without `canForward` reads "false" and denies |
| Forwarding.StrictAgrees | CCDUIT/Context_Exchange_Service.py:182-210 | when every permission read names both flags, the variant decides exactly as the other copies |
| Forwarding.StrictMissingFlag | CCDUIT/Context_Exchange_Service.py:192-197 | without defaults, an own entry lacking `canForward` raises `KeyError` |
| Forwarding.ConsiderPolicy | CCDUIT/collaboration_monitoring.py:96-110 | a policy is kept under the topic only when it is admissible, and otherwise the map is unchanged |
| Forwarding.ConsiderAll | CCDUIT/collaboration_monitoring.py:96-110 | the loop adds at most the delivery's topic, and keeps only admissible policies |
| Forwarding.OnPolicyMessage | CCDUIT/collaboration_monitoring.py:82-122 | a topic already handled changes nothing; every delivery marks its topic handled |
| Forwarding.OnPolicyMessageKeeps | CCDUIT/collaboration_monitoring.py:96-110 | a policy provided by the current or the new federation, or one that may not be forwarded with policy types, never enters the map |
| Forwarding.DoneAfterFirst | CCDUIT/collaboration_monitoring.py:120-122 | since the kept topics are among the handled ones, `done` is set after the first new topic |
| ContextExchange.KeepCommunities | CCDUIT/Context_Exchange_Service.py:55-59 | the list keeps exactly the communities that pass the test, and is their in-order filter `Passing`; it is a list exactly when no test raises, and otherwise raises the error of the first community whose test raises |
| Basics.PassingAppend | CCDUIT/Context_Exchange_Service.py:55-59 | the in-order filter distributes over concatenation, so what a comprehension keeps keeps the broker's order |
| ContextExchange.GetList | CCDUIT/Context_Exchange_Service.py:23-60 | a given limit raises `NameError` (`params` is never defined); otherwise the list is filtered with the federation's URN |
| ContextExchange.ListsCommunityOfOtherFederation | CCDUIT/Context_Exchange_Service.py:36-58 | as written, a single-string relationship is tested by substring, so a community of `Fed10` is listed for `Fed1` |
| ContextExchange.InFederationFixed | CCDUIT/Context_Exchange_Service.py:57-58 | the corrected test holds exactly when the relationship names the federation, as one string or as a list item |
| ContextExchange.KeepCommunitiesFixed | CCDUIT/Context_Exchange_Service.py:55-59 | the corrected filter keeps exactly the communities that name the federation, in order |
| ContextExchange.FixedListsOnlyNamed | CCDUIT/Context_Exchange_Service.py:55-59 | a community is listed by the corrected filter exactly when it names the federation |
| ContextExchange.FixedSkipsOtherFederation | CCDUIT/Context_Exchange_Service.py:55-59 | the corrected filter does not list the community of `Fed10` for `Fed1` |
| ContextExchange.AnyIn | CCDUIT/Context_Exchange_Service.py:101 | over a list, `any(c in object for c in selected)` holds exactly when some selected id equals some item |
| ContextExchange.GetDataModels | CCDUIT/Context_Exchange_Service.py:67-103 | every data model returned is associated with a selected community |
| ContextExchange.KeepModels | CCDUIT/Context_Exchange_Service.py:98-102 | the filter keeps exactly the data models associated with a selected community, and is their in-order filter `Passing`; it is a list exactly when no test raises, and otherwise raises the error of the first model whose test raises |
| ContextExchange.DataModelSharesCommunity | CCDUIT/Context_Exchange_Service.py:100-101 | a data model with a list of communities is kept exactly when it shares one with the selection |
| ContextExchange.OthersIn | CCDUIT/Context_Exchange_Service.py:170-173 | the URN of every rule key other than the input, and nothing else |
| ContextExchange.OtherIds | CCDUIT/Context_Exchange_Service.py:155-173 | only URNs of federations other than the input are collected, skipping empty or undecodable rules |
| ContextExchange.CheckOtherFederation | CCDUIT/Context_Exchange_Service.py:140-180 | the input federation is never among the others, and with no others the URL is empty |
| ContextExchange.CheckOtherFederationOfRules | CCDUIT/Context_Exchange_Service.py:151-180 | for one rule, the result is the other keys' URNs and the stored URL with `//` collapsed back |
| ContextExchange.FetchPolicyByProvider | CCDUIT/Context_Exchange_Service.py:225-235 | the policy returned is the first whose provider is the URN of the federation; `None` only when no policy has that provider |
| ContextExchange.OrIn | CCDUIT/Context_Exchange_Service.py:341-357 | `"x" or "y" in types` with a non-empty literal `"x"` is always true |
| ContextExchange.StoreContextPlan | CCDUIT/Context_Exchange_Service.py:319-391 | every kind of context is stored, whatever the permitted types, and the loop over other federations visits none |
| ContextExchange.PlanCopiesEverything | CCDUIT/Context_Exchange_Service.py:328-367 | a policy whose lookups succeed stores federations, communities and data models twice, and visits no other federation |
| Interaction.ReceiveFlag | CCDUIT/Interaction_Handling_Service.py:517 | a flag equal to `True` (so also `1`) allows; a string allows exactly when it lower-cases to "true"; any other value raises `AttributeError` |
| Interaction.ReceiveFlagFixed | CCDUIT/Interaction_Handling_Service.py:557 | the `str(x).lower()` reading never raises and allows exactly `True`, `1` and strings reading "true" |
| Interaction.FalseFlagRaises | CCDUIT/Interaction_Handling_Service.py:511-520 | a permitted interaction whose rule for this federation says `canReceive: False` raises instead of being refused |
| Interaction.FixedFlagAgrees | CCDUIT/Interaction_Handling_Service.py:517-557 | the corrected reading answers wherever the written one raises, agrees with it everywhere else, and reads `False` as not allowed |
| Interaction.PolicyOfAnswer | CCDUIT/Interaction_Handling_Service.py:465-477 | a failed request yields `None`; the only failure of a list answer is `IndexError` on an empty list |
| Interaction.Admitted | CCDUIT/Interaction_Handling_Service.py:494-499 | a type test that answers implies the entity carries a `connectionType` |
| Interaction.SharingRules | CCDUIT/Interaction_Handling_Service.py:502-508 | the rules are read only from a policy that has `sharingRules` |
| Interaction.ValidateInteraction | CCDUIT/Interaction_Handling_Service.py:480-532 | no policy means `False`; `(True, policy)` carries exactly the fetched policy, and it is an object |
| Interaction.ReceiveOf | CCDUIT/Interaction_Handling_Service.py:515 | reading `rule[key]["canReceive"]` answers only when the rule is a dict holding the key, with a `TypeError` for a non-dict and a `KeyError` for a missing key, and then reads the flag as `== True or .lower() == "true"` |
| Interaction.RuleAllows | CCDUIT/Interaction_Handling_Service.py:513-519 | a rule with neither the destination nor `public` allows nothing; it allows exactly when both present entries read and one of them receives; the `public` entry is read even when the destination already allowed, so its error is raised |
| Interaction.ShareLoop | CCDUIT/Interaction_Handling_Service.py:509-522 | the loop allows exactly when some rule allows and every rule before it read as not allowing; it refuses exactly when every rule reads as not allowing |
| Interaction.ShareLoopGrants | CCDUIT/Interaction_Handling_Service.py:511-524 | over rules whose flags are `True` or strings, the loop allows exactly when some rule lets the destination or the public receive |
| Interaction.InteractionDecision | CCDUIT/Interaction_Handling_Service.py:480-532 | for a permitted type, the answer is `(True, policy)` when some rule grants and falls off the end (`None`) otherwise |
| Interaction.InteractionTypeRefused | CCDUIT/Interaction_Handling_Service.py:488-499 | a connection type the policy does not permit, and a missing policy, are refused with `False` |
| Interaction.ReceiveEntry | CCDUIT/Interaction_Handling_Service.py:557 | an entry answers exactly when it is an object with `canReceive`, and then as the corrected flag reading |
| Interaction.ReceiveItems | CCDUIT/Interaction_Handling_Service.py:552-559 | after a rule's entries, receiving holds exactly when it held before or some entry named by the federation allows; the two flags stay equal |
| Interaction.ReceiveRules | CCDUIT/Interaction_Handling_Service.py:551-559 | after all rules, receiving holds exactly when some rule's entry for the federation allows, every rule was an object, and the two flags stay equal |
| Interaction.ReceivingParts | CCDUIT/Interaction_Handling_Service.py:537-538 | the rules and types are read, with their defaults, only from an object |
| Interaction.ValidateReceiving | CCDUIT/Interaction_Handling_Service.py:535-572 | every answer is a pair: the function never falls off its end |
| Interaction.OrIn | CCDUIT/Interaction_Handling_Service.py:564 | `"communities" or "community" in types` holds whatever the types |
| Interaction.ReceivingDecision | CCDUIT/Interaction_Handling_Service.py:551-572 | the answer is `(True, types)` exactly when some rule's entry for the federation allows, and `(False, types)` otherwise |
| Interaction.OnStatus | CCDUIT/Interaction_Handling_Service.py:296-307 | the status becomes the lower-cased payload; a payload other than pause, active or resume leaves processing as it was |
| Interaction.LastSaying | CCDUIT/Interaction_Handling_Service.py:302-307 | a decision found is the meaning of one of the payloads |
| Interaction.ReplayFollowsLastSaying | CCDUIT/Interaction_Handling_Service.py:296-307 | after any run of status messages, processing is what the last pause, active or resume said, or what it was before |
| Interaction.ReplaySplit | CCDUIT/Interaction_Handling_Service.py:296-307 | replaying one more message is handling it after the earlier ones |
| Interaction.PauseAnyCase | CCDUIT/Interaction_Handling_Service.py:298-307 | "PAUSE" and "Pause" stop processing and "Resume" starts it again |
| Interaction.BareInteractionId | CCDUIT/Interaction_Handling_Service.py:803-806 | removing the interaction URN prefix leaves the rest of a prefixed id and leaves any other id as it is |
| Interaction.PrefixedSameUrl | CCDUIT/Interaction_Handling_Service.py:803-806 | an id given with or without its URN prefix addresses the same entity URL |
| Interaction.UrlNamesPrefixedId | CCDUIT/Interaction_Handling_Service.py:803-806 | the URL always names the prefixed id, whichever form was given |
| FunctionManagement.Fields | CCDUIT/Function_Management_Service.py:125-133 | seven attributes are considered, `packages` last |
| FunctionManagement.Plus | CCDUIT/Function_Management_Service.py:139 | `+` succeeds exactly on two lists, two strings or two numbers, and two lists are concatenated |
| FunctionManagement.NewValue | CCDUIT/Function_Management_Service.py:134-141 | every attribute but `packages` is written with the value given |
| FunctionManagement.PayloadOf | CCDUIT/Function_Management_Service.py:123-141 | the payload has no more entries than there are arguments |
| FunctionManagement.UpdatePayload | CCDUIT/Function_Management_Service.py:111-141 | an unknown function yields `False` with nothing sent; a payload has at most seven attributes |
| FunctionManagement.PayloadExact | CCDUIT/Function_Management_Service.py:123-141 | the payload holds exactly the arguments that are not `None`, in order, each a Property with its new value |
| FunctionManagement.Present | CCDUIT/Function_Management_Service.py:134 | the arguments kept are no more than those given |
| FunctionManagement.UpdateLeavesUnset | CCDUIT/Function_Management_Service.py:134-141 | an attribute given as `None` is absent from the payload and one given a value is written as that value |
| FunctionManagement.PresentOmits | CCDUIT/Function_Management_Service.py:134 | a name given only as `None` is never kept |
| FunctionManagement.PackagesAppended | CCDUIT/Function_Management_Service.py:135-139 | new packages are appended to the stored list, and stand alone when none is stored |
| FunctionManagement.Direct | CCDUIT/Function_Management_Service.py:181-183 | over readable functions the filter answers; it is non-empty exactly when some function maps source to target, and its head is the first such function |
| FunctionManagement.DirectStep | CCDUIT/Function_Management_Service.py:181-183 | one more candidate either matches first or leaves the matches of the rest |
| FunctionManagement.AnyMapsTail | CCDUIT/Function_Management_Service.py:181-183 | past a non-matching head some function matches exactly when one of the tail does |
| FunctionManagement.FirstMapsTail | CCDUIT/Function_Management_Service.py:181-186 | past a non-matching head the first match of the tail is the first match |
| FunctionManagement.IndirectAsWritten | CCDUIT/Function_Management_Service.py:189-196 | the indirect loop as written can only answer `False` |
| FunctionManagement.MappingAsWritten | CCDUIT/Function_Management_Service.py:165-196 | the written search never returns a chain |
| FunctionManagement.AsWrittenOutcomes | CCDUIT/Function_Management_Service.py:181-196 | over readable functions: the first direct match is returned; without one, the call raises exactly when some function starts at the source, and answers `False` otherwise |
| FunctionManagement.IndirectRaises | CCDUIT/Function_Management_Service.py:189-192 | the indirect loop raises exactly when some function starts at the source, and answers `False` otherwise |
| FunctionManagement.ReadableTail | CCDUIT/Function_Management_Service.py:189 | readability holds of the tail of a readable list |
| FunctionManagement.AnyStartsTail | CCDUIT/Function_Management_Service.py:189-190 | past a head that does not start at the source, some function does exactly when one of the tail does |
| FunctionManagement.ChainNeverFound | CCDUIT/Function_Management_Service.py:165-196 | with `ifc -> ttl` and `ttl -> ngsild` registered, a chain from ifc to ngsild exists yet the written call raises |
| FunctionManagement.Without | CCDUIT/Function_Management_Service.py:189-192 | removing one function leaves one fewer, all of them registered |
| FunctionManagement.MappingFixed | CCDUIT/Function_Management_Service.py:165-196 | every mapping found is a chain of registered functions leading from source to target, each step starting where the last ended; when every registered function's models can be read, the search answers rather than fails |
| FunctionManagement.IndirectFixed | CCDUIT/Function_Management_Service.py:189-196 | every indirect result is a chain of registered functions from source to target; with readable models it always answers |
| FunctionManagement.FixedComplete | CCDUIT/Function_Management_Service.py:165-196 | completeness: whenever the readable registered functions hold a chain from source to target (each used no more often than registered), the search finds a mapping |
| FunctionManagement.IndirectReaches | CCDUIT/Function_Management_Service.py:189-196 | the loop over candidates does not miss a candidate starting at the source after which the remaining functions reach the target |
| FunctionManagement.IndirectStep | CCDUIT/Function_Management_Service.py:189-196 | a chain found by the later candidates is not lost by trying an earlier one first |
| FunctionManagement.WithoutReadable | CCDUIT/Function_Management_Service.py:189-192 | leaving out the function just used keeps every remaining model readable |
| FunctionManagement.RestFits | CCDUIT/Function_Management_Service.py:189-192 | the chain's remaining steps are still among the functions left after its first one is used |
| FunctionManagement.FixedAgrees | CCDUIT/Function_Management_Service.py:165-196 | wherever the written search answers, the corrected one gives the same answer |
| FunctionManagement.IndirectAgrees | CCDUIT/Function_Management_Service.py:189-196 | where the written loop skips every candidate, the corrected one finds no chain either |
| FunctionManagement.DirectOne | CCDUIT/Function_Management_Service.py:181-186 | a single function mapping source to target is found directly |
| FunctionManagement.FixedFindsChain | CCDUIT/Function_Management_Service.py:189-194 | the corrected search returns the two-step chain `a -> b -> c` |
| FunctionManagement.MappingFrom | CCDUIT/Function_Management_Service.py:165-196 | with no direct match, a first candidate from the source followed by a mapping of the remaining functions to the target is the chain the corrected search answers |
| FunctionManagement.OneStepMapping | CCDUIT/Function_Management_Service.py:181-186 | a lone function from `b` to `c` is the mapping found |
| FunctionManagement.ChainFrom | CCDUIT/Function_Management_Service.py:189-194 | a first candidate from the source whose rest reaches the target yields the chain `[func] + rest` |
| Collaboration.RequestEntity | CCDUIT/Initiate_Collaboration_Service.py:200-211 | the request is an object with distinct attribute names |
| Collaboration.Strings | CCDUIT/Initiate_Collaboration_Service.py:210 | each collected topic becomes the JSON string of itself, in order |
| Collaboration.SendRequest | CCDUIT/Initiate_Collaboration_Service.py:180-192 | the request is published retained, as its JSON text, under the receiver's requests topic named by the request id |
| Collaboration.RequestFields | CCDUIT/Initiate_Collaboration_Service.py:193-211 | the request names its id, receiver and policy by their URNs, is Pending, and lists the collected topics |
| Collaboration.RequestReachesReceiver | CCDUIT/Initiate_Collaboration_Service.py:185 | the receiver's requests subscription delivers the request, and no other federation's does |
| Collaboration.JoinHead | CCDUIT/Initiate_Collaboration_Service.py:185 | a joined topic starts with its first level's first character |
| Collaboration.RequestReadsBack | CCDUIT/Initiate_Collaboration_Service.py:185 | the published text reads back as the request |
| Collaboration.Newcomer | CCDUIT/Initiate_Collaboration_Service.py:195 | the new collaborator's id is the federation URN prefix followed by the receiver |
| Collaboration.LiteralMissesReceiver | CCDUIT/Initiate_Collaboration_Service.py:194-196 | with the braces never filled in, a policy the receiver provided passes the provider test and may be offered back to it |
| Collaboration.FormattedExcludesReceiver | CCDUIT/Initiate_Collaboration_Service.py:134-137 | with the receiver formatted in, its own policies are excluded and every other provider's still pass |
| ContextExchange.ProviderOf | CCDUIT/Context_Exchange_Service.py:225-235 | the provider is read only from an object |
| AttackGraph.ReqPrivilege | SHIELD/src/attack_graph.py:38-44 | NONE and LOW need no privilege, SINGLE and MEDIUM need USER, and every other level needs ROOT |
| AttackGraph.GainPrivilege | SHIELD/src/attack_graph.py:45-53 | an UNCHANGED scope gains what was required and a changed scope gains ROOT; with the CVSS v2 flags, ROOT unless only the user flag is set; a CVSS v3 record never gains less than it requires |
| AttackGraph.First | SHIELD/src/attack_graph.py:9 | `list[0]` succeeds exactly on a non-empty list, with its head, and raises `IndexError` otherwise |
| AttackGraph.RiskByVuln | SHIELD/src/attack_graph.py:4-18 | the CVSS v3.0 metric wins over v3.1, which wins over v2; a record without metrics scores (1, 1); only an empty metric list raises, with `IndexError` |
| AttackGraph.PrivilegesOf | SHIELD/src/attack_graph.py:57-73 | with CVSS v2 metrics the record needs the privilege its `authentication` names and gains ROOT when `obtainAllPrivilege`, else USER when `obtainUserPrivilege`, else ROOT; otherwise with v3.0 (else v3.1) metrics it needs `privilegesRequired` and gains that under an UNCHANGED scope, else ROOT; with neither it needs and gains NONE; an empty metric list raises `IndexError` |
| AttackGraph.RetrievePrivileges | SHIELD/src/attack_graph.py:54-73 | the privileges are those of the first record with the id, and an unknown id makes the unpacking raise `TypeError` |
| AttackGraph.VersionsDisagree | SHIELD/src/attack_graph.py:4-18 | a record with both CVSS v2 and v3.0 metrics is scored by its v3 metric but takes its required privilege from its v2 metric |
| Basics.Flatten | SHIELD/src/attack_graph.py:32 | an id is in the flattened list exactly when it is in one of the lists |
| AttackGraph.DedupFrom | SHIELD/src/attack_graph.py:32 | the result repeats nothing and holds exactly the ids seen or given |
| AttackGraph.Dedup | SHIELD/src/attack_graph.py:32 | `list(set(...))` repeats nothing and keeps exactly the ids given |
| AttackGraph.VulnsOf | SHIELD/src/attack_graph.py:20-33 | a host's ids are those of the services and applications of the first device with the id, each once; an unknown host has none |
| AttackGraph.AddEdge | SHIELD/src/attack_graph.py:97-98 | after the call the two nodes are linked; an edge already present in either direction adds nothing, and at most the one edge is new |
| AttackGraph.AddExploit | SHIELD/src/attack_graph.py:90-98 | one pass links required privilege, vulnerability and gained privilege, keeps every node and edge, and adds no other edge |
| AttackGraph.ExploitVulns | SHIELD/src/attack_graph.py:87-98 | the loop succeeds exactly when every vulnerability has a record, keeps the graph, and chains every vulnerability of the target |
| AttackGraph.ExploitAll | SHIELD/src/attack_graph.py:83-98 | the loop succeeds exactly when every reachable host's vulnerabilities have records, and then chains each of them from the edge's source |
| AttackGraph.Descend | SHIELD/src/attack_graph.py:100-110 | a node with more than one `@` raises `ValueError`; otherwise the nodes stay, and exactly the same-host descent edges between existing nodes are added |
| AttackGraph.NodeSplits | SHIELD/src/attack_graph.py:102-105 | a privilege node splits at `@` into its label and its host |
| AttackGraph.DescentEdgeRanks | SHIELD/src/attack_graph.py:100-110 | between privilege nodes, a descent edge joins exactly nodes of one host whose first privilege ranks above the second |
| AttackGraph.BuildGraph | SHIELD/src/attack_graph.py:75-113 | a built graph chains every vulnerability of every reachable host; a vulnerability without a record makes the build raise |
| AttackGraph.BuiltGraphDescends | SHIELD/src/attack_graph.py:100-110 | every privilege node of the built graph has an edge to each weaker privilege node of its own host |
| AttackGraph.MatchedMembers | SHIELD/src/attack_graph.py:119-120 | the records a step scores are exactly those whose id occurs inside it |
| AttackGraph.PathMatchedMembers | SHIELD/src/attack_graph.py:118-120 | the records a path scores are exactly those some step names |
| AttackGraph.ScoresOfMeaning | SHIELD/src/attack_graph.py:121-123 | a list of records is scored exactly when each record's scores can be read, and then pair k is record k's (exploitability, impact) |
| AttackGraph.ScoresOfCons | SHIELD/src/attack_graph.py:121-123 | scoring a record before a list prepends its pair, or raises `IndexError` |
| AttackGraph.ScoresOfAppend | SHIELD/src/attack_graph.py:118-123 | scoring two lists in turn is scoring their concatenation |
| AttackGraph.MatchScores | SHIELD/src/attack_graph.py:119-123 | one step's scores are the `get_risk_by_vuln` pairs of exactly the records whose id is a substring of the step, in list order, and fail as soon as one of them cannot be read |
| AttackGraph.Scores | SHIELD/src/attack_graph.py:118-123 | the path's scores are those of every step's matched records, step after step, as the nested loops append them |
| AttackGraph.PathScores | SHIELD/src/attack_graph.py:115-123 | a path's scores can be read exactly when every record some step names has readable scores, and are then those records' pairs in loop order; the only error is `IndexError` |
| AttackGraph.SumInverse | SHIELD/src/attack_graph.py:126-129 | the sum of inverses raises `ZeroDivisionError` exactly on a zero score; over positive scores it is non-negative, and positive exactly when there is a score |
| AttackGraph.MaxReal | SHIELD/src/attack_graph.py:130 | `max` is one of the values and no value exceeds it |
| AttackGraph.Firsts | SHIELD/src/attack_graph.py:121-122 | the exploitability scores, and the keys of the client table, in order |
| AttackGraph.Seconds | SHIELD/src/attack_graph.py:121-123 | the impact scores, in order |
| AttackGraph.Clip | SHIELD/src/attack_graph.py:132-133 | a value above 1 becomes 1 and any other value is kept |
| AttackGraph.Combine | SHIELD/src/attack_graph.py:125-139 | impact and likelihood are at most 1 and the risk is their product; only a zero exploitability score raises, with `ZeroDivisionError` |
| AttackGraph.ComputeRisk | SHIELD/src/attack_graph.py:115-142 | a path's analysis raises only `IndexError` (unreadable record) or `ZeroDivisionError` (zero exploitability); otherwise impact and likelihood are at most 1 and the risk is their product |
| AttackGraph.PathZeroes | SHIELD/src/attack_graph.py:118-127 | with readable scores, a zero among the path's exploitability scores is exactly a zero in some record a step names |
| AttackGraph.RiskFails | SHIELD/src/attack_graph.py:115-127 | the analysis of a path raises exactly when some record a step names cannot be read or has exploitability 0 |
| AttackGraph.PathRiskBounded | SHIELD/src/attack_graph.py:115-142 | when every record a step names has readable scores with positive exploitability and non-negative impact, the analysis succeeds with impact, likelihood and risk in [0, 1] and the risk their product |
| AttackGraph.RiskBounded | SHIELD/src/attack_graph.py:125-139 | with positive exploitability and non-negative impact scores, impact, likelihood and risk all lie between 0 and 1 |
| AttackGraph.ImpactRatioNonNegative | SHIELD/src/attack_graph.py:130 | the last impact over the largest is non-negative when the impacts are |
| AttackGraph.ProductBounded | SHIELD/src/attack_graph.py:137 | the product of two numbers between 0 and 1 lies between 0 and 1 |
| AttackGraph.NothingMatched | SHIELD/src/attack_graph.py:118-123 | a path whose steps name no record matches nothing |
| AttackGraph.NothingMatchedStep | SHIELD/src/attack_graph.py:119-120 | a step that names no record matches nothing |
| AttackGraph.NoMatchNoRisk | SHIELD/src/attack_graph.py:115-139 | a path naming no known vulnerability has impact, likelihood and risk 0 |
| AttackGraph.Find | SHIELD/src/attack_graph.py:215 | a key has an entry exactly when it is among the keys |
| AttackGraph.PathEnds | SHIELD/src/attack_graph.py:207-210 | a trace with fewer than two components raises `IndexError`; source and target contain no `#` |
| AttackGraph.PathKey | SHIELD/src/attack_graph.py:207-211 | the key `source#target` splits back into exactly two parts |
| AttackGraph.Record | SHIELD/src/attack_graph.py:215-228 | recording a path adds an entry exactly when its key is new |
| AttackGraph.RecordKeys | SHIELD/src/attack_graph.py:215-228 | recording adds a new key once, at the end, and keeps the order of the others |
| AttackGraph.RecordFind | SHIELD/src/attack_graph.py:215-228 | recording extends the key's entry by one path, or creates it with one, and leaves every other entry alone |
| AttackGraph.AnalyzePaths | SHIELD/src/attack_graph.py:205-229 | the analysis succeeds exactly when every path's trace has at least two components whose ends split at `@` |
| AttackGraph.RecordKeepsSummary | SHIELD/src/attack_graph.py:207-228 | recording one more path keeps the table a summary of the paths so far |
| AttackGraph.RecordEntry | SHIELD/src/attack_graph.py:215-228 | after recording, each entry counts the paths of its key and keeps one length, risk and community count per path |
| AttackGraph.CountKeyAbsent | SHIELD/src/attack_graph.py:215 | a key no path has counts zero paths |
| AttackGraph.CountKeyLast | SHIELD/src/attack_graph.py:223 | one more path of a key adds one to its count |
| AttackGraph.ExtendSummarised | SHIELD/src/attack_graph.py:223-227 | extending an entry by one path keeps the counts and lists in step |
| AttackGraph.AnalyzedPathsSummarised | SHIELD/src/attack_graph.py:205-229 | the table lists each `source#target` of the paths once; each entry counts the paths with its key and keeps one length (two or more), risk and community count per path |
| Mitigation.RoundHalfEven | SHIELD/src/mitigation.py:29 | `round` gives an integer within one half of the number, and the even one on a tie |
| Mitigation.MaxInt | SHIELD/src/mitigation.py:20-23 | `max` is one of the values and no value exceeds it |
| Mitigation.TrustOf | SHIELD/src/mitigation.py:17-29 | a trust value needs a key of two parts and non-empty lists; a risk above the maximum gives 0 and one below the minimum gives 1 |
| Mitigation.CalculateTrust | SHIELD/src/mitigation.py:15-31 | the trust matrix has one entry per client, in order, each that client's trust; it fails exactly when some client's does |
| Mitigation.SummarisedHasTrust | SHIELD/src/mitigation.py:17-29 | every entry the path analysis builds has a trust value |
| Mitigation.FindOwnEntry | SHIELD/src/mitigation.py:17-19 | in a table with distinct keys, each key finds its own entry |
| Mitigation.AnalyzedPathsHaveTrust | SHIELD/src/mitigation.py:15-31 | the trust matrix of analysed paths exists and has exactly their keys, in order |
| Mitigation.SumAtMost | SHIELD/src/mitigation.py:20 | a sum of values each at most `m` is at most their number times `m` |
| Mitigation.SumNonNegative | SHIELD/src/mitigation.py:20 | a sum of non-negative values is non-negative |
| Mitigation.LengthScoreBounded | SHIELD/src/mitigation.py:20 | the mean path length over the longest lies between 0 and 1 |
| Mitigation.UnitRatio | SHIELD/src/mitigation.py:20 | a mean of values at most `m`, divided by `m`, lies between 0 and 1 |
| Mitigation.RoundUnit | SHIELD/src/mitigation.py:29 | rounding a number between 0 and 1 gives 0 or 1 |
| Mitigation.TrustIsBinary | SHIELD/src/mitigation.py:15-31 | with thresholds inside [0, 1] and at most three communities per path, every trust value is 0 or 1 |
| Mitigation.PortCves | SHIELD/src/mitigation.py:42-45 | collecting raises `KeyError` exactly when some interface has no `ports` |
| Mitigation.Relevant | SHIELD/src/mitigation.py:46-48 | the mitigations kept are exactly those naming one of the CVE ids |
| Mitigation.MitigationsByDev | SHIELD/src/mitigation.py:33-49 | the call fails exactly when collecting the device's CVE ids does |
| Mitigation.UnrelatedMitigationReturned | SHIELD/src/mitigation.py:46-49 | as written, a mitigation for a CVE the device does not have is returned too |
| Mitigation.MitigationsByDevFixed | SHIELD/src/mitigation.py:46-48 | returning the filtered list gives exactly the mitigations for the device's CVE ids |
| Mitigation.Emit | SHIELD/src/mitigation.py:62-64 | one command per publisher carrying the source's name, so some exactly when the source has a publisher |
| Mitigation.SurfaceFromSpec | SHIELD/src/mitigation.py:82-86 | the attack surface repeats no CVE and holds those already there and those of `C_between` mitigations |
| Mitigation.SurfaceSpec | SHIELD/src/mitigation.py:82-86 | the attack surface of a key is exactly the CVEs of `C_between` mitigations, each once, and is non-empty exactly when a message would be sent |
| Mitigation.ForKey | SHIELD/src/mitigation.py:56-94 | a key without `#` raises `IndexError`, and every other key is handled |
| Mitigation.ForKeyCounts | SHIELD/src/mitigation.py:58-86 | an unsubscription is counted exactly for trust 0, and the attack surface is empty unless the trust is 1 |
| Mitigation.ForKeyCommands | SHIELD/src/mitigation.py:62-94 | every publisher of the source first asks the target to follow its security topics; a security message goes out exactly when trust is 1, a `C_between` mitigation exists and the source has a publisher |
| Mitigation.MitigationToPubsub | SHIELD/src/mitigation.py:51-96 | the result has one attack-surface and one unsubscription entry per trust key, in order, each that key's outcome; only a key without `#` raises |
| PubSub.Publish | SHIELD/src/srcEx/pub.py:45-52 | a data message goes to the publisher's own topic |
| PubSub.PublishSecExp | SHIELD/src/srcEx/pub.py:64-71 | a SecExp message goes to the publisher's own topic |
| PubSub.PublishSubSec | SHIELD/src/srcEx/pub.py:83-87 | the SUBSEC command goes to the publisher's own topic |
| PubSub.PublishSecMsg | SHIELD/src/srcEx/pub.py:100-104 | the security message goes to the publisher's own topic, not a security topic |
| PubSub.PublishSub | SHIELD/src/srcEx/pub.py:117-121 | the SUBSCRIBE command goes to the publisher's own topic |
| PubSub.PublishUnsub | SHIELD/src/srcEx/pub.py:134-138 | the UNSUB command goes to the publisher's own topic |
| PubSub.PublishEnd | SHIELD/src/srcEx/pub.py:151-155 | the end message goes to `endtopic` whatever the publisher's topic |
| PubSub.ThreeFields | SHIELD/src/srcEx/sub.py:101 | a message whose parts hold no `/` splits back into exactly the sender, the padded kind and the padded timestamp |
| PubSub.Update | SHIELD/src/srcEx/sub.py:70-95 | an updater ignores the subscriber's own messages; otherwise it records the delay last for the sender; it fails exactly on a sender counted without a delay list |
| PubSub.UpdateKeepsConsistent | SHIELD/src/srcEx/sub.py:70-95 | on consistent tables an update succeeds, keeps count and delays in step, counts the sender once more and leaves other senders alone |
| PubSub.RouteOf | SHIELD/src/srcEx/sub.py:133-176 | the operational table is chosen only for a kind that strips to `message`, and the SecExp table only for a kind that is neither that nor `security` |
| PubSub.OnMessage | SHIELD/src/srcEx/sub.py:97-176 | a payload that does not split into three fields raises `ValueError`; a handled message keeps the subscriber's id and asks at most one subscription change |
| PubSub.Dispatch | SHIELD/src/srcEx/sub.py:133-176 | a command addressed to another subscriber changes nothing, and at most one subscription change is asked |
| PubSub.OnMessageKeepsConsistent | SHIELD/src/srcEx/sub.py:97-176 | consistent tables stay consistent, and a message fails only on its format, with `ValueError` |
| PubSub.DispatchKeepsConsistent | SHIELD/src/srcEx/sub.py:133-176 | every branch succeeds on consistent tables and keeps them consistent |
| PubSub.OwnMessageNotCounted | SHIELD/src/srcEx/sub.py:71-89 | a subscriber never counts its own messages |
| PubSub.OtherAddresseeIgnored | SHIELD/src/srcEx/sub.py:133-163 | an UNSUB, SUBSCRIBE or SUBSEC command for another subscriber changes nothing |
| PubSub.Lacks | SHIELD/src/srcEx/sub.py:133-167 | a text missing one character of a word does not contain the word |
| PubSub.AfterSpace | SHIELD/src/srcEx/sub.py:133-167 | the padded kind contains every word its text starts with |
| PubSub.AddresseeOf | SHIELD/src/srcEx/sub.py:134-136 | an addressed command is for this subscriber exactly when its addressee strips to the subscriber's id |
| PubSub.RoutesUnsub | SHIELD/src/srcEx/sub.py:133 | an UNSUB command takes the UNSUB branch |
| PubSub.RoutesSubscribe | SHIELD/src/srcEx/sub.py:133-144 | a SUBSCRIBE command takes the SUBSCRIBE branch |
| PubSub.RoutesSubSec | SHIELD/src/srcEx/sub.py:133-156 | a SUBSEC command takes the SUBSEC branch |
| PubSub.StripPadded | SHIELD/src/srcEx/sub.py:173 | a word padded by one space on each side strips back to the word |
| PubSub.NotACommand | SHIELD/src/srcEx/sub.py:133-156 | a kind without the capitals N, R and S is no addressed command |
| PubSub.RoutesWord | SHIELD/src/srcEx/sub.py:167-176 | `security` goes to the security table, `message` to the operational one, and other plain words to the SecExp table |
| PubSub.CommandNoSlash | SHIELD/src/srcEx/pub.py:87 | an addressed command fits in the middle field |
| PubSub.Delivered | SHIELD/src/srcEx/sub.py:97-133 | a well-formed message is dispatched on its kind, from its sender, with its delay |
| PubSub.MessageCounted | SHIELD/src/srcEx/sub.py:173-174 | a data message is counted in the operational table and nowhere else |
| PubSub.SecExpCounted | SHIELD/src/srcEx/sub.py:175-176 | a SecExp message is counted in the SecExp table and nowhere else |
| PubSub.SecMsgCounted | SHIELD/src/srcEx/sub.py:167-171 | a security message is counted in the security table and nowhere else |
| PubSub.SubSecReachesAddressee | SHIELD/src/srcEx/sub.py:156-163 | SUBSEC makes its addressee, and only it, follow the sender's security topic and count the command |
| PubSub.SubscribeReachesAddressee | SHIELD/src/srcEx/sub.py:144-154 | SUBSCRIBE makes its addressee, and only it, follow the sender's community topic and count the command |
| PubSub.UnsubReachesAddressee | SHIELD/src/srcEx/sub.py:133-142 | UNSUB makes its addressee, and only it, leave the sender's community topic and count the command |

## Left out

- Network I/O is outside the model: MQTT connections, HTTP requests, threads, processes, sleeps and `print`. A
  listening window is the sequence of messages it delivered, and an HTTP answer is a parameter.
- Only the first of the two copies of `Comdex/actionhandler.py` in the file (lines 1-1686) is modelled.
- Numbers are integers in JSON text, and reals only in the SHIELD arithmetic. `json.loads` refuses fractions and
  exponents, and string escapes are not modelled.
- Geometry (`georel`, shapely) is a parameter `geo`, and dereferencing a JSON-LD context is a parameter `web`.
- Reader.Retained: a `GET` collects deliveries in arrival order. Out-of-order delivery across topics is not modelled.
- Subscriptions.OnAdvertisement: the listener processes started per advertisement are recorded as effects. An empty
  advertisement for a key with no listeners on file raises `KeyError` after `advertisement_exists` has dropped the
  key; the model returns that error with the key forgotten and no kill effects.
- Writer.PostEntity: an entity with no attributes leaves `time_rels` unbound, so publishing its advertisement raises.
  This is modelled as the error, not as a partial broker state.
- Writer.PostEntity: one clock reading `now` serves every attribute's lineage messages and the advertisement. The
  source reads the clock once per attribute (`Comdex/actionhandler.py:253`) and the advertisement carries the last
  reading, so the model does not say that different attributes may carry different times.
- GetCommand.ParseGetRuns: an empty query string yields the key `''`, which no branch recognises, so the command
  stops. That is all the model says about it.
- ContextExchange.GetList: a `limit` argument reaches an undefined name and raises `NameError`. Only the no-limit
  path is modelled beyond that error.
- ContextExchange.StoreContextPlan: the loop over other federations never runs, and every `"x" or "y" in types` test
  is always true. The plan records both as written.
- PolicyStore.MonitorStore, PolicyStore.ManagerStore: the two `store_policy` copies differ. Both are modelled
  separately.
- PolicyStore.PublisherOf: a message whose user properties lack `PublisherID` leaves `publisher_ID` unbound, and the
  `NameError` it raises is caught and printed by the `except Exception` at `CCDUIT/policy_monitoring.py:419`. The
  model returns that error and does not model the printing.
- Interaction.ValidateReceiving: the `elif federation_can_receive` branch is unreachable, because both flags are always
  set together.
- Interaction.BareInteractionId: the URN prefix is stripped once per call, including where a caller has already
  stripped it.
- `delete_policy` and the policy-listing helpers of `Policy_Management_Service.py` only wrap an HTTP call, so they are
  not modelled.
- AttackGraph.Dedup: `list(set(...))` has an unspecified order. The model uses first-occurrence order, and every
  contract about it speaks only of membership and distinctness.
- `generate_paths` in `SHIELD/src/attack_graph.py` enumerates simple paths with networkx, so it is not modelled.
  `analyze_paths` takes the paths as input.
- AttackGraph.AddEdge: an edge is skipped when its reverse is already present, so the built graph can hold a
  privilege-to-vulnerability edge in either direction. `Chained` states the exploit chain up to direction.
- AttackGraph.VersionsDisagree: a record scored by its CVSS v3 metric still takes its privileges from its v2 metric.
  This is recorded as written.
- Mitigation.ForKey: the message `sender:<src>@<strategies>` is built but never sent, because `publishSecMsg` takes
  no message. Only the command is modelled.
- PubSub.PublishSecMsg: the security message goes to the publisher's operational topic. This is recorded as written.
- PubSub routing is proved for addressees without capitals, `.` or `/` (`Plain`). Other addressees can select a
  different branch, and that is not characterised.
- `run()` in `SHIELD/src/srcEx/pub.py` calls `publishUnsub()` and `publishSub()` without arguments, so it would
  raise. It is a driver and is not modelled.
- The device-community lookup `findCommunity` in `SHIELD/src/srcEx/sub.py` and the timestamp parser are parameters.

## Findings

| source | as written | input that shows it | evidently intended | confidence | as-written member | corrected member |
|---|---|---|---|---|---|---|
| Comdex/actionhandler.py:377-381 | the page drops on `len(messages_by_id) == limit + 1`, so every delivery arriving while the id count equals `limit + 1` is dropped, and a delivery that opens a further id is kept again | limit 1 and entities A, B, C: A and C are kept | `>=`: at most `limit` entities | not executed | Reader.GetKeepsPastLimit | Reader.GetFixedBound |
| Comdex/actionhandler.py:657-684 | the scanner cuts `a>=5` at the lone `>`, leaving the literal `=5` | `GET ... q=temp>=5` on a value of 7 | `>=` and `<=` compare numerically | not executed | Query.GreaterEqualMisread | Query.GreaterEqualCompares |
| Comdex/actionhandler.py:251-465 | attribute values are published with `str()` and read with a quote swap and `json.loads` | the property `{"value": True, "type": "Property"}` reads back as a `ValueError` | publish with `json.dumps` | not executed | JsonText.StrPayloadLosesBoolean | JsonText.DumpsPayloadReadsBack |
| Comdex/actionhandler.py:1575-1619 | a request without an id puts `#` in the id level, before the attribute level | `GET/entities/?type=T&attrs=a` builds the filter `<area>/entities/<H>/T/+/#/a`, which is not a valid MQTT filter | `+` for the open id | not executed | GetCommand.NoIdFiltersInvalid | GetCommand.FixedFiltersValid |
| Comdex/actionhandler.py:1636-1641 | batch delete retracts the coarse advertisement through the filter `provider/<broker>/<port>/<area>/<H>/<type>/+`, one level deeper than the six-level advertisement, so it never matches; the type test `tc` it computes is never used | deleting the last entity of a type leaves its advertisement | retract the type's advertisement once no entity of the type is left, as the single delete does | not executed | EntityCommands.BatchDeleteKeepsAdvertisement | EntityCommands.BatchDeleteFixedRetractsAdvertisement |
| Comdex/actionhandler.py:1674 | `json.lo+ad(jf)` adds an attribute lookup to a function | any `entityOperations/upsert` | `json.load(jf)` | not executed | EntityCommands.UpsertNeverWrites | EntityCommands.BatchUpsertFixed |
| CCDUIT/Context_Exchange_Service.py:36-58 | `federation_id in community["partOfFederation"]["object"]` on a string tests substrings | `Fed1` lists a community of `Fed10` | compare URNs for equality | not executed | ContextExchange.ListsCommunityOfOtherFederation | ContextExchange.FixedSkipsOtherFederation |
| CCDUIT/Function_Management_Service.py:189-194 | the recursive call passes three arguments to a two-parameter function | functions `ifc -> ttl` and `ttl -> ngsild`, query `ifc -> ngsild`: the call raises `TypeError` | search the chain with the same list | not executed | FunctionManagement.ChainNeverFound | FunctionManagement.FixedFindsChain |
| CCDUIT/Interaction_Handling_Service.py:517-520 | `flag == True or flag.lower() == "true"` calls `lower` on a boolean | a rule `{"Fed2": {"canReceive": False}}` raises `AttributeError` | `str(flag).lower()` as in `validate_Recieving` | not executed | Interaction.FalseFlagRaises | Interaction.ReceiveFlagFixed |
| CCDUIT/Initiate_Collaboration_Service.py:194-196 | `"urn:ngsi-ld:Federation:{receiver_Fed_ID}"` lacks the `f` prefix | a policy provided by the receiver is offered back to it | an f-string with the receiver | not executed | Collaboration.LiteralMissesReceiver | Collaboration.FormattedExcludesReceiver |
| SHIELD/src/mitigation.py:46-49 | the filtered `mitigationsDev` is built but `mitigations` is returned | a mitigation for a CVE the device lacks is returned | `return mitigationsDev` | not executed | Mitigation.UnrelatedMitigationReturned | Mitigation.MitigationsByDevFixed |
