// The Redis stream messages: the field list the API writes, the API's readers,
// and the worker's reader, on replies as redis::Value trees.

module StreamCodec {
  import opened Options
  import opened Numerals

  /** redis::Value, as far as the readers tell values apart. Bulk carries the text
      its bytes decode to. */
  datatype Value = Nil | Int(n: int) | Bulk(text: string) | Simple(text: string) | Array(items: seq<Value>)

  type Fields = map<string, string>

  /** serde_json for one type: a printer and a parser. */
  datatype Json<!J> = Json(show: J -> string, read: string -> Option<J>)

  ghost predicate Lawful<J(!new)>(json: Json<J>) {
    json.read("") == None && forall j :: json.read(json.show(j)) == Some(j)
  }

  datatype Message<J> = Message(
    deliveryId: string,
    endpointId: string,
    endpointUrl: string,
    payload: string,
    customHeaders: Option<J>,
    signingSecret: string,
    traceId: Option<string>,
    attemptCount: int,
    maxAttempts: int,
    queueItemId: string)

  const STREAM_KEY: string := "hooksniff:webhooks"

  // ----------------------------------------------------------------- writing

  datatype Pair = Pair(key: string, value: string)

  /** The field list of enqueue's XADD. */
  function FieldList<J>(json: Json<J>, m: Message<J>): seq<Pair> {
    [ Pair("delivery_id", m.deliveryId),
      Pair("endpoint_id", m.endpointId),
      Pair("url", m.endpointUrl),
      Pair("payload", m.payload),
      Pair("headers", if m.customHeaders.Some? then json.show(m.customHeaders.value) else ""),
      Pair("signing_secret", m.signingSecret),
      Pair("trace_id", if m.traceId.Some? then m.traceId.value else ""),
      Pair("attempt", Print(m.attemptCount)),
      Pair("max_attempts", Print(m.maxAttempts)),
      Pair("queue_item_id", m.queueItemId) ]
  }

  function Flat(pairs: seq<Pair>): seq<Value> {
    if pairs == [] then []
    else Flat(pairs[..|pairs| - 1]) + [Bulk(pairs[|pairs| - 1].key), Bulk(pairs[|pairs| - 1].value)]
  }

  /** How Redis sends a stream entry back. */
  datatype Entry = Entry(id: string, pairs: seq<Pair>)

  function EntryValue(e: Entry): Value {
    Array([Bulk(e.id), Array(Flat(e.pairs))])
  }

  function EntryValues(entries: seq<Entry>): seq<Value> {
    seq(|entries|, i requires 0 <= i < |entries| => EntryValue(entries[i]))
  }

  /** XREADGROUP: one stream with its entries. */
  function ReadReply(entries: seq<Entry>): Value {
    Array([Array([Bulk(STREAM_KEY), Array(EntryValues(entries))])])
  }

  /** XAUTOCLAIM: the next cursor, the claimed entries, the deleted ids. */
  function ClaimReply(cursor: string, entries: seq<Entry>, deleted: seq<string>): Value {
    Array([Bulk(cursor), Array(EntryValues(entries)),
           Array(seq(|deleted|, i requires 0 <= i < |deleted| => Bulk(deleted[i])))])
  }

  // ------------------------------------------------------------ field extraction

  /** The API only takes bulk strings; the worker also takes simple strings. */
  function Text(v: Value, simple: bool): Option<string> {
    match v
    case Bulk(t) => Some(t)
    case Simple(t) => if simple then Some(t) else None
    case _ => None
  }

  function FieldText(v: Value, simple: bool): Option<string> {
    match v
    case Int(n) => Some(Print(n))
    case Nil => Some("")
    case _ => Text(v, simple)
  }

  /** Pairs from left to right, a later key overwriting an earlier one; a pair with
      an unusable side is skipped, and so is a last item without a partner. */
  function FieldsOf(items: seq<Value>, simple: bool): Fields {
    if |items| < 2 then map[]
    else if |items| % 2 == 1 then FieldsOf(items[..|items| - 1], simple)
    else
      var before := FieldsOf(items[..|items| - 2], simple);
      var key := Text(items[|items| - 2], simple);
      var value := FieldText(items[|items| - 1], simple);
      if key.Some? && value.Some? then before[key.value := value.value] else before
  }

  function FieldsIn(v: Value, simple: bool): Fields {
    if v.Array? then FieldsOf(v.items, simple) else map[]
  }

  /** One pair further. */
  lemma FieldsStep(items: seq<Value>, i: nat, simple: bool)
    requires i + 1 < |items| && i % 2 == 0
    ensures var key, value := Text(items[i], simple), FieldText(items[i + 1], simple);
      FieldsOf(items[..i + 2], simple)
      == if key.Some? && value.Some? then FieldsOf(items[..i], simple)[key.value := value.value]
         else FieldsOf(items[..i], simple)
  {
    assert items[..i + 2][..i] == items[..i];
  }

  /** The pair-walking loop of both readers. */
  method ExtractFields(v: Value, simple: bool) returns (fields: Fields)
    ensures fields == FieldsIn(v, simple)
  {
    fields := map[];
    if v.Array? {
      var items := v.items;
      var i := 0;
      while i + 1 < |items|
        invariant 0 <= i <= |items| && i % 2 == 0
        invariant fields == FieldsOf(items[..i], simple)
      {
        FieldsStep(items, i, simple);
        var key := Text(items[i], simple);
        if key.None? {
          i := i + 2;
          continue;
        }
        var value := FieldText(items[i + 1], simple);
        if value.None? {
          i := i + 2;
          continue;
        }
        fields := fields[key.value := value.value];
        i := i + 2;
      }
      if i < |items| {
        assert items[..|items| - 1] == items[..i];
      } else {
        assert items[..i] == items;
      }
    }
  }

  // -------------------------------------------------------------- the API's reader

  function Get(fields: Fields, key: string): string {
    if key in fields then fields[key] else ""
  }

  function Number(fields: Fields, key: string, default: int): int {
    if key in fields then
      match Parse(fields[key], I32_MIN, I32_MAX)
      case Some(n) => n
      case None => default
    else default
  }

  function ToMessage<J>(json: Json<J>, fields: Fields): Option<Message<J>> {
    if "delivery_id" in fields && "endpoint_id" in fields then
      Some(Message(
        fields["delivery_id"],
        fields["endpoint_id"],
        Get(fields, "url"),
        Get(fields, "payload"),
        if "headers" in fields then json.read(fields["headers"]) else None,
        Get(fields, "signing_secret"),
        if Get(fields, "trace_id") == "" then None else Some(fields["trace_id"]),
        Number(fields, "attempt", 0),
        Number(fields, "max_attempts", 5),
        Get(fields, "queue_item_id")))
    else None
  }

  datatype Read<J> = Read(id: string, message: Message<J>)

  function ParseEntry<J>(json: Json<J>, entry: Value): Option<Read<J>> {
    if entry.Array? && |entry.items| >= 2 && entry.items[0].Bulk? then
      match ToMessage(json, FieldsIn(entry.items[1], false))
      case Some(m) => Some(Read(entry.items[0].text, m))
      case None => None
    else None
  }

  function ParseEntries<J>(json: Json<J>, entries: seq<Value>): seq<Read<J>> {
    if entries == [] then []
    else
      var last := ParseEntry(json, entries[|entries| - 1]);
      ParseEntries(json, entries[..|entries| - 1]) + if last.Some? then [last.value] else []
  }

  /** The entry list of one stream of an XREADGROUP reply. */
  function StreamEntries(stream: Value): seq<Value> {
    if stream.Array? && |stream.items| >= 2 && stream.items[1].Array? then stream.items[1].items else []
  }

  function ParseStreams<J>(json: Json<J>, streams: seq<Value>): seq<Read<J>> {
    if streams == [] then []
    else ParseStreams(json, streams[..|streams| - 1]) + ParseEntries(json, StreamEntries(streams[|streams| - 1]))
  }

  function ParseStreamResult<J>(json: Json<J>, reply: Value): seq<Read<J>> {
    if reply.Array? then ParseStreams(json, reply.items) else []
  }

  function ParseAutoclaimResult<J>(json: Json<J>, reply: Value): seq<Read<J>> {
    if reply.Array? && |reply.items| >= 2 && reply.items[1].Array? then ParseEntries(json, reply.items[1].items)
    else []
  }

  lemma ParseStep<J>(json: Json<J>, entries: seq<Value>, j: nat)
    requires j < |entries|
    ensures ParseEntries(json, entries[..j + 1])
            == ParseEntries(json, entries[..j])
               + if ParseEntry(json, entries[j]).Some? then [ParseEntry(json, entries[j]).value] else []
  {
    assert entries[..j + 1][..j] == entries[..j];
  }

  /** The inner loop of parse_stream_result: the entries of one stream. */
  method ReadMessages<J>(json: Json<J>, entries: seq<Value>) returns (messages: seq<Read<J>>)
    ensures messages == ParseEntries(json, entries)
  {
    messages := [];
    for j := 0 to |entries|
      invariant messages == ParseEntries(json, entries[..j])
    {
      ParseStep(json, entries, j);
      var entry := ParseEntry(json, entries[j]);
      if entry.Some? {
        messages := messages + [entry.value];
      }
    }
    assert entries[..|entries|] == entries;
  }

  /** parse_stream_result. */
  method ReadStreamResult<J>(json: Json<J>, reply: Value) returns (messages: seq<Read<J>>)
    ensures messages == ParseStreamResult(json, reply)
  {
    messages := [];
    if reply.Array? {
      var streams := reply.items;
      for i := 0 to |streams|
        invariant messages == ParseStreams(json, streams[..i])
      {
        assert streams[..i + 1][..i] == streams[..i];
        if streams[i].Array? && |streams[i].items| >= 2 && streams[i].items[1].Array? {
          var more := ReadMessages(json, streams[i].items[1].items);
          messages := messages + more;
        }
      }
      assert streams[..|streams|] == streams;
    }
  }

  // ----------------------------------------------------------- the worker's reader

  datatype Raw = Raw(id: string, fields: Fields)

  function RawEntry(entry: Value): Option<Raw> {
    if entry.Array? && |entry.items| >= 2 then
      match Text(entry.items[0], true)
      case Some(id) => Some(Raw(id, FieldsIn(entry.items[1], true)))
      case None => None
    else None
  }

  function RawEntries(entries: seq<Value>): seq<Raw> {
    if entries == [] then []
    else
      var last := RawEntry(entries[|entries| - 1]);
      RawEntries(entries[..|entries| - 1]) + if last.Some? then [last.value] else []
  }

  function RawStreams(streams: seq<Value>): seq<Raw> {
    if streams == [] then []
    else RawStreams(streams[..|streams| - 1]) + RawEntries(StreamEntries(streams[|streams| - 1]))
  }

  function ParseXreadgroup(reply: Value): seq<Raw> {
    if reply.Array? then RawStreams(reply.items) else []
  }

  lemma RawStep(list: seq<Value>, j: nat)
    requires j < |list|
    ensures RawEntries(list[..j + 1])
            == if RawEntry(list[j]).Some? then RawEntries(list[..j]) + [RawEntry(list[j]).value]
               else RawEntries(list[..j])
  {
    assert list[..j + 1][..j] == list[..j];
  }

  /** The inner loop of parse_xreadgroup_response: the entries of one stream. */
  method ReadEntries(list: seq<Value>) returns (entries: seq<Raw>)
    ensures entries == RawEntries(list)
  {
    entries := [];
    for j := 0 to |list|
      invariant entries == RawEntries(list[..j])
    {
      RawStep(list, j);
      if list[j].Array? && |list[j].items| >= 2 {
        var id := Text(list[j].items[0], true);
        if id.Some? {
          var fields := ExtractFields(list[j].items[1], true);
          entries := entries + [Raw(id.value, fields)];
        }
      }
    }
    assert list[..|list|] == list;
  }

  /** parse_xreadgroup_response. */
  method ReadXreadgroup(reply: Value) returns (entries: seq<Raw>)
    ensures entries == ParseXreadgroup(reply)
  {
    entries := [];
    if !reply.Array? {
      return;
    }
    var streams := reply.items;
    for i := 0 to |streams|
      invariant entries == RawStreams(streams[..i])
    {
      assert streams[..i + 1][..i] == streams[..i];
      var list := ReadEntries(StreamEntries(streams[i]));
      entries := entries + list;
    }
    assert streams[..|streams|] == streams;
  }

  // ------------------------------------------------------------ bulk-string replies

  function PairMap(pairs: seq<Pair>): Fields {
    if pairs == [] then map[]
    else PairMap(pairs[..|pairs| - 1])[pairs[|pairs| - 1].key := pairs[|pairs| - 1].value]
  }

  lemma FieldsSnoc(items: seq<Value>, last: Pair, simple: bool)
    requires |items| % 2 == 0
    ensures FieldsOf(items + [Bulk(last.key), Bulk(last.value)], simple)
            == FieldsOf(items, simple)[last.key := last.value]
  {
    assert (items + [Bulk(last.key), Bulk(last.value)])[..|items|] == items;
  }

  lemma {:induction false} FlatFields(pairs: seq<Pair>, simple: bool)
    ensures |Flat(pairs)| == 2 * |pairs|
    ensures FieldsOf(Flat(pairs), simple) == PairMap(pairs)
  {
    if pairs != [] {
      FlatFields(pairs[..|pairs| - 1], simple);
      FieldsSnoc(Flat(pairs[..|pairs| - 1]), pairs[|pairs| - 1], simple);
    }
  }

  predicate HasField(pairs: seq<Pair>, key: string) {
    exists i :: 0 <= i < |pairs| && pairs[i].key == key
  }

  lemma {:induction false} PairMapKeys(pairs: seq<Pair>, key: string)
    ensures key in PairMap(pairs) <==> HasField(pairs, key)
  {
    if pairs != [] {
      var before := pairs[..|pairs| - 1];
      PairMapKeys(before, key);
      assert HasField(pairs, key) <==> HasField(before, key) || pairs[|pairs| - 1].key == key by {
        assert forall i :: 0 <= i < |before| ==> before[i] == pairs[i];
      }
    }
  }

  /** With distinct keys every pair can be looked up. */
  lemma {:induction false} PairMapFinds(pairs: seq<Pair>, i: nat)
    requires i < |pairs| && forall j, k :: 0 <= j < k < |pairs| ==> pairs[j].key != pairs[k].key
    ensures pairs[i].key in PairMap(pairs) && PairMap(pairs)[pairs[i].key] == pairs[i].value
  {
    if i < |pairs| - 1 {
      assert pairs[..|pairs| - 1][i] == pairs[i];
      PairMapFinds(pairs[..|pairs| - 1], i);
    }
  }

  lemma ParseBulkEntry<J>(json: Json<J>, e: Entry)
    ensures ParseEntry(json, EntryValue(e))
            == match ToMessage(json, PairMap(e.pairs))
               case Some(m) => Some(Read(e.id, m))
               case None => None
    ensures RawEntry(EntryValue(e)) == Some(Raw(e.id, PairMap(e.pairs)))
  {
    FlatFields(e.pairs, false);
    FlatFields(e.pairs, true);
  }

  // ------------------------------------------------------------------ round trip

  predicate Width(n: int) {
    I32_MIN <= n <= I32_MAX
  }

  predicate Faithful<J>(m: Message<J>) {
    m.traceId != Some("")
  }

  const KEYS: seq<string> := ["delivery_id", "endpoint_id", "url", "payload", "headers", "signing_secret",
                              "trace_id", "attempt", "max_attempts", "queue_item_id"]

  lemma KeysDiffer()
    ensures forall j, k :: 0 <= j < k < |KEYS| ==> KEYS[j] != KEYS[k]
  {
    assert |"delivery_id"| == 11 && |"endpoint_id"| == 11 && |"url"| == 3 && |"payload"| == 7 && |"headers"| == 7;
    assert |"signing_secret"| == 14 && |"trace_id"| == 8 && |"attempt"| == 7 && |"max_attempts"| == 12;
    assert |"queue_item_id"| == 13;
    assert "delivery_id"[0] != "endpoint_id"[0];
    assert "payload"[0] != "headers"[0] && "payload"[0] != "attempt"[0] && "headers"[0] != "attempt"[0];
  }

  lemma FieldListFinds<J>(json: Json<J>, m: Message<J>, i: nat)
    requires i < |KEYS|
    ensures |FieldList(json, m)| == |KEYS| && FieldList(json, m)[i].key == KEYS[i]
    ensures KEYS[i] in PairMap(FieldList(json, m))
    ensures PairMap(FieldList(json, m))[KEYS[i]] == FieldList(json, m)[i].value
  {
    KeysDiffer();
    var pairs := FieldList(json, m);
    assert forall j :: 0 <= j < |KEYS| ==> pairs[j].key == KEYS[j];
    PairMapFinds(pairs, i);
  }

  /** Reading back what enqueue wrote gives the message, except that an empty trace
      id comes back as none: so exactly the messages without one survive. */
  lemma MessageRoundTrip<J(!new)>(json: Json<J>, m: Message<J>)
    requires Lawful(json) && Width(m.attemptCount) && Width(m.maxAttempts)
    ensures ToMessage(json, PairMap(FieldList(json, m)))
            == Some(if m.traceId == Some("") then m.(traceId := None) else m)
    ensures ToMessage(json, PairMap(FieldList(json, m))) == Some(m) <==> Faithful(m)
  {
    var fields := PairMap(FieldList(json, m));
    forall i | 0 <= i < |KEYS|
      ensures KEYS[i] in fields && fields[KEYS[i]] == FieldList(json, m)[i].value
    {
      FieldListFinds(json, m, i);
    }
    assert KEYS[0] == "delivery_id" && KEYS[1] == "endpoint_id" && KEYS[2] == "url" && KEYS[3] == "payload";
    assert KEYS[4] == "headers" && KEYS[5] == "signing_secret" && KEYS[6] == "trace_id" && KEYS[7] == "attempt";
    assert KEYS[8] == "max_attempts" && KEYS[9] == "queue_item_id";
    ParsePrint(m.attemptCount, I32_MIN, I32_MAX);
    ParsePrint(m.maxAttempts, I32_MIN, I32_MAX);
  }

  /** The stream after a list of enqueues. */
  function Enqueued<J>(json: Json<J>, messages: seq<Read<J>>): seq<Entry> {
    seq(|messages|, i requires 0 <= i < |messages| => Entry(messages[i].id, FieldList(json, messages[i].message)))
  }

  ghost predicate Writable<J>(messages: seq<Read<J>>) {
    forall r :: r in messages ==> Width(r.message.attemptCount) && Width(r.message.maxAttempts)
  }

  /** What the readers make of a message: an empty trace id is lost. */
  function Received<J>(r: Read<J>): Read<J> {
    if r.message.traceId == Some("") then r.(message := r.message.(traceId := None)) else r
  }

  function ReceivedAll<J>(messages: seq<Read<J>>): seq<Read<J>> {
    if messages == [] then []
    else ReceivedAll(messages[..|messages| - 1]) + [Received(messages[|messages| - 1])]
  }

  lemma {:induction false} ReceivedExactly<J>(messages: seq<Read<J>>)
    ensures |ReceivedAll(messages)| == |messages|
    ensures forall i :: 0 <= i < |messages| ==> ReceivedAll(messages)[i] == Received(messages[i])
  {
    if messages != [] {
      ReceivedExactly(messages[..|messages| - 1]);
    }
  }

  lemma EntryRoundTrip<J(!new)>(json: Json<J>, r: Read<J>)
    requires Lawful(json) && Width(r.message.attemptCount) && Width(r.message.maxAttempts)
    ensures ParseEntry(json, EntryValue(Entry(r.id, FieldList(json, r.message)))) == Some(Received(r))
  {
    ParseBulkEntry(json, Entry(r.id, FieldList(json, r.message)));
    MessageRoundTrip(json, r.message);
  }

  lemma EnqueuedSnoc<J>(json: Json<J>, messages: seq<Read<J>>)
    requires messages != []
    ensures var before, last := messages[..|messages| - 1], messages[|messages| - 1];
      EntryValues(Enqueued(json, messages))
      == EntryValues(Enqueued(json, before)) + [EntryValue(Entry(last.id, FieldList(json, last.message)))]
  {
  }

  lemma {:induction false} EntriesRoundTrip<J(!new)>(json: Json<J>, messages: seq<Read<J>>)
    requires Lawful(json) && Writable(messages)
    ensures ParseEntries(json, EntryValues(Enqueued(json, messages))) == ReceivedAll(messages)
  {
    if messages != [] {
      var before, last := messages[..|messages| - 1], messages[|messages| - 1];
      EntriesRoundTrip(json, before);
      EnqueuedSnoc(json, messages);
      EntryRoundTrip(json, last);
      var values := EntryValues(Enqueued(json, messages));
      assert values[..|values| - 1] == EntryValues(Enqueued(json, before));
    }
  }

  lemma OneStream<J>(json: Json<J>, entries: seq<Entry>)
    ensures ParseStreamResult(json, ReadReply(entries)) == ParseEntries(json, EntryValues(entries))
  {
    var stream := Array([Bulk(STREAM_KEY), Array(EntryValues(entries))]);
    assert [stream][..0] == [];
    assert ParseStreams(json, [stream]) == ParseStreams(json, []) + ParseEntries(json, StreamEntries(stream));
  }

  /** Any batch of enqueued messages is read back, ids and contents, in order:
      unchanged exactly when no message carries an empty trace id. */
  lemma StreamRoundTrip<J(!new)>(json: Json<J>, messages: seq<Read<J>>)
    requires Lawful(json) && Writable(messages)
    ensures ParseStreamResult(json, ReadReply(Enqueued(json, messages))) == ReceivedAll(messages)
    ensures ReceivedAll(messages) == messages <==> forall r :: r in messages ==> Faithful(r.message)
  {
    EntriesRoundTrip(json, messages);
    OneStream(json, Enqueued(json, messages));
    Unchanged(messages);
  }

  lemma Unchanged<J>(messages: seq<Read<J>>)
    ensures ReceivedAll(messages) == messages <==> forall r :: r in messages ==> Faithful(r.message)
  {
    ReceivedExactly(messages);
    forall i | 0 <= i < |messages|
      ensures ReceivedAll(messages)[i] == messages[i] <==> Faithful(messages[i].message)
    {
    }
  }

  /** The same messages come back when they are claimed instead of read. */
  lemma ClaimRoundTrip<J(!new)>(json: Json<J>, cursor: string, messages: seq<Read<J>>, deleted: seq<string>)
    requires Lawful(json) && Writable(messages)
    ensures ParseAutoclaimResult(json, ClaimReply(cursor, Enqueued(json, messages), deleted))
            == ParseStreamResult(json, ReadReply(Enqueued(json, messages)))
  {
    EntriesRoundTrip(json, messages);
    OneStream(json, Enqueued(json, messages));
  }

  /** An entry is read as a message exactly if both names are among its pairs. */
  lemma EntryIsRead<J>(json: Json<J>, e: Entry)
    ensures ParseEntry(json, EntryValue(e)).Some? <==> Complete(e)
    ensures Complete(e) ==> ParseEntry(json, EntryValue(e)).value.id == e.id
  {
    ParseBulkEntry(json, e);
    PairMapKeys(e.pairs, "delivery_id");
    PairMapKeys(e.pairs, "endpoint_id");
  }

  predicate Complete(e: Entry) {
    HasField(e.pairs, "delivery_id") && HasField(e.pairs, "endpoint_id")
  }

  /** The wire format: the ten names, and how each value is read. */
  lemma WireFormat<J>(json: Json<J>, id: string, values: seq<string>)
    requires |values| == 10
    ensures ParseEntry(json, EntryValue(Entry(id, Wire(values))))
            == Some(Read(id, Message(
                 values[0], values[1], values[2], values[3], json.read(values[4]), values[5],
                 if values[6] == "" then None else Some(values[6]),
                 match Parse(values[7], -0x8000_0000, 0x7fff_ffff) case Some(n) => n case None => 0,
                 match Parse(values[8], -0x8000_0000, 0x7fff_ffff) case Some(n) => n case None => 5,
                 values[9])))
  {
    ParseBulkEntry(json, Entry(id, Wire(values)));
    var fields := PairMap(Wire(values));
    forall i | 0 <= i < 10
      ensures KEYS[i] in fields && fields[KEYS[i]] == values[i]
    {
      WireFinds(values, i);
    }
    assert KEYS[0] == "delivery_id" && KEYS[1] == "endpoint_id" && KEYS[2] == "url" && KEYS[3] == "payload";
    assert KEYS[4] == "headers" && KEYS[5] == "signing_secret" && KEYS[6] == "trace_id" && KEYS[7] == "attempt";
    assert KEYS[8] == "max_attempts" && KEYS[9] == "queue_item_id";
  }

  function Wire(values: seq<string>): seq<Pair>
    requires |values| == 10
  {
    [ Pair("delivery_id", values[0]), Pair("endpoint_id", values[1]), Pair("url", values[2]),
      Pair("payload", values[3]), Pair("headers", values[4]), Pair("signing_secret", values[5]),
      Pair("trace_id", values[6]), Pair("attempt", values[7]), Pair("max_attempts", values[8]),
      Pair("queue_item_id", values[9]) ]
  }

  lemma WireFinds(values: seq<string>, i: nat)
    requires |values| == 10 && i < 10
    ensures KEYS[i] in PairMap(Wire(values)) && PairMap(Wire(values))[KEYS[i]] == values[i]
  {
    KeysDiffer();
    assert forall j :: 0 <= j < 10 ==> Wire(values)[j].key == KEYS[j] && Wire(values)[j].value == values[j];
    PairMapFinds(Wire(values), i);
  }

  /** Values that are no bulk strings: integers are printed, nil is empty, nested arrays
      and names that are no text are skipped, and so is a last item without a partner;
      only the worker takes simple strings. */
  lemma OddValues(name: string, text: string, n: int, v: Value)
    ensures FieldsIn(Array([Bulk(name), Int(n)]), false) == map[name := Print(n)]
    ensures FieldsIn(Array([Bulk(name), Nil]), false) == map[name := ""]
    ensures FieldsIn(Array([Bulk(name), Array([])]), false) == map[]
    ensures FieldsIn(Array([Nil, Bulk(text)]), false) == map[] == FieldsIn(Array([Int(n), Bulk(text)]), true)
    ensures FieldsIn(Array([Bulk(name), Bulk(text), v]), false) == map[name := text]
    ensures FieldsIn(Array([Simple(name), Simple(text)]), true) == map[name := text]
    ensures FieldsIn(Array([Simple(name), Bulk(text)]), false) == map[]
            == FieldsIn(Array([Bulk(name), Simple(text)]), false)
  {
    PairAlone(Bulk(name), Int(n), false);
    PairAlone(Bulk(name), Nil, false);
    PairAlone(Bulk(name), Array([]), false);
    PairAlone(Nil, Bulk(text), false);
    PairAlone(Int(n), Bulk(text), true);
    PairAlone(Simple(name), Simple(text), true);
    PairAlone(Simple(name), Bulk(text), false);
    PairAlone(Bulk(name), Simple(text), false);
    PairAlone(Bulk(name), Bulk(text), false);
    assert [Bulk(name), Bulk(text), v][..2] == [Bulk(name), Bulk(text)];
  }

  lemma PairAlone(key: Value, value: Value, simple: bool)
    ensures FieldsOf([key, value], simple)
            == if Text(key, simple).Some? && FieldText(value, simple).Some?
               then map[Text(key, simple).value := FieldText(value, simple).value] else map[]
  {
    assert [key, value][..0] == [];
  }

  /** The least entry that is read, and the values of everything it leaves out. */
  lemma LeastMessage<J>(json: Json<J>, id: string, d: string, e: string)
    ensures ParseEntry(json, EntryValue(Entry(id, [Pair("delivery_id", d), Pair("endpoint_id", e)])))
            == Some(Read(id, Message(d, e, "", "", None, "", None, 0, 5, "")))
  {
    var one, two := [Pair("delivery_id", d)], [Pair("delivery_id", d), Pair("endpoint_id", e)];
    ParseBulkEntry(json, Entry(id, two));
    assert two[..1] == one && one[..0] == [];
    assert PairMap(one) == map["delivery_id" := d];
    KeysDiffer();
    LeastFields(json, d, e);
  }

  lemma LeastFields<J>(json: Json<J>, d: string, e: string)
    ensures ToMessage(json, map["delivery_id" := d]["endpoint_id" := e])
            == Some(Message(d, e, "", "", None, "", None, 0, 5, ""))
  {
  }

  // ------------------------------------------------------- the two readers agree

  /** No simple strings anywhere: Redis sends ids, names and values as bulk strings. */
  predicate NoSimple(v: Value) {
    !v.Simple? && (v.Array? ==> forall i :: 0 <= i < |v.items| ==> NoSimple(v.items[i]))
  }

  lemma {:induction false} SameFields(items: seq<Value>)
    requires forall i :: 0 <= i < |items| ==> NoSimple(items[i])
    ensures FieldsOf(items, true) == FieldsOf(items, false)
    decreases |items|
  {
    if |items| >= 2 {
      if |items| % 2 == 1 {
        SameFields(items[..|items| - 1]);
      } else {
        SameFields(items[..|items| - 2]);
        assert NoSimple(items[|items| - 2]) && NoSimple(items[|items| - 1]);
      }
    }
  }

  /** What the API makes of the worker's raw entries. */
  function Select<J>(json: Json<J>, raw: seq<Raw>): seq<Read<J>> {
    if raw == [] then []
    else
      var last := raw[|raw| - 1];
      Select(json, raw[..|raw| - 1])
      + match ToMessage(json, last.fields)
        case Some(m) => [Read(last.id, m)]
        case None => []
  }

  lemma {:induction false} SelectConcat<J>(json: Json<J>, a: seq<Raw>, b: seq<Raw>)
    ensures Select(json, a + b) == Select(json, a) + Select(json, b)
  {
    if b == [] {
      assert a + b == a;
    } else {
      assert (a + b)[..|a + b| - 1] == a + b[..|b| - 1];
      SelectConcat(json, a, b[..|b| - 1]);
    }
  }

  lemma SelectOne<J>(json: Json<J>, r: Raw)
    ensures Select(json, [r]) == match ToMessage(json, r.fields) case Some(m) => [Read(r.id, m)] case None => []
  {
    assert [r][..0] == [];
  }

  lemma EntryAgrees<J>(json: Json<J>, entry: Value)
    requires NoSimple(entry)
    ensures var raw := RawEntry(entry);
      ParseEntry(json, entry)
      == if raw.None? then None
         else match ToMessage(json, raw.value.fields)
              case Some(m) => Some(Read(raw.value.id, m))
              case None => None
  {
    if entry.Array? && |entry.items| >= 2 {
      assert NoSimple(entry.items[0]) && NoSimple(entry.items[1]);
      if entry.items[1].Array? {
        SameFields(entry.items[1].items);
      }
    }
  }

  lemma {:induction false} EntriesAgree<J>(json: Json<J>, entries: seq<Value>)
    requires forall i :: 0 <= i < |entries| ==> NoSimple(entries[i])
    ensures ParseEntries(json, entries) == Select(json, RawEntries(entries))
  {
    if entries != [] {
      var last := entries[|entries| - 1];
      EntriesAgree(json, entries[..|entries| - 1]);
      EntryAgrees(json, last);
      var raw := RawEntry(last);
      if raw.Some? {
        SelectConcat(json, RawEntries(entries[..|entries| - 1]), [raw.value]);
        SelectOne(json, raw.value);
      } else {
        assert RawEntries(entries) == RawEntries(entries[..|entries| - 1]);
      }
    }
  }

  lemma {:induction false} StreamsAgree<J>(json: Json<J>, streams: seq<Value>)
    requires forall i :: 0 <= i < |streams| ==> NoSimple(streams[i])
    ensures ParseStreams(json, streams) == Select(json, RawStreams(streams))
  {
    if streams != [] {
      var last := streams[|streams| - 1];
      StreamsAgree(json, streams[..|streams| - 1]);
      if last.Array? && |last.items| >= 2 {
        assert NoSimple(last.items[1]);
      }
      EntriesAgree(json, StreamEntries(last));
      SelectConcat(json, RawStreams(streams[..|streams| - 1]), RawEntries(StreamEntries(last)));
    }
  }

  /** On any reply without simple strings the API's messages are exactly the
      worker's entries that carry a delivery and an endpoint id. */
  lemma ReadersAgree<J>(json: Json<J>, reply: Value)
    requires NoSimple(reply)
    ensures ParseStreamResult(json, reply) == Select(json, ParseXreadgroup(reply))
  {
    if reply.Array? {
      StreamsAgree(json, reply.items);
    }
  }

  // ---------------------------------------------------------------- claimed entries

  function ClaimedRaw(entries: seq<Entry>): seq<Raw> {
    seq(|entries|, i requires 0 <= i < |entries| => Raw(entries[i].id, PairMap(entries[i].pairs)))
  }

  lemma ParseSnoc<J>(json: Json<J>, before: seq<Value>, e: Entry)
    ensures ParseEntries(json, before + [EntryValue(e)])
            == ParseEntries(json, before) + Select(json, [Raw(e.id, PairMap(e.pairs))])
  {
    ParseBulkEntry(json, e);
    SelectOne(json, Raw(e.id, PairMap(e.pairs)));
    assert (before + [EntryValue(e)])[..|before|] == before;
  }

  lemma Snoc(entries: seq<Entry>)
    requires entries != []
    ensures var before, last := entries[..|entries| - 1], entries[|entries| - 1];
      EntryValues(entries) == EntryValues(before) + [EntryValue(last)]
      && ClaimedRaw(entries) == ClaimedRaw(before) + [Raw(last.id, PairMap(last.pairs))]
  {
  }

  lemma {:induction false} BulkEntries<J>(json: Json<J>, entries: seq<Entry>)
    ensures ParseEntries(json, EntryValues(entries)) == Select(json, ClaimedRaw(entries))
  {
    if entries != [] {
      var before, last := entries[..|entries| - 1], entries[|entries| - 1];
      BulkEntries(json, before);
      ParseSnoc(json, EntryValues(before), last);
      SelectConcat(json, ClaimedRaw(before), [Raw(last.id, PairMap(last.pairs))]);
      Snoc(entries);
    }
  }

  /** The API recovers the claimed entries in order, as messages. */
  lemma ClaimRecovers<J>(json: Json<J>, cursor: string, entries: seq<Entry>, deleted: seq<string>)
    ensures ParseAutoclaimResult(json, ClaimReply(cursor, entries, deleted)) == Select(json, ClaimedRaw(entries))
  {
    BulkEntries(json, entries);
  }

  function Ids<J>(messages: seq<Read<J>>): seq<string> {
    if messages == [] then [] else Ids(messages[..|messages| - 1]) + [messages[|messages| - 1].id]
  }

  function CompleteIds(entries: seq<Entry>): seq<string> {
    if entries == [] then []
    else
      var last := entries[|entries| - 1];
      CompleteIds(entries[..|entries| - 1]) + if Complete(last) then [last.id] else []
  }

  lemma {:induction false} ReadIds<J>(json: Json<J>, entries: seq<Entry>)
    ensures Ids(ParseEntries(json, EntryValues(entries))) == CompleteIds(entries)
  {
    if entries != [] {
      var before, last := entries[..|entries| - 1], entries[|entries| - 1];
      ReadIds(json, before);
      EntryIsRead(json, last);
      Snoc(entries);
      ReadSnoc(json, EntryValues(before), EntryValue(last));
    }
  }

  lemma ReadSnoc<J>(json: Json<J>, before: seq<Value>, v: Value)
    ensures Ids(ParseEntries(json, before + [v]))
            == Ids(ParseEntries(json, before))
               + if ParseEntry(json, v).Some? then [ParseEntry(json, v).value.id] else []
  {
    assert (before + [v])[..|before|] == before;
    var read := ParseEntries(json, before);
    if ParseEntry(json, v).Some? {
      assert (read + [ParseEntry(json, v).value])[..|read|] == read;
    } else {
      assert ParseEntries(json, before + [v]) == read;
    }
  }

  /** And exactly those that have both ids: no other, none twice, none out of order. */
  lemma ClaimRecoversExactly<J>(json: Json<J>, cursor: string, entries: seq<Entry>, deleted: seq<string>)
    ensures Ids(ParseAutoclaimResult(json, ClaimReply(cursor, entries, deleted))) == CompleteIds(entries)
  {
    ReadIds(json, entries);
  }

  lemma RawSkip(streams: seq<Value>, last: Value)
    requires StreamEntries(last) == []
    ensures RawStreams(streams + [last]) == RawStreams(streams)
  {
    assert (streams + [last])[..|streams|] == streams;
  }

  lemma RawOne(stream: Value)
    ensures RawStreams([stream]) == RawEntries(StreamEntries(stream))
  {
    assert [stream][..0] == [];
  }

  lemma RawPair(a: Value, b: Value)
    requires StreamEntries(a) == []
    ensures RawStreams([a, b]) == RawEntries(StreamEntries(b))
  {
    RawOne(a);
    assert [a, b][..1] == [a];
  }

  lemma RawMiddle(a: Value, b: Value, c: Value)
    requires StreamEntries(a) == [] == StreamEntries(c)
    ensures RawStreams([a, b, c]) == RawEntries(StreamEntries(b))
  {
    RawPair(a, b);
    RawSkip([a, b], c);
    assert [a, b] + [c] == [a, b, c];
  }

  /** The worker hands the claim reply to its XREADGROUP reader, which takes the
      entry list for a stream: it finds at most one "entry", named after the first
      field of the second claimed entry, and without any field. */
  lemma WorkerMisreadsClaim(cursor: string, entries: seq<Entry>, deleted: seq<string>)
    ensures ParseXreadgroup(ClaimReply(cursor, entries, deleted))
            == if |entries| >= 2 && entries[1].pairs != [] then [Raw(entries[1].pairs[0].key, map[])] else []
  {
    var items := ClaimReply(cursor, entries, deleted).items;
    RawMiddle(items[0], items[1], items[2]);
    ClaimedAsStream(entries);
  }

  lemma ClaimedAsStream(entries: seq<Entry>)
    ensures RawEntries(StreamEntries(Array(EntryValues(entries))))
            == if |entries| >= 2 && entries[1].pairs != [] then [Raw(entries[1].pairs[0].key, map[])] else []
  {
    if |entries| >= 2 {
      SecondEntryAsList(entries[1]);
    }
  }

  lemma SecondEntryAsList(e: Entry)
    ensures RawEntries([Bulk(e.id), Array(Flat(e.pairs))])
            == if e.pairs != [] then [Raw(e.pairs[0].key, map[])] else []
  {
    RawTwo(Bulk(e.id), Array(Flat(e.pairs)));
    FlatAsEntry(e.pairs);
  }

  lemma RawTwo(id: Value, rest: Value)
    requires id.Bulk?
    ensures RawEntries([id, rest]) == if RawEntry(rest).Some? then [RawEntry(rest).value] else []
  {
    assert [id, rest][..1] == [id] && [id][..0] == [];
    assert RawEntry(id) == None;
    assert RawEntries([id]) == RawEntries([]);
  }

  /** A flat field list taken for an entry: the id is the first name, and the
      fields, a string, are none. */
  lemma FlatAsEntry(pairs: seq<Pair>)
    ensures RawEntry(Array(Flat(pairs))) == if pairs != [] then Some(Raw(pairs[0].key, map[])) else None
  {
    if pairs != [] {
      FlatHead(pairs);
      assert FieldsIn(Bulk(pairs[0].value), true) == map[];
    }
  }

  lemma {:induction false} FlatHead(pairs: seq<Pair>)
    requires pairs != []
    ensures |Flat(pairs)| >= 2 && Flat(pairs)[0] == Bulk(pairs[0].key) && Flat(pairs)[1] == Bulk(pairs[0].value)
  {
    if |pairs| > 1 {
      FlatHead(pairs[..|pairs| - 1]);
    }
  }

  /** So no claimed entry is recovered by the worker, whenever ids are not field names. */
  lemma WorkerRecoversNothing(cursor: string, entries: seq<Entry>, deleted: seq<string>, i: nat, r: Raw)
    requires i < |entries| && r in ParseXreadgroup(ClaimReply(cursor, entries, deleted))
    requires forall e, p :: e in entries && p in e.pairs ==> p.key != entries[i].id
    ensures r.id != entries[i].id && r.fields == map[]
  {
    WorkerMisreadsClaim(cursor, entries, deleted);
    assert entries[1] in entries && entries[1].pairs[0] in entries[1].pairs;
  }
}
