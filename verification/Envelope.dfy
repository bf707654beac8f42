/** Decoding a delivery into a task message, and the two envelopes the worker publishes it in again. */
module Envelope {
  import opened Registry
  import opened Text

  /** The printed form of a value that is neither text nor an integer: never blank or padded. */
  type Printed = s: string | s != "" && Trimmed(s) witness "?"

  /** A header or JSON value. Text from bytes is what decoding them yields. */
  datatype Value = Null | Str(text: string) | Bytes(text: string) | Num(n: int) | Other(printed: Printed)

  type Fields = map<string, Value>

  function Field(m: Fields, name: string): Value { if name in m then m[name] else Null }

  // ----- Coercion -----

  function NonBlank(s: string): Option<string> { if Strip(s) == "" then None else Some(Strip(s)) }

  function CoerceString(v: Value): Option<string> {
    match v
    case Null => None
    case Str(s) => NonBlank(s)
    case Bytes(s) => NonBlank(s)
    case Num(n) => Some(Decimal(n))
    case Other(p) => Some(p)
  }

  /** How integers are read from other values: by `int` for headers, by the message schema for fields. */
  datatype Readers = Readers(coerce: Value -> Option<int>, validate: Value -> Option<int>)

  /** Both readers take an integer as it is, and nothing can be read from an absent value. */
  ghost predicate ReadsIntegers(r: Readers) {
    && (forall n :: r.coerce(Num(n)) == Some(n) && r.validate(Num(n)) == Some(n))
    && r.coerce(Null) == None && r.validate(Null) == None
  }

  function CoerceInt(r: Readers, v: Value, fallback: Value): Option<int> {
    if r.coerce(v).Some? then r.coerce(v) else r.coerce(fallback)
  }

  function Either<T>(a: Option<T>, b: Option<T>): Option<T> { if a.Some? then a else b }

  // ----- Messages -----

  datatype Kind = AnalysisTask | JobPostingTask

  function KindText(k: Kind): string { if k == AnalysisTask then "ANALYSIS" else "JOB_POSTING_INGEST" }

  /** The fields of a message other than the named ones, validated. */
  type Rest(==, !new)

  /** How the remaining body fields are validated and written back. */
  datatype RestCodec = RestCodec(read: (Kind, Fields) -> Option<Rest>, write: (Kind, Rest) -> Fields)

  const NAMED: set<string> := {"messageId", "requestId", "taskType", "taskId", "userId", "retryCount", "maxRetryCount"}

  /** Writing validated fields and reading them gives them back; neither touches the named fields. */
  ghost predicate RoundTrips(c: RestCodec) {
    && (forall k, x :: c.read(k, c.write(k, x)) == Some(x))
    && (forall k, x :: c.write(k, x).Keys !! NAMED)
  }

  datatype TaskMessage = TaskMessage(messageId: string, requestId: string, kind: Kind, taskId: string, userId: int,
                                     retryCount: int, maxRetryCount: int, rest: Rest)

  /** A delivery: its body's fields, its headers and its message-id property. */
  datatype Delivery = Delivery(body: Fields, headers: Fields, messageId: Value)

  datatype Decoder = Decoder(readers: Readers, codec: RestCodec)

  ghost predicate Faithful(d: Decoder) { ReadsIntegers(d.readers) && RoundTrips(d.codec) }

  // ----- Decoding -----

  datatype Context = Context(requestId: string, taskId: Option<string>, messageId: Option<string>,
                             taskType: Option<string>,
                             retryCount: Option<int>)

  /** Headers come before the message-id property, and that before the body; a missing request id is generated. */
  function ExtractContext(r: Readers, m: Delivery, generated: string): Context {
    Context(
      (match Either(CoerceString(Field(m.headers, "x-request-id")), CoerceString(Field(m.body, "requestId")))
       case Some(s) => s
       case None => generated),
      Either(CoerceString(Field(m.headers, "x-task-id")), CoerceString(Field(m.body, "taskId"))),
      Either(CoerceString(Field(m.headers, "x-message-id")),
             Either(CoerceString(m.messageId), CoerceString(Field(m.body, "messageId")))),
      Either(CoerceString(Field(m.headers, "x-task-type")), CoerceString(Field(m.body, "taskType"))),
      CoerceInt(r, Field(m.headers, "x-retry-count"), Field(m.body, "retryCount")))
  }

  function Enriched(body: Fields, c: Context): Fields {
    var b1 := body["requestId" := Str(c.requestId)];
    var b2 := if c.messageId.Some? then b1["messageId" := Str(c.messageId.value)] else b1;
    var b3 := if c.taskId.Some? then b2["taskId" := Str(c.taskId.value)] else b2;
    var b4 := if c.taskType.Some? then b3["taskType" := Str(c.taskType.value)] else b3;
    if c.retryCount.Some? then b4["retryCount" := Num(c.retryCount.value)] else b4
  }

  /** An integer field that may be missing. */
  function Count(r: Readers, m: Fields, name: string): Option<int> {
    if name in m then r.validate(m[name]) else Some(0)
  }

  /** Schema validation of the enriched body: the analysis schema for that task type, else the job posting one. */
  function Validate(d: Decoder, b: Fields): Option<TaskMessage> {
    var kind := if Field(b, "taskType") == Str("ANALYSIS") then AnalysisTask else JobPostingTask;
    var userId := d.readers.validate(Field(b, "userId"));
    var retryCount := Count(d.readers, b, "retryCount");
    var maxRetryCount := Count(d.readers, b, "maxRetryCount");
    var rest := d.codec.read(kind, b - NAMED);
    if Field(b, "taskType") == Str(KindText(kind)) && Field(b, "messageId").Str? && Field(b, "requestId").Str?
       && Field(b, "taskId").Str? && userId.Some? && retryCount.Some? && maxRetryCount.Some? && rest.Some?
    then Some(TaskMessage(Field(b, "messageId").text, Field(b, "requestId").text, kind, Field(b, "taskId").text,
                          userId.value, retryCount.value, maxRetryCount.value, rest.value))
    else None
  }

  function Decode(d: Decoder, m: Delivery, generated: string): Option<TaskMessage> {
    Validate(d, Enriched(m.body, ExtractContext(d.readers, m, generated)))
  }

  // ----- Publishing again -----

  function MessageHeaders(m: TaskMessage, retryCount: int): Fields {
    map["x-request-id" := Str(m.requestId), "x-task-id" := Str(m.taskId), "x-task-type" := Str(KindText(m.kind)),
        "x-retry-count" := Num(retryCount), "x-message-id" := Str(m.messageId)]
  }

  function Body(d: Decoder, m: TaskMessage): Fields {
    d.codec.write(m.kind, m.rest) +
    map["messageId" := Str(m.messageId), "requestId" := Str(m.requestId), "taskType" := Str(KindText(m.kind)),
        "taskId" := Str(m.taskId), "userId" := Num(m.userId), "retryCount" := Num(m.retryCount),
        "maxRetryCount" := Num(m.maxRetryCount)]
  }

  /** The retry copy: the message with its counts changed, re-encoded. */
  function Republished(d: Decoder, m: TaskMessage, retryCount: int, maxRetryCount: int): Delivery {
    var next := m.(retryCount := retryCount, maxRetryCount := maxRetryCount);
    Delivery(Body(d, next), MessageHeaders(m, retryCount), Str(m.messageId))
  }

  /** The DLQ copy: the original body, the original headers overlaid with the message's own. */
  function DeadLetter(original: Delivery, m: TaskMessage): Delivery {
    Delivery(original.body, original.headers + MessageHeaders(m, m.retryCount), Str(m.messageId))
  }

  // ----- Round trips -----

  lemma DigitIsNoSpace(n: nat)
    requires n < 10
    ensures !IsSpace(Digit(n))
  {}

  lemma {:induction false} NaturalTrimmed(n: nat)
    ensures Natural(n) != "" && Trimmed(Natural(n))
  {
    if n < 10 {
      DigitIsNoSpace(n);
    } else {
      NaturalTrimmed(n / 10);
      DigitIsNoSpace(n % 10);
    }
  }

  lemma DecimalTrimmed(n: int)
    ensures Decimal(n) != "" && Trimmed(Decimal(n))
  {
    if n < 0 { NaturalTrimmed(-n); } else { NaturalTrimmed(n); }
  }

  /** Coercing is idempotent: a coerced text is read back as itself. */
  lemma CoercedStays(v: Value)
    ensures CoerceString(v).Some? ==> CoerceString(Str(CoerceString(v).value)) == CoerceString(v)
  {
    match v
    case Null =>
    case Str(s) => StripIdempotent(s);
    case Bytes(s) => StripIdempotent(s);
    case Num(n) => DecimalTrimmed(n); TrimmedStays(Decimal(n));
    case Other(p) => TrimmedStays(p);
  }

  /** What coercing yields: the text of a value without the whitespace around it, nothing for an absent or blank one,
      and the decimal form of an integer. */
  lemma CoercedMeans(v: Value)
    ensures v.Null? ==> CoerceString(v) == None
    ensures v.Str? || v.Bytes? ==> if Spaces(v.text) then CoerceString(v) == None else exists i, j ::
      0 <= i < j <= |v.text| && CoerceString(v) == Some(v.text[i..j])
      && Spaces(v.text[..i]) && Spaces(v.text[j..]) && Trimmed(v.text[i..j])
    ensures v.Num? ==> CoerceString(v).Some? && (v.n >= 0 ==>
      Digits(CoerceString(v).value) && Reading(CoerceString(v).value) == v.n)
    ensures v.Other? ==> CoerceString(v).Some? && CoerceString(v).value == v.printed
  {
    if v.Num? {
      DecimalReads(v.n);
    }
    if v.Str? || v.Bytes? {
      StripBlank(v.text);
      var i, j := StripCut(v.text);
    }
  }

  /** Where the fields of a decoded message come from. */
  ghost predicate Drawn(d: Decoder, body: Fields, c: Context, m: TaskMessage) {
    && m.requestId == c.requestId
    && (if c.taskId.Some? then m.taskId == c.taskId.value else Field(body, "taskId") == Str(m.taskId))
    && (if c.messageId.Some? then m.messageId == c.messageId.value else Field(body, "messageId") == Str(m.messageId))
    && d.readers.validate(Field(body, "userId")) == Some(m.userId)
    && Count(d.readers, body, "maxRetryCount") == Some(m.maxRetryCount)
    && d.codec.read(m.kind, body - NAMED) == Some(m.rest)
  }

  lemma EnrichedFields(body: Fields, c: Context)
    ensures var b := Enriched(body, c);
      && b - NAMED == body - NAMED
      && Field(b, "requestId") == Str(c.requestId)
      && Field(b, "taskId") == (if c.taskId.Some? then Str(c.taskId.value) else Field(body, "taskId"))
      && Field(b, "messageId") == (if c.messageId.Some? then Str(c.messageId.value) else Field(body, "messageId"))
      && Field(b, "taskType") == (if c.taskType.Some? then Str(c.taskType.value) else Field(body, "taskType"))
      && Field(b, "userId") == Field(body, "userId")
      && ("maxRetryCount" in b <==> "maxRetryCount" in body)
      && Field(b, "maxRetryCount") == Field(body, "maxRetryCount")
      && (c.retryCount.Some? ==> "retryCount" in b && b["retryCount"] == Num(c.retryCount.value))
  {}

  lemma ValidatedIsDrawn(d: Decoder, body: Fields, c: Context, m: TaskMessage)
    requires Validate(d, Enriched(body, c)) == Some(m)
    ensures Drawn(d, body, c, m)
  {
    EnrichedFields(body, c);
  }

  /** The first of three values that yields a text. */
  ghost function FirstText(a: Value, b: Value, c: Value): Option<string> {
    if CoerceString(a).Some? then CoerceString(a)
    else if CoerceString(b).Some? then CoerceString(b)
    else CoerceString(c)
  }

  /** The text of an identity: what was found, or what the body has as it is. */
  ghost predicate Named(found: Option<string>, body: Value, text: string) {
    if found.Some? then text == found.value else body == Str(text)
  }

  /** A count of a body: nought if it is missing. */
  ghost predicate Counted(r: Readers, body: Fields, name: string, n: int) {
    if name in body then r.validate(body[name]) == Some(n) else n == 0
  }

  /** What the worker reads out of a delivery. A header comes before the message-id property, and that before the
      body; user id and maximum come from the body alone; a missing request id is generated, a missing count nought. */
  ghost predicate ReadsOut(d: Decoder, m: Delivery, generated: string, t: TaskMessage) {
    && t.requestId == (var found := FirstText(Field(m.headers, "x-request-id"), Null, Field(m.body, "requestId"));
                       if found.Some? then found.value else generated)
    && Named(FirstText(Field(m.headers, "x-task-id"), Null, Field(m.body, "taskId")), Field(m.body, "taskId"), t.taskId)
    && Named(FirstText(Field(m.headers, "x-message-id"), m.messageId, Field(m.body, "messageId")),
             Field(m.body, "messageId"), t.messageId)
    && FirstText(Field(m.headers, "x-task-type"), Null, Field(m.body, "taskType"))
         == Some(if t.kind == AnalysisTask then "ANALYSIS" else "JOB_POSTING_INGEST")
    && (if d.readers.coerce(Field(m.headers, "x-retry-count")).Some?
        then d.readers.coerce(Field(m.headers, "x-retry-count")) == Some(t.retryCount)
        else if d.readers.coerce(Field(m.body, "retryCount")).Some?
        then d.readers.coerce(Field(m.body, "retryCount")) == Some(t.retryCount)
        else Counted(d.readers, m.body, "retryCount", t.retryCount))
    && d.readers.validate(Field(m.body, "userId")) == Some(t.userId)
    && Counted(d.readers, m.body, "maxRetryCount", t.maxRetryCount)
    && d.codec.read(t.kind, m.body - NAMED) == Some(t.rest)
  }

  lemma KindFound(body: Fields, c: Context, kind: Kind)
    requires c.taskType.None? ==> CoerceString(Field(body, "taskType")) == None
    ensures Field(Enriched(body, c), "taskType") == Str(KindText(kind)) <==> c.taskType == Some(KindText(kind))
  {
    EnrichedFields(body, c);
    KindTextStays(kind);
  }

  lemma CountFound(r: Readers, body: Fields, c: Context, n: int)
    requires forall k :: r.validate(Num(k)) == Some(k)
    ensures Count(r, Enriched(body, c), "retryCount") == Some(n) <==>
      (if c.retryCount.Some? then c.retryCount == Some(n) else Counted(r, body, "retryCount", n))
    ensures Count(r, Enriched(body, c), "maxRetryCount") == Some(n) <==> Counted(r, body, "maxRetryCount", n)
  {
    EnrichedFields(body, c);
  }

  /** What validating the enriched body comes to. */
  lemma ValidatesExactly(d: Decoder, body: Fields, c: Context, t: TaskMessage)
    requires ReadsIntegers(d.readers) && (c.taskType.None? ==> CoerceString(Field(body, "taskType")) == None)
    ensures Validate(d, Enriched(body, c)) == Some(t) <==>
      && t.requestId == c.requestId
      && Named(c.taskId, Field(body, "taskId"), t.taskId) && Named(c.messageId, Field(body, "messageId"), t.messageId)
      && c.taskType == Some(KindText(t.kind))
      && (if c.retryCount.Some? then c.retryCount == Some(t.retryCount)
          else Counted(d.readers, body, "retryCount", t.retryCount))
      && Counted(d.readers, body, "maxRetryCount", t.maxRetryCount)
      && d.readers.validate(Field(body, "userId")) == Some(t.userId)
      && d.codec.read(t.kind, body - NAMED) == Some(t.rest)
  {
    EnrichedFields(body, c);
    KindFound(body, c, t.kind);
    CountFound(d.readers, body, c, t.retryCount);
    CountFound(d.readers, body, c, t.maxRetryCount);
  }

  /** Decoding succeeds exactly if there is a message to read out, and then yields that message. */
  lemma DecodesExactly(d: Decoder, m: Delivery, generated: string, t: TaskMessage)
    requires ReadsIntegers(d.readers)
    ensures Decode(d, m, generated) == Some(t) <==> ReadsOut(d, m, generated, t)
  {
    ValidatesExactly(d, m.body, ExtractContext(d.readers, m, generated), t);
  }

  lemma EitherStays(v: Value, w: Option<string>)
    requires w.Some? ==> CoerceString(Str(w.value)) == w
    ensures var e := Either(CoerceString(v), w); e.Some? ==> CoerceString(Str(e.value)) == e
  {
    CoercedStays(v);
  }

  /** Every text the context found reads back as itself. */
  lemma ContextStays(r: Readers, original: Delivery, generated: string)
    requires CoerceString(Str(generated)) == Some(generated)
    ensures var c := ExtractContext(r, original, generated);
      && CoerceString(Str(c.requestId)) == Some(c.requestId)
      && (c.taskId.Some? ==> CoerceString(Str(c.taskId.value)) == c.taskId)
      && (c.messageId.Some? ==> CoerceString(Str(c.messageId.value)) == c.messageId)
  {
    CoercedStays(Field(original.body, "requestId"));
    EitherStays(Field(original.headers, "x-request-id"), CoerceString(Field(original.body, "requestId")));
    CoercedStays(Field(original.body, "taskId"));
    EitherStays(Field(original.headers, "x-task-id"), CoerceString(Field(original.body, "taskId")));
    CoercedStays(Field(original.body, "messageId"));
    EitherStays(original.messageId, CoerceString(Field(original.body, "messageId")));
    EitherStays(Field(original.headers, "x-message-id"),
                Either(CoerceString(original.messageId), CoerceString(Field(original.body, "messageId"))));
  }

  lemma KindTextStays(k: Kind)
    ensures CoerceString(Str(KindText(k))) == Some(KindText(k))
  {
    TrimmedStays(KindText(k));
  }

  /** What decoding yields when the context found in an envelope agrees with message `m`. */
  ghost predicate Agrees(c: Context, body: Fields, m: TaskMessage) {
    && c.requestId == m.requestId
    && c.taskType == Some(KindText(m.kind))
    && c.retryCount == Some(m.retryCount)
    && (c.taskId == Some(m.taskId) || (c.taskId == None && Field(body, "taskId") == Str(m.taskId)))
    && (c.messageId == Some(m.messageId) || (c.messageId == None && Field(body, "messageId") == Str(m.messageId)))
  }

  lemma AgreeingDecodes(d: Decoder, body: Fields, c: Context, m: TaskMessage)
    requires Faithful(d) && Agrees(c, body, m)
    requires d.readers.validate(Field(body, "userId")) == Some(m.userId)
    requires Count(d.readers, body, "maxRetryCount") == Some(m.maxRetryCount)
    requires d.codec.read(m.kind, body - NAMED) == Some(m.rest)
    ensures Validate(d, Enriched(body, c)) == Some(m)
  {
    EnrichedFields(body, c);
  }

  /** The identities of a decoded message either read back as themselves or are blank and stay in the body. */
  lemma DecodedIdentities(d: Decoder, original: Delivery, generated: string, m: TaskMessage)
    requires Decode(d, original, generated) == Some(m) && CoerceString(Str(generated)) == Some(generated)
    ensures CoerceString(Str(m.requestId)) == Some(m.requestId)
    ensures CoerceString(Str(m.taskId)) == Some(m.taskId)
         || (CoerceString(Str(m.taskId)) == None && Field(original.body, "taskId") == Str(m.taskId))
    ensures CoerceString(Str(m.messageId)) == Some(m.messageId)
         || (CoerceString(Str(m.messageId)) == None && Field(original.body, "messageId") == Str(m.messageId))
  {
    var c := ExtractContext(d.readers, original, generated);
    ContextStays(d.readers, original, generated);
    ValidatedIsDrawn(d, original.body, c, m);
  }

  /** The context found in an envelope that carries a message's own headers. */
  lemma OwnHeadersAgree(d: Decoder, copy: Delivery, m: TaskMessage, generated: string)
    requires Faithful(d) && copy.messageId == Str(m.messageId)
    requires Field(copy.headers, "x-request-id") == Str(m.requestId)
    requires Field(copy.headers, "x-task-id") == Str(m.taskId)
    requires Field(copy.headers, "x-task-type") == Str(KindText(m.kind))
    requires Field(copy.headers, "x-message-id") == Str(m.messageId)
    requires Field(copy.headers, "x-retry-count") == Num(m.retryCount)
    requires CoerceString(Str(m.requestId)) == Some(m.requestId)
    requires CoerceString(Str(m.taskId)) == Some(m.taskId)
          || (CoerceString(Str(m.taskId)) == None && Field(copy.body, "taskId") == Str(m.taskId))
    requires CoerceString(Str(m.messageId)) == Some(m.messageId)
          || (CoerceString(Str(m.messageId)) == None && Field(copy.body, "messageId") == Str(m.messageId))
    ensures Agrees(ExtractContext(d.readers, copy, generated), copy.body, m)
  {
    KindTextStays(m.kind);
  }

  lemma HeadersCarry(base: Fields, m: TaskMessage, retryCount: int)
    ensures var h := base + MessageHeaders(m, retryCount);
      && Field(h, "x-request-id") == Str(m.requestId) && Field(h, "x-task-id") == Str(m.taskId)
      && Field(h, "x-task-type") == Str(KindText(m.kind)) && Field(h, "x-message-id") == Str(m.messageId)
      && Field(h, "x-retry-count") == Num(retryCount)
  {}

  lemma BodyCarries(d: Decoder, m: TaskMessage)
    requires Faithful(d)
    ensures var b := Body(d, m);
      && b - NAMED == d.codec.write(m.kind, m.rest)
      && Field(b, "taskId") == Str(m.taskId) && Field(b, "messageId") == Str(m.messageId)
      && Field(b, "userId") == Num(m.userId) && "maxRetryCount" in b && b["maxRetryCount"] == Num(m.maxRetryCount)
  {
    assert Body(d, m) - NAMED == d.codec.write(m.kind, m.rest);
  }

  /** Decoding the retry copy of a decoded message gives that message with only its counts changed. */
  lemma RepublishRoundTrip(d: Decoder, original: Delivery, generated: string, m: TaskMessage,
                           retryCount: int, maxRetryCount: int, generated': string)
    requires Faithful(d) && Decode(d, original, generated) == Some(m) && CoerceString(Str(generated)) == Some(generated)
    ensures Decode(d, Republished(d, m, retryCount, maxRetryCount), generated')
         == Some(m.(retryCount := retryCount, maxRetryCount := maxRetryCount))
  {
    var next := m.(retryCount := retryCount, maxRetryCount := maxRetryCount);
    var copy := Republished(d, m, retryCount, maxRetryCount);
    DecodedIdentities(d, original, generated, m);
    BodyCarries(d, next);
    HeadersCarry(map[], m, retryCount);
    assert map[] + MessageHeaders(m, retryCount) == MessageHeaders(m, retryCount);
    OwnHeadersAgree(d, copy, next, generated');
    AgreeingDecodes(d, copy.body, ExtractContext(d.readers, copy, generated'), next);
  }

  /** The DLQ copy keeps the original body, and every header that is not one of the message's own. */
  lemma DeadLetterKeeps(original: Delivery, m: TaskMessage)
    ensures var copy := DeadLetter(original, m);
      && copy.body == original.body
      && forall name :: name !in {"x-request-id", "x-task-id", "x-task-type", "x-retry-count", "x-message-id"} ==>
           Field(copy.headers, name) == Field(original.headers, name)
  {}

  /** Decoding the DLQ copy of a decoded message gives the message itself. */
  lemma DeadLetterRoundTrip(d: Decoder, original: Delivery, generated: string, m: TaskMessage, generated': string)
    requires Faithful(d) && Decode(d, original, generated) == Some(m) && CoerceString(Str(generated)) == Some(generated)
    ensures Decode(d, DeadLetter(original, m), generated') == Some(m)
  {
    var copy := DeadLetter(original, m);
    DecodedIdentities(d, original, generated, m);
    ValidatedIsDrawn(d, original.body, ExtractContext(d.readers, original, generated), m);
    HeadersCarry(original.headers, m, m.retryCount);
    OwnHeadersAgree(d, copy, m, generated');
    AgreeingDecodes(d, copy.body, ExtractContext(d.readers, copy, generated'), m);
  }
}
