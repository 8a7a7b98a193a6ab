/** Reading published posts through Firestore's REST `runQuery` endpoint:
    the typed values of the wire format are decoded into plain JavaScript
    values, every returned document becomes one record keyed by field name
    (plus `id`), and the records are ordered by `createdAt`, newest first.
    The HTTP exchange itself is a parameter: the model receives the
    response. */
module FirestoreRest {
  import opened Wrappers
  import opened JsText
  import opened Json
  import Sorting

  /** A value of the REST wire format: exactly one typed payload.  An
      `arrayValue` without `values` and a `mapValue` without `fields` (the
      wire form of an empty array or map) have constructors of their own.
      Values of the kinds the decoder does not recognise (geo points,
      references, bytes) are `OtherValue`. */
  datatype FValue =
    | StringValue(s: string)
    | IntegerValue(digits: string)
    | BooleanValue(b: bool)
    | ArrayValue(values: seq<FValue>)
    | ArrayWithoutValues
    | MapValue(fields: map<string, FValue>)
    | MapWithoutFields
    | TimestampValue(ts: string)
    | NullValue
    | OtherValue

  predicate IsArray(v: FValue) {
    v.ArrayValue? || v.ArrayWithoutValues?
  }

  predicate IsMap(v: FValue) {
    v.MapValue? || v.MapWithoutFields?
  }

  /** The elements of an array value; an absent `values` is empty. */
  function ArrayElems(v: FValue): seq<FValue>
    requires IsArray(v)
  {
    if v.ArrayValue? then v.values else []
  }

  /** The fields of a map value; an absent `fields` is empty. */
  function MapFields(v: FValue): map<string, FValue>
    requires IsMap(v)
  {
    if v.MapValue? then v.fields else map[]
  }

  /** What `decodeValue` returns for a present value. */
  function DecodedValue(v: FValue): JsValue {
    match v
    case StringValue(s) => JStr(s)
    case IntegerValue(d) => StringToNumber(d)
    case BooleanValue(b) => JBool(b)
    case ArrayValue(xs) =>
      JArr(seq(|xs|, i requires 0 <= i < |xs| => DecodedValue(xs[i])))
    case ArrayWithoutValues => JArr([])
    case MapValue(f) => JObj(map k | k in f :: DecodedValue(f[k]))
    case MapWithoutFields => JObj(map[])
    case TimestampValue(t) => JStr(t)
    case NullValue => JNull
    case OtherValue => JUndefined
  }

  /** What `decodeValue` returns; an absent value is `undefined`. */
  function Decoded(v: Option<FValue>): (r: JsValue)
    ensures v.None? ==> r == JUndefined
  {
    match v
    case None => JUndefined
    case Some(x) => DecodedValue(x)
  }

  /** `decodeValue` on a present value, with the loops of the source: the
      array elements are decoded one by one, and the map branch fills its
      output object key by key. */
  method DecodePresent(v: FValue) returns (r: JsValue)
    ensures r == DecodedValue(v)
    decreases v
  {
    match v {
      case StringValue(s) =>
        r := JStr(s);
      case IntegerValue(d) =>
        r := StringToNumber(d);
      case BooleanValue(b) =>
        r := JBool(b);
      case ArrayWithoutValues =>
        r := JArr([]);
      case ArrayValue(xs) =>
        var out: seq<JsValue> := [];
        var i := 0;
        while i < |xs|
          invariant 0 <= i <= |xs|
          invariant |out| == i
          invariant forall j :: 0 <= j < i ==> out[j] == DecodedValue(xs[j])
        {
          var d := DecodePresent(xs[i]);
          out := out + [d];
          i := i + 1;
        }
        r := JArr(out);
      case MapWithoutFields =>
        r := JObj(map[]);
      case MapValue(f) =>
        var out: map<string, JsValue> := map[];
        var keys := f.Keys;
        while keys != {}
          invariant keys <= f.Keys
          invariant out.Keys == f.Keys - keys
          invariant forall k :: k in out ==> out[k] == DecodedValue(f[k])
          decreases keys
        {
          var k :| k in keys;
          var d := DecodePresent(f[k]);
          out := out[k := d];
          keys := keys - {k};
        }
        r := JObj(out);
      case TimestampValue(t) =>
        r := JStr(t);
      case NullValue =>
        r := JNull;
      case OtherValue =>
        r := JUndefined;
    }
  }

  /** `decodeValue(v)`. */
  method DecodeValue(v: Option<FValue>) returns (r: JsValue)
    ensures r == Decoded(v)
  {
    match v {
      case None =>
        r := JUndefined;
      case Some(x) =>
        r := DecodePresent(x);
    }
  }

  /** Values Firestore can store: no `undefined` and no NaN anywhere. */
  predicate Storable(j: JsValue) {
    match j
    case JUndefined => false
    case JNaN => false
    case JArr(es) => forall i :: 0 <= i < |es| ==> Storable(es[i])
    case JObj(fs) => forall k :: k in fs ==> Storable(fs[k])
    case _ => true
  }

  /** How the REST API writes a storable value on the wire (integers as
      decimal strings). */
  function Encode(j: JsValue): FValue
    requires Storable(j)
  {
    match j
    case JNull => NullValue
    case JBool(b) => BooleanValue(b)
    case JNum(n) => IntegerValue(IntToString(n))
    case JStr(s) => StringValue(s)
    case JArr(es) => ArrayValue(seq(|es|, i requires 0 <= i < |es| => Encode(es[i])))
    case JObj(fs) => MapValue(map k | k in fs :: Encode(fs[k]))
  }

  /** Decoding gives back every storable value: strings, booleans and null
      unchanged, integers from their decimal strings, arrays element by
      element, maps key by key. */
  lemma {:induction false} DecodeEncode(j: JsValue)
    requires Storable(j)
    ensures DecodedValue(Encode(j)) == j
  {
    match j {
      case JNull =>
      case JBool(_) =>
      case JStr(_) =>
      case JNum(n) =>
        StringToNumberOfIntToString(n);
      case JArr(es) =>
        var r := DecodedValue(Encode(j));
        forall i | 0 <= i < |es|
          ensures r.elems[i] == es[i]
        {
          DecodeEncode(es[i]);
        }
      case JObj(fs) =>
        var r := DecodedValue(Encode(j));
        forall k | k in fs
          ensures r.fields[k] == fs[k]
        {
          DecodeEncode(fs[k]);
        }
    }
  }

  /** An array value decodes to an array of the same length, element by
      element, in order; an absent `values` decodes to `[]`. */
  lemma DecodeArray(v: FValue)
    requires IsArray(v)
    ensures DecodedValue(v).JArr? && |DecodedValue(v).elems| == |ArrayElems(v)|
    ensures forall i :: 0 <= i < |ArrayElems(v)| ==> DecodedValue(v).elems[i] == DecodedValue(ArrayElems(v)[i])
  {
  }

  /** A map value decodes to an object with exactly its keys, key by key;
      an absent `fields` decodes to `{}`. */
  lemma DecodeMap(v: FValue)
    requires IsMap(v)
    ensures DecodedValue(v).JObj? && DecodedValue(v).fields.Keys == MapFields(v).Keys
    ensures forall k :: k in MapFields(v) ==> DecodedValue(v).fields[k] == DecodedValue(MapFields(v)[k])
  {
    if v.MapValue? {
      var r := DecodedValue(v);
      assert forall k :: k in r.fields <==> k in v.fields;
    }
  }

  type Record = map<string, JsValue>

  /** A document of a query response. */
  datatype Document = Document(name: string, fields: Option<map<string, FValue>>)

  /** One row of a `runQuery` response; rows without a document carry only
      query metadata. */
  datatype Row = Row(document: Option<Document>)

  /** The HTTP answer: a non-OK status, or OK with the parsed rows. */
  datatype Response = HttpError | HttpOk(rows: seq<Row>)

  /** The last `/`-separated segment of a document name:
      `name.split("/").pop()`. */
  function LastSegment(name: string): (r: string)
    ensures |r| <= |name|
  {
    if name == [] then []
    else if name[|name| - 1] == '/' then []
    else LastSegment(name[..|name| - 1]) + [name[|name| - 1]]
  }

  /** The segment is the suffix of the name after its last `/` (the whole
      name when it has none). */
  lemma {:induction false} LastSegmentSuffix(name: string)
    ensures var r := LastSegment(name);
      && |r| <= |name| && r == name[|name| - |r|..]
      && (|r| < |name| ==> name[|name| - |r| - 1] == '/')
  {
    if name != [] && name[|name| - 1] != '/' {
      var init, c := name[..|name| - 1], name[|name| - 1];
      LastSegmentSuffix(init);
      var r0 := LastSegment(init);
      var k := |init| - |r0|;
      assert LastSegment(name) == r0 + [c];
      assert name[k..] == init[k..] + [c];
      if k > 0 {
        assert name[k - 1] == init[k - 1];
      }
    }
  }

  /** The segment holds no `/`. */
  lemma {:induction false} LastSegmentNoSlash(name: string)
    ensures forall i :: 0 <= i < |LastSegment(name)| ==> LastSegment(name)[i] != '/'
  {
    if name != [] && name[|name| - 1] != '/' {
      LastSegmentNoSlash(name[..|name| - 1]);
    }
  }

  function DocFields(doc: Document): map<string, FValue> {
    match doc.fields
    case None => map[]
    case Some(f) => f
  }

  /** Every field of a document, decoded. */
  function DecodedFields(f: map<string, FValue>): (r: map<string, JsValue>)
    ensures r.Keys == f.Keys
  {
    map k | k in f :: DecodedValue(f[k])
  }

  /** `{ id, ...decoded }`: the record of one document. */
  function RecordOf(doc: Document): (r: Record)
    ensures r.Keys == DocFields(doc).Keys + {"id"}
  {
    map["id" := JStr(LastSegment(doc.name))] + DecodedFields(DocFields(doc))
  }

  /** The id is the last segment of the document name unless the document
      has a field called `id`, whose decoded value then wins. */
  lemma RecordId(doc: Document)
    ensures "id" in DocFields(doc) ==> RecordOf(doc)["id"] == DecodedValue(DocFields(doc)["id"])
    ensures "id" !in DocFields(doc) ==> RecordOf(doc)["id"] == JStr(LastSegment(doc.name))
  {
  }

  /** Every other field of a record is the decoded document field. */
  lemma RecordField(doc: Document, k: string)
    requires k in DocFields(doc)
    ensures RecordOf(doc)[k] == DecodedValue(DocFields(doc)[k])
  {
  }

  /** The documents of the rows that have one, in row order. */
  function Documents(rows: seq<Row>): (r: seq<Document>)
    ensures |r| <= |rows|
  {
    if rows == [] then []
    else
      Documents(rows[..|rows| - 1])
      + match rows[|rows| - 1].document { case None => [] case Some(d) => [d] }
  }

  /** Number of rows carrying a document. */
  function CountWithDocument(rows: seq<Row>): nat {
    if rows == [] then 0
    else CountWithDocument(rows[..|rows| - 1]) + if rows[|rows| - 1].document.Some? then 1 else 0
  }

  /** Rows without a document are dropped; the others give one document
      each. */
  lemma {:induction false} DocumentsCount(rows: seq<Row>)
    ensures |Documents(rows)| == CountWithDocument(rows)
  {
    if rows != [] {
      DocumentsCount(rows[..|rows| - 1]);
    }
  }

  /** The sort key `(createdAt || 0)`: a falsy or missing `createdAt`
      counts as 0, a number as itself. A `createdAt` that converts to NaN
      also counts as 0 here; in the source the comparator then returns
      NaN, which the sort reads as "equal" whatever the other key, so the
      source's order for such records is left to the implementation. */
  function CreatedAtKey(rec: Record): (r: int)
    ensures "createdAt" !in rec || !Truthy(rec["createdAt"]) ==> r == 0
    ensures "createdAt" in rec && rec["createdAt"].JNum? ==> r == rec["createdAt"].n
  {
    var v := if "createdAt" in rec then rec["createdAt"] else JUndefined;
    match ToNumber(OrElse(v, JNum(0)))
    case JNum(n) => n
    case _ => 0
  }

  function Records(docs: seq<Document>): (r: seq<Record>)
    ensures |r| == |docs|
    ensures forall i :: 0 <= i < |docs| ==> r[i] == RecordOf(docs[i])
  {
    seq(|docs|, i requires 0 <= i < |docs| => RecordOf(docs[i]))
  }

  /** What `fetchPublishedPostsViaREST` resolves to, given the project id
      and the HTTP response. */
  function Published(projectId: string, response: Response): (r: Result<seq<Record>, string>)
    ensures r.Err? <==> projectId == ""
    ensures projectId != "" && response.HttpError? ==> r == Ok([])
    ensures r.Ok? && response.HttpOk? ==> |r.value| == |Documents(response.rows)|
  {
    if projectId == "" then Err("Missing NEXT_PUBLIC_FIREBASE_PROJECT_ID")
    else match response
      case HttpError => Ok([])
      case HttpOk(rows) => Ok(Sorting.SortDesc(Records(Documents(rows)), CreatedAtKey))
  }

  /** The record of one document, with the field loop of the source. */
  method DocumentRecord(doc: Document) returns (rec: Record)
    ensures rec == RecordOf(doc)
  {
    var f := DocFields(doc);
    var decoded: map<string, JsValue> := map[];
    var keys := f.Keys;
    while keys != {}
      invariant keys <= f.Keys
      invariant decoded.Keys == f.Keys - keys
      invariant forall k :: k in decoded ==> decoded[k] == DecodedValue(f[k])
      decreases keys
    {
      var k :| k in keys;
      var d := DecodePresent(f[k]);
      decoded := decoded[k := d];
      keys := keys - {k};
    }
    assert decoded == DecodedFields(f);
    rec := map["id" := JStr(LastSegment(doc.name))] + decoded;
  }

  /** The loop that turns each document into its record, in a fresh array. */
  method BuildRecords(docs: seq<Document>) returns (a: array<Record>)
    ensures fresh(a) && a[..] == Records(docs)
  {
    a := new Record[|docs|];
    var i := 0;
    while i < |docs|
      invariant 0 <= i <= |docs|
      invariant forall j :: 0 <= j < i ==> a[j] == RecordOf(docs[j])
    {
      a[i] := DocumentRecord(docs[i]);
      i := i + 1;
    }
  }

  /** `fetchPublishedPostsViaREST`: builds the records in a loop, then sorts
      them in place by `createdAt`, newest first. */
  method FetchPublished(projectId: string, response: Response) returns (r: Result<seq<Record>, string>)
    ensures r == Published(projectId, response)
  {
    if projectId == "" {
      return Err("Missing NEXT_PUBLIC_FIREBASE_PROJECT_ID");
    }
    if response.HttpError? {
      return Ok([]);
    }
    var docs := Documents(response.rows);
    var a := BuildRecords(docs);
    Sorting.SortInPlace(a, CreatedAtKey);
    r := Ok(a[..]);
  }

  /** The published list: newest first, exactly one record per row that has
      a document, records with equal keys in response order. */
  lemma PublishedSpec(projectId: string, rows: seq<Row>, k: int)
    requires projectId != ""
    ensures Published(projectId, HttpOk(rows)).Ok?
    ensures var out := Published(projectId, HttpOk(rows)).value;
      && |out| == CountWithDocument(rows)
      && Sorting.SortedDesc(out, CreatedAtKey)
      && multiset(out) == multiset(Records(Documents(rows)))
      && Sorting.WithKey(out, CreatedAtKey, k) == Sorting.WithKey(Records(Documents(rows)), CreatedAtKey, k)
  {
    DocumentsCount(rows);
    Sorting.SortDescPerm(Records(Documents(rows)), CreatedAtKey);
    Sorting.SortDescStable(Records(Documents(rows)), CreatedAtKey, k);
  }

  /** A non-OK response yields no records. */
  lemma NotOkIsEmpty(projectId: string)
    requires projectId != ""
    ensures Published(projectId, HttpError) == Ok([])
  {
  }
}
