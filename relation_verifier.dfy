/** The relation verifier: reads the triple a language model wrote as a JSON
    object in free text, checks that the object carries the required fields,
    and looks the triple up in a reference knowledge table.

    `json.loads` is a parameter (`parse`) of the verifier: every property
    below holds whatever parser is supplied, except where a lemma names what
    it needs of the parser. */
module RelationVerifier {
  import opened Wrappers
  import opened Text

  /** A JSON value as the verifier sees it: a string, or any other value
      (number, boolean, null, array, object) together with the text Python's
      `str()` gives for it. */
  datatype Value = Str(chars: string) | NonStr(text: string)

  /** A parsed JSON object. */
  type Object = map<string, Value>

  /** What the parser does with a text: an object, or a failure with the
      description the exception carries. A non-empty span starts with `{`
      and the empty span is rejected by `json.loads`, so a successful parse
      of a span is an object. */
  datatype ParseOutcome = Parsed(obj: Object) | Failed(message: string)

  /** One row of the knowledge table; the table is read as strings. */
  datatype Row = Row(head: string, relation: string, tail: string)

  /** The outcome of one verification. `RelationNotString` stands for the
      call raising an exception: the relation field is not a string, so
      upper-casing it fails outside the guarded parse. `Verified` and
      `NotFound` carry the extracted head and tail and the relation as the
      model wrote it (not upper-cased). */
  datatype Verdict =
    | NoJson
    | ParseError(message: string)
    | MissingFields
    | RelationNotString
    | Verified(head: Value, relation: string, tail: Value)
    | NotFound(head: Value, relation: string, tail: Value)

  /** The keys a parsed object must carry; `reasoning_trace` is not among them. */
  const RequiredFields: seq<string> := ["head", "relation", "tail", "evidence"]

  predicate HasRequiredFields(obj: Object) {
    forall k :: k in RequiredFields ==> k in obj
  }

  /** The text handed to the parser: from the first `{` to the last `}`,
      both included; empty when the last `}` comes before the first `{`
      (Python slicing with a stop below the start); None when either brace
      is missing. */
  function BraceSpan(text: string): (span: Option<string>)
    ensures span.None? <==> '{' !in text || '}' !in text
    ensures span.Some? ==> |span.value| <= |text|
    ensures span.Some? && span.value != [] ==>
      span.value[0] == '{' && span.value[|span.value| - 1] == '}'
  {
    var s, e := Find(text, '{'), RFind(text, '}');
    if s == -1 || e == -1 then None
    else if s <= e then Some(text[s..e + 1])
    else Some([])
  }

  /** A row matches when its head and tail equal the extracted ones exactly
      and its relation equals the upper-cased extracted relation. A
      non-string head or tail equals no cell of the table. */
  predicate RowMatches(row: Row, head: Value, upperRelation: string, tail: Value) {
    head == Str(row.head) && row.relation == upperRelation && tail == Str(row.tail)
  }

  /** The table scan: whether any row matches. */
  function AnyMatch(kg: seq<Row>, head: Value, upperRelation: string, tail: Value): (hit: bool)
    ensures hit <==> exists row :: row in kg && RowMatches(row, head, upperRelation, tail)
  {
    if |kg| == 0 then false
    else if RowMatches(kg[0], head, upperRelation, tail) then true
    else
      var rest := AnyMatch(kg[1..], head, upperRelation, tail);
      assert forall row :: row in kg ==> row == kg[0] || row in kg[1..];
      rest
  }

  /** The verifier: locate the object, parse it, check the fields, match. */
  function Verify(text: string, kg: seq<Row>, parse: string -> ParseOutcome): (v: Verdict)
    ensures v.NoJson? <==> '{' !in text || '}' !in text
    ensures v.Verified? ==>
      v.head.Str? && v.tail.Str? && Row(v.head.chars, Upper(v.relation), v.tail.chars) in kg
    ensures v.NotFound? && v.head.Str? && v.tail.Str? ==>
      Row(v.head.chars, Upper(v.relation), v.tail.chars) !in kg
  {
    match BraceSpan(text)
    case None => NoJson
    case Some(span) =>
      match parse(span)
      case Failed(message) => ParseError(message)
      case Parsed(obj) =>
        if !HasRequiredFields(obj) then MissingFields
        else if !obj["relation"].Str? then RelationNotString
        else
          var head, relation, tail := obj["head"], obj["relation"].chars, obj["tail"];
          if AnyMatch(kg, head, Upper(relation), tail) then Verified(head, relation, tail)
          else NotFound(head, relation, tail)
  }

  /** How a field value appears inside a message (Python's f-string). */
  function Display(v: Value): string {
    match v
    case Str(chars) => chars
    case NonStr(text) => text
  }

  function TripleText(head: Value, relation: string, tail: Value): string {
    "(" + Display(head) + " --" + relation + "--> " + Display(tail) + ")"
  }

  const NoJsonMessage: string := "❌ 未检测到 JSON 结构。"
  const ParseErrorPrefix: string := "❌ JSON 解析错误："
  const MissingFieldsMessage: string := "⚠️ 缺少必要字段。"
  const VerifiedPrefix: string := "✅ 验证通过："
  const NotFoundPrefix: string := "⚠️ 未在知识库中找到匹配关系 "

  /** The display string the verifier returns for a verdict; None for the
      verdict that stands for a raised exception, which returns nothing. */
  function Message(v: Verdict): (m: Option<string>)
    ensures m.None? <==> v.RelationNotString?
  {
    match v
    case NoJson => Some(NoJsonMessage)
    case ParseError(message) => Some(ParseErrorPrefix + message)
    case MissingFields => Some(MissingFieldsMessage)
    case RelationNotString => None
    case Verified(head, relation, tail) => Some(VerifiedPrefix + TripleText(head, relation, tail))
    case NotFound(head, relation, tail) => Some(NotFoundPrefix + TripleText(head, relation, tail) + "。")
  }
}
