/** Properties of the relation verifier: where the parsed span comes from,
    what each verdict means, and how the table lookup behaves. */
module VerifierProperties {
  import opened Wrappers
  import opened Text
  import opened RelationVerifier

  // ---------------------------------------------------------------------
  // Locating the object

  /** The span is determined by the positions of the first `{` and the last
      `}`, however those positions are found: it runs from one to the other
      inclusive, and is empty when the last `}` precedes the first `{`. */
  lemma BraceSpanCharacterised(text: string, lo: nat, hi: nat)
    requires lo < |text| && text[lo] == '{' && '{' !in text[..lo]
    requires hi < |text| && text[hi] == '}' && '}' !in text[hi + 1..]
    ensures BraceSpan(text) == Some(if lo <= hi then text[lo..hi + 1] else [])
  {
  }

  /** An output that is exactly one object, brace to brace, reaches the
      parser unchanged. */
  lemma WholeObjectIsSpan(text: string)
    requires |text| > 0 && text[0] == '{' && text[|text| - 1] == '}'
    ensures BraceSpan(text) == Some(text)
  {
    assert text[..0] == [] && text[|text|..] == [];
    assert text[0..|text|] == text;
    BraceSpanCharacterised(text, 0, |text| - 1);
  }

  /** When the last `}` comes before the first `{` the parser is handed the
      empty text; a parser that rejects the empty text (as `json.loads`
      does) then makes the verdict a parse error. */
  lemma InvertedBracesAreParseError(text: string, kg: seq<Row>, parse: string -> ParseOutcome, lo: nat, hi: nat)
    requires lo < |text| && text[lo] == '{' && '{' !in text[..lo]
    requires hi < |text| && text[hi] == '}' && '}' !in text[hi + 1..]
    requires hi < lo
    requires parse([]).Failed?
    ensures Verify(text, kg, parse) == ParseError(parse([]).message)
  {
  }

  // ---------------------------------------------------------------------
  // What each verdict means

  /** The verdict is a parse error exactly when both braces are present and
      the parser rejects the span; the error carries the parser's own
      description. */
  lemma ParseErrorIff(text: string, kg: seq<Row>, parse: string -> ParseOutcome)
    ensures Verify(text, kg, parse).ParseError? <==>
      BraceSpan(text).Some? && parse(BraceSpan(text).value).Failed?
    ensures Verify(text, kg, parse).ParseError? ==>
      Verify(text, kg, parse).message == parse(BraceSpan(text).value).message
  {
  }

  /** The verdict is "missing fields" exactly when the span parses to an
      object lacking one of head, relation, tail and evidence; an object
      holding those four and no `reasoning_trace` passes the check. */
  lemma MissingFieldsIff(text: string, kg: seq<Row>, parse: string -> ParseOutcome)
    ensures Verify(text, kg, parse).MissingFields? <==>
      BraceSpan(text).Some? && parse(BraceSpan(text).value).Parsed? &&
      exists k :: k in RequiredFields && k !in parse(BraceSpan(text).value).obj
    ensures "reasoning_trace" !in RequiredFields
  {
  }

  /** The call raises exactly when the span parses to an object that holds
      all required fields but whose relation is not a string: upper-casing
      the relation is the first step outside the guarded parse. */
  lemma RelationNotStringIff(text: string, kg: seq<Row>, parse: string -> ParseOutcome)
    ensures Verify(text, kg, parse) == RelationNotString <==>
      BraceSpan(text).Some? && parse(BraceSpan(text).value).Parsed? &&
      HasRequiredFields(parse(BraceSpan(text).value).obj) &&
      !parse(BraceSpan(text).value).obj["relation"].Str?
  {
  }

  /** The three error verdicts, and the raised exception, are reached
      without consulting the table: the same text gives the same verdict
      against any other table. */
  lemma ErrorsIgnoreTable(text: string, kg1: seq<Row>, kg2: seq<Row>, parse: string -> ParseOutcome)
    requires !Verify(text, kg1, parse).Verified? && !Verify(text, kg1, parse).NotFound?
    ensures Verify(text, kg2, parse) == Verify(text, kg1, parse)
  {
  }

  /** For a parsed object with all required fields and a string relation,
      the verdict is `Verified` if and only if some row has the extracted
      head, the upper-cased extracted relation and the extracted tail, and
      `NotFound` otherwise; both report the head and tail as extracted and
      the relation as written, not upper-cased. */
  lemma MatchIff(text: string, kg: seq<Row>, parse: string -> ParseOutcome, obj: Object)
    requires BraceSpan(text).Some? && parse(BraceSpan(text).value) == Parsed(obj)
    requires HasRequiredFields(obj) && obj["relation"].Str?
    ensures
      var head, relation, tail := obj["head"], obj["relation"].chars, obj["tail"];
      Verify(text, kg, parse) ==
        if exists row :: row in kg && head == Str(row.head) && row.relation == Upper(relation) && tail == Str(row.tail)
        then Verified(head, relation, tail)
        else NotFound(head, relation, tail)
  {
  }

  /** Only the head, relation and tail of a complete object decide the
      verdict: evidence, reasoning_trace and any other keys do not. */
  lemma OnlyTripleMatters(text1: string, text2: string, kg: seq<Row>, parse: string -> ParseOutcome, obj1: Object, obj2: Object)
    requires BraceSpan(text1).Some? && parse(BraceSpan(text1).value) == Parsed(obj1)
    requires BraceSpan(text2).Some? && parse(BraceSpan(text2).value) == Parsed(obj2)
    requires HasRequiredFields(obj1) && HasRequiredFields(obj2)
    requires obj1["head"] == obj2["head"] && obj1["relation"] == obj2["relation"] && obj1["tail"] == obj2["tail"]
    ensures Verify(text1, kg, parse) == Verify(text2, kg, parse)
  {
  }

  // ---------------------------------------------------------------------
  // Case of the relation, head and tail

  /** Relation matching ignores the case of the extracted relation: two
      outputs that agree on head and tail and whose relations upper-case to
      the same text are verified against the same tables, and each verdict
      still reports its own relation as written. */
  lemma RelationCaseInsensitive(text1: string, text2: string, kg: seq<Row>, parse: string -> ParseOutcome, obj1: Object, obj2: Object)
    requires BraceSpan(text1).Some? && parse(BraceSpan(text1).value) == Parsed(obj1)
    requires BraceSpan(text2).Some? && parse(BraceSpan(text2).value) == Parsed(obj2)
    requires HasRequiredFields(obj1) && HasRequiredFields(obj2)
    requires obj1["relation"].Str? && obj2["relation"].Str?
    requires obj1["head"] == obj2["head"] && obj1["tail"] == obj2["tail"]
    requires Upper(obj1["relation"].chars) == Upper(obj2["relation"].chars)
    ensures Verify(text1, kg, parse).Verified? <==> Verify(text2, kg, parse).Verified?
    ensures Verify(text1, kg, parse).relation == obj1["relation"].chars
    ensures Verify(text2, kg, parse).relation == obj2["relation"].chars
  {
  }

  /** A row whose relation holds an ASCII lower-case letter can never be
      matched, since the extracted relation is compared after upper-casing:
      adding such a row to the table changes no verdict. */
  lemma LowercaseRowNeverMatches(text: string, kg: seq<Row>, parse: string -> ParseOutcome, row: Row, i: nat)
    requires i < |row.relation| && IsLowerAscii(row.relation[i])
    ensures Verify(text, kg + [row], parse) == Verify(text, kg, parse)
  {
  }

  // ---------------------------------------------------------------------
  // The table

  /** Verification is monotone in the table: rows added can turn
      `NotFound` into `Verified` but never the reverse. */
  lemma MonotoneInTable(text: string, kg1: seq<Row>, kg2: seq<Row>, parse: string -> ParseOutcome)
    requires forall row :: row in kg1 ==> row in kg2
    ensures Verify(text, kg1, parse).Verified? ==> Verify(text, kg2, parse) == Verify(text, kg1, parse)
    ensures Verify(text, kg2, parse).NotFound? ==> Verify(text, kg1, parse) == Verify(text, kg2, parse)
  {
  }

  /** The verdict depends only on which rows the table holds: reordering
      the rows or repeating some of them changes nothing. */
  lemma SameRowsSameVerdict(text: string, kg1: seq<Row>, kg2: seq<Row>, parse: string -> ParseOutcome)
    requires forall row :: row in kg1 <==> row in kg2
    ensures Verify(text, kg1, parse) == Verify(text, kg2, parse)
  {
  }

  // ---------------------------------------------------------------------
  // Messages

  predicate SameKind(v1: Verdict, v2: Verdict) {
    match v1
    case NoJson => v2.NoJson?
    case ParseError(_) => v2.ParseError?
    case MissingFields => v2.MissingFields?
    case RelationNotString => v2.RelationNotString?
    case Verified(_, _, _) => v2.Verified?
    case NotFound(_, _, _) => v2.NotFound?
  }

  /** The returned message tells which verdict was reached: two verdicts
      of different kinds never render to the same text. */
  lemma MessageDeterminesKind(v1: Verdict, v2: Verdict)
    requires Message(v1).Some? && Message(v1) == Message(v2)
    ensures SameKind(v1, v2)
  {
    var m := Message(v1).value;
    assert |m| >= 4;
    // The leading characters of each kind of message differ.
    var tag1 := Tag(v1);
    var tag2 := Tag(v2);
    assert tag1 == m[..4] == tag2;
  }

  /** The first four characters of each kind of message. */
  function Tag(v: Verdict): (t: string)
    requires !v.RelationNotString?
    ensures |Message(v).value| >= 4 && t == Message(v).value[..4]
  {
    match v
    case NoJson => "❌ 未检"
    case ParseError(_) => "❌ JS"
    case MissingFields => "⚠️ 缺"
    case Verified(_, _, _) => "✅ 验证"
    case NotFound(_, _, _) => "⚠️ 未"
  }
}
