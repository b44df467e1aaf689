/** End-to-end examples against a one-row table holding
    (ASPIRIN, INHIBITS, COX-2). Each example states what the parser makes of
    the object text and derives the verdict. */
module Scenarios {
  import opened Text
  import opened RelationVerifier
  import opened VerifierProperties

  lemma UpperInhibits()
    ensures Upper("inhibits") == "INHIBITS"
  {
  }

  lemma UpperActivates()
    ensures Upper("activates") == "ACTIVATES"
  {
  }

  const AspirinTable: seq<Row> := [Row("ASPIRIN", "INHIBITS", "COX-2")]

  /** The object a complete, well-formed output parses to. */
  function TripleObject(head: string, relation: string, tail: string): (obj: Object)
    ensures HasRequiredFields(obj)
    ensures obj["head"] == Str(head) && obj["relation"] == Str(relation) && obj["tail"] == Str(tail)
  {
    map["head" := Str(head), "relation" := Str(relation), "tail" := Str(tail), "evidence" := Str("...")]
  }

  const InhibitsOutput: string :=
    "{" + "\"head\":\"ASPIRIN\",\"relation\":\"inhibits\",\"tail\":\"COX-2\",\"evidence\":\"...\"" + "}"

  /** A lower-case relation matches the upper-case row. */
  lemma InhibitsIsVerified(parse: string -> ParseOutcome)
    requires parse(InhibitsOutput) == Parsed(TripleObject("ASPIRIN", "inhibits", "COX-2"))
    ensures Verify(InhibitsOutput, AspirinTable, parse) == Verified(Str("ASPIRIN"), "inhibits", Str("COX-2"))
  {
    WholeObjectIsSpan(InhibitsOutput);
    MatchIff(InhibitsOutput, AspirinTable, parse, TripleObject("ASPIRIN", "inhibits", "COX-2"));
    UpperInhibits();
    assert AspirinTable[0] in AspirinTable;
  }

  const ChattyOutput: string :=
    "Output: " + InhibitsOutput + " Done."

  /** Text before the first `{` and after the last `}` is cut away before
      parsing. */
  lemma SurroundingProseIsIgnored(parse: string -> ParseOutcome)
    requires parse(InhibitsOutput) == Parsed(TripleObject("ASPIRIN", "inhibits", "COX-2"))
    ensures Verify(ChattyOutput, AspirinTable, parse) == Verified(Str("ASPIRIN"), "inhibits", Str("COX-2"))
  {
    var prefix, suffix := "Output: ", " Done.";
    var lo, hi := |prefix|, |prefix| + |InhibitsOutput| - 1;
    assert ChattyOutput[..lo] == prefix;
    assert ChattyOutput[hi + 1..] == suffix;
    assert ChattyOutput[lo..hi + 1] == InhibitsOutput;
    BraceSpanCharacterised(ChattyOutput, lo, hi);
    InhibitsIsVerified(parse);
  }

  const ActivatesOutput: string :=
    "{" + "\"head\":\"ASPIRIN\",\"relation\":\"activates\",\"tail\":\"COX-2\",\"evidence\":\"...\"" + "}"

  /** A relation absent from the table is reported as not found, with the
      relation as written. */
  lemma ActivatesIsNotFound(parse: string -> ParseOutcome)
    requires parse(ActivatesOutput) == Parsed(TripleObject("ASPIRIN", "activates", "COX-2"))
    ensures Verify(ActivatesOutput, AspirinTable, parse) == NotFound(Str("ASPIRIN"), "activates", Str("COX-2"))
  {
    WholeObjectIsSpan(ActivatesOutput);
    MatchIff(ActivatesOutput, AspirinTable, parse, TripleObject("ASPIRIN", "activates", "COX-2"));
    UpperActivates();
  }

  const MixedCaseHeadOutput: string :=
    "{" + "\"head\":\"Aspirin\",\"relation\":\"inhibits\",\"tail\":\"COX-2\",\"evidence\":\"...\"" + "}"

  /** Head matching is case-sensitive: "Aspirin" does not match a row whose
      head is "aspirin". */
  lemma HeadIsCaseSensitive(parse: string -> ParseOutcome)
    requires parse(MixedCaseHeadOutput) == Parsed(TripleObject("Aspirin", "inhibits", "COX-2"))
    ensures Verify(MixedCaseHeadOutput, [Row("aspirin", "INHIBITS", "COX-2")], parse)
      == NotFound(Str("Aspirin"), "inhibits", Str("COX-2"))
  {
    WholeObjectIsSpan(MixedCaseHeadOutput);
    assert "Aspirin" != "aspirin" by { assert "Aspirin"[0] != "aspirin"[0]; }
  }

  /** Output without any brace is reported as having no JSON, whatever the
      table and the parser. */
  lemma PlainTextIsNoJson(kg: seq<Row>, parse: string -> ParseOutcome)
    ensures Verify("not json at all", kg, parse) == NoJson
  {
    assert forall i :: 0 <= i < |"not json at all"| ==> "not json at all"[i] != '{';
  }

  const PartialOutput: string := "{" + "\"head\":\"ASPIRIN\",\"relation\":\"inhibits\"" + "}"

  /** An object without tail and evidence is reported as missing fields,
      whatever the table. */
  lemma PartialObjectIsMissingFields(kg: seq<Row>, parse: string -> ParseOutcome)
    requires parse(PartialOutput) == Parsed(map["head" := Str("ASPIRIN"), "relation" := Str("inhibits")])
    ensures Verify(PartialOutput, kg, parse) == MissingFields
  {
    WholeObjectIsSpan(PartialOutput);
    assert "tail" in RequiredFields;
  }

  const NumericRelationOutput: string :=
    "{" + "\"head\":\"ASPIRIN\",\"relation\":7,\"tail\":\"COX-2\",\"evidence\":\"...\"" + "}"

  /** A relation that is not a string makes the verifier raise instead of
      returning a message. */
  lemma NumericRelationRaises(kg: seq<Row>, parse: string -> ParseOutcome)
    requires parse(NumericRelationOutput) ==
      Parsed(map["head" := Str("ASPIRIN"), "relation" := NonStr("7"), "tail" := Str("COX-2"), "evidence" := Str("...")])
    ensures Verify(NumericRelationOutput, kg, parse) == RelationNotString
    ensures Message(Verify(NumericRelationOutput, kg, parse)).None?
  {
    WholeObjectIsSpan(NumericRelationOutput);
  }
}
