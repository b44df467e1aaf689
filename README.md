# Relation verifier model

A Dafny model of the relation verifier of a biomedical relation-extraction
pipeline. A language model is asked to describe one (head, relation, tail)
fact as a JSON object with `head`, `relation`, `tail`, `evidence` and
`reasoning_trace`. `verify_relation` takes the model's raw text and a
knowledge table of (head, relation, tail) rows and returns a verdict. It does
four things in order:

1. It cuts out the text from the first `{` to the last `}`, both included.
2. It parses that text as JSON.
3. It checks that `head`, `relation`, `tail` and `evidence` are present.
4. It looks for a row with the same head, the upper-cased relation and the same tail.

The function is pure, so the model is pure too: datatypes, functions and lemmas.

- `wrappers.dfy`: the `Option` type.
- `text.dfy` (module `Text`): single-character `str.find` and `str.rfind`, with -1 for "absent" as in Python, and ASCII upper-casing.
- `relation_verifier.dfy` (module `RelationVerifier`): JSON values, table rows, the `Verdict` sum type, the brace span, the table scan, `Verify`, and the message rendering, kept apart from the verdict.
- `verifier_properties.dfy` (module `VerifierProperties`): what each verdict means, how case is treated, and monotonicity and order-independence in the table.
- `scenarios.dfy` (module `Scenarios`): end-to-end examples against the table (ASPIRIN, INHIBITS, COX-2).

`json.loads` is the parameter `parse: string -> ParseOutcome` of `Verify`. It
returns either a parsed object or a failure with the exception's description.
The general properties in `verifier_properties.dfy` are proved for every
parser. `InvertedBracesAreParseError` and the examples in `scenarios.dfy`
state, as preconditions, what `json.loads` does with their texts: it rejects
the empty text, and it reads each example object as the map given. A
non-empty span starts with `{`, and `json.loads("")` raises, so a successful
parse of a span is always an object. That is why `Parsed` carries a map.

The verdicts are `NoJson`, `ParseError(message)`, `MissingFields`,
`Verified(head, relation, tail)`, `NotFound(head, relation, tail)` and
`RelationNotString`. The last one stands for the source raising an exception:
`data["relation"].upper()` sits outside the `try`, so a relation that is not
a string makes the call raise instead of return. `Message` renders the other
five to the exact strings the source returns, and gives `None` for
`RelationNotString`.

A missing brace gets its own "no JSON structure detected" message, different
from the parse-error message, so it is the separate `NoJson` verdict here.

## Model

| member | source | states |
|---|---|---|
| `Text.Find` | relation_verifier.py:9 | -1 exactly when the character is absent; otherwise an index holding it with no earlier occurrence |
| `Text.RFind` | relation_verifier.py:9 | -1 exactly when the character is absent; otherwise an index holding it with no later occurrence |
| `Text.Upper` | relation_verifier.py:23 | same length; each character upper-cased in place; no ASCII lower-case letter is left |
| `RelationVerifier.BraceSpan` | relation_verifier.py:9-12 | no span exactly when `{` or `}` is missing; a non-empty span starts with `{` and ends with `}` and is no longer than the text |
| `RelationVerifier.AnyMatch` | relation_verifier.py:22-24 | the recursive scan is true exactly when some row of the table matches (the `.any()` over the row-wise comparison) |
| `RelationVerifier.Verify` | relation_verifier.py:4-29 | `NoJson` exactly when a brace is missing; `Verified` only with string head and tail and the row (head, upper-cased relation, tail) in the table; `NotFound` with string head and tail only when that row is absent |
| `RelationVerifier.Message` | relation_verifier.py:11-29 | every verdict renders to a message except the one that stands for the raised exception |
| `VerifierProperties.BraceSpanCharacterised` | relation_verifier.py:9-12 | given the position of the first `{` and of the last `}`, the span is the slice between them inclusive, or empty when the `}` comes first |
| `VerifierProperties.WholeObjectIsSpan` | relation_verifier.py:9-12 | a text that begins with `{` and ends with `}` reaches the parser unchanged |
| `VerifierProperties.InvertedBracesAreParseError` | relation_verifier.py:9-14 | when the last `}` precedes the first `{`, the empty text is parsed, and a parser that rejects it yields a parse error |
| `VerifierProperties.ParseErrorIff` | relation_verifier.py:8-14 | parse error exactly when both braces exist and the parser rejects the span; the error carries the parser's description |
| `VerifierProperties.MissingFieldsIff` | relation_verifier.py:17-19 | "missing fields" exactly when the span parses and one of the four required keys is absent; `reasoning_trace` is not required |
| `VerifierProperties.RelationNotStringIff` | relation_verifier.py:17-23 | the call raises exactly when the span parses to an object with all required fields whose relation is not a string |
| `VerifierProperties.ErrorsIgnoreTable` | relation_verifier.py:8-23 | every verdict other than verified or not-found is the same against any table |
| `VerifierProperties.MatchIff` | relation_verifier.py:22-29 | for a complete object with a string relation: verified if and only if some row has the extracted head, upper-cased relation and tail, otherwise not-found; both report the relation as written |
| `VerifierProperties.OnlyTripleMatters` | relation_verifier.py:17-24 | two complete objects that agree on head, relation and tail get the same verdict, whatever their evidence or other keys |
| `VerifierProperties.RelationCaseInsensitive` | relation_verifier.py:22-29 | relations with the same upper-cased form are verified against the same tables; each verdict keeps its own relation text |
| `VerifierProperties.LowercaseRowNeverMatches` | relation_verifier.py:22-24 | a row whose relation has an ASCII lower-case letter changes no verdict when added to the table |
| `VerifierProperties.MonotoneInTable` | relation_verifier.py:22-24 | adding rows keeps a verified verdict unchanged; a not-found verdict against the larger table is also the verdict against the smaller one |
| `VerifierProperties.SameRowsSameVerdict` | relation_verifier.py:22-24 | tables holding the same rows give the same verdict, whatever the order or repetition |
| `VerifierProperties.MessageDeterminesKind` | relation_verifier.py:11-29 | two verdicts of different kinds never render to the same message |
| `Scenarios.InhibitsIsVerified` | relation_verifier.py:22-27 | a relation "inhibits" matches the row (ASPIRIN, INHIBITS, COX-2) and is reported as written |
| `Scenarios.SurroundingProseIsIgnored` | relation_verifier.py:9-12 | prose before the first `{` and after the last `}` does not reach the parser |
| `Scenarios.ActivatesIsNotFound` | relation_verifier.py:22-29 | "activates" is not found in that table |
| `Scenarios.HeadIsCaseSensitive` | relation_verifier.py:22-24 | head "Aspirin" does not match a row with head "aspirin" |
| `Scenarios.PlainTextIsNoJson` | relation_verifier.py:9-11 | "not json at all" yields the no-JSON verdict for any table and parser |
| `Scenarios.PartialObjectIsMissingFields` | relation_verifier.py:17-19 | an object without tail and evidence yields "missing fields" for any table |
| `Scenarios.NumericRelationRaises` | relation_verifier.py:23 | a numeric relation makes the verifier raise, so no message is returned |

## Left out

- JSON parsing itself (`json.loads`, relation_verifier.py:12) is a parameter. Its grammar, duplicate-key handling and exception texts are not modelled.
- Python's full Unicode `str.upper` is not modelled. Only ASCII letters are upper-cased: `Upper` leaves every other character unchanged, and `str.upper` can change the length (for example "ß" becomes "SS").
- `RelationVerifier.AnyMatch`: pandas compares an array-valued head or tail element by element against the column, or raises on a length mismatch. The model treats every non-string head or tail as equal to no cell, which is exact only for scalars (numbers, booleans, null).
- The knowledge table is a sequence of string rows. CSV loading is not modelled: empty cells read as NaN, all-numeric columns read as numbers, and the check that the file exists (main.py:69-73).
- The `RelationNotString` verdict says that an exception escapes. The exception's type and text are not modelled.
- Model loading and text generation (main.py:21-29, main.py:55-63, Biobert.py:1-13) are not modelled. They are calls into a third-party text-generation library with sampling-based behaviour.
- Prompt templating (main.py:36-49) is not modelled. It is library string substitution.
- Writing the result record to a JSON file with directory creation (main.py:96-103) is not modelled. It is file output.
