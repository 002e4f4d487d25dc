/** Data extraction (src/backend/extraction/data_document_extraction.py):
    the schema chosen for a document type, the composition of the prompt
    from its template, and the single model call made for one document. */
module Extraction {
  import opened Wrappers
  import opened PyStr
  import opened Commons
  import opened Learning

  // ---------------------------------------------------------------------
  // Schemas

  /** One line of a schema text: a quoted field key with its description,
      or free text. */
  datatype SchemaLine = Field(key: string, description: string) | Note(text: string)

  /** Indentation of the lines inside the braces, and of the closing brace. */
  const LineIndent := "                    "
  const CloseIndent := "                "

  /** The text of a line without its indentation. */
  function LineBody(l: SchemaLine): string {
    match l
    case Field(k, d) => "\"" + k + "\": \"" + d + "\","
    case Note(t) => t
  }

  function RenderLine(l: SchemaLine): string {
    "\n" + LineIndent + LineBody(l)
  }

  function RenderLines(lines: seq<SchemaLine>): string
    decreases |lines|
  {
    if lines == [] then "" else RenderLines(lines[..|lines| - 1]) + RenderLine(lines[|lines| - 1])
  }

  /** The schema text: the lines between an opening and a closing brace. */
  function RenderSchema(lines: seq<SchemaLine>): string {
    "{" + RenderLines(lines) + "\n" + CloseIndent + "}"
  }

  /** The keys of the field lines, in order. */
  function KeysOf(lines: seq<SchemaLine>): seq<string>
    decreases |lines|
  {
    if lines == [] then []
    else
      var last := lines[|lines| - 1];
      KeysOf(lines[..|lines| - 1]) + (if last.Field? then [last.key] else [])
  }

  const BankStatement := "bank_statement"
  const GovernmentId := "government_id"
  const W9Form := "w9_form"
  const CertificateOfInsurance := "certificate_of_insurance"

  // The descriptions are written as concatenations of short literals, and
  // each is checked for braces on its own, which keeps those checks small.

  const AccountHolderNameText := "Name of the " + "person or " + "entity owning " + "the account."
  const AccountNumberMaskedText := "Last 4 digits " + "of the account " + "number (e.g., "
    + "'****1234')."
  const StatementStartDateText := "Start date of " + "the statement " + "period " + "(YYYY-MM-DD)."
  const StatementEndDateText := "End date of the " + "statement " + "period " + "(YYYY-MM-DD)."
  const StartingBalanceText := "Balance at the " + "beginning of " + "the period " + "(number)."
  const EndingBalanceText := "Balance at the " + "end of the " + "period (number)."

  const BankStatementLines := [
    Field("account_holder_name", AccountHolderNameText),
    Field("account_number_masked", AccountNumberMaskedText),
    Field("statement_start_date", StatementStartDateText),
    Field("statement_end_date", StatementEndDateText),
    Field("starting_balance", StartingBalanceText),
    Field("ending_balance", EndingBalanceText)]

  const FullNameText := "Full legal name " + "as displayed on " + "the ID."
  const DateOfBirthText := "Date of birth " + "(YYYY-MM-DD)."
  const IdNumberText := "The unique " + "license or " + "passport number."
  const AddressText := "Full " + "residential " + "address if " + "present."
  const ExpirationDateText := "Date the ID " + "expires " + "(YYYY-MM-DD)."

  const GovernmentIdLines := [
    Field("full_name", FullNameText),
    Field("date_of_birth", DateOfBirthText),
    Field("id_number", IdNumberText),
    Field("address", AddressText),
    Field("expiration_date", ExpirationDateText)]

  const LegalNameText := "Name as shown " + "on your income " + "tax return."
  const EinOrSsnText := "The Employer " + "Identification " + "Number or " + "Social Security "
    + "Number (digits " + "only)."
  const BusinessAddressText := "Address " + "(number, " + "street, and " + "apt. or suite "
    + "no.)."
  const TaxClassificationText := "Check the " + "appropriate box " + "(e.g., "
    + "'Individual/proprietor', " + "'C " + "Corporation', " + "'S " + "Corporation', "
    + "'Partnership', " + "'Trust/estate', " + "'LLC')."
  const SignaturePresentText := "Boolean (true " + "if a signature " + "is visible in "
    + "Part II, else " + "false)."

  const W9FormLines := [
    Field("legal_name", LegalNameText),
    Field("ein_or_ssn", EinOrSsnText),
    Field("business_address", BusinessAddressText),
    Field("tax_classification", TaxClassificationText),
    Field("signature_present", SignaturePresentText)]

  const InsuredNameText := "Name of the " + "insured entity."
  const PolicyNumberText := "The policy " + "number for " + "General " + "Liability or "
    + "primary policy."
  const PolicyEffectiveDateText := "Policy " + "effective start " + "date " + "(YYYY-MM-DD)."
  const PolicyExpirationDateText := "Policy " + "expiration date " + "(YYYY-MM-DD)."
  const CoverageTypesText := "List of " + "strings. Detect " + "active sections " + "like "
    + "'Commercial " + "General " + "Liability', " + "'Automobile " + "Liability', " + "'Umbrella "
    + "Liability', " + "'Workers " + "Compensation'."

  const CertificateOfInsuranceLines := [
    Field("insured_name", InsuredNameText),
    Field("policy_number", PolicyNumberText),
    Field("policy_effective_date", PolicyEffectiveDateText),
    Field("policy_expiration_date", PolicyExpirationDateText),
    Field("coverage_types", CoverageTypesText)]

  const SuggestedLabelText := "A short " + "classification " + "of what this " + "document "
    + "appears to be " + "(e.g., " + "'Invoice', " + "'Contract', " + "'Bank " + "Statement', "
    + "'Receipt')."
  const SummaryText := "A brief " + "1-sentence " + "summary of the " + "document " + "contents."
  const ImportantFieldsText := "FIELDS THAT YOU " + "FIND IMPORTANT " + "IN THE DOCUMENT"

  /** The catch-all schema: two fields and an open invitation. */
  const GenericLines := [
    Field("suggested_label", SuggestedLabelText),
    Field("summary", SummaryText),
    Note(ImportantFieldsText)]

  /** The schema lines `_get_schema` returns for a document type. */
  function SchemaLines(documentType: string): seq<SchemaLine> {
    if documentType == BankStatement then BankStatementLines
    else if documentType == GovernmentId then GovernmentIdLines
    else if documentType == W9Form then W9FormLines
    else if documentType == CertificateOfInsurance then CertificateOfInsuranceLines
    else GenericLines
  }

  /** `_get_schema`: the schema text for a document type, total over all
      strings. It opens with a brace and a line break, closes with a brace,
      and holds no other opening brace. */
  function GetSchema(documentType: string): (r: string)
    ensures |r| >= 2 && r[0] == '{' && r[1] == '\n' && r[|r| - 1] == '}'
    ensures '{' !in r[1..]
  {
    var lines := SchemaLines(documentType);
    RenderSchemaShape(lines);
    SchemaLinesBraceFree(documentType);
    RenderLinesBraceFree(lines);
    RenderSchemaTail(lines);
    RenderSchema(lines)
  }

  lemma {:induction false} RenderLinesStart(lines: seq<SchemaLine>)
    ensures lines != [] ==> |RenderLines(lines)| > 0 && RenderLines(lines)[0] == '\n'
    decreases |lines|
  {
    if lines != [] {
      RenderLinesStart(lines[..|lines| - 1]);
    }
  }

  /** Every schema text opens with a brace and a line break and closes with
      a brace. */
  lemma RenderSchemaShape(lines: seq<SchemaLine>)
    ensures var s := RenderSchema(lines);
            |s| >= 2 && s[0] == '{' && s[1] == '\n' && s[|s| - 1] == '}'
  {
    RenderLinesStart(lines);
  }

  /** Past the opening brace, a schema text is its lines and the closing
      brace. */
  lemma RenderSchemaTail(lines: seq<SchemaLine>)
    requires '{' !in RenderLines(lines)
    ensures '{' !in RenderSchema(lines)[1..]
  {
    var close := "\n" + CloseIndent + "}";
    assert '{' !in close;
    var tail := RenderLines(lines) + close;
    assert RenderSchema(lines) == "{" + tail;
    assert ("{" + tail)[1..] == tail;
  }

  /** The rendering of one line sits between the renderings of the lines
      before and after it. */
  lemma {:induction false} RenderLinesSplit(lines: seq<SchemaLine>, i: nat) returns (pre: string, post: string)
    requires i < |lines|
    ensures RenderLines(lines) == pre + RenderLine(lines[i]) + post
    decreases |lines|
  {
    var init, last := lines[..|lines| - 1], lines[|lines| - 1];
    if i == |lines| - 1 {
      pre, post := RenderLines(init), "";
    } else {
      pre, post := RenderLinesSplit(init, i);
      assert init[i] == lines[i];
      post := post + RenderLine(last);
    }
  }

  lemma {:induction false} KeysOfFields(lines: seq<SchemaLine>, k: string) returns (i: nat)
    requires k in KeysOf(lines)
    ensures i < |lines| && lines[i].Field? && lines[i].key == k
    decreases |lines|
  {
    var init := lines[..|lines| - 1];
    if k in KeysOf(init) {
      i := KeysOfFields(init, k);
      assert lines[i] == init[i];
    } else {
      i := |lines| - 1;
    }
  }

  /** Each field key appears in the schema text, quoted and followed by a
      colon. */
  lemma RenderSchemaMentionsKeys(lines: seq<SchemaLine>, k: string)
    requires k in KeysOf(lines)
    ensures Occurs(RenderSchema(lines), "\"" + k + "\":")
  {
    var i := KeysOfFields(lines, k);
    var pre, post := RenderLinesSplit(lines, i);
    var p := "\"" + k + "\":";
    var rest := " \"" + lines[i].description + "\",";
    assert LineBody(lines[i]) == p + rest;
    var x := "{" + pre + "\n" + LineIndent;
    var y := post + "\n" + CloseIndent + "}";
    Regroup("{", pre, "\n", LineIndent, p + rest, post, "\n", CloseIndent, "}");
    Regroup3(x, p, rest, y);
    OccursBetween(x, p, rest + y);
  }

  lemma Regroup(o: string, pre: string, nl: string, ind: string, body: string, post: string,
                nl2: string, ci: string, c: string)
    ensures o + (pre + (nl + ind + body) + post) + nl2 + ci + c
            == (o + pre + nl + ind) + body + (post + nl2 + ci + c)
  {
  }

  lemma Regroup3(x: string, p: string, r: string, y: string)
    ensures x + (p + r) + y == x + p + (r + y)
  {
  }

  lemma OccursBetween(x: string, p: string, y: string)
    ensures OccursAt(x + p + y, p, |x|)
  {
    assert (x + p + y)[|x|..|x| + |p|] == p;
  }

  /** The keys of lines that are all fields are their keys in order. */
  lemma {:induction false} KeysOfFieldLines(lines: seq<SchemaLine>)
    requires forall i :: 0 <= i < |lines| ==> lines[i].Field?
    ensures KeysOf(lines) == seq(|lines|, i requires 0 <= i < |lines| => lines[i].key)
    decreases |lines|
  {
    if lines != [] {
      KeysOfFieldLines(lines[..|lines| - 1]);
    }
  }

  /** The keys each schema asks for: six for a bank statement, five for each
      other named type, and the two generic keys for every other type. */
  lemma SchemaKeys(documentType: string)
    ensures documentType == BankStatement ==>
              KeysOf(SchemaLines(documentType))
              == ["account_holder_name", "account_number_masked", "statement_start_date",
                  "statement_end_date", "starting_balance", "ending_balance"]
    ensures documentType == GovernmentId ==>
              KeysOf(SchemaLines(documentType))
              == ["full_name", "date_of_birth", "id_number", "address", "expiration_date"]
    ensures documentType == W9Form ==>
              KeysOf(SchemaLines(documentType))
              == ["legal_name", "ein_or_ssn", "business_address", "tax_classification", "signature_present"]
    ensures documentType == CertificateOfInsurance ==>
              KeysOf(SchemaLines(documentType))
              == ["insured_name", "policy_number", "policy_effective_date", "policy_expiration_date", "coverage_types"]
    ensures documentType !in {BankStatement, GovernmentId, W9Form, CertificateOfInsurance} ==>
              KeysOf(SchemaLines(documentType)) == ["suggested_label", "summary"]
  {
    if documentType == BankStatement {
      BankStatementKeys();
    } else if documentType == GovernmentId {
      GovernmentIdKeys();
    } else if documentType == W9Form {
      W9FormKeys();
    } else if documentType == CertificateOfInsurance {
      CertificateOfInsuranceKeys();
    } else {
      GenericKeys();
    }
  }

  lemma BankStatementKeys()
    ensures KeysOf(BankStatementLines)
            == ["account_holder_name", "account_number_masked", "statement_start_date",
                "statement_end_date", "starting_balance", "ending_balance"]
  {
    KeysOfFieldLines(BankStatementLines);
  }

  lemma GovernmentIdKeys()
    ensures KeysOf(GovernmentIdLines) == ["full_name", "date_of_birth", "id_number", "address", "expiration_date"]
  {
    KeysOfFieldLines(GovernmentIdLines);
  }

  lemma W9FormKeys()
    ensures KeysOf(W9FormLines)
            == ["legal_name", "ein_or_ssn", "business_address", "tax_classification", "signature_present"]
  {
    KeysOfFieldLines(W9FormLines);
  }

  lemma CertificateOfInsuranceKeys()
    ensures KeysOf(CertificateOfInsuranceLines)
            == ["insured_name", "policy_number", "policy_effective_date", "policy_expiration_date", "coverage_types"]
  {
    KeysOfFieldLines(CertificateOfInsuranceLines);
  }

  lemma GenericKeys()
    ensures KeysOf(GenericLines) == ["suggested_label", "summary"]
  {
    KeysOfFieldLines(GenericLines[..2]);
  }

  /** A line of schema text holds no opening brace. */
  predicate BraceFree(l: SchemaLine) {
    '{' !in LineBody(l)
  }

  lemma LineBraceFree(l: SchemaLine)
    requires l.Field? ==> '{' !in l.key && '{' !in l.description
    requires l.Note? ==> '{' !in l.text
    ensures BraceFree(l)
  {
  }

  lemma {:induction false} RenderLinesBraceFree(lines: seq<SchemaLine>)
    requires forall i :: 0 <= i < |lines| ==> BraceFree(lines[i])
    ensures '{' !in RenderLines(lines)
    decreases |lines|
  {
    if lines != [] {
      RenderLinesBraceFree(lines[..|lines| - 1]);
      assert '{' !in LineIndent;
    }
  }

  /** No line of any schema holds an opening brace. */
  lemma SchemaLinesBraceFree(documentType: string)
    ensures forall i :: 0 <= i < |SchemaLines(documentType)| ==> BraceFree(SchemaLines(documentType)[i])
  {
    if documentType == BankStatement {
      AccountHolderNameBraceFree(); AccountNumberMaskedBraceFree(); StatementStartDateBraceFree();
      StatementEndDateBraceFree(); StartingBalanceBraceFree(); EndingBalanceBraceFree();
    } else if documentType == GovernmentId {
      FullNameBraceFree(); DateOfBirthBraceFree(); IdNumberBraceFree(); AddressBraceFree();
      ExpirationDateBraceFree();
    } else if documentType == W9Form {
      LegalNameBraceFree(); EinOrSsnBraceFree(); BusinessAddressBraceFree();
      TaxClassificationBraceFree(); SignaturePresentBraceFree();
    } else if documentType == CertificateOfInsurance {
      InsuredNameBraceFree(); PolicyNumberBraceFree(); PolicyEffectiveDateBraceFree();
      PolicyExpirationDateBraceFree(); CoverageTypesBraceFree();
    } else {
      SuggestedLabelBraceFree(); SummaryBraceFree(); ImportantFieldsBraceFree();
    }
    var lines := SchemaLines(documentType);
    forall i | 0 <= i < |lines| ensures BraceFree(lines[i]) {
      LineBraceFree(lines[i]);
    }
  }

  lemma AccountHolderNameBraceFree() ensures '{' !in "account_holder_name" && '{' !in AccountHolderNameText {}
  lemma AccountNumberMaskedBraceFree() ensures '{' !in "account_number_masked" && '{' !in AccountNumberMaskedText {}
  lemma StatementStartDateBraceFree() ensures '{' !in "statement_start_date" && '{' !in StatementStartDateText {}
  lemma StatementEndDateBraceFree() ensures '{' !in "statement_end_date" && '{' !in StatementEndDateText {}
  lemma StartingBalanceBraceFree() ensures '{' !in "starting_balance" && '{' !in StartingBalanceText {}
  lemma EndingBalanceBraceFree() ensures '{' !in "ending_balance" && '{' !in EndingBalanceText {}
  lemma FullNameBraceFree() ensures '{' !in "full_name" && '{' !in FullNameText {}
  lemma DateOfBirthBraceFree() ensures '{' !in "date_of_birth" && '{' !in DateOfBirthText {}
  lemma IdNumberBraceFree() ensures '{' !in "id_number" && '{' !in IdNumberText {}
  lemma AddressBraceFree() ensures '{' !in "address" && '{' !in AddressText {}
  lemma ExpirationDateBraceFree() ensures '{' !in "expiration_date" && '{' !in ExpirationDateText {}
  lemma LegalNameBraceFree() ensures '{' !in "legal_name" && '{' !in LegalNameText {}
  lemma EinOrSsnBraceFree() ensures '{' !in "ein_or_ssn" && '{' !in EinOrSsnText {}
  lemma BusinessAddressBraceFree() ensures '{' !in "business_address" && '{' !in BusinessAddressText {}
  lemma TaxClassificationBraceFree() ensures '{' !in "tax_classification" && '{' !in TaxClassificationText {}
  lemma SignaturePresentBraceFree() ensures '{' !in "signature_present" && '{' !in SignaturePresentText {}
  lemma InsuredNameBraceFree() ensures '{' !in "insured_name" && '{' !in InsuredNameText {}
  lemma PolicyNumberBraceFree() ensures '{' !in "policy_number" && '{' !in PolicyNumberText {}
  lemma PolicyEffectiveDateBraceFree() ensures '{' !in "policy_effective_date" && '{' !in PolicyEffectiveDateText {}
  lemma PolicyExpirationDateBraceFree() ensures '{' !in "policy_expiration_date" && '{' !in PolicyExpirationDateText {}
  lemma CoverageTypesBraceFree() ensures '{' !in "coverage_types" && '{' !in CoverageTypesText {}
  lemma SuggestedLabelBraceFree() ensures '{' !in "suggested_label" && '{' !in SuggestedLabelText {}
  lemma SummaryBraceFree() ensures '{' !in "summary" && '{' !in SummaryText {}
  lemma ImportantFieldsBraceFree() ensures '{' !in ImportantFieldsText {}

  /** Every document type outside the four named ones, `"unknown"`
      included, gets the same generic schema. */
  lemma GenericSchemaForOtherTypes(t: string)
    requires t !in {BankStatement, GovernmentId, W9Form, CertificateOfInsurance}
    ensures GetSchema(t) == GetSchema("unknown") == RenderSchema(GenericLines)
  {
    assert "unknown" != BankStatement && "unknown" != GovernmentId;
    assert "unknown" != W9Form && "unknown" != CertificateOfInsurance;
  }

  // ---------------------------------------------------------------------
  // Prompt composition

  const SchemaPlaceholder := "{SPECIFIC_SCHEMA}"
  const NotesPlaceholder := "{LEARNING_NOTES}"

  /** The two passes of `extract_data_document`: every schema placeholder
      first, then every notes placeholder. A template with neither
      placeholder is sent unchanged. */
  function Compose(instruction: string, schema: string, notes: string): (r: string)
    ensures !Occurs(instruction, SchemaPlaceholder) && !Occurs(instruction, NotesPlaceholder) ==> r == instruction
  {
    ReplaceAbsentWhen(instruction, SchemaPlaceholder, schema);
    ReplaceAbsentWhen(instruction, NotesPlaceholder, notes);
    Replace(Replace(instruction, SchemaPlaceholder, schema), NotesPlaceholder, notes)
  }

  /** The characters of the placeholders that the passes depend on. */
  lemma PlaceholderChars()
    ensures |SchemaPlaceholder| >= 2 && SchemaPlaceholder[0] == '{' && SchemaPlaceholder[1] == 'S'
    ensures |NotesPlaceholder| >= 2 && NotesPlaceholder[0] == '{' && NotesPlaceholder[1] == 'L'
    ensures '{' !in NotesPlaceholder[1..]
  {
    forall i | 1 <= i < |NotesPlaceholder| ensures NotesPlaceholder[i] != '{' {
    }
  }

  /** The first pass over a template `a sp b np c`, where only the two
      placeholders hold an opening brace: the schema lands in place of `sp`
      and the notes placeholder is left for the second pass. */
  lemma FillSchema(a: string, b: string, c: string, sp: string, np: string, schema: string)
    requires |sp| >= 2 && |np| >= 2 && sp[0] == np[0] == '{' && sp[1] != np[1]
    requires '{' !in a && '{' !in b && '{' !in c && '{' !in np[1..]
    ensures Replace(a + sp + b + np + c, sp, schema) == a + schema + b + np + c
  {
    KeepOtherPlaceholder(np, c, sp, schema);
    ReplaceSkips(b, np + c, sp, schema);
    ReplaceHead(b + (np + c), sp, schema);
    ReplaceSkips(a, sp + (b + (np + c)), sp, schema);
    Assoc5(a, sp, b, np, c);
    Assoc5(a, schema, b, np, c);
  }

  /** A placeholder that differs from the pattern in its second character,
      followed by text without braces, is left as it is. */
  lemma KeepOtherPlaceholder(np: string, c: string, pat: string, rep: string)
    requires |pat| >= 2 && |np| >= 2 && np[1] != pat[1]
    requires '{' == pat[0] && '{' !in np[1..] && '{' !in c
    ensures Replace(np + c, pat, rep) == np + c
  {
    var tail := np[1..] + c;
    ReplaceSkips(tail, [], pat, rep);
    assert tail + [] == tail;
    ReplaceHeadMismatch(np + c, pat, rep);
    assert (np + c)[1..] == tail;
    assert [(np + c)[0]] + tail == np + c;
  }

  lemma Assoc5(a: string, b: string, c: string, d: string, e: string)
    ensures a + b + c + d + e == a + (b + (c + (d + e)))
  {
  }

  /** The second pass: the schema's only opening brace is its first
      character, so only the notes placeholder is replaced. */
  lemma FillNotes(a: string, b: string, c: string, np: string, schema: string, notes: string)
    requires |np| >= 2 && np[0] == '{' && np[1] != '\n'
    requires '{' !in a && '{' !in b && '{' !in c
    requires |schema| >= 2 && schema[0] == '{' && schema[1] == '\n' && '{' !in schema[1..]
    ensures Replace(a + schema + b + np + c, np, notes) == a + schema + b + notes + c
  {
    var y := b + (np + c);
    var tail := schema[1..] + b;
    assert schema[1..] + y == tail + (np + c);
    FillAfterText(tail, c, np, notes);
    SkipSchemaHead(schema, y, np, notes);
    assert [schema[0]] + (tail + (notes + c)) == schema + (b + (notes + c));
    ReplaceSkips(a, schema + y, np, notes);
    Assoc5(a, schema, b, np, c);
    Assoc5(a, schema, b, notes, c);
  }

  /** Text without braces, the notes placeholder, then text without
      braces: only the placeholder is replaced. */
  lemma FillAfterText(tail: string, c: string, np: string, notes: string)
    requires np != [] && np[0] == '{' && '{' !in tail && '{' !in c
    ensures Replace(tail + (np + c), np, notes) == tail + (notes + c)
  {
    ReplaceSkips(c, [], np, notes);
    assert c + [] == c;
    ReplaceHead(c, np, notes);
    ReplaceSkips(tail, np + c, np, notes);
  }

  /** The opening brace of a schema followed by a line break does not start
      the notes placeholder; the scan goes on after it. */
  lemma SkipSchemaHead(schema: string, y: string, np: string, notes: string)
    requires |np| >= 2 && np[1] != '\n'
    requires |schema| >= 2 && schema[1] == '\n'
    ensures Replace(schema + y, np, notes) == [schema[0]] + Replace(schema[1..] + y, np, notes)
  {
    var s := schema + y;
    assert s[1] == '\n';
    ReplaceHeadMismatch(s, np, notes);
    assert s[1..] == schema[1..] + y;
  }

  /** The template with one placeholder of each kind, in order, around text
      without braces, and a schema shaped like those of `_get_schema` whose
      only opening brace is its first character: the schema and the notes
      land in their places, and the notes are inserted as they are. */
  lemma ComposeFills(a: string, b: string, c: string, schema: string, notes: string)
    requires '{' !in a && '{' !in b && '{' !in c
    requires |schema| >= 2 && schema[0] == '{' && schema[1] == '\n' && '{' !in schema[1..]
    ensures Compose(a + SchemaPlaceholder + b + NotesPlaceholder + c, schema, notes)
            == a + schema + b + notes + c
  {
    PlaceholderChars();
    FillSchema(a, b, c, SchemaPlaceholder, NotesPlaceholder, schema);
    FillNotes(a, b, c, NotesPlaceholder, schema, notes);
  }

  /** The schema `_get_schema` gives for any document type satisfies what
      `ComposeFills` asks of a schema: in a template with one placeholder of
      each kind, it and the notes land in their places. */
  lemma ComposeSchemaFills(a: string, b: string, c: string, documentType: string, notes: string)
    requires '{' !in a && '{' !in b && '{' !in c
    ensures Compose(a + SchemaPlaceholder + b + NotesPlaceholder + c, GetSchema(documentType), notes)
            == a + GetSchema(documentType) + b + notes + c
  {
    ComposeFills(a, b, c, GetSchema(documentType), notes);
  }

  /** The notes are inserted as they are: a schema placeholder inside them
      is not filled. */
  lemma NotesInsertedVerbatim(schema: string, notes: string)
    ensures Compose(NotesPlaceholder, schema, notes) == notes
  {
    ReplaceAbsentShort(NotesPlaceholder, SchemaPlaceholder, schema);
    ReplaceHead([], NotesPlaceholder, notes);
    assert NotesPlaceholder + [] == NotesPlaceholder;
  }

  /** The schema text is scanned by the second pass: a notes placeholder
      inside it would be filled. */
  lemma SchemaScannedForNotes(schema: string, notes: string)
    ensures Compose(SchemaPlaceholder, schema, notes) == Replace(schema, NotesPlaceholder, notes)
  {
    ReplaceHead([], SchemaPlaceholder, schema);
    assert SchemaPlaceholder + [] == SchemaPlaceholder;
    assert schema + [] == schema;
  }

  // ---------------------------------------------------------------------
  // One extraction

  /** What the prompt loader's `create()` yields. */
  datatype Prompt = Prompt(instruction: string, model: string)

  /** One entry of `DocumentListExtractionOutput.extracted_fields`. */
  datatype ExtractedField = ExtractedField(name: string, value: string, confidence: real, page: int)

  datatype ExtractionError =
    | UnknownPrompt
    | ModelFailure(message: string)
    | ValidationFailure

  const JsonMimeType := "application/json"
  const ExtractionTemperature: real := 0.1

  /** The single request made for a document: the composed prompt, the
      prompt's model, the cached document, JSON output at temperature 0.1. */
  function ExtractionRequest(p: Prompt, documentContentId: string, documentType: string,
                             notes: string, outputSchema: string): (r: GenerateRequest)
    ensures r.model == p.model && r.documentCacheId == documentContentId
    ensures r.config.responseMimeType == "application/json" && r.config.temperature == 0.1
    ensures r.config.responseJsonSchema == outputSchema
    ensures !Occurs(p.instruction, SchemaPlaceholder) && !Occurs(p.instruction, NotesPlaceholder) ==>
              r.prompt == p.instruction
  {
    GenerateRequest(Compose(p.instruction, GetSchema(documentType), notes), p.model, documentContentId,
                    GenerateConfig(JsonMimeType, outputSchema, ExtractionTemperature))
  }

  /** For a template with one placeholder of each kind, schema first and no
      other `{`, the request's prompt is the template with the schema of the
      document type and the notes filled in. */
  lemma ExtractionRequestFills(p: Prompt, a: string, b: string, c: string, documentContentId: string,
                               documentType: string, notes: string, outputSchema: string)
    requires p.instruction == a + SchemaPlaceholder + b + NotesPlaceholder + c
    requires '{' !in a && '{' !in b && '{' !in c
    ensures ExtractionRequest(p, documentContentId, documentType, notes, outputSchema).prompt
            == a + GetSchema(documentType) + b + notes + c
  {
    ComposeSchemaFills(a, b, c, documentType, notes);
  }

  /** The result handed back for the model's reply: a failed call or a reply
      that does not validate is an error; otherwise the fields and the usage
      exactly as the model reported it. */
  function Outcome(reply: Result<GenerateReply, string>, validate: string -> Option<seq<ExtractedField>>)
    : (r: Result<(seq<ExtractedField>, Option<Usage>), ExtractionError>)
    ensures r.Success? <==> reply.Success? && validate(reply.value.text).Some?
    ensures r.Success? ==> r.value == (validate(reply.value.text).value, reply.value.usage)
    ensures reply.Failure? ==> r == Failure(ModelFailure(reply.error))
  {
    match reply
    case Failure(message) => Failure(ModelFailure(message))
    case Success(g) =>
      match validate(g.text)
      case None => Failure(ValidationFailure)
      case Some(fields) => Success((fields, g.usage))
  }

  /** `DataDocumentExtraction`: a model client, an optional prompt and the
      learning loop. The pydantic output schema and JSON validation are
      given as a text and a function. */
  class DataDocumentExtraction {
    const llmClient: LanguageModel
    const prompt: Option<Prompt>
    const learningLoop: LearningLoop
    const outputSchema: string
    const validate: string -> Option<seq<ExtractedField>>

    constructor(llmClient: LanguageModel, prompt: Option<Prompt>, learningLoop: LearningLoop,
                outputSchema: string, validate: string -> Option<seq<ExtractedField>>)
      ensures this.llmClient == llmClient && this.prompt == prompt && this.learningLoop == learningLoop
      ensures this.outputSchema == outputSchema && this.validate == validate
    {
      this.llmClient := llmClient;
      this.prompt := prompt;
      this.learningLoop := learningLoop;
      this.outputSchema := outputSchema;
      this.validate := validate;
    }

    /** `extract_data_document`: without a prompt, `UnknownPrompt` and no
        model call. Otherwise exactly one call, whose prompt is the template
        with the schema and the learning context of the same document type
        filled in, and whose reply decides the result. */
    method ExtractDataDocument(documentContentId: string, documentType: string)
      returns (r: Result<(seq<ExtractedField>, Option<Usage>), ExtractionError>)
      modifies llmClient
      ensures prompt.None? ==> r == Failure(UnknownPrompt) && llmClient.calls == old(llmClient.calls)
      ensures prompt.Some? ==>
                var request := ExtractionRequest(prompt.value, documentContentId, documentType,
                                                 LearningContext(learningLoop.db.records, documentType), outputSchema);
                && llmClient.calls == old(llmClient.calls) + [request]
                && r == Outcome(llmClient.respond(request), validate)
    {
      if prompt.None? {
        return Failure(UnknownPrompt);
      }
      var examplesText := learningLoop.GetLearningContext(documentType);
      var schema := GetSchema(documentType);
      var p := prompt.value;
      var promptSchema := Replace(p.instruction, SchemaPlaceholder, schema);
      promptSchema := Replace(promptSchema, NotesPlaceholder, examplesText);
      var reply := llmClient.Generate(
        GenerateRequest(promptSchema, p.model, documentContentId,
                        GenerateConfig(JsonMimeType, outputSchema, ExtractionTemperature)));
      r := Outcome(reply, validate);
    }
  }
}
