/**
 * The extraction rules: what each output field is made of, and the
 * compiled-in table `EXTRACTION_RULES` the engine walks, in its order.
 */
module Rules {
  import opened Wrappers
  import opened Normalizers

  /**
   * A rule of kind 'cell' reads one cell of the active sheet and, when it
   * names one, runs a normalizer on the text read; a rule of kind 'fixed'
   * contributes its own text whatever the sheet holds.
   */
  datatype Rule =
    | Cell(name: string, coord: string, format: Option<Normalizer>)
    | Fixed(name: string, text: string)

  /** The rule table, in output order: eleven cell rules, then six fixed texts. */
  const ExtractionRules: seq<Rule> := [
    Cell("ディレクトリ名", "G30", None),
    Cell("企業名", "C6", None),
    Cell("フリガナ", "C5", None),
    Cell("代表者", "C8", Some(FullWidthSpace)),
    Cell("担当者", "C24", Some(FullWidthSpace)),
    Cell("郵便番号", "C10", Some(PostalCode)),
    Cell("所在地詳細", "E12", Some(FullWidthSpace)),
    Cell("TEL", "C7", Some(PhoneNumber)),
    Cell("FAX", "H7", Some(PhoneNumber)),
    Cell("会社URL", "D13", Some(WebUrl)),
    Cell("企業メールアドレス", "G32", None),
    Fixed("担当1", "清水隼人"),
    Fixed("担当2", "山賀徳能"),
    Fixed("担当3", "竹下章太郎"),
    Fixed("担当4", "成重裕樹"),
    Fixed("担当5", "石塚 恵"),
    Fixed("担当6", "千々和崇")
  ]

  /** Number of cell rules at the head of the table. */
  const CellRuleCount: nat := 11

  /** The labels of `rules`, in order. */
  function RuleNames(rules: seq<Rule>): seq<string>
  {
    seq(|rules|, i requires 0 <= i < |rules| => rules[i].name)
  }

  predicate IsUpper(c: char) { 'A' <= c <= 'Z' }
  predicate IsDigit(c: char) { '0' <= c <= '9' }

  /** Number of column letters at the head of a coordinate. */
  function ColumnLength(coord: string): (k: nat)
    ensures k <= |coord|
    ensures forall i :: 0 <= i < k ==> IsUpper(coord[i])
    ensures k < |coord| ==> !IsUpper(coord[k])
  {
    if coord != [] && IsUpper(coord[0]) then 1 + ColumnLength(coord[1..]) else 0
  }

  /** An A1-style reference: column letters, then a row number without a leading zero. */
  predicate IsCellReference(coord: string)
  {
    var k := ColumnLength(coord);
    0 < k < |coord| && coord[k] != '0' && forall i :: k <= i < |coord| ==> IsDigit(coord[i])
  }

  /** The table has eleven cell rules followed by six fixed rules. */
  lemma RuleTableShape()
    ensures |ExtractionRules| == CellRuleCount + 6
    ensures forall i :: 0 <= i < CellRuleCount ==> ExtractionRules[i].Cell?
    ensures forall i :: CellRuleCount <= i < |ExtractionRules| ==> ExtractionRules[i].Fixed?
  {
  }

  /** Every cell rule of the table names a well-formed A1 reference. */
  lemma RuleTableCoordinates()
    ensures forall i :: 0 <= i < CellRuleCount ==> IsCellReference(ExtractionRules[i].coord)
  {
    forall i | 0 <= i < CellRuleCount
      ensures IsCellReference(ExtractionRules[i].coord)
    {
      SingleLetterReference(ExtractionRules[i].coord);
    }
  }

  /** A column letter followed by a row number is a cell reference. */
  lemma SingleLetterReference(coord: string)
    requires 2 <= |coord| && IsUpper(coord[0]) && '1' <= coord[1] <= '9'
    requires forall i :: 1 <= i < |coord| ==> IsDigit(coord[i])
    ensures IsCellReference(coord)
  {
    assert ColumnLength(coord[1..]) == 0;
  }

  /** No label occurs twice in the table. */
  lemma RuleTableLabelsDistinct()
    ensures forall i, j :: 0 <= i < j < |ExtractionRules| ==> ExtractionRules[i].name != ExtractionRules[j].name
  {
  }
}
