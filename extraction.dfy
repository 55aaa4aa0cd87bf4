/**
 * The extraction engine: the loop in `upload_file` that walks the rule table
 * in order, resolves each rule against the active sheet or its fixed text,
 * and appends one (label, value) entry per rule. Any exception ends the whole
 * extraction with an error and no list.
 */
module Extraction {
  import opened Wrappers
  import opened Normalizers
  import opened Rules

  /**
   * The active sheet as the engine sees it: looking up a coordinate gives the
   * cell's value already converted to text (Some), an empty cell (None), or
   * the message of the exception the lookup raised.
   */
  type Sheet = string -> Result<Option<string>, string>

  /** One `{'label': ..., 'value': ...}` pair of the output list. */
  datatype Entry = Entry(name: string, value: string)

  /** The labels of `entries`, in order. */
  function EntryNames(entries: seq<Entry>): seq<string>
  {
    seq(|entries|, i requires 0 <= i < |entries| => entries[i].name)
  }

  /**
   * The value one rule contributes: a fixed rule's text; for a cell rule, ''
   * when the cell is empty, otherwise its text run through the rule's
   * normalizer if it has one; or the lookup's exception. Only a cell lookup
   * can fail, and a normalized value is one its normalizer leaves unchanged.
   */
  function Resolve(rule: Rule, sheet: Sheet): (r: Result<string, string>)
    ensures r.Failure? <==> rule.Cell? && sheet(rule.coord).Failure?
    ensures r.Failure? ==> r.error == sheet(rule.coord).error
    ensures rule.Fixed? ==> r == Success(rule.text)
    ensures rule.Cell? && (sheet(rule.coord) == Success(None) || sheet(rule.coord) == Success(Some(""))) ==>
              r == Success("")
    ensures rule.Cell? && rule.format.None? && sheet(rule.coord).Success? && sheet(rule.coord).value.Some? ==>
              r == Success(sheet(rule.coord).value.value)
    ensures rule.Cell? && rule.format.Some? && sheet(rule.coord).Success? && sheet(rule.coord).value.Some? ==>
              r == Success(Apply(rule.format.value, sheet(rule.coord).value.value))
    ensures rule.Cell? && rule.format.Some? && r.Success? ==> Apply(rule.format.value, r.value) == r.value
  {
    match rule
    case Fixed(_, text) => Success(text)
    case Cell(_, coord, format) =>
      match sheet(coord)
      case Failure(e) => Failure(e)
      case Success(None) => Success("")
      case Success(Some(raw)) =>
        if format.Some? then
          ApplyIdempotent(format.value, raw);
          Success(Apply(format.value, raw))
        else Success(raw)
  }

  /**
   * The list the loop builds for `rules`, or the first exception it meets.
   * It succeeds exactly when every rule resolves, and then holds one entry
   * per rule, with that rule's label and resolved value, in rule order.
   */
  function Extract(rules: seq<Rule>, sheet: Sheet): (r: Result<seq<Entry>, string>)
    ensures r.Success? <==> forall i :: 0 <= i < |rules| ==> Resolve(rules[i], sheet).Success?
    ensures r.Success? ==> |r.value| == |rules|
    ensures r.Success? ==> forall i :: 0 <= i < |rules| ==>
              r.value[i] == Entry(rules[i].name, Resolve(rules[i], sheet).value)
    decreases |rules|
  {
    if rules == [] then Success([])
    else
      var last := rules[|rules| - 1];
      match Extract(rules[..|rules| - 1], sheet)
      case Failure(e) => Failure(e)
      case Success(prefix) =>
        match Resolve(last, sheet)
        case Failure(e) => Failure(e)
        case Success(v) => Success(prefix + [Entry(last.name, v)])
  }

  /**
   * The loop of `upload_file` over `rules`: `value` starts as '', a cell rule
   * reads its cell and, when the cell is not empty, takes its text and runs
   * the rule's normalizer on it; a fixed rule takes its text; the entry is
   * appended. An exception from a lookup leaves the loop with no list.
   */
  method ExtractEntries(rules: seq<Rule>, sheet: Sheet) returns (r: Result<seq<Entry>, string>)
    ensures r == Extract(rules, sheet)
  {
    var extracted: seq<Entry> := [];
    var i := 0;
    while i < |rules|
      invariant 0 <= i <= |rules|
      invariant Extract(rules[..i], sheet) == Success(extracted)
    {
      var rule := rules[i];
      var value := "";
      match rule {
        case Cell(_, coord, format) =>
          var cell := sheet(coord);
          if cell.Failure? {
            assert rules[..i + 1][..i] == rules[..i];
            ExtractStopsAtFault(rules, sheet, i);
            return Failure(cell.error);
          }
          if cell.value.Some? {
            value := cell.value.value;
            if format.Some? {
              value := Apply(format.value, value);
            }
          }
        case Fixed(_, text) =>
          value := text;
      }
      assert rules[..i + 1][..i] == rules[..i];
      extracted := extracted + [Entry(rule.name, value)];
      i := i + 1;
    }
    assert rules[..i] == rules;
    return Success(extracted);
  }

  /**
   * All or nothing: when rule `k` is the first that fails to resolve, the
   * extraction fails with that rule's error, whatever comes after it.
   */
  lemma {:induction false} ExtractStopsAtFault(rules: seq<Rule>, sheet: Sheet, k: nat)
    requires k < |rules| && Resolve(rules[k], sheet).Failure?
    requires forall j :: 0 <= j < k ==> Resolve(rules[j], sheet).Success?
    ensures Extract(rules, sheet) == Failure(Resolve(rules[k], sheet).error)
    decreases |rules|
  {
    var init := rules[..|rules| - 1];
    if k < |rules| - 1 {
      assert init[k] == rules[k];
      ExtractStopsAtFault(init, sheet, k);
    } else {
      assert forall j :: 0 <= j < |init| ==> init[j] == rules[j];
    }
  }

  /** The output labels are the rule labels, one for one, in rule order. */
  lemma ExtractKeepsLabels(rules: seq<Rule>, sheet: Sheet)
    requires Extract(rules, sheet).Success?
    ensures EntryNames(Extract(rules, sheet).value) == RuleNames(rules)
  {
  }

  /**
   * The extraction reads nothing but the cells its rules name: two sheets
   * that agree on those cells give the same result.
   */
  lemma {:induction false} ExtractReadsOnlyRuleCells(rules: seq<Rule>, s1: Sheet, s2: Sheet)
    requires forall i :: 0 <= i < |rules| && rules[i].Cell? ==> s1(rules[i].coord) == s2(rules[i].coord)
    ensures Extract(rules, s1) == Extract(rules, s2)
    decreases |rules|
  {
    if rules != [] {
      var init := rules[..|rules| - 1];
      assert forall i :: 0 <= i < |init| ==> init[i] == rules[i];
      ExtractReadsOnlyRuleCells(init, s1, s2);
      var last := rules[|rules| - 1];
      assert Resolve(last, s1) == Resolve(last, s2);
    }
  }

  /** A fixed rule's entry is its text, for every sheet the extraction succeeds on. */
  lemma FixedValueIgnoresSheet(rules: seq<Rule>, sheet: Sheet, i: nat)
    requires i < |rules| && rules[i].Fixed?
    requires Extract(rules, sheet).Success?
    ensures Extract(rules, sheet).value[i] == Entry(rules[i].name, rules[i].text)
  {
  }

  /**
   * An empty cell gives '' whatever normalizer its rule names, and so does a
   * cell whose text is '': no normalizer changes empty text.
   */
  lemma EmptyCellGivesEmptyValue(rules: seq<Rule>, sheet: Sheet, i: nat)
    requires i < |rules| && rules[i].Cell?
    requires sheet(rules[i].coord) == Success(None) || sheet(rules[i].coord) == Success(Some(""))
    requires Extract(rules, sheet).Success?
    ensures Extract(rules, sheet).value[i] == Entry(rules[i].name, "")
  {
  }

  /**
   * A non-empty cell's entry is its text, normalized when the rule names a
   * normalizer; normalizing that entry once more changes nothing.
   */
  lemma PresentCellValue(rules: seq<Rule>, sheet: Sheet, i: nat, raw: string)
    requires i < |rules| && rules[i].Cell? && sheet(rules[i].coord) == Success(Some(raw))
    requires Extract(rules, sheet).Success?
    ensures rules[i].format.None? ==> Extract(rules, sheet).value[i].value == raw
    ensures rules[i].format.Some? ==>
              var v := Extract(rules, sheet).value[i].value;
              v == Apply(rules[i].format.value, raw) && Apply(rules[i].format.value, v) == v
  {
    if rules[i].format.Some? {
      ApplyIdempotent(rules[i].format.value, raw);
    }
  }

  /** The message `upload_file` reports for any exception in its `try` block. */
  const ErrorPrefix: string := "処理中にエラーが発生しました: "

  /**
   * The `try` block of `upload_file` past saving the file: the workbook's
   * active sheet, or the exception opening it raised, is run through the
   * rule table. On success the list has the table's labels in order and ends
   * with the six fixed texts; on failure the message is the fault's,
   * prefixed, and there is no list.
   */
  method Upload(workbook: Result<Sheet, string>) returns (r: Result<seq<Entry>, string>)
    ensures r.Success? ==> workbook.Success? && r == Extract(ExtractionRules, workbook.value)
    ensures r.Success? ==> EntryNames(r.value) == RuleNames(ExtractionRules)
    ensures r.Success? ==> forall i :: CellRuleCount <= i < |ExtractionRules| ==>
              ExtractionRules[i].Fixed? && r.value[i] == Entry(ExtractionRules[i].name, ExtractionRules[i].text)
    ensures workbook.Failure? ==> r == Failure(ErrorPrefix + workbook.error)
    ensures workbook.Success? ==>
              (r.Failure? <==> exists i :: 0 <= i < CellRuleCount && ExtractionRules[i].Cell? &&
                                            workbook.value(ExtractionRules[i].coord).Failure?)
    ensures workbook.Success? && r.Failure? ==>
              r == Failure(ErrorPrefix + Extract(ExtractionRules, workbook.value).error)
  {
    if workbook.Failure? {
      return Failure(ErrorPrefix + workbook.error);
    }
    var sheet := workbook.value;
    var extracted := ExtractEntries(ExtractionRules, sheet);
    RuleTableShape();
    if extracted.Failure? {
      return Failure(ErrorPrefix + extracted.error);
    }
    ExtractKeepsLabels(ExtractionRules, sheet);
    return Success(extracted.value);
  }
}
