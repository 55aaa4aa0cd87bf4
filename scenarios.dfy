/**
 * Worked examples of the rule table on small sheets: the documented
 * input/output pairs for the company name, representative, postal code,
 * phone number and URL fields, and the workbook that cannot be opened.
 */
module Scenarios {
  import opened Wrappers
  import opened Normalizers
  import opened Rules
  import opened Extraction
  import opened Text

  /** A sheet whose only non-empty cells are those in `cells`; no lookup fails. */
  function SheetOf(cells: map<string, string>): Sheet
  {
    coord => if coord in cells then Success(Some(cells[coord])) else Success(None)
  }

  /** On a sheet none of whose lookups fail, the table is extracted in full. */
  lemma SoundSheetEntry(cells: map<string, string>, i: nat)
    requires i < |ExtractionRules|
    ensures Extract(ExtractionRules, SheetOf(cells)).Success?
    ensures Extract(ExtractionRules, SheetOf(cells)).value[i]
            == Entry(ExtractionRules[i].name, Resolve(ExtractionRules[i], SheetOf(cells)).value)
  {
  }

  /** The entry of a normalized cell rule when its cell is the only one filled in. */
  lemma SingleCellEntry(i: nat, raw: string)
    requires i < |ExtractionRules| && ExtractionRules[i].Cell? && ExtractionRules[i].format.Some?
    ensures Extract(ExtractionRules, SheetOf(map[ExtractionRules[i].coord := raw])).value[i]
            == Entry(ExtractionRules[i].name, Apply(ExtractionRules[i].format.value, raw))
  {
    SoundSheetEntry(map[ExtractionRules[i].coord := raw], i);
  }

  lemma CompanyNameScenario()
    ensures Extract(ExtractionRules, SheetOf(map["C6" := "Acme Corp"])).value[1]
            == Entry("企業名", "Acme Corp")
  {
    SoundSheetEntry(map["C6" := "Acme Corp"], 1);
  }

  lemma RepresentativeScenario()
    ensures Extract(ExtractionRules, SheetOf(map["C8" := "山田　太郎"])).value[3]
            == Entry("代表者", "山田 太郎")
  {
    SingleCellEntry(3, "山田　太郎");
    assert FullWidthToAscii("山田　太郎") == "山田 太郎";
  }

  /** A postal code after a postal mark comes out without the mark: `〒123-4567` gives `123-4567`. */
  lemma PostalCodeScenario(code: string)
    requires PostalMark !in code && NoEdgeSpace(code)
    ensures Extract(ExtractionRules, SheetOf(map["C10" := [PostalMark] + code])).value[5]
            == Entry("郵便番号", code)
  {
    SingleCellEntry(5, [PostalMark] + code);
    RemoveCharConcat([PostalMark], code, PostalMark);
    RemoveAbsentChar(code, PostalMark);
    StripClean(code);
  }

  /**
   * A phone number whose three groups are separated by prolonged sound marks
   * comes out as the groups joined: `03ー1234ー5678` gives `0312345678`.
   */
  lemma PhoneScenario(a: string, b: string, c: string)
    requires '-' !in a && '-' !in b && '-' !in c
    requires ProlongedSoundMark !in a && ProlongedSoundMark !in b && ProlongedSoundMark !in c
    ensures Extract(ExtractionRules, SheetOf(map["C7" := a + [ProlongedSoundMark] + b + [ProlongedSoundMark] + c])).value[7]
            == Entry("TEL", a + b + c)
  {
    var m := ProlongedSoundMark;
    var ab := a + [m] + b;
    var s := ab + [m] + c;
    SingleCellEntry(7, s);
    assert '-' !in s;
    RemoveAbsentChar(s, '-');
    DropSeparator(ab, c, m);
    DropSeparator(a, b, m);
    RemoveAbsentChar(a, m);
    RemoveAbsentChar(b, m);
    RemoveAbsentChar(c, m);
  }

  /** Deleting a character around which a text is split joins the two sides. */
  lemma DropSeparator(x: string, y: string, c: char)
    ensures RemoveChar(x + [c] + y, c) == RemoveChar(x, c) + RemoveChar(y, c)
  {
    RemoveCharConcat(x + [c], y, c);
    RemoveCharConcat(x, [c], c);
    assert [c][1..] == [];
    assert RemoveChar([c], c) == [];
    assert RemoveChar(x, c) + [] == RemoveChar(x, c);
  }

  /**
   * A company URL without a scheme gets `https://` (`example.com` gives
   * `https://example.com`); one with a scheme is kept as it is.
   */
  lemma UrlScenario(url: string)
    requires url != ""
    ensures !HasScheme(url) ==>
              Extract(ExtractionRules, SheetOf(map["D13" := url])).value[9] == Entry("会社URL", HttpsPrefix + url)
    ensures HasScheme(url) ==>
              Extract(ExtractionRules, SheetOf(map["D13" := url])).value[9] == Entry("会社URL", url)
  {
    SingleCellEntry(9, url);
  }

  lemma PostalCodeExample()
    ensures Extract(ExtractionRules, SheetOf(map["C10" := "〒123-4567"])).value[5] == Entry("郵便番号", "123-4567")
  {
    assert "〒123-4567" == [PostalMark] + "123-4567";
    PostalCodeScenario("123-4567");
  }

  lemma PhoneExample()
    ensures Extract(ExtractionRules, SheetOf(map["C7" := "03ー1234ー5678"])).value[7] == Entry("TEL", "0312345678")
  {
    var m := ProlongedSoundMark;
    assert "03ー1234ー5678" == "03" + [m] + "1234" + [m] + "5678";
    assert "0312345678" == "03" + "1234" + "5678";
    PhoneScenario("03", "1234", "5678");
  }

  lemma UrlExample()
    ensures Extract(ExtractionRules, SheetOf(map["D13" := "example.com"])).value[9]
            == Entry("会社URL", "https://example.com")
  {
    var url := "example.com";
    assert url[0] != HttpPrefix[0] && url[0] != HttpsPrefix[0];
    assert !HasScheme(url);
    assert HttpsPrefix + url == "https://example.com";
    UrlScenario(url);
  }

  lemma UrlWithSchemeExample()
    ensures Extract(ExtractionRules, SheetOf(map["D13" := "https://example.com"])).value[9]
            == Entry("会社URL", "https://example.com")
  {
    assert HasScheme("https://example.com");
    UrlScenario("https://example.com");
  }

  /** A workbook that cannot be opened gives an error and no list. */
  method UnreadableWorkbookScenario() returns (r: Result<seq<Entry>, string>)
    ensures r == Failure(ErrorPrefix + "File is not a zip file")
  {
    r := Upload(Failure("File is not a zip file"));
  }
}
