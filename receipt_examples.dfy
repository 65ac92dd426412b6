/**
  The parser and the retry rule on the concrete replies the receipt
  reader's own tests and prompt use.
*/
module ReceiptExamples {
  import opened Wrappers
  import opened PyStr
  import opened Numbers
  import opened Dates
  import opened ReceiptReader
  import opened ImageProcessing
  import opened ParserProperties

  /** Three pieces joined by a separator they do not contain split back. */
  lemma SplitThree(a: string, b: string, c: string, sep: char)
    requires sep !in a && sep !in b && sep !in c
    ensures Split(a + [sep] + b + [sep] + c, sep) == [a, b, c]
  {
    assert a + [sep] + b + [sep] + c == a + [sep] + (b + [sep] + c);
    SplitCons(a, b + [sep] + c, sep);
    SplitCons(b, c, sep);
    SplitNoSeparator(c, sep);
  }

  lemma DateExampleText()
    ensures DateText(2023, 8, 31) == "31/08/2023"
  {
  }

  lemma DateExample()
    ensures ParseDate("31/08/2023") == Some(Date(2023, 8, 31))
  {
    DateExampleText();
    assert IsValidDate(Date(2023, 8, 31)) by {}
    ParseDateText(2023, 8, 31);
  }

  lemma LeapDayText()
    ensures DateText(2024, 2, 29) == "29/02/2024"
  {
  }

  lemma NoLeapDayText()
    ensures DateText(2023, 2, 29) == "29/02/2023"
  {
  }

  /** 29 February exists in 2024 only. */
  lemma LeapDayExample()
    ensures ParseDate("29/02/2024") == Some(Date(2024, 2, 29))
  {
    LeapDayText();
    assert IsValidDate(Date(2024, 2, 29)) by {}
    ParseDateText(2024, 2, 29);
  }

  lemma NoLeapDayExample()
    ensures ParseDate("29/02/2023") == None
  {
    NoLeapDayText();
    assert !IsValidDate(Date(2023, 2, 29)) by {}
    ParseDateText(2023, 2, 29);
  }

  /** A reply whose header starts with 29 February 2023 is rejected as a
      whole. */
  lemma NoLeapDayRejectsReply(text: string)
    requires Strip(Split(Split(text, '\n')[0], ',')[0]) == "29/02/2023"
    ensures ParseLines(text) == None
  {
    NoLeapDayExample();
    BadDateRejectsReply(text);
  }

  /** Dashes instead of slashes are refused. */
  lemma DashedDateExample()
    ensures ParseDate("31-08-2023") == None
  {
    assert '/' !in "31-08-2023";
    SplitNoSeparator("31-08-2023", '/');
  }

  /** The year first is refused: `%d` matches at most two digits. */
  lemma YearFirstExample()
    ensures ParseDate("2023/08/31") == None
  {
    assert "2023/08/31" == "2023" + ['/'] + "08" + ['/'] + "31";
    SplitThree("2023", "08", "31", '/');
    assert !IsDayText("2023");
  }

  /** `%d` also takes a space before a single digit. A header field is
      stripped first, so such a day never comes from a reply. */
  lemma SpacedDayExample()
    ensures ParseDate(" 5/08/2023") == Some(Date(2023, 8, 5))
  {
    SpacedDayText();
    SpacedDay(2023, 8, 5);
    assert IsValidDate(Date(2023, 8, 5)) by {}
    ParseDateText(2023, 8, 5);
  }

  lemma SpacedDayText()
    ensures [' ', DigitChar(5)] + "/" + Fixed(8, 2) + "/" + Fixed(2023, 4) == " 5/08/2023"
  {
  }

  lemma PriceDigits()
    ensures "3.56" == "3" + "." + "56" && AllDigits("3") && AllDigits("56")
    ensures DigitsValue("3") == 3 && DigitsValue("56") == 56 && Pow10(|"56"|) == 100
  {
  }

  lemma PriceExample()
    ensures ParseDecimal("3.56") == Some(3.56)
  {
    PriceDigits();
    ParsePointed("3", "56");
    assert DecimalValue("3", "56") == 3.0 + 56.0 / 100.0;
  }

  /** Prices read as decimal numbers; words do not. */
  lemma NumberExamples()
    ensures ParseDecimal("3.56") == Some(3.56)
    ensures ParseDecimal("abc") == None
  {
    PriceExample();
    assert DigitRun("abc") == 0 by {
      assert !IsDigit('a');
    }
  }

  // ---------------------------------------------------------------------
  // The reply of the parser's unit test
  // ---------------------------------------------------------------------

  /** The reply of the parser's unit test: the header `31/08/2023,
      Intermarché, Foix`, two article lines, and the empty line after the
      final newline. */
  const TestLines: seq<string> := [
    CommaSpaced(["31/08/2023", "Intermarché", "Foix"]),
    CommaSpaced(["Food", "Fruit", "Apple", "0.5", "10", "5.0"]),
    CommaSpaced(["Drink", "Juice", "Orange Juice", "1.5", "5", "7.5"]),
    ""]

  const TestReply: string := Join(TestLines, '\n')

  const Apple: Article := Article("Food", "Fruit", "Apple", 0.5, 10.0, 5.0)
  const OrangeJuice: Article := Article("Drink", "Juice", "Orange Juice", 1.5, 5.0, 7.5)

  lemma OneDigit(d: nat)
    requires d < 10
    ensures AllDigits([DigitChar(d)]) && DigitsValue([DigitChar(d)]) == d
  {
    assert [DigitChar(d)][..0] == [];
  }

  /** `w.f` with one digit on each side of the point. */
  lemma ParseTenths(w: nat, f: nat)
    requires w < 10 && f < 10
    ensures ParseDecimal([DigitChar(w), '.', DigitChar(f)]) == Some(w as real + f as real / 10.0)
  {
    var whole, fraction := [DigitChar(w)], [DigitChar(f)];
    assert [DigitChar(w), '.', DigitChar(f)] == whole + "." + fraction;
    OneDigit(w);
    OneDigit(f);
    ParsePointed(whole, fraction);
    TenthsValue(whole, fraction, w, f);
  }

  lemma TenthsValue(whole: string, fraction: string, w: nat, f: nat)
    requires AllDigits(whole) && AllDigits(fraction) && |fraction| == 1
    requires DigitsValue(whole) == w && DigitsValue(fraction) == f
    ensures DecimalValue(whole, fraction) == w as real + f as real / 10.0
  {
    assert Pow10(1) == 10;
  }

  lemma WholeNumbers()
    ensures ParseDecimal("10") == Some(10.0) && ParseDecimal("5") == Some(5.0)
  {
    assert AllDigits("10") && DigitsValue("10") == 10 by {}
    ParseDigits("10");
    assert AllDigits("5") && DigitsValue("5") == 5 by {}
    ParseDigits("5");
  }

  lemma AppleNumbers()
    ensures ParseDecimal("0.5") == Some(0.5) && ParseDecimal("10") == Some(10.0) && ParseDecimal("5.0") == Some(5.0)
  {
    ParseTenths(0, 5);
    ParseTenths(5, 0);
    assert [DigitChar(0), '.', DigitChar(5)] == "0.5" by {}
    assert [DigitChar(5), '.', DigitChar(0)] == "5.0" by {}
    WholeNumbers();
  }

  /** An article line in the reply layout reads back as the article whose
      texts and numbers it spells. */
  lemma ArticleOf(a: Article, price: string, quantity: string, total: string)
    requires ',' !in a.famille && ',' !in a.sousFamille && ',' !in a.nom
    requires ',' !in price && ',' !in quantity && ',' !in total
    requires IsStripped(a.famille) && IsStripped(a.sousFamille) && IsStripped(a.nom)
    requires IsStripped(price) && IsStripped(quantity) && IsStripped(total)
    requires ParseDecimal(price) == Some(a.prixUnitaire)
    requires ParseDecimal(quantity) == Some(a.quantite)
    requires ParseDecimal(total) == Some(a.prixTotal)
    ensures ParseArticle(CommaSpaced([a.famille, a.sousFamille, a.nom, price, quantity, total])) == Some(a)
  {
    var fields := [a.famille, a.sousFamille, a.nom, price, quantity, total];
    assert forall f :: f in fields ==> ',' !in f && IsStripped(f);
    ArticleVerbatim(fields);
  }

  /** A text of plain words or digits passes through `Strip` and holds no comma. */
  predicate PlainField(t: string) {
    ',' !in t && IsStripped(t)
  }

  lemma AppleFields()
    ensures PlainField("Food") && PlainField("Fruit") && PlainField("Apple")
    ensures PlainField("0.5") && PlainField("10") && PlainField("5.0")
  {
    assert PlainField("Food") by {}
    assert PlainField("Fruit") by {}
    assert PlainField("Apple") by {}
    assert PlainField("0.5") by {}
    assert PlainField("10") by {}
    assert PlainField("5.0") by {}
  }

  lemma AppleLine()
    ensures ParseArticle(CommaSpaced(["Food", "Fruit", "Apple", "0.5", "10", "5.0"])) == Some(Apple)
  {
    AppleNumbers();
    AppleFields();
    ArticleOf(Apple, "0.5", "10", "5.0");
  }

  lemma OrangeJuiceNumbers()
    ensures ParseDecimal("1.5") == Some(1.5) && ParseDecimal("5") == Some(5.0) && ParseDecimal("7.5") == Some(7.5)
  {
    ParseTenths(1, 5);
    ParseTenths(7, 5);
    assert [DigitChar(1), '.', DigitChar(5)] == "1.5" by {}
    assert [DigitChar(7), '.', DigitChar(5)] == "7.5" by {}
    WholeNumbers();
  }

  lemma OrangeJuiceFields()
    ensures PlainField("Drink") && PlainField("Juice") && PlainField("Orange Juice")
    ensures PlainField("1.5") && PlainField("5") && PlainField("7.5")
  {
    assert PlainField("Drink") by {}
    assert PlainField("Juice") by {}
    assert PlainField("Orange Juice") by {}
    assert PlainField("1.5") by {}
    assert PlainField("5") by {}
    assert PlainField("7.5") by {}
  }

  lemma OrangeJuiceLine()
    ensures ParseArticle(CommaSpaced(["Drink", "Juice", "Orange Juice", "1.5", "5", "7.5"])) == Some(OrangeJuice)
  {
    OrangeJuiceNumbers();
    OrangeJuiceFields();
    ArticleOf(OrangeJuice, "1.5", "5", "7.5");
  }

  /** A character that is neither a comma nor a space appears in a
      `", "`-joined line only where it appears in a field. */
  lemma {:induction false} CommaSpacedFree(fields: seq<string>, c: char)
    requires c != ',' && c != ' '
    requires forall f :: f in fields ==> c !in f
    ensures c !in CommaSpaced(fields)
    decreases |fields|
  {
    if |fields| >= 2 {
      assert forall f :: f in fields[1..] ==> f in fields;
      CommaSpacedFree(fields[1..], c);
      assert fields[0] in fields;
    } else if |fields| == 1 {
      assert fields[0] in fields;
    }
  }

  /** A line that parses as an article is not blank. */
  lemma ArticleNotBlank(line: string)
    requires ParseArticle(line).Some?
    ensures !IsBlank(line)
  {
    assert ',' in line;
    var i :| 0 <= i < |line| && line[i] == ',';
    assert !IsSpace(line[i]);
  }

  /** A header line in the reply layout reads back as the date, vendor and
      location it spells. */
  lemma HeaderOf(d: Date, dateText: string, vendor: string, location: string)
    requires IsValidDate(d) && dateText == DateText(d.year, d.month, d.day)
    requires IsStripped(vendor) && ',' !in vendor
    requires IsStripped(location) && ',' !in location
    ensures ParseHeader(CommaSpaced([dateText, vendor, location])) == Some(Header(d, vendor, location))
  {
    CommaSpacedThree(dateText, vendor, location);
    HeaderVerbatim(d, vendor, location);
  }

  lemma HeaderWords()
    ensures IsValidDate(Date(2023, 8, 31))
    ensures IsStripped("Intermarché") && ',' !in "Intermarché"
    ensures IsStripped("Foix") && ',' !in "Foix"
  {
  }

  lemma HeaderLine()
    ensures ParseHeader(CommaSpaced(["31/08/2023", "Intermarché", "Foix"]))
         == Some(Header(Date(2023, 8, 31), "Intermarché", "Foix"))
  {
    HeaderWords();
    DateExampleText();
    HeaderOf(Date(2023, 8, 31), "31/08/2023", "Intermarché", "Foix");
  }

  lemma BlankOnly(blank: string)
    requires IsBlank(blank)
    ensures ParseArticles([blank]) == Some([])
  {
    assert [blank][1..] == [];
  }

  lemma ArticleCons(line: string, rest: seq<string>, a: Article, tail: seq<Article>)
    requires ParseArticle(line) == Some(a) && ParseArticles(rest) == Some(tail)
    ensures ParseArticles([line] + rest) == Some([a] + tail)
  {
    ArticleNotBlank(line);
    assert ([line] + rest)[1..] == rest;
  }

  lemma BlankLast(line: string, blank: string, a: Article)
    requires ParseArticle(line) == Some(a) && IsBlank(blank)
    ensures ParseArticles([line, blank]) == Some([a])
  {
    BlankOnly(blank);
    ArticleCons(line, [blank], a, []);
    assert [line] + [blank] == [line, blank] && [a] + [] == [a];
  }

  lemma TwoArticles(line1: string, line2: string, blank: string, a1: Article, a2: Article)
    requires ParseArticle(line1) == Some(a1) && ParseArticle(line2) == Some(a2) && IsBlank(blank)
    ensures ParseArticles([line1] + [line2, blank]) == Some([a1] + [a2])
  {
    BlankLast(line2, blank, a2);
    ArticleCons(line1, [line2, blank], a1, [a2]);
  }

  /** Lines without newlines joined by newlines split back into those lines. */
  lemma SplitFour(l0: string, l1: string, l2: string, l3: string)
    requires '\n' !in l0 && '\n' !in l1 && '\n' !in l2 && '\n' !in l3
    ensures Split(Join([l0, l1, l2, l3], '\n'), '\n') == [l0] + ([l1] + [l2, l3])
  {
    var lines := [l0, l1, l2, l3];
    assert forall p :: p in lines ==> '\n' !in p;
    SplitJoin(lines, '\n');
    assert lines == [l0] + ([l1] + [l2, l3]);
  }

  /** A reply whose first line is a header and whose other lines are
      articles reads as that header's receipt with those articles. */
  lemma ReplyOf(text: string, header: string, rest: seq<string>, h: Header, articles: seq<Article>)
    requires Split(text, '\n') == [header] + rest && rest != []
    requires ParseHeader(header) == Some(h)
    requires ParseArticles(rest) == Some(articles)
    ensures ParseLines(text) == Some(Receipt(h.date, h.fournisseur, h.localisation, articles))
  {
    assert ([header] + rest)[0] == header && ([header] + rest)[1..] == rest;
  }

  lemma PairConcat(a: Article, b: Article)
    ensures [a] + [b] == [a, b]
  {
  }

  lemma HeaderLineSingle()
    ensures '\n' !in TestLines[0]
  {
    assert forall f :: f in ["31/08/2023", "Intermarché", "Foix"] ==> '\n' !in f by {}
    CommaSpacedFree(["31/08/2023", "Intermarché", "Foix"], '\n');
  }

  lemma AppleLineSingle()
    ensures '\n' !in TestLines[1]
  {
    assert forall f :: f in ["Food", "Fruit", "Apple", "0.5", "10", "5.0"] ==> '\n' !in f by {}
    CommaSpacedFree(["Food", "Fruit", "Apple", "0.5", "10", "5.0"], '\n');
  }

  lemma OrangeJuiceLineSingle()
    ensures '\n' !in TestLines[2]
  {
    assert forall f :: f in ["Drink", "Juice", "Orange Juice", "1.5", "5", "7.5"] ==> '\n' !in f by {}
    CommaSpacedFree(["Drink", "Juice", "Orange Juice", "1.5", "5", "7.5"], '\n');
  }

  lemma TestLinesSingle()
    ensures forall k :: 0 <= k < |TestLines| ==> '\n' !in TestLines[k]
  {
    HeaderLineSingle();
    AppleLineSingle();
    OrangeJuiceLineSingle();
  }

  /** The parser's unit test: the reply reads as 31 August 2023 at
      Intermarché in Foix, with its two articles; the trailing newline adds
      a blank line that is skipped. */
  lemma TestReplyExample()
    ensures ResponseReceipt(ChatReply(TestReply))
         == Some(Receipt(Date(2023, 8, 31), "Intermarché", "Foix", [Apple, OrangeJuice]))
  {
    TestLinesSingle();
    HeaderLine();
    AppleLine();
    OrangeJuiceLine();
    assert IsBlank(TestLines[3]) by {
      assert Strip("") == "";
    }
    var lines := TestLines;
    SplitFour(lines[0], lines[1], lines[2], lines[3]);
    TwoArticles(lines[1], lines[2], lines[3], Apple, OrangeJuice);
    ReplyOf(TestReply, lines[0], [lines[1]] + [lines[2], lines[3]],
            Header(Date(2023, 8, 31), "Intermarché", "Foix"), [Apple] + [OrangeJuice]);
    ChatReplyParses(TestReply);
    PairConcat(Apple, OrangeJuice);
  }

  // ---------------------------------------------------------------------
  // Lines of the prompt's sample answers
  // ---------------------------------------------------------------------

  /** A line split on commas parses as the article its first six pieces
      spell once stripped, when each of those is a trimmed text with at most
      one space in front; later pieces are ignored. */
  lemma {:induction false} PiecesArticle(pieces: seq<string>, texts: seq<string>, a: Article)
    requires |pieces| >= 6 && |texts| == 6
    requires forall p :: p in pieces ==> ',' !in p
    requires forall k :: 0 <= k < 6 ==> IsStripped(texts[k]) && (pieces[k] == texts[k] || pieces[k] == " " + texts[k])
    requires texts[0] == a.famille && texts[1] == a.sousFamille && texts[2] == a.nom
    requires ParseDecimal(texts[3]) == Some(a.prixUnitaire)
    requires ParseDecimal(texts[4]) == Some(a.quantite)
    requires ParseDecimal(texts[5]) == Some(a.prixTotal)
    ensures ParseArticle(Join(pieces, ',')) == Some(a)
  {
    forall k | 0 <= k < 6 ensures Strip(pieces[k]) == texts[k] {
      if pieces[k] == texts[k] { StripOfStripped(texts[k]); } else { StripSpaced(texts[k]); }
    }
    SplitJoin(pieces, ',');
    assert Split(Join(pieces, ','), ',') == pieces;
  }

  const FuelPieces: seq<string> :=
    ["Energie", " carburant", " Essence au litre", " 1", "72", " 40", " 68.80"]

  const FuelTexts: seq<string> := ["Energie", "carburant", "Essence au litre", "1", "72", "40"]

  lemma FuelPiecesCommaFree()
    ensures forall p :: p in FuelPieces ==> ',' !in p
  {
  }

  lemma FuelTextsStripped()
    ensures forall k :: 0 <= k < |FuelTexts| ==> IsStripped(FuelTexts[k])
  {
  }

  lemma FuelPiecesSpaced()
    ensures forall k :: 0 <= k < 6 ==> FuelPieces[k] == FuelTexts[k] || FuelPieces[k] == " " + FuelTexts[k]
  {
  }

  lemma FuelPieceTexts()
    ensures |FuelPieces| == 7 && |FuelTexts| == 6
    ensures forall p :: p in FuelPieces ==> ',' !in p
    ensures forall k :: 0 <= k < 6 ==> IsStripped(FuelTexts[k]) && (FuelPieces[k] == FuelTexts[k] || FuelPieces[k] == " " + FuelTexts[k])
  {
    FuelPiecesCommaFree();
    FuelTextsStripped();
    FuelPiecesSpaced();
  }

  lemma FuelNumbers()
    ensures ParseDecimal("1") == Some(1.0) && ParseDecimal("72") == Some(72.0) && ParseDecimal("40") == Some(40.0)
  {
    assert AllDigits("1") && DigitsValue("1") == 1 by {}
    ParseDigits("1");
    assert AllDigits("72") && DigitsValue("72") == 72 by {}
    ParseDigits("72");
    assert AllDigits("40") && DigitsValue("40") == 40 by {}
    ParseDigits("40");
  }

  /** The prompt's own fuel line writes the unit price `1,72` with a decimal
      comma: the split shifts every later field, so the line is accepted
      with unit price 1, quantity 72 and total 40, and the real total
      `68.80` is dropped. */
  lemma DecimalCommaShifts()
    ensures ParseArticle(Join(FuelPieces, ','))
         == Some(Article("Energie", "carburant", "Essence au litre", 1.0, 72.0, 40.0))
  {
    FuelPieceTexts();
    FuelNumbers();
    PiecesArticle(FuelPieces, FuelTexts, Article("Energie", "carburant", "Essence au litre", 1.0, 72.0, 40.0));
  }

  /** The category line `ALIMENTATION` of the prompt's first sample answer
      is not blank and has no commas, so it is not an article. */
  lemma CategoryLine()
    ensures !IsBlank("ALIMENTATION") && ParseArticle("ALIMENTATION") == None
  {
    assert ',' !in "ALIMENTATION" by {}
    SplitNoSeparator("ALIMENTATION", ',');
    assert !IsSpace("ALIMENTATION"[0]);
  }

  /** A reply that follows the prompt's first sample answer, with the
      category line under the header, is rejected as a whole. */
  lemma CategoryLineRejectsReply(text: string)
    requires |Split(text, '\n')| >= 2 && Split(text, '\n')[1] == "ALIMENTATION"
    ensures ParseLines(text) == None
  {
    CategoryLine();
    BadLineRejectsReply(text, 1);
  }

  // ---------------------------------------------------------------------
  // process_image on the reply of its unit test
  // ---------------------------------------------------------------------

  const TestReceipt: Receipt := Receipt(Date(2023, 8, 31), "Intermarché", "Foix", [Apple, OrangeJuice])

  /** An image whose first reply parses, with nothing raising, is handled
      in one attempt: its receipt is inserted, then the image is moved,
      whatever the warning dialog would do. */
  lemma StoredFirstTime(world: nat -> AttemptIO, warningRaises: bool, receipt: Receipt,
                        image: Path, destination: Path, eventId: int)
    requires world(0).reply.Some? && ResponseReceipt(world(0).reply.value) == Some(receipt)
    requires !world(0).insertRaises && !world(0).moveRaises
    ensures ImageCall(world, warningRaises, image, destination, eventId)
         == Call([Inserted(receipt, eventId), Moved(image, destination)], 1, false)
  {
    assert RunAttempt(world(0)) == Stored(receipt, true);
  }

  /** The unit test of `process_image`: the request answers with the parser
      test's reply and nothing raises, so one attempt is made, the receipt
      is inserted under the event and the image is moved once. */
  lemma ProcessImageExample(warningRaises: bool, image: Path, destination: Path, eventId: int)
    ensures var world := (k: nat) => AttemptIO(Some(ChatReply(TestReply)), false, false);
      ImageCall(world, warningRaises, image, destination, eventId)
      == Call([Inserted(TestReceipt, eventId), Moved(image, destination)], 1, false)
  {
    var world := (k: nat) => AttemptIO(Some(ChatReply(TestReply)), false, false);
    TestReplyExample();
    StoredFirstTime(world, warningRaises, TestReceipt, image, destination, eventId);
  }

  /** Twice the prompt's category line alone, then the unit test's reply:
      because the warning dialog raises, the receipt is inserted after a
      third attempt instead of the image being given up with a warning. */
  lemma ThirdRequestExample(image: Path, destination: Path, eventId: int)
    ensures var world := (k: nat) => AttemptIO(Some(ChatReply(if k < 2 then "ALIMENTATION" else TestReply)), false, false);
      && ImageCall(world, true, image, destination, eventId)
         == Call([Inserted(TestReceipt, eventId), Moved(image, destination)], 3, false)
      && ImageCall(world, false, image, destination, eventId)
         == Call([Warned(image, IncorrectData)], 2, false)
  {
    var world := (k: nat) => AttemptIO(Some(ChatReply(if k < 2 then "ALIMENTATION" else TestReply)), false, false);
    CategoryReplyFails();
    TestReplyExample();
    assert world(0) == world(1) == AttemptIO(Some(ChatReply("ALIMENTATION")), false, false);
    assert world(2) == AttemptIO(Some(ChatReply(TestReply)), false, false);
    ThirdAttemptInserts(world, TestReceipt, image, destination, eventId);
  }

  /** A chat reply whose text has no newline is rejected. */
  lemma OneLineReplyFails(text: string)
    requires '\n' !in text
    ensures ResponseReceipt(ChatReply(text)) == None
  {
    ChatReplyParses(text);
    SingleLineFails(text);
  }

  lemma CategoryReplyFails()
    ensures ResponseReceipt(ChatReply("ALIMENTATION")) == None
  {
    assert '\n' !in "ALIMENTATION" by {}
    OneLineReplyFails("ALIMENTATION");
  }
}
