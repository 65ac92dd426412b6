/**
  What `parse_response` promises, proved about its specification in
  `ReceiptReader`: the shape and line-count failures, the header and article
  grammars (fields trimmed, extra fields ignored, numbers required), blank
  lines skipped, and the all-or-nothing article list in input order.
*/
module ParserProperties {
  import opened Wrappers
  import opened PyStr
  import opened Numbers
  import opened Dates
  import opened ReceiptReader

  // ---------------------------------------------------------------------
  // Response shape
  // ---------------------------------------------------------------------

  /** A well-formed response hands its whole text to the line parser. */
  lemma ChatReplyParses(text: string)
    ensures MessageContent(ChatReply(text)) == Some(text)
    ensures ResponseReceipt(ChatReply(text)) == ParseLines(text)
  {
  }

  /** A response without `"choices"`, or with an empty `choices` list, or
      that is not an object at all, is the failure result. */
  lemma NoChoicesFails(response: Json)
    requires !response.JObject? || "choices" !in response.fields
             || response.fields["choices"] == JArray([])
    ensures ResponseReceipt(response) == None
  {
  }

  // ---------------------------------------------------------------------
  // Lines
  // ---------------------------------------------------------------------

  /** A reply without a newline is a single line and fails. */
  lemma SingleLineFails(text: string)
    requires '\n' !in text
    ensures ParseLines(text) == None
  {
  }

  /** A valid header followed by nothing but a newline passes the line-count
      check and gives a receipt with no articles. */
  lemma {:induction false} HeaderAndNewline(header: string, h: Header)
    requires '\n' !in header && ParseHeader(header) == Some(h)
    ensures ParseLines(header + "\n") == Some(Receipt(h.date, h.fournisseur, h.localisation, []))
  {
    SplitCons(header, "", '\n');
    assert header + "\n" == header + ['\n'] + "";
    assert Split(header + "\n", '\n') == [header, ""];
    assert IsBlank("");
    assert ParseArticles([""]) == Some([]) by {
      assert [""][1..] == [];
    }
    var lines := Split(header + "\n", '\n');
    assert lines[0] == header && lines[1..] == [""];
  }

  // ---------------------------------------------------------------------
  // Header line
  // ---------------------------------------------------------------------

  /** Fields after the third header field play no part. */
  lemma {:induction false} HeaderExtraFieldsIgnored(fields: seq<string>, extra: seq<string>)
    requires |fields| == 3
    requires forall f :: f in fields + extra ==> ',' !in f
    ensures ParseHeader(Join(fields + extra, ',')) == ParseHeader(Join(fields, ','))
  {
    SplitJoin(fields + extra, ',');
    assert forall f :: f in fields ==> f in fields + extra;
    SplitJoin(fields, ',');
    assert (fields + extra)[..3] == fields;
  }

  /** A header with fewer than three fields, or whose first field is not
      a `%d/%m/%Y` date once stripped, is rejected. */
  lemma BadHeaderRejected(line: string)
    requires |Split(line, ',')| < 3 || ParseDate(Strip(Split(line, ',')[0])) == None
    ensures ParseHeader(line) == None
  {
  }

  /** A rejected header line rejects the whole reply. */
  lemma HeaderRejectsReply(text: string)
    requires ParseHeader(Split(text, '\n')[0]) == None
    ensures ParseLines(text) == None
  {
  }

  /** A reply whose first line does not start with a `%d/%m/%Y` date is
      rejected. */
  lemma BadDateRejectsReply(text: string)
    requires ParseDate(Strip(Split(Split(text, '\n')[0], ',')[0])) == None
    ensures ParseLines(text) == None
  {
    BadHeaderRejected(Split(text, '\n')[0]);
    HeaderRejectsReply(text);
  }

  /** An accepted reply has a header line that reads as the receipt's date,
      vendor and location, and article lines that read as its articles. */
  lemma ParseLinesOnlyIf(text: string, r: Receipt)
    requires ParseLines(text) == Some(r)
    ensures var lines := Split(text, '\n');
      && |lines| >= 2
      && ParseHeader(lines[0]) == Some(Header(r.date, r.fournisseur, r.localisation))
      && ParseArticles(lines[1..]) == Some(r.articles)
  {
  }

  /** The `DD/MM/YYYY, vendor, location` line reads back as exactly that date,
      vendor and location, kept verbatim. */
  lemma {:induction false} HeaderVerbatim(d: Date, vendor: string, location: string)
    requires IsValidDate(d)
    requires IsStripped(vendor) && ',' !in vendor
    requires IsStripped(location) && ',' !in location
    ensures ParseHeader(DateText(d.year, d.month, d.day) + ", " + vendor + ", " + location)
         == Some(Header(d, vendor, location))
  {
    var date := DateText(d.year, d.month, d.day);
    var v, l := " " + vendor, " " + location;
    CommaSpaceJoin(date, vendor, location);
    ParseDateText(d.year, d.month, d.day);
    DateTextShape(d);
    assert ',' !in v && ',' !in l;
    SplitJoin([date, v, l], ',');
    StripOfStripped(date);
    StripSpaced(vendor);
    StripSpaced(location);
    HeaderOfFields(DateText(d.year, d.month, d.day) + ", " + vendor + ", " + location, [date, v, l], d, vendor, location);
  }

  /** A line whose first three comma-separated fields strip to a date text,
      a vendor and a location reads as that header. */
  lemma HeaderOfFields(line: string, fields: seq<string>, d: Date, vendor: string, location: string)
    requires |fields| >= 3 && Split(line, ',') == fields
    requires ParseDate(Strip(fields[0])) == Some(d)
    requires Strip(fields[1]) == vendor && Strip(fields[2]) == location
    ensures ParseHeader(line) == Some(Header(d, vendor, location))
  {
  }

  /** Three texts separated by `", "` are the comma-join of the texts with a
      space in front of the second and third. */
  lemma CommaSpaceJoin(a: string, b: string, c: string)
    ensures a + ", " + b + ", " + c == Join([a, " " + b, " " + c], ',')
  {
    CommaSpacedThree(a, b, c);
    CommaSpacedJoin([a, b, c]);
    assert Padded([a, b, c]) == [a, " " + b, " " + c];
  }

  /** The `", "` layout of three fields. */
  lemma CommaSpacedThree(a: string, b: string, c: string)
    ensures CommaSpaced([a, b, c]) == a + ", " + b + ", " + c
  {
    assert [a, b, c][1..] == [b, c] && [b, c][1..] == [c];
    assert CommaSpaced([b, c]) == b + ", " + c;
    assert a + ", " + (b + ", " + c) == a + ", " + b + ", " + c;
  }

  /** The `DD/MM/YYYY` spelling is digits and slashes only. */
  lemma DateTextShape(d: Date)
    requires IsValidDate(d)
    ensures IsStripped(DateText(d.year, d.month, d.day))
    ensures ',' !in DateText(d.year, d.month, d.day)
  {
    var a, b, c := Fixed(d.day, 2), Fixed(d.month, 2), Fixed(d.year, 4);
    DigitsHaveNoComma(a);
    DigitsHaveNoComma(b);
    DigitsHaveNoComma(c);
    var t := a + "/" + b + "/" + c;
    assert t[0] == a[0] && t[9] == c[3];
  }

  lemma DigitsHaveNoComma(s: string)
    requires AllDigits(s)
    ensures ',' !in s
  {
  }

  // ---------------------------------------------------------------------
  // Article lines
  // ---------------------------------------------------------------------

  /** Fields after the sixth article field play no part. */
  lemma {:induction false} ArticleExtraFieldsIgnored(fields: seq<string>, extra: seq<string>)
    requires |fields| == 6
    requires forall f :: f in fields + extra ==> ',' !in f
    ensures ParseArticle(Join(fields + extra, ',')) == ParseArticle(Join(fields, ','))
  {
    SplitJoin(fields + extra, ',');
    assert forall f :: f in fields ==> f in fields + extra;
    SplitJoin(fields, ',');
    assert (fields + extra)[..6] == fields;
  }

  /** An article line of six comma-free, trimmed fields parses exactly when its
      last three fields are numbers, and then keeps the three texts verbatim
      and the three numbers' values. */
  lemma {:induction false} ArticleFromFields(fields: seq<string>)
    requires |fields| == 6
    requires forall f :: f in fields ==> ',' !in f && IsStripped(f)
    ensures ParseArticle(Join(fields, ','))
         == if ParseDecimal(fields[3]).Some? && ParseDecimal(fields[4]).Some? && ParseDecimal(fields[5]).Some?
            then Some(Article(fields[0], fields[1], fields[2],
                              ParseDecimal(fields[3]).value, ParseDecimal(fields[4]).value, ParseDecimal(fields[5]).value))
            else None
  {
    SplitJoin(fields, ',');
    forall k | 0 <= k < 6 ensures Strip(fields[k]) == fields[k] {
      assert fields[k] in fields;
      StripOfStripped(fields[k]);
    }
  }

  /** `", ".join(fields)`: the layout of the reply lines. */
  function CommaSpaced(fields: seq<string>): string
    decreases |fields|
  {
    if |fields| == 0 then ""
    else if |fields| == 1 then fields[0]
    else fields[0] + ", " + CommaSpaced(fields[1..])
  }

  /** The pieces `Split(_, ',')` cuts a `", "`-joined line into: every field
      after the first keeps the space in front of it. */
  function Padded(fields: seq<string>): (r: seq<string>)
    ensures |r| == |fields|
    ensures forall k :: 1 <= k < |fields| ==> r[k] == " " + fields[k]
    ensures fields != [] ==> r[0] == fields[0]
  {
    if fields == [] then []
    else [fields[0]] + seq(|fields| - 1, i requires 0 <= i < |fields| - 1 => " " + fields[i + 1])
  }

  lemma {:induction false} CommaSpacedJoin(fields: seq<string>)
    ensures CommaSpaced(fields) == Join(Padded(fields), ',')
    decreases |fields|
  {
    if |fields| >= 2 {
      var tail := fields[1..];
      CommaSpacedJoin(tail);
      var pt := Padded(tail);
      var p := Padded(fields);
      assert p[1..] == [" " + tail[0]] + pt[1..];
      assert pt == [tail[0]] + pt[1..];
      JoinPrefixFirst(" ", tail[0], pt[1..], ',');
      assert fields[0] + ", " + Join(pt, ',') == fields[0] + [','] + (" " + Join(pt, ','));
    }
  }

  /** An article line in the reply layout, `famille, sous_famille, nom,
      prix, quantite, total`, with trimmed comma-free fields, parses exactly
      when its last three fields are numbers, and keeps the texts verbatim. */
  lemma ArticleVerbatim(fields: seq<string>)
    requires |fields| == 6
    requires forall f :: f in fields ==> ',' !in f && IsStripped(f)
    ensures ParseArticle(CommaSpaced(fields))
         == if ParseDecimal(fields[3]).Some? && ParseDecimal(fields[4]).Some? && ParseDecimal(fields[5]).Some?
            then Some(Article(fields[0], fields[1], fields[2],
                              ParseDecimal(fields[3]).value, ParseDecimal(fields[4]).value, ParseDecimal(fields[5]).value))
            else None
  {
    var pieces := Padded(fields);
    CommaSpacedJoin(fields);
    forall k | 0 <= k < 6 ensures ',' !in pieces[k] && Strip(pieces[k]) == fields[k] {
      assert fields[k] in fields;
      if k == 0 { StripOfStripped(fields[k]); } else { StripSpaced(fields[k]); }
    }
    assert forall q :: q in pieces ==> ',' !in q;
    SplitJoin(pieces, ',');
    assert Split(CommaSpaced(fields), ',') == pieces;
  }

  /** A blank line anywhere among the article lines changes nothing. */
  lemma {:induction false} BlankLineSkipped(before: seq<string>, blank: string, after: seq<string>)
    requires IsBlank(blank)
    ensures ParseArticles(before + [blank] + after) == ParseArticles(before + after)
    decreases |before|
  {
    if before == [] {
      assert before + [blank] + after == [blank] + after;
      assert ([blank] + after)[1..] == after;
      assert before + after == after;
    } else {
      var with, without := before + [blank] + after, before + after;
      assert with[0] == before[0] && without[0] == before[0];
      assert with[1..] == before[1..] + [blank] + after;
      assert without[1..] == before[1..] + after;
      BlankLineSkipped(before[1..], blank, after);
    }
  }

  /** The article list fails exactly when some non-blank line does not parse. */
  lemma {:induction false} ArticlesFailIff(lines: seq<string>)
    ensures ParseArticles(lines).None?
        <==> exists i :: 0 <= i < |lines| && !IsBlank(lines[i]) && ParseArticle(lines[i]).None?
    decreases |lines|
  {
    if lines != [] {
      ArticlesFailIff(lines[1..]);
      if exists i :: 0 <= i < |lines[1..]| && !IsBlank(lines[1..][i]) && ParseArticle(lines[1..][i]).None? {
        var i :| 0 <= i < |lines[1..]| && !IsBlank(lines[1..][i]) && ParseArticle(lines[1..][i]).None?;
        assert lines[i + 1] == lines[1..][i];
      }
      if exists i :: 0 <= i < |lines| && !IsBlank(lines[i]) && ParseArticle(lines[i]).None? {
        var i :| 0 <= i < |lines| && !IsBlank(lines[i]) && ParseArticle(lines[i]).None?;
        if i > 0 {
          assert lines[1..][i - 1] == lines[i];
        }
      }
    }
  }

  /** The lines that carry an article: every line after the header that is
      not blank, in input order. */
  function ArticleLines(lines: seq<string>): (r: seq<string>)
    ensures |r| <= |lines|
    ensures forall l :: l in r ==> l in lines && !IsBlank(l)
    ensures forall k :: 0 <= k < |lines| && !IsBlank(lines[k]) ==> lines[k] in r
    decreases |lines|
  {
    if lines == [] then []
    else
      var rest := ArticleLines(lines[1..]);
      assert forall k :: 1 <= k < |lines| ==> lines[k] == lines[1..][k - 1];
      if IsBlank(lines[0]) then rest else [lines[0]] + rest
  }

  /** On success there is exactly one article per non-blank line, in the
      order of the lines. */
  lemma {:induction false} ArticlesOnePerLine(lines: seq<string>, articles: seq<Article>)
    requires ParseArticles(lines) == Some(articles)
    ensures |articles| == |ArticleLines(lines)|
    ensures forall k :: 0 <= k < |articles| ==> ParseArticle(ArticleLines(lines)[k]) == Some(articles[k])
    decreases |lines|
  {
    if lines != [] {
      var rest := ParseArticles(lines[1..]);
      assert rest.Some?;
      ArticlesOnePerLine(lines[1..], rest.value);
      if !IsBlank(lines[0]) {
        var a := ParseArticle(lines[0]).value;
        assert articles == [a] + rest.value;
        var tail := ArticleLines(lines[1..]);
        assert ArticleLines(lines) == [lines[0]] + tail;
        forall k | 0 <= k < |articles|
          ensures ParseArticle(ArticleLines(lines)[k]) == Some(articles[k])
        {
          if k > 0 {
            assert ArticleLines(lines)[k] == tail[k - 1];
            assert articles[k] == rest.value[k - 1];
          }
        }
      }
    }
  }

  /** One malformed non-blank line after the header rejects the whole reply:
      no partial receipt is ever returned. */
  lemma BadLineRejectsReply(text: string, i: nat)
    requires 1 <= i < |Split(text, '\n')|
    requires !IsBlank(Split(text, '\n')[i]) && ParseArticle(Split(text, '\n')[i]) == None
    ensures ParseLines(text) == None
  {
    var lines := Split(text, '\n');
    assert lines[1..][i - 1] == lines[i];
    ArticlesFailIff(lines[1..]);
  }
}
