/**
  The receipt-response parser of the receipt reader: a chat-completion
  response, already decoded from JSON, becomes a receipt record or the
  failure flag. The reply text is one header line `date, vendor, location`
  followed by article lines
  `famille, sous_famille, nom, prix_unitaire, quantite, prix_total`;
  blank article lines are skipped and any other malformed line rejects the
  whole response.
*/
module ReceiptReader {
  import opened Wrappers
  import opened PyStr
  import opened Numbers
  import opened Dates

  /** A decoded JSON value, as `response.json()` returns it. */
  datatype Json =
    | JNull
    | JBool(b: bool)
    | JNumber(n: real)
    | JString(str: string)
    | JArray(items: seq<Json>)
    | JObject(fields: map<string, Json>)

  /** One parsed article line. */
  datatype Article = Article(
    famille: string,
    sousFamille: string,
    nom: string,
    prixUnitaire: real,
    quantite: real,
    prixTotal: real)

  /** The first line of the reply. */
  datatype Header = Header(date: Date, fournisseur: string, localisation: string)

  /** The record `parse_response` returns on success. */
  datatype Receipt = Receipt(
    date: Date,
    fournisseur: string,
    localisation: string,
    articles: seq<Article>)

  // ---------------------------------------------------------------------
  // Specification of parse_response
  // ---------------------------------------------------------------------

  /** `response["choices"][0]["message"]["content"]` when that path exists and
      ends in a string. Every other shape makes the source raise (`TypeError`,
      `KeyError`, `AttributeError` on `split`) or take its "no content" branch,
      and both end in the failure result. */
  function MessageContent(response: Json): Option<string> {
    if !response.JObject? || "choices" !in response.fields then None
    else
      var choices := response.fields["choices"];
      if !choices.JArray? || |choices.items| == 0 then None
      else
        var choice := choices.items[0];
        if !choice.JObject? || "message" !in choice.fields then None
        else
          var message := choice.fields["message"];
          if !message.JObject? || "content" !in message.fields then None
          else
            var content := message.fields["content"];
            if content.JString? then Some(content.str) else None
  }

  /** The smallest well-formed chat-completion response carrying `text`. */
  function ChatReply(text: string): Json {
    JObject(map["choices" := JArray([
      JObject(map["message" := JObject(map["content" := JString(text)])])])])
  }

  /** The header line: at least three comma-separated fields, the first a
      `DD/MM/YYYY` date once stripped; vendor and location are the stripped
      second and third fields, and later fields are ignored. */
  function ParseHeader(line: string): (h: Option<Header>)
    ensures h.Some? ==> |Split(line, ',')| >= 3 && IsValidDate(h.value.date)
    ensures h.Some? ==> IsStripped(h.value.fournisseur) && ',' !in h.value.fournisseur
    ensures h.Some? ==> IsStripped(h.value.localisation) && ',' !in h.value.localisation
    ensures h.Some? ==> ParseDate(Strip(Split(line, ',')[0])) == Some(h.value.date)
  {
    var fields := Split(line, ',');
    if |fields| < 3 then None
    else
      match ParseDate(Strip(fields[0]))
      case None => None
      case Some(date) =>
        assert fields[1] in fields && fields[2] in fields;
        StripChars(fields[1], ',');
        StripChars(fields[2], ',');
        Some(Header(date, Strip(fields[1]), Strip(fields[2])))
  }

  /** One non-blank article line: at least six comma-separated fields, the
      fourth to sixth numbers once stripped; later fields are ignored. */
  function ParseArticle(line: string): (a: Option<Article>)
    ensures a.Some? ==> |Split(line, ',')| >= 6
    ensures a.Some? ==> IsStripped(a.value.famille) && IsStripped(a.value.sousFamille) && IsStripped(a.value.nom)
    ensures a.Some? ==> ',' !in a.value.famille && ',' !in a.value.sousFamille && ',' !in a.value.nom
  {
    var fields := Split(line, ',');
    if |fields| < 6 then None
    else
      match (ParseDecimal(Strip(fields[3])), ParseDecimal(Strip(fields[4])), ParseDecimal(Strip(fields[5])))
      case (Some(prixUnitaire), Some(quantite), Some(prixTotal)) =>
        assert fields[0] in fields && fields[1] in fields && fields[2] in fields;
        StripChars(fields[0], ',');
        StripChars(fields[1], ',');
        StripChars(fields[2], ',');
        Some(Article(Strip(fields[0]), Strip(fields[1]), Strip(fields[2]), prixUnitaire, quantite, prixTotal))
      case _ => None
  }

  /** A line the parser skips: empty once stripped. */
  predicate IsBlank(line: string) {
    Strip(line) == ""
  }

  /** The article lines after the header: blank lines contribute nothing, any
      other line that does not parse rejects them all. */
  function ParseArticles(lines: seq<string>): (r: Option<seq<Article>>)
    ensures r.Some? ==> |r.value| <= |lines|
    decreases |lines|
  {
    if lines == [] then Some([])
    else if IsBlank(lines[0]) then ParseArticles(lines[1..])
    else
      match ParseArticle(lines[0])
      case None => None
      case Some(a) =>
        match ParseArticles(lines[1..])
        case None => None
        case Some(rest) => Some([a] + rest)
  }

  /** The reply text: split on newlines, at least two lines, a header and
      the article lines. */
  function ParseLines(text: string): (r: Option<Receipt>)
    ensures r.Some? ==> '\n' in text && IsValidDate(r.value.date)
  {
    var lines := Split(text, '\n');
    if |lines| < 2 then None
    else
      match ParseHeader(lines[0])
      case None => None
      case Some(h) =>
        match ParseArticles(lines[1..])
        case None => None
        case Some(articles) => Some(Receipt(h.date, h.fournisseur, h.localisation, articles))
  }

  /** The record `parse_response` returns; `None` is its failure result. */
  function ResponseReceipt(response: Json): Option<Receipt> {
    match MessageContent(response)
    case None => None
    case Some(text) => ParseLines(text)
  }

  // ---------------------------------------------------------------------
  // parse_response
  // ---------------------------------------------------------------------

  /** `acc` in front of a list of articles that may have failed. */
  function Prefixed(acc: seq<Article>, r: Option<seq<Article>>): Option<seq<Article>> {
    match r
    case None => None
    case Some(rest) => Some(acc + rest)
  }

  /** One step of `ParseArticles` on a line that does not parse. */
  lemma RejectFirst(lines: seq<string>)
    requires lines != [] && !IsBlank(lines[0]) && ParseArticle(lines[0]) == None
    ensures ParseArticles(lines) == None
  {
  }

  /** One step of `ParseArticles` on a line that parses. */
  lemma TakeFirst(lines: seq<string>, a: Article)
    requires lines != [] && !IsBlank(lines[0]) && ParseArticle(lines[0]) == Some(a)
    ensures ParseArticles(lines) == Prefixed([a], ParseArticles(lines[1..]))
  {
  }

  lemma PrefixedEmpty(r: Option<seq<Article>>)
    ensures Prefixed([], r) == r
  {
    if r.Some? {
      assert [] + r.value == r.value;
    }
  }

  lemma PrefixedAppend(acc: seq<Article>, a: Article, r: Option<seq<Article>>)
    ensures Prefixed(acc, Prefixed([a], r)) == Prefixed(acc + [a], r)
  {
    if r.Some? {
      assert acc + ([a] + r.value) == acc + [a] + r.value;
    }
  }

  /** The parser as the source runs it: early failure returns, then the
      article loop. It never fails: every error becomes `(None, true)`, and
      the flag is `false` exactly when a record is returned. */
  method ParseResponse(response: Json) returns (record: Option<Receipt>, error: bool)
    ensures record == ResponseReceipt(response)
    ensures error <==> record.None?
  {
    var content := MessageContent(response);
    if content.None? {
      return None, true;
    }
    var lines := Split(content.value, '\n');
    if |lines| < 2 {
      return None, true;
    }
    var header := Split(lines[0], ',');
    if |header| < 3 {
      return None, true;
    }
    var date := ParseDate(Strip(header[0]));
    if date.None? {
      return None, true;
    }
    var fournisseur := Strip(header[1]);
    var localisation := Strip(header[2]);
    assert ParseHeader(lines[0]) == Some(Header(date.value, fournisseur, localisation));
    var articles := ParseArticleLines(lines[1..]);
    if articles.None? {
      return None, true;
    }
    return Some(Receipt(date.value, fournisseur, localisation, articles.value)), false;
  }

  /** The loop of `parse_response` over the lines after the header: blank
      lines are skipped, parsed articles are appended in order, and the first
      malformed line abandons the whole list. */
  method ParseArticleLines(lines: seq<string>) returns (parsed: Option<seq<Article>>)
    ensures parsed == ParseArticles(lines)
  {
    var articles: seq<Article> := [];
    assert lines[0..] == lines;
    PrefixedEmpty(ParseArticles(lines));
    for i := 0 to |lines|
      invariant ParseArticles(lines) == Prefixed(articles, ParseArticles(lines[i..]))
    {
      var line := lines[i];
      assert lines[i..][0] == line && lines[i..][1..] == lines[i + 1..];
      if Strip(line) == "" {
        continue;
      }
      var parts := Split(line, ',');
      if |parts| < 6 {
        RejectFirst(lines[i..]);
        return None;
      }
      var prixUnitaire := ParseDecimal(Strip(parts[3]));
      var quantite := ParseDecimal(Strip(parts[4]));
      var prixTotal := ParseDecimal(Strip(parts[5]));
      if prixUnitaire.None? || quantite.None? || prixTotal.None? {
        RejectFirst(lines[i..]);
        return None;
      }
      var a := Article(Strip(parts[0]), Strip(parts[1]), Strip(parts[2]),
                       prixUnitaire.value, quantite.value, prixTotal.value);
      TakeFirst(lines[i..], a);
      PrefixedAppend(articles, a, ParseArticles(lines[i + 1..]));
      articles := articles + [a];
    }
    assert lines[|lines|..] == [];
    assert articles + [] == articles;
    return Some(articles);
  }
}
