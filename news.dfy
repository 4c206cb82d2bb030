/**
 One news article as the client returns it: the text fields of the decoded
 record copied as they are, the publication time parsed, and the related
 ticker symbols picked out of the record's comma-separated `related` tags.
 */
module News {
  import opened Wrappers
  import opened Text
  import opened Collections

  /** An article; `D` is whatever the date parser produces. */
  datatype News<D> = News(
    dateTime: D,
    headline: string,
    source: string,
    url: string,
    summary: string,
    symbols: seq<string>)

  /** Why `from_dict` raises: a key is missing, or the date parser rejects the text. */
  datatype NewsError = MissingKey(key: string) | BadDate(text: string)

  /** A tag that looks like a ticker: shorter than six characters and equal to its upper-case form. */
  predicate IsTicker(t: string)
    ensures IsTicker(t) <==> |t| <= 5 && IsUpperCase(t)
  {
    UpperFixedIff(t);
    |t| < 6 && Upper(t) == t
  }

  /** The related symbols of an article: the ticker-like tags, in order, duplicates kept. */
  function RelatedSymbols(related: string): (symbols: seq<string>)
    ensures |symbols| <= |Split(related, ',')|
  {
    Filter(IsTicker, Split(related, ','))
  }

  /** A tag is a related symbol exactly when it is one of the comma-separated tags and looks like a ticker. */
  lemma RelatedSymbolsMembers(related: string)
    ensures forall t :: t in RelatedSymbols(related) ==> t in Split(related, ',') && IsTicker(t)
    ensures forall t :: t in Split(related, ',') && IsTicker(t) ==> t in RelatedSymbols(related)
  {
    FilterMembers(IsTicker, Split(related, ','));
  }

  /** The keys `from_dict` reads, in the order it reads them. */
  const FieldKeys := ["datetime", "headline", "source", "url", "summary", "related"]

  /** Every key of `FieldKeys` is present, spelled out so that each lookup is visibly safe. */
  predicate HasFields(data: map<string, string>) {
    && "datetime" in data
    && "headline" in data
    && "source" in data
    && "url" in data
    && "summary" in data
    && "related" in data
  }

  /** `HasFields` holds exactly when every key of `FieldKeys` is present. */
  lemma HasFieldsIff(data: map<string, string>)
    ensures HasFields(data) <==> forall k :: k in FieldKeys ==> k in data
  {
    if HasFields(data) {
      forall k | k in FieldKeys ensures k in data {
        var i :| 0 <= i < |FieldKeys| && FieldKeys[i] == k;
      }
    } else {
      assert FieldKeys[0] == "datetime" && FieldKeys[1] == "headline" && FieldKeys[2] == "source";
      assert FieldKeys[3] == "url" && FieldKeys[4] == "summary" && FieldKeys[5] == "related";
    }
  }

  /**
   `News.from_dict`: the keys are read in the order of `FieldKeys` and the
   first one missing raises; the datetime text is parsed right after it is
   read, before any other key is looked at.
   */
  function FromDict<D>(data: map<string, string>, parse: string -> Option<D>): (r: Result<News<D>, NewsError>)
    ensures r.Success? <==>
              HasFields(data) && parse(data["datetime"]).Some?
    ensures r.Failure? && r.error.MissingKey? ==>
              exists i :: 0 <= i < |FieldKeys| && FieldKeys[i] == r.error.key && FieldKeys[i] !in data &&
                          forall j :: 0 <= j < i ==> FieldKeys[j] in data
    ensures "datetime" in data && parse(data["datetime"]).None? ==>
              r == Failure(BadDate(data["datetime"]))
    ensures r.Failure? && r.error.BadDate? ==>
              "datetime" in data && r.error.text == data["datetime"] && parse(data["datetime"]).None?
    ensures r.Success? ==>
              && HasFields(data)
              && r.value.dateTime == parse(data["datetime"]).value
              && r.value.headline == data["headline"]
              && r.value.source == data["source"]
              && r.value.url == data["url"]
              && r.value.summary == data["summary"]
              && r.value.symbols == RelatedSymbols(data["related"])
  {
    if "datetime" !in data then
      assert FieldKeys[0] == "datetime";
      Failure(MissingKey("datetime"))
    else match parse(data["datetime"])
      case None => Failure(BadDate(data["datetime"]))
      case Some(dateTime) =>
        if "headline" !in data then
          assert FieldKeys[1] == "headline";
          Failure(MissingKey("headline"))
        else if "source" !in data then
          assert FieldKeys[2] == "source";
          Failure(MissingKey("source"))
        else if "url" !in data then
          assert FieldKeys[3] == "url";
          Failure(MissingKey("url"))
        else if "summary" !in data then
          assert FieldKeys[4] == "summary";
          Failure(MissingKey("summary"))
        else if "related" !in data then
          assert FieldKeys[5] == "related";
          Failure(MissingKey("related"))
        else
          Success(News(dateTime, data["headline"], data["source"], data["url"], data["summary"],
                       RelatedSymbols(data["related"])))
  }

  const LinkOpen := "<a href=\""
  const LinkMiddle := "\">"
  const LinkClose := "</a>"

  /** `headline_link`: an HTML anchor to the article's url, showing its headline. */
  function HeadlineLink<D>(n: News<D>): (link: string)
    ensures |link| == |LinkOpen| + |n.url| + |LinkMiddle| + |n.headline| + |LinkClose|
    ensures link[..|LinkOpen|] == LinkOpen
    ensures link[|LinkOpen|..|LinkOpen| + |n.url|] == n.url
    ensures link[|LinkOpen| + |n.url|..|LinkOpen| + |n.url| + |LinkMiddle|] == LinkMiddle
    ensures link[|LinkOpen| + |n.url| + |LinkMiddle|..|link| - |LinkClose|] == n.headline
    ensures link[|link| - |LinkClose|..] == LinkClose
  {
    LinkOpen + n.url + LinkMiddle + n.headline + LinkClose
  }

  /** The link holds `href`, the url and the headline. */
  lemma HeadlineLinkContains<D>(n: News<D>)
    ensures Contains(HeadlineLink(n), "href")
    ensures Contains(HeadlineLink(n), n.url)
    ensures Contains(HeadlineLink(n), n.headline)
  {
    var link := HeadlineLink(n);
    assert link[3..7] == LinkOpen[3..7] == "href";
    assert OccursAt(link, "href", 3);
    assert OccursAt(link, n.url, |LinkOpen|);
    assert OccursAt(link, n.headline, |LinkOpen| + |n.url| + |LinkMiddle|);
  }

  /** Every related symbol has at most five characters, holds no comma and no lower-case letter. */
  lemma RelatedSymbolsShape(related: string)
    ensures forall t :: t in RelatedSymbols(related) ==> |t| <= 5 && ',' !in t && IsUpperCase(t)
  {
    RelatedSymbolsMembers(related);
    forall t | t in RelatedSymbols(related) ensures IsUpperCase(t) {
      UpperFixedIff(t);
    }
  }

  /** Tags keep their order: the symbols of two tag lists joined by a comma are the symbols of each, in turn. */
  lemma RelatedSymbolsAppend(a: string, b: string)
    ensures RelatedSymbols(a + "," + b) == RelatedSymbols(a) + RelatedSymbols(b)
  {
    SplitAppend(a, ',', b);
    FilterAppend(IsTicker, Split(a, ','), Split(b, ','));
  }

  /** A ticker-like tag appears in the symbols exactly as often as among the tags. */
  lemma RelatedSymbolsMultiplicity(related: string, t: string)
    ensures multiset(RelatedSymbols(related))[t] ==
            if IsTicker(t) then multiset(Split(related, ','))[t] else 0
  {
    FilterMultiplicity(IsTicker, Split(related, ','), t);
  }

  /**
   The symbols of tags joined by commas are the ticker-like tags themselves,
   provided no tag holds a comma.
   */
  lemma RelatedSymbolsOfJoin(tags: seq<string>)
    requires |tags| >= 1
    requires forall t :: t in tags ==> ',' !in t
    ensures RelatedSymbols(Join(tags, ',')) == Filter(IsTicker, tags)
  {
    SplitJoin(tags, ',');
  }

  /** Empty tags pass the filter: "A,,B" yields "A", "" and "B". */
  lemma EmptyTagsKept()
    ensures RelatedSymbols("A,,B") == ["A", "", "B"]
  {
    EmptyTagJoin();
    RelatedSymbolsOfJoin(["A", "", "B"]);
    EmptyTagTickers();
  }

  /** "A,,B" is the comma-join of "A", "" and "B". */
  lemma EmptyTagJoin()
    ensures Join(["A", "", "B"], ',') == "A,,B"
  {
    assert Join(["B"], ',') == "B";
    assert Join(["", "B"], ',') == ",B";
  }

  /** "A", "" and "B" all look like tickers. */
  lemma EmptyTagTickers()
    ensures Filter(IsTicker, ["A", "", "B"]) == ["A", "", "B"]
  {
    assert IsTicker("A") && IsTicker("B");
  }

  /** The tags of the sample article, in order. */
  const SampleTags := ["AAPL", "BAC", "Computer Hardware", "CON31167138", "ED", "F", "NASDAQ01", "Computing and Information Technology"]

  /** No sample tag holds a comma. */
  lemma SampleTagsPlain()
    ensures forall t :: t in SampleTags ==> ',' !in t
  {
  }

  /** Of the sample tags, exactly AAPL, BAC, ED and F look like tickers. */
  lemma SampleTickers()
    ensures Filter(IsTicker, SampleTags) == ["AAPL", "BAC", "ED", "F"]
  {
    assert IsTicker("AAPL") && IsTicker("BAC") && IsTicker("ED") && IsTicker("F");
  }

  /**
   The sample article's `related` string, its tags joined by commas, yields
   exactly AAPL, BAC, ED and F; mixed-case and long tags are dropped.
   */
  lemma SampleRelatedSymbols()
    ensures RelatedSymbols(Join(SampleTags, ',')) == ["AAPL", "BAC", "ED", "F"]
  {
    SampleTagsPlain();
    RelatedSymbolsOfJoin(SampleTags);
    SampleTickers();
  }
}
