/**
 * The review page parser (descobridor/discovery/parse_html.py), from the texts its
 * tag searches find: each review span becomes a word list and then a dict of the
 * review and its ratings, reviewer names and review times are cleaned, the star
 * count is the first digit of each star tag, and the pages of a table are
 * collected column by column into one frame.
 */
module ParseHtml {
  import opened Text
  import opened PyValues
  import ReviewParser

  // ---------------------------------------------------------------------------
  // Cleaning

  /** `" ".join(s.split("\n"))`: every newline becomes a space. */
  function NewlinesToSpaces(s: string): string {
    Join(" ", SplitOn(s, '\n'))
  }

  /** `" ".join(s.split("\n")).replace(",", "").replace("|", "").strip()` */
  function CleanText(s: string): string {
    Strip(ReplaceAll(ReplaceAll(NewlinesToSpaces(s), ",", ""), "|", ""))
  }

  /** What cleaning guarantees: no newline, comma or bar, and no surrounding whitespace. */
  predicate IsClean(s: string) {
    Trimmed(s) && '\n' !in s && ',' !in s && '|' !in s
  }

  /** Every cleaned text is clean. */
  lemma CleanTextIsClean(s: string)
    ensures IsClean(CleanText(s))
  {
    var j := NewlinesToSpaces(s);
    JoinAvoidsChar(" ", SplitOn(s, '\n'), '\n');
    var a := ReplaceAll(j, ",", "");
    ReplaceCharRemoves(j, ',', "");
    ReplaceNoNew(j, ",", "", '\n');
    var b := ReplaceAll(a, "|", "");
    ReplaceCharRemoves(a, '|', "");
    ReplaceNoNew(a, "|", "", '\n');
    ReplaceNoNew(a, "|", "", ',');
    StripSpec(b);
    StripAvoids(b, '\n');
    StripAvoids(b, ',');
    StripAvoids(b, '|');
  }

  /** Cleaning leaves a text alone exactly when it is already clean. */
  lemma CleanTextFixed(s: string)
    ensures CleanText(s) == s <==> IsClean(s)
  {
    CleanTextIsClean(s);
    if IsClean(s) {
      SplitOnJoin([s], '\n');
      AbsentChar(s, ",", ',');
      ReplaceAbsent(s, ",", "");
      AbsentChar(s, "|", '|');
      ReplaceAbsent(s, "|", "");
      TrimmedStrip(s);
    }
  }

  /** Cleaning twice is cleaning once. */
  lemma CleanTextIdempotent(s: string)
    ensures CleanText(CleanText(s)) == CleanText(s)
  {
    CleanTextIsClean(s);
    CleanTextFixed(CleanText(s));
  }

  // ---------------------------------------------------------------------------
  // get_review_text_and_ratings and get_page_reviews

  /** The words of one review span: its cleaned text, `split()`. */
  function ReviewWords(span: string): seq<string> {
    SplitWhitespace(CleanText(span))
  }

  /** The words of a review are non-empty, free of whitespace, commas and bars. */
  lemma ReviewWordsClean(span: string)
    ensures forall i :: 0 <= i < |ReviewWords(span)| ==>
      IsWord(ReviewWords(span)[i]) && ',' !in ReviewWords(span)[i] && '|' !in ReviewWords(span)[i]
  {
    CleanTextIsClean(span);
    SplitWhitespaceAvoids(CleanText(span), ',');
    SplitWhitespaceAvoids(CleanText(span), '|');
  }

  /**
   * `get_review_text_and_ratings`, from the texts of the review spans: the first loop
   * wraps each cleaned text in a one-element list, the second splits every text of
   * every such list into words.
   */
  method GetReviewTextAndRatings(spans: seq<string>) returns (words: seq<seq<string>>)
    ensures |words| == |spans|
    ensures forall i :: 0 <= i < |spans| ==> words[i] == ReviewWords(spans[i])
  {
    var texts: seq<seq<string>> := [];
    for i := 0 to |spans|
      invariant |texts| == i
      invariant forall k :: 0 <= k < i ==> texts[k] == [CleanText(spans[k])]
    {
      texts := texts + [[CleanText(spans[i])]];
    }
    words := [];
    for i := 0 to |texts|
      invariant |words| == i
      invariant forall k :: 0 <= k < i ==> words[k] == ReviewWords(spans[k])
    {
      var sentences := texts[i];
      assert sentences == [CleanText(spans[i])];
      ghost var before := words;
      for j := 0 to |sentences|
        invariant words == if j == 0 then before else before + [ReviewWords(spans[i])]
      {
        words := words + [SplitWhitespace(sentences[j])];
      }
      assert words == before + [ReviewWords(spans[i])];
      forall k | 0 <= k < i + 1 ensures words[k] == ReviewWords(spans[k]) {
        if k < i {
          assert words[k] == before[k];
        }
      }
    }
  }

  /**
   * The dict `get_page_reviews` builds for one word list: ratings as in
   * `add_to_list_of_review_dict`, but the review text is always wrapped in a list.
   */
  function PageReview(words: seq<string>): map<string, Value> {
    if ":" in words then ReviewParser.RatedDict(words)
    else map["review" := List([Str(ReviewParser.JoinWords(words))])]
  }

  /**
   * The page parser's dict is the review parser's dict, except that a review
   * without ratings is a one-element list instead of a plain string.
   */
  lemma PageReviewAgrees(words: seq<string>)
    ensures var d := ReviewParser.ReviewDict(words);
      "review" in d
      && PageReview(words) == if ":" in words then d else d["review" := List([d["review"]])]
  {
    if ":" in words {
      ReviewParser.RatedReviewIsList(words);
    }
  }

  /**
   * The review is always a list, and it is the one-element list of the review text
   * unless a rating label is itself "review".
   */
  lemma PageReviewIsList(words: seq<string>)
    ensures "review" in PageReview(words) && PageReview(words)["review"].List?
    ensures (forall p :: p in ReviewParser.Colons(words) ==> ReviewParser.Label(words, p) != "review")
      ==> |PageReview(words)["review"].items| == 1
  {
    if ":" in words {
      var ps := ReviewParser.Colons(words);
      var m := map["review" := ReviewParser.RatedReview(words)];
      ReviewParser.RatedReviewIsList(words);
      if forall p :: p in ps ==> ReviewParser.Label(words, p) != "review" {
        forall l | 0 <= l < |ps| ensures ReviewParser.Label(words, ps[l]) != "review" {
          assert ps[l] in ps;
        }
        ReviewParser.WithRatingsOther(m, words, ps, "review");
      }
    }
  }

  /** The body of the loop in `get_page_reviews`: a new dict for one word list. */
  method NewPageReviewDict(words: seq<string>) returns (d: Dict)
    ensures fresh(d)
    ensures d.entries == PageReview(words)
  {
    if ":" in words {
      d := ReviewParser.NewReviewDict(words);
    } else {
      d := new Dict(map[]);
      d.Set("review", List([Str(ReviewParser.JoinWords(words))]));
    }
  }

  /** `get_page_reviews`: one new dict per review span, in page order. */
  method GetPageReviews(spans: seq<string>) returns (reviews: seq<Dict>)
    ensures |reviews| == |spans|
    ensures forall i :: 0 <= i < |reviews| ==> fresh(reviews[i])
    ensures forall i, j :: 0 <= i < j < |reviews| ==> reviews[i] != reviews[j]
    ensures forall i :: 0 <= i < |reviews| ==> reviews[i].entries == PageReview(ReviewWords(spans[i]))
  {
    var texts := GetReviewTextAndRatings(spans);
    reviews := [];
    for n := 0 to |texts|
      invariant |reviews| == n
      invariant forall i :: 0 <= i < n ==> fresh(reviews[i])
      invariant forall i, j :: 0 <= i < j < n ==> reviews[i] != reviews[j]
      invariant forall i :: 0 <= i < n ==> reviews[i].entries == PageReview(texts[i])
    {
      var d := NewPageReviewDict(texts[n]);
      assert forall i :: 0 <= i < n ==> reviews[i] != d;
      reviews := reviews + [d];
      assert reviews[n] == d;
    }
  }

  // ---------------------------------------------------------------------------
  // get_reviewer_names and get_review_times

  /** `get_reviewer_names`, from the texts of the name tags: each one cleaned. */
  method GetReviewerNames(texts: seq<string>) returns (names: seq<string>)
    ensures |names| == |texts|
    ensures forall i :: 0 <= i < |texts| ==> names[i] == CleanText(texts[i])
  {
    names := [];
    for i := 0 to |texts|
      invariant |names| == i
      invariant forall k :: 0 <= k < i ==> names[k] == CleanText(texts[k])
    {
      names := names + [CleanText(texts[i])];
    }
  }

  /**
   * One entry of `get_review_times`: whitespace runs collapse to single spaces,
   * every "Nuevo" badge is deleted and the ends are stripped.
   */
  function ReviewTime(s: string): string {
    Strip(ReplaceAll(Join(" ", SplitWhitespace(NewlinesToSpaces(s))), "Nuevo", ""))
  }

  /** A review time has no surrounding whitespace and no newline. */
  lemma ReviewTimeTrimmed(s: string)
    ensures Trimmed(ReviewTime(s)) && '\n' !in ReviewTime(s)
  {
    var ws := SplitWhitespace(NewlinesToSpaces(s));
    forall i | 0 <= i < |ws| ensures '\n' !in ws[i] {
      assert IsWord(ws[i]);
    }
    JoinAvoidsChar(" ", ws, '\n');
    var j := Join(" ", ws);
    ReplaceNoNew(j, "Nuevo", "", '\n');
    StripSpec(ReplaceAll(j, "Nuevo", ""));
    StripAvoids(ReplaceAll(j, "Nuevo", ""), '\n');
  }

  /** A time written as single-spaced words without a badge comes back unchanged. */
  lemma ReviewTimeOfWords(ws: seq<string>)
    requires forall i :: 0 <= i < |ws| ==> IsWord(ws[i])
    requires !Contains(Join(" ", ws), "Nuevo")
    ensures ReviewTime(Join(" ", ws)) == Join(" ", ws)
  {
    var t := Join(" ", ws);
    WordsKeepLines(ws);
    SplitJoinWords(ws);
    ReplaceAbsent(t, "Nuevo", "");
    JoinWordsTrimmed(ws);
    TrimmedStrip(t);
  }

  /** Words joined by spaces form one line, which the newline step leaves alone. */
  lemma WordsKeepLines(ws: seq<string>)
    requires forall i :: 0 <= i < |ws| ==> IsWord(ws[i])
    ensures NewlinesToSpaces(Join(" ", ws)) == Join(" ", ws)
  {
    NoNewlines(ws);
    SplitOnJoin([Join(" ", ws)], '\n');
  }

  /** Words hold no newline, and neither does their join. */
  lemma NoNewlines(ws: seq<string>)
    requires forall i :: 0 <= i < |ws| ==> IsWord(ws[i])
    ensures '\n' !in Join(" ", ws)
  {
    forall i | 0 <= i < |ws| ensures '\n' !in ws[i] {
      assert IsWord(ws[i]);
    }
    JoinAvoidsChar(" ", ws, '\n');
  }

  /** The "Nuevo" badge on the line after a review time is dropped. */
  lemma NuevoBadgeDropped(ws: seq<string>)
    requires |ws| > 0 && forall i :: 0 <= i < |ws| ==> IsWord(ws[i])
    requires !Contains(Join(" ", ws), "Nuevo")
    ensures ReviewTime(Join(" ", ws) + "\n" + "Nuevo") == Join(" ", ws)
  {
    var t := Join(" ", ws);
    NoNewlines(ws);
    BadgeLine(t);
    BadgeWords(ws);
    BadgeRemoved(t);
    JoinWordsTrimmed(ws);
    StripPadded(t);
  }

  /** Deleting the badge after a time that does not hold it leaves the time and its space. */
  lemma BadgeRemoved(t: string)
    requires !Contains(t, "Nuevo")
    ensures ReplaceAll(t + " " + "Nuevo", "Nuevo", "") == t + " "
  {
    AppendChar(t, ' ', "Nuevo");
    ReplaceBeforeTrailing(t + " ", "Nuevo");
  }

  /** A badge on its own line joins the line before it, after a space. */
  lemma BadgeLine(t: string)
    requires '\n' !in t
    ensures NewlinesToSpaces(t + "\n" + "Nuevo") == t + " " + "Nuevo"
  {
    assert [t, "Nuevo"][1..] == ["Nuevo"];
    assert Join("\n", [t, "Nuevo"]) == t + "\n" + "Nuevo";
    assert Join(" ", [t, "Nuevo"]) == t + " " + "Nuevo";
    SplitOnJoin([t, "Nuevo"], '\n');
  }

  /** The badge is a word. */
  lemma NuevoIsWord()
    ensures IsWord("Nuevo")
  {
    forall c | c in "Nuevo" ensures !IsSpace(c) {
      assert c == 'N' || c == 'u' || c == 'e' || c == 'v' || c == 'o';
    }
  }

  /** The badge is one more word after the words of the time. */
  lemma BadgeWords(ws: seq<string>)
    requires |ws| > 0 && forall i :: 0 <= i < |ws| ==> IsWord(ws[i])
    ensures SplitWhitespace(Join(" ", ws) + " " + "Nuevo") == ws + ["Nuevo"]
    ensures Join(" ", ws + ["Nuevo"]) == Join(" ", ws) + " " + "Nuevo"
  {
    var all := ws + ["Nuevo"];
    JoinSnoc(" ", ws, "Nuevo");
    NuevoIsWord();
    forall i | 0 <= i < |all| ensures IsWord(all[i]) {
      if i < |ws| {
        assert all[i] == ws[i];
      } else {
        assert all[i] == "Nuevo";
      }
    }
    SplitJoinWords(all);
  }

  /** `get_review_times`, from the texts of the time tags. */
  method GetReviewTimes(texts: seq<string>) returns (times: seq<string>)
    ensures |times| == |texts|
    ensures forall i :: 0 <= i < |texts| ==> times[i] == ReviewTime(texts[i])
  {
    times := [];
    for i := 0 to |texts|
      invariant |times| == i
      invariant forall k :: 0 <= k < i ==> times[k] == ReviewTime(texts[k])
    {
      var line := SplitWhitespace(NewlinesToSpaces(texts[i]));
      var cleanLine := Strip(ReplaceAll(Join(" ", line), "Nuevo", ""));
      times := times + [cleanLine];
    }
  }

  // ---------------------------------------------------------------------------
  // get_stars

  /** The index of the first ASCII digit of `s` at or after `from`, or -1. */
  function FirstDigit(s: string, from: nat): (k: int)
    decreases |s| - from
    ensures k == -1 || (from <= k < |s| && IsAsciiDigit(s[k]))
    ensures forall i :: from <= i < |s| && (k == -1 || i < k) ==> !IsAsciiDigit(s[i])
  {
    if from >= |s| then -1
    else if IsAsciiDigit(s[from]) then from
    else FirstDigit(s, from + 1)
  }

  /**
   * One entry of `get_stars`: the first match of `\d{1}` in the tag's markup, which
   * `strip` leaves as it is; `[0]` of an empty match list raises IndexError.
   */
  function Star(tag: string): (r: Result<string>)
    ensures r.Err? <==> forall i :: 0 <= i < |tag| ==> !IsAsciiDigit(tag[i])
    ensures r.Err? ==> r.error == IndexError
    ensures r.Ok? ==> (
      exists k ::
        0 <= k < |tag| && IsAsciiDigit(tag[k]) && r.value == [tag[k]]
        && forall i :: 0 <= i < k ==> !IsAsciiDigit(tag[i]))
  {
    var k := FirstDigit(tag, 0);
    if k == -1 then Err(IndexError)
    else
      TrimmedStrip([tag[k]]);
      Ok(Strip([tag[k]]))
  }

  /** The loop of `get_stars` over the star tags: the first tag without a digit raises. */
  function Stars(tags: seq<string>): (r: Result<seq<string>>)
    ensures r.Ok? <==> forall i :: 0 <= i < |tags| ==> Star(tags[i]).Ok?
    ensures r.Ok? ==> |r.value| == |tags| && forall i :: 0 <= i < |tags| ==> r.value[i] == Star(tags[i]).value
    ensures r.Err? ==> r.error == IndexError
  {
    if tags == [] then Ok([])
    else
      var init := Stars(tags[..|tags| - 1]);
      var last := Star(tags[|tags| - 1]);
      if init.Err? then init
      else if last.Err? then Err(last.error)
      else Ok(init.value + [last.value])
  }

  /** `get_stars`, from the markup of the star tags. */
  method GetStars(tags: seq<string>) returns (r: Result<seq<string>>)
    ensures r == Stars(tags)
  {
    var stars: seq<string> := [];
    for i := 0 to |tags|
      invariant Stars(tags[..i]) == Ok(stars)
    {
      assert tags[..i + 1][..i] == tags[..i];
      var line := Star(tags[i]);
      if line.Err? {
        assert !Stars(tags[..i + 1]).Ok?;
        assert !Stars(tags).Ok? by {
          assert tags[..i + 1][i] == tags[i];
        }
        return Err(IndexError);
      }
      stars := stars + [line.value];
    }
    assert tags[..|tags|] == tags;
    r := Ok(stars);
  }

  // ---------------------------------------------------------------------------
  // get_all_reviews

  /** What the tag searches find on one page: the texts each getter starts from. */
  datatype Page = Page(reviewSpans: seq<string>, nameTexts: seq<string>, timeTexts: seq<string>, starTags: seq<string>)

  /** The six lists `get_all_reviews` returns. */
  datatype PageReviews = PageReviews(
    reviews: seq<Dict>, names: seq<string>, times: seq<string>, stars: seq<string>,
    placeNames: seq<string>, scrapeDss: seq<string>)

  /** The reviewer names of a page, each of them clean. */
  function NamesOf(page: Page): (r: seq<string>)
    ensures |r| == |page.nameTexts| && forall i :: 0 <= i < |r| ==> IsClean(r[i])
  {
    var r := seq(|page.nameTexts|, i requires 0 <= i < |page.nameTexts| => CleanText(page.nameTexts[i]));
    assert forall i :: 0 <= i < |r| ==> IsClean(r[i]) by {
      forall i | 0 <= i < |r| ensures IsClean(r[i]) {
        CleanTextIsClean(page.nameTexts[i]);
      }
    }
    r
  }

  /** The review times of a page, each of them trimmed. */
  function TimesOf(page: Page): (r: seq<string>)
    ensures |r| == |page.timeTexts| && forall i :: 0 <= i < |r| ==> Trimmed(r[i])
  {
    var r := seq(|page.timeTexts|, i requires 0 <= i < |page.timeTexts| => ReviewTime(page.timeTexts[i]));
    assert forall i :: 0 <= i < |r| ==> Trimmed(r[i]) by {
      forall i | 0 <= i < |r| ensures Trimmed(r[i]) {
        ReviewTimeTrimmed(page.timeTexts[i]);
      }
    }
    r
  }

  /** The review dicts of a page, each with a list under "review". */
  function ReviewsOf(page: Page): (r: seq<map<string, Value>>)
    ensures |r| == |page.reviewSpans|
    ensures forall i :: 0 <= i < |r| ==> "review" in r[i] && r[i]["review"].List?
  {
    var r := seq(|page.reviewSpans|, i requires 0 <= i < |page.reviewSpans| => PageReview(ReviewWords(page.reviewSpans[i])));
    assert forall i :: 0 <= i < |r| ==> "review" in r[i] && r[i]["review"].List? by {
      forall i | 0 <= i < |r| ensures "review" in r[i] && r[i]["review"].List? {
        PageReviewIsList(ReviewWords(page.reviewSpans[i]));
      }
    }
    r
  }

  /** Six lists in the order `scrape_all_files_reviews` extends its columns with them. */
  datatype Columns = Columns(
    reviews: seq<map<string, Value>>, names: seq<string>, stars: seq<string>,
    times: seq<string>, placeNames: seq<string>, scrapeDss: seq<string>)

  /** The place-name and scrape-date lists have one entry per star entry. */
  predicate Padded(c: Columns) {
    |c.placeNames| == |c.stars| && |c.scrapeDss| == |c.stars|
  }

  /**
   * What `get_all_reviews` returns for one page, as values: it raises IndexError
   * when a star tag has no digit, and otherwise repeats the place name and the
   * scrape date once per star entry, whatever the other lists hold.
   */
  function PageColumns(page: Page, placeName: string, scrapeDs: string): (r: Result<Columns>)
    ensures r.Err? <==> exists i :: 0 <= i < |page.starTags| && Star(page.starTags[i]).Err?
    ensures r.Err? ==> r.error == IndexError
    ensures r.Ok? ==> (
      Padded(r.value) && |r.value.stars| == |page.starTags|
      && (forall i :: 0 <= i < |r.value.placeNames| ==> r.value.placeNames[i] == placeName)
      && (forall i :: 0 <= i < |r.value.scrapeDss| ==> r.value.scrapeDss[i] == scrapeDs))
  {
    var stars := Stars(page.starTags);
    if stars.Err? then Err(stars.error)
    else
      Ok(Columns(ReviewsOf(page), NamesOf(page), stars.value, TimesOf(page),
                 Repeat(placeName, |stars.value|), Repeat(scrapeDs, |stars.value|)))
  }

  /**
   * `get_all_reviews` on one page: the four getters, then the place name and the
   * scrape date repeated once per star entry.
   */
  method GetAllReviews(page: Page, placeName: string, scrapeDs: string) returns (r: Result<PageReviews>)
    ensures r.Err? <==> PageColumns(page, placeName, scrapeDs).Err?
    ensures r.Err? ==> r.error == IndexError
    ensures r.Ok? ==> var p := r.value;
      (forall i :: 0 <= i < |p.reviews| ==> fresh(p.reviews[i]))
      && (forall i, j :: 0 <= i < j < |p.reviews| ==> p.reviews[i] != p.reviews[j])
      && PageColumns(page, placeName, scrapeDs)
         == Ok(Columns(Entries(p.reviews), p.names, p.stars, p.times, p.placeNames, p.scrapeDss))
  {
    var reviews := GetPageReviews(page.reviewSpans);
    var names := GetReviewerNames(page.nameTexts);
    var times := GetReviewTimes(page.timeTexts);
    var stars := GetStars(page.starTags);
    if stars.Err? {
      return Err(stars.error);
    }
    var placeNames := Repeat(placeName, |stars.value|);
    var scrapeDss := Repeat(scrapeDs, |stars.value|);
    assert Entries(reviews) == ReviewsOf(page);
    assert names == NamesOf(page);
    assert times == TimesOf(page);
    r := Ok(PageReviews(reviews, names, times, stars.value, placeNames, scrapeDss));
  }

  // ---------------------------------------------------------------------------
  // scrape_all_files_reviews

  /** One row of the table of pages: the page content, the place name and the scrape date. */
  datatype Row = Row(content: Page, name: string, scrapeDs: string)

  /** What each row's page gives, in row order. */
  function RowsColumns(rows: seq<Row>): (r: seq<Result<Columns>>)
    ensures |r| == |rows|
    ensures forall i :: 0 <= i < |rows| ==> r[i] == PageColumns(rows[i].content, rows[i].name, rows[i].scrapeDs)
  {
    seq(|rows|, i requires 0 <= i < |rows| => PageColumns(rows[i].content, rows[i].name, rows[i].scrapeDs))
  }

  /** Column-wise concatenation. */
  function Append(a: Columns, b: Columns): Columns {
    Columns(a.reviews + b.reviews, a.names + b.names, a.stars + b.stars,
            a.times + b.times, a.placeNames + b.placeNames, a.scrapeDss + b.scrapeDss)
  }

  const NoColumns := Columns([], [], [], [], [], [])

  /** The columns extended page after page; the first page that raised ends it. */
  function Collect(pages: seq<Result<Columns>>): Result<Columns> {
    if pages == [] then Ok(NoColumns)
    else
      var init := Collect(pages[..|pages| - 1]);
      var last := pages[|pages| - 1];
      if init.Err? then init
      else if last.Err? then last
      else Ok(Append(init.value, last.value))
  }

  lemma AppendAssoc(x: Columns, y: Columns, z: Columns)
    ensures Append(Append(x, y), z) == Append(x, Append(y, z))
  {
  }

  lemma AppendNone(x: Columns)
    ensures Append(x, NoColumns) == x
  {
    assert x.reviews + [] == x.reviews;
  }

  /** Collecting one more page that did not raise appends its columns. */
  lemma CollectSnoc(pages: seq<Result<Columns>>, p: Result<Columns>)
    requires Collect(pages).Ok? && p.Ok?
    ensures Collect(pages + [p]) == Ok(Append(Collect(pages).value, p.value))
  {
    assert (pages + [p])[..|pages|] == pages;
  }

  /** Collecting is compositional: the pages of two runs, collected, give their columns in order. */
  lemma {:induction false} CollectConcat(a: seq<Result<Columns>>, b: seq<Result<Columns>>)
    requires Collect(a).Ok? && Collect(b).Ok?
    ensures Collect(a + b) == Ok(Append(Collect(a).value, Collect(b).value))
    decreases |b|
  {
    if b == [] {
      assert a + b == a;
      AppendNone(Collect(a).value);
    } else {
      var init := b[..|b| - 1];
      var last := b[|b| - 1];
      assert b == init + [last];
      assert a + b == (a + init) + [last];
      CollectConcat(a, init);
      CollectSnoc(a + init, last);
      CollectSnoc(init, last);
      AppendAssoc(Collect(a).value, Collect(init).value, last.value);
    }
  }

  /** Collecting fails exactly when some page raised, and then with that page's error. */
  lemma {:induction false} CollectFails(pages: seq<Result<Columns>>)
    ensures Collect(pages).Ok? <==> forall i :: 0 <= i < |pages| ==> pages[i].Ok?
    ensures Collect(pages).Err? ==> exists i :: 0 <= i < |pages| && pages[i] == Collect(pages)
    decreases |pages|
  {
    if pages != [] {
      var init := pages[..|pages| - 1];
      CollectFails(init);
      assert forall i :: 0 <= i < |init| ==> init[i] == pages[i];
    }
  }

  /** Pages whose place names and dates are padded collect to padded columns. */
  lemma {:induction false} CollectPadded(pages: seq<Result<Columns>>)
    requires forall i :: 0 <= i < |pages| && pages[i].Ok? ==> Padded(pages[i].value)
    requires Collect(pages).Ok?
    ensures Padded(Collect(pages).value)
    decreases |pages|
  {
    if pages != [] {
      var init := pages[..|pages| - 1];
      assert forall i :: 0 <= i < |init| ==> init[i] == pages[i];
      CollectPadded(init);
    }
  }

  /** All six columns have the same length. */
  predicate Aligned(c: Columns) {
    Padded(c) && |c.reviews| == |c.stars| && |c.names| == |c.stars| && |c.times| == |c.stars|
  }

  function Strs(ws: seq<string>): (r: seq<Value>)
    ensures |r| == |ws| && forall i :: 0 <= i < |ws| ==> r[i] == Str(ws[i])
  {
    seq(|ws|, i requires 0 <= i < |ws| => Str(ws[i]))
  }

  function Mappings(ms: seq<map<string, Value>>): (r: seq<Value>)
    ensures |r| == |ms| && forall i :: 0 <= i < |ms| ==> r[i] == Mapping(ms[i])
  {
    seq(|ms|, i requires 0 <= i < |ms| => Mapping(ms[i]))
  }

  /** The frame of the six columns, under the keys the code uses. */
  function ToFrame(c: Columns): map<string, seq<Value>> {
    map["review" := Mappings(c.reviews), "reviewer_name" := Strs(c.names), "stars" := Strs(c.stars),
        "review_time" := Strs(c.times), "place_name" := Strs(c.placeNames), "scrape_ds" := Strs(c.scrapeDss)]
  }

  const UnequalLengths := ValueError("All arrays must be of the same length")

  /**
   * `scrape_all_files_reviews`: the frame of the collected columns. With no row the
   * defaultdict stays empty and so does the frame; columns of different lengths
   * make the frame constructor raise ValueError.
   */
  function Frame(rows: seq<Row>): Result<map<string, seq<Value>>> {
    if rows == [] then Ok(map[])
    else
      var c := Collect(RowsColumns(rows));
      if c.Err? then Err(c.error)
      else if !Aligned(c.value) then Err(UnequalLengths)
      else Ok(ToFrame(c.value))
  }

  /**
   * A table is refused with IndexError exactly when some star tag lacks a digit,
   * and with ValueError only when its review, name or time count differs from its
   * star count: the padded columns never cause it.
   */
  lemma FrameErrors(rows: seq<Row>)
    ensures Frame(rows) == Err(IndexError) <==>
      exists i, j :: 0 <= i < |rows| && 0 <= j < |rows[i].content.starTags| && Star(rows[i].content.starTags[j]).Err?
    ensures var c := Collect(RowsColumns(rows));
      rows != [] && c.Ok? ==>
        (Frame(rows).Err? <==> !(|c.value.reviews| == |c.value.stars| && |c.value.names| == |c.value.stars|
                                 && |c.value.times| == |c.value.stars|))
  {
    var pages := RowsColumns(rows);
    CollectFails(pages);
    if Collect(pages).Ok? {
      CollectPadded(pages);
    }
  }

  /**
   * `scrape_all_files_reviews`: every row's page is parsed and its six lists extend
   * the six columns, then the columns become the frame.
   */
  method ScrapeAllFilesReviews(rows: seq<Row>) returns (r: Result<map<string, seq<Value>>>)
    ensures r == Frame(rows)
  {
    var reviews: seq<Dict> := [];
    var names, stars, times, placeNames, scrapeDss: seq<string> := [], [], [], [], [];
    ghost var pages := RowsColumns(rows);
    for n := 0 to |rows|
      invariant Collect(pages[..n]) == Ok(Columns(Entries(reviews), names, stars, times, placeNames, scrapeDss))
    {
      ghost var before := Columns(Entries(reviews), names, stars, times, placeNames, scrapeDss);
      var row := rows[n];
      var page := GetAllReviews(row.content, row.name, row.scrapeDs);
      PrefixSnoc(pages, n);
      if page.Err? {
        CollectFails(pages);
        return Err(page.error);
      }
      var p := page.value;
      assert Entries(reviews) == before.reviews;
      ghost var added := Columns(Entries(p.reviews), p.names, p.stars, p.times, p.placeNames, p.scrapeDss);
      assert pages[n] == Ok(added);
      CollectSnoc(pages[..n], pages[n]);
      EntriesConcat(reviews, p.reviews);
      reviews := reviews + p.reviews;
      names := names + p.names;
      stars := stars + p.stars;
      times := times + p.times;
      placeNames := placeNames + p.placeNames;
      scrapeDss := scrapeDss + p.scrapeDss;
      assert Columns(Entries(reviews), names, stars, times, placeNames, scrapeDss) == Append(before, added);
    }
    assert pages[..|rows|] == pages;
    if rows == [] {
      return Ok(map[]);
    }
    var columns := Columns(Entries(reviews), names, stars, times, placeNames, scrapeDss);
    if !Aligned(columns) {
      return Err(UnequalLengths);
    }
    r := Ok(ToFrame(columns));
  }
}
