/**
 * Paging through the reviews of one place (discovery/read_raw_reviews.py).
 *
 * Each page of reviews is fetched with a link that carries the continuation
 * token found in the previous page; the first page has the empty token. The
 * network fetch and the review parser are function parameters.
 */
module RawReviews {
  import opened Text
  import opened PyValues

  const NextPageSep := ",sort_by:newestFirst,next_page_token:"
  const LinkTail := ",associated_topic:,_fmt:pc"

  /**
   * `format_query_next_page`, with the review-endpoint header passed in: the header,
   * ":", the data id and the sort and token prefix, then the token right after
   * `next_page_token:`, then the fixed tail.
   */
  function FormatQueryNextPage(header: string, dataId: string, token: string): (link: string)
    ensures |link| == |header| + 1 + |dataId| + |NextPageSep| + |token| + |LinkTail|
    ensures var k := |header| + 1 + |dataId| + |NextPageSep|;
      link[..k] == header + ":" + dataId + NextPageSep
      && link[k..k + |token|] == token
      && link[k + |token|..] == LinkTail
  {
    header + ":" + dataId + NextPageSep + token + LinkTail
  }

  /** Different tokens give different links: the token can be read back from the link. */
  lemma LinkInjective(header: string, dataId: string, t1: string, t2: string)
    requires FormatQueryNextPage(header, dataId, t1) == FormatQueryNextPage(header, dataId, t2)
    ensures t1 == t2
  {
    var k := |header| + 1 + |dataId| + |NextPageSep|;
    assert t1 == FormatQueryNextPage(header, dataId, t1)[k..k + |t1|];
  }

  // ---------------------------------------------------------------------------
  // _next_page_token: re.findall('data-next-page-token="(\w+\=+)', page)[0]

  const TokenMarker := "data-next-page-token=\""

  /** Length of the leading run of `\w` characters. */
  function WordRun(s: string): (n: nat)
    ensures n <= |s|
  {
    if s != "" && IsWordChar(s[0]) then 1 + WordRun(s[1..]) else 0
  }

  /** The run is made of word characters and is followed by none. */
  lemma {:induction false} WordRunChars(s: string)
    ensures forall k :: 0 <= k < WordRun(s) ==> IsWordChar(s[k])
    ensures WordRun(s) < |s| ==> !IsWordChar(s[WordRun(s)])
  {
    if s != "" && IsWordChar(s[0]) {
      WordRunChars(s[1..]);
      forall k | 1 <= k < WordRun(s) ensures IsWordChar(s[k]) {
        assert s[k] == s[1..][k - 1];
      }
    }
  }

  /** Length of the leading run of '=' characters. */
  function EqualsRun(s: string): (n: nat)
    ensures n <= |s|
  {
    if s != "" && s[0] == '=' then 1 + EqualsRun(s[1..]) else 0
  }

  /** The run is made of '=' characters and is followed by none. */
  lemma {:induction false} EqualsRunChars(s: string)
    ensures forall k :: 0 <= k < EqualsRun(s) ==> s[k] == '='
    ensures EqualsRun(s) < |s| ==> s[EqualsRun(s)] != '='
  {
    if s != "" && s[0] == '=' {
      EqualsRunChars(s[1..]);
      forall k | 1 <= k < EqualsRun(s) ensures s[k] == '=' {
        assert s[k] == s[1..][k - 1];
      }
    }
  }

  /** The pattern matches at `i`: the marker, one or more word characters, one or more '='. */
  predicate TokenAt(page: string, i: int) {
    ContainsAt(page, TokenMarker, i)
    && var rest := page[i + |TokenMarker|..];
    WordRun(rest) > 0 && EqualsRun(rest[WordRun(rest)..]) > 0
  }

  /** The captured group of the match at `i`: the greedy word run and '=' run. */
  function TokenFrom(page: string, i: int): (t: string)
    requires TokenAt(page, i)
    ensures t != "" && t[|t| - 1] == '=' && '"' !in t
    ensures ContainsAt(page, TokenMarker + t, i)
  {
    var rest := page[i + |TokenMarker|..];
    var w := WordRun(rest);
    var t := rest[..w + EqualsRun(rest[w..])];
    RunsShape(rest, w, EqualsRun(rest[w..]));
    ContainsAtThen(page, TokenMarker, t, i);
    t
  }

  lemma RunsShape(rest: string, w: nat, e: nat)
    requires w == WordRun(rest) && e == EqualsRun(rest[w..]) && e > 0
    ensures '"' !in rest[..w + e] && rest[..w + e][w + e - 1] == '='
  {
    var t := rest[..w + e];
    WordRunChars(rest);
    EqualsRunChars(rest[w..]);
    forall k | 0 <= k < |t| ensures t[k] != '"' {
      if k >= w { assert t[k] == rest[w..][k - w]; }
    }
    assert t[w + e - 1] == rest[w..][e - 1];
  }

  /** `a` at `i` followed by `b` is `a + b` at `i`. */
  lemma ContainsAtThen(page: string, a: string, b: string, i: int)
    requires ContainsAt(page, a, i) && i + |a| + |b| <= |page|
    requires b == page[i + |a|..][..|b|]
    ensures ContainsAt(page, a + b, i)
  {
    assert page[i..i + |a| + |b|] == page[i..i + |a|] + page[i + |a|..i + |a| + |b|];
  }

  /** The first match at or after `start`, or -1. */
  function FirstTokenAt(page: string, start: nat): (r: int)
    decreases |page| - start
    ensures r == -1 || (start <= r && TokenAt(page, r))
  {
    if start + |TokenMarker| > |page| then -1
    else if TokenAt(page, start) then start
    else FirstTokenAt(page, start + 1)
  }

  /** No match starts at `i` when the search from `start` ended after it, or found nothing. */
  lemma {:induction false} NoTokenBefore(page: string, start: nat, i: int)
    requires start <= i
    requires FirstTokenAt(page, start) == -1 || i < FirstTokenAt(page, start)
    ensures !TokenAt(page, i)
    decreases i - start
  {
    if start + |TokenMarker| <= |page| && i != start {
      NoTokenBefore(page, start + 1, i);
    }
  }

  /** No match starts before the one found, and none at all when -1 is returned. */
  lemma FirstTokenAtIsFirst(page: string, start: nat)
    ensures FirstTokenAt(page, start) == -1 ==> forall i :: start <= i ==> !TokenAt(page, i)
    ensures FirstTokenAt(page, start) != -1 ==>
              forall i :: start <= i < FirstTokenAt(page, start) ==> !TokenAt(page, i)
  {
    forall i | start <= i && (FirstTokenAt(page, start) == -1 || i < FirstTokenAt(page, start))
      ensures !TokenAt(page, i)
    {
      NoTokenBefore(page, start, i);
    }
  }

  /** `_next_page_token`: the first match's token, or IndexError when there is none. */
  function NextPageToken(page: string): (r: Result<string>)
    ensures r.Err? ==> r.error == IndexError
    ensures r.Ok? ==> r.value != "" && r.value[|r.value| - 1] == '='
  {
    var i := FirstTokenAt(page, 0);
    if i < 0 then Err(IndexError) else Ok(TokenFrom(page, i))
  }

  /** The token is the group of the leftmost match; there is none exactly when nothing matches. */
  lemma NextPageTokenFirstMatch(page: string)
    ensures NextPageToken(page).Err? <==> forall i :: !TokenAt(page, i)
    ensures NextPageToken(page).Ok? ==>
              exists i :: (TokenAt(page, i) && NextPageToken(page).value == TokenFrom(page, i)
                           && forall j :: 0 <= j < i ==> !TokenAt(page, j))
  {
    FirstTokenAtIsFirst(page, 0);
    var i := FirstTokenAt(page, 0);
    if i >= 0 {
      assert TokenAt(page, i) && NextPageToken(page).value == TokenFrom(page, i);
    }
  }

  lemma {:induction false} WordRunOf(w: string, rest: string)
    requires forall k :: 0 <= k < |w| ==> IsWordChar(w[k])
    requires rest == "" || !IsWordChar(rest[0])
    ensures WordRun(w + rest) == |w|
  {
    if w != "" {
      assert (w + rest)[1..] == w[1..] + rest;
      WordRunOf(w[1..], rest);
    } else {
      assert w + rest == rest;
    }
  }

  lemma {:induction false} EqualsRunOf(e: string, rest: string)
    requires forall k :: 0 <= k < |e| ==> e[k] == '='
    requires rest == "" || rest[0] != '='
    ensures EqualsRun(e + rest) == |e|
  {
    if e != "" {
      assert (e + rest)[1..] == e[1..] + rest;
      EqualsRunOf(e[1..], rest);
    } else {
      assert e + rest == rest;
    }
  }

  /** Splitting `m + x` after `m`. */
  lemma AfterPrefix(m: string, x: string)
    ensures (m + x)[..|m|] == m && (m + x)[|m|..] == x
  {
  }

  /** The runs of a word followed by '=' padding and a closing quote. */
  lemma RunsOfToken(word: string, padding: string, rest: string)
    requires word != "" && forall k :: 0 <= k < |word| ==> IsWordChar(word[k])
    requires padding != "" && forall k :: 0 <= k < |padding| ==> padding[k] == '='
    ensures var after := word + padding + "\"" + rest;
      WordRun(after) == |word| && EqualsRun(after[|word|..]) == |padding|
      && after[..|word| + |padding|] == word + padding
  {
    var after := word + padding + "\"" + rest;
    assert after == word + (padding + "\"" + rest);
    assert !IsWordChar((padding + "\"" + rest)[0]);
    WordRunOf(word, padding + "\"" + rest);
    assert after[|word|..] == padding + ("\"" + rest);
    EqualsRunOf(padding, "\"" + rest);
  }

  lemma TokenAtStart(word: string, padding: string, rest: string)
    requires word != "" && forall k :: 0 <= k < |word| ==> IsWordChar(word[k])
    requires padding != "" && forall k :: 0 <= k < |padding| ==> padding[k] == '='
    ensures TokenAt(TokenMarker + (word + padding + "\"" + rest), 0)
    ensures TokenFrom(TokenMarker + (word + padding + "\"" + rest), 0) == word + padding
  {
    var after := word + padding + "\"" + rest;
    var page := TokenMarker + after;
    AfterPrefix(TokenMarker, after);
    RunsOfToken(word, padding, rest);
    assert page[0 + |TokenMarker|..] == after;
    assert ContainsAt(page, TokenMarker, 0);
  }

  /**
   * A page that opens with the marker, a word, '=' padding and a closing quote yields
   * exactly that word and padding as its token.
   */
  lemma TokenRoundTrip(word: string, padding: string, rest: string)
    requires word != "" && forall k :: 0 <= k < |word| ==> IsWordChar(word[k])
    requires padding != "" && forall k :: 0 <= k < |padding| ==> padding[k] == '='
    ensures NextPageToken(TokenMarker + word + padding + "\"" + rest) == Ok(word + padding)
  {
    var page := TokenMarker + (word + padding + "\"" + rest);
    assert page == TokenMarker + word + padding + "\"" + rest;
    TokenAtStart(word, padding, rest);
    assert FirstTokenAt(page, 0) == 0;
  }

  // ---------------------------------------------------------------------------
  // store_page and the paging loop

  /** The record `store_page` stores for one page. */
  datatype PageRecord = PageRecord(
    placeId: Value,
    dataId: string,
    name: Value,
    scrapeDs: string,
    pageNumber: nat,
    nextPageToken: string,
    content: string)

  /** `store_page`: the record for a page, whose token is extracted again from the page. */
  function StorePage(placeId: Value, dataId: string, name: Value, pageNumber: nat, page: string, today: string)
    : (r: Result<PageRecord>)
    ensures r.Ok? <==> NextPageToken(page).Ok?
    ensures r.Err? ==> r.error == IndexError
    ensures r.Ok? ==> (r.value.nextPageToken == NextPageToken(page).value
                       && r.value.pageNumber == pageNumber && r.value.content == page
                       && r.value.placeId == placeId && r.value.dataId == dataId
                       && r.value.name == name && r.value.scrapeDs == today)
  {
    match NextPageToken(page)
    case Err(e) => Err(e)
    case Ok(token) => Ok(PageRecord(placeId, dataId, name, today, pageNumber, token, page))
  }

  /** `serp_output['place_results']['data_id']`, formatted as the link does. */
  function SerpDataId(serpOutput: Value): (r: Result<string>)
    ensures r.Ok? <==> (Field(serpOutput, "place_results").Ok?
                        && Field(Field(serpOutput, "place_results").value, "data_id").Ok?)
  {
    match Field(serpOutput, "place_results")
    case Err(e) => Err(e)
    case Ok(places) =>
      match Field(places, "data_id")
      case Err(e) => Err(e)
      case Ok(v) => Ok(Render(v))
  }

  /**
   * The data id the links use: the gmaps entry's own `data_id` when it is truthy,
   * or else the one a SERP lookup returns; the lookup's arguments `place_id`,
   * `name` and `coords` are read from the entry first, in that order.
   */
  function DataIdOf(entry: map<string, Value>, serpOutput: Value): (r: Result<string>)
    ensures "data_id" !in entry ==> r == Err(KeyError("data_id"))
    ensures "data_id" in entry && Truthy(entry["data_id"]) ==> r == Ok(Render(entry["data_id"]))
    ensures "data_id" in entry && !Truthy(entry["data_id"]) ==>
      r == (if "place_id" !in entry then Err(KeyError("place_id"))
            else if "name" !in entry then Err(KeyError("name"))
            else if "coords" !in entry then Err(KeyError("coords"))
            else SerpDataId(serpOutput))
  {
    var dataId := Lookup(entry, "data_id");
    if dataId.Err? then Err(dataId.error)
    else if Truthy(dataId.value) then Ok(Render(dataId.value))
    else
      var placeId := Lookup(entry, "place_id");
      if placeId.Err? then Err(placeId.error)
      else
        var name := Lookup(entry, "name");
        if name.Err? then Err(name.error)
        else
          var coords := Lookup(entry, "coords");
          if coords.Err? then Err(coords.error)
          else SerpDataId(serpOutput)
  }

  /** The token the next link carries: empty before the first page, then the last page's. */
  function CurrentToken(records: seq<PageRecord>): string {
    if records == [] then "" else records[|records| - 1].nextPageToken
  }

  /** Each link carries the token of the page stored before it; the first carries none. */
  predicate LinksFollowTokens(header: string, dataId: string, links: seq<string>, records: seq<PageRecord>) {
    |records| <= |links| <= |records| + 1
    && forall i {:trigger CurrentToken(records[..i])} :: 0 <= i < |links| ==>
         links[i] == FormatQueryNextPage(header, dataId, CurrentToken(records[..i]))
  }

  /**
   * The outcome of `store_page` on the page each link fetched, numbered from 0: the
   * first `|records|` pages were stored as `records`, and a last link beyond them
   * fetched a page without a token.
   */
  predicate StoredInOrder(placeId: Value, name: Value, dataId: string, today: string,
                          fetch: string -> string, links: seq<string>, records: seq<PageRecord>)
  {
    |records| <= |links| <= |records| + 1
    && forall i {:trigger StorePage(placeId, dataId, name, i, fetch(links[i]), today)} :: 0 <= i < |links| ==>
         StorePage(placeId, dataId, name, i, fetch(links[i]), today)
           == if i < |records| then Ok(records[i]) else Err(IndexError)
  }

  lemma CurrentTokenPrefix(records: seq<PageRecord>, r: PageRecord)
    ensures CurrentToken((records + [r])[..|records|]) == CurrentToken(records)
    ensures CurrentToken(records + [r]) == r.nextPageToken
  {
    assert (records + [r])[..|records|] == records;
  }

  /** Requesting the next link keeps the links in step with the stored tokens. */
  lemma NextLinkFollows(header: string, dataId: string, links: seq<string>, records: seq<PageRecord>)
    requires LinksFollowTokens(header, dataId, links, records) && |links| == |records|
    ensures LinksFollowTokens(header, dataId, links + [FormatQueryNextPage(header, dataId, CurrentToken(records))], records)
  {
    assert records[..|records|] == records;
  }

  /** Storing the page of the last link keeps the links in step with the stored tokens. */
  lemma StoreFollows(header: string, dataId: string, links: seq<string>, records: seq<PageRecord>, r: PageRecord)
    requires LinksFollowTokens(header, dataId, links, records) && |links| == |records| + 1
    ensures LinksFollowTokens(header, dataId, links, records + [r])
  {
    forall i | 0 <= i < |links|
      ensures links[i] == FormatQueryNextPage(header, dataId, CurrentToken((records + [r])[..i]))
    {
      assert (records + [r])[..i] == records[..i];
    }
  }

  /** Fetching one more page extends the outcomes by what `store_page` makes of it. */
  lemma StoreInOrder(placeId: Value, name: Value, dataId: string, today: string, fetch: string -> string,
                     links: seq<string>, records: seq<PageRecord>, link: string, stored: Result<PageRecord>)
    requires StoredInOrder(placeId, name, dataId, today, fetch, links, records) && |links| == |records|
    requires stored == StorePage(placeId, dataId, name, |records|, fetch(link), today)
    ensures stored.Ok? ==> StoredInOrder(placeId, name, dataId, today, fetch, links + [link], records + [stored.value])
    ensures stored.Err? ==> StoredInOrder(placeId, name, dataId, today, fetch, links + [link], records)
  {
    var records' := if stored.Ok? then records + [stored.value] else records;
    forall i | 0 <= i < |links| + 1
      ensures StorePage(placeId, dataId, name, i, fetch((links + [link])[i]), today)
                == if i < |records'| then Ok(records'[i]) else Err(IndexError)
    {
      if i < |records| {
        assert (links + [link])[i] == links[i];
        assert records'[i] == records[i];
      }
    }
  }

  /**
   * The last link fetched a page without a token exactly when that page was not
   * stored; every stored page had one.
   */
  lemma LastPageOutcome(placeId: Value, name: Value, dataId: string, today: string,
                        fetch: string -> string, links: seq<string>, records: seq<PageRecord>)
    requires StoredInOrder(placeId, name, dataId, today, fetch, links, records) && 1 <= |links|
    ensures |links| == |records| + 1 <==> NextPageToken(fetch(links[|links| - 1])).Err?
    ensures forall i :: 0 <= i < |records| ==> NextPageToken(fetch(links[i])) == Ok(records[i].nextPageToken)
  {
    var last := |links| - 1;
    assert StorePage(placeId, dataId, name, last, fetch(links[last]), today)
             == if last < |records| then Ok(records[last]) else Err(IndexError);
    forall i | 0 <= i < |records| ensures NextPageToken(fetch(links[i])) == Ok(records[i].nextPageToken) {
      assert StorePage(placeId, dataId, name, i, fetch(links[i]), today) == Ok(records[i]);
    }
  }

  /** Every stored page but the last one is at least as new as `lastReviewAvailable`. */
  predicate RecentBeforeLast(newestReview: PageRecord -> int, lastReviewAvailable: int, records: seq<PageRecord>) {
    forall i :: 0 <= i < |records| - 1 ==> newestReview(records[i]) >= lastReviewAvailable
  }

  /** Every stored page is at least as new as `lastReviewAvailable`. */
  predicate AllRecent(newestReview: PageRecord -> int, lastReviewAvailable: int, records: seq<PageRecord>) {
    forall i :: 0 <= i < |records| ==> newestReview(records[i]) >= lastReviewAvailable
  }

  /**
   * One pass of the paging loop: fetch the page for the current token and store it.
   * `more` is false when the page has no token (it is then not stored) or when it is
   * older than the last available review; otherwise `token'` is the token it carries.
   */
  method FetchPage(placeId: Value, name: Value, dataId: string, header: string, today: string,
                   fetch: string -> string, newestReview: PageRecord -> int, lastReviewAvailable: int,
                   links: seq<string>, records: seq<PageRecord>, token: string)
    returns (links': seq<string>, records': seq<PageRecord>, token': string, more: bool)
    requires |links| == |records| && token == CurrentToken(records)
    requires LinksFollowTokens(header, dataId, links, records)
    requires StoredInOrder(placeId, name, dataId, today, fetch, links, records)
    requires AllRecent(newestReview, lastReviewAvailable, records)
    ensures links' == links + [FormatQueryNextPage(header, dataId, token)]
    ensures LinksFollowTokens(header, dataId, links', records')
    ensures StoredInOrder(placeId, name, dataId, today, fetch, links', records')
    ensures RecentBeforeLast(newestReview, lastReviewAvailable, records')
    ensures |links'| == |records'| + 1 ==> !more
    ensures more ==> |links'| == |records'| && token' == CurrentToken(records')
                     && AllRecent(newestReview, lastReviewAvailable, records')
    ensures !more && |links'| == |records'| ==> newestReview(records'[|records'| - 1]) < lastReviewAvailable
  {
    var link := FormatQueryNextPage(header, dataId, token);
    NextLinkFollows(header, dataId, links, records);
    var page := fetch(link);
    var stored := StorePage(placeId, dataId, name, |records|, page, today);
    StoreInOrder(placeId, name, dataId, today, fetch, links, records, link, stored);
    links' := links + [link];
    if stored.Err? {
      records', token', more := records, "", false;
      return;
    }
    StoreFollows(header, dataId, links', records, stored.value);
    CurrentTokenPrefix(records, stored.value);
    records' := records + [stored.value];
    token' := stored.value.nextPageToken;
    more := newestReview(stored.value) >= lastReviewAvailable;
    assert forall i :: 0 <= i < |records| ==> records'[i] == records[i];
  }

  /**
   * The paging loop of `extract_all_reviews` for a known data id. The page ceiling is
   * redrawn from 70..99 before every page; `newestReview` stands for the parse of a
   * stored page (its newest review date, as a day number) and `lastReviewAvailable` for
   * the date the previous run stopped at.
   */
  method FetchPages(placeId: Value, name: Value, dataId: string, header: string, today: string,
                    fetch: string -> string, newestReview: PageRecord -> int, lastReviewAvailable: int)
    returns (links: seq<string>, records: seq<PageRecord>)
    ensures 1 <= |links| <= 99
    ensures LinksFollowTokens(header, dataId, links, records)
    ensures StoredInOrder(placeId, name, dataId, today, fetch, links, records)
    // every page stored before the last one was newer than the last available review
    ensures RecentBeforeLast(newestReview, lastReviewAvailable, records)
    // before 70 pages, only a missing token or an old page ends the loop
    ensures |links| == |records| && |records| < 70 ==>
              newestReview(records[|records| - 1]) < lastReviewAvailable
  {
    links, records := [], [];
    var token := "";
    while true
      invariant |records| == |links| <= 99
      invariant token == CurrentToken(records)
      invariant LinksFollowTokens(header, dataId, links, records)
      invariant StoredInOrder(placeId, name, dataId, today, fetch, links, records)
      invariant AllRecent(newestReview, lastReviewAvailable, records)
      decreases 99 - |records|
    {
      var ceiling :| 70 <= ceiling <= 99;
      if |records| >= ceiling {
        return;
      }
      var more;
      links, records, token, more := FetchPage(placeId, name, dataId, header, today, fetch,
                                               newestReview, lastReviewAvailable, links, records, token);
      if !more {
        return;
      }
    }
  }

  /**
   * `extract_all_reviews`: resolve the data id, page through the reviews, and on
   * success list the place whose entry is then marked as reviewed in `updated`.
   * The entry's `place_id` is read before the loop and its `name` only when the
   * first page is stored, so an entry without a name raises only if its first
   * page carries a token.
   */
  method ExtractAllReviews(entry: map<string, Value>, serpOutput: Value, header: string, today: string,
                           fetch: string -> string, newestReview: PageRecord -> int,
                           lastReviewAvailable: int)
    returns (status: Result<string>, links: seq<string>, records: seq<PageRecord>, updated: seq<Value>)
    ensures DataIdOf(entry, serpOutput).Err? ==>
      status == DataIdOf(entry, serpOutput) && links == [] && records == [] && updated == []
    ensures DataIdOf(entry, serpOutput).Ok? && "place_id" !in entry ==>
      status == Err(KeyError("place_id")) && links == [] && records == [] && updated == []
    ensures DataIdOf(entry, serpOutput).Ok? && "place_id" in entry && "name" !in entry ==>
      links == [FormatQueryNextPage(header, DataIdOf(entry, serpOutput).value, "")] && records == []
      && (NextPageToken(fetch(links[0])).Ok? ==> status == Err(KeyError("name")) && updated == [])
      && (NextPageToken(fetch(links[0])).Err? ==> status == DataIdOf(entry, serpOutput) && updated == [entry["place_id"]])
    ensures status.Ok? ==>
      status == DataIdOf(entry, serpOutput) && "place_id" in entry && updated == [entry["place_id"]]
      && 1 <= |links| <= 99 && LinksFollowTokens(header, status.value, links, records)
    ensures status.Ok? && "name" in entry ==>
      StoredInOrder(entry["place_id"], entry["name"], status.value, today, fetch, links, records)
      && RecentBeforeLast(newestReview, lastReviewAvailable, records)
      && (|links| == |records| && |records| < 70 ==> newestReview(records[|records| - 1]) < lastReviewAvailable)
  {
    status := DataIdOf(entry, serpOutput);
    links, records, updated := [], [], [];
    if status.Err? {
      return;
    }
    var placeId := Lookup(entry, "place_id");
    if placeId.Err? {
      status := Err(placeId.error);
      return;
    }
    var name := Lookup(entry, "name");
    if name.Err? {
      // the first page is always fetched; storing it reads the missing name
      var link := FormatQueryNextPage(header, status.value, "");
      links := [link];
      if NextPageToken(fetch(link)).Ok? {
        status := Err(name.error);
        return;
      }
      assert LinksFollowTokens(header, status.value, links, records) by {
        assert records[..0] == [];
      }
      updated := [placeId.value];
      return;
    }
    links, records := FetchPages(placeId.value, name.value, status.value, header, today,
                                 fetch, newestReview, lastReviewAvailable);
    updated := [placeId.value];
  }
}
