/**
 * Structuring of scraped review text (descobridor/discovery/review_parser.py):
 * the word lists of each review become a dict holding the review text and one
 * entry per `label : mark` rating, column lists are zipped into those dicts,
 * and the review text is split into its translated and original parts.
 */
module ReviewParser {
  import opened Text
  import opened PyValues

  // ---------------------------------------------------------------------------
  // Python list indexing

  /** Where a slice bound `i` lands in a list of length `n` (negative counts from the end). */
  function PyBound(n: nat, i: int): (b: nat)
    ensures b <= n
    ensures 0 <= i <= n ==> b == i
    ensures -(n as int) <= i < 0 ==> b == n + i
  {
    if i < 0 then (if n + i < 0 then 0 else n + i) else if i > n then n else i
  }

  /** `s[i:j]` */
  function PySlice<T>(s: seq<T>, i: int, j: int): (r: seq<T>)
    ensures |r| <= |s|
  {
    var a := PyBound(|s|, i);
    var b := PyBound(|s|, j);
    if a <= b then s[a..b] else []
  }

  /** `s[i]`, where -1 is the last element. */
  function PyAt<T>(s: seq<T>, i: int): T
    requires -|s| <= i < |s|
  {
    if i < 0 then s[|s| + i] else s[i]
  }

  // ---------------------------------------------------------------------------
  // One review: words and `label : mark` ratings

  /** `list(locate(words[from:], lambda x: x == ':'))`, shifted by `from`. */
  function ColonsFrom(words: seq<string>, from: nat): (ps: seq<nat>)
    decreases |words| - from
    ensures forall k :: 0 <= k < |ps| ==> from <= ps[k] < |words| && words[ps[k]] == ":"
    ensures forall p :: from <= p < |words| && words[p] == ":" ==> p in ps
  {
    if from >= |words| then []
    else if words[from] == ":" then [from] + ColonsFrom(words, from + 1)
    else ColonsFrom(words, from + 1)
  }

  /** The indices of the `:` words, in increasing order. */
  function Colons(words: seq<string>): (ps: seq<nat>)
    ensures forall k :: 0 <= k < |ps| ==> ps[k] < |words| && words[ps[k]] == ":"
    ensures ":" in words <==> ps != []
  {
    var ps := ColonsFrom(words, 0);
    assert ":" in words ==> ps != [] by {
      if ":" in words {
        var p :| 0 <= p < |words| && words[p] == ":";
        assert p in ps;
      }
      if ps != [] {
        assert words[ps[0]] == ":";
      }
    }
    ps
  }

  lemma {:induction false} ColonsFromIncreasing(words: seq<string>, from: nat)
    ensures forall k, l :: 0 <= k < l < |ColonsFrom(words, from)| ==>
      ColonsFrom(words, from)[k] < ColonsFrom(words, from)[l]
    decreases |words| - from
  {
    if from < |words| {
      ColonsFromIncreasing(words, from + 1);
    }
  }

  /** `locate` lists every `:` word exactly once, in increasing order. */
  lemma ColonsSpec(words: seq<string>)
    ensures forall k, l :: 0 <= k < l < |Colons(words)| ==> Colons(words)[k] < Colons(words)[l]
    ensures forall p :: 0 <= p < |words| && words[p] == ":" ==> p in Colons(words)
  {
    ColonsFromIncreasing(words, 0);
  }

  /** `sentence[p - 1]`: the label of the colon at `p` (the last word when `p` is 0). */
  function Label(words: seq<string>, p: nat): string
    requires p < |words|
  {
    PyAt(words, p - 1)
  }

  /** `sentence[p + 1:p + 2]`: the mark after the colon at `p`, or nothing at the end. */
  function Mark(words: seq<string>, p: nat): (m: seq<string>)
    requires p < |words|
    ensures p + 1 < |words| ==> m == [words[p + 1]]
    ensures p + 1 == |words| ==> m == []
  {
    PySlice(words, p + 1, p + 2)
  }

  /** A list of strings as a Python value. */
  function StrList(ws: seq<string>): (v: Value)
    ensures v.List? && |v.items| == |ws|
    ensures forall i :: 0 <= i < |ws| ==> v.items[i] == Str(ws[i])
  {
    List(seq(|ws|, i requires 0 <= i < |ws| => Str(ws[i])))
  }

  predicate ColonsIn(words: seq<string>, ps: seq<nat>) {
    forall k :: 0 <= k < |ps| ==> ps[k] < |words|
  }

  /** `m` after `dict[sentence[p-1]] = sentence[p+1:p+2]` for each `p` of `ps` in turn. */
  function WithRatings(m: map<string, Value>, words: seq<string>, ps: seq<nat>): map<string, Value>
    requires ColonsIn(words, ps)
    decreases |ps|
  {
    if ps == [] then m
    else
      var p := ps[|ps| - 1];
      WithRatings(m, words, ps[..|ps| - 1])[Label(words, p) := StrList(Mark(words, p))]
  }

  /** `" ".join(ws).strip()` */
  function JoinWords(ws: seq<string>): string {
    Strip(Join(" ", ws))
  }

  /** The review text kept when there are ratings: the words before the first label. */
  function RatedReview(words: seq<string>): Value
    requires ":" in words
  {
    List([Str(JoinWords(PySlice(words, 0, Colons(words)[0] as int - 1)))])
  }

  /** The dict built for a word list that holds `:` words. */
  function RatedDict(words: seq<string>): map<string, Value>
    requires ":" in words
  {
    WithRatings(map["review" := RatedReview(words)], words, Colons(words))
  }

  /** The dict `add_to_list_of_review_dict` builds for one word list. */
  function ReviewDict(words: seq<string>): map<string, Value> {
    if ":" in words then RatedDict(words) else map["review" := Str(JoinWords(words))]
  }

  /** A rating whose label no later rating reuses keeps its mark: the last assignment wins. */
  lemma {:induction false} WithRatingsLookup(m: map<string, Value>, words: seq<string>, ps: seq<nat>, k: nat)
    requires ColonsIn(words, ps) && k < |ps|
    requires forall l :: k < l < |ps| ==> Label(words, ps[l]) != Label(words, ps[k])
    ensures Label(words, ps[k]) in WithRatings(m, words, ps)
    ensures WithRatings(m, words, ps)[Label(words, ps[k])] == StrList(Mark(words, ps[k]))
    decreases |ps|
  {
    if k < |ps| - 1 {
      var init := ps[..|ps| - 1];
      assert init[k] == ps[k];
      forall l | k < l < |init| ensures Label(words, init[l]) != Label(words, init[k]) {
        assert init[l] == ps[l];
      }
      WithRatingsLookup(m, words, init, k);
    }
  }

  /** A key that is no rating's label keeps its value. */
  lemma {:induction false} WithRatingsOther(m: map<string, Value>, words: seq<string>, ps: seq<nat>, key: string)
    requires ColonsIn(words, ps)
    requires forall l :: 0 <= l < |ps| ==> Label(words, ps[l]) != key
    ensures key in WithRatings(m, words, ps) <==> key in m
    ensures key in m ==> WithRatings(m, words, ps)[key] == m[key]
    decreases |ps|
  {
    if ps != [] {
      var init := ps[..|ps| - 1];
      forall l | 0 <= l < |init| ensures Label(words, init[l]) != key {
        assert init[l] == ps[l];
      }
      WithRatingsOther(m, words, init, key);
    }
  }

  /** Ratings only ever store lists, so a list-valued key stays list-valued. */
  lemma {:induction false} WithRatingsKeepsLists(m: map<string, Value>, words: seq<string>, ps: seq<nat>, key: string)
    requires ColonsIn(words, ps)
    requires key in m && m[key].List?
    ensures key in WithRatings(m, words, ps) && WithRatings(m, words, ps)[key].List?
    decreases |ps|
  {
    if ps != [] {
      WithRatingsKeepsLists(m, words, ps[..|ps| - 1], key);
    }
  }

  /** `locate` finds a single `:` word when there is just one. */
  lemma {:induction false} OnlyColon(words: seq<string>, p: nat, from: nat)
    requires from <= p < |words| && words[p] == ":"
    requires forall q :: from <= q < |words| && q != p ==> words[q] != ":"
    ensures ColonsFrom(words, from) == [p]
    decreases p - from
  {
    if from < p {
      OnlyColon(words, p, from + 1);
    } else {
      NoColonFrom(words, p + 1);
    }
  }

  lemma {:induction false} NoColonFrom(words: seq<string>, from: nat)
    requires forall q :: from <= q < |words| ==> words[q] != ":"
    ensures ColonsFrom(words, from) == []
    decreases |words| - from
  {
    if from < |words| {
      NoColonFrom(words, from + 1);
    }
  }

  /** The dict of a word list whose only `:` word is at `p`. */
  lemma SingleColon(words: seq<string>, p: nat)
    requires p < |words| && words[p] == ":"
    requires forall q :: 0 <= q < |words| && q != p ==> words[q] != ":"
    ensures ReviewDict(words) ==
      map["review" := List([Str(JoinWords(PySlice(words, 0, p as int - 1)))])][Label(words, p) := StrList(Mark(words, p))]
  {
    var ps := Colons(words);
    OnlyColon(words, p, 0);
    assert ps[..0] == [];
    assert ":" in words;
    var m := map["review" := RatedReview(words)];
    assert WithRatings(m, words, ps) == WithRatings(m, words, [])[Label(words, p) := StrList(Mark(words, p))];
  }

  /**
   * One rating after the review words: the label before the colon is not part of
   * the review, and the word after the colon is the mark.
   */
  lemma OneRating(review: seq<string>, aspect: string, mark: string)
    requires ":" !in review && aspect != ":" && mark != ":" && aspect != "review"
    ensures ReviewDict(review + [aspect, ":", mark]) ==
      map["review" := List([Str(JoinWords(review))]), aspect := StrList([mark])]
  {
    var words := review + [aspect, ":", mark];
    var p := |review| + 1;
    forall q | 0 <= q < |words| && q != p ensures words[q] != ":" {
      if q < |review| {
        assert words[q] == review[q];
      }
    }
    SingleColon(words, p);
    assert PySlice(words, 0, p as int - 1) == review;
    assert Label(words, p) == aspect;
    assert Mark(words, p) == [mark];
  }

  /**
   * A word list that starts with `:`: Python's `sentence[-1]` makes the last word
   * the label, and `sentence[:-1]` puts every other word, colon included, in the review.
   */
  lemma LeadingColon(rest: seq<string>)
    requires |rest| >= 2 && ":" !in rest && rest[|rest| - 1] != "review"
    ensures ReviewDict([":"] + rest) ==
      map["review" := List([Str(JoinWords(([":"] + rest)[..|rest|]))]),
          rest[|rest| - 1] := StrList([rest[0]])]
  {
    var words := [":"] + rest;
    forall q | 0 < q < |words| ensures words[q] != ":" {
      assert words[q] == rest[q - 1];
    }
    SingleColon(words, 0);
    assert PySlice(words, 0, -1) == words[..|rest|];
    assert Label(words, 0) == rest[|rest| - 1];
    assert Mark(words, 0) == [rest[0]];
  }

  /** The review of a word list with ratings is always a list, even if a label is "review". */
  lemma RatedReviewIsList(words: seq<string>)
    requires ":" in words
    ensures "review" in ReviewDict(words) && ReviewDict(words)["review"].List?
  {
    WithRatingsKeepsLists(map["review" := RatedReview(words)], words, Colons(words), "review");
  }

  /**
   * Without a `:` word the review is a plain string: the words joined by single
   * spaces, which split back into the same words.
   */
  lemma PlainReview(words: seq<string>)
    requires ":" !in words
    requires forall i :: 0 <= i < |words| ==> IsWord(words[i])
    ensures ReviewDict(words) == map["review" := Str(Join(" ", words))]
    ensures SplitWhitespace(ReviewDict(words)["review"].s) == words
  {
    JoinWordsTrimmed(words);
    TrimmedStrip(Join(" ", words));
    SplitJoinWords(words);
  }

  /** The body of the loop in `add_to_list_of_review_dict`: a new dict for one word list. */
  method NewReviewDict(words: seq<string>) returns (d: Dict)
    ensures fresh(d)
    ensures d.entries == ReviewDict(words)
  {
    d := new Dict(map[]);
    if ":" in words {
      var ind := Colons(words);
      d.Set("review", List([Str(JoinWords(PySlice(words, 0, ind[0] as int - 1)))]));
      var i := 0;
      while i < |ind|
        modifies d
        invariant i <= |ind|
        invariant d.entries == WithRatings(map["review" := RatedReview(words)], words, ind[..i])
      {
        assert ind[..i + 1][..i] == ind[..i];
        d.Set(Label(words, ind[i]), StrList(Mark(words, ind[i])));
        i := i + 1;
      }
      assert ind[..i] == ind;
    } else {
      d.Set("review", Str(JoinWords(words)));
    }
  }

  /**
   * `add_to_list_of_review_dict`: one new dict per word list, in the same order,
   * each holding the review and its ratings.
   */
  method AddToListOfReviewDict(sentences: seq<seq<string>>) returns (reviews: seq<Dict>)
    ensures |reviews| == |sentences|
    ensures forall i :: 0 <= i < |reviews| ==> fresh(reviews[i])
    ensures forall i, j :: 0 <= i < j < |reviews| ==> reviews[i] != reviews[j]
    ensures forall i :: 0 <= i < |reviews| ==> reviews[i].entries == ReviewDict(sentences[i])
  {
    reviews := [];
    for n := 0 to |sentences|
      invariant |reviews| == n
      invariant forall i :: 0 <= i < n ==> fresh(reviews[i])
      invariant forall i, j :: 0 <= i < j < n ==> reviews[i] != reviews[j]
      invariant forall i :: 0 <= i < n ==> reviews[i].entries == ReviewDict(sentences[i])
    {
      var d := NewReviewDict(sentences[n]);
      assert forall i :: 0 <= i < n ==> reviews[i] != d;
      ghost var built := reviews;
      reviews := reviews + [d];
      forall i | 0 <= i < n ensures reviews[i] == built[i] && reviews[i].entries == ReviewDict(sentences[i]) {
        assert reviews[i] == built[i];
      }
      forall i, j | 0 <= i < j < n + 1 ensures reviews[i] != reviews[j] {
        if j == n {
          assert built[i] != d;
        }
      }
    }
  }

  // ---------------------------------------------------------------------------
  // Zipping a column into the dicts

  /** No later position of `dicts` before `n` holds the same object as position `i`. */
  predicate LastBefore(dicts: seq<Dict>, i: int, n: int)
    requires 0 <= i < n <= |dicts|
  {
    forall j :: i < j < n ==> dicts[j] != dicts[i]
  }

  /**
   * `merge_list_int_list_of_dicts`: `zip` stops at the shorter list, the i-th dict
   * gets `key` set to the i-th item (a dict listed twice keeps its later item),
   * and the dicts are the ones passed in, changed in place.
   */
  method MergeListIntoDicts(items: seq<Value>, dicts: seq<Dict>, key: string) returns (merged: seq<Dict>)
    modifies Objects(dicts)
    ensures |merged| == if |dicts| < |items| then |dicts| else |items|
    ensures merged == dicts[..|merged|]
    ensures forall i :: 0 <= i < |merged| && LastBefore(dicts, i, |merged|) ==>
      dicts[i].entries == old(dicts[i].entries)[key := items[i]]
    ensures forall d :: d in Objects(dicts) && d !in merged ==> d.entries == old(d.entries)
  {
    var m := if |dicts| < |items| then |dicts| else |items|;
    merged := [];
    var n := 0;
    while n < m
      invariant n <= m && merged == dicts[..n]
      invariant forall i :: 0 <= i < n && LastBefore(dicts, i, n) ==>
        dicts[i].entries == old(dicts[i].entries)[key := items[i]]
      invariant forall i :: 0 <= i < n ==>
        key in dicts[i].entries && dicts[i].entries == old(dicts[i].entries)[key := dicts[i].entries[key]]
      invariant forall d :: d in Objects(dicts) && d !in dicts[..n] ==> d.entries == old(d.entries)
    {
      var d := dicts[n];
      d.Set(key, items[n]);
      merged := merged + [d];
      n := n + 1;
      assert merged == dicts[..n];
    }
  }

  // ---------------------------------------------------------------------------
  // Translated and original text

  /**
   * The words of the markers Google puts around machine-translated reviews.
   * `re.findall` reads each marker as a pattern whose parentheses form a group,
   * so the presence tests look for these bare words.
   */
  const TranslatedWords := "Traducido por Google"
  const TranslatedEnWords := "Translated by Google"

  /** The markers themselves, as `replace` and `partition` see them. */
  const Translated := "(Traducido por Google)"
  const Original := "(Original)"
  const TranslatedEn := "(Translated by Google)"

  /** The Spanish marker brackets its words, which open differently from "(Original)". */
  lemma SpanishMarker()
    ensures Translated == "(" + TranslatedWords + ")" && '(' !in TranslatedWords
    ensures Original[0] == '(' && Original[1] == 'O' && TranslatedWords[0] == 'T'
  {
  }

  /** The Spanish marker words hold no bracket and no outer space. */
  lemma SpanishWordsPlain()
    ensures '(' !in TranslatedWords && ')' !in TranslatedWords
    ensures TranslatedWords[0] == 'T' && TranslatedWords[|TranslatedWords| - 1] == 'e'
  {
  }

  /** The English marker brackets its words. */
  lemma EnglishMarker()
    ensures TranslatedEn == "(" + TranslatedEnWords + ")"
  {
  }

  /** `text.rstrip('Más')` as written: it drops any trailing run of the letters M, á and s. */
  function StripMasAsWritten(s: string): (r: string)
    ensures |r| <= |s| && r == s[..|r|]
  {
    TrimRightChars(s, {'M', 'á', 's'})
  }

  /** A review that ends in "Gracias" loses its final letter. */
  lemma StripMasEatsLetters()
    ensures StripMasAsWritten("Muchas gracias") == "Muchas gracia"
  {
    var s := "Muchas gracias";
    assert s[..|s| - 1] == "Muchas gracia";
    assert StripMasAsWritten(s) == StripMasAsWritten("Muchas gracia");
  }

  /** Removing the trailing "Más" link label, which is what the call is there for. */
  function StripMas(s: string): (r: string)
    ensures |s| >= 3 && s[|s| - 3..] == "Más" ==> s == r + "Más"
    ensures !(|s| >= 3 && s[|s| - 3..] == "Más") ==> r == s
  {
    if |s| >= 3 && s[|s| - 3..] == "Más" then s[..|s| - 3] else s
  }

  /** A text whose label was truncated by the page keeps every letter of its own. */
  lemma StripMasRoundTrip(t: string)
    ensures StripMas(t + "Más") == t
  {
    assert (t + "Más")[|t|..] == "Más";
  }

  /** `text.lower().find(text[:30].lower(), 1)`: where the opening 30 characters recur. */
  function RepetitionIndex(s: string): (k: int)
    ensures k == -1 || 1 <= k < |s|
  {
    var sep := s[..if |s| < 30 then |s| else 30];
    var k := Find(Lower(s), Lower(sep), 1);
    assert k != -1 ==> k + |sep| <= |s|;
    k
  }

  /** `if repetition_index != 0: text = text[:repetition_index]`, as written. */
  function CutRepetitionAsWritten(s: string): (r: string)
    ensures |r| <= |s| && r == s[..|r|]
    ensures RepetitionIndex(s) != -1 ==> r == CutRepetition(s)
    ensures RepetitionIndex(s) == -1 && s != "" ==> |r| == |s| - 1
  {
    var k := RepetitionIndex(s);
    if k != 0 then PySlice(s, 0, k) else s
  }

  /**
   * `find` never answers 0 here, and its "not found" answer -1 becomes the slice
   * `text[:-1]`: every review of at most 30 characters loses its last character.
   */
  lemma CutDropsLastChar(s: string)
    requires 1 <= |s| <= 30
    ensures CutRepetitionAsWritten(s) == s[..|s| - 1]
  {
  }

  /** The evident intent: cut only when the opening recurs. */
  function CutRepetition(s: string): (r: string)
    ensures |r| <= |s| && r == s[..|r|]
  {
    var k := RepetitionIndex(s);
    if k != -1 then s[..k] else s
  }

  /**
   * The cut keeps the text up to the first recurrence of its opening (compared in
   * lower case), and the whole text when there is none.
   */
  lemma CutRepetitionSpec(s: string)
    ensures var sep := Lower(s[..if |s| < 30 then |s| else 30]);
      var r := CutRepetition(s);
      (r == s <==> RepetitionIndex(s) == -1)
      && (r != s ==> 1 <= |r| && ContainsAt(Lower(s), sep, |r|))
      && (forall i :: 1 <= i < |r| ==> !ContainsAt(Lower(s), sep, i))
  {
  }

  /** A text of at most 30 characters cannot hold its own opening twice, so it is kept. */
  lemma ShortTextKept(s: string)
    requires |s| <= 30
    ensures CutRepetition(s) == s
  {
  }

  /** The two outputs of the splitter: text in the target language, and the original. */
  datatype Split = Split(target: string, original: string)

  /** The marker handling of `split_translated_original`, on the cleaned text. */
  function SplitMarkers(text: string): (r: Split)
    ensures Contains(text, TranslatedWords) || Contains(text, TranslatedEnWords) ==>
      Trimmed(r.target) && Trimmed(r.original)
    ensures !Contains(text, TranslatedWords) && !Contains(text, TranslatedEnWords) ==> r == Split(text, "")
  {
    if Contains(text, TranslatedWords) then
      var parts := Partition(text, Original);
      var target := ReplaceAll(parts.before, Translated, "");
      var original := Partition(ReplaceAll(parts.after, Original, ""), Translated).before;
      StripSpec(target);
      StripSpec(original);
      Split(Strip(target), Strip(original))
    else if Contains(text, TranslatedEnWords) then
      var parts := Partition(text, TranslatedEn);
      var other := Strip(ReplaceAll(parts.before, TranslatedEn, ""));
      var rest := Strip(Partition(ReplaceAll(parts.after, TranslatedEn, ""), TranslatedEn).before);
      StripSpec(ReplaceAll(parts.before, TranslatedEn, ""));
      StripSpec(ReplaceAll(rest, other, ""));
      Split(Strip(ReplaceAll(rest, other, "")), other)
    else Split(text, "")
  }

  /** `rstrip('Más')` and the repetition cut, as written, on a non-empty string. */
  function CleanedAsWritten(s: string): string {
    CutRepetitionAsWritten(StripMasAsWritten(s))
  }

  /** The same two steps as evidently intended: drop a "Más" label, cut a real repetition. */
  function CleanedIntended(s: string): (r: string)
    ensures |r| <= |s| && r == s[..|r|]
  {
    CutRepetition(StripMas(s))
  }

  /**
   * `split_translated_original`: no text, or a text that is not a string, gives two
   * empty strings; any language but "ES" raises NotImplementedError; otherwise the
   * text is cleaned as written and its markers are read.
   */
  function SplitTranslatedOriginal(text: Value, language: string): (r: Result<Split>)
    ensures r.Err? <==> text.Str? && text.s != "" && language != "ES"
    ensures r.Err? ==> r.error == NotImplementedError
    ensures !Truthy(text) || !text.Str? ==> r == Ok(Split("", ""))
  {
    if !Truthy(text) || !text.Str? then Ok(Split("", ""))
    else if language != "ES" then Err(NotImplementedError)
    else Ok(SplitMarkers(CleanedAsWritten(text.s)))
  }

  /** The splitter with the intended cleaning, the corrected half of the two findings on it. */
  function IntendedSplit(text: Value, language: string): (r: Result<Split>)
    ensures r.Err? <==> text.Str? && text.s != "" && language != "ES"
    ensures r.Err? ==> r.error == NotImplementedError
    ensures !Truthy(text) || !text.Str? ==> r == Ok(Split("", ""))
  {
    if !Truthy(text) || !text.Str? then Ok(Split("", ""))
    else if language != "ES" then Err(NotImplementedError)
    else Ok(SplitMarkers(CleanedIntended(text.s)))
  }

  /**
   * On a text that does not end in M, á or s, the two cleanings agree when the
   * opening recurs; otherwise the written one loses the last character and the
   * intended one keeps the whole text.
   */
  lemma CleaningsCompared(s: string)
    requires s != "" && s[|s| - 1] !in {'M', 'á', 's'}
    ensures RepetitionIndex(s) != -1 ==> CleanedAsWritten(s) == CleanedIntended(s)
    ensures RepetitionIndex(s) == -1 ==> CleanedAsWritten(s) == s[..|s| - 1] && CleanedIntended(s) == s
  {
    assert StripMasAsWritten(s) == s;
    assert |s| >= 3 ==> s[|s| - 3..][2] == s[|s| - 1];
    assert StripMas(s) == s;
  }

  /** A text free of `(` is left alone by every marker. */
  lemma NoMarkers(s: string)
    requires '(' !in s
    ensures ReplaceAll(s, Translated, "") == s && ReplaceAll(s, Original, "") == s
    ensures ReplaceAll(s, TranslatedEn, "") == s
    ensures Partition(s, Translated) == Parts(s, "", "") && Partition(s, TranslatedEn) == Parts(s, "", "")
  {
    AbsentChar(s, Translated, '(');
    AbsentChar(s, Original, '(');
    AbsentChar(s, TranslatedEn, '(');
    ReplaceAbsent(s, Translated, "");
    ReplaceAbsent(s, Original, "");
    ReplaceAbsent(s, TranslatedEn, "");
  }

  /** The Spanish layout holds the Spanish marker words, and its first "(Original)" follows the translation. */
  lemma SpanishLayout(t: string, o: string)
    requires '(' !in t
    ensures var text := Translated + " " + t + " " + Original + " " + o;
      Contains(text, TranslatedWords)
      && Partition(text, Original) == Parts(Translated + (" " + t + " "), Original, " " + o)
  {
    var rest := " " + t + " ";
    var b := " " + o;
    Spaced(Translated, t, Original, o);
    SpanishMarker();
    BracketedLayout(TranslatedWords, rest, Original, b);
  }

  /**
   * The Spanish layout, "(Traducido por Google) <translation> (Original) <original>",
   * splits back into its two texts.
   */
  lemma SpanishSplit(t: string, o: string)
    requires Trimmed(t) && Trimmed(o) && '(' !in t && '(' !in o
    ensures SplitMarkers(Translated + " " + t + " " + Original + " " + o) == Split(t, o)
  {
    var rest := " " + t + " ";
    var b := " " + o;
    SpanishLayout(t, o);
    SpanishMarker();
    DropLeadingMarker(Translated, rest);
    StripPadded(t);
    NoMarkers(b);
    StripPadded(o);
  }

  /** The English marker words do not hold the Spanish ones. */
  lemma MarkerWordsDiffer()
    ensures !Contains(TranslatedEnWords, TranslatedWords)
  {
    forall i ensures !ContainsAt(TranslatedEnWords, TranslatedWords, i) {
      if i == 0 {
        NotContainsAtChar(TranslatedEnWords, TranslatedWords, 0, 3);
      }
    }
    ContainsIff(TranslatedEnWords, TranslatedWords);
  }

  /**
   * The English layout holds the English marker words and not the Spanish ones, and
   * its first "(Translated by Google)" follows the original.
   */
  lemma EnglishLayout(t: string, o: string)
    requires '(' !in o && !Contains(o, TranslatedWords) && !Contains(t, TranslatedWords)
    ensures var text := o + " " + TranslatedEn + " " + t;
      !Contains(text, TranslatedWords) && Contains(text, TranslatedEnWords)
      && Partition(text, TranslatedEn) == Parts(o + " ", TranslatedEn, " " + t)
  {
    EnglishMarker();
    SpanishWordsPlain();
    MarkerWordsDiffer();
    BracketsBar(o, TranslatedEnWords, t, TranslatedWords);
    BracketedAfter(o, TranslatedEnWords, t);
  }

  /**
   * The English layout, "<original> (Translated by Google) <translation>", splits back
   * into its two texts when the translation does not repeat the original, which the
   * splitter removes from it.
   */
  lemma EnglishSplit(t: string, o: string)
    requires Trimmed(t) && Trimmed(o) && '(' !in t && '(' !in o
    requires !Contains(t, TranslatedWords) && !Contains(o, TranslatedWords)
    requires o == "" || !Contains(t, o)
    ensures SplitMarkers(o + " " + TranslatedEn + " " + t) == Split(t, o)
  {
    EnglishLayout(t, o);
    NoMarkers(o + " ");
    StripPadded(o);
    NoMarkers(" " + t);
    StripPadded(t);
    if o != "" {
      ReplaceAbsent(t, o, "");
    }
    TrimmedStrip(t);
  }

  /** A prefix of a text that lacks `p` lacks it too. */
  lemma PrefixLacks(s: string, k: nat, p: string)
    requires k <= |s| && !Contains(s, p)
    ensures !Contains(s[..k], p)
  {
    forall i ensures !ContainsAt(s[..k], p, i) {
      if ContainsAt(s[..k], p, i) {
        assert s[..k][i..i + |p|] == s[i..i + |p|];
        NotContainsAt(s, p, i);
      }
    }
    ContainsIff(s[..k], p);
  }

  /**
   * As written, a short Spanish review without markers that does not end in M, á or
   * s comes back without its last character, and with an empty original.
   */
  lemma ShortReviewLosesLastChar(s: string)
    requires s != "" && |s| <= 30 && s[|s| - 1] !in {'M', 'á', 's'}
    requires !Contains(s, TranslatedWords) && !Contains(s, TranslatedEnWords)
    ensures SplitTranslatedOriginal(Str(s), "ES") == Ok(Split(s[..|s| - 1], ""))
  {
    assert StripMasAsWritten(s) == s;
    CutDropsLastChar(s);
    PrefixLacks(s, |s| - 1, TranslatedWords);
    PrefixLacks(s, |s| - 1, TranslatedEnWords);
  }

  /**
   * With the intended cleaning, a short Spanish review without markers and without a
   * "Más" label comes back whole, with an empty original.
   */
  lemma PlainShortReview(s: string)
    requires s != "" && |s| <= 30 && !(|s| >= 3 && s[|s| - 3..] == "Más")
    requires !Contains(s, TranslatedWords) && !Contains(s, TranslatedEnWords)
    ensures IntendedSplit(Str(s), "ES") == Ok(Split(s, ""))
  {
    ShortTextKept(s);
  }

  /** The keys `add_transalated_original_to_dict` writes. */
  const TargetKey := "review_target_language"
  const OriginalKey := "review_original"
  const LanguageKey := "language"

  /** One dict after `add_transalated_original_to_dict` has visited it, or the exception. */
  function Annotated(m: map<string, Value>, language: string): (r: Result<map<string, Value>>)
    ensures "review" !in m ==> r == Err(KeyError("review"))
    ensures "review" in m ==> (r.Err? <==> SplitTranslatedOriginal(m["review"], language).Err?)
    ensures "review" in m && r.Err? ==> r.error == SplitTranslatedOriginal(m["review"], language).error
    ensures r.Ok? ==> r.value.Keys == m.Keys + {TargetKey, OriginalKey, LanguageKey}
    ensures r.Ok? ==>
      var parts := SplitTranslatedOriginal(m["review"], language).value;
      r.value[TargetKey] == Str(parts.target) && r.value[OriginalKey] == Str(parts.original)
      && r.value[LanguageKey] == Str(language)
    ensures r.Ok? ==> forall k :: k in m && k !in {TargetKey, OriginalKey, LanguageKey} ==> r.value[k] == m[k]
  {
    if "review" !in m then Err(KeyError("review"))
    else
      match SplitTranslatedOriginal(m["review"], language)
      case Err(e) => Err(e)
      case Ok(parts) =>
        Ok(m[TargetKey := Str(parts.target)][OriginalKey := Str(parts.original)][LanguageKey := Str(language)])
  }

  /** Visiting a dict a second time changes nothing, since its review is untouched. */
  lemma AnnotatedIdempotent(m: map<string, Value>, language: string)
    requires Annotated(m, language).Ok?
    ensures Annotated(Annotated(m, language).value, language) == Annotated(m, language)
  {
    var a := Annotated(m, language).value;
    var parts := SplitTranslatedOriginal(m["review"], language).value;
    assert a["review"] == m["review"];
    assert a[TargetKey := Str(parts.target)][OriginalKey := Str(parts.original)][LanguageKey := Str(language)] == a;
  }

  /** A review with ratings is a list, so it is not split, whatever the language. */
  lemma RatedReviewNotSplit(words: seq<string>, language: string)
    requires ":" in words
    ensures Annotated(ReviewDict(words), language).Ok?
    ensures var a := Annotated(ReviewDict(words), language).value;
      a[TargetKey] == Str("") && a[OriginalKey] == Str("")
  {
    RatedReviewIsList(words);
    UnsplitReview(ReviewDict(words), language);
  }

  /** A review that is not a non-empty string yields two empty halves. */
  lemma UnsplitReview(m: map<string, Value>, language: string)
    requires "review" in m && m["review"].List?
    ensures Annotated(m, language) ==
      Ok(m[TargetKey := Str("")][OriginalKey := Str("")][LanguageKey := Str(language)])
  {
  }

  /**
   * The body of the loop in `add_transalated_original_to_dict`: the dict gets the
   * two halves of its review and the language, unless reading or splitting the
   * review raises, in which case it is left as it was.
   */
  method AnnotateDict(d: Dict, language: string) returns (failure: Option<Error>)
    modifies d
    ensures var r := Annotated(old(d.entries), language);
      (r.Ok? ==> failure == None && d.entries == r.value)
      && (r.Err? ==> failure == Some(r.error) && d.entries == old(d.entries))
  {
    if "review" !in d.entries {
      return Some(KeyError("review"));
    }
    var parts := SplitTranslatedOriginal(d.entries["review"], language);
    if parts.Err? {
      return Some(parts.error);
    }
    d.Set(TargetKey, Str(parts.value.target));
    d.Set(OriginalKey, Str(parts.value.original));
    d.Set(LanguageKey, Str(language));
    failure := None;
  }

  /**
   * `add_transalated_original_to_dict`: every dict gets the two halves of its review
   * and the language, and the same list comes back. If a dict raises, the dicts
   * before it have been updated and the rest are untouched.
   */
  method AddTranslatedOriginalToDict(dicts: seq<Dict>, language: string) returns (r: Result<seq<Dict>>)
    modifies Objects(dicts)
    ensures r.Ok? <==> forall i :: 0 <= i < |dicts| ==> Annotated(old(dicts[i].entries), language).Ok?
    ensures r.Ok? ==> r.value == dicts
    ensures r.Ok? ==> forall i :: 0 <= i < |dicts| ==>
      dicts[i].entries == Annotated(old(dicts[i].entries), language).value
    ensures r.Err? ==> (
      exists k ::
        0 <= k < |dicts| && FailsAt(old(Entries(dicts)), language, k)
        && r.error == Annotated(old(dicts[k].entries), language).error
        && (forall i :: 0 <= i < k ==> dicts[i].entries == Annotated(old(dicts[i].entries), language).value)
        && (forall d :: d in Objects(dicts) && d !in dicts[..k] ==> d.entries == old(d.entries)))
  {
    var n := 0;
    while n < |dicts|
      invariant n <= |dicts|
      invariant forall i :: 0 <= i < n ==>
        Annotated(old(dicts[i].entries), language).Ok? && dicts[i].entries == Annotated(old(dicts[i].entries), language).value
      invariant forall d :: d in Objects(dicts) && d !in dicts[..n] ==> d.entries == old(d.entries)
    {
      var d := dicts[n];
      assert Annotated(d.entries, language) == Annotated(old(d.entries), language) by {
        if d in dicts[..n] {
          AnnotatedIdempotent(old(d.entries), language);
        }
      }
      var failure := AnnotateDict(d, language);
      if failure.Some? {
        r := Err(failure.value);
        assert FailsAt(old(Entries(dicts)), language, n);
        return;
      }
      forall i | 0 <= i <= n
        ensures Annotated(old(dicts[i].entries), language).Ok?
        ensures dicts[i].entries == Annotated(old(dicts[i].entries), language).value
      {
        if dicts[i] == d {
          assert old(dicts[i].entries) == old(d.entries);
        }
      }
      n := n + 1;
    }
    r := Ok(dicts);
  }

  /** Position `k` is the first whose dict raises. */
  predicate FailsAt(ms: seq<map<string, Value>>, language: string, k: int) {
    0 <= k < |ms| && Annotated(ms[k], language).Err?
    && forall i :: 0 <= i < k ==> Annotated(ms[i], language).Ok?
  }
}
