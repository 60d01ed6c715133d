/**
 * Python `str` operations used by the crawler, on `string` (= `seq<char>`).
 * Each function follows the CPython method it is named after on the characters
 * it is documented for (case folding, digits and `int()` are narrower than
 * CPython's); the lemmas state the facts the rest of the model relies on.
 */
module Text {

  /** `str.isspace()` for a single character (the full CPython whitespace set). */
  predicate IsSpace(c: char) {
    var n := c as int;
    n == 32 || 9 <= n <= 13 || 0x1c <= n <= 0x1f || n == 0x85 || n == 0xa0 || n == 0x1680
    || 0x2000 <= n <= 0x200a || n == 0x2028 || n == 0x2029 || n == 0x202f || n == 0x205f
    || n == 0x3000
  }

  predicate IsAsciiDigit(c: char) { '0' <= c <= '9' }

  /** The regular-expression class `\w`, restricted to ASCII. */
  predicate IsWordChar(c: char) {
    'a' <= c <= 'z' || 'A' <= c <= 'Z' || '0' <= c <= '9' || c == '_'
  }

  // ---------------------------------------------------------------------------
  // Substring search

  /** `p` occurs in `s` starting at index `i`. */
  predicate ContainsAt(s: string, p: string, i: int) {
    0 <= i && i + |p| <= |s| && s[i..i + |p|] == p
  }

  /** `s.find(p, start)`: the first index at or after `start` where `p` occurs, or -1. */
  function Find(s: string, p: string, start: nat): (r: int)
    decreases |s| - start
    ensures r == -1 || (start <= r && ContainsAt(s, p, r))
    ensures r == -1 ==> forall i :: start <= i ==> !ContainsAt(s, p, i)
    ensures r != -1 ==> forall i :: start <= i < r ==> !ContainsAt(s, p, i)
  {
    if start + |p| > |s| then -1
    else if s[start..start + |p|] == p then start
    else Find(s, p, start + 1)
  }

  /** `p in s` for strings. */
  predicate Contains(s: string, p: string) {
    Find(s, p, 0) >= 0
  }

  lemma ContainsIff(s: string, p: string)
    ensures Contains(s, p) <==> exists i :: ContainsAt(s, p, i)
  {
    if Contains(s, p) {
      assert ContainsAt(s, p, Find(s, p, 0));
    }
  }

  lemma ContainsWitness(s: string, p: string, i: int)
    requires ContainsAt(s, p, i)
    ensures Contains(s, p)
  {
    ContainsIff(s, p);
  }

  lemma NotContainsAt(s: string, p: string, i: int)
    requires !Contains(s, p)
    ensures !ContainsAt(s, p, i)
  {
    ContainsIff(s, p);
  }

  /** Every occurrence of `p` in `a + b` lies in `a`, lies in `b`, or covers the seam. */
  lemma {:induction false} ContainsAtConcat(a: string, b: string, p: string, i: int)
    requires ContainsAt(a + b, p, i)
    ensures ContainsAt(a, p, i) || ContainsAt(b, p, i - |a|) || (i < |a| < i + |p|)
  {
    if i + |p| <= |a| {
      assert (a + b)[i..i + |p|] == a[i..i + |p|];
    } else if i >= |a| {
      assert (a + b)[i..i + |p|] == b[i - |a|..i - |a| + |p|];
    }
  }

  /** An occurrence of `p` covering index `k` puts `s[k]` among the characters of `p`. */
  lemma CoveredCharInPattern(s: string, p: string, i: int, k: int)
    requires ContainsAt(s, p, i) && i <= k < i + |p|
    ensures s[k] in p
  {
    assert s[k] == s[i..i + |p|][k - i];
  }

  /** A character that `p` lacks is a barrier: `p` cannot occur across it. */
  lemma {:induction false} BarrierSplit(a: string, c: char, b: string, p: string)
    requires c !in p
    requires !Contains(a, p) && !Contains(b, p)
    ensures !Contains(a + [c] + b, p)
  {
    ContainsIff(a + [c] + b, p);
    if exists i :: ContainsAt(a + [c] + b, p, i) {
      var i :| ContainsAt(a + [c] + b, p, i);
      assert a + [c] + b == a + ([c] + b);
      ContainsAtConcat(a, [c] + b, p, i);
      if ContainsAt(a, p, i) {
        NotContainsAt(a, p, i);
      } else if i <= |a| < i + |p| {
        CoveredCharInPattern(a + [c] + b, p, i, |a|);
      } else {
        assert ContainsAt([c] + b, p, i - |a|);
        ContainsAtConcat([c], b, p, i - |a|);
        if ContainsAt(b, p, i - |a| - 1) {
          NotContainsAt(b, p, i - |a| - 1);
        } else {
          CoveredCharInPattern(a + [c] + b, p, i, |a|);
        }
      }
    }
  }

  lemma ShortNeverContains(s: string, p: string)
    requires |s| < |p|
    ensures !Contains(s, p)
  {
  }

  // ---------------------------------------------------------------------------
  // partition, replace

  datatype Parts = Parts(before: string, sep: string, after: string)

  /** `s.partition(sep)`: split at the first occurrence of `sep`. */
  function Partition(s: string, sep: string): (r: Parts)
    requires sep != ""
    ensures r.before + r.sep + r.after == s
    ensures r.sep == "" <==> !Contains(s, sep)
    ensures r.sep == "" ==> r.before == s && r.after == ""
    ensures r.sep != "" ==> r.sep == sep && ContainsAt(s, sep, |r.before|)
    ensures forall i :: 0 <= i < |r.before| ==> !ContainsAt(s, sep, i)
  {
    var k := Find(s, sep, 0);
    if k < 0 then Parts(s, "", "")
    else
      assert s == s[..k] + sep + s[k + |sep|..];
      Parts(s[..k], sep, s[k + |sep|..])
  }

  /** `repl` before every character of `s` and once more at the end (replace with an empty pattern). */
  function Interleave(s: string, repl: string): (r: string)
    ensures repl == "" ==> r == s
  {
    if s == "" then repl else repl + [s[0]] + Interleave(s[1..], repl)
  }

  /** `s.replace(pat, repl)`: every non-overlapping occurrence, scanning from the left. */
  function ReplaceAll(s: string, pat: string, repl: string): (r: string)
    decreases |s|
  {
    if pat == "" then Interleave(s, repl)
    else if |s| < |pat| then s
    else if s[..|pat|] == pat then repl + ReplaceAll(s[|pat|..], pat, repl)
    else [s[0]] + ReplaceAll(s[1..], pat, repl)
  }

  lemma {:induction false} ContainsShift(s: string, p: string)
    requires s != "" && !Contains(s, p)
    ensures !Contains(s[1..], p)
  {
    ContainsIff(s, p);
    ContainsIff(s[1..], p);
    if exists i :: ContainsAt(s[1..], p, i) {
      var i :| ContainsAt(s[1..], p, i);
      assert s[i + 1..i + 1 + |p|] == s[1..][i..i + |p|];
      assert ContainsAt(s, p, i + 1);
    }
  }

  /** Replacing a pattern that does not occur changes nothing. */
  lemma {:induction false} ReplaceAbsent(s: string, pat: string, repl: string)
    requires pat != "" && !Contains(s, pat)
    ensures ReplaceAll(s, pat, repl) == s
  {
    if |s| >= |pat| {
      assert !ContainsAt(s, pat, 0) by { NotContainsAt(s, pat, 0); }
      ContainsShift(s, pat);
      ReplaceAbsent(s[1..], pat, repl);
      assert [s[0]] + s[1..] == s;
    }
  }

  /** Replacing one character by a text without it removes every copy of that character. */
  lemma {:induction false} ReplaceCharRemoves(s: string, c: char, repl: string)
    requires c !in repl
    ensures c !in ReplaceAll(s, [c], repl)
  {
    if |s| >= 1 {
      ReplaceCharRemoves(s[1..], c, repl);
      if s[..1] != [c] {
        assert s[0] != c;
      }
    }
  }

  /** Replacing one character keeps every other character that was there. */
  lemma {:induction false} ReplaceCharKeeps(s: string, c: char, repl: string, d: char)
    requires d != c && d in s
    ensures d in ReplaceAll(s, [c], repl)
  {
    if s[0] == d {
      assert s[..1] != [c];
    } else {
      ReplaceCharKeeps(s[1..], c, repl, d);
      if s[..1] == [c] {
        assert s[1..] == s[|[c]|..];
      }
    }
  }

  /** `replace` brings in no character that is in neither the text nor the replacement. */
  lemma {:induction false} ReplaceNoNew(s: string, pat: string, repl: string, d: char)
    requires pat != "" && d !in s && d !in repl
    ensures d !in ReplaceAll(s, pat, repl)
    decreases |s|
  {
    if |s| >= |pat| {
      if s[..|pat|] == pat {
        ReplaceNoNew(s[|pat|..], pat, repl, d);
      } else {
        ReplaceNoNew(s[1..], pat, repl, d);
      }
    }
  }

  /**
   * Removing a pattern that ends the text, after a part that neither holds it nor
   * ends in one of its characters, leaves that part.
   */
  lemma {:induction false} ReplaceBeforeTrailing(a: string, pat: string)
    requires pat != "" && !Contains(a, pat) && (a == "" || a[|a| - 1] !in pat)
    ensures ReplaceAll(a + pat, pat, "") == a
    decreases |a|
  {
    var s := a + pat;
    if a == "" {
      assert s == pat && s[|pat|..] == "";
    } else {
      NoPatternAtStart(a, pat);
      ReplaceKeepsFirst(s, pat, "");
      ContainsShift(a, pat);
      ReplaceBeforeTrailing(a[1..], pat);
      assert s[1..] == a[1..] + pat;
      assert [a[0]] + a[1..] == a;
    }
  }

  /** `a + pat` does not start with `pat` when `a` lacks it and ends outside it. */
  lemma NoPatternAtStart(a: string, pat: string)
    requires a != "" && pat != "" && !Contains(a, pat) && a[|a| - 1] !in pat
    ensures (a + pat)[..|pat|] != pat
  {
    if |a| >= |pat| {
      assert (a + pat)[..|pat|] == a[..|pat|];
      NotContainsAt(a, pat, 0);
    } else {
      NotContainsAtChar(a + pat, pat, 0, |a| - 1);
    }
  }

  /** Where the pattern does not start, replacing keeps the first character. */
  lemma ReplaceKeepsFirst(s: string, pat: string, repl: string)
    requires pat != "" && |s| >= |pat| && s[..|pat|] != pat
    ensures ReplaceAll(s, pat, repl) == [s[0]] + ReplaceAll(s[1..], pat, repl)
  {
  }

  /** An occurrence of `p` at `i` starts with the first character of `p`, and goes on with its second. */
  lemma NotContainsAtChar(s: string, p: string, i: int, j: nat)
    requires j < |p| && 0 <= i && i + j < |s| && s[i + j] != p[j]
    ensures !ContainsAt(s, p, i)
  {
    if i + |p| <= |s| {
      assert s[i..i + |p|][j] == s[i + j];
    }
  }

  /** A pattern holding a character that `s` lacks does not occur in `s`. */
  lemma AbsentChar(s: string, p: string, c: char)
    requires c in p && c !in s
    ensures !Contains(s, p)
  {
    var j :| 0 <= j < |p| && p[j] == c;
    forall i ensures !ContainsAt(s, p, i) {
      if 0 <= i && i + j < |s| {
        NotContainsAtChar(s, p, i, j);
      }
    }
    ContainsIff(s, p);
  }

  /** Appending a character that cannot end `p` creates no occurrence of `p`. */
  lemma AppendChar(s: string, c: char, p: string)
    requires p != "" && p[|p| - 1] != c && !Contains(s, p)
    ensures !Contains(s + [c], p)
  {
    forall i ensures !ContainsAt(s + [c], p, i) {
      if 0 <= i && i + |p| <= |s| {
        assert (s + [c])[i..i + |p|] == s[i..i + |p|];
        NotContainsAt(s, p, i);
      } else if 0 <= i && i + |p| == |s| + 1 {
        NotContainsAtChar(s + [c], p, i, |p| - 1);
      }
    }
    ContainsIff(s + [c], p);
  }

  /** Prepending a character that cannot start `p` creates no occurrence of `p`. */
  lemma PrependChar(c: char, s: string, p: string)
    requires p != "" && p[0] != c && !Contains(s, p)
    ensures !Contains([c] + s, p)
  {
    forall i ensures !ContainsAt([c] + s, p, i) {
      if i == 0 {
        NotContainsAtChar([c] + s, p, 0, 0);
      } else if 1 <= i && i + |p| <= |s| + 1 {
        assert ([c] + s)[i..i + |p|] == s[i - 1..i - 1 + |p|];
        NotContainsAt(s, p, i - 1);
      }
    }
    ContainsIff([c] + s, p);
  }

  /** `a + " " + t + " " + m + " " + o`, grouped around its padded pieces. */
  lemma Spaced(a: string, t: string, m: string, o: string)
    ensures a + " " + t + " " + m + " " + o == a + (" " + t + " ") + m + (" " + o)
  {
  }

  /** A text holds every string it is built around. */
  lemma ContainsInside(pre: string, w: string, post: string)
    ensures Contains(pre + w + post, w)
  {
    var s := pre + w + post;
    assert s[|pre|..|pre| + |w|] == w;
    ContainsWitness(s, w, |pre|);
  }

  /**
   * A text that opens with the bracketed words `(w)` holds `w`, and its first `sep`,
   * another bracketed marker, is the one after `rest`.
   */
  lemma BracketedLayout(w: string, rest: string, sep: string, post: string)
    requires w != "" && '(' !in w && '(' !in rest
    requires 2 <= |sep| && sep[0] == '(' && sep[1] != w[0]
    ensures var m := "(" + w + ")";
      Contains(m + rest + sep + post, w)
      && Partition(m + rest + sep + post, sep) == Parts(m + rest, sep, post)
  {
    var m := "(" + w + ")";
    assert Contains(m + rest + sep + post, w) by {
      assert m + rest + sep + post == "(" + w + (")" + rest + sep + post);
      ContainsInside("(", w, ")" + rest + sep + post);
    }
    assert m[1..] == w + ")";
    PartitionAfterMarker(m, rest, sep, post);
  }

  /** A partition at the first occurrence of a separator whose first character `pre` lacks. */
  lemma PartitionAfter(pre: string, sep: string, post: string)
    requires sep != "" && sep[0] !in pre
    ensures Partition(pre + sep + post, sep) == Parts(pre, sep, post)
  {
    var s := pre + sep + post;
    assert s[|pre|..|pre| + |sep|] == sep;
    forall i | 0 <= i < |pre| ensures !ContainsAt(s, sep, i) {
      assert s[i] == pre[i];
    }
    PartitionAt(s, sep, |pre|);
    assert s[..|pre|] == pre;
    assert s[|pre| + |sep|..] == post;
  }

  /**
   * A text `pre (w) post` whose `pre` lacks `(` holds `w`, and its first `(w)` is
   * the one after `pre`.
   */
  lemma BracketedAfter(pre: string, w: string, post: string)
    requires '(' !in pre
    ensures var m := "(" + w + ")";
      Contains(pre + " " + m + " " + post, w)
      && Partition(pre + " " + m + " " + post, m) == Parts(pre + " ", m, " " + post)
  {
    var m := "(" + w + ")";
    var s := pre + " " + m + " " + post;
    assert Contains(s, w) by {
      assert s == (pre + " " + "(") + w + (")" + " " + post);
      ContainsInside(pre + " " + "(", w, ")" + " " + post);
    }
    assert s == (pre + " ") + m + (" " + post);
    PartitionAfter(pre + " ", m, " " + post);
  }

  /**
   * A pattern free of brackets and of outer spaces occurs in `pre (w) post` only
   * where it occurs in one of the three pieces.
   */
  lemma BracketsBar(pre: string, w: string, post: string, p: string)
    requires p != "" && '(' !in p && ')' !in p && p[0] != ' ' && p[|p| - 1] != ' '
    requires !Contains(pre, p) && !Contains(w, p) && !Contains(post, p)
    ensures !Contains(pre + " " + ("(" + w + ")") + " " + post, p)
  {
    var a := pre + [' '];
    var b := [' '] + post;
    var c := w + [')'] + b;
    AppendChar(pre, ' ', p);
    PrependChar(' ', post, p);
    BarrierSplit(w, ')', b, p);
    BarrierSplit(a, '(', c, p);
    assert pre + " " + ("(" + w + ")") + " " + post == a + ['('] + c;
  }

  /** A pattern cannot start inside a stretch of `s` that lacks its first character. */
  lemma NoStartIn(s: string, p: string, lo: nat, hi: nat)
    requires p != "" && lo <= hi <= |s| && p[0] !in s[lo..hi]
    ensures forall i :: lo <= i < hi ==> !ContainsAt(s, p, i)
  {
    forall i | lo <= i < hi ensures !ContainsAt(s, p, i) {
      assert s[lo..hi][i - lo] == s[i];
      NotContainsAtChar(s, p, i, 0);
    }
  }

  /**
   * A partition at `sep` of a text that opens with a marker `m`: the marker shares
   * only its first character with `sep`, and neither the rest of the marker nor
   * `mid` holds that character, so the first `sep` is the one after `mid`.
   */
  lemma PartitionAfterMarker(m: string, mid: string, sep: string, post: string)
    requires 2 <= |m| && 2 <= |sep| && m[0] == sep[0] && m[1] != sep[1]
    requires sep[0] !in m[1..] && sep[0] !in mid
    ensures Partition(m + mid + sep + post, sep) == Parts(m + mid, sep, post)
  {
    var s := m + mid + sep + post;
    var k := |m + mid|;
    assert s[k..k + |sep|] == sep;
    assert s[1..k] == m[1..] + mid;
    NoStartIn(s, sep, 1, k);
    NotContainsAtChar(s, sep, 0, 1);
    PartitionAt(s, sep, k);
    assert s[..k] == m + mid;
    assert s[k + |sep|..] == post;
  }

  /** The partition at a known first occurrence. */
  lemma PartitionAt(s: string, sep: string, k: nat)
    requires sep != "" && ContainsAt(s, sep, k)
    requires forall i :: 0 <= i < k ==> !ContainsAt(s, sep, i)
    ensures Partition(s, sep) == Parts(s[..k], sep, s[k + |sep|..])
  {
    var r := Partition(s, sep);
    ContainsWitness(s, sep, k);
    assert |r.before| == k;
  }

  /** A text without the separator is all `before`. */
  lemma PartitionAbsent(s: string, sep: string)
    requires sep != "" && !Contains(s, sep)
    ensures Partition(s, sep) == Parts(s, "", "")
  {
  }

  /** `(pat + rest).replace(pat, repl)` starts with `repl`. */
  lemma ReplaceLeading(pat: string, rest: string, repl: string)
    requires pat != ""
    ensures ReplaceAll(pat + rest, pat, repl) == repl + ReplaceAll(rest, pat, repl)
  {
    assert (pat + rest)[..|pat|] == pat;
    assert (pat + rest)[|pat|..] == rest;
  }

  /** Removing a marker that opens the text and does not recur leaves the rest. */
  lemma DropLeadingMarker(pat: string, rest: string)
    requires pat != "" && pat[0] !in rest
    ensures ReplaceAll(pat + rest, pat, "") == rest
  {
    ReplaceLeading(pat, rest, "");
    AbsentChar(rest, pat, pat[0]);
    ReplaceAbsent(rest, pat, "");
    assert "" + rest == rest;
  }

  // ---------------------------------------------------------------------------
  // strip

  /** `s.lstrip()` */
  function TrimLeft(s: string): (r: string)
    ensures |r| <= |s|
    ensures r == "" || !IsSpace(r[0])
    ensures forall i :: 0 <= i < |s| - |r| ==> IsSpace(s[i])
  {
    if s != "" && IsSpace(s[0]) then TrimLeft(s[1..]) else s
  }

  /** `lstrip()` keeps a suffix. */
  lemma {:induction false} TrimLeftSuffix(s: string)
    ensures TrimLeft(s) == s[|s| - |TrimLeft(s)|..]
    decreases |s|
  {
    if s != "" && IsSpace(s[0]) {
      TrimLeftSuffix(s[1..]);
      assert s[1..][|s| - 1 - |TrimLeft(s)|..] == s[|s| - |TrimLeft(s)|..];
    }
  }

  /** `s.rstrip()` */
  function TrimRight(s: string): (r: string)
    ensures |r| <= |s| && r == s[..|r|]
    ensures r == "" || !IsSpace(r[|r| - 1])
    ensures forall i :: |r| <= i < |s| ==> IsSpace(s[i])
  {
    if s != "" && IsSpace(s[|s| - 1]) then TrimRight(s[..|s| - 1]) else s
  }

  /** `s.rstrip(chars)`: drop trailing characters that belong to `chars`. */
  function TrimRightChars(s: string, chars: set<char>): (r: string)
    ensures |r| <= |s| && r == s[..|r|]
    ensures r == "" || r[|r| - 1] !in chars
    ensures forall i :: |r| <= i < |s| ==> s[i] in chars
  {
    if s != "" && s[|s| - 1] in chars then TrimRightChars(s[..|s| - 1], chars) else s
  }

  /** `s.strip()` */
  function Strip(s: string): (r: string)
  {
    TrimLeft(TrimRight(s))
  }

  predicate Trimmed(s: string) {
    s == "" || (!IsSpace(s[0]) && !IsSpace(s[|s| - 1]))
  }

  /** `Strip` keeps a contiguous piece of `s` and drops only whitespace around it. */
  lemma StripSpec(s: string)
    ensures Trimmed(Strip(s))
    ensures var i := |TrimRight(s)| - |Strip(s)|;
      0 <= i && i + |Strip(s)| <= |s| && Strip(s) == s[i..i + |Strip(s)|]
      && (forall k :: 0 <= k < i ==> IsSpace(s[k]))
      && (forall k :: i + |Strip(s)| <= k < |s| ==> IsSpace(s[k]))
  {
    var t := TrimRight(s);
    var r := TrimLeft(t);
    var i := |t| - |r|;
    StripLeadingSpace(s, t, r);
    if r != "" {
      assert r[|r| - 1] == t[|t| - 1];
    }
  }

  /** Stripping brings in no character. */
  lemma StripAvoids(s: string, c: char)
    requires c !in s
    ensures c !in Strip(s)
  {
    StripSpec(s);
    var i := |TrimRight(s)| - |Strip(s)|;
    forall k | 0 <= k < |Strip(s)| ensures Strip(s)[k] != c {
      assert Strip(s)[k] == s[i + k];
    }
  }

  lemma StripLeadingSpace(s: string, t: string, r: string)
    requires t == TrimRight(s) && r == TrimLeft(t)
    ensures r == s[|t| - |r|..|t|]
    ensures forall k :: 0 <= k < |t| - |r| ==> IsSpace(s[k])
  {
    var i := |t| - |r|;
    TrimLeftSuffix(t);
    assert t == s[..|t|];
    forall k | 0 <= k < i ensures IsSpace(s[k]) {
      assert s[k] == t[k];
    }
  }

  lemma TrimmedStrip(s: string)
    requires Trimmed(s)
    ensures Strip(s) == s
  {
  }

  /** A trimmed text padded with single spaces strips back to itself. */
  lemma StripPadded(t: string)
    requires Trimmed(t)
    ensures Strip(" " + t) == t && Strip(t + " ") == t && Strip(" " + t + " ") == t
  {
    assert TrimRight(" " + t + " ") == TrimRight(" " + t) by {
      assert (" " + t + " ")[..|t| + 1] == " " + t;
    }
    assert TrimRight(t + " ") == TrimRight(t) by {
      assert (t + " ")[..|t|] == t;
    }
    if t == "" {
      assert TrimRight(" ") == TrimRight("");
    } else {
      assert TrimLeft(" " + t) == TrimLeft(t) by {
        assert (" " + t)[1..] == t;
      }
    }
  }

  /** `strip()` is idempotent. */
  lemma StripIdempotent(s: string)
    ensures Strip(Strip(s)) == Strip(s)
  {
    StripSpec(s);
    TrimmedStrip(Strip(s));
  }

  // ---------------------------------------------------------------------------
  // split, join

  /** `sep.join(words)` */
  function Join(sep: string, words: seq<string>): (r: string)
    decreases |words|
  {
    if |words| == 0 then ""
    else if |words| == 1 then words[0]
    else words[0] + sep + Join(sep, words[1..])
  }

  /** `s.split(c)` for a one-character separator: empty fields are kept. */
  function SplitOn(s: string, c: char): (r: seq<string>)
    decreases |s|
    ensures |r| >= 1
    ensures forall i :: 0 <= i < |r| ==> c !in r[i]
  {
    if s == "" then [""]
    else
      var rest := SplitOn(s[1..], c);
      if s[0] == c then [""] + rest else [[s[0]] + rest[0]] + rest[1..]
  }

  lemma JoinConsHead(sep: string, x: string, y: string, ws: seq<string>)
    ensures Join(sep, [x + y] + ws) == x + Join(sep, [y] + ws)
  {
    if |ws| > 0 {
      assert ([x + y] + ws)[1..] == ws;
      assert ([y] + ws)[1..] == ws;
    }
  }

  /** Joining the fields of `s.split(c)` with `c` gives `s` back. */
  lemma {:induction false} JoinSplitOn(s: string, c: char)
    ensures Join([c], SplitOn(s, c)) == s
  {
    if s != "" {
      var rest := SplitOn(s[1..], c);
      JoinSplitOn(s[1..], c);
      if s[0] == c {
        assert ([""] + rest)[1..] == rest;
      } else {
        calc {
          Join([c], [[s[0]] + rest[0]] + rest[1..]);
          { JoinConsHead([c], [s[0]], rest[0], rest[1..]); }
          [s[0]] + Join([c], [rest[0]] + rest[1..]);
          { assert [rest[0]] + rest[1..] == rest; }
          [s[0]] + s[1..];
        }
      }
    }
  }

  /** A leading field free of `c` stays whole in front of the fields of the rest. */
  lemma {:induction false} SplitOnWord(w: string, rest: string, c: char)
    requires c !in w
    ensures SplitOn(w + rest, c) == [w + SplitOn(rest, c)[0]] + SplitOn(rest, c)[1..]
  {
    if w != "" {
      assert (w + rest)[1..] == w[1..] + rest;
      SplitOnWord(w[1..], rest, c);
      assert [w[0]] + (w[1..] + SplitOn(rest, c)[0]) == w + SplitOn(rest, c)[0];
    } else {
      assert w + rest == rest;
      assert w + SplitOn(rest, c)[0] == SplitOn(rest, c)[0];
      assert [SplitOn(rest, c)[0]] + SplitOn(rest, c)[1..] == SplitOn(rest, c);
    }
  }

  /** Splitting on `c` undoes joining with `c`, when no word contains `c`. */
  lemma {:induction false} SplitOnJoin(words: seq<string>, c: char)
    requires |words| >= 1
    requires forall i :: 0 <= i < |words| ==> c !in words[i]
    ensures SplitOn(Join([c], words), c) == words
  {
    var w := words[0];
    if |words| == 1 {
      SplitOnWord(w, "", c);
      assert w + "" == w;
    } else {
      var tail := Join([c], words[1..]);
      SplitOnJoin(words[1..], c);
      assert Join([c], words) == w + ([c] + tail);
      SplitOnWord(w, [c] + tail, c);
      assert ([c] + tail)[1..] == tail;
      assert SplitOn([c] + tail, c) == [""] + words[1..];
      assert w + "" == w;
    }
  }

  /** A character absent from the separator and from every word is absent from the join. */
  lemma {:induction false} JoinAvoidsChar(sep: string, words: seq<string>, c: char)
    requires c !in sep
    requires forall i :: 0 <= i < |words| ==> c !in words[i]
    ensures c !in Join(sep, words)
  {
    if |words| > 1 {
      JoinAvoidsChar(sep, words[1..], c);
    }
  }

  /** A pattern that avoids a one-character separator occurs in the join only inside one word. */
  lemma {:induction false} JoinBarrier(sep: char, words: seq<string>, p: string)
    requires p != "" && sep !in p
    requires forall i :: 0 <= i < |words| ==> !Contains(words[i], p)
    ensures !Contains(Join([sep], words), p)
  {
    if |words| == 0 {
      ShortNeverContains("", p);
    } else if |words| > 1 {
      JoinBarrier(sep, words[1..], p);
      BarrierSplit(words[0], sep, Join([sep], words[1..]), p);
    }
  }

  /** `s.split()` without arguments: maximal runs of non-whitespace. */
  function SplitWhitespace(s: string): (r: seq<string>)
    decreases |s|
    ensures forall i :: 0 <= i < |r| ==> IsWord(r[i])
  {
    if s == "" then []
    else if IsSpace(s[0]) then SplitWhitespace(s[1..])
    else
      var w := WordPrefix(s);
      [w] + SplitWhitespace(s[|w|..])
  }

  /** The longest prefix of `s` without whitespace. */
  function WordPrefix(s: string): (w: string)
    ensures |w| <= |s| && w == s[..|w|]
    ensures NoSpace(w)
    ensures |w| < |s| ==> IsSpace(s[|w|])
    ensures s != "" && !IsSpace(s[0]) ==> w != ""
  {
    if s == "" || IsSpace(s[0]) then "" else [s[0]] + WordPrefix(s[1..])
  }

  /** No whitespace character in `s`. */
  predicate NoSpace(s: string) {
    forall c :: c in s ==> !IsSpace(c)
  }

  predicate IsWord(w: string) {
    w != "" && NoSpace(w)
  }

  lemma WordPrefixOfWord(w: string, rest: string)
    requires IsWord(w)
    requires rest == "" || IsSpace(rest[0])
    ensures WordPrefix(w + rest) == w
  {
    if |w| > 1 {
      assert (w + rest)[1..] == w[1..] + rest;
      WordPrefixOfWord(w[1..], rest);
    } else {
      assert (w + rest)[1..] == rest;
    }
  }

  lemma SplitWhitespaceSpace(x: string)
    ensures SplitWhitespace(" " + x) == SplitWhitespace(x)
  {
    assert (" " + x)[1..] == x;
  }

  /** A leading word followed by whitespace (or nothing) is the first field of `split()`. */
  lemma SplitWhitespaceWord(w: string, rest: string)
    requires IsWord(w)
    requires rest == "" || IsSpace(rest[0])
    ensures SplitWhitespace(w + rest) == [w] + SplitWhitespace(rest)
  {
    WordPrefixOfWord(w, rest);
    assert (w + rest)[|w|..] == rest;
  }

  /** `" ".join(words).split() == words` when every word is non-empty and space-free. */
  lemma {:induction false} SplitJoinWords(words: seq<string>)
    requires forall i :: 0 <= i < |words| ==> IsWord(words[i])
    ensures SplitWhitespace(Join(" ", words)) == words
  {
    if |words| == 1 {
      SplitWhitespaceWord(words[0], "");
      assert words[0] + "" == words[0];
    } else if |words| > 1 {
      SplitJoinWords(words[1..]);
      SplitWordThenSpace(words[0], Join(" ", words[1..]));
      assert [words[0]] + words[1..] == words;
    }
  }

  /** A word followed by a space splits off as the first word. */
  lemma SplitWordThenSpace(w: string, tail: string)
    requires IsWord(w)
    ensures SplitWhitespace(w + " " + tail) == [w] + SplitWhitespace(tail)
  {
    assert w + " " + tail == w + (" " + tail);
    SplitWhitespaceWord(w, " " + tail);
    SplitWhitespaceSpace(tail);
  }

  lemma JoinHead(sep: string, words: seq<string>)
    requires |words| > 0 && words[0] != ""
    ensures Join(sep, words) != "" && Join(sep, words)[0] == words[0][0]
  {
  }

  /** A prefix one element longer is the shorter prefix and that element. */
  lemma PrefixSnoc<T>(s: seq<T>, n: nat)
    requires n < |s|
    ensures s[..n + 1] == s[..n] + [s[n]]
  {
  }

  /** Joining one more word puts the separator and the word at the end. */
  lemma {:induction false} JoinSnoc(sep: string, words: seq<string>, w: string)
    requires |words| > 0
    ensures Join(sep, words + [w]) == Join(sep, words) + sep + w
    decreases |words|
  {
    if |words| > 1 {
      assert (words + [w])[1..] == words[1..] + [w];
      JoinSnoc(sep, words[1..], w);
    }
  }

  /** The last character of a join is the last character of its last word. */
  lemma {:induction false} JoinLast(sep: string, words: seq<string>)
    requires |words| > 0 && words[|words| - 1] != ""
    ensures var j := Join(sep, words); var w := words[|words| - 1];
      j != "" && j[|j| - 1] == w[|w| - 1]
    decreases |words|
  {
    if |words| > 1 {
      assert words[1..][|words| - 2] == words[|words| - 1];
      JoinLast(sep, words[1..]);
    }
  }

  /** Words joined with single spaces have no surrounding whitespace. */
  lemma JoinWordsTrimmed(words: seq<string>)
    requires forall i :: 0 <= i < |words| ==> IsWord(words[i])
    ensures Trimmed(Join(" ", words))
  {
    if |words| > 0 {
      JoinHead(" ", words);
      JoinLast(" ", words);
      assert words[0][0] in words[0];
      var w := words[|words| - 1];
      assert w[|w| - 1] in w;
    }
  }

  /** The words of `s.split()` hold no character that `s` lacks. */
  lemma {:induction false} SplitWhitespaceAvoids(s: string, c: char)
    requires c !in s
    ensures forall i :: 0 <= i < |SplitWhitespace(s)| ==> c !in SplitWhitespace(s)[i]
    decreases |s|
  {
    if s != "" {
      if IsSpace(s[0]) {
        SplitWhitespaceAvoids(s[1..], c);
      } else {
        var w := WordPrefix(s);
        SplitWhitespaceAvoids(s[|w|..], c);
        assert forall x :: x in w ==> x in s;
      }
    }
  }

  // ---------------------------------------------------------------------------
  // lower()

  /** `str.lower()` on one character: ASCII and Latin-1 capitals. */
  function LowerChar(c: char): (r: char)
  {
    if 'A' <= c <= 'Z' || ('À' <= c <= 'Þ' && c != '×') then (c as int + 32) as char
    else c
  }

  function Lower(s: string): (r: string)
    ensures |r| == |s|
    ensures forall i :: 0 <= i < |s| ==> r[i] == LowerChar(s[i])
  {
    seq(|s|, i requires 0 <= i < |s| => LowerChar(s[i]))
  }

  lemma LowerIdempotent(s: string)
    ensures Lower(Lower(s)) == Lower(s)
  {
    assert forall c: char :: LowerChar(LowerChar(c)) == LowerChar(c);
  }

  /** `s` is its own lower-case form. */
  predicate IsLower(s: string) {
    forall i :: 0 <= i < |s| ==> LowerChar(s[i]) == s[i]
  }

  lemma LowerOfLower(s: string)
    requires IsLower(s)
    ensures Lower(s) == s
  {
  }

  lemma LowerConcat(a: string, b: string)
    requires IsLower(a) && IsLower(b)
    ensures IsLower(a + b)
  {
    forall i | 0 <= i < |a + b| ensures LowerChar((a + b)[i]) == (a + b)[i] {
      if i >= |a| { assert (a + b)[i] == b[i - |a|]; }
    }
  }

  lemma IntToStringIsLower(n: int)
    ensures IsLower(IntToString(n))
  {
    var s := IntToString(n);
    var d := NatToString(if n < 0 then -n else n);
    forall i | 0 <= i < |s| ensures LowerChar(s[i]) == s[i] {
      if n < 0 && i > 0 {
        assert s[i] == d[i - 1];
        assert s[i] in d;
      } else if n >= 0 {
        assert s[i] in d;
      }
    }
  }

  lemma LowerSlice(s: string, i: nat, j: nat)
    requires i <= j <= |s|
    ensures Lower(s[i..j]) == Lower(s)[i..j]
  {
  }

  // ---------------------------------------------------------------------------
  // int() and str() on integers

  function DigitValue(c: char): nat
    requires IsAsciiDigit(c)
  {
    c as int - '0' as int
  }

  predicate AllDigits(s: string) {
    forall c :: c in s ==> IsAsciiDigit(c)
  }

  /** Value of a decimal numeral, most significant digit first. */
  function DigitsValue(s: string): nat
    requires AllDigits(s)
    decreases |s|
  {
    if s == "" then 0 else DigitsValue(s[..|s| - 1]) * 10 + DigitValue(s[|s| - 1])
  }

  /**
   * `int(s)`: optional surrounding whitespace, an optional sign, then ASCII digits.
   * Underscores between digits and non-ASCII decimal digits are not accepted.
   */
  function ParseInt(s: string): (r: Option<int>)
  {
    var t := Strip(s);
    if t != "" && (t[0] == '-' || t[0] == '+') then
      var digits := t[1..];
      if digits != "" && AllDigits(digits) then
        var v: int := DigitsValue(digits);
        Some(if t[0] == '-' then -v else v)
      else None
    else if t != "" && AllDigits(t) then Some(DigitsValue(t))
    else None
  }

  datatype Option<T> = None | Some(value: T)

  function DigitChar(d: nat): (c: char)
    requires d < 10
    ensures IsAsciiDigit(c) && DigitValue(c) == d
  {
    ('0' as int + d) as char
  }

  /** `str(n)` for a natural number. */
  function NatToString(n: nat): (r: string)
    ensures r != "" && AllDigits(r)
    ensures r[0] != '-' && r[0] != '+' && !IsSpace(r[0]) && !IsSpace(r[|r| - 1])
    decreases n
  {
    if n < 10 then [DigitChar(n)] else NatToString(n / 10) + [DigitChar(n % 10)]
  }

  /** `str(n)` for an integer. */
  function IntToString(n: int): (r: string)
  {
    if n < 0 then "-" + NatToString(-n) else NatToString(n)
  }

  lemma {:induction false} NatToStringValue(n: nat)
    ensures DigitsValue(NatToString(n)) == n
    decreases n
  {
    if n >= 10 {
      var s := NatToString(n);
      NatToStringValue(n / 10);
      assert s[..|s| - 1] == NatToString(n / 10);
    }
  }

  /** `int(str(n)) == n`. */
  lemma ParseIntToString(n: int)
    ensures ParseInt(IntToString(n)) == Some(n)
  {
    var s := IntToString(n);
    var d := NatToString(if n < 0 then -n else n);
    NatToStringValue(if n < 0 then -n else n);
    assert Trimmed(s);
    TrimmedStrip(s);
    if n < 0 {
      assert s[1..] == d;
    }
  }
}
