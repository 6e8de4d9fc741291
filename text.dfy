/**
 * Whitespace handling as Python's `str.split()` / `str.strip()` do it, and the
 * normaliser `_sanitize` applied to every generated description
 * (scripts/generate-descriptions.py:367-372).
 */
module Text {

  /** Python's `str.isspace` on one character: the separators `str.split()` and `str.strip()` use. */
  predicate IsSpace(c: char) {
    || c == ' '
    || ('\t' <= c <= '\r')
    || ('\U{1C}' <= c <= '\U{1F}')
    || c == '\U{85}' || c == '\U{A0}' || c == '\U{1680}'
    || ('\U{2000}' <= c <= '\U{200A}')
    || c == '\U{2028}' || c == '\U{2029}' || c == '\U{202F}' || c == '\U{205F}' || c == '\U{3000}'
  }

  /** `not s.strip()`: the string is empty or all whitespace. */
  predicate IsBlank(s: string) {
    forall i | 0 <= i < |s| :: IsSpace(s[i])
  }

  predicate NoSpace(w: string) {
    forall i | 0 <= i < |w| :: !IsSpace(w[i])
  }

  /** A word as `str.split()` yields it: non-empty and without whitespace. */
  predicate IsWord(w: string) {
    |w| > 0 && NoSpace(w)
  }

  predicate AllWords(ws: seq<string>) {
    forall k | 0 <= k < |ws| :: IsWord(ws[k])
  }

  /**
   * A string in normal form: every whitespace character is a plain space that
   * has a non-space on both sides, so there is no leading or trailing
   * whitespace and no run of two.
   */
  predicate Collapsed(t: string) {
    forall i | 0 <= i < |t| && IsSpace(t[i]) ::
      t[i] == ' ' && 0 < i < |t| - 1 && !IsSpace(t[i - 1]) && !IsSpace(t[i + 1])
  }

  /** The length of the leading run of non-space characters. */
  function WordLen(s: string): (n: nat)
    ensures n <= |s|
    ensures NoSpace(s[..n])
    ensures n < |s| ==> IsSpace(s[n])
  {
    if s == [] || IsSpace(s[0]) then 0 else 1 + WordLen(s[1..])
  }

  /** `s.split()`: the maximal runs of non-space characters, in order. */
  function Words(s: string): seq<string>
    decreases |s|
  {
    if s == [] then []
    else if IsSpace(s[0]) then Words(s[1..])
    else
      var n := WordLen(s);
      [s[..n]] + Words(s[n..])
  }

  /** `" ".join(ws)`. */
  function Join(ws: seq<string>): string
  {
    if |ws| == 0 then ""
    else if |ws| == 1 then ws[0]
    else ws[0] + " " + Join(ws[1..])
  }

  predicate IsTerminal(c: char) {
    c == '.' || c == '!' || c == '?'
  }

  /**
   * `_sanitize`: collapse whitespace runs to single spaces, trim, and append
   * '.' unless the text already ends in '.', '!' or '?'.
   */
  function Sanitize(s: string): (r: string)
    ensures Collapsed(r)
    ensures |r| > 0 ==> IsTerminal(r[|r| - 1])
    ensures r == "" <==> IsBlank(s)
  {
    WordsAreWords(s);
    WordsEmpty(s);
    JoinCollapsed(Words(s));
    var t := Join(Words(s));
    if |t| > 0 && !IsTerminal(t[|t| - 1]) then
      AppendTerminalCollapsed(t);
      t + "."
    else t
  }

  lemma AppendTerminalCollapsed(t: string)
    requires Collapsed(t) && |t| > 0 && !IsSpace(t[|t| - 1])
    ensures Collapsed(t + ".")
  {
    var u := t + ".";
    forall i | 0 <= i < |u| && IsSpace(u[i])
      ensures u[i] == ' ' && 0 < i < |u| - 1 && !IsSpace(u[i - 1]) && !IsSpace(u[i + 1])
    {
      assert i < |t|;
      assert u[i] == t[i];
    }
  }

  /** Every element of `s.split()` is a word. */
  lemma {:induction false} WordsAreWords(s: string)
    ensures AllWords(Words(s))
    decreases |s|
  {
    if s == [] {
    } else if IsSpace(s[0]) {
      WordsAreWords(s[1..]);
    } else {
      var n := WordLen(s);
      WordsAreWords(s[n..]);
    }
  }

  /** `s.split()` is empty exactly for blank strings. */
  lemma {:induction false} WordsEmpty(s: string)
    ensures Words(s) == [] <==> IsBlank(s)
    decreases |s|
  {
    if s == [] {
    } else if IsSpace(s[0]) {
      WordsEmpty(s[1..]);
      assert IsBlank(s) <==> IsBlank(s[1..]) by {
        if IsBlank(s[1..]) {
          forall i | 0 <= i < |s| ensures IsSpace(s[i]) {
            if i > 0 { assert s[i] == s[1..][i - 1]; }
          }
        }
      }
    } else {
      assert !IsBlank(s);
    }
  }

  lemma {:induction false} JoinEnds(ws: seq<string>)
    requires AllWords(ws) && |ws| > 0
    ensures |Join(ws)| > 0
    ensures Join(ws)[0] == ws[0][0]
    ensures Join(ws)[|Join(ws)| - 1] == ws[|ws| - 1][|ws[|ws| - 1]| - 1]
  {
    assert IsWord(ws[0]);
    if |ws| > 1 {
      var rest := ws[1..];
      JoinEnds(rest);
      assert Join(ws) == ws[0] + " " + Join(rest);
      assert rest[|rest| - 1] == ws[|ws| - 1];
    }
  }

  /** Joining words with single spaces gives a string in normal form. */
  lemma {:induction false} JoinCollapsed(ws: seq<string>)
    requires AllWords(ws)
    ensures Collapsed(Join(ws))
    ensures |Join(ws)| > 0 ==> !IsSpace(Join(ws)[|Join(ws)| - 1])
    ensures Join(ws) == "" <==> ws == []
  {
    if |ws| == 0 {
    } else if |ws| == 1 {
      assert IsWord(ws[0]);
    } else {
      JoinCollapsed(ws[1..]);
      JoinEnds(ws[1..]);
      assert IsWord(ws[0]) && IsWord(ws[1]);
      PrependWordCollapsed(ws[0], Join(ws[1..]));
    }
  }

  /** A word, a space and a collapsed text that starts and ends with non-spaces form a collapsed text. */
  lemma PrependWordCollapsed(w: string, rest: string)
    requires IsWord(w) && Collapsed(rest) && |rest| > 0
    requires !IsSpace(rest[0]) && !IsSpace(rest[|rest| - 1])
    ensures Collapsed(w + " " + rest)
    ensures !IsSpace((w + " " + rest)[|w + " " + rest| - 1])
  {
    var t := w + " " + rest;
    forall i | 0 <= i < |t| && IsSpace(t[i])
      ensures t[i] == ' ' && 0 < i < |t| - 1 && !IsSpace(t[i - 1]) && !IsSpace(t[i + 1])
    {
      if i < |w| {
        assert false;
      } else if i == |w| {
        assert t[i + 1] == rest[0];
      } else {
        assert t[i] == rest[i - |w| - 1];
        assert t[i + 1] == rest[i - |w|];
        if i - 1 > |w| {
          assert t[i - 1] == rest[i - |w| - 2];
        }
      }
    }
    assert t[|t| - 1] == rest[|rest| - 1];
  }

  lemma {:induction false} WordLenOfWord(w: string, rest: string)
    requires NoSpace(w)
    requires rest == [] || IsSpace(rest[0])
    ensures WordLen(w + rest) == |w|
    decreases |w|
  {
    if w != [] {
      assert (w + rest)[1..] == w[1..] + rest;
      WordLenOfWord(w[1..], rest);
    } else {
      assert w + rest == rest;
    }
  }

  /** Round trip: splitting the space-joined words gives the words back. */
  lemma {:induction false} WordsOfJoin(ws: seq<string>)
    requires AllWords(ws)
    ensures Words(Join(ws)) == ws
  {
    if |ws| == 0 {
    } else if |ws| == 1 {
      var w := ws[0];
      assert IsWord(w);
      WordLenOfWord(w, "");
      assert w + "" == w;
      assert w[|w|..] == [];
    } else {
      var w, rest := ws[0], Join(ws[1..]);
      assert IsWord(w);
      var t := w + " " + rest;
      assert t == w + (" " + rest);
      WordLenOfWord(w, " " + rest);
      assert t[..|w|] == w;
      assert t[|w|..] == " " + rest;
      assert (" " + rest)[1..] == rest;
      WordsOfJoin(ws[1..]);
    }
  }

  /** Appending to the last word appends to the joined string. */
  lemma {:induction false} JoinExtendLast(ws: seq<string>, x: string)
    requires |ws| > 0
    ensures Join(ws[..|ws| - 1] + [ws[|ws| - 1] + x]) == Join(ws) + x
  {
    var vs := ws[..|ws| - 1] + [ws[|ws| - 1] + x];
    if |ws| == 1 {
    } else {
      JoinExtendLast(ws[1..], x);
      assert vs[1..] == ws[1..][..|ws[1..]| - 1] + [ws[1..][|ws[1..]| - 1] + x];
      assert vs[0] == ws[0];
    }
  }

  /** Normalising an already normalised description changes nothing. */
  lemma SanitizeIdempotent(s: string)
    ensures Sanitize(Sanitize(s)) == Sanitize(s)
  {
    var ws := Words(s);
    WordsAreWords(s);
    var t := Join(ws);
    JoinCollapsed(ws);
    WordsOfJoin(ws);
    if |t| > 0 && !IsTerminal(t[|t| - 1]) {
      var n := |ws|;
      var vs := ws[..n - 1] + [ws[n - 1] + "."];
      ExtendLastWord(ws, ".");
      JoinExtendLast(ws, ".");
      WordsOfJoin(vs);
      assert Sanitize(s) == Join(vs);
    }
  }

  /** The words with a full stop added to the last one, unless it already ends in punctuation. */
  function Punctuated(ws: seq<string>): seq<string> {
    if ws == [] then ws
    else
      var w := ws[|ws| - 1];
      if |w| > 0 && IsTerminal(w[|w| - 1]) then ws else ws[..|ws| - 1] + [w + "."]
  }

  /** `_sanitize` in two steps: join the words, then add a full stop unless the text is empty or already ends in punctuation. */
  lemma SanitizeOfJoin(s: string, t: string)
    requires t == Join(Words(s))
    ensures Sanitize(s) == if |t| > 0 && !IsTerminal(t[|t| - 1]) then t + "." else t
  {
  }

  /** Joining the punctuated words is joining the words and then punctuating the text. */
  lemma PunctuatedJoin(ws: seq<string>, t: string)
    requires AllWords(ws) && t == Join(ws)
    ensures Join(Punctuated(ws)) == if |t| > 0 && !IsTerminal(t[|t| - 1]) then t + "." else t
  {
    if ws != [] {
      var w := ws[|ws| - 1];
      assert IsWord(w);
      JoinEnds(ws);
      if !IsTerminal(w[|w| - 1]) {
        JoinExtendLast(ws, ".");
      }
    }
  }

  /** `_sanitize` joins the input's words, punctuated. */
  lemma SanitizeJoinsWords(s: string)
    ensures Sanitize(s) == Join(Punctuated(Words(s)))
  {
    var t := Join(Words(s));
    WordsAreWords(s);
    PunctuatedJoin(Words(s), t);
    SanitizeOfJoin(s, t);
  }

  /**
   * Sanitising keeps the words of the text, in order: only the last word
   * changes, by a full stop, when it does not already end in punctuation.
   */
  lemma SanitizeWords(s: string)
    ensures Words(Sanitize(s)) == Punctuated(Words(s))
  {
    var ws := Words(s);
    SanitizeJoinsWords(s);
    WordsAreWords(s);
    if Punctuated(ws) != ws {
      ExtendLastWord(ws, ".");
    }
    WordsOfJoin(Punctuated(ws));
  }

  /** Extending the last word by non-space characters keeps every piece a word. */
  lemma ExtendLastWord(ws: seq<string>, x: string)
    requires AllWords(ws) && |ws| > 0 && NoSpace(x)
    ensures AllWords(ws[..|ws| - 1] + [ws[|ws| - 1] + x])
  {
    var n := |ws|;
    var vs := ws[..n - 1] + [ws[n - 1] + x];
    forall k | 0 <= k < |vs| ensures IsWord(vs[k]) {
      if k < n - 1 { assert vs[k] == ws[k]; }
      else { assert IsWord(ws[n - 1]); }
    }
  }

  /** Leading whitespace does not change the split. */
  lemma {:induction false} WordsSkipBlank(p: string, t: string)
    requires IsBlank(p)
    ensures Words(p + t) == Words(t)
    decreases |p|
  {
    if p != [] {
      assert (p + t)[1..] == p[1..] + t;
      WordsSkipBlank(p[1..], t);
    } else {
      assert p + t == t;
    }
  }

  /** A word followed by whitespace (or nothing) splits off as the first word. */
  lemma WordsOfWordThen(w: string, rest: string)
    requires IsWord(w)
    requires rest == [] || IsSpace(rest[0])
    ensures Words(w + rest) == [w] + Words(rest)
  {
    WordLenOfWord(w, rest);
    assert (w + rest)[..|w|] == w && (w + rest)[|w|..] == rest;
  }

  /** Two words between blanks split into exactly those two words. */
  lemma WordsOfTwo(p: string, a: string, b: string, q: string)
    requires IsBlank(p) && IsBlank(q) && IsWord(a) && IsWord(b)
    ensures Words(p + a + " " + b + q) == [a, b]
  {
    assert p + a + " " + b + q == p + (a + (" " + (b + q)));
    WordsSkipBlank(p, a + (" " + (b + q)));
    WordsOfWordThen(a, " " + (b + q));
    assert IsBlank(" ");
    WordsSkipBlank(" ", b + q);
    WordsOfWordThen(b, q);
    WordsEmpty(q);
  }

  /** Two words between blanks sanitise to the words joined by one space, with a full stop added when needed. */
  lemma SanitizeTwoWords(p: string, a: string, b: string, q: string)
    requires IsBlank(p) && IsBlank(q) && IsWord(a) && IsWord(b)
    requires !IsTerminal(b[|b| - 1])
    ensures Sanitize(p + a + " " + b + q) == a + " " + b + "."
  {
    WordsOfTwo(p, a, b, q);
    assert Join([a, b]) == a + " " + Join([b]);
    var t := a + " " + b;
    assert t[|t| - 1] == b[|b| - 1];
  }

  /** The worked example: surrounding blanks go and a full stop is added. */
  lemma SanitizeExample(s: string)
    requires s == "  Sells shoes  "
    ensures Sanitize(s) == "Sells shoes."
  {
    var p, a, b := "  ", "Sells", "shoes";
    assert s == p + a + " " + b + p;
    SanitizeTwoWords(p, a, b, p);
  }
}
