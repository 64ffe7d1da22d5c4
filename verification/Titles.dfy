/** Title matching of series timers (internal/dvr/recorder.go, normalizeTitle and
    titleMatches). A title stands for the list of its words; the normal form is
    their join, and matching on normal forms is matching on word lists. */
module Titles {
  /** strings.ToLower as far as this file can see it: besides A-Z only the Kelvin
      sign and the dotted capital I are lowered into the letters a-z, and no other
      character is lowered into or out of a-z and 0-9. */
  function Lower(c: char): char {
    if 'A' <= c <= 'Z' then (c as int + 32) as char
    else if c as int == 0x212A then 'k'
    else if c as int == 0x0130 then 'i'
    else c
  }

  predicate Alnum(c: char) { 'a' <= c <= 'z' || '0' <= c <= '9' }

  predicate EndsInWord(s: string) { s != "" && Alnum(Lower(s[|s| - 1])) }

  /** One more character: it lengthens the word being read, starts one, or ends it. */
  function Grow(ws: seq<string>, open: bool, c: char): seq<string> {
    if !Alnum(c) then ws
    else if open && ws != [] then ws[..|ws| - 1] + [ws[|ws| - 1] + [c]]
    else ws + [[c]]
  }

  /** The maximal alphanumeric runs of `s`, lowered. */
  function Words(s: string): seq<string> {
    if s == "" then []
    else Grow(Words(s[..|s| - 1]), EndsInWord(s[..|s| - 1]), Lower(s[|s| - 1]))
  }

  function Join(ws: seq<string>): string {
    if ws == [] then ""
    else if |ws| == 1 then ws[0]
    else Join(ws[..|ws| - 1]) + " " + ws[|ws| - 1]
  }

  predicate IsWord(w: string) { w != "" && forall i :: 0 <= i < |w| ==> Alnum(w[i]) }

  predicate AreWords(ws: seq<string>) { forall i :: 0 <= i < |ws| ==> IsWord(ws[i]) }

  /** Single-spaced words with no space at either edge. */
  ghost predicate Canonical(s: string) {
    && (forall i :: 0 <= i < |s| ==> Alnum(s[i]) || s[i] == ' ')
    && (s != "" ==> s[0] != ' ' && s[|s| - 1] != ' ')
    && forall i, j :: 0 <= i && j == i + 1 && j < |s| ==> s[i] != ' ' || s[j] != ' '
  }

  // ------------------------------------------------------------- the operations

  method NormalizeTitle(s: string) returns (out: string)
    ensures out == Join(Words(s))
  {
    out := "";
    var prevSpace := true;
    for i := 0 to |s|
      invariant prevSpace == !EndsInWord(s[..i])
      invariant out == Rendered(Words(s[..i]), !prevSpace)
    {
      assert s[..i + 1] == s[..i] + [s[i]];
      WordsSnoc(s[..i], s[i]);
      WordsAreWords(s[..i]);
      var r := Lower(s[i]);
      RenderedGrow(Words(s[..i]), !prevSpace, r);
      if Alnum(r) {
        out := out + [r];
        prevSpace := false;
      } else if !prevSpace {
        out := out + " ";
        prevSpace := true;
      }
    }
    assert s[..|s|] == s;
    WordsAreWords(s);
    if Words(s) != [] {
      JoinEnds(Words(s));
    }
    var n := |out|;
    if n > 0 && out[n - 1] == ' ' {
      out := out[..n - 1];
    }
  }

  predicate TitleMatches(airing: string, series: string) {
    if series == "" || airing == "" then false
    else if airing == series then true
    else series + " " <= airing
  }

  // ---------------------------------------------------------- joining and words

  lemma {:induction false} WordsAreWords(s: string)
    ensures AreWords(Words(s))
    ensures EndsInWord(s) ==> Words(s) != []
  {
    if s != "" {
      WordsAreWords(s[..|s| - 1]);
    }
  }

  lemma JoinSnoc(ws: seq<string>, w: string)
    ensures Join(ws + [w]) == if ws == [] then w else Join(ws) + " " + w
  {
    assert (ws + [w])[..|ws|] == ws;
  }

  lemma JoinLonger(front: seq<string>, last: string, tail: string)
    ensures Join(front + [last + tail]) == Join(front + [last]) + tail
  {
    JoinSnoc(front, last);
    JoinSnoc(front, last + tail);
    if front != [] {
      var j := Join(front) + " ";
      assert j + (last + tail) == j + last + tail;
    }
  }

  /** Writing on after a last word lengthens that word. */
  lemma JoinExtend(ws: seq<string>, tail: string)
    requires ws != []
    ensures Join(ws[..|ws| - 1] + [ws[|ws| - 1] + tail]) == Join(ws) + tail
  {
    var front, last := ws[..|ws| - 1], ws[|ws| - 1];
    assert ws == front + [last];
    JoinLonger(front, last, tail);
  }

  /** What normalizeTitle's buffer holds: the words so far, and a space once the
      last of them has ended. */
  function Rendered(ws: seq<string>, open: bool): string {
    Join(ws) + if !open && ws != [] then " " else ""
  }

  lemma RenderedGrow(ws: seq<string>, open: bool, c: char)
    requires open ==> ws != []
    ensures Alnum(c) ==> Rendered(Grow(ws, open, c), true) == Rendered(ws, open) + [c]
    ensures !Alnum(c) && open ==> Rendered(Grow(ws, open, c), false) == Rendered(ws, open) + " "
    ensures !Alnum(c) && !open ==> Rendered(Grow(ws, open, c), false) == Rendered(ws, open)
  {
    if Alnum(c) {
      if open {
        JoinExtend(ws, [c]);
      } else {
        assert (ws + [[c]])[..|ws|] == ws;
      }
    }
  }

  lemma WordsSnoc(s: string, c: char)
    ensures Words(s + [c]) == Grow(Words(s), EndsInWord(s), Lower(c))
    ensures EndsInWord(s + [c]) == Alnum(Lower(c))
  {
    assert (s + [c])[..|s|] == s;
  }

  lemma GrowAfter(ps: seq<string>, ws: seq<string>, open: bool, c: char)
    requires open ==> ws != []
    ensures Grow(ps + ws, open, c) == ps + Grow(ws, open, c)
  {
    if open {
      var both := ps + ws;
      assert both[..|both| - 1] == ps + ws[..|ws| - 1];
    }
  }

  lemma {:induction false} JoinEnds(ws: seq<string>)
    requires AreWords(ws) && ws != []
    ensures Join(ws) != ""
    ensures Alnum(Join(ws)[0]) && Alnum(Join(ws)[|Join(ws)| - 1])
  {
    assert IsWord(ws[|ws| - 1]);
    if |ws| > 1 {
      JoinEnds(ws[..|ws| - 1]);
    }
  }

  lemma WordMore(s: string, ws: seq<string>, w: string, c: char)
    requires Words(s) == ws + [w] && EndsInWord(s) && Alnum(c)
    ensures Words(s + [c]) == ws + [w + [c]] && EndsInWord(s + [c])
  {
    WordsSnoc(s, c);
    assert (ws + [w])[..|ws|] == ws;
  }

  lemma WordStart(s: string, c: char)
    requires !EndsInWord(s) && Alnum(c)
    ensures Words(s + [c]) == Words(s) + [[c]] && EndsInWord(s + [c])
  {
    WordsSnoc(s, c);
  }

  lemma SplitLast(s: string, w: string)
    requires w != ""
    ensures w == w[..|w| - 1] + [w[|w| - 1]] && s + w == s + w[..|w| - 1] + [w[|w| - 1]]
  {
  }

  lemma FrontIsWord(w: string)
    requires IsWord(w) && |w| > 1
    ensures IsWord(w[..|w| - 1]) && Alnum(w[|w| - 1])
  {
  }

  lemma {:induction false} WordsOfWord(s: string, w: string)
    requires IsWord(w) && !EndsInWord(s)
    ensures Words(s + w) == Words(s) + [w] && EndsInWord(s + w)
  {
    SplitLast(s, w);
    if |w| == 1 {
      WordStart(s, w[0]);
      assert s + w[..0] == s;
    } else {
      FrontIsWord(w);
      WordsOfWord(s, w[..|w| - 1]);
      WordMore(s + w[..|w| - 1], Words(s), w[..|w| - 1], w[|w| - 1]);
    }
  }

  lemma WordsOfOne(w: string)
    requires IsWord(w)
    ensures Words(w) == [w]
  {
    WordsOfWord("", w);
    assert "" + w == w;
    assert Words("") + [w] == [w];
  }

  /** Reading the words back from a join gives the words that were joined. */
  lemma {:induction false} WordsOfJoin(ws: seq<string>)
    requires AreWords(ws)
    ensures Words(Join(ws)) == ws
  {
    if |ws| == 1 {
      WordsOfOne(ws[0]);
    } else if |ws| > 1 {
      var front, last := ws[..|ws| - 1], ws[|ws| - 1];
      assert ws == front + [last];
      WordsOfJoin(front);
      WordsOfOne(last);
      PartsExact(Join(front), ' ', last);
    }
  }

  // ------------------------------------------------------------ what normalizing keeps

  /** The characters a title keeps: letters, digits, and the Kelvin sign and the dotted
      capital I, which lower-casing turns into letters. */
  predicate Kept(c: char) {
    || 'a' <= c <= 'z' || 'A' <= c <= 'Z' || '0' <= c <= '9' || c as int == 0x212A || c as int == 0x0130
  }

  /** Capitals become the small letters they stand over; small letters and digits stay. */
  lemma LowerExact(c: char)
    ensures Alnum(Lower(c)) <==> Kept(c)
    ensures 'A' <= c <= 'Z' ==> Lower(c) as int - 'a' as int == c as int - 'A' as int
    ensures 'a' <= c <= 'z' || '0' <= c <= '9' ==> Lower(c) == c
  {
  }

  /** Any other character parts two titles without touching the words of either. */
  lemma {:induction false} PartsExact(p: string, sep: char, q: string)
    requires !Kept(sep)
    ensures Words(p + [sep] + q) == Words(p) + Words(q)
    decreases q
  {
    LowerExact(sep);
    if q == "" {
      WordsSnoc(p, sep);
      assert p + [sep] + q == p + [sep];
    } else {
      var front, c := q[..|q| - 1], q[|q| - 1];
      PartsExact(p, sep, front);
      SplitLast(p + [sep], q);
      WordsSnoc(p + [sep] + front, c);
      WordsSnoc(front, c);
      WordsSnoc(p, sep);
      assert front == "" ==> p + [sep] + front == p + [sep];
      assert EndsInWord(p + [sep] + front) == EndsInWord(front);
      WordsAreWords(front);
      GrowAfter(Words(p), Words(front), EndsInWord(front), Lower(c));
    }
  }

  /** And kept characters in a row are one word, each lowered. */
  lemma {:induction false} WordExact(w: string) returns (v: string)
    requires w != "" && forall i :: 0 <= i < |w| ==> Kept(w[i])
    ensures Words(w) == [v] && EndsInWord(w) && |v| == |w| && forall i :: 0 <= i < |w| ==> v[i] == Lower(w[i])
  {
    var front, c := w[..|w| - 1], w[|w| - 1];
    LowerExact(c);
    if front == "" {
      v := [Lower(c)];
      assert Words(w) == Words("") + [[Lower(c)]];
    } else {
      var u := WordExact(front);
      v := u + [Lower(c)];
      assert Words(w) == [u][..0] + [u + [Lower(c)]];
    }
  }

  // ---------------------------------------------------------------- the theorems

  lemma NormalizeIdempotent(s: string)
    ensures Join(Words(Join(Words(s)))) == Join(Words(s))
  {
    WordsAreWords(s);
    WordsOfJoin(Words(s));
  }

  lemma {:induction false} JoinCanonical(ws: seq<string>)
    requires AreWords(ws)
    ensures Canonical(Join(ws))
  {
    if ws != [] {
      assert IsWord(ws[|ws| - 1]);
      JoinEnds(ws);
      if |ws| > 1 {
        JoinCanonical(ws[..|ws| - 1]);
        JoinEnds(ws[..|ws| - 1]);
      }
    }
  }

  /** Canonical but for a space at the end. */
  ghost predicate Spaced(s: string) {
    && (forall i :: 0 <= i < |s| ==> Alnum(s[i]) || s[i] == ' ')
    && (s != "" ==> s[0] != ' ')
    && forall i, j :: 0 <= i && j == i + 1 && j < |s| ==> s[i] != ' ' || s[j] != ' '
  }

  lemma {:induction false} SpacedIsRendered(s: string)
    requires Spaced(s)
    ensures s == Rendered(Words(s), EndsInWord(s))
  {
    if s != "" {
      var front, c := s[..|s| - 1], s[|s| - 1];
      SpacedIsRendered(front);
      assert s == front + [c];
      WordsSnoc(front, c);
      WordsAreWords(front);
      RenderedGrow(Words(front), EndsInWord(front), Lower(c));
      if c == ' ' {
        assert front[|front| - 1] != ' ';
        assert EndsInWord(front);
      }
    }
  }

  /** The normal forms are exactly the canonical strings: normalizing yields one
      and leaves one alone. */
  lemma NormalIffCanonical(s: string)
    ensures Canonical(Join(Words(s)))
    ensures Canonical(s) <==> Join(Words(s)) == s
  {
    WordsAreWords(s);
    JoinCanonical(Words(s));
    if Canonical(s) {
      SpacedIsRendered(s);
      assert s != "" ==> Alnum(s[|s| - 1]);
    }
  }

  lemma {:induction false} JoinSplit(ws: seq<string>, k: nat)
    requires 0 < k < |ws|
    ensures Join(ws) == Join(ws[..k]) + " " + Join(ws[k..])
  {
    var n := |ws| - 1;
    var last := ws[n];
    if k == n {
      assert ws[k..] == [last];
    } else {
      JoinSplit(ws[..n], k);
      assert ws[..n][..k] == ws[..k];
      assert ws[k..][..n - k] == ws[..n][k..];
      assert ws[k..][n - k] == last;
    }
  }

  lemma LongerJoin(a: seq<string>, s: seq<string>)
    requires s != [] && s <= a && s != a
    ensures Join(s) + " " <= Join(a)
  {
    JoinSplit(a, |s|);
    assert a[..|s|] == s;
  }

  lemma PrefixOfJoin(a: seq<string>, s: seq<string>)
    requires AreWords(a) && AreWords(s) && Join(s) + " " <= Join(a)
    ensures s <= a
  {
    var rest := Join(a)[|Join(s) + " "|..];
    assert Join(a) == Join(s) + " " + rest;
    PartsExact(Join(s), ' ', rest);
    WordsOfJoin(a);
    WordsOfJoin(s);
  }

  /** On normal forms, titleMatches holds exactly when the series' words are a
      non-empty prefix of the airing's words. */
  lemma MatchesIffWordPrefix(airing: string, series: string)
    ensures TitleMatches(Join(Words(airing)), Join(Words(series)))
      <==> Words(series) != [] && Words(series) <= Words(airing)
  {
    var a, s := Words(airing), Words(series);
    WordsAreWords(airing);
    WordsAreWords(series);
    WordsOfJoin(a);
    WordsOfJoin(s);
    if a != [] {
      JoinEnds(a);
    }
    if s != [] {
      JoinEnds(s);
      if s <= a && s != a {
        LongerJoin(a, s);
      }
      if Join(s) + " " <= Join(a) {
        PrefixOfJoin(a, s);
      }
    }
  }
}
