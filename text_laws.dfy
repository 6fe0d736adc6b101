/** Laws relating `str.split()`, `" ".join(...)` and `str.strip()` on the
    text instructions: joined words split back into the same words, and
    single-spaced text joins back from its words. */
module TextLaws {
  import opened Text

  /** A line whose text has no whitespace at its ends loses only its newline. */
  lemma StripLine(text: string)
    requires text != [] && !IsSpace(text[0]) && !IsSpace(text[|text| - 1])
    ensures Strip(text + "\n") == text
  {
    assert (text + "\n")[0] == text[0];
    assert TrimLeft(text + "\n") == text + "\n";
    TrimRightTrailing(text, "\n");
  }

  lemma RStripOneComma(w: string)
    requires w != [] && w[|w| - 1] != ','
    ensures RStripComma(w + ",") == w
  {
    assert (w + ",")[..|w + ","| - 1] == w;
  }

  lemma JoinSpaceCons(ws: seq<string>)
    requires |ws| > 1
    ensures JoinSpace(ws) == ws[0] + ([' '] + JoinSpace(ws[1..]))
  {
  }

  /** A word, a space and more text split into the word and the rest's words. */
  lemma SplitWordSpace(w: string, rest: string)
    requires w != [] && NoSpace(w)
    ensures Split(w + ([' '] + rest)) == [w] + Split(rest)
  {
    SplitWord(w, [' '] + rest);
    SplitSpace(' ', rest);
  }

  lemma SplitOneWord(w: string)
    requires w != [] && NoSpace(w)
    ensures Split(w) == [w]
  {
    SplitWord(w, "");
    assert w + "" == w;
  }

  lemma SplitJoinCons(ws: seq<string>)
    requires |ws| > 1 && ws[0] != [] && NoSpace(ws[0])
    ensures Split(JoinSpace(ws)) == [ws[0]] + Split(JoinSpace(ws[1..]))
  {
    JoinSpaceCons(ws);
    SplitWordSpace(ws[0], JoinSpace(ws[1..]));
  }

  /** Splitting words joined by single spaces gives the words back. */
  lemma {:induction false} SplitJoin(ws: seq<string>)
    requires Words(ws)
    ensures Split(JoinSpace(ws)) == ws
    decreases |ws|
  {
    if |ws| == 1 {
      assert ws[0] != [] && NoSpace(ws[0]);
      SplitJoinOne(ws);
    } else if |ws| > 1 {
      WordsTail(ws);
      SplitJoin(ws[1..]);
      assert ws[0] != [] && NoSpace(ws[0]);
      SplitJoinMore(ws);
    }
  }

  lemma SplitJoinOne(ws: seq<string>)
    requires |ws| == 1 && ws[0] != [] && NoSpace(ws[0])
    ensures Split(JoinSpace(ws)) == ws
  {
    assert JoinSpace(ws) == ws[0];
    SplitOneWord(ws[0]);
    assert [ws[0]] == ws;
  }

  lemma SplitJoinMore(ws: seq<string>)
    requires |ws| > 1 && ws[0] != [] && NoSpace(ws[0]) && Split(JoinSpace(ws[1..])) == ws[1..]
    ensures Split(JoinSpace(ws)) == ws
  {
    SplitJoinCons(ws);
    assert [ws[0]] + ws[1..] == ws;
  }

  lemma WordsTail(ws: seq<string>)
    requires ws != [] && Words(ws)
    ensures Words(ws[1..])
  {
    forall k | 0 <= k < |ws[1..]|
      ensures ws[1..][k] != [] && NoSpace(ws[1..][k])
    {
      assert ws[1..][k] == ws[k + 1];
    }
  }

  /** Joined words start with the first word's first character and end
      with the last word's last character. */
  lemma {:induction false} JoinSpaceEnds(ws: seq<string>)
    requires ws != [] && Words(ws)
    ensures var j := JoinSpace(ws); var last := ws[|ws| - 1];
            j != [] && j[0] == ws[0][0] && j[|j| - 1] == last[|last| - 1]
    decreases |ws|
  {
    assert ws[0] != [];
    if |ws| > 1 {
      WordsTail(ws);
      JoinSpaceEnds(ws[1..]);
      JoinSpaceCons(ws);
    }
  }

  /** Text made of words separated by single spaces, with no whitespace at
      either end. */
  predicate SingleSpaced(s: string)
    decreases |s|
  {
    s == [] ||
      (!IsSpace(s[0]) &&
       var n := WordLength(s);
       n == |s| || (n + 1 < |s| && s[n] == ' ' && SingleSpaced(s[n + 1..])))
  }

  /** Joining the words of single-spaced text gives the text back. */
  lemma {:induction false} JoinSplit(s: string)
    requires SingleSpaced(s)
    ensures JoinSpace(Split(s)) == s
    decreases |s|
  {
    if s != [] {
      var n := WordLength(s);
      SplitFirstWord(s);
      if n == |s| {
        assert s[n..] == [];
        assert s[..n] == s;
      } else {
        JoinSplit(s[n + 1..]);
        JoinSplitStep(s, n);
      }
    }
  }

  /** One step of `JoinSplit`: the first word, one space, and the rest. */
  lemma JoinSplitStep(s: string, n: nat)
    requires n + 1 < |s| && s[n] == ' ' && s[n + 1..] != []
    requires Split(s) == [s[..n]] + Split(s[n..])
    requires JoinSpace(Split(s[n + 1..])) == s[n + 1..]
    ensures JoinSpace(Split(s)) == s
  {
    var t := s[n + 1..];
    SkipSpace(s, n);
    JoinCons(s[..n], t, Split(t));
    Glue(s, n);
  }

  lemma SplitFirstWord(s: string)
    requires s != [] && !IsSpace(s[0])
    ensures WordLength(s) > 0
    ensures Split(s) == [s[..WordLength(s)]] + Split(s[WordLength(s)..])
  {
  }

  lemma JoinCons(w: string, t: string, rest: seq<string>)
    requires JoinSpace(rest) == t && t != []
    ensures JoinSpace([w] + rest) == w + " " + t
  {
    assert rest != [];
    assert ([w] + rest)[1..] == rest;
  }
  lemma SkipSpace(s: string, n: nat)
    requires n + 1 < |s| && s[n] == ' '
    ensures Split(s[n..]) == Split(s[n+1..])
  {
    assert s[n..] == [' '] + s[n + 1..];
    SplitSpace(' ', s[n + 1..]);
  }
  lemma Glue(s: string, n: nat)
    requires n + 1 < |s| && s[n] == ' '
    ensures s == s[..n] + " " + s[n + 1..]
  {
  }
}
