/**
 * The tokenizer and token-by-token conversion of CvnssConverter.SplitStringLikeJs and
 * ConvertTextCvnToCqn, for any delimiter test and any token conversion: a text is cut
 * into one-character delimiter tokens and the maximal runs of other characters between
 * them, and the converted text is the concatenation of the tokens' conversions.
 */
module Tokenizer {
  import opened Wrappers

  function Concat(ts: seq<string>): string
    decreases |ts|
  {
    if |ts| == 0 then "" else Concat(ts[..|ts| - 1]) + ts[|ts| - 1]
  }

  /** The loop state after reading s: the tokens emitted and the word being read. */
  function SplitState(s: string, delim: char -> bool): (seq<string>, string)
    decreases |s|
  {
    if |s| == 0 then ([], "")
    else
      var st := SplitState(s[..|s| - 1], delim);
      var ch := s[|s| - 1];
      if delim(ch) then (st.0 + (if |st.1| > 0 then [st.1] else []) + [[ch]], "")
      else (st.0, st.1 + [ch])
  }

  /** The tokens of s: the emitted tokens and the word still being read. */
  function Tokens(s: string, delim: char -> bool): seq<string> {
    var st := SplitState(s, delim);
    st.0 + (if |st.1| > 0 then [st.1] else [])
  }

  predicate IsDelimiterToken(t: string, delim: char -> bool) {
    |t| == 1 && delim(t[0])
  }

  predicate IsWordToken(t: string, delim: char -> bool) {
    |t| > 0 && forall i | 0 <= i < |t| :: !delim(t[i])
  }

  /** Each token is one delimiter or a word, and no two words are next to each other. */
  predicate WellSplit(ts: seq<string>, delim: char -> bool) {
    && (forall i | 0 <= i < |ts| :: IsDelimiterToken(ts[i], delim) || IsWordToken(ts[i], delim))
    && (forall i | 0 <= i < |ts| - 1 :: IsDelimiterToken(ts[i], delim) || IsDelimiterToken(ts[i + 1], delim))
  }

  lemma WellSplitSnoc(ts: seq<string>, t: string, delim: char -> bool)
    requires WellSplit(ts, delim)
    requires IsDelimiterToken(t, delim) || IsWordToken(t, delim)
    requires |ts| == 0 || IsDelimiterToken(ts[|ts| - 1], delim) || IsDelimiterToken(t, delim)
    ensures WellSplit(ts + [t], delim)
  {
    var r := ts + [t];
    assert forall i | 0 <= i < |ts| :: r[i] == ts[i];
  }

  lemma ConcatSnoc(ts: seq<string>, t: string)
    ensures Concat(ts + [t]) == Concat(ts) + t
  {
    assert (ts + [t])[..|ts|] == ts;
  }

  /** What the loop has read is what it emitted followed by the word being read. */
  lemma {:induction false} SplitStateConcat(s: string, delim: char -> bool)
    ensures Concat(SplitState(s, delim).0) + SplitState(s, delim).1 == s
    ensures SplitState(s, delim).1 == "" <==> |s| == 0 || delim(s[|s| - 1])
    decreases |s|
  {
    if |s| > 0 {
      var s0 := s[..|s| - 1];
      var ch := s[|s| - 1];
      SplitStateConcat(s0, delim);
      var t0, c0 := SplitState(s0, delim).0, SplitState(s0, delim).1;
      assert s == s0 + [ch];
      if delim(ch) {
        var t1 := t0 + (if |c0| > 0 then [c0] else []);
        assert Concat(t1) == s0 by {
          if |c0| > 0 {
            ConcatSnoc(t0, c0);
          } else {
            assert t1 == t0 && Concat(t0) + c0 == Concat(t0);
          }
        }
        ConcatSnoc(t1, [ch]);
        assert SplitState(s, delim) == (t1 + [[ch]], "");
        assert Concat(t1 + [[ch]]) + "" == s0 + [ch];
      } else {
        assert SplitState(s, delim) == (t0, c0 + [ch]);
        assert (Concat(t0) + c0) + [ch] == Concat(t0) + (c0 + [ch]);
      }
    }
  }

  /** The emitted tokens are well split and end in a delimiter; the word being read has none. */
  lemma {:induction false} SplitStateShape(s: string, delim: char -> bool)
    ensures WellSplit(SplitState(s, delim).0, delim)
    ensures var ts := SplitState(s, delim).0; |ts| > 0 ==> IsDelimiterToken(ts[|ts| - 1], delim)
    ensures SplitState(s, delim).1 == "" || IsWordToken(SplitState(s, delim).1, delim)
    decreases |s|
  {
    if |s| > 0 {
      var s0 := s[..|s| - 1];
      var ch := s[|s| - 1];
      SplitStateShape(s0, delim);
      var t0, c0 := SplitState(s0, delim).0, SplitState(s0, delim).1;
      if delim(ch) {
        var t1 := t0 + (if |c0| > 0 then [c0] else []);
        if |c0| > 0 {
          WellSplitSnoc(t0, c0, delim);
        } else {
          assert t1 == t0;
        }
        WellSplitSnoc(t1, [ch], delim);
      } else {
        var c1 := c0 + [ch];
        assert forall i | 0 <= i < |c0| :: c1[i] == c0[i];
      }
    }
  }

  lemma SplitStateSpec(s: string, delim: char -> bool)
    ensures Concat(SplitState(s, delim).0) + SplitState(s, delim).1 == s
    ensures WellSplit(SplitState(s, delim).0, delim)
    ensures var ts := SplitState(s, delim).0; |ts| > 0 ==> IsDelimiterToken(ts[|ts| - 1], delim)
    ensures SplitState(s, delim).1 == "" || IsWordToken(SplitState(s, delim).1, delim)
    ensures SplitState(s, delim).1 == "" <==> |s| == 0 || delim(s[|s| - 1])
  {
    SplitStateConcat(s, delim);
    SplitStateShape(s, delim);
  }

  /**
   * The tokens concatenate back to the text, each is a single delimiter or a non-empty
   * run without one, and no two runs are adjacent.
   */
  lemma TokensSpec(s: string, delim: char -> bool)
    ensures Concat(Tokens(s, delim)) == s
    ensures WellSplit(Tokens(s, delim), delim)
  {
    SplitStateSpec(s, delim);
    var ts, cur := SplitState(s, delim).0, SplitState(s, delim).1;
    if |cur| > 0 {
      WellSplitSnoc(ts, cur, delim);
      ConcatSnoc(ts, cur);
    } else {
      assert Tokens(s, delim) == ts;
    }
  }

  /** Reading a run of non-delimiters after a delimiter only extends the word being read. */
  lemma {:induction false} WordRun(s: string, w: string, delim: char -> bool)
    requires SplitState(s, delim).1 == ""
    requires forall i | 0 <= i < |w| :: !delim(w[i])
    ensures SplitState(s + w, delim) == (SplitState(s, delim).0, w)
    decreases |w|
  {
    if |w| > 0 {
      var w0 := w[..|w| - 1];
      assert forall i | 0 <= i < |w0| :: w0[i] == w[i];
      WordRun(s, w0, delim);
      assert (s + w)[..|s + w| - 1] == s + w0;
      assert (s + w)[|s + w| - 1] == w[|w| - 1];
      assert !delim(w[|w| - 1]);
      assert w0 + [w[|w| - 1]] == w;
    } else {
      assert s + w == s;
    }
  }

  /** A text that is one run of non-delimiters is a single token. */
  lemma SingleWord(w: string, delim: char -> bool)
    requires IsWordToken(w, delim)
    ensures Tokens(w, delim) == [w]
  {
    WordRun("", w, delim);
    assert "" + w == w;
  }

  /** A delimiter read after s0 adds itself as one token. */
  lemma TokensAfterDelimiter(s0: string, c: char, delim: char -> bool)
    requires delim(c)
    ensures Tokens(s0 + [c], delim) == Tokens(s0, delim) + [[c]]
  {
    var s := s0 + [c];
    assert s[..|s| - 1] == s0;
    assert s[|s| - 1] == c;
  }

  /** A word read after a delimiter (or at the start) adds itself as one token. */
  lemma TokensAfterWord(s0: string, x: string, delim: char -> bool)
    requires IsWordToken(x, delim) && SplitState(s0, delim).1 == ""
    ensures Tokens(s0 + x, delim) == Tokens(s0, delim) + [x]
  {
    WordRun(s0, x, delim);
  }

  /** Dropping the last token keeps the split well formed. */
  lemma WellSplitInit(ts: seq<string>, delim: char -> bool)
    requires |ts| > 0 && WellSplit(ts, delim)
    ensures var n := |ts| - 1;
      && WellSplit(ts[..n], delim)
      && (IsDelimiterToken(ts[n], delim) || IsWordToken(ts[n], delim))
      && (n > 0 && !IsDelimiterToken(ts[n], delim) ==> IsDelimiterToken(ts[..n][n - 1], delim))
  {
    var n := |ts| - 1;
    assert forall i | 0 <= i < n :: ts[..n][i] == ts[i];
  }

  /** Text whose last token is a delimiter ends in that delimiter. */
  lemma ConcatEndsWithDelimiter(ts: seq<string>, delim: char -> bool)
    requires |ts| > 0 && IsDelimiterToken(ts[|ts| - 1], delim)
    ensures var s := Concat(ts); |s| > 0 && delim(s[|s| - 1])
  {
    var n := |ts| - 1;
    assert ts == ts[..n] + [ts[n]];
    ConcatSnoc(ts[..n], ts[n]);
  }

  /**
   * The tokens are the only split of that shape: any list of tokens that concatenates to
   * s, with single delimiters and runs that never touch, is Tokens(s).
   */
  lemma {:induction false} TokensUnique(s: string, ts: seq<string>, delim: char -> bool)
    requires Concat(ts) == s && WellSplit(ts, delim)
    ensures ts == Tokens(s, delim)
    decreases |ts|
  {
    if |ts| > 0 {
      var n := |ts| - 1;
      var init, x := ts[..n], ts[n];
      var s0 := Concat(init);
      WellSplitInit(ts, delim);
      TokensUnique(s0, init, delim);
      assert ts == init + [x];
      assert s == s0 + x;
      if IsDelimiterToken(x, delim) {
        assert x == [x[0]];
        TokensAfterDelimiter(s0, x[0], delim);
      } else {
        SplitStateConcat(s0, delim);
        if n > 0 {
          ConcatEndsWithDelimiter(init, delim);
        }
        TokensAfterWord(s0, x, delim);
      }
    }
  }

  /** The conversion of a list of tokens: None as soon as one token's conversion fails. */
  function ConvertAll(ts: seq<string>, conv: string -> Option<string>): Option<string>
    decreases |ts|
  {
    if |ts| == 0 then Some("")
    else
      match ConvertAll(ts[..|ts| - 1], conv)
      case None => None
      case Some(prefix) =>
        match conv(ts[|ts| - 1])
        case None => None
        case Some(t) => Some(prefix + t)
  }

  lemma ConvertAllStep(ts: seq<string>, n: nat, conv: string -> Option<string>, p: string, t: string)
    requires n < |ts| && ConvertAll(ts[..n], conv) == Some(p) && conv(ts[n]) == Some(t)
    ensures ConvertAll(ts[..n + 1], conv) == Some(p + t)
  {
    assert ts[..n + 1][..n] == ts[..n];
  }

  /** What each token contributes when its conversion succeeds. */
  function Pieces(ts: seq<string>, conv: string -> Option<string>): (ps: seq<string>)
    ensures |ps| == |ts|
  {
    seq(|ts|, i requires 0 <= i < |ts| => match conv(ts[i]) case Some(x) => x case None => "")
  }

  /**
   * The conversion succeeds exactly when every token converts, and then it is the
   * concatenation of the tokens' conversions, in order.
   */
  lemma {:induction false} ConvertAllSpec(ts: seq<string>, conv: string -> Option<string>)
    ensures ConvertAll(ts, conv).Some? <==> forall i | 0 <= i < |ts| :: conv(ts[i]).Some?
    ensures ConvertAll(ts, conv).Some? ==>
      ConvertAll(ts, conv).value == Concat(Pieces(ts, conv))
      && forall i | 0 <= i < |ts| :: conv(ts[i]) == Some(Pieces(ts, conv)[i])
    decreases |ts|
  {
    if |ts| > 0 {
      var n := |ts| - 1;
      var init := ts[..n];
      ConvertAllSpec(init, conv);
      assert forall i | 0 <= i < n :: init[i] == ts[i];
      assert Pieces(ts, conv)[..n] == Pieces(init, conv);
    }
  }
}
