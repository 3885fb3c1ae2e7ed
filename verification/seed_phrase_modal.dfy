/** The recovery-phrase modal (src/components/SeedPhraseModal/SeedPhraseModal.tsx):
    how the phrase is cut into the numbered words of the grid, and the copy
    button. */
module SeedPhraseModal {
  import opened Text

  /** `s.split(/\s+/)`: the pieces between maximal whitespace runs, read
      character by character. A leading run gives an empty first piece and a
      trailing run an empty last one, as in JavaScript. */
  function Words(s: string): (ws: seq<string>)
    ensures |ws| >= 1
    ensures forall i :: 0 <= i < |ws| ==> NoSpace(ws[i])
    decreases |s|
  {
    if |s| == 0 then [""]
    else if IsSpace(s[0]) then [""] + Words(TrimStart(s[1..]))
    else
      var ws := Words(s[1..]);
      NoSpaceConcat([s[0]], ws[0]);
      [[s[0]] + ws[0]] + ws[1..]
  }

  /** Each whitespace run replaced by one space. */
  function CollapseRuns(s: string): string
    decreases |s|
  {
    if |s| == 0 then ""
    else if IsSpace(s[0]) then " " + CollapseRuns(TrimStart(s[1..]))
    else [s[0]] + CollapseRuns(s[1..])
  }

  /** The phrase trimmed, then split at whitespace runs. */
  function MnemonicWords(mnemonic: string): (ws: seq<string>)
    ensures Trim(mnemonic) == "" ==> ws == [""]
    ensures Trim(mnemonic) != "" ==> forall i :: 0 <= i < |ws| ==> ws[i] != ""
    ensures forall i :: 0 <= i < |ws| ==> NoSpace(ws[i])
  {
    TrimmedWords(mnemonic);
    Words(Trim(mnemonic))
  }

  lemma TrimmedWords(mnemonic: string)
    ensures Trim(mnemonic) == "" ==> Words(Trim(mnemonic)) == [""]
    ensures Trim(mnemonic) != "" ==> forall i :: 0 <= i < |Words(Trim(mnemonic))| ==> Words(Trim(mnemonic))[i] != ""
  {
    TrimShape(mnemonic);
    if Trim(mnemonic) != "" { WordsNonEmpty(Trim(mnemonic)); }
  }

  // ---- the split against the collapse ---------------------------------------

  /** Prepending a character to the first piece prepends it to the join. */
  lemma JoinExtendFirst(c: char, ws: seq<string>, sep: string)
    requires |ws| >= 1
    ensures Join([[c] + ws[0]] + ws[1..], sep) == [c] + Join(ws, sep)
  {
    var vs := [[c] + ws[0]] + ws[1..];
    if |ws| > 1 {
      assert vs[0] == [c] + ws[0] && vs[1..] == ws[1..];
    }
  }

  /** Joining the words with single spaces is the whitespace collapse of
      the text, for every text. */
  lemma {:induction false} JoinWordsIsCollapse(s: string)
    ensures Join(Words(s), " ") == CollapseRuns(s)
    decreases |s|
  {
    if |s| > 0 {
      if IsSpace(s[0]) {
        var rest := TrimStart(s[1..]);
        JoinWordsIsCollapse(rest);
        var ws := Words(s);
        assert ws == [""] + Words(rest);
        assert ws[0] == "" && ws[1..] == Words(rest);
        assert Join(ws, " ") == "" + " " + Join(Words(rest), " ");
        assert CollapseRuns(s) == " " + CollapseRuns(rest);
      } else {
        var w := Words(s[1..]);
        JoinWordsIsCollapse(s[1..]);
        assert Words(s) == [[s[0]] + w[0]] + w[1..];
        JoinExtendFirst(s[0], w, " ");
        assert CollapseRuns(s) == [s[0]] + CollapseRuns(s[1..]);
      }
    }
  }

  /** A text that does not end in whitespace has no empty word after the
      first, and none at all when it does not start with whitespace either. */
  lemma {:induction false} WordsAfterFirst(s: string)
    requires s != "" && !IsSpace(s[|s| - 1])
    ensures forall i :: 1 <= i < |Words(s)| ==> Words(s)[i] != ""
    ensures !IsSpace(s[0]) ==> Words(s)[0] != ""
    decreases |s|
  {
    var t := s[1..];
    if !IsSpace(s[0]) {
      if t != "" {
        assert t[|t| - 1] == s[|s| - 1];
        WordsAfterFirst(t);
        ExtendedFirstNonEmpty(s[0], Words(t));
      }
    } else {
      assert t != "" && t[|t| - 1] == s[|s| - 1];
      var rest := TrimStart(t);
      TrimStartKeepsLast(t);
      WordsAfterFirst(rest);
      EmptyFrontRestNonEmpty(Words(rest));
    }
  }

  lemma ExtendedFirstNonEmpty(c: char, ws: seq<string>)
    requires |ws| >= 1 && forall i :: 1 <= i < |ws| ==> ws[i] != ""
    ensures var vs := [[c] + ws[0]] + ws[1..]; forall i :: 0 <= i < |vs| ==> vs[i] != ""
  {
    var vs := [[c] + ws[0]] + ws[1..];
    forall i | 0 <= i < |vs| ensures vs[i] != "" {
      if i > 0 { assert vs[i] == ws[i]; }
    }
  }

  lemma EmptyFrontRestNonEmpty(ws: seq<string>)
    requires forall i :: 0 <= i < |ws| ==> ws[i] != ""
    ensures var vs := [""] + ws; forall i :: 1 <= i < |vs| ==> vs[i] != ""
  {
    var vs := [""] + ws;
    forall i | 1 <= i < |vs| ensures vs[i] != "" {
      assert vs[i] == ws[i - 1];
    }
  }

  lemma WordsNonEmpty(s: string)
    requires s != "" && !IsSpace(s[0]) && !IsSpace(s[|s| - 1])
    ensures forall i :: 0 <= i < |Words(s)| ==> Words(s)[i] != ""
  {
    WordsAfterFirst(s);
  }

  /** Leading whitespace removal keeps a non-space last character. */
  lemma TrimStartKeepsLast(t: string)
    requires t != [] && !IsSpace(t[|t| - 1])
    ensures TrimStart(t) != [] && TrimStart(t)[|TrimStart(t)| - 1] == t[|t| - 1]
  {
  }

  /** A whitespace-free prefix becomes the front of the first word. */
  lemma {:induction false} WordsPrefix(a: string, t: string)
    requires NoSpace(a)
    ensures Words(a + t) == [a + Words(t)[0]] + Words(t)[1..]
    decreases |a|
  {
    if |a| == 0 {
      var ws := Words(t);
      assert a + t == t && a + ws[0] == ws[0];
      assert ws == [ws[0]] + ws[1..];
    } else {
      var s := a + t;
      assert s[0] == a[0] && !IsSpace(s[0]);
      assert s[1..] == a[1..] + t;
      WordsPrefix(a[1..], t);
      var ws, vs := Words(t), Words(a[1..] + t);
      assert vs[0] == a[1..] + ws[0] && vs[1..] == ws[1..];
      assert Words(s) == [[a[0]] + vs[0]] + vs[1..];
      assert [a[0]] + (a[1..] + ws[0]) == a + ws[0];
    }
  }

  /** Splitting single-space-joined words gives the words back. */
  lemma {:induction false} WordsOfJoin(ws: seq<string>)
    requires |ws| >= 1
    requires forall i :: 0 <= i < |ws| ==> ws[i] != "" && NoSpace(ws[i])
    ensures Words(Join(ws, " ")) == ws
    decreases |ws|
  {
    if |ws| == 1 {
      WordsPrefix(ws[0], "");
      assert ws[0] + "" == ws[0];
    } else {
      var tail := Join(ws[1..], " ");
      JoinStartsWith(ws[1..]);
      WordsOfJoin(ws[1..]);
      var gap := " " + tail;
      assert gap[1..] == tail;
      assert TrimStart(tail) == tail;
      assert Words(gap) == [""] + ws[1..];
      assert Join(ws, " ") == ws[0] + gap;
      WordsPrefix(ws[0], gap);
      assert ws[0] + "" == ws[0];
      assert ws == [ws[0]] + ws[1..];
    }
  }

  /** A join of non-empty words starts with the first word's first character. */
  lemma JoinStartsWith(ws: seq<string>)
    requires |ws| >= 1 && ws[0] != ""
    ensures Join(ws, " ") != "" && Join(ws, " ")[0] == ws[0][0]
  {
  }

  /** What the grid shows: the mnemonic's words in order, each with its
      1-based number. */
  function Grid(mnemonic: string): (cells: seq<(nat, string)>)
    ensures |cells| == |MnemonicWords(mnemonic)| >= 1
    ensures forall i :: 0 <= i < |cells| ==> cells[i].0 == i + 1 && cells[i].1 == MnemonicWords(mnemonic)[i]
  {
    var ws := MnemonicWords(mnemonic);
    seq(|ws|, i requires 0 <= i < |ws| => (i + 1, ws[i]))
  }

  /** Reading the grid's words back with single spaces gives the phrase
      with its whitespace runs collapsed. */
  lemma GridReadsBackPhrase(mnemonic: string)
    ensures Join(MnemonicWords(mnemonic), " ") == CollapseRuns(Trim(mnemonic))
  {
    JoinWordsIsCollapse(Trim(mnemonic));
  }

  /** The copy button: the text put on the clipboard, none for an empty
      phrase. */
  function CopyText(mnemonic: string): (r: seq<string>)
    ensures |r| <= 1
    ensures r == [] <==> mnemonic == ""
    ensures r != [] ==> r[0] == mnemonic
  {
    if mnemonic == "" then [] else [mnemonic]
  }
}
