/**
 * Worked responses for the extraction of run.py:31, 42-47.  Each string is
 * pinned by a `requires` so that the verifier reasons about its characters
 * instead of unfolding the matcher on a literal.  For a response with a block,
 * small lemmas show that one match exists, narrow down every other match, and
 * conclude that the first is `Reported`; for a response without one, that no
 * match exists.
 */
module ExtractionExamples {

  import opened Extraction

  // ---- prose, then a fenced `python` block --------------------------------

  const Explained := "Explanation...\n```python\ndef f(): return 1\n```"

  lemma ExplainedFences(s: string, i: nat)
    requires s == Explained && FenceAt(s, i)
    ensures i == 15 || i == 43
  {
  }

  lemma ExplainedMatch(s: string)
    requires s == Explained
    ensures IsMatch(s, Match(15, 24, 25, 42, 43))
  {
    assert FenceAt(s, 15) && LongLabelAt(s, 18) && FenceAt(s, 43);
    assert SpaceAt(s, 24) && SpaceAt(s, 42);
  }

  lemma ExplainedCandidates(s: string, m': Match)
    requires s == Explained && IsMatch(s, m')
    ensures m'.start == 15
    ensures m'.labelEnd == 24 ==> m'.bodyStart <= 25
    ensures m'.labelEnd == 24 && m'.bodyStart == 25 ==> 42 <= m'.bodyEnd
  {
    ExplainedFences(s, m'.start);
    ExplainedFences(s, m'.closeStart);
    assert !SpaceAt(s, 25) && !SpaceAt(s, 41);
  }

  lemma ExplainedReported(s: string)
    requires s == Explained
    ensures Reported(s, Match(15, 24, 25, 42, 43))
  {
    ExplainedMatch(s);
    forall m' | IsMatch(s, m')
      ensures m'.start == 15
      ensures m'.labelEnd == 24 ==> m'.bodyStart <= 25
      ensures m'.labelEnd == 24 && m'.bodyStart == 25 ==> 42 <= m'.bodyEnd
    {
      ExplainedCandidates(s, m');
    }
  }

  lemma ExplainedBody(s: string)
    requires s == Explained
    ensures s[25..42] == "def f(): return 1"
  {
  }

  /** Prose before a fenced `python` block: only the code is kept. */
  lemma ExplainedKeepsCode(s: string)
    requires s == Explained
    ensures Extract(s) == "def f(): return 1"
  {
    ExplainedReported(s);
    ExplainedBody(s);
    ExtractMatched(s, Match(15, 24, 25, 42, 43));
  }

  // ---- no fence at all ----------------------------------------------------

  lemma UnfencedNoMatch(s: string)
    requires s == "def f(): return 1"
    ensures forall m :: !IsMatch(s, m)
  {
    forall m: Match ensures !FenceAt(s, m.start) {
    }
  }

  /** No fence at all: the response is the completion, unchanged. */
  lemma UnfencedKept(s: string)
    requires s == "def f(): return 1"
    ensures Extract(s) == s
  {
    UnfencedNoMatch(s);
    FallbackIff(s);
  }

  // ---- an upper-case label --------------------------------------------------

  lemma UpperCaseNoMatch(s: string)
    requires s == "```PYTHON\nx = 1\n```"
    ensures forall m :: !IsMatch(s, m)
  {
    forall m: Match ensures !(FenceAt(s, m.start) && ShortLabelAt(s, m.start + 3)) {
    }
  }

  /** Only the first letter of the label is case-flexible: `PYTHON` opens no block. */
  lemma UpperCaseLabelKept(s: string)
    requires s == "```PYTHON\nx = 1\n```"
    ensures Extract(s) == s
  {
    UpperCaseNoMatch(s);
    FallbackIff(s);
  }

  // ---- label directly followed by the closing fence -------------------------

  lemma BareLabelReported(s: string)
    requires s == "```python```"
    ensures Reported(s, Match(0, 5, 5, 9, 9))
  {
    assert IsMatch(s, Match(0, 5, 5, 9, 9));
    forall m' | IsMatch(s, m')
      ensures m'.start == 0 && m'.labelEnd == 5 && m'.bodyStart == 5 && m'.bodyEnd == 9
    {
      assert FenceAt(s, m'.closeStart) ==> m'.closeStart == 0 || m'.closeStart == 9;
      assert !SpaceAt(s, 5) && !SpaceAt(s, 8);
    }
  }

  /** With nothing between label and closing fence, `[Pp]ython` cannot match,
      and the engine falls back to `[Pp]y` with the body `thon`. */
  lemma BareLabelYieldsThon(s: string)
    requires s == "```python```"
    ensures Extract(s) == "thon"
  {
    BareLabelReported(s);
    ExtractMatched(s, Match(0, 5, 5, 9, 9));
    BareLabelBody(s);
  }

  lemma BareLabelBody(s: string)
    requires s == "```python```"
    ensures s[5..9] == "thon"
  {
  }

  // ---- a block holding only a newline ---------------------------------------

  lemma NewlineOnlyCandidates(s: string, m': Match)
    requires s == "```python\n```" && IsMatch(s, m')
    ensures m'.start == 0
    ensures m'.labelEnd == 9 ==> m'.bodyStart == 9
  {
    assert FenceAt(s, m'.start) ==> m'.start == 0 || m'.start == 10;
    assert FenceAt(s, m'.closeStart) ==> m'.closeStart == 0 || m'.closeStart == 10;
  }

  lemma NewlineOnlyReported(s: string)
    requires s == "```python\n```"
    ensures Reported(s, Match(0, 9, 9, 10, 10))
  {
    assert IsMatch(s, Match(0, 9, 9, 10, 10));
    forall m' | IsMatch(s, m')
      ensures m'.start == 0 && (m'.labelEnd == 9 ==> m'.bodyStart == 9)
    {
      NewlineOnlyCandidates(s, m');
    }
  }

  /** A block holding only a newline: the newline itself is the body, since
      the body needs one character and the leading `\s*` gives it back. */
  lemma NewlineOnlyBlock(s: string)
    requires s == "```python\n```"
    ensures Extract(s) == "\n"
  {
    NewlineOnlyReported(s);
    ExtractMatched(s, Match(0, 9, 9, 10, 10));
  }

  // ---- two blocks -----------------------------------------------------------

  const TwoBlocks := "```py\nx\n``` and ```python\ny\n```"

  lemma TwoBlocksMatch(s: string)
    requires s == TwoBlocks
    ensures IsMatch(s, Match(0, 5, 6, 7, 8))
  {
  }

  lemma TwoBlocksCandidates(s: string, m': Match)
    requires s == TwoBlocks && IsMatch(s, m') && m'.start == 0
    ensures m'.labelEnd == 5 && m'.bodyStart <= 6
  {
    assert !SpaceAt(s, 6) && s[5] != 't';
  }

  lemma TwoBlocksReported(s: string)
    requires s == TwoBlocks
    ensures Reported(s, Match(0, 5, 6, 7, 8))
  {
    TwoBlocksMatch(s);
    forall m' | IsMatch(s, m') && m'.start == 0
      ensures m'.labelEnd == 5 && m'.bodyStart <= 6
    {
      TwoBlocksCandidates(s, m');
    }
  }

  lemma TwoBlocksBody(s: string)
    requires s == TwoBlocks
    ensures s[6..7] == "x"
  {
    assert s[6] == 'x';
    assert s[6..7] == [s[6]];
  }

  /** Of two blocks, the first one is taken. */
  lemma FirstOfTwoBlocks(s: string)
    requires s == TwoBlocks
    ensures Extract(s) == "x"
  {
    TwoBlocksReported(s);
    TwoBlocksBody(s);
    ExtractMatched(s, Match(0, 5, 6, 7, 8));
  }
}
