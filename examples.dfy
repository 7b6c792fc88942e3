/**
 Scans of small concrete texts, showing how the loop of `main` treats fences, single
 backticks and the end of the text.
 */
module ScannerExamples {
  import opened Scanner

  /** A text with no backtick yields no block and no panic. */
  lemma NoCode()
    ensures Scan("no code\n") == Finished([])
  {
  }

  /** A fence followed by whitespace: the tag is read, the body runs to the next backtick. */
  lemma OneBlock()
    ensures Scan("```c\nx``` ") == Finished([Extracted(SourceCode("x", "c"), Span(0, 3, 4, 5, 6, 9))])
  {
    PassFinds("```c\nx``` ", 0, 0, 4, 5, 6, 9);
    assert "```c\nx``` "[5..6] == "x" && "```c\nx``` "[3..4] == "c";
    assert Pass("```c\nx``` ", 9) == NoMoreCode;
  }

  /** A text that ends right after the closing fence panics while skipping the rest of that token. */
  lemma FenceAtEnd()
    ensures Scan("```c\nx```") == Panicked(TrailerRunsOff, 9, [])
  {
    PassTrailerRunsOff("```c\nx```", 0, 0, 4, 5, 6);
  }

  /** A single backtick inside a body ends the body; what follows it up to whitespace is skipped. */
  lemma BacktickInBody()
    ensures Scan("```c\nx`y\n```\n") == Finished([Extracted(SourceCode("x", "c"), Span(0, 3, 4, 5, 6, 12))])
  {
    PassFinds("```c\nx`y\n```\n", 0, 0, 4, 5, 6, 12);
    assert "```c\nx`y\n```\n"[5..6] == "x" && "```c\nx`y\n```\n"[3..4] == "c";
    assert Pass("```c\nx`y\n```\n", 12) == NoMoreCode;
  }

  /** A single backtick in prose opens a block; with no backtick after it, the body search panics. */
  lemma InlineCode()
    ensures Scan("a `b` c\n") == Panicked(BodyUnterminated, 8, [])
  {
    assert Seek("a `b` c\n", 0, 7, Backtick) == Some(2);
    PassBodyUnterminated("a `b` c\n", 0, 2, 5, 6);
  }

  /** A lone fence: the three skipped characters reach the end before any whitespace. */
  lemma LoneFence()
    ensures Scan("```") == Panicked(LanguageRunsOff, 3, [])
  {
  }
}
