/**
 A model of the fenced-code scanner of `main` in src/main.rs.

 The scanner walks one cursor over the characters of an in-memory text. Each pass
 of its outer loop looks for a backtick, jumps three characters past it, reads the
 language tag (a run of non-whitespace), skips whitespace, takes the body up to the
 next backtick, jumps three characters past that one and skips the rest of the
 token. Every character read at the cursor is an unchecked `nth(cur).unwrap()`; here
 reading past the end is a `Panicked` outcome instead of a crash.
 */
module Scanner {

  datatype Option<T> = None | Some(value: T)

  /** The record the loop computes for one block: its body and its language tag. */
  datatype SourceCode = SourceCode(src: string, language: string)

  /** Where the pieces of one block lie in the text (cursor values of the scan). */
  datatype Span = Span(
    tick: nat,       // the backtick that the open search stopped at
    langStart: nat,  // three characters past `tick`
    langEnd: nat,    // the whitespace that ends the language tag
    srcStart: nat,   // the first non-whitespace after the tag
    srcEnd: nat,     // the backtick that ends the body
    resume: nat)     // the whitespace after the closing token, where the next pass starts

  datatype Extracted = Extracted(code: SourceCode, at: Span)

  /** The points at which the source would panic. */
  datatype Panic =
    | EmptyInput        // `chars().count() - 1` underflows
    | LanguageRunsOff   // no whitespace after the language tag
    | HeaderRunsOff     // only whitespace after the language tag
    | BodyUnterminated  // no backtick after the body start
    | TrailerRunsOff    // no whitespace after the closing token

  /** What a whole scan yields: the blocks found, and whether it ended by the `break` or by a panic. */
  datatype Outcome =
    | Finished(items: seq<Extracted>)
    | Panicked(panic: Panic, at: nat, items: seq<Extracted>)
  {
    function Prefixed(p: seq<Extracted>): Outcome {
      match this
      case Finished(items) => Finished(p + items)
      case Panicked(panic, at, items) => Panicked(panic, at, p + items)
    }
  }

  lemma PrefixedTwice(o: Outcome, p: seq<Extracted>, q: seq<Extracted>)
    ensures o.Prefixed(q).Prefixed(p) == o.Prefixed(p + q)
  {
    assert p + (q + o.items) == (p + q) + o.items;
  }

  /** What one pass of the outer loop yields. */
  datatype PassResult =
    | NoMoreCode
    | Block(e: Extracted)
    | Crash(panic: Panic, at: nat)

  /** Rust's `char::is_whitespace`: the Unicode White_Space property. */
  predicate IsWhitespace(c: char)
    ensures c == ' ' || c == '\t' || c == '\n' || c == '\r' ==> IsWhitespace(c)
    ensures IsWhitespace(c) ==> c != '`' && !('0' <= c <= '9') && !('a' <= c <= 'z') && !('A' <= c <= 'Z')
  {
    var n := c as int;
    (0x09 <= n <= 0x0D) || n == 0x20 || n == 0x85 || n == 0xA0 || n == 0x1680 ||
    (0x2000 <= n <= 0x200A) || n == 0x2028 || n == 0x2029 || n == 0x202F ||
    n == 0x205F || n == 0x3000
  }

  /** The classes of character that end one of the scanner's inner loops. */
  datatype Target = Whitespace | NonWhitespace | Backtick

  predicate Hits(c: char, t: Target) {
    match t
    case Whitespace => IsWhitespace(c)
    case NonWhitespace => !IsWhitespace(c)
    case Backtick => c == '`'
  }

  /** No character of `text[from..to]` is of class `t`. */
  ghost predicate NoHit(text: string, from: nat, to: nat, t: Target)
    requires to <= |text|
  {
    forall k {:trigger Hits(text[k], t)} :: from <= k < to ==> !Hits(text[k], t)
  }

  /**
   The first index in `[from, limit)` whose character is of class `t`, if any: where
   a `while` loop that steps over characters not of class `t` stops.
   */
  function Seek(text: string, from: nat, limit: nat, t: Target): (r: Option<nat>)
    requires limit <= |text|
    ensures r.Some? ==> from <= r.value < limit && Hits(text[r.value], t)
    ensures r.Some? ==> NoHit(text, from, r.value, t)
    ensures r.None? ==> NoHit(text, from, limit, t)
    decreases limit - from
  {
    if from >= limit then None
    else if Hits(text[from], t) then Some(from)
    else Seek(text, from + 1, limit, t)
  }

  /** A loop that steps over a character not of class `t` still stops where it would have. */
  lemma SeekStep(text: string, from: nat, limit: nat, t: Target)
    requires from < limit <= |text| && !Hits(text[from], t)
    ensures Seek(text, from, limit, t) == Seek(text, from + 1, limit, t)
  {
  }

  /** The cursor value at which a loop started at `from` reads past the end of `text`. */
  function PastEnd(text: string, from: nat): nat {
    if from > |text| then from else |text|
  }

  /**
   `e` is the block that one pass of the outer loop extracts when it starts at cursor
   `from`: each field is where the corresponding loop of the pass stops.
   */
  ghost predicate Found(text: string, from: nat, e: Extracted)
    ensures Found(text, from, e) ==>
      from <= e.at.tick < e.at.langStart <= e.at.langEnd < e.at.srcStart <= e.at.srcEnd < e.at.resume < |text|
  {
    var s := e.at;
    && |text| > 0
    // the open search stops at the first backtick at or after `from`, before the last character
    && from <= s.tick < |text| - 1 && text[s.tick] == '`' && NoHit(text, from, s.tick, Backtick)
    // three characters are skipped unchecked; the tag is the run of non-whitespace after them
    && s.langStart == s.tick + 3
    && s.langStart <= s.langEnd < |text| && IsWhitespace(text[s.langEnd])
    && NoHit(text, s.langStart, s.langEnd, Whitespace)
    // whitespace is skipped up to the body
    && s.langEnd <= s.srcStart < |text| && !IsWhitespace(text[s.srcStart])
    && NoHit(text, s.langEnd, s.srcStart, NonWhitespace)
    // the body runs up to the next single backtick
    && s.srcStart <= s.srcEnd < |text| && text[s.srcEnd] == '`'
    && NoHit(text, s.srcStart, s.srcEnd, Backtick)
    // three more characters are skipped, then the rest of the token
    && s.srcEnd + 3 <= s.resume < |text| && IsWhitespace(text[s.resume])
    && NoHit(text, s.srcEnd + 3, s.resume, Whitespace)
    && e.code == SourceCode(text[s.srcStart..s.srcEnd], text[s.langStart..s.langEnd])
  }

  /** One pass of the outer loop, started with the cursor at `from`. */
  function Pass(text: string, from: nat): (r: PassResult)
    requires |text| > 0
    ensures r.NoMoreCode? <==> NoHit(text, from, |text| - 1, Backtick)
    ensures r.Block? ==> Found(text, from, r.e) && r.e.at.resume >= from + 7
    ensures r.Crash? ==> r.at >= |text| && r.panic != EmptyInput
  {
    match Seek(text, from, |text| - 1, Backtick)
    case None => NoMoreCode
    case Some(tick) =>
      var langStart := tick + 3;
      match Seek(text, langStart, |text|, Whitespace)
      case None => Crash(LanguageRunsOff, PastEnd(text, langStart))
      case Some(langEnd) =>
        match Seek(text, langEnd, |text|, NonWhitespace)
        case None => Crash(HeaderRunsOff, |text|)
        case Some(srcStart) =>
          match Seek(text, srcStart, |text|, Backtick)
          case None => Crash(BodyUnterminated, |text|)
          case Some(srcEnd) =>
            match Seek(text, srcEnd + 3, |text|, Whitespace)
            case None => Crash(TrailerRunsOff, PastEnd(text, srcEnd + 3))
            case Some(resume) =>
              Block(Extracted(
                SourceCode(text[srcStart..srcEnd], text[langStart..langEnd]),
                Span(tick, langStart, langEnd, srcStart, srcEnd, resume)))
  }

  /** `Pass` when all five loops of the pass stop inside the text. */
  lemma PassFinds(text: string, from: nat, tick: nat, langEnd: nat, srcStart: nat, srcEnd: nat, resume: nat)
    requires 0 < |text|
    requires Seek(text, from, |text| - 1, Backtick) == Some(tick)
    requires Seek(text, tick + 3, |text|, Whitespace) == Some(langEnd)
    requires Seek(text, langEnd, |text|, NonWhitespace) == Some(srcStart)
    requires Seek(text, srcStart, |text|, Backtick) == Some(srcEnd)
    requires Seek(text, srcEnd + 3, |text|, Whitespace) == Some(resume)
    ensures Pass(text, from) == Block(Extracted(
      SourceCode(text[srcStart..srcEnd], text[tick + 3..langEnd]),
      Span(tick, tick + 3, langEnd, srcStart, srcEnd, resume)))
  {
  }

  /** `Pass` when the loop that reads the language tag runs off the end. */
  lemma PassLanguageRunsOff(text: string, from: nat, tick: nat)
    requires 0 < |text|
    requires Seek(text, from, |text| - 1, Backtick) == Some(tick)
    requires Seek(text, tick + 3, |text|, Whitespace) == None
    ensures Pass(text, from) == Crash(LanguageRunsOff, PastEnd(text, tick + 3))
  {
  }

  /** `Pass` when the loop that skips the header's whitespace runs off the end. */
  lemma PassHeaderRunsOff(text: string, from: nat, tick: nat, langEnd: nat)
    requires 0 < |text|
    requires Seek(text, from, |text| - 1, Backtick) == Some(tick)
    requires Seek(text, tick + 3, |text|, Whitespace) == Some(langEnd)
    requires Seek(text, langEnd, |text|, NonWhitespace) == None
    ensures Pass(text, from) == Crash(HeaderRunsOff, |text|)
  {
  }

  /** `Pass` when the loop that reads the body runs off the end. */
  lemma PassBodyUnterminated(text: string, from: nat, tick: nat, langEnd: nat, srcStart: nat)
    requires 0 < |text|
    requires Seek(text, from, |text| - 1, Backtick) == Some(tick)
    requires Seek(text, tick + 3, |text|, Whitespace) == Some(langEnd)
    requires Seek(text, langEnd, |text|, NonWhitespace) == Some(srcStart)
    requires Seek(text, srcStart, |text|, Backtick) == None
    ensures Pass(text, from) == Crash(BodyUnterminated, |text|)
  {
  }

  /** `Pass` when the loop that skips the rest of the closing token runs off the end. */
  lemma PassTrailerRunsOff(text: string, from: nat, tick: nat, langEnd: nat, srcStart: nat, srcEnd: nat)
    requires 0 < |text|
    requires Seek(text, from, |text| - 1, Backtick) == Some(tick)
    requires Seek(text, tick + 3, |text|, Whitespace) == Some(langEnd)
    requires Seek(text, langEnd, |text|, NonWhitespace) == Some(srcStart)
    requires Seek(text, srcStart, |text|, Backtick) == Some(srcEnd)
    requires Seek(text, srcEnd + 3, |text|, Whitespace) == None
    ensures Pass(text, from) == Crash(TrailerRunsOff, PastEnd(text, srcEnd + 3))
  {
  }

  /** Each item is the block found by a pass that starts where the previous one resumed. */
  ghost predicate Chain(text: string, from: nat, items: seq<Extracted>)
    ensures Chain(text, from, items) && items != [] ==> from < Resume(from, items) < |text|
    decreases |items|
  {
    items == [] || (Found(text, from, items[0]) && Chain(text, items[0].at.resume, items[1..]))
  }

  /** Where the pass after `items` starts. */
  function Resume(from: nat, items: seq<Extracted>): nat {
    if items == [] then from else items[|items| - 1].at.resume
  }

  /** The outer loop from cursor `from` on, for a non-empty text. */
  function ScanFrom(text: string, from: nat): (r: Outcome)
    requires 0 < |text|
    ensures Chain(text, from, r.items)
    ensures r.Finished? ==> NoHit(text, Resume(from, r.items), |text| - 1, Backtick)
    ensures r.Finished? ==> Pass(text, Resume(from, r.items)) == NoMoreCode
    ensures r.Panicked? ==> Pass(text, Resume(from, r.items)) == Crash(r.panic, r.at)
    ensures r.Panicked? ==> r.at >= |text| && r.panic != EmptyInput
    decreases |text| - from
  {
    match Pass(text, from)
    case NoMoreCode => Finished([])
    case Crash(panic, at) => Panicked(panic, at, [])
    case Block(e) =>
      var rest := ScanFrom(text, e.at.resume);
      ChainCons(text, from, e, rest.items);
      rest.Prefixed([e])
  }

  lemma ChainCons(text: string, from: nat, e: Extracted, rest: seq<Extracted>)
    requires Found(text, from, e) && Chain(text, e.at.resume, rest)
    ensures Chain(text, from, [e] + rest)
    ensures Resume(e.at.resume, rest) == Resume(from, [e] + rest)
  {
    assert ([e] + rest)[1..] == rest;
  }

  /** The whole of the scan in `main`, lines 15-46. */
  function Scan(text: string): (r: Outcome)
    ensures r.Panicked? && r.panic == EmptyInput <==> |text| == 0
    ensures |text| > 0 ==> (r == Finished([]) <==> NoHit(text, 0, |text| - 1, Backtick))
    ensures r.Panicked? ==> r.at >= |text|
    ensures Chain(text, 0, r.items)
    ensures |text| > 0 && r.Finished? ==> Pass(text, Resume(0, r.items)) == NoMoreCode
    ensures |text| > 0 && r.Panicked? ==> Pass(text, Resume(0, r.items)) == Crash(r.panic, r.at)
  {
    if |text| == 0 then Panicked(EmptyInput, 0, []) else ScanFrom(text, 0)
  }

  /**
   The shape shared by the five inner loops of `main`: step the cursor while it is
   before `limit` and its character is not of class `t`. Only the open search has a
   `limit` below the text's length; the other four loops are bounded here by the end
   of the text, where the source's `nth(cur).unwrap()` would panic instead.
   */
  method SkipUntil(text: string, from: nat, limit: nat, t: Target) returns (cur: nat)
    requires limit <= |text|
    ensures cur < limit ==> Seek(text, from, limit, t) == Some(cur)
    ensures cur >= limit ==> Seek(text, from, limit, t) == None
    ensures cur == from || from < cur <= limit
  {
    cur := from;
    while cur < limit && !Hits(text[cur], t)
      invariant from <= cur && (cur == from || cur <= limit)
      invariant Seek(text, cur, limit, t) == Seek(text, from, limit, t)
      decreases limit - cur
    {
      SeekStep(text, cur, limit, t);
      cur := cur + 1;
    }
  }

  /**
   The body of the outer loop of `main`, lines 19-45, run with the cursor at `from`:
   the open search and the cursor moves that follow it. A loop that runs off the end
   of the text, where the source's `nth(cur).unwrap()` panics, returns `Crash`.
   */
  method NextBlock(text: string, from: nat) returns (r: PassResult)
    requires 0 < |text|
    ensures r == Pass(text, from)
  {
    var end := |text| - 1;
    // look for code
    var cur := SkipUntil(text, from, end, Backtick);
    if cur >= end {
      return NoMoreCode;
    }
    var tick := cur;
    // parse the language
    cur := cur + 3;
    var langStart := cur;
    cur := SkipUntil(text, cur, |text|, Whitespace);
    if cur >= |text| {
      PassLanguageRunsOff(text, from, tick);
      return Crash(LanguageRunsOff, cur);
    }
    var langEnd := cur;
    var language := text[langStart..langEnd];
    cur := SkipUntil(text, cur, |text|, NonWhitespace);
    if cur >= |text| {
      PassHeaderRunsOff(text, from, tick, langEnd);
      return Crash(HeaderRunsOff, cur);
    }
    var srcStart := cur;
    cur := SkipUntil(text, cur, |text|, Backtick);
    if cur >= |text| {
      PassBodyUnterminated(text, from, tick, langEnd, srcStart);
      return Crash(BodyUnterminated, cur);
    }
    var srcEnd := cur;
    var src := text[srcStart..srcEnd];
    // skip the backticks
    cur := cur + 3;
    cur := SkipUntil(text, cur, |text|, Whitespace);
    if cur >= |text| {
      PassTrailerRunsOff(text, from, tick, langEnd, srcStart, srcEnd);
      return Crash(TrailerRunsOff, cur);
    }
    PassFinds(text, from, tick, langEnd, srcStart, srcEnd, cur);
    return Block(Extracted(SourceCode(src, language), Span(tick, langStart, langEnd, srcStart, srcEnd, cur)));
  }

  /**
   The scan of `main`, lines 15-46: the cursor starts at 0 and the outer loop runs
   passes until the open search finds no backtick (the `break`) or a pass would panic.
   */
  method ExtractBlocks(text: string) returns (r: Outcome)
    ensures r == Scan(text)
  {
    if |text| == 0 {
      // `chars().count() - 1` underflows
      return Panicked(EmptyInput, 0, []);
    }
    var cur: nat := 0;
    var items: seq<Extracted> := [];
    assert ScanFrom(text, 0).Prefixed([]) == ScanFrom(text, 0) by {
      assert [] + ScanFrom(text, 0).items == ScanFrom(text, 0).items;
    }
    while true
      invariant cur < |text|
      invariant Scan(text) == ScanFrom(text, cur).Prefixed(items)
      decreases |text| - cur
    {
      var pass := NextBlock(text, cur);
      match pass
      case NoMoreCode =>
        assert items + [] == items;
        return Finished(items);
      case Crash(panic, at) =>
        assert items + [] == items;
        return Panicked(panic, at, items);
      case Block(e) =>
        assert ScanFrom(text, cur) == ScanFrom(text, e.at.resume).Prefixed([e]);
        PrefixedTwice(ScanFrom(text, e.at.resume), items, [e]);
        items := items + [e];
        cur := e.at.resume;
    }
  }
}
