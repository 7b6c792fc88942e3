/**
 Properties of the scan modelled in `Scanner`: what one pass finds is determined by
 the text and the cursor, what each block holds, that blocks come in document order
 and that every pass moves the cursor forward.
 */
module ScannerProperties {
  import opened Scanner

  /** Two indices that are each the first of class `t` at or after `from` are the same. */
  lemma FirstHitUnique(text: string, from: nat, k1: nat, k2: nat, t: Target)
    requires from <= k1 < |text| && from <= k2 < |text|
    requires Hits(text[k1], t) && NoHit(text, from, k1, t)
    requires Hits(text[k2], t) && NoHit(text, from, k2, t)
    ensures k1 == k2
  {
  }

  /** The converse of `Seek`'s contract: the first index of class `t` is what `Seek` returns. */
  lemma SeekIsFirst(text: string, from: nat, limit: nat, t: Target, k: nat)
    requires from <= k < limit <= |text|
    requires Hits(text[k], t) && NoHit(text, from, k, t)
    ensures Seek(text, from, limit, t) == Some(k)
  {
  }

  /** One pass finds at most one block from a given cursor. */
  lemma FoundUnique(text: string, from: nat, e1: Extracted, e2: Extracted)
    requires Found(text, from, e1) && Found(text, from, e2)
    ensures e1 == e2
  {
    var s1, s2 := e1.at, e2.at;
    FirstHitUnique(text, from, s1.tick, s2.tick, Backtick);
    FirstHitUnique(text, s1.langStart, s1.langEnd, s2.langEnd, Whitespace);
    FirstHitUnique(text, s1.langEnd, s1.srcStart, s2.srcStart, NonWhitespace);
    FirstHitUnique(text, s1.srcStart, s1.srcEnd, s2.srcEnd, Backtick);
    FirstHitUnique(text, s1.srcEnd + 3, s1.resume, s2.resume, Whitespace);
  }

  /** `Found` describes `Pass` exactly: together with `Pass`'s contract, a pass yields `e` if and only if `Found` holds of `e`. */
  lemma FoundIsPass(text: string, from: nat, e: Extracted)
    requires Found(text, from, e)
    ensures Pass(text, from) == Block(e)
  {
    var s := e.at;
    SeekIsFirst(text, from, |text| - 1, Backtick, s.tick);
    SeekIsFirst(text, s.langStart, |text|, Whitespace, s.langEnd);
    SeekIsFirst(text, s.langEnd, |text|, NonWhitespace, s.srcStart);
    SeekIsFirst(text, s.srcStart, |text|, Backtick, s.srcEnd);
    SeekIsFirst(text, s.srcEnd + 3, |text|, Whitespace, s.resume);
    PassFinds(text, from, s.tick, s.langEnd, s.srcStart, s.srcEnd, s.resume);
  }

  /** The `i`-th item of a chain is the block found by the pass that starts where item `i - 1` resumed. */
  lemma {:induction false} ChainAt(text: string, from: nat, items: seq<Extracted>, i: nat)
    requires Chain(text, from, items) && i < |items|
    ensures Found(text, if i == 0 then from else items[i - 1].at.resume, items[i])
    decreases i
  {
    if i > 0 {
      ChainAt(text, items[0].at.resume, items[1..], i - 1);
    }
  }

  /** Each pass moves the cursor at least seven characters: every item resumes 7 past its predecessor. */
  lemma {:induction false} ChainAdvances(text: string, from: nat, items: seq<Extracted>)
    requires Chain(text, from, items)
    ensures Resume(from, items) >= from + 7 * |items|
    ensures items != [] ==> Resume(from, items) < |text|
    decreases |items|
  {
    if items != [] {
      ChainAdvances(text, items[0].at.resume, items[1..]);
      assert Resume(from, items) == Resume(items[0].at.resume, items[1..]);
    }
  }

  /** Blocks come in document order and do not overlap: a later block opens after an earlier one resumed. */
  lemma {:induction false} ChainOrdered(text: string, from: nat, items: seq<Extracted>, i: nat, j: nat)
    requires Chain(text, from, items) && i < j < |items|
    ensures items[i].at.resume <= items[j].at.tick
    decreases j - i
  {
    ChainAt(text, from, items, j);
    if j > i + 1 {
      ChainOrdered(text, from, items, i, j - 1);
      ChainAt(text, from, items, j - 1);
    }
  }

  /**
   What a found block holds: a language tag free of whitespace, which is empty exactly
   when the character three past the opening backtick is whitespace, and a body free of
   backticks that starts on a non-whitespace character.
   */
  lemma FoundContents(text: string, from: nat, e: Extracted)
    requires Found(text, from, e)
    ensures forall c :: c in e.code.language ==> !IsWhitespace(c)
    ensures e.code.language == [] <==> IsWhitespace(text[e.at.tick + 3])
    ensures '`' !in e.code.src
    ensures e.code.src != [] ==> !IsWhitespace(e.code.src[0])
    ensures e.at.tick < e.at.langStart <= e.at.langEnd < e.at.srcStart <= e.at.srcEnd < e.at.resume
  {
    var s := e.at;
    forall k | 0 <= k < |e.code.language| ensures !IsWhitespace(e.code.language[k]) {
      assert !Hits(text[s.langStart + k], Whitespace);
    }
    forall k | 0 <= k < |e.code.src| ensures e.code.src[k] != '`' {
      assert !Hits(text[s.srcStart + k], Backtick);
    }
    if s.langStart < s.langEnd {
      assert !Hits(text[s.langStart], Whitespace);
    }
  }

  /** Every block of a scan has the contents `FoundContents` describes. */
  lemma ScanContents(text: string, i: nat)
    requires i < |Scan(text).items|
    ensures forall c :: c in Scan(text).items[i].code.language ==> !IsWhitespace(c)
    ensures '`' !in Scan(text).items[i].code.src
  {
    var items := Scan(text).items;
    ChainAt(text, 0, items, i);
    FoundContents(text, if i == 0 then 0 else items[i - 1].at.resume, items[i]);
  }

  /** The blocks of a scan are in document order and do not overlap. */
  lemma ScanOrdered(text: string, i: nat, j: nat)
    requires i < j < |Scan(text).items|
    ensures Scan(text).items[i].at.resume <= Scan(text).items[j].at.tick
    ensures Scan(text).items[i].at.srcEnd < Scan(text).items[j].at.langStart
  {
    var items := Scan(text).items;
    ChainOrdered(text, 0, items, i, j);
    ChainAt(text, 0, items, i);
    ChainAt(text, 0, items, j);
  }

  /** A scan of a non-empty text yields fewer than one block per seven characters. */
  lemma ScanBound(text: string)
    requires |text| > 0
    ensures 7 * |Scan(text).items| < |text|
  {
    ChainAdvances(text, 0, Scan(text).items);
  }
}
