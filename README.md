# Fenced-code scanner of `llp`, in Dafny

`llp` reads the text a language model produced and walks it with one cursor to pull
out the code blocks. The cursor is `cur_idx` in `main` (src/main.rs). Each pass of the
outer `loop` does seven steps:

1. It looks for a backtick before the last character.
2. It jumps three characters.
3. It reads the language tag, the run of non-whitespace that follows.
4. It skips whitespace.
5. It takes the body up to the next backtick.
6. It jumps three characters again.
7. It skips the rest of that token.

The loop stops (`break`) when the search in step 1 finds no backtick. Every other
character read is an unchecked `nth(cur_idx).unwrap()`, which panics once the cursor
passes the end of the text.

The model has three modules:

- `Scanner` (scanner.dfy)
  - The record `SourceCode(src, language)`.
  - A `Span` of cursor positions for each block.
  - The outcome of a scan: `Finished(items)`, or `Panicked(panic, at, items)` where the
    code would panic. `panic` says which read failed; `at` is the cursor value at that
    read.
  - The reference definitions:
    - `Seek`: where one inner loop stops.
    - `Pass`: one pass of the outer loop.
    - `Found`: a declarative description of the block a pass finds.
    - `ScanFrom` and `Scan`: the whole loop.
  - The imperative code, each method proved equal to its reference definition:
    - `SkipUntil`: the one loop shape that all five inner loops share.
    - `NextBlock`: the body of the outer loop.
    - `ExtractBlocks`: the outer loop, which collects the blocks.
- `ScannerProperties` (properties.dfy): what a pass finds, what a block holds, document
  order, and progress of the cursor.
- `ScannerExamples` (examples.dfy): scans of small concrete texts.

`SourceCode` has a `path` field (src/main.rs:7) that the loop never fills, and the
comment on the closing jump (src/main.rs:40) says it skips backticks, which suggests
three-backtick fences. The model follows what the code does:

- The open search and the body end each stop at a single backtick.
- The two three-character jumps do not check that they skip backticks.
- A single backtick in prose opens a block (`InlineCode`).
- A backtick inside a body ends it (`BacktickInBody`).
- A text that ends right at its closing fence panics (`FenceAtEnd`).

Whitespace is Rust's `char::is_whitespace`: the 25 code points with the Unicode
White_Space property.

## Model

| member | source | states |
|---|---|---|
| `Scanner.IsWhitespace` | src/main.rs:28-43 | The class the tag, gap and trailer loops test (`is_whitespace`): space, tab, newline and carriage return are in it; a backtick, a digit and an ASCII letter are not. The full set is the 25 Unicode White_Space code points. |
| `Scanner.Found` | src/main.rs:19-45 | The declarative description of the block one pass finds. Its positions satisfy `from <= tick < langStart <= langEnd < srcStart <= srcEnd < resume < |text|`: ordered from the cursor to the resume point, strictly except that the tag and the body may be empty. |
| `Scanner.Chain` | src/main.rs:17-46 | A sequence of blocks, each found where the previous one left the cursor. A non-empty chain moves the cursor forward and leaves it inside the text. |
| `Scanner.Seek` | src/main.rs:19-45 | Where an inner loop stops: the first index in `[from, limit)` whose character is of the class that ends the loop. If no index has such a character, the result is `None` and no character in the range is of that class. |
| `Scanner.SkipUntil` | src/main.rs:19-45 | The inner loop itself, which steps the cursor over characters not of the class. It stops at `Seek`'s index, or at or past `limit` exactly when `Seek` finds none. |
| `Scanner.Pass` | src/main.rs:19-45 | One pass yields no block exactly when no backtick lies between the cursor and the last character (the `break`). A block it yields is the one `Found` describes, and the cursor ends at least 7 characters further on. A panic happens only at a cursor at or past the end of the text; which loop panics, and at which cursor, is stated by the four crash lemmas in the next rows. |
| `Scanner.PassLanguageRunsOff` | src/main.rs:19-30 | When the tag loop finds no whitespace after the opening backtick, the pass is the `LanguageRunsOff` crash at the cursor `max(tick + 3, count)`, where `nth` first fails. |
| `Scanner.PassHeaderRunsOff` | src/main.rs:19-34 | When the whitespace after the tag runs to the end of the text, the pass is the `HeaderRunsOff` crash at the text's length. |
| `Scanner.PassBodyUnterminated` | src/main.rs:19-38 | When no backtick follows the body's start, the pass is the `BodyUnterminated` crash at the text's length. |
| `Scanner.PassTrailerRunsOff` | src/main.rs:19-45 | When the skip after the closing fence finds no whitespace, the pass is the `TrailerRunsOff` crash at the cursor `max(srcEnd + 3, count)`. |
| `Scanner.NextBlock` | src/main.rs:19-45 | The pass body written with a mutable cursor computes exactly `Pass`. Each `unwrap` past the end becomes `Crash`. |
| `Scanner.ScanFrom` | src/main.rs:17-46 | Each block found is `Found` from where the previous pass left the cursor. A `Finished` result is exactly the case where the pass from the last cursor yields no block, so no backtick remains before the last character. A `Panicked` result is exactly the crash of the pass that starts where the last block left the cursor, at or past the end of the text. |
| `Scanner.Scan` | src/main.rs:15-46 | Empty input, and only empty input, gives the `EmptyInput` panic (`count() - 1` underflows). A non-empty text yields no block and no panic exactly when it has no backtick before its last character. The blocks form a chain of passes from cursor 0. For a non-empty text, a panic is exactly the crash of the pass after the last block, and a finish is that pass finding no block. |
| `Scanner.ExtractBlocks` | src/main.rs:15-46 | The scan written as the source's `loop` that accumulates the blocks returns exactly `Scan(text)`. |
| `ScannerProperties.SeekIsFirst` | src/main.rs:19-45 | The converse of `Seek`'s contract: the first index of the class before `limit` is what `Seek` returns. |
| `ScannerProperties.FoundUnique` | src/main.rs:19-45 | From a given cursor, at most one block satisfies `Found`, so `Found` determines the pass. |
| `ScannerProperties.FoundIsPass` | src/main.rs:19-45 | A block that satisfies `Found` is the block `Pass` returns. Together with `Pass`'s contract, `Pass` yields `e` if and only if `Found` holds of `e`. |
| `ScannerProperties.FoundContents` | src/main.rs:26-39 | The language tag has no whitespace. It is empty exactly when the character three past the opening backtick is whitespace. The body has no backtick and starts on non-whitespace. The positions satisfy `tick < langStart <= langEnd < srcStart <= srcEnd < resume`: ordered from the opening backtick to the resume point, strictly except that the tag and the body may be empty. |
| `ScannerProperties.ChainAt` | src/main.rs:17-46 | Item `i` of a scan is the block found by the pass that starts where item `i - 1` left the cursor. |
| `ScannerProperties.ChainAdvances` | src/main.rs:17-45 | After `n` passes the cursor has advanced by at least `7 * n`, and it is still inside the text. |
| `ScannerProperties.ChainOrdered` | src/main.rs:15-46 | A later block's opening backtick lies at or after the point where an earlier block's pass resumed. |
| `ScannerProperties.ScanContents` | src/main.rs:27-39 | Every language tag a scan yields has no whitespace, and every body has no backtick. |
| `ScannerProperties.ScanOrdered` | src/main.rs:15-46 | The blocks of a scan are in document order and do not overlap: a later opening backtick lies at or after the point where an earlier block's pass resumed, and an earlier body ends before a later language tag starts. |
| `ScannerProperties.ScanBound` | src/main.rs:16-46 | A scan of a non-empty text yields fewer than one block per seven characters. |
| `ScannerExamples.NoCode` | src/main.rs:19-24 | A text without backticks finishes with no blocks. |
| `ScannerExamples.OneBlock` | src/main.rs:19-46 | For the text "```c\nx``` ", the tag is "c" and the body is "x". |
| `ScannerExamples.FenceAtEnd` | src/main.rs:41-45 | A text that ends exactly at the closing fence panics in the trailing skip. |
| `ScannerExamples.BacktickInBody` | src/main.rs:35-45 | A backtick inside the body ends it. The rest of the line is skipped as the closing token. |
| `ScannerExamples.InlineCode` | src/main.rs:19-38 | A single backtick in prose opens a block. The body search then runs off the end. |
| `ScannerExamples.LoneFence` | src/main.rs:26-30 | The text "```" panics while the language tag is read, at cursor 3. |

## Left out

- Reading `test_out1.txt` (src/main.rs:12-14) is file I/O. The text is a parameter of `Scan` and `ExtractBlocks`.
- The `path` field of `SourceCode` (src/main.rs:7) is never computed by the code, so the model's `SourceCode` has only `src` and `language`.
- The source computes `lang_str` and `final_src` but never stores them. The model collects them, in order, as the items of the outcome.
- A panic ends the process in the source. The model returns it as the value `Panicked`, which also keeps the blocks found before it; the process would lose them.
- The source slices by byte offsets (src/main.rs:31, 39) but counts the cursor in characters. For non-ASCII text these differ. The model treats the text as a sequence of characters.
- `cur_idx` is a `usize`. Its `+= 3` overflow cannot happen for a text held in memory, so the model uses unbounded naturals.
- In a release build, `count() - 1` on empty input wraps instead of panicking, and the first `nth(0).unwrap()` panics instead. Both builds panic, and both are the model's `EmptyInput`.
- The five inner loops of `main` are one method, `SkipUntil`, called five times. The source repeats the same loop shape inline.
