/** File-type detection, the whitespace check of text extraction, and the
    sliding-window chunker with its backward search for a natural break
    point (agent/src/agentic_rag/text_processing.py). */
module TextProcessing {
  import opened Wrappers
  import opened Strings

  type Byte = bv8

  datatype FileType = Pdf | Docx | Txt | Md

  /** SUPPORTED_CONTENT_TYPES. */
  function ContentTypeLookup(contentType: string): Option<FileType> {
    if contentType == "application/pdf" then Some(Pdf)
    else if contentType == "application/vnd.openxmlformats-officedocument.wordprocessingml.document" then Some(Docx)
    else if contentType == "text/plain" then Some(Txt)
    else if contentType == "text/markdown" then Some(Md)
    else None
  }

  /** EXTENSION_TO_TYPE. */
  function ExtensionLookup(ext: string): Option<FileType> {
    if ext == ".pdf" then Some(Pdf)
    else if ext == ".docx" then Some(Docx)
    else if ext == ".txt" then Some(Txt)
    else if ext == ".md" then Some(Md)
    else None
  }

  datatype ExtractError =
    | UnsupportedFileType(filename: string, contentType: string)
    | ExtractorFailed(filename: string)
    | NoTextContent(filename: string)

  /** `detect_file_type`. A missing content type is the empty string (both
      are falsy in the source). A known content type wins; otherwise the
      lower-cased text after the last dot of the file name is looked up;
      otherwise the type is unsupported. */
  function DetectFileType(filename: string, contentType: string): (r: Result<FileType, ExtractError>)
    ensures ContentTypeLookup(contentType).Some? ==> r == Success(ContentTypeLookup(contentType).value)
    ensures '.' !in filename && ContentTypeLookup(contentType).None? ==> r.Failure?
    ensures r.Failure? ==> r.error == UnsupportedFileType(filename, contentType)
  {
    if contentType != "" && ContentTypeLookup(contentType).Some? then
      Success(ContentTypeLookup(contentType).value)
    else
      var ext := if '.' in filename then "." + ToLower(AfterLast(filename, '.')) else "";
      match ExtensionLookup(ext)
      case Some(t) => Success(t)
      case None => Failure(UnsupportedFileType(filename, contentType))
  }

  /** The text after the last separator of `p + [sep] + r` is `r` when `r`
      holds no separator. */
  lemma {:induction false} AfterLastOfSuffix(p: string, sep: char, r: string)
    requires sep !in r
    ensures AfterLast(p + [sep] + r, sep) == r
  {
    var s := p + [sep] + r;
    var a := AfterLast(s, sep);
    assert s[|p|] == sep;
    var q :| s == q + [sep] + a;
    assert s[|q|] == sep;
    forall i | |p| < i < |s| ensures s[i] != sep {
      assert s[i] == r[i - |p| - 1];
    }
    forall i | |q| < i < |s| ensures s[i] != sep {
      assert s[i] == a[i - |q| - 1];
    }
    assert |q| == |p|;
    assert s[|s| - |r|..] == r;
    assert s[|s| - |a|..] == a;
  }

  /** With no known content type, `name.ext` is classified by its
      extension alone, whatever its case (`report.PDF` is a PDF). */
  lemma DetectByExtension(name: string, ext: string, contentType: string)
    requires '.' !in ext
    requires ContentTypeLookup(contentType).None?
    ensures DetectFileType(name + "." + ext, contentType)
            == match ExtensionLookup("." + ToLower(ext))
               case Some(t) => Success(t)
               case None => Failure(UnsupportedFileType(name + "." + ext, contentType))
  {
    var filename := name + "." + ext;
    assert filename == name + ['.'] + ext;
    assert filename[|name|] == '.';
    AfterLastOfSuffix(name, '.', ext);
  }

  /** The whitespace check of `extract_text`: the extractor for the
      detected type (PDF and DOCX parsers, UTF-8 decoding) is a parameter;
      `None` stands for an extractor that raised `ValueError`. The result is
      the stripped text, and an all-whitespace extraction is an error. */
  function ExtractText(content: seq<Byte>, filename: string, contentType: string,
                       extractor: (FileType, seq<Byte>) -> Option<string>): (r: Result<string, ExtractError>)
    ensures match DetectFileType(filename, contentType)
            case Failure(e) => r == Failure(e)
            case Success(t) =>
              match extractor(t, content)
              case None => r == Failure(ExtractorFailed(filename))
              case Some(raw) =>
                && (AllSpace(raw) ==> r == Failure(NoTextContent(filename)))
                && (!AllSpace(raw) ==> r == Success(Strip(raw)))
    ensures r.Success? ==> r.value != [] && !IsSpace(r.value[0]) && !IsSpace(r.value[|r.value| - 1])
  {
    match DetectFileType(filename, contentType)
    case Failure(e) => Failure(e)
    case Success(fileType) =>
      match extractor(fileType, content)
      case None => Failure(ExtractorFailed(filename))
      case Some(raw) =>
        StripBlank(raw);
        var text := Strip(raw);
        if text == [] then Failure(NoTextContent(filename)) else Success(text)
  }

  // ---------------------------------------------------------------------
  // Chunking

  /** A chunk of extracted text with its position in that text. */
  datatype TextChunk = TextChunk(text: string, index: nat, startChar: nat, endChar: nat)

  /** One position of the sliding window: the half-open range
      `[start, end)` of the text. */
  datatype Window = Window(start: nat, end: nat)

  /** How far back from the intended end the break-point search looks. */
  const BreakSearchRange := 200

  /** The break separators in order of preference; the trailing `" "` is
      the source's separate last-resort search, which also cuts just past
      the space. */
  const Separators: seq<string> := ["\n\n", "\n", ". ", "! ", "? ", "; ", " "]

  ghost predicate Occurs(s: string, pat: string) {
    exists j :: OccursAt(s, pat, j)
  }

  /** Separator `k` occurs in `search` and no separator before it does. */
  ghost predicate FirstFound(search: string, k: nat, from: nat)
    requires k < |Separators|
  {
    && Occurs(search, Separators[k])
    && forall m :: from <= m < k ==> !Occurs(search, Separators[m])
  }

  /** The separator loop of `_find_break_point`, from separator `k` on:
      `search` is `text[searchStart..end]`; the cut lies just past the last
      occurrence of the first separator found, or at `end`. */
  function FindBreakIn(search: string, searchStart: nat, end: nat, k: nat): (p: nat)
    requires k <= |Separators|
    requires searchStart + |search| == end
    ensures searchStart <= p <= end
    decreases |Separators| - k
  {
    if k == |Separators| then end
    else
      var sep := Separators[k];
      var idx := RFind(search, sep);
      if idx != -1 then
        assert OccursAt(search, sep, idx);
        searchStart + idx + |sep|
      else FindBreakIn(search, searchStart, end, k + 1)
  }

  /** The separator loop cuts at `end` when no separator from `k` on
      occurs in `search`. */
  lemma {:induction false} FindBreakInNone(search: string, searchStart: nat, end: nat, k: nat)
    requires k <= |Separators|
    requires searchStart + |search| == end
    requires forall m :: k <= m < |Separators| ==> !Occurs(search, Separators[m])
    ensures FindBreakIn(search, searchStart, end, k) == end
    decreases |Separators| - k
  {
    if k < |Separators| {
      assert !Occurs(search, Separators[k]);
      assert RFind(search, Separators[k]) == -1;
      FindBreakInNone(search, searchStart, end, k + 1);
    }
  }

  /** When separator `m` is the first from `k` on that occurs in `search`,
      the loop cuts just past its last occurrence. */
  lemma {:induction false} FindBreakInFirst(search: string, searchStart: nat, end: nat, k: nat, m: nat)
    requires k <= m < |Separators|
    requires searchStart + |search| == end
    requires FirstFound(search, m, k)
    ensures RFind(search, Separators[m]) != -1
    ensures FindBreakIn(search, searchStart, end, k)
            == searchStart + RFind(search, Separators[m]) + |Separators[m]|
    decreases m - k
  {
    if k == m {
      var j :| OccursAt(search, Separators[m], j);
      assert j <= RFind(search, Separators[m]);
    } else {
      assert !Occurs(search, Separators[k]);
      assert RFind(search, Separators[k]) == -1;
      FindBreakInFirst(search, searchStart, end, k + 1, m);
    }
  }

  /** `_find_break_point`: a cut position in `(start, end]`, at most 200
      characters before `end`. */
  function FindBreakPoint(text: string, start: nat, end: nat): (p: nat)
    requires start < end <= |text|
    ensures Max(start + 1, end - BreakSearchRange) <= p <= end
  {
    var searchStart := Max(start + 1, end - BreakSearchRange);
    FindBreakIn(text[searchStart..end], searchStart, end, 0)
  }

  /** Within the last 200 characters before `end` (and after `start`), the
      cut lies just past the last occurrence of the first separator, in
      order of preference, that occurs there; it is `end` when none does. */
  lemma FindBreakPointSpec(text: string, start: nat, end: nat)
    requires start < end <= |text|
    ensures var searchStart := Max(start + 1, end - BreakSearchRange);
            var search := text[searchStart..end];
            && ((forall m :: 0 <= m < |Separators| ==> !Occurs(search, Separators[m]))
                ==> FindBreakPoint(text, start, end) == end)
            && forall m :: 0 <= m < |Separators| && FirstFound(search, m, 0) ==>
                 var q := FindBreakPoint(text, start, end) - searchStart - |Separators[m]|;
                 && OccursAt(search, Separators[m], q)
                 && forall j :: OccursAt(search, Separators[m], j) ==> j <= q
  {
    var searchStart := Max(start + 1, end - BreakSearchRange);
    var search := text[searchStart..end];
    if forall m :: 0 <= m < |Separators| ==> !Occurs(search, Separators[m]) {
      FindBreakInNone(search, searchStart, end, 0);
    }
    forall m | 0 <= m < |Separators| && FirstFound(search, m, 0)
      ensures var q := FindBreakPoint(text, start, end) - searchStart - |Separators[m]|;
              && OccursAt(search, Separators[m], q)
              && forall j :: OccursAt(search, Separators[m], j) ==> j <= q
    {
      FindBreakInFirst(search, searchStart, end, 0, m);
    }
  }

  /** Where the window that begins at `start` ends: `start + chunkSize`
      capped at the text's length, moved back to a break point unless it is
      the text's end. */
  function WindowEnd(text: string, chunkSize: nat, start: nat): (e: nat)
    requires 0 < chunkSize && start < |text|
    ensures start < e <= |text| && e - start <= chunkSize
  {
    var e := Min(start + chunkSize, |text|);
    if e < |text| then FindBreakPoint(text, start, e) else e
  }

  /** The next window's start: `end - chunkOverlap`, or `end` when that
      would not move past `start`. */
  function NextStart(start: nat, end: nat, chunkOverlap: int): (n: nat)
    requires start < end
    ensures start < n
    ensures n == end || (n == end - chunkOverlap && n > start)
  {
    if end - chunkOverlap <= start then end else end - chunkOverlap
  }

  /** The windows of the chunking loop from `start` on. */
  function WindowsFrom(text: string, chunkSize: nat, chunkOverlap: int, start: nat): seq<Window>
    requires chunkSize > 0
    decreases |text| - start
  {
    if |text| <= start then []
    else
      var end := WindowEnd(text, chunkSize, start);
      [Window(start, end)] + WindowsFrom(text, chunkSize, chunkOverlap, NextStart(start, end, chunkOverlap))
  }

  function Windows(text: string, chunkSize: nat, chunkOverlap: int): seq<Window>
    requires chunkSize > 0
  {
    WindowsFrom(text, chunkSize, chunkOverlap, 0)
  }

  /** Every window starts at or after `from`, is non-empty, lies in a text
      of length `len` and spans at most `size` characters. */
  predicate Placed(ws: seq<Window>, from: nat, len: nat, size: nat) {
    forall i :: 0 <= i < |ws| ==>
      from <= ws[i].start < ws[i].end <= len && ws[i].end - ws[i].start <= size
  }

  predicate StartsIncrease(ws: seq<Window>) {
    forall i, j :: 0 <= i < j < |ws| ==> ws[i].start < ws[j].start
  }

  /** The stripped text of a window; a window outside the text has none. */
  function Content(text: string, w: Window): string {
    if w.start <= w.end <= |text| then Strip(text[w.start..w.end]) else []
  }

  /** A window with its stripped text: a chunk the loop may emit. */
  datatype Piece = Piece(window: Window, content: string)

  function Pieces(text: string, ws: seq<Window>): (ps: seq<Piece>)
    ensures |ps| == |ws|
    ensures forall k :: 0 <= k < |ws| ==> ps[k] == Piece(ws[k], Content(text, ws[k]))
  {
    seq(|ws|, k requires 0 <= k < |ws| => Piece(ws[k], Content(text, ws[k])))
  }

  /** What one piece contributes: a chunk numbered `index`, or nothing when
      its text is empty. */
  function Emitted(p: Piece, index: nat): seq<TextChunk> {
    if p.content != [] then [TextChunk(p.content, index, p.window.start, p.window.end)] else []
  }

  /** The chunks the loop emits for the pieces `ps`, numbering them from
      `index`: a piece with empty text is skipped and uses no index. */
  function ChunksOf(ps: seq<Piece>, index: nat): seq<TextChunk>
  {
    if ps == [] then []
    else
      var e := Emitted(ps[0], index);
      e + ChunksOf(ps[1..], index + |e|)
  }

  /** What `chunk_text` returns. */
  function Chunks(text: string, chunkSize: nat, chunkOverlap: int): seq<TextChunk>
    requires chunkSize > 0
  {
    if text == [] then []
    else if |text| <= chunkSize then [TextChunk(text, 0, 0, |text|)]
    else ChunksAcc(text, chunkSize, chunkOverlap, 0, 0, [])
  }

  /** `chunk_text`. Its only caller passes a chunk size of 4000. With a
      size of 0 and an overlap of 0 or more the source loop never
      advances, so only positive sizes are modelled. */
  method ChunkText(text: string, chunkSize: int, chunkOverlap: int) returns (chunks: seq<TextChunk>)
    requires chunkSize > 0
    ensures chunks == Chunks(text, chunkSize, chunkOverlap)
  {
    if text == [] {
      return [];
    }
    if |text| <= chunkSize {
      return [TextChunk(text, 0, 0, |text|)];
    }
    chunks := [];
    var start: nat := 0;
    var index: nat := 0;
    while start < |text|
      invariant ChunksAcc(text, chunkSize, chunkOverlap, start, index, chunks) == Chunks(text, chunkSize, chunkOverlap)
      decreases |text| - start
    {
      var content, end, nextStart := NextWindow(text, chunkSize, chunkOverlap, start);
      ChunksAccUnfold(text, chunkSize, chunkOverlap, start, index, chunks);
      if content != [] {
        chunks := chunks + [TextChunk(content, index, start, end)];
        index := index + 1;
      }
      start := nextStart;
    }
  }

  /** One turn of the loop in `chunk_text`: the window at `start`, its
      stripped text, and where the next window starts. */
  method NextWindow(text: string, chunkSize: nat, chunkOverlap: int, start: nat) returns (content: string, end: nat, nextStart: nat)
    requires chunkSize > 0 && start < |text|
    ensures end == WindowEnd(text, chunkSize, start)
    ensures content == Strip(text[start..end])
    ensures nextStart == NextStart(start, end, chunkOverlap)
  {
    end := Min(start + chunkSize, |text|);
    if end < |text| {
      end := FindBreakPoint(text, start, end);
    }
    content := Strip(text[start..end]);
    var candidate := end - chunkOverlap;
    if candidate <= start {
      candidate := end;
    }
    nextStart := candidate;
  }

  /** The loop of `chunk_text` from the window at `start` on, `acc` being
      the chunks emitted so far and `index` the next chunk's number. */
  function ChunksAcc(text: string, chunkSize: nat, chunkOverlap: int, start: nat, index: nat, acc: seq<TextChunk>): seq<TextChunk>
    requires chunkSize > 0
    decreases |text| - start
  {
    if |text| <= start then acc
    else
      var end := WindowEnd(text, chunkSize, start);
      var content := Strip(text[start..end]);
      if content != [] then
        ChunksAcc(text, chunkSize, chunkOverlap, NextStart(start, end, chunkOverlap), index + 1, acc + [TextChunk(content, index, start, end)])
      else
        ChunksAcc(text, chunkSize, chunkOverlap, NextStart(start, end, chunkOverlap), index, acc)
  }

  /** One window of the loop: its chunk, if any, is appended. */
  lemma ChunksAccUnfold(text: string, chunkSize: nat, chunkOverlap: int, start: nat, index: nat, acc: seq<TextChunk>)
    requires chunkSize > 0 && start < |text|
    ensures var end := WindowEnd(text, chunkSize, start);
            var content := Strip(text[start..end]);
            var next := NextStart(start, end, chunkOverlap);
            ChunksAcc(text, chunkSize, chunkOverlap, start, index, acc)
            == if content != [] then ChunksAcc(text, chunkSize, chunkOverlap, next, index + 1, acc + [TextChunk(content, index, start, end)])
               else ChunksAcc(text, chunkSize, chunkOverlap, next, index, acc)
  {
  }

  /** The chunk, if any, of the window at `start`. */
  function EmittedAt(text: string, chunkSize: nat, start: nat, index: nat): seq<TextChunk>
    requires 0 < chunkSize && start < |text|
  {
    var end := WindowEnd(text, chunkSize, start);
    Emitted(Piece(Window(start, end), Strip(text[start..end])), index)
  }

  /** The start of the window after the one at `start`. */
  function NextWindowStart(text: string, chunkSize: nat, chunkOverlap: int, start: nat): nat
    requires 0 < chunkSize && start < |text|
  {
    NextStart(start, WindowEnd(text, chunkSize, start), chunkOverlap)
  }

  lemma ChunksAccStep(text: string, chunkSize: nat, chunkOverlap: int, start: nat, index: nat, acc: seq<TextChunk>)
    requires chunkSize > 0 && start < |text|
    ensures var e := EmittedAt(text, chunkSize, start, index);
            ChunksAcc(text, chunkSize, chunkOverlap, start, index, acc)
            == ChunksAcc(text, chunkSize, chunkOverlap, NextWindowStart(text, chunkSize, chunkOverlap, start), index + |e|, acc + e)
  {
    var e := EmittedAt(text, chunkSize, start, index);
    if e == [] {
      assert acc + e == acc;
    }
  }

  lemma ChunksOfWindowsStep(text: string, chunkSize: nat, chunkOverlap: int, start: nat, index: nat)
    requires chunkSize > 0 && start < |text|
    ensures var e := EmittedAt(text, chunkSize, start, index);
            ChunksOf(Pieces(text, WindowsFrom(text, chunkSize, chunkOverlap, start)), index)
            == e + ChunksOf(Pieces(text, WindowsFrom(text, chunkSize, chunkOverlap, NextWindowStart(text, chunkSize, chunkOverlap, start))), index + |e|)
  {
    var end := WindowEnd(text, chunkSize, start);
    var ws := WindowsFrom(text, chunkSize, chunkOverlap, start);
    var rest := WindowsFrom(text, chunkSize, chunkOverlap, NextStart(start, end, chunkOverlap));
    assert ws == [Window(start, end)] + rest;
    var ps := Pieces(text, ws);
    assert ps[0] == Piece(Window(start, end), Strip(text[start..end]));
    assert ps[1..] == Pieces(text, rest);
  }

  lemma ConcatStep<T>(x: seq<T>, y: seq<T>, acc: seq<T>, e: seq<T>, tail: seq<T>, whole: seq<T>)
    requires x == y && y == (acc + e) + tail && whole == e + tail
    ensures x == acc + whole
  {
    assert (acc + e) + tail == acc + (e + tail);
  }

  /** The loop's chunks are those of its windows' pieces. */
  lemma {:induction false} ChunksAccWindows(text: string, chunkSize: nat, chunkOverlap: int, start: nat, index: nat,
                                            acc: seq<TextChunk>)
    requires chunkSize > 0
    ensures ChunksAcc(text, chunkSize, chunkOverlap, start, index, acc)
            == acc + ChunksOf(Pieces(text, WindowsFrom(text, chunkSize, chunkOverlap, start)), index)
    decreases |text| - start
  {
    if start < |text| {
      var e := EmittedAt(text, chunkSize, start, index);
      var next := NextWindowStart(text, chunkSize, chunkOverlap, start);
      ChunksAccStep(text, chunkSize, chunkOverlap, start, index, acc);
      ChunksOfWindowsStep(text, chunkSize, chunkOverlap, start, index);
      ChunksAccWindows(text, chunkSize, chunkOverlap, next, index + |e|, acc + e);
      ConcatStep(ChunksAcc(text, chunkSize, chunkOverlap, start, index, acc),
                 ChunksAcc(text, chunkSize, chunkOverlap, next, index + |e|, acc + e),
                 acc, e, ChunksOf(Pieces(text, WindowsFrom(text, chunkSize, chunkOverlap, next)), index + |e|),
                 ChunksOf(Pieces(text, WindowsFrom(text, chunkSize, chunkOverlap, start)), index));
    } else {
      assert Pieces(text, WindowsFrom(text, chunkSize, chunkOverlap, start)) == [];
    }
  }

  // ---------------------------------------------------------------------
  // Properties of the windows and chunks

  /** Every window lies in the text, after `start`, non-empty and at most
      `chunkSize` long. */
  lemma {:induction false} WindowsPlaced(text: string, chunkSize: nat, chunkOverlap: int, start: nat)
    requires chunkSize > 0
    ensures Placed(WindowsFrom(text, chunkSize, chunkOverlap, start), start, |text|, chunkSize)
    decreases |text| - start
  {
    if start < |text| {
      var ws := WindowsFrom(text, chunkSize, chunkOverlap, start);
      var end := WindowEnd(text, chunkSize, start);
      var next := NextStart(start, end, chunkOverlap);
      var rest := WindowsFrom(text, chunkSize, chunkOverlap, next);
      assert ws == [Window(start, end)] + rest;
      WindowsPlaced(text, chunkSize, chunkOverlap, next);
      forall i | 0 <= i < |ws|
        ensures start <= ws[i].start < ws[i].end <= |text| && ws[i].end - ws[i].start <= chunkSize
      {
        if i > 0 {
          assert ws[i] == rest[i - 1];
        }
      }
    }
  }

  /** The first window starts at `start`; each next window starts
      `chunkOverlap` before the previous end, or at that end when this
      would not move past the previous start. */
  lemma {:induction false} WindowsChain(text: string, chunkSize: nat, chunkOverlap: int, start: nat)
    requires chunkSize > 0 && start < |text|
    ensures |WindowsFrom(text, chunkSize, chunkOverlap, start)| >= 1
    ensures WindowsFrom(text, chunkSize, chunkOverlap, start)[0].start == start
    ensures Chained(WindowsFrom(text, chunkSize, chunkOverlap, start), chunkOverlap)
    decreases |text| - start
  {
    var ws := WindowsFrom(text, chunkSize, chunkOverlap, start);
    var end := WindowEnd(text, chunkSize, start);
    var next := NextStart(start, end, chunkOverlap);
    var rest := WindowsFrom(text, chunkSize, chunkOverlap, next);
    assert ws == [Window(start, end)] + rest;
    if next < |text| {
      WindowsChain(text, chunkSize, chunkOverlap, next);
      forall i | 0 <= i < |ws| - 1
        ensures || (ws[i + 1].start == ws[i].end - chunkOverlap && ws[i].end - chunkOverlap > ws[i].start)
                || (ws[i + 1].start == ws[i].end && ws[i].end - chunkOverlap <= ws[i].start)
      {
        if i > 0 {
          assert ws[i] == rest[i - 1] && ws[i + 1] == rest[i];
        }
      }
    } else {
      assert rest == [];
    }
  }

  /** Consecutive windows follow the loop's rule for the next start. */
  predicate Chained(ws: seq<Window>, chunkOverlap: int) {
    forall i :: 0 <= i < |ws| - 1 ==>
      || (ws[i + 1].start == ws[i].end - chunkOverlap && ws[i].end - chunkOverlap > ws[i].start)
      || (ws[i + 1].start == ws[i].end && ws[i].end - chunkOverlap <= ws[i].start)
  }

  /** With a non-negative overlap the last window ends at the end of the
      text. */
  lemma {:induction false} WindowsReachEnd(text: string, chunkSize: nat, chunkOverlap: int, start: nat)
    requires chunkSize > 0 && chunkOverlap >= 0 && start < |text|
    ensures var ws := WindowsFrom(text, chunkSize, chunkOverlap, start);
            |ws| >= 1 && ws[|ws| - 1].end == |text|
    decreases |text| - start
  {
    var end := WindowEnd(text, chunkSize, start);
    var next := NextStart(start, end, chunkOverlap);
    var rest := WindowsFrom(text, chunkSize, chunkOverlap, next);
    assert WindowsFrom(text, chunkSize, chunkOverlap, start) == [Window(start, end)] + rest;
    if next < |text| {
      WindowsReachEnd(text, chunkSize, chunkOverlap, next);
    } else {
      assert rest == [];
    }
  }

  /** Window starts strictly increase, so the loop always makes progress. */
  lemma {:induction false} WindowStartsIncrease(text: string, chunkSize: nat, chunkOverlap: int, start: nat)
    requires chunkSize > 0
    ensures StartsIncrease(WindowsFrom(text, chunkSize, chunkOverlap, start))
    decreases |text| - start
  {
    if start < |text| {
      var ws := WindowsFrom(text, chunkSize, chunkOverlap, start);
      var end := WindowEnd(text, chunkSize, start);
      var next := NextStart(start, end, chunkOverlap);
      var rest := WindowsFrom(text, chunkSize, chunkOverlap, next);
      assert ws == [Window(start, end)] + rest;
      WindowStartsIncrease(text, chunkSize, chunkOverlap, next);
      WindowsPlaced(text, chunkSize, chunkOverlap, next);
      forall i, j | 0 <= i < j < |ws| ensures ws[i].start < ws[j].start {
        assert ws[j] == rest[j - 1];
        if i > 0 {
          assert ws[i] == rest[i - 1];
        }
      }
    }
  }

  /** With a non-negative overlap consecutive windows leave no gap, so
      every character from `start` on lies in some window. */
  lemma {:induction false} WindowsCover(text: string, chunkSize: nat, chunkOverlap: int, start: nat, p: nat)
    requires chunkSize > 0 && chunkOverlap >= 0 && start <= p < |text|
    ensures exists i :: 0 <= i < |WindowsFrom(text, chunkSize, chunkOverlap, start)|
                        && WindowsFrom(text, chunkSize, chunkOverlap, start)[i].start <= p
                        && p < WindowsFrom(text, chunkSize, chunkOverlap, start)[i].end
    decreases |text| - start
  {
    var ws := WindowsFrom(text, chunkSize, chunkOverlap, start);
    var end := WindowEnd(text, chunkSize, start);
    var next := NextStart(start, end, chunkOverlap);
    var rest := WindowsFrom(text, chunkSize, chunkOverlap, next);
    assert ws == [Window(start, end)] + rest;
    if p < end {
      assert ws[0].start <= p < ws[0].end;
    } else {
      WindowsCover(text, chunkSize, chunkOverlap, next, p);
      var i :| 0 <= i < |rest| && rest[i].start <= p < rest[i].end;
      assert ws[i + 1] == rest[i];
    }
  }

  /** Chunk `i` of the pieces `ps` is numbered `index + i`, has a
      non-empty text and is one of the pieces. */
  lemma {:induction false} ChunksOfShape(ps: seq<Piece>, index: nat)
    ensures |ChunksOf(ps, index)| <= |ps|
    ensures forall i :: 0 <= i < |ChunksOf(ps, index)| ==>
              && ChunksOf(ps, index)[i].index == index + i
              && ChunksOf(ps, index)[i].text != []
              && PieceOf(ChunksOf(ps, index)[i]) in ps
    decreases |ps|
  {
    if ps != [] {
      var e := Emitted(ps[0], index);
      var rest := ChunksOf(ps[1..], index + |e|);
      ChunksOfShape(ps[1..], index + |e|);
      var cs := ChunksOf(ps, index);
      assert cs == e + rest;
      forall i | 0 <= i < |cs|
        ensures cs[i].index == index + i && cs[i].text != [] && PieceOf(cs[i]) in ps
      {
        if i >= |e| {
          assert cs[i] == rest[i - |e|];
          assert PieceOf(cs[i]) in ps[1..];
        }
      }
    }
  }

  /** The piece a chunk was made from. */
  function PieceOf(c: TextChunk): Piece {
    Piece(Window(c.startChar, c.endChar), c.text)
  }

  /** Some chunk of `cs` was made from the piece `p`. */
  predicate Produced(cs: seq<TextChunk>, p: Piece) {
    exists i :: 0 <= i < |cs| && PieceOf(cs[i]) == p
  }

  /** Every piece with non-empty text gives a chunk. */
  lemma {:induction false} ChunksOfComplete(ps: seq<Piece>, index: nat)
    ensures forall p :: p in ps && p.content != [] ==> Produced(ChunksOf(ps, index), p)
    decreases |ps|
  {
    if ps != [] {
      var e := Emitted(ps[0], index);
      var tail := ps[1..];
      var rest := ChunksOf(tail, index + |e|);
      ChunksOfComplete(tail, index + |e|);
      var cs := ChunksOf(ps, index);
      assert cs == e + rest;
      forall p | p in ps && p.content != []
        ensures Produced(cs, p)
      {
        if p == ps[0] {
          assert e == [TextChunk(p.content, index, p.window.start, p.window.end)];
          assert cs[0] == e[0];
          assert PieceOf(cs[0]) == p;
        } else {
          assert p in tail;
          var i :| 0 <= i < |rest| && PieceOf(rest[i]) == p;
          assert cs[|e| + i] == rest[i];
        }
      }
    }
  }

  predicate PieceStartsIncrease(ps: seq<Piece>) {
    forall i, j :: 0 <= i < j < |ps| ==> ps[i].window.start < ps[j].window.start
  }

  /** Chunks keep the order of their pieces: with increasing window
      starts, chunk starts increase too, all at or after the first
      piece's start. */
  lemma {:induction false} ChunkStartsIncreaseFrom(ps: seq<Piece>, index: nat)
    requires PieceStartsIncrease(ps)
    ensures forall i :: 0 <= i < |ChunksOf(ps, index)| ==> ps[0].window.start <= ChunksOf(ps, index)[i].startChar
    ensures forall i, j :: 0 <= i < j < |ChunksOf(ps, index)| ==>
              ChunksOf(ps, index)[i].startChar < ChunksOf(ps, index)[j].startChar
    decreases |ps|
  {
    if ps != [] {
      var e := Emitted(ps[0], index);
      var tail := ps[1..];
      var rest := ChunksOf(tail, index + |e|);
      ChunkStartsIncreaseFrom(tail, index + |e|);
      var cs := ChunksOf(ps, index);
      assert cs == e + rest;
      if |tail| > 0 {
        assert ps[0].window.start < tail[0].window.start;
      } else {
        assert rest == [];
      }
      forall i | 0 <= i < |cs| ensures ps[0].window.start <= cs[i].startChar {
        if i >= |e| {
          assert cs[i] == rest[i - |e|];
        }
      }
      forall i, j | 0 <= i < j < |cs| ensures cs[i].startChar < cs[j].startChar {
        assert cs[j] == rest[j - |e|];
        if i >= |e| {
          assert cs[i] == rest[i - |e|];
        }
      }
    }
  }

  /** Every chunk of `chunk_text`: index `i` at position `i`, a non-empty
      text, offsets inside the text spanning at most `chunkSize`
      characters; its text is the stripped slice of its offsets (the slice
      itself when the whole text fits in one chunk). */
  lemma ChunksWellFormed(text: string, chunkSize: nat, chunkOverlap: int, i: nat)
    requires chunkSize > 0 && i < |Chunks(text, chunkSize, chunkOverlap)|
    ensures var c := Chunks(text, chunkSize, chunkOverlap)[i];
            && c.index == i && c.text != []
            && c.startChar < c.endChar <= |text|
            && c.endChar - c.startChar <= chunkSize
            && (|text| > chunkSize ==> c.text == Strip(text[c.startChar..c.endChar]))
            && (|text| <= chunkSize ==> c.text == text[c.startChar..c.endChar])
  {
    if |text| > chunkSize {
      var ws := Windows(text, chunkSize, chunkOverlap);
      var ps := Pieces(text, ws);
      ChunksAccWindows(text, chunkSize, chunkOverlap, 0, 0, []);
      ChunksOfShape(ps, 0);
      WindowsPlaced(text, chunkSize, chunkOverlap, 0);
      var c := Chunks(text, chunkSize, chunkOverlap)[i];
      var k :| 0 <= k < |ps| && ps[k] == PieceOf(c);
      assert ws[k] == Window(c.startChar, c.endChar);
    }
  }

  /** Every chunk of a long text comes from one of its windows. */
  lemma ChunksAreWindows(text: string, chunkSize: nat, chunkOverlap: int)
    requires chunkSize > 0 && |text| > chunkSize
    ensures forall i :: 0 <= i < |Chunks(text, chunkSize, chunkOverlap)| ==>
              Window(Chunks(text, chunkSize, chunkOverlap)[i].startChar, Chunks(text, chunkSize, chunkOverlap)[i].endChar)
              in Windows(text, chunkSize, chunkOverlap)
  {
    var ws := Windows(text, chunkSize, chunkOverlap);
    var ps := Pieces(text, ws);
    var cs := Chunks(text, chunkSize, chunkOverlap);
    ChunksAccWindows(text, chunkSize, chunkOverlap, 0, 0, []);
    assert cs == ChunksOf(ps, 0);
    ChunksOfShape(ps, 0);
    forall i | 0 <= i < |cs| ensures Window(cs[i].startChar, cs[i].endChar) in ws {
      WindowOfChunk(ws, ps, cs[i]);
    }
  }

  lemma WindowOfChunk(ws: seq<Window>, ps: seq<Piece>, c: TextChunk)
    requires |ps| == |ws| && forall k :: 0 <= k < |ps| ==> ps[k].window == ws[k]
    requires PieceOf(c) in ps
    ensures Window(c.startChar, c.endChar) in ws
  {
    var k :| 0 <= k < |ps| && ps[k] == PieceOf(c);
    assert ws[k] == Window(c.startChar, c.endChar);
  }

  /** Every window of a long text whose stripped text is not blank gives a
      chunk. */
  lemma NonBlankWindowsAreChunks(text: string, chunkSize: nat, chunkOverlap: int)
    requires chunkSize > 0 && |text| > chunkSize
    ensures forall w :: w in Windows(text, chunkSize, chunkOverlap) && Content(text, w) != [] ==>
              Produced(Chunks(text, chunkSize, chunkOverlap), Piece(w, Content(text, w)))
  {
    var ws := Windows(text, chunkSize, chunkOverlap);
    var ps := Pieces(text, ws);
    var cs := Chunks(text, chunkSize, chunkOverlap);
    ChunksAccWindows(text, chunkSize, chunkOverlap, 0, 0, []);
    assert cs == ChunksOf(ps, 0);
    ChunksOfComplete(ps, 0);
    forall w | w in ws && Content(text, w) != []
      ensures Produced(cs, Piece(w, Content(text, w)))
    {
      var k :| 0 <= k < |ws| && ws[k] == w;
      assert ps[k] == Piece(w, Content(text, w));
    }
  }

  /** The chunks of a long text follow window order: their starts
      strictly increase. */
  lemma ChunksInOrder(text: string, chunkSize: nat, chunkOverlap: int)
    requires chunkSize > 0 && |text| > chunkSize
    ensures forall i, j :: 0 <= i < j < |Chunks(text, chunkSize, chunkOverlap)| ==>
              Chunks(text, chunkSize, chunkOverlap)[i].startChar < Chunks(text, chunkSize, chunkOverlap)[j].startChar
  {
    var ws := Windows(text, chunkSize, chunkOverlap);
    var ps := Pieces(text, ws);
    ChunksAccWindows(text, chunkSize, chunkOverlap, 0, 0, []);
    assert Chunks(text, chunkSize, chunkOverlap) == ChunksOf(ps, 0);
    WindowStartsIncrease(text, chunkSize, chunkOverlap, 0);
    assert PieceStartsIncrease(ps);
    ChunkStartsIncreaseFrom(ps, 0);
  }

  /** A text that does not begin with whitespace — what `extract_text`
      hands on — always yields at least one chunk: the first window holds
      its first character. */
  lemma ChunksOfStrippedText(text: string, chunkSize: nat, chunkOverlap: int)
    requires chunkSize > 0
    requires text != [] && !IsSpace(text[0])
    ensures |Chunks(text, chunkSize, chunkOverlap)| >= 1
  {
    if |text| > chunkSize {
      var ws := Windows(text, chunkSize, chunkOverlap);
      WindowsChain(text, chunkSize, chunkOverlap, 0);
      WindowsPlaced(text, chunkSize, chunkOverlap, 0);
      var w := ws[0];
      assert text[w.start..w.end][0] == text[0];
      StripBlank(text[w.start..w.end]);
      var ps := Pieces(text, ws);
      ChunksAccWindows(text, chunkSize, chunkOverlap, 0, 0, []);
      assert |Emitted(ps[0], 0)| == 1;
    }
  }

  /** A text free of every separator character never gets an early cut. */
  lemma NoSeparatorNoBreak(text: string, start: nat, end: nat)
    requires start < end <= |text|
    requires forall i :: 0 <= i < |text| ==> text[i] !in "\n.!?; "
    ensures FindBreakPoint(text, start, end) == end
  {
    var searchStart := Max(start + 1, end - BreakSearchRange);
    var search := text[searchStart..end];
    forall m | 0 <= m < |Separators| ensures !Occurs(search, Separators[m]) {
      assert Separators[m][0] in "\n.!?; ";
      RFindAbsent(search, Separators[m]);
    }
    FindBreakPointSpec(text, start, end);
  }

  /** Once a window reaches the end of the text the loop still moves on to
      `len - chunkOverlap`, and emits one more window there when that lies
      past the last window's start: a 12,000-character text without
      separators, chunked with size 5000 and overlap 1000, gives four
      windows, the last one `[11000, 12000)` lying inside the third. */
  lemma TailWindow(text: string)
    requires |text| == 12000
    requires forall i :: 0 <= i < |text| ==> text[i] !in "\n.!?; "
    ensures Windows(text, 5000, 1000)
            == [Window(0, 5000), Window(4000, 9000), Window(8000, 12000), Window(11000, 12000)]
  {
    NoSeparatorNoBreak(text, 0, 5000);
    NoSeparatorNoBreak(text, 4000, 9000);
    assert WindowEnd(text, 5000, 0) == 5000;
    assert WindowEnd(text, 5000, 4000) == 9000;
    assert WindowEnd(text, 5000, 8000) == 12000;
    assert WindowEnd(text, 5000, 11000) == 12000;
    assert WindowsFrom(text, 5000, 1000, 12000) == [];
    assert WindowsFrom(text, 5000, 1000, 11000) == [Window(11000, 12000)];
    assert WindowsFrom(text, 5000, 1000, 8000) == [Window(8000, 12000), Window(11000, 12000)];
    assert WindowsFrom(text, 5000, 1000, 4000)
           == [Window(4000, 9000), Window(8000, 12000), Window(11000, 12000)];
  }
}
