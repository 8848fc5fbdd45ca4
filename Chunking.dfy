/**
 * document_processor.py: the sliding-window chunker, the supported-file test
 * and the convert -> chunk -> embed pipeline of DocumentProcessor. The two
 * library calls (MarkItDown's conversion and SentenceTransformer's encoder)
 * are function values handed to the processor when it is built.
 */
module Chunking {
  import opened Wrappers
  import opened Text
  import Config

  type Vector = Config.Vector

  /** The text of the exception `convert_to_markdown` raises on failure. */
  const CONVERSION_FAILED_PREFIX: string := "文件轉換失敗: "

  // ---------------------------------------------------------------------------
  // The window sequence of chunk_text

  /** Where window k starts when every iteration advances by size - overlap. */
  function WindowStart(size: int, overlap: int, k: nat): nat
    requires overlap < size
  {
    assert k * (size - overlap) >= 0 by { NonNegativeProduct(k, size - overlap); }
    k * (size - overlap)
  }

  lemma NonNegativeProduct(a: nat, b: nat)
    ensures a * b >= 0
  {
  }

  /** Python's `text[start:start + size]` for 0 <= start < len(text): the end
      is clipped at the length of the text. */
  function Window(text: string, start: nat, size: nat): string
    requires start < |text|
  {
    text[start..if start + size <= |text| then start + size else |text|]
  }

  /** The windows the loop visits from `start` on, blank ones included. */
  function WindowsFrom(text: string, size: int, overlap: int, start: nat): seq<string>
    requires 0 <= overlap < size
    decreases |text| - start
  {
    if start < |text| then
      [Window(text, start, size)] + WindowsFrom(text, size, overlap, start + size - overlap)
    else []
  }

  function Windows(text: string, size: int, overlap: int): seq<string>
    requires 0 <= overlap < size
  {
    WindowsFrom(text, size, overlap, 0)
  }

  /** The filter `if chunk.strip(): chunks.append(chunk)`. */
  function KeepNonBlank(ws: seq<string>): seq<string>
  {
    if ws == [] then []
    else (if Strip(ws[0]) == [] then [] else [ws[0]]) + KeepNonBlank(ws[1..])
  }

  /** One iteration of the loop: the window at `start` is kept iff it is not
      blank, and the rest of the windows start `size - overlap` further on. */
  lemma KeepNonBlankStep(text: string, size: int, overlap: int, start: nat)
    requires 0 <= overlap < size && start < |text|
    ensures KeepNonBlank(WindowsFrom(text, size, overlap, start)) ==
              (if Strip(Window(text, start, size)) == [] then [] else [Window(text, start, size)]) +
              KeepNonBlank(WindowsFrom(text, size, overlap, start + size - overlap))
  {
    var w := Window(text, start, size);
    var rest := WindowsFrom(text, size, overlap, start + size - overlap);
    assert ([w] + rest)[0] == w && ([w] + rest)[1..] == rest;
  }

  /** The loop invariant of chunk_text carried across one iteration: after
      the window at `start` has been appended (or skipped), what is collected
      plus what the remaining windows give is unchanged. */
  lemma ChunkLoopStep(text: string, size: int, overlap: int, start: nat, next: nat,
                      chunks: seq<string>, chunks': seq<string>)
    requires 0 <= overlap < size && start < |text| && next == start + size - overlap
    requires chunks' == if Strip(Window(text, start, size)) != [] then chunks + [Window(text, start, size)] else chunks
    requires chunks + KeepNonBlank(WindowsFrom(text, size, overlap, start)) == Chunks(text, size, overlap)
    ensures chunks' + KeepNonBlank(WindowsFrom(text, size, overlap, next)) == Chunks(text, size, overlap)
  {
    KeepNonBlankStep(text, size, overlap, start);
    var w := Window(text, start, size);
    var rest := KeepNonBlank(WindowsFrom(text, size, overlap, start + size - overlap));
    if Strip(w) != [] {
      assert chunks + ([w] + rest) == (chunks + [w]) + rest;
    } else {
      assert [] + rest == rest;
    }
  }

  /** What chunk_text returns for a valid size and overlap. */
  function Chunks(text: string, size: int, overlap: int): seq<string>
    requires 0 <= overlap < size
  {
    KeepNonBlank(Windows(text, size, overlap))
  }

  /** The value of `start` after n iterations of the loop body, which sets
      `start = (start + chunk_size) - overlap` whatever the parameters are. */
  function StartAfter(size: int, overlap: int, n: nat): int
  {
    if n == 0 then 0 else StartAfter(size, overlap, n - 1) + size - overlap
  }

  /** With a valid configuration every iteration advances `start` by exactly
      size - overlap > 0, so the loop runs ceil(len / (size - overlap)) times. */
  lemma {:induction false} StartAdvancesBySteps(size: int, overlap: int, n: nat)
    requires 0 <= overlap < size
    ensures StartAfter(size, overlap, n) == WindowStart(size, overlap, n)
    ensures n > 0 ==> StartAfter(size, overlap, n) > StartAfter(size, overlap, n - 1)
  {
    if n > 0 {
      StartAdvancesBySteps(size, overlap, n - 1);
      assert (n - 1) * (size - overlap) + (size - overlap) == n * (size - overlap);
    }
  }

  /** The source has no guard on the parameters: when overlap >= chunk_size
      `start` never becomes positive, so for a non-empty text the loop
      condition `start < text_length` holds after every number of iterations
      and chunk_text never returns. */
  lemma {:induction false} LoopNeverExitsWhenOverlapTooLarge(text: string, size: int, overlap: int, n: nat)
    requires overlap >= size
    requires |text| > 0
    ensures StartAfter(size, overlap, n) <= 0
    ensures StartAfter(size, overlap, n) < |text|
  {
    if n > 0 { LoopNeverExitsWhenOverlapTooLarge(text, size, overlap, n - 1); }
  }

  /** Window k of WindowsFrom(start) starts k steps after `start`, and it
      exists exactly while that position is inside the text. */
  lemma {:induction false} WindowsFromAt(text: string, size: int, overlap: int, start: nat, k: nat)
    requires 0 <= overlap < size
    ensures k < |WindowsFrom(text, size, overlap, start)| <==> start + WindowStart(size, overlap, k) < |text|
    ensures k < |WindowsFrom(text, size, overlap, start)| ==>
              WindowsFrom(text, size, overlap, start)[k] == Window(text, start + WindowStart(size, overlap, k), size)
    decreases k
  {
    var d := size - overlap;
    var ws := WindowsFrom(text, size, overlap, start);
    if start < |text| {
      var rest := WindowsFrom(text, size, overlap, start + d);
      assert ws == [Window(text, start, size)] + rest;
      if k > 0 {
        WindowsFromAt(text, size, overlap, start + d, k - 1);
        WindowStartStep(size, overlap, k);
        if k < |ws| { assert ws[k] == rest[k - 1]; }
      } else {
        assert WindowStart(size, overlap, 0) == 0;
      }
    }
  }

  lemma WindowStartStep(size: int, overlap: int, k: nat)
    requires overlap < size && k > 0
    ensures WindowStart(size, overlap, k) == WindowStart(size, overlap, k - 1) + (size - overlap)
  {
  }

  /** The windows visited are exactly those k >= 0 with k*(S-O) < L, and
      window k is `text[k*(S-O) : min(k*(S-O) + S, L)]`. */
  lemma WindowsAt(text: string, size: int, overlap: int, k: nat)
    requires 0 <= overlap < size
    ensures k < |Windows(text, size, overlap)| <==> WindowStart(size, overlap, k) < |text|
    ensures k < |Windows(text, size, overlap)| ==>
              Windows(text, size, overlap)[k] == Window(text, WindowStart(size, overlap, k), size)
  {
    WindowsFromAt(text, size, overlap, 0, k);
    assert 0 + WindowStart(size, overlap, k) == WindowStart(size, overlap, k);
  }

  /** Positions, from `from` on, of the non-blank windows, in increasing order. */
  function NonBlankIndices(ws: seq<string>, from: nat): seq<nat>
    decreases |ws| - from
  {
    if from >= |ws| then []
    else (if Strip(ws[from]) == [] then [] else [from]) + NonBlankIndices(ws, from + 1)
  }

  lemma KeepNonBlankUnfold(ws: seq<string>, from: nat)
    requires from < |ws|
    ensures KeepNonBlank(ws[from..]) ==
              (if Strip(ws[from]) == [] then [] else [ws[from]]) + KeepNonBlank(ws[from + 1..])
  {
    assert ws[from..][0] == ws[from];
    assert ws[from..][1..] == ws[from + 1..];
  }

  /** The filter keeps exactly the non-blank windows, in their order. */
  lemma {:induction false} KeepNonBlankIndices(ws: seq<string>, from: nat)
    requires from <= |ws|
    ensures |KeepNonBlank(ws[from..])| == |NonBlankIndices(ws, from)|
    ensures forall i :: 0 <= i < |NonBlankIndices(ws, from)| ==>
              from <= NonBlankIndices(ws, from)[i] < |ws| &&
              KeepNonBlank(ws[from..])[i] == ws[NonBlankIndices(ws, from)[i]]
    decreases |ws| - from
  {
    if from < |ws| {
      KeepNonBlankIndices(ws, from + 1);
      KeepNonBlankUnfold(ws, from);
    }
  }

  lemma {:induction false} NonBlankIndicesIncreasing(ws: seq<string>, from: nat)
    ensures forall i :: 0 <= i < |NonBlankIndices(ws, from)| ==> from <= NonBlankIndices(ws, from)[i]
    ensures forall i, j :: 0 <= i < j < |NonBlankIndices(ws, from)| ==>
              NonBlankIndices(ws, from)[i] < NonBlankIndices(ws, from)[j]
    decreases |ws| - from
  {
    if from < |ws| {
      NonBlankIndicesIncreasing(ws, from + 1);
    }
  }

  lemma {:induction false} NonBlankIndicesComplete(ws: seq<string>, from: nat)
    ensures forall j :: from <= j < |ws| ==> (Strip(ws[j]) != [] <==> j in NonBlankIndices(ws, from))
    decreases |ws| - from
  {
    if from < |ws| {
      NonBlankIndicesComplete(ws, from + 1);
      NonBlankIndicesIncreasing(ws, from + 1);
    }
  }

  /** Every chunk is the non-blank window k = ks[i] of the text, for a
      strictly increasing ks, and every non-blank window is emitted; each
      chunk therefore is a substring of the text of length at most `size`. */
  lemma ChunksAreNonBlankWindows(text: string, size: int, overlap: int)
    requires 0 <= overlap < size
    ensures var ks := NonBlankIndices(Windows(text, size, overlap), 0);
            var cs := Chunks(text, size, overlap);
            && |cs| == |ks|
            && (forall i, j :: 0 <= i < j < |ks| ==> ks[i] < ks[j])
            && (forall i :: 0 <= i < |cs| ==>
                  && WindowStart(size, overlap, ks[i]) < |text|
                  && cs[i] == Window(text, WindowStart(size, overlap, ks[i]), size)
                  && Strip(cs[i]) != []
                  && |cs[i]| <= size)
            && (forall k: nat :: (WindowStart(size, overlap, k) < |text| &&
                  Strip(Window(text, WindowStart(size, overlap, k), size)) != []) ==> k in ks)
  {
    var ws := Windows(text, size, overlap);
    var ks := NonBlankIndices(ws, 0);
    KeepNonBlankIndices(ws, 0);
    NonBlankIndicesIncreasing(ws, 0);
    NonBlankIndicesComplete(ws, 0);
    assert ws[0..] == ws;
    forall i | 0 <= i < |ks|
      ensures WindowStart(size, overlap, ks[i]) < |text|
      ensures ws[ks[i]] == Window(text, WindowStart(size, overlap, ks[i]), size)
      ensures Strip(ws[ks[i]]) != []
    {
      WindowsAt(text, size, overlap, ks[i]);
    }
    forall k: nat | WindowStart(size, overlap, k) < |text| &&
                    Strip(Window(text, WindowStart(size, overlap, k), size)) != []
      ensures k in ks
    {
      WindowsAt(text, size, overlap, k);
    }
  }

  /** Every chunk has a non-empty strip(), so it holds a non-whitespace
      character, and it has at most `size` characters. */
  lemma ChunksNonBlankAndBounded(text: string, size: int, overlap: int)
    requires 0 <= overlap < size
    ensures forall i :: 0 <= i < |Chunks(text, size, overlap)| ==>
              && Strip(Chunks(text, size, overlap)[i]) != []
              && !IsBlank(Chunks(text, size, overlap)[i])
              && |Chunks(text, size, overlap)[i]| <= size
  {
    ChunksAreNonBlankWindows(text, size, overlap);
    forall i | 0 <= i < |Chunks(text, size, overlap)|
      ensures !IsBlank(Chunks(text, size, overlap)[i])
    {
      StripEmptyIffBlank(Chunks(text, size, overlap)[i]);
    }
  }

  /** `start` is computed from the unclipped `end`, so once the text ends
      within the last `overlap` characters of window k-1, window k is a
      suffix of it and adds no text of its own. */
  lemma FinalWindowInsidePrevious(text: string, size: int, overlap: int, k: nat)
    requires 0 <= overlap < size && k >= 1
    requires WindowStart(size, overlap, k) < |text| <= WindowStart(size, overlap, k - 1) + size
    ensures k < |Windows(text, size, overlap)|
    ensures |Windows(text, size, overlap)[k - 1]| >= size - overlap
    ensures Windows(text, size, overlap)[k] == Windows(text, size, overlap)[k - 1][size - overlap..]
  {
    var a, b := WindowStart(size, overlap, k - 1), WindowStart(size, overlap, k);
    WindowStartStep(size, overlap, k);
    WindowsAt(text, size, overlap, k);
    WindowsAt(text, size, overlap, k - 1);
    var ws := Windows(text, size, overlap);
    assert ws[k - 1] == text[a..] && ws[k] == text[b..];
    assert text[a..][size - overlap..] == text[b..];
  }

  /** An instance: "abcdef" with size 4 and overlap 2 gives the windows
      "abcd", "cdef" and "ef", and the last lies inside "cdef". */
  lemma RedundantFinalWindow()
    ensures Chunks("abcdef", 4, 2) == ["abcd", "cdef", "ef"]
    ensures Windows("abcdef", 4, 2)[2] == Windows("abcdef", 4, 2)[1][2..]
  {
    FinalWindowInsidePrevious("abcdef", 4, 2, 2);
    var t := "abcdef";
    assert WindowsFrom(t, 4, 2, 6) == [];
    assert Window(t, 4, 4) == "ef";
    assert WindowsFrom(t, 4, 2, 4) == ["ef"];
    assert Window(t, 2, 4) == "cdef";
    assert WindowsFrom(t, 4, 2, 2) == ["cdef", "ef"];
    assert Window(t, 0, 4) == "abcd";
    assert Windows(t, 4, 2) == ["abcd", "cdef", "ef"];
    assert Strip("abcd") != [] && Strip("cdef") != [] && Strip("ef") != [] by {
      assert "abcd"[0] == 'a' && "cdef"[0] == 'c' && "ef"[0] == 'e';
    }
    var ws := ["abcd", "cdef", "ef"];
    assert ws[1..] == ["cdef", "ef"] && ws[1..][1..] == ["ef"] && ws[1..][1..][1..] == [];
  }

  /** `chunk_size` and `overlap` fall back to config.CHUNK_SIZE and
      config.CHUNK_OVERLAP when they are None. */
  function ResolvedSize(chunkSize: Option<int>): int
  {
    if chunkSize.Some? then chunkSize.value else Config.CHUNK_SIZE
  }

  function ResolvedOverlap(overlap: Option<int>): int
  {
    if overlap.Some? then overlap.value else Config.CHUNK_OVERLAP
  }

  /** The defaults are a valid configuration: process_document's call
      chunk_text(text) always returns, with windows 450 characters apart. */
  lemma DefaultsTerminate(chunkSize: Option<int>, overlap: Option<int>)
    requires chunkSize.None? && overlap.None?
    ensures 0 <= ResolvedOverlap(overlap) < ResolvedSize(chunkSize)
    ensures ResolvedSize(chunkSize) - ResolvedOverlap(overlap) == 450
  {
  }

  // ---------------------------------------------------------------------------
  // Paths

  /** The extension that posixpath.splitext reports: from the last '.' of the
      last path component, provided that component has a character other than
      '.' before it (so ".bashrc" and "a/..." have no extension). */
  function SplitExtension(p: string): string
  {
    var sep := LastIndexOf(p, '/');
    var dot := LastIndexOf(p, '.');
    if dot > sep && exists i :: sep < i < dot && p[i] != '.' then p[dot..] else ""
  }

  /** DocumentProcessor.is_supported_file: only a path that ends, in any
      case, with one of the extensions is accepted (the converse, which needs
      the stem, is SupportedIffEndsWithExtension). */
  predicate IsSupportedFile(p: string)
    ensures IsSupportedFile(p) ==>
              |SplitExtension(p)| <= |p| &&
              Lower(p[|p| - |SplitExtension(p)|..]) in Config.SUPPORTED_EXTENSIONS
  {
    ExtensionIsSuffix(p);
    Lower(SplitExtension(p)) in Config.SUPPORTED_EXTENSIONS
  }

  /** The extension is empty or the tail of the path from a '.'. */
  lemma ExtensionIsSuffix(p: string)
    ensures var e := SplitExtension(p);
            e == [] || (|e| <= |p| && e == p[|p| - |e|..] && e[0] == '.')
  {
  }

  /** The last path component of `stem` holds a character other than '.'. */
  predicate HasNamedStem(stem: string)
  {
    exists i :: LastIndexOf(stem, '/') < i < |stem| && stem[i] != '.'
  }

  /** What a path must end with to be accepted: one of the nine extensions in
      any mix of case, after a last path component that is not only dots. */
  predicate EndsWithSupportedExtension(p: string)
  {
    exists e :: e in Config.SUPPORTED_EXTENSIONS && |e| <= |p| &&
      Lower(p[|p| - |e|..]) == e && HasNamedStem(p[..|p| - |e|])
  }

  /** Every extension is a '.' followed by letters only. */
  lemma ExtensionShape(e: string)
    requires e in Config.SUPPORTED_EXTENSIONS
    ensures |e| >= 2 && e[0] == '.'
    ensures forall j :: 1 <= j < |e| ==> 'a' <= e[j] <= 'z'
  {
  }

  /** is_supported_file is true iff the path ends with a supported extension
      (case-insensitively) that splitext recognises as an extension. */
  lemma SupportedIffEndsWithExtension(p: string)
    ensures IsSupportedFile(p) <==> EndsWithSupportedExtension(p)
  {
    if IsSupportedFile(p) { SupportedEndsWithExtension(p); }
    if EndsWithSupportedExtension(p) {
      var e :| e in Config.SUPPORTED_EXTENSIONS && |e| <= |p| &&
        Lower(p[|p| - |e|..]) == e && HasNamedStem(p[..|p| - |e|]);
      ExtensionShape(e);
      ExtensionSuffixIsSplit(p, e);
    }
  }

  lemma SupportedEndsWithExtension(p: string)
    requires IsSupportedFile(p)
    ensures EndsWithSupportedExtension(p)
  {
    var n := |p| - |SplitExtension(p)|;
    SupportedStemIsNamed(p);
    var e := Lower(p[n..]);
    assert |e| == |p| - n;
  }

  /** What splitext leaves before an accepted extension is a named stem. */
  lemma SupportedStemIsNamed(p: string)
    requires IsSupportedFile(p)
    ensures |SplitExtension(p)| <= |p| && HasNamedStem(p[..|p| - |SplitExtension(p)|])
  {
    var sep := LastIndexOf(p, '/');
    var dot := LastIndexOf(p, '.');
    var ext := SplitExtension(p);
    assert ext != [];
    assert ext == p[dot..];
    var stem := p[..dot];
    assert p[..|p| - |ext|] == stem;
    LastIndexOfUnique(stem, '/', sep);
    var i :| sep < i < dot && p[i] != '.';
    assert stem[i] != '.';
  }

  /** A suffix shaped like an extension, after a named stem, is exactly what
      splitext splits off. */
  lemma ExtensionSuffixIsSplit(p: string, e: string)
    requires |e| >= 1 && e[0] == '.'
    requires forall j :: 1 <= j < |e| ==> 'a' <= e[j] <= 'z'
    requires |e| <= |p| && Lower(p[|p| - |e|..]) == e && HasNamedStem(p[..|p| - |e|])
    ensures SplitExtension(p) == p[|p| - |e|..]
  {
    var n := |p| - |e|;
    var s := p[n..];
    var stem := p[..n];
    forall j | 0 <= j < |s| ensures (s[j] == '.' <==> j == 0) && s[j] != '/' {
      assert LowerChar(s[j]) == e[j];
      LowerCharFixesPunctuation(s[j], '.');
      LowerCharFixesPunctuation(s[j], '/');
    }
    assert p[n] == s[0];
    forall i | n < i < |p| ensures p[i] != '.' && p[i] != '/' {
      assert p[i] == s[i - n];
    }
    LastIndexOfUnique(p, '.', n);
    var m := LastIndexOf(stem, '/');
    forall i | m < i < |p| ensures p[i] != '/' {
      if i < n { assert p[i] == stem[i]; }
    }
    LastIndexOfUnique(p, '/', m);
    var i :| m < i < |stem| && stem[i] != '.';
    assert p[i] == stem[i];
  }

  /** A path with no '.' at all is never supported. */
  lemma NoDotNotSupported(p: string)
    requires forall i :: 0 <= i < |p| ==> p[i] != '.'
    ensures !IsSupportedFile(p)
  {
    assert LastIndexOf(p, '.') == -1;
    assert SplitExtension(p) == "";
    assert Lower("") == "";
  }

  lemma LowerIdempotent(s: string)
    ensures Lower(Lower(s)) == Lower(s)
  {
  }

  /** Lowering a path moves none of its '.' and '/' characters. */
  lemma {:induction false} LowerKeepsLastIndex(p: string, c: char)
    requires c == '.' || c == '/'
    ensures LastIndexOf(Lower(p), c) == LastIndexOf(p, c)
  {
    var k := LastIndexOf(p, c);
    forall i | 0 <= i < |p| ensures Lower(p)[i] == c <==> p[i] == c {
      LowerCharFixesPunctuation(p[i], c);
    }
    LastIndexOfUnique(Lower(p), c, k);
  }

  /** The test is case-insensitive: a path is accepted iff its lower-cased
      form is. */
  lemma SupportedIsCaseInsensitive(p: string)
    ensures IsSupportedFile(p) <==> IsSupportedFile(Lower(p))
  {
    var q := Lower(p);
    LowerKeepsLastIndex(p, '.');
    LowerKeepsLastIndex(p, '/');
    forall i | 0 <= i < |p| ensures q[i] == '.' <==> p[i] == '.' {
      LowerCharFixesPunctuation(p[i], '.');
    }
    var sep := LastIndexOf(p, '/');
    var dot := LastIndexOf(p, '.');
    if dot > sep && exists i :: sep < i < dot && p[i] != '.' {
      var i :| sep < i < dot && p[i] != '.';
      assert q[i] != '.';
      assert SplitExtension(q) == q[dot..];
      assert q[dot..] == Lower(p[dot..]);
      LowerIdempotent(p[dot..]);
    } else {
      assert SplitExtension(q) == "";
    }
  }

  /** os.path.basename: the part after the last '/'. */
  function Basename(p: string): (b: string)
    ensures forall i :: 0 <= i < |b| ==> b[i] != '/'
    ensures |b| <= |p| && b == p[|p| - |b|..]
    ensures |b| < |p| ==> p[|p| - |b| - 1] == '/'
  {
    p[LastIndexOf(p, '/') + 1..]
  }

  // ---------------------------------------------------------------------------
  // The processor

  /** The dictionary process_document returns. */
  datatype ProcessedDocument = ProcessedDocument(
    fileName: string,
    dataName: string,
    markdownText: string,
    chunks: seq<string>,
    embeddings: seq<Vector>)

  class DocumentProcessor {
    /** `self.markitdown.convert(path).text_content`, or the exception it raises. */
    const convert: string -> Result<string>
    /** `self.embedding_model.encode(texts).tolist()`, or the exception it raises. */
    const embed: seq<string> -> Result<seq<Vector>>

    constructor (convert: string -> Result<string>, embed: seq<string> -> Result<seq<Vector>>)
      ensures this.convert == convert && this.embed == embed
    {
      this.convert := convert;
      this.embed := embed;
    }

    /** convert_to_markdown: the converted text, or the library's error
        message behind the fixed prefix. */
    function ConvertToMarkdown(filePath: string): (r: Result<string>)
      ensures r.Success? <==> convert(filePath).Success?
      ensures r.Success? ==> r.value == convert(filePath).value
      ensures r.Failure? ==> r.error == CONVERSION_FAILED_PREFIX + convert(filePath).error
    {
      match convert(filePath)
      case Success(text) => Success(text)
      case Failure(msg) => Failure(CONVERSION_FAILED_PREFIX + msg)
    }

    /** chunk_text. The loop has no guard against overlap >= chunk_size (see
        LoopNeverExitsWhenOverlapTooLarge), so the resolved parameters must
        satisfy 0 <= overlap < chunk_size. */
    method ChunkText(text: string, chunkSize: Option<int>, overlap: Option<int>) returns (chunks: seq<string>)
      requires 0 <= ResolvedOverlap(overlap) < ResolvedSize(chunkSize)
      ensures chunks == Chunks(text, ResolvedSize(chunkSize), ResolvedOverlap(overlap))
      ensures |text| == 0 ==> chunks == []
      ensures forall i :: 0 <= i < |chunks| ==> Strip(chunks[i]) != [] && |chunks[i]| <= ResolvedSize(chunkSize)
    {
      var size := ResolvedSize(chunkSize);
      var over := ResolvedOverlap(overlap);
      chunks := [];
      var start: nat := 0;
      assert chunks + KeepNonBlank(WindowsFrom(text, size, over, start)) == Chunks(text, size, over);
      while start < |text|
        invariant chunks + KeepNonBlank(WindowsFrom(text, size, over, start)) == Chunks(text, size, over)
        decreases |text| - start
      {
        var end := start + size;
        var chunk := Window(text, start, size);  // text[start:end]
        ghost var before, visited := chunks, start;
        if Strip(chunk) != [] {
          chunks := chunks + [chunk];
        }
        start := end - over;
        ChunkLoopStep(text, size, over, visited, start, before, chunks);
      }
      ChunksNonBlankAndBounded(text, size, over);
    }

    /** embed_text: the model's embeddings of the texts, or the exception
        `encode` raises. */
    function EmbedText(texts: seq<string>): (r: Result<seq<Vector>>)
      ensures r.Success? <==> embed(texts).Success?
      ensures r.Success? ==> r.value == embed(texts).value
      ensures r.Failure? ==> r.error == embed(texts).error
    {
      embed(texts)
    }

    /** process_document: convert, chunk with the default parameters, embed;
        a failure of either library call ends the operation with its message. */
    method ProcessDocument(filePath: string, dataName: string) returns (r: Result<ProcessedDocument>)
      ensures convert(filePath).Failure? ==>
                r == Failure(CONVERSION_FAILED_PREFIX + convert(filePath).error)
      ensures convert(filePath).Success? ==>
                var text := convert(filePath).value;
                var chunks := Chunks(text, Config.CHUNK_SIZE, Config.CHUNK_OVERLAP);
                && (embed(chunks).Failure? ==> r == Failure(embed(chunks).error))
                && (embed(chunks).Success? ==>
                      r == Success(ProcessedDocument(Basename(filePath), dataName, text, chunks, embed(chunks).value)))
    {
      var converted := ConvertToMarkdown(filePath);
      if converted.Failure? {
        return Failure(converted.error);
      }
      var markdownText := converted.value;
      var chunks := ChunkText(markdownText, None, None);
      var embeddings := EmbedText(chunks);
      if embeddings.Failure? {
        return Failure(embeddings.error);
      }
      r := Success(ProcessedDocument(Basename(filePath), dataName, markdownText, chunks, embeddings.value));
    }
  }
}
