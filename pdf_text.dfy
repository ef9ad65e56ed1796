/**
 * `extract_text_from_pdf(file)`: the text of at most the first twenty pages, each page's
 * text without NUL characters and stripped, joined by newlines, stripped again and cut
 * to 8000 characters. Reading stops early once the kept text exceeds 8000 characters,
 * and any parsing error gives the empty string.
 */
module PdfText {
  import opened Wrappers
  import opened PyText

  const MaxPages := 20
  const MaxChars := 8000

  /** What `page.extract_text()` gives for one page: some text, `None`, or an exception. */
  datatype PageText = Text(s: string) | NoText | ExtractFails

  /** The document as `pdfplumber.open` sees it: it cannot be opened, or it has these pages. */
  datatype PdfFile = Unopenable | Opened(pages: seq<PageText>)

  /** A page's text as it is kept: NUL characters removed, then stripped. */
  function Cleaned(s: string): (r: string)
    ensures Stripped(r) && Lacks(r, '\0')
  {
    var t := Without(s, '\0');
    StripLacks(t, '\0');
    Strip(t)
  }

  /** What every kept chunk is. */
  predicate ChunkShaped(c: string) {
    c != [] && Stripped(c) && Lacks(c, '\0')
  }

  /** The chunks a page contributes: its cleaned text when that is not empty, else none. */
  function Keep(p: PageText): (r: seq<string>)
    ensures |r| <= 1
    ensures forall k :: 0 <= k < |r| ==> ChunkShaped(r[k])
  {
    if p.Text? && p.s != [] && Cleaned(p.s) != [] then [Cleaned(p.s)] else []
  }

  /** What reading one page does: it raises, or it adds these chunks to `text_chunks`. */
  datatype Share = Raises | Adds(chunks: seq<string>)

  function ShareOf(p: PageText): (r: Share)
    ensures r.Raises? <==> p.ExtractFails?
    ensures r.Adds? ==> r.chunks == Keep(p)
  {
    if p.ExtractFails? then Raises else Adds(Keep(p))
  }

  /** Each page's share, in page order. */
  function Shares(pages: seq<PageText>): (cs: seq<Share>)
    ensures |cs| == |pages|
    ensures forall i {:trigger cs[i]} :: 0 <= i < |pages| ==> cs[i] == ShareOf(pages[i])
  {
    seq(|pages|, i requires 0 <= i < |pages| => ShareOf(pages[i]))
  }

  /** The chunks kept from the first `n` pages, in page order. */
  function KeptUpTo(cs: seq<Share>, n: nat): seq<string>
    requires n <= |cs|
  {
    if n == 0 then [] else KeptUpTo(cs, n - 1) + (if cs[n - 1].Adds? then cs[n - 1].chunks else [])
  }

  /** `sum(len(chunk) for chunk in chunks)`. */
  function Total(chunks: seq<string>): nat {
    if chunks == [] then 0 else Total(chunks[..|chunks| - 1]) + |chunks[|chunks| - 1]|
  }

  /** How many pages the loop may look at. */
  function Limit(cs: seq<Share>): nat {
    if |cs| < MaxPages then |cs| else MaxPages
  }

  /** How many characters a share adds. */
  function SizeOf(c: Share): nat {
    if c.Adds? then Total(c.chunks) else 0
  }

  /** How many characters are kept from the first `n` pages. */
  function SizeUpTo(cs: seq<Share>, n: nat): nat
    requires n <= |cs|
  {
    if n == 0 then 0 else SizeUpTo(cs, n - 1) + SizeOf(cs[n - 1])
  }

  /** The kept text has grown past the size cap once the first `n` pages are read. */
  predicate Overflows(cs: seq<Share>, n: nat)
    requires n <= |cs|
  {
    SizeUpTo(cs, n) > MaxChars
  }

  /**
   * How many pages the loop reads when no page raises, counting on from page `n`: it stops
   * at the page limit or right after the first page whose text takes the total past the cap.
   */
  function PagesRead(cs: seq<Share>, n: nat): (r: nat)
    requires n <= Limit(cs)
    ensures n <= r <= Limit(cs)
    ensures n < Limit(cs) ==> n < r
    ensures r < Limit(cs) ==> Overflows(cs, r)
    decreases Limit(cs) - n
  {
    if n == Limit(cs) then n
    else if Overflows(cs, n + 1) then n + 1
    else PagesRead(cs, n + 1)
  }

  /** The loop stops at the first page that takes the kept text past the cap, not later. */
  lemma {:induction false} PagesReadStopsAtFirstOverflow(cs: seq<Share>, n: nat, m: nat)
    requires n <= Limit(cs) && n < m < PagesRead(cs, n)
    ensures !Overflows(cs, m)
    decreases Limit(cs) - n
  {
    if m > n + 1 {
      PagesReadStopsAtFirstOverflow(cs, n + 1, m);
    }
  }

  /** Some page among the first `n` raises. */
  predicate RaisesBefore(cs: seq<Share>, n: nat)
    requires n <= |cs|
  {
    exists i :: 0 <= i < n && cs[i].Raises?
  }

  /** The chunks the loop collects, or `None` when a page it reaches raises. */
  function ReadChunks(cs: seq<Share>): (r: Option<seq<string>>)
    ensures r.Some? ==> r.value == KeptUpTo(cs, PagesRead(cs, 0))
  {
    var n := PagesRead(cs, 0);
    if RaisesBefore(cs, n) then None else Some(KeptUpTo(cs, n))
  }

  /** Joining, stripping and the final cut to `MaxChars` characters. */
  function Finish(chunks: seq<string>): (r: string)
    ensures |r| <= MaxChars
  {
    var text := Strip(JoinLines(chunks));
    if text == [] then [] else if |text| <= MaxChars then text else text[..MaxChars]
  }

  /** What `extract_text_from_pdf` returns for the document. */
  function PdfTextOf(file: PdfFile): (r: string)
    ensures |r| <= MaxChars && Lacks(r, '\0')
  {
    match file
    case Unopenable => []
    case Opened(pages) =>
      var cs := Shares(pages);
      match ReadChunks(cs)
      case None => []
      case Some(chunks) =>
        SharesShaped(pages);
        KeptChunksShaped(cs, PagesRead(cs, 0));
        FinishLacks(chunks);
        Finish(chunks)
  }

  /** Stripping keeps a missing character missing. */
  lemma StripLacks(s: string, c: char)
    requires Lacks(s, c)
    ensures Lacks(Strip(s), c)
  {
    StripChars(s);
  }

  /** Joining chunks with newlines adds no character other than the newline. */
  lemma {:induction false} JoinLacks(chunks: seq<string>, c: char)
    requires c != '\n' && forall k :: 0 <= k < |chunks| ==> Lacks(chunks[k], c)
    ensures Lacks(JoinLines(chunks), c)
  {
    if |chunks| > 1 {
      JoinLacks(chunks[1..], c);
      var rest := JoinLines(chunks[1..]);
      var j := chunks[0] + "\n" + rest;
      forall i | 0 <= i < |j| ensures j[i] != c {
        if i < |chunks[0]| {
          assert j[i] == chunks[0][i];
        } else if i > |chunks[0]| {
          assert j[i] == rest[i - |chunks[0]| - 1];
        }
      }
    }
  }

  /** Chunks without NUL characters give a text without them. */
  lemma FinishLacks(chunks: seq<string>)
    requires forall k :: 0 <= k < |chunks| ==> Lacks(chunks[k], '\0')
    ensures Lacks(Finish(chunks), '\0')
  {
    JoinLacks(chunks, '\0');
    StripLacks(JoinLines(chunks), '\0');
  }

  /** Joined shaped chunks start with the first chunk's first character and end with the last chunk's last. */
  lemma {:induction false} JoinShaped(chunks: seq<string>)
    requires chunks != [] && forall k :: 0 <= k < |chunks| ==> ChunkShaped(chunks[k])
    ensures var j, last := JoinLines(chunks), chunks[|chunks| - 1];
            ChunkShaped(chunks[0]) && ChunkShaped(last) && j != [] && j[0] == chunks[0][0] && j[|j| - 1] == last[|last| - 1]
    decreases |chunks|
  {
    assert ChunkShaped(chunks[0]);
    if |chunks| > 1 {
      var rest := chunks[1..];
      assert forall k :: 0 <= k < |rest| ==> ChunkShaped(rest[k]) by {
        forall k | 0 <= k < |rest| ensures ChunkShaped(rest[k]) {
          assert rest[k] == chunks[k + 1];
        }
      }
      JoinShaped(rest);
      assert rest[|rest| - 1] == chunks[|chunks| - 1];
    }
  }

  /**
   * For the chunks the loop keeps, the text is the newline-joined chunks, in order, cut
   * to `MaxChars` characters: the strip after the join removes nothing.
   */
  lemma FinishIsPrefix(chunks: seq<string>)
    requires forall k :: 0 <= k < |chunks| ==> ChunkShaped(chunks[k])
    ensures var j := JoinLines(chunks);
            Finish(chunks) == if |j| <= MaxChars then j else j[..MaxChars]
  {
    var j := JoinLines(chunks);
    if chunks != [] {
      JoinShaped(chunks);
      var last := chunks[|chunks| - 1];
      assert ChunkShaped(chunks[0]) && ChunkShaped(last);
      assert Stripped(j);
      StrippedIsFixed(j);
    }
  }

  /** Kept chunks are non-empty, stripped and free of NUL characters. */
  lemma {:induction false} KeptChunksShaped(cs: seq<Share>, n: nat)
    requires n <= |cs|
    requires forall i, k :: 0 <= i < |cs| && cs[i].Adds? && 0 <= k < |cs[i].chunks| ==> ChunkShaped(cs[i].chunks[k])
    ensures forall k :: 0 <= k < |KeptUpTo(cs, n)| ==> ChunkShaped(KeptUpTo(cs, n)[k])
  {
    if n > 0 {
      KeptChunksShaped(cs, n - 1);
    }
  }

  /** The shares of real pages hold only well-formed chunks. */
  lemma SharesShaped(pages: seq<PageText>)
    ensures var cs := Shares(pages);
            forall i, k :: 0 <= i < |cs| && cs[i].Adds? && 0 <= k < |cs[i].chunks| ==> ChunkShaped(cs[i].chunks[k])
  {
  }

  /** The total of two lists of chunks is the sum of their totals. */
  lemma {:induction false} TotalAppend(a: seq<string>, b: seq<string>)
    ensures Total(a + b) == Total(a) + Total(b)
    decreases |b|
  {
    if b == [] {
      assert a + b == a;
    } else {
      var b' := b[..|b| - 1];
      assert (a + b)[..|a + b| - 1] == a + b';
      TotalAppend(a, b');
    }
  }

  /** The running size is the length of the text kept so far. */
  lemma {:induction false} SizeIsTotal(cs: seq<Share>, n: nat)
    requires n <= |cs|
    ensures SizeUpTo(cs, n) == Total(KeptUpTo(cs, n))
  {
    if n > 0 {
      SizeIsTotal(cs, n - 1);
      TotalAppend(KeptUpTo(cs, n - 1), if cs[n - 1].Adds? then cs[n - 1].chunks else []);
    }
  }

  /** The kept text only grows as more pages are read. */
  lemma {:induction false} SizeGrows(cs: seq<Share>, m: nat, n: nat)
    requires m <= n <= |cs|
    ensures SizeUpTo(cs, m) <= SizeUpTo(cs, n)
    decreases n - m
  {
    if m < n {
      SizeGrows(cs, m, n - 1);
    }
  }

  /** One page's share of `text_chunks`: its cleaned text, when there is any. */
  method KeepPage(page: PageText) returns (kept: seq<string>)
    ensures kept == Keep(page)
  {
    kept := [];
    if page.Text? && page.s != [] {
      var cleaned := Cleaned(page.s);
      if cleaned != [] {
        kept := [cleaned];
      }
    }
  }

  /** Reading page `i`, which does not raise, within the page limit. */
  lemma ReadStep(cs: seq<Share>, i: nat, chunks: seq<string>)
    requires i < Limit(cs) && cs[i].Adds?
    requires chunks == KeptUpTo(cs, i) && Total(chunks) == SizeUpTo(cs, i)
    ensures chunks + cs[i].chunks == KeptUpTo(cs, i + 1)
    ensures Total(chunks + cs[i].chunks) == SizeUpTo(cs, i + 1)
    ensures RaisesBefore(cs, i + 1) == RaisesBefore(cs, i)
    ensures PagesRead(cs, i) == if Overflows(cs, i + 1) then i + 1 else PagesRead(cs, i + 1)
  {
    TotalAppend(chunks, cs[i].chunks);
    assert forall j :: 0 <= j < i + 1 && cs[j].Raises? ==> j < i;
  }

  /** A page the loop reaches that raises makes the whole read fail. */
  lemma ReadChunksRaises(cs: seq<Share>, i: nat, n: nat)
    requires n == PagesRead(cs, 0) && i < n && cs[i].Raises?
    ensures ReadChunks(cs) == None
  {
    assert RaisesBefore(cs, n);
  }

  /** When no page the loop reaches raises, it returns what it kept. */
  lemma ReadChunksDone(cs: seq<Share>, n: nat)
    requires n == PagesRead(cs, 0) && !RaisesBefore(cs, n)
    ensures ReadChunks(cs) == Some(KeptUpTo(cs, n))
  {
  }

  /**
   * The loop: pages are looked at in order, a page that raises ends everything, and
   * reading stops at the page limit or once the kept text exceeds the cap.
   */
  method ReadPages(pages: seq<PageText>) returns (r: Option<seq<string>>)
    ensures r == ReadChunks(Shares(pages))
  {
    ghost var cs := Shares(pages);
    ghost var stop := PagesRead(cs, 0);
    var chunks: seq<string> := [];
    var i := 0;
    while i < |pages|
      invariant i <= Limit(cs) && i <= stop
      invariant chunks == KeptUpTo(cs, i) && Total(chunks) == SizeUpTo(cs, i)
      invariant PagesRead(cs, i) == stop
      invariant !RaisesBefore(cs, i)
    {
      if i >= MaxPages {
        break;
      }
      var page := pages[i];
      assert cs[i] == ShareOf(page);
      if page.ExtractFails? {
        ReadChunksRaises(cs, i, stop);
        return None;
      }
      var kept := KeepPage(page);
      ReadStep(cs, i, chunks);
      chunks := chunks + kept;
      i := i + 1;
      if Total(chunks) > MaxChars {
        break;
      }
    }
    assert i == stop;
    ReadChunksDone(cs, stop);
    return Some(chunks);
  }

  /** `extract_text_from_pdf(file)`. */
  method ExtractTextFromPdf(file: PdfFile) returns (text: string)
    ensures text == PdfTextOf(file)
    ensures |text| <= MaxChars && Lacks(text, '\0')
  {
    if file.Unopenable? {
      return [];
    }
    var chunks := ReadPages(file.pages);
    if chunks.None? {
      return [];
    }
    text := Finish(chunks.value);
  }

  /** Two documents that agree on their first pages keep the same chunks from them. */
  lemma {:induction false} SamePrefixSameKept(cs: seq<Share>, other: seq<Share>, n: nat)
    requires n <= |cs| && n <= |other| && forall i :: 0 <= i < n ==> cs[i] == other[i]
    ensures forall m :: 0 <= m <= n ==> KeptUpTo(cs, m) == KeptUpTo(other, m)
    ensures forall m :: 0 <= m <= n ==> SizeUpTo(cs, m) == SizeUpTo(other, m)
  {
    if n > 0 {
      SamePrefixSameKept(cs, other, n - 1);
    }
  }

  lemma {:induction false} SamePagesRead(cs: seq<Share>, short: seq<Share>, n: nat)
    requires |cs| > MaxPages && |short| == MaxPages && n <= MaxPages
    requires forall m :: 0 <= m <= MaxPages ==> SizeUpTo(cs, m) == SizeUpTo(short, m)
    ensures PagesRead(cs, n) == PagesRead(short, n)
    decreases MaxPages - n
  {
    if n < MaxPages {
      SamePagesRead(cs, short, n + 1);
    }
  }

  /** Only the first twenty shares matter. */
  lemma ReadChunksOfPrefix(cs: seq<Share>)
    requires |cs| > MaxPages
    ensures ReadChunks(cs) == ReadChunks(cs[..MaxPages])
  {
    var short := cs[..MaxPages];
    SamePrefixSameKept(cs, short, MaxPages);
    SamePagesRead(cs, short, 0);
    var n := PagesRead(cs, 0);
    assert RaisesBefore(cs, n) == RaisesBefore(short, n) by {
      assert forall i :: 0 <= i < n ==> cs[i] == short[i];
    }
  }

  /** Pages after the twentieth are never looked at. */
  lemma PagesBeyondLimitIgnored(pages: seq<PageText>)
    requires |pages| > MaxPages
    ensures PdfTextOf(Opened(pages)) == PdfTextOf(Opened(pages[..MaxPages]))
  {
    SharesShaped(pages);
    assert Shares(pages)[..MaxPages] == Shares(pages[..MaxPages]);
    ReadChunksOfPrefix(Shares(pages));
  }

  /** Pages that contribute nothing keep nothing. */
  lemma {:induction false} NothingKept(cs: seq<Share>, n: nat)
    requires n <= |cs| && forall i :: 0 <= i < |cs| && cs[i].Adds? ==> cs[i].chunks == []
    ensures KeptUpTo(cs, n) == []
  {
    if n > 0 {
      NothingKept(cs, n - 1);
    }
  }

  /** A document none of whose pages holds text once cleaned (a scan, say) gives "". */
  lemma TextlessDocumentGivesEmpty(pages: seq<PageText>)
    requires forall i :: 0 <= i < |pages| ==> Keep(pages[i]) == []
    ensures PdfTextOf(Opened(pages)) == []
  {
    var cs := Shares(pages);
    SharesShaped(pages);
    NothingKept(cs, PagesRead(cs, 0));
  }

  /**
   * A page that raises within the page limit, before the kept text has exceeded the cap,
   * discards the text of every page before it.
   */
  lemma RaisingShareDiscardsAll(cs: seq<Share>, j: nat)
    requires j < |cs| && j < MaxPages && cs[j].Raises?
    requires Total(KeptUpTo(cs, j)) <= MaxChars
    ensures ReadChunks(cs) == None
  {
    var n := PagesRead(cs, 0);
    SizeIsTotal(cs, j);
    if n <= j {
      SizeGrows(cs, n, j);
      assert false;
    }
    assert RaisesBefore(cs, n);
  }

  lemma FailingPageDiscardsAll(pages: seq<PageText>, j: nat)
    requires j < |pages| && j < MaxPages && pages[j].ExtractFails?
    requires Total(KeptUpTo(Shares(pages), j)) <= MaxChars
    ensures PdfTextOf(Opened(pages)) == []
  {
    SharesShaped(pages);
    RaisingShareDiscardsAll(Shares(pages), j);
  }

  /**
   * A document of at most twenty pages, none raising, whose kept text stays within the cap
   * is read in full: every page's chunk is kept, in page order.
   */
  lemma ReadInFull(cs: seq<Share>)
    requires |cs| <= MaxPages
    requires forall i :: 0 <= i < |cs| ==> cs[i].Adds?
    requires Total(KeptUpTo(cs, |cs|)) <= MaxChars
    ensures ReadChunks(cs) == Some(KeptUpTo(cs, |cs|))
  {
    var n := PagesRead(cs, 0);
    SizeIsTotal(cs, |cs|);
    if n < |cs| {
      SizeGrows(cs, n, |cs|);
      assert false;
    }
    assert !RaisesBefore(cs, n);
    ReadChunksDone(cs, n);
  }

  /** The document's text is the finished text of the chunks the loop collected. */
  lemma PdfTextOfChunks(pages: seq<PageText>, chunks: seq<string>)
    requires ReadChunks(Shares(pages)) == Some(chunks)
    ensures PdfTextOf(Opened(pages)) == Finish(chunks)
    ensures var j := JoinLines(chunks);
            PdfTextOf(Opened(pages)) == if |j| <= MaxChars then j else j[..MaxChars]
  {
    SharesShaped(pages);
    KeptChunksShaped(Shares(pages), PagesRead(Shares(pages), 0));
    FinishIsPrefix(chunks);
  }

  lemma ShortDocumentReadInFull(pages: seq<PageText>)
    requires |pages| <= MaxPages
    requires forall i :: 0 <= i < |pages| ==> !pages[i].ExtractFails?
    requires Total(KeptUpTo(Shares(pages), |pages|)) <= MaxChars
    ensures PdfTextOf(Opened(pages)) == Finish(KeptUpTo(Shares(pages), |pages|))
    ensures var j := JoinLines(KeptUpTo(Shares(pages), |pages|));
            PdfTextOf(Opened(pages)) == if |j| <= MaxChars then j else j[..MaxChars]
  {
    NoPageRaises(pages);
    ReadInFull(Shares(pages));
    PdfTextOfChunks(pages, KeptUpTo(Shares(pages), |pages|));
  }

  lemma NoPageRaises(pages: seq<PageText>)
    requires forall i :: 0 <= i < |pages| ==> !pages[i].ExtractFails?
    ensures forall i :: 0 <= i < |Shares(pages)| ==> Shares(pages)[i].Adds?
  {
  }
}
