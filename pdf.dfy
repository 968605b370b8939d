/** extract_text_from_pdf and select_pdf_file. */
module PdfText {
  import opened Wrappers
  import opened Text
  import opened Paths
  import opened Providers
  import opened Workspace

  /** The texts of the pages pdfplumber keeps: those whose text is neither
      None nor empty, in page order. */
  function NonEmptyPages(pages: Pages): (ts: seq<string>)
    ensures |ts| <= |pages|
    ensures forall k :: 0 <= k < |ts| ==> ts[k] != []
  {
    if pages == [] then []
    else
      var last := pages[|pages| - 1];
      NonEmptyPages(pages[..|pages| - 1]) + (if last.Some? && last.value != [] then [last.value] else [])
  }

  /** Filtering pages one run after another filters each run in turn: page
      order is kept and no page is counted twice. */
  lemma {:induction false} NonEmptyPagesAppend(a: Pages, b: Pages)
    ensures NonEmptyPages(a + b) == NonEmptyPages(a) + NonEmptyPages(b)
    decreases |b|
  {
    if b == [] {
      assert a + b == a;
    } else {
      var b' := b[..|b| - 1];
      assert (a + b)[..|a + b| - 1] == a + b';
      NonEmptyPagesAppend(a, b');
    }
  }

  /** A non-empty page text is kept. */
  lemma NonEmptyPagesKeepsText(pages: Pages, t: string)
    requires t != [] && Some(t) in pages
    ensures t in NonEmptyPages(pages)
  {
    var i :| 0 <= i < |pages| && pages[i] == Some(t);
    assert pages == pages[..i] + [pages[i]] + pages[i + 1..];
    NonEmptyPagesAppend(pages[..i] + [pages[i]], pages[i + 1..]);
    NonEmptyPagesAppend(pages[..i], [pages[i]]);
    assert [pages[i]][..0] == [];
  }

  /** PyPDF2's loop appends every page text; a page whose text is None makes
      "None + '\n'" raise, which ends the fallback with None. */
  predicate AllPagesHaveText(pages: Pages) {
    forall k :: 0 <= k < |pages| ==> pages[k].Some?
  }

  function AllTexts(pages: Pages): (ts: seq<string>)
    requires AllPagesHaveText(pages)
    ensures |ts| == |pages| && forall k :: 0 <= k < |ts| ==> Some(ts[k]) == pages[k]
  {
    seq(|pages|, k requires 0 <= k < |pages| => pages[k].value)
  }

  /** What extract_text_from_pdf returns, given what each library reports. */
  function ExtractSpec(primary: Option<Pages>, fallback: Option<Pages>): Option<string> {
    match primary
    case Some(pages) => Some(Strip(Terminated(NonEmptyPages(pages), "\n")))
    case None =>
      match fallback
      case Some(pages) =>
        if AllPagesHaveText(pages) then Some(Strip(Terminated(AllTexts(pages), "\n"))) else None
      case None => None
  }

  /** extract_text_from_pdf; usedFallback tells whether PyPDF2 was consulted. */
  method ExtractTextFromPdf(pdfPath: Path, p: Services) returns (r: Option<string>, usedFallback: bool)
    ensures r == ExtractSpec(p.plumber(pdfPath), p.pypdf(pdfPath))
    ensures usedFallback <==> p.plumber(pdfPath).None?
  {
    var primary := p.plumber(pdfPath);
    if primary.Some? {
      var text := JoinPlumberPages(primary.value);
      return Some(Strip(text)), false;
    }
    usedFallback := true;
    var secondary := p.pypdf(pdfPath);
    if secondary.None? {
      return None, usedFallback;
    }
    var text := JoinPyPdfPages(secondary.value);
    r := if text.Some? then Some(Strip(text.value)) else None;
  }

  /** The pdfplumber loop: "if page_text: text += page_text + '\n'". */
  method JoinPlumberPages(pages: Pages) returns (text: string)
    ensures text == Terminated(NonEmptyPages(pages), "\n")
  {
    text := "";
    for i := 0 to |pages|
      invariant text == Terminated(NonEmptyPages(pages[..i]), "\n")
    {
      assert pages[..i + 1][..i] == pages[..i];
      var pageText := pages[i];
      if pageText.Some? && pageText.value != [] {
        ghost var kept := NonEmptyPages(pages[..i]);
        assert NonEmptyPages(pages[..i + 1]) == kept + [pageText.value];
        assert (kept + [pageText.value])[..|kept|] == kept;
        text := text + pageText.value + "\n";
      } else {
        assert NonEmptyPages(pages[..i + 1]) == NonEmptyPages(pages[..i]);
      }
    }
    assert pages[..|pages|] == pages;
  }

  /** The PyPDF2 loop: "text += page.extract_text() + '\n'", which raises on
      a page whose text is None. */
  method JoinPyPdfPages(pages: Pages) returns (text: Option<string>)
    ensures text.Some? <==> AllPagesHaveText(pages)
    ensures text.Some? ==> text.value == Terminated(AllTexts(pages), "\n")
  {
    var acc := "";
    for i := 0 to |pages|
      invariant AllPagesHaveText(pages[..i])
      invariant acc == Terminated(AllTexts(pages[..i]), "\n")
    {
      if pages[i].None? {
        return None;
      }
      assert pages[..i + 1][..i] == pages[..i];
      assert AllTexts(pages[..i + 1])[..i] == AllTexts(pages[..i]);
      acc := acc + pages[i].value + "\n";
    }
    assert pages[..|pages|] == pages;
    text := Some(acc);
  }

  /** The fallback is not consulted when pdfplumber succeeds, even when every
      page is empty: the result is then the empty text. */
  lemma EmptyPrimaryDoesNotFallBack(primary: Pages, fallback: Option<Pages>)
    requires forall k :: 0 <= k < |primary| ==> primary[k] == None || primary[k] == Some("")
    ensures ExtractSpec(Some(primary), fallback) == Some("")
  {
    if NonEmptyPages(primary) != [] {
      var t := NonEmptyPages(primary)[0];
      assert t in NonEmptyPages(primary);
      NonEmptyPagesOnlyFromPages(primary, t);
    }
  }

  /** Every kept text comes from a page. */
  lemma {:induction false} NonEmptyPagesOnlyFromPages(pages: Pages, t: string)
    requires t in NonEmptyPages(pages)
    ensures Some(t) in pages
  {
    if pages != [] {
      var init := pages[..|pages| - 1];
      if t in NonEmptyPages(init) {
        NonEmptyPagesOnlyFromPages(init, t);
        assert Some(t) in init;
      } else {
        assert pages[|pages| - 1] == Some(t);
      }
    }
  }

  /** When pdfplumber raises, the text is PyPDF2's: every page text joined
      by newlines and stripped, provided every page has text. */
  lemma FallbackAfterRaise(pages: Pages)
    requires AllPagesHaveText(pages)
    ensures ExtractSpec(None, Some(pages)) == Some(Strip(JoinWith(AllTexts(pages), "\n")))
  {
    StripTerminatedIsStripJoin(AllTexts(pages), '\n');
  }

  /** Pages are joined with newlines in order, None and empty pages skipped. */
  lemma PlumberPagesExample()
    ensures ExtractSpec(Some([Some("Hello"), None, Some(""), Some("world")]), None) == Some("Hello\nworld")
  {
    var pages: Pages := [Some("Hello"), None, Some(""), Some("world")];
    assert pages[..1] == [Some("Hello")] && pages[..1][..0] == [];
    assert pages[..2][..1] == pages[..1] && pages[..3][..2] == pages[..2] && pages[..4] == pages;
    assert NonEmptyPages(pages[..1]) == ["Hello"];
    assert NonEmptyPages(pages[..3]) == ["Hello"];
    assert NonEmptyPages(pages) == ["Hello", "world"];
    assert ["Hello", "world"][..1] == ["Hello"] && ["Hello"][..0] == [];
    assert Terminated(["Hello", "world"], "\n") == "Hello\nworld" + "\n";
    StripTrailingSpace("Hello\nworld", '\n');
  }

  /** A page without text makes the PyPDF2 fallback fail as a whole. */
  lemma FallbackTextlessPageFails(pages: Pages, k: nat)
    requires k < |pages| && pages[k] == None
    ensures ExtractSpec(None, Some(pages)) == None
  {
  }

  // ----- select_pdf_file -----

  const PdfFolder: Path := "pdf"

  /** f.lower().endswith('.pdf'): such a name ends in a dot and three more
      characters. */
  predicate IsPdfName(f: string)
    ensures IsPdfName(f) ==> |f| >= 4 && f[|f| - 4] == ExtSep
  {
    EndsWith(Lower(f), ".pdf")
  }

  /** The files of the pdf folder listing that select_pdf_file offers, in
      listing order. */
  function PdfFiles(listing: seq<string>): (r: seq<string>)
    ensures |r| <= |listing|
  {
    if listing == [] then []
    else
      var f := listing[|listing| - 1];
      PdfFiles(listing[..|listing| - 1]) + (if IsPdfName(f) then [f] else [])
  }

  /** The filter offers exactly the listed names that end in ".pdf" in any
      letter case. */
  lemma {:induction false} PdfFilesAreThePdfs(listing: seq<string>, f: string)
    ensures f in PdfFiles(listing) <==> f in listing && IsPdfName(f)
  {
    if listing != [] {
      var init := listing[..|listing| - 1];
      PdfFilesAreThePdfs(init, f);
      assert listing == init + [listing[|listing| - 1]];
    }
  }

  /** The filter keeps listing order: filtering two listings one after the
      other is filtering their concatenation. */
  lemma {:induction false} PdfFilesAppend(a: seq<string>, b: seq<string>)
    ensures PdfFiles(a + b) == PdfFiles(a) + PdfFiles(b)
  {
    if b != [] {
      var init := b[..|b| - 1];
      PdfFilesAppend(a, init);
      assert (a + b)[..|a + b| - 1] == a + init;
      assert (a + b)[|a + b| - 1] == b[|b| - 1];
    } else {
      assert a + b == a;
    }
  }

  /** NotListable: os.listdir raises because "pdf" is a regular file. */
  datatype Selection = NoFolder | NotListable | NoPdfs | Chosen(path: Path) | NoAnswer

  /** The answer the prompt loop accepts: the first number n with
      1 <= n <= count; None answers stand for input that int() rejects. */
  function FirstValid(answers: seq<Option<int>>, count: nat): Option<nat>
  {
    if answers == [] then None
    else if answers[0].Some? && 0 <= answers[0].value - 1 < count then Some(answers[0].value - 1)
    else FirstValid(answers[1..], count)
  }

  /** select_pdf_file, given what "pdf" is, what os.listdir reports for it
      and the successive answers; os.path.exists lets a regular file through
      to os.listdir. */
  function SelectSpec(folder: EntryKind, listing: seq<string>, answers: seq<Option<int>>): Selection {
    if folder == Missing then NoFolder
    else if folder == RegularFile then NotListable
    else
      var files := PdfFiles(listing);
      if files == [] then NoPdfs
      else
        match FirstValid(answers, |files|)
        case Some(i) => if i < |files| then Chosen(Join(PdfFolder, files[i])) else NoAnswer
        case None => NoAnswer
  }

  /** An accepted index is in range. */
  lemma {:induction false} FirstValidInRange(answers: seq<Option<int>>, count: nat)
    ensures FirstValid(answers, count).Some? ==> FirstValid(answers, count).value < count
  {
    if answers != [] {
      FirstValidInRange(answers[1..], count);
    }
  }

  /** select_pdf_file: answers are the successive replies to the prompt;
      running out of replies (input() raising) gives NoAnswer. */
  method SelectPdfFile(folder: EntryKind, listing: seq<string>, answers: seq<Option<int>>) returns (sel: Selection)
    ensures sel == SelectSpec(folder, listing, answers)
  {
    if folder == Missing {
      return NoFolder;
    }
    if folder == RegularFile {
      return NotListable;
    }
    var files := PdfFiles(listing);
    if files == [] {
      return NoPdfs;
    }
    var rest := answers;
    while rest != []
      invariant FirstValid(rest, |files|) == FirstValid(answers, |files|)
    {
      var choice := rest[0];
      if choice.Some? {
        var index := choice.value - 1;
        if 0 <= index < |files| {
          return Chosen(Join(PdfFolder, files[index]));
        }
      }
      rest := rest[1..];
    }
    sel := NoAnswer;
  }

  /** The chosen path always names one of the listed PDF files inside the
      pdf folder: the index check never lets an out-of-range number through. */
  lemma ChosenIsListedPdf(folder: EntryKind, listing: seq<string>, answers: seq<Option<int>>)
    requires SelectSpec(folder, listing, answers).Chosen?
    ensures exists f :: f in listing && IsPdfName(f) && SelectSpec(folder, listing, answers).path == Join(PdfFolder, f)
  {
    var files := PdfFiles(listing);
    var i := FirstValid(answers, |files|).value;
    assert files[i] in files;
    PdfFilesAreThePdfs(listing, files[i]);
  }

  /** Answers that int() rejects or that are out of range are passed over:
      the selection is the same as if they had never been typed. */
  lemma SelectSkipsBadAnswers(folder: EntryKind, listing: seq<string>, bad: seq<Option<int>>, rest: seq<Option<int>>)
    requires forall k :: 0 <= k < |bad| ==> bad[k].None? || !(1 <= bad[k].value <= |PdfFiles(listing)|)
    ensures SelectSpec(folder, listing, bad + rest) == SelectSpec(folder, listing, rest)
  {
    FirstValidSkipsBad(bad, rest, |PdfFiles(listing)|);
  }

  lemma {:induction false} FirstValidSkipsBad(bad: seq<Option<int>>, rest: seq<Option<int>>, count: nat)
    requires forall k :: 0 <= k < |bad| ==> bad[k].None? || !(1 <= bad[k].value <= count)
    ensures FirstValid(bad + rest, count) == FirstValid(rest, count)
  {
    if bad != [] {
      assert (bad + rest)[0] == bad[0];
      assert (bad + rest)[1..] == bad[1..] + rest;
      FirstValidSkipsBad(bad[1..], rest, count);
    } else {
      assert bad + rest == rest;
    }
  }

  /** A pdf folder whose listing holds no PDF file ends the selection before
      any answer is read. */
  lemma SelectWithoutPdfs(listing: seq<string>, answers: seq<Option<int>>)
    requires forall f :: f in listing ==> !IsPdfName(f)
    ensures SelectSpec(Directory, listing, answers) == NoPdfs
  {
    if PdfFiles(listing) != [] {
      var f := PdfFiles(listing)[0];
      PdfFilesAreThePdfs(listing, f);
    }
  }

  /** A name whose last four characters spell ".pdf" in any letter case is
      offered, whatever comes before them. */
  lemma PdfNameIgnoresCase(stem: string, ext: string)
    requires |ext| == 4 && Lower(ext) == ".pdf"
    ensures IsPdfName(stem + ext)
  {
    var f := stem + ext;
    var l := Lower(f);
    assert l[|stem|..] == Lower(ext) by {
      forall k | 0 <= k < 4
        ensures l[|stem|..][k] == Lower(ext)[k]
      {
        assert f[|stem| + k] == ext[k];
      }
    }
  }

  /** A name whose last character is not an "f" in either case is never
      offered. */
  lemma NotPdfUnlessEndsInF(f: string)
    requires f != [] && LowerChar(f[|f| - 1]) != 'f'
    ensures !IsPdfName(f)
  {
    var l := Lower(f);
    assert l[|l| - 1] != 'f';
  }
}
