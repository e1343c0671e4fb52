/**
 * Page bookkeeping of the PDF report that the analysis page draws with jsPDF
 * (frontend/src/pages/Home.jsx, `handleDownloadPDF`). A document starts with one
 * page; `addPage` appends a page and makes it current; `setPage(n)` moves to page
 * `n` (numbered from 1) and is ignored when there is no such page; drawing goes on
 * the current page. `addFooter(n)` moves to page `n` and writes "Page n of 4" there.
 * Only which section and which footer number end up on which page is modelled,
 * not the drawing itself.
 */
module ReportPages {
  import opened Text

  /** `totalPages`. */
  const TotalPages: nat := 4

  /** The four sections of the report, in drawing order. */
  datatype Section = Cover | SkillsAnalysis | GapsAndSuggestions | LearningRoadmap

  const SectionOrder: seq<Section> := [Cover, SkillsAnalysis, GapsAndSuggestions, LearningRoadmap]

  /** What was drawn on a page: its sections and the page numbers of its footers. */
  datatype Page = Page(sections: seq<Section>, footers: seq<nat>)

  /** A document: its pages and the index (from 0) of the current one. */
  datatype Doc = Doc(pages: seq<Page>, current: nat)
  {
    ghost predicate Valid()
    {
      current < |pages|
    }
  }

  /** `new jsPDF()`: one empty page, current. */
  function NewDoc(): (d: Doc)
    ensures d.Valid() && |d.pages| == 1 && d.pages[0] == Page([], [])
  {
    Doc([Page([], [])], 0)
  }

  /** `doc.addPage()`: a blank page at the end, now current. */
  function AddPage(d: Doc): (e: Doc)
    ensures e.Valid() && e.pages == d.pages + [Page([], [])] && e.current == |d.pages|
  {
    Doc(d.pages + [Page([], [])], |d.pages|)
  }

  /** `doc.setPage(n)`. */
  function SetPage(d: Doc, n: int): (e: Doc)
    requires d.Valid()
    ensures e.Valid() && e.pages == d.pages
    ensures 1 <= n <= |d.pages| ==> e.current == n - 1
    ensures !(1 <= n <= |d.pages|) ==> e == d
  {
    if 1 <= n <= |d.pages| then d.(current := n - 1) else d
  }

  /** Drawing a section on the current page. */
  function Draw(d: Doc, s: Section): (e: Doc)
    requires d.Valid()
    ensures e.Valid() && |e.pages| == |d.pages| && e.current == d.current
    ensures e.pages[d.current].sections == d.pages[d.current].sections + [s]
    ensures e.pages[d.current].footers == d.pages[d.current].footers
    ensures forall i :: 0 <= i < |d.pages| && i != d.current ==> e.pages[i] == d.pages[i]
  {
    var p := d.pages[d.current];
    d.(pages := d.pages[d.current := p.(sections := p.sections + [s])])
  }

  /** `addFooter(n)`: `setPage(n)`, then the footer text "Page n of 4" on the current page. */
  function AddFooter(d: Doc, n: nat): (e: Doc)
    requires d.Valid()
    ensures e.Valid() && |e.pages| == |d.pages|
    ensures e.current == if 1 <= n <= |d.pages| then n - 1 else d.current
    ensures e.pages[e.current].sections == d.pages[e.current].sections
    ensures e.pages[e.current].footers == d.pages[e.current].footers + [n]
    ensures forall i :: 0 <= i < |d.pages| && i != e.current ==> e.pages[i] == d.pages[i]
  {
    var f := SetPage(d, n);
    var p := f.pages[f.current];
    f.(pages := f.pages[f.current := p.(footers := p.footers + [n])])
  }

  /** The footer text `Page ${pageNum} of ${totalPages}`. */
  function FooterText(n: nat): string
  {
    "Page " + NatToString(n) + " of " + NatToString(TotalPages)
  }

  /** Different page numbers give different footer texts, so a page's footer names
      exactly one page. */
  lemma FooterTextNamesOnePage(m: nat, n: nat)
    requires FooterText(m) == FooterText(n)
    ensures m == n
  {
    var head := "Page ";
    var tail := " of " + NatToString(TotalPages);
    assert FooterText(m) == head + NatToString(m) + tail;
    assert FooterText(n) == head + NatToString(n) + tail;
    assert |NatToString(m)| == |NatToString(n)|;
    assert NatToString(m) == FooterText(m)[|head|..|head| + |NatToString(m)|];
    assert NatToString(n) == FooterText(n)[|head|..|head| + |NatToString(n)|];
    NatToStringInjective(m, n);
  }

  /** The calls of `handleDownloadPDF` as written: an `addPage` before each of the four
      sections, each section followed by `addFooter` with its intended page number. */
  function AsWrittenLayout(): (d: Doc)
    ensures d.Valid()
  {
    var d0 := NewDoc();
    var d1 := AddFooter(Draw(AddPage(d0), Cover), 1);
    var d2 := AddFooter(Draw(AddPage(d1), SkillsAnalysis), 2);
    var d3 := AddFooter(Draw(AddPage(d2), GapsAndSuggestions), 3);
    AddFooter(Draw(AddPage(d3), LearningRoadmap), 4)
  }

  /** As written the report has five pages: the page `new jsPDF()` created stays blank
      apart from the "Page 1 of 4" footer, every section sits one page later than its
      footer claims, and the roadmap page has no footer at all. */
  lemma AsWrittenLayoutIsOffByOne()
    ensures |AsWrittenLayout().pages| == 5 && |AsWrittenLayout().pages| != TotalPages
    ensures AsWrittenLayout().pages == [
      Page([], [1]),
      Page([Cover], [2]),
      Page([SkillsAnalysis], [3]),
      Page([GapsAndSuggestions], [4]),
      Page([LearningRoadmap], [])]
  {
    var a1 := Draw(AddPage(NewDoc()), Cover);
    assert a1.pages[0] == Page([], []) && a1.pages[1] == Page([Cover], []);
    var d1 := AddFooter(a1, 1);
    assert d1.pages[0] == Page([], [1]) && d1.pages[1] == Page([Cover], []);
    var a2 := Draw(AddPage(d1), SkillsAnalysis);
    assert a2.pages[2] == Page([SkillsAnalysis], []);
    var d2 := AddFooter(a2, 2);
    assert d2.pages[0] == Page([], [1]) && d2.pages[1] == Page([Cover], [2]) && d2.pages[2] == Page([SkillsAnalysis], []);
    var a3 := Draw(AddPage(d2), GapsAndSuggestions);
    assert a3.pages[3] == Page([GapsAndSuggestions], []);
    var d3 := AddFooter(a3, 3);
    assert d3.pages[2] == Page([SkillsAnalysis], [3]) && d3.pages[3] == Page([GapsAndSuggestions], []);
    var a4 := Draw(AddPage(d3), LearningRoadmap);
    assert a4.pages[4] == Page([LearningRoadmap], []);
    var d4 := AddFooter(a4, 4);
    assert d4.pages[3] == Page([GapsAndSuggestions], [4]) && d4.pages[4] == Page([LearningRoadmap], []);
    assert d4 == AsWrittenLayout();
  }

  /** The evident intent: the cover goes on the page the document starts with, and each
      later section on a page of its own. */
  function CorrectedLayout(): (d: Doc)
    ensures d.Valid()
  {
    var d0 := NewDoc();
    var d1 := AddFooter(Draw(d0, Cover), 1);
    var d2 := AddFooter(Draw(AddPage(d1), SkillsAnalysis), 2);
    var d3 := AddFooter(Draw(AddPage(d2), GapsAndSuggestions), 3);
    AddFooter(Draw(AddPage(d3), LearningRoadmap), 4)
  }

  /** Corrected, the report has `totalPages` pages, page n holds the n-th section and
      exactly one footer, and that footer says n. */
  lemma CorrectedLayoutNumbersPages()
    ensures |CorrectedLayout().pages| == TotalPages
    ensures forall i :: 0 <= i < TotalPages ==>
      CorrectedLayout().pages[i] == Page([SectionOrder[i]], [i + 1])
  {
    var a1 := Draw(NewDoc(), Cover);
    var d1 := AddFooter(a1, 1);
    assert d1.pages[0] == Page([Cover], [1]);
    var a2 := Draw(AddPage(d1), SkillsAnalysis);
    var d2 := AddFooter(a2, 2);
    assert d2.pages[0] == Page([Cover], [1]) && d2.pages[1] == Page([SkillsAnalysis], [2]);
    var a3 := Draw(AddPage(d2), GapsAndSuggestions);
    var d3 := AddFooter(a3, 3);
    assert d3.pages[1] == Page([SkillsAnalysis], [2]) && d3.pages[2] == Page([GapsAndSuggestions], [3]);
    var a4 := Draw(AddPage(d3), LearningRoadmap);
    var d4 := AddFooter(a4, 4);
    assert d4.pages[2] == Page([GapsAndSuggestions], [3]) && d4.pages[3] == Page([LearningRoadmap], [4]);
    assert d4 == CorrectedLayout();
  }
}
