/** The tab loop of `run`: after the settle delay, every page of the browser
    context except the base page at index 0 is waited for and saved. */
module Tabs {
  import opened Outcomes
  import opened Artifacts

  /** What one open page does when processed: the outcome of waiting for its
      network to go idle, the parse of its URL (`None` when parsing raises
      `ValueError`), and the driver and file calls of saving it. */
  datatype Tab = Tab(load: Outcome, url: Option<UrlParts>, io: PageIo)

  /** The tab loop's `except (OSError, RuntimeError)`. */
  predicate TabCatches(k: ErrorKind) {
    k == OSError || k == RuntimeError
  }

  /** What processing one page leaves: its files, whether a failure was
      logged, and the exception that leaves the loop body, if any. */
  datatype TabResult = TabResult(files: seq<FileWrite>, logged: bool, escaped: Option<ErrorKind>)

  /** The body of the tab loop for one page. */
  function CaptureTab(dir: string, t: Tab): (r: TabResult)
    ensures r.escaped.Some? ==> !TabCatches(r.escaped.value)
    ensures t.load.Raised? ==> r.files == [] && (r.escaped.None? <==> TabCatches(t.load.kind))
    ensures t.load.Done? ==> r.files == SavePageContent(dir, t.url, t.io).files
  {
    if t.load.Raised? then
      if TabCatches(t.load.kind) then TabResult([], true, None)
      else TabResult([], false, Some(t.load.kind))
    else
      var s := SavePageContent(dir, t.url, t.io);
      match s.raised
      case None => TabResult(s.files, false, None)
      case Some(k) =>
        // save_page_content logs and swallows what its own clause names;
        // everything else is also outside the tab loop's clause.
        if SaveCatches(k) then TabResult(s.files, true, None)
        else TabResult(s.files, false, Some(k))
  }

  /** Which failures of one page leave the loop and which are logged. A
      failed load is logged and swallowed iff the tab loop's clause names it,
      and otherwise it leaves the loop. After a load that returned, a save
      failure that `save_page_content` catches is logged and does not stop
      the loop, and any other save failure leaves the loop, unlogged. */
  lemma CaptureTabOutcome(dir: string, t: Tab)
    ensures var r := CaptureTab(dir, t);
            t.load.Done? ==>
              var raised := SavePageContent(dir, t.url, t.io).raised;
              && (r.escaped.None? <==> raised.None? || SaveCatches(raised.value))
              && (r.escaped.Some? ==> r.escaped == raised)
              && (r.logged <==> raised.Some? && SaveCatches(raised.value))
    ensures var r := CaptureTab(dir, t);
            t.load.Raised? ==>
              && (r.escaped.Some? ==> r.escaped == Some(t.load.kind))
              && (r.logged <==> TabCatches(t.load.kind))
  {
  }

  /** The result of processing each page, index by index. */
  function Results(dir: string, pages: seq<Tab>): (rs: seq<TabResult>)
    ensures |rs| == |pages|
  {
    if pages == [] then [] else [CaptureTab(dir, pages[0])] + Results(dir, pages[1..])
  }

  lemma {:induction false} ResultsAt(dir: string, pages: seq<Tab>, i: nat)
    requires i < |pages|
    ensures Results(dir, pages)[i] == CaptureTab(dir, pages[i])
  {
    if i > 0 {
      ResultsAt(dir, pages[1..], i - 1);
    }
  }

  /** The first index from `from` on whose processing raises out of the
      loop, or `|rs|` when none does. */
  function FirstTabEscape(rs: seq<TabResult>, from: nat): (n: nat)
    requires from <= |rs|
    ensures from <= n <= |rs|
    ensures forall i :: from <= i < n ==> rs[i].escaped.None?
    ensures n < |rs| ==> rs[n].escaped.Some?
    decreases |rs| - from
  {
    if from == |rs| || rs[from].escaped.Some? then from else FirstTabEscape(rs, from + 1)
  }

  /** One past the last index the loop visits: up to and including the first
      page that raises out of it, else every page after the base page. */
  function VisitEnd(rs: seq<TabResult>): (n: nat)
    ensures n <= |rs|
  {
    if |rs| <= 1 then |rs|
    else
      var e := FirstTabEscape(rs, 1);
      if e < |rs| then e + 1 else |rs|
  }

  /** The ascending run of indices `lo, lo + 1, ..., hi - 1`. */
  function Range(lo: nat, hi: nat): (r: seq<nat>)
    ensures |r| == if lo <= hi then hi - lo else 0
    ensures forall k :: 0 <= k < |r| ==> r[k] == lo + k
  {
    if hi <= lo then [] else Range(lo, hi - 1) + [hi - 1]
  }

  /** The files of pages `1 .. n - 1`, in processing order. */
  function FilesUpTo(rs: seq<TabResult>, n: nat): seq<FileWrite>
    requires n <= |rs|
  {
    if n <= 1 then [] else FilesUpTo(rs, n - 1) + rs[n - 1].files
  }

  /** The indices among `1 .. n - 1` whose failure was logged, in order. */
  function LoggedUpTo(rs: seq<TabResult>, n: nat): seq<nat>
    requires n <= |rs|
  {
    if n <= 1 then [] else LoggedUpTo(rs, n - 1) + (if rs[n - 1].logged then [n - 1] else [])
  }

  /** The tab loop, `for i in range(1, len(context.pages))`, over the pages
      open when it starts. Returns the indices visited, in order, the files
      written, the indices whose failure was logged, and the exception that
      left the loop, if any. */
  method CaptureTabs(dir: string, pages: seq<Tab>) returns (visited: seq<nat>, files: seq<FileWrite>, logged: seq<nat>, escaped: Option<ErrorKind>)
    ensures var rs := Results(dir, pages);
            && visited == Range(1, VisitEnd(rs))
            && files == FilesUpTo(rs, VisitEnd(rs))
            && logged == LoggedUpTo(rs, VisitEnd(rs))
    ensures escaped.None? <==> |pages| <= 1 || FirstTabEscape(Results(dir, pages), 1) == |pages|
    ensures escaped.Some? ==>
              |pages| > 1 && escaped == Results(dir, pages)[FirstTabEscape(Results(dir, pages), 1)].escaped
  {
    ghost var rs := Results(dir, pages);
    visited, files, logged, escaped := [], [], [], None;
    var i := 1;
    while i < |pages|
      invariant 1 <= i <= |pages| || (|pages| == 0 && i == 1)
      invariant |pages| > 1 ==> i <= FirstTabEscape(rs, 1)
      invariant visited == Range(1, i)
      invariant |pages| > 0 ==> files == FilesUpTo(rs, i) && logged == LoggedUpTo(rs, i)
      invariant |pages| == 0 ==> files == [] && logged == []
    {
      var r := CaptureTab(dir, pages[i]);
      ResultsAt(dir, pages, i);
      visited := visited + [i];
      files := files + r.files;
      if r.logged {
        logged := logged + [i];
      }
      if r.escaped.Some? {
        assert FirstTabEscape(rs, 1) == i;
        escaped := r.escaped;
        return;
      }
      i := i + 1;
    }
  }

  /** The exception the tab loop lets out, taken page by page from `i` on:
      the first page whose processing raises outside the loop's clause. */
  function TabsEscape(dir: string, pages: seq<Tab>, i: nat): Option<ErrorKind>
    decreases |pages| - i
  {
    if i >= |pages| then None
    else
      var e := CaptureTab(dir, pages[i]).escaped;
      if e.Some? then e else TabsEscape(dir, pages, i + 1)
  }

  /** The page-by-page escape agrees with the first escaping index of the
      per-page results. */
  lemma {:induction false} TabsEscapeIsFirstEscape(dir: string, pages: seq<Tab>, from: nat)
    requires from <= |pages|
    ensures var rs := Results(dir, pages);
            var e := FirstTabEscape(rs, from);
            TabsEscape(dir, pages, from) == if e < |rs| then rs[e].escaped else None
    decreases |pages| - from
  {
    if from < |pages| {
      ResultsAt(dir, pages, from);
      if CaptureTab(dir, pages[from]).escaped.None? {
        TabsEscapeIsFirstEscape(dir, pages, from + 1);
      }
    }
  }

  /** Nothing leaves the tab loop exactly when no page from `i` on raises
      outside its clause. */
  lemma TabsEscapeNone(dir: string, pages: seq<Tab>, i: nat)
    ensures TabsEscape(dir, pages, i).None? <==>
              forall j :: i <= j < |pages| ==> Results(dir, pages)[j].escaped.None?
  {
    if i <= |pages| {
      TabsEscapeIsFirstEscape(dir, pages, i);
    }
  }

  /** Page 0, the base page the triggers ran on, is never visited; the
      visited indices are valid and strictly ascending, so each is visited
      at most once. */
  lemma BasePageNeverVisited(rs: seq<TabResult>)
    ensures var v := Range(1, VisitEnd(rs));
            && 0 !in v
            && (forall k :: 0 <= k < |v| ==> v[k] < |rs|)
            && (forall a, b :: 0 <= a < b < |v| ==> v[a] < v[b])
  {
  }

  /** When no page raises out of the loop, every page after the base page is
      visited exactly once, in ascending order: indices `1 .. |pages| - 1`. */
  lemma AllTabsVisitedWithoutEscape(dir: string, pages: seq<Tab>)
    requires forall i :: 1 <= i < |pages| ==> CaptureTab(dir, pages[i]).escaped.None?
    ensures Range(1, VisitEnd(Results(dir, pages))) == Range(1, |pages|)
  {
    var rs := Results(dir, pages);
    if |pages| > 1 {
      var e := FirstTabEscape(rs, 1);
      if e < |pages| {
        ResultsAt(dir, pages, e);
        assert false;
      }
    }
  }

  /** Every file the tab loop leaves, from any page and after any failure,
      sits directly in the domain directory. */
  lemma {:induction false} TabFilesInDirectory(dir: string, pages: seq<Tab>, n: nat)
    requires n <= |pages|
    ensures forall f :: f in FilesUpTo(Results(dir, pages), n) ==> DirectlyIn(f.path, dir)
  {
    if n > 1 {
      TabFilesInDirectory(dir, pages, n - 1);
      ResultsAt(dir, pages, n - 1);
      SaveStaysInDirectory(dir, pages[n - 1].url, pages[n - 1].io);
    }
  }
}
