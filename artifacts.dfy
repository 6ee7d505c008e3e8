/** Where the script writes: the per-domain directory of `create_dir`, the
    base name `save_page_content` derives from a page's URL, the three sibling
    artifact paths, and the order in which `save_page_content` creates them. */
module Artifacts {
  import opened Outcomes
  import opened Sanitize

  /** POSIX `os.path.join(a, b)`: an absolute `b` replaces `a`; otherwise one
      separator is put between them unless `a` is empty or already ends in one. */
  function JoinPath(a: string, b: string): (r: string)
    ensures |b| <= |r| && r[|r| - |b|..] == b
    ensures b != [] && b[0] == '/' ==> r == b
    ensures (b == [] || b[0] != '/') ==> r == Folder(a) + b
  {
    if b != [] && b[0] == '/' then b
    else if a == [] || a[|a| - 1] == '/' then a + b
    else a + "/" + b
  }

  /** The prefix a relative name is appended to when joined onto `dir`. */
  function Folder(dir: string): string {
    if dir == [] || dir[|dir| - 1] == '/' then dir else dir + "/"
  }

  /** `path` names an entry directly inside `dir`: it is `dir`'s folder prefix
      followed by a non-empty name with no separator in it. */
  predicate DirectlyIn(path: string, dir: string) {
    var f := Folder(dir);
    |f| < |path| && path[..|f|] == f && '/' !in path[|f|..]
  }

  const ResultsRoot := "results"

  /** `create_dir(domain)`: the directory the artifacts of `domain` go to. */
  function DomainDirectory(domain: string): (r: string)
    ensures (domain == [] || domain[0] != '/') ==> r == ResultsRoot + "/" + domain
    ensures (domain != [] && domain[0] == '/') ==> r == domain
  {
    JoinPath(ResultsRoot, domain)
  }

  /** Different domains get different directory path strings: a relative
      domain lands under `results/`, an absolute one is used as it is, and
      the two forms never meet because only the second starts with '/'. */
  lemma DomainDirectoryInjective(d1: string, d2: string)
    ensures DomainDirectory(d1) == DomainDirectory(d2) <==> d1 == d2
  {
    var r1, r2 := DomainDirectory(d1), DomainDirectory(d2);
    var p := ResultsRoot + "/";
    if r1 == r2 {
      var abs1, abs2 := d1 != [] && d1[0] == '/', d2 != [] && d2[0] == '/';
      if !abs1 && !abs2 {
        assert d1 == r1[|p|..] && d2 == r2[|p|..];
      }
    }
  }

  /** `path.replace("/", "_")`. */
  function ReplaceSlash(p: string): (r: string)
    ensures |r| == |p|
    ensures forall i :: 0 <= i < |p| ==> r[i] == (if p[i] == '/' then '_' else p[i])
  {
    if p == [] then [] else [if p[0] == '/' then '_' else p[0]] + ReplaceSlash(p[1..])
  }

  /** The base name of a page's artifacts, from its URL's network location
      and path: `sanitize_filename(netloc + path.replace("/", "_"))`. */
  function BaseName(netloc: string, path: string): (r: string)
    ensures '/' !in r
    ensures AllAllowed(r) && NoTrailingSpace(r)
  {
    var r := SanitizeFilename(netloc + ReplaceSlash(path));
    assert !IsAllowed('/');
    r
  }

  /** A path spelled in allowed characters and separators becomes all
      allowed characters once its separators are replaced. */
  lemma ReplaceSlashAllowed(path: string)
    requires forall i :: 0 <= i < |path| ==> IsAllowed(path[i]) || path[i] == '/'
    ensures AllAllowed(ReplaceSlash(path))
  {
    var r := ReplaceSlash(path);
    forall i | 0 <= i < |r|
      ensures IsAllowed(r[i])
    {
      assert r[i] == (if path[i] == '/' then '_' else path[i]);
    }
  }

  lemma AllAllowedAppend(a: string, b: string)
    requires AllAllowed(a) && AllAllowed(b)
    ensures AllAllowed(a + b)
  {
    forall i | 0 <= i < |a + b|
      ensures IsAllowed((a + b)[i])
    {
      if i >= |a| {
        assert (a + b)[i] == b[i - |a|];
      }
    }
  }

  /** For a network location and path spelled in allowed characters and
      separators, the base name is the two joined with every separator
      turned into '_': the separators are kept as '_', not dropped. */
  lemma BaseNameOfPlainUrl(netloc: string, path: string)
    requires AllAllowed(netloc)
    requires forall i :: 0 <= i < |path| ==> IsAllowed(path[i]) || path[i] == '/'
    requires NoTrailingSpace(netloc + ReplaceSlash(path))
    ensures BaseName(netloc, path) == netloc + ReplaceSlash(path)
  {
    var joined := netloc + ReplaceSlash(path);
    ReplaceSlashAllowed(path);
    AllAllowedAppend(netloc, ReplaceSlash(path));
    KeepAllowedOfAllowed(joined);
  }

  /** Two different URLs can share a base name, so their artifacts share paths. */
  lemma BaseNameCollides()
    ensures BaseName("example.com", "/a/b") == BaseName("example.com", "/a_b") == "example.com_a_b"
  {
    var host := "example.com";
    assert ReplaceSlash("/a/b") == "_a_b";
    assert ReplaceSlash("/a_b") == "_a_b";
    assert host + "_a_b" == "example.com_a_b";
    assert AllAllowed(host);
    BaseNameOfPlainUrl(host, "/a/b");
    BaseNameOfPlainUrl(host, "/a_b");
  }

  datatype ArtifactKind = Screenshot | Markup | Text

  function Extension(k: ArtifactKind): string {
    match k
    case Screenshot => ".png"
    case Markup => ".html"
    case Text => ".txt"
  }

  /** `os.path.join(directory, f"{filename}.<ext>")`. */
  function ArtifactPath(dir: string, base: string, k: ArtifactKind): string {
    JoinPath(dir, base + Extension(k))
  }

  /** The three artifacts of one base name sit directly in `dir`, and each is
      the shared prefix `Folder(dir) + base` followed by its own extension. */
  lemma ArtifactsAreSiblings(dir: string, base: string, k: ArtifactKind)
    requires '/' !in base
    ensures ArtifactPath(dir, base, k) == Folder(dir) + base + Extension(k)
    ensures DirectlyIn(ArtifactPath(dir, base, k), dir)
  {
    var ext := Extension(k);
    var name := base + ext;
    assert '/' !in ext;
    forall i | 0 <= i < |name|
      ensures name[i] != '/'
    {
      if i < |base| {
        assert name[i] == base[i];
      } else {
        assert name[i] == ext[i - |base|];
      }
    }
    assert name[0] != '/';
    var p := ArtifactPath(dir, base, k);
    assert p == Folder(dir) + name;
    assert p[|Folder(dir)|..] == name;
  }

  /** A name ending in an extension determines both the stem and the kind. */
  lemma ExtensionSuffixInjective(b1: string, k1: ArtifactKind, b2: string, k2: ArtifactKind)
    requires b1 + Extension(k1) == b2 + Extension(k2)
    ensures b1 == b2 && k1 == k2
  {
    var n := b1 + Extension(k1);
    assert n[|n| - 1] == Extension(k1)[|Extension(k1)| - 1];
    assert n[|n| - 1] == Extension(k2)[|Extension(k2)| - 1];
    assert k1 == k2;
    assert b1 == n[..|b1|];
    assert b2 == n[..|b2|];
  }

  /** In one directory, the artifact path determines both the base name and
      the kind: distinct (base name, kind) pairs never share a file. */
  lemma ArtifactPathInjective(dir: string, b1: string, k1: ArtifactKind, b2: string, k2: ArtifactKind)
    requires '/' !in b1 && '/' !in b2
    ensures ArtifactPath(dir, b1, k1) == ArtifactPath(dir, b2, k2) <==> b1 == b2 && k1 == k2
  {
    if ArtifactPath(dir, b1, k1) == ArtifactPath(dir, b2, k2) {
      ArtifactsAreSiblings(dir, b1, k1);
      ArtifactsAreSiblings(dir, b2, k2);
      var n1, n2 := b1 + Extension(k1), b2 + Extension(k2);
      var f := Folder(dir);
      assert f + n1 == f + n2;
      assert n1 == (f + n1)[|f|..];
      assert n2 == (f + n2)[|f|..];
      ExtensionSuffixInjective(b1, k1, b2, k2);
    }
  }

  /** The parts of a parsed URL the base name is built from. */
  datatype UrlParts = UrlParts(netloc: string, path: string)

  /** The two calls that produce one file: the one that creates it and the one
      that fills it. For the markup and the text these are `open(path, "w")`
      and the fetch-and-write of the content; the screenshot is written by a
      single driver call, so its second call always returns. */
  datatype WriteIo = WriteIo(create: Outcome, fill: Outcome)

  /** What the driver and file calls inside `save_page_content` do. */
  datatype PageIo = PageIo(screenshot: Outcome, markup: WriteIo, text: WriteIo)

  /** A file the call leaves behind; `complete` is false for a file opened
      for writing whose content never arrived (it is left empty). */
  datatype FileWrite = FileWrite(path: string, complete: bool)

  /** The files left behind and the exception raised inside the `try`, if any. */
  datatype SaveResult = SaveResult(files: seq<FileWrite>, raised: Option<ErrorKind>)

  /** The classes `save_page_content`'s `except` clause names. */
  predicate SaveCatches(k: ErrorKind) {
    k == OSError || k == ValueError || k == RuntimeError
  }

  /** `save_page_content(page, directory, url)`. `url` is the result of
      parsing the URL, `None` when the parser raised `ValueError`. The
      screenshot, the markup and the text are written in that order, and the
      first call that raises ends the `try` block. */
  function SavePageContent(dir: string, url: Option<UrlParts>, io: PageIo): (r: SaveResult)
    ensures |r.files| <= 3
  {
    match url
    case None => SaveResult([], Some(ValueError))
    case Some(u) =>
      var base := BaseName(u.netloc, u.path);
      var png := ArtifactPath(dir, base, Screenshot);
      var html := ArtifactPath(dir, base, Markup);
      var txt := ArtifactPath(dir, base, Text);
      if io.screenshot.Raised? then SaveResult([], Some(io.screenshot.kind))
      else if io.markup.create.Raised? then
        SaveResult([FileWrite(png, true)], Some(io.markup.create.kind))
      else if io.markup.fill.Raised? then
        SaveResult([FileWrite(png, true), FileWrite(html, false)], Some(io.markup.fill.kind))
      else if io.text.create.Raised? then
        SaveResult([FileWrite(png, true), FileWrite(html, true)], Some(io.text.create.kind))
      else if io.text.fill.Raised? then
        SaveResult([FileWrite(png, true), FileWrite(html, true), FileWrite(txt, false)], Some(io.text.fill.kind))
      else
        SaveResult([FileWrite(png, true), FileWrite(html, true), FileWrite(txt, true)], None)
  }

  /** The calls of one page in the order `save_page_content` makes them. */
  function Steps(io: PageIo): seq<Outcome> {
    [io.screenshot, io.markup.create, io.markup.fill, io.text.create, io.text.fill]
  }

  /** The position of the first call from `from` on that raised, or the
      number of calls when none did. */
  function FirstRaised(steps: seq<Outcome>, from: nat): (n: nat)
    requires from <= |steps|
    ensures from <= n <= |steps|
    ensures forall k :: from <= k < n ==> steps[k] == Done
    ensures n < |steps| ==> steps[n].Raised?
    decreases |steps| - from
  {
    if from == |steps| || steps[from].Raised? then from else FirstRaised(steps, from + 1)
  }

  /** The number of leading calls that returned: the steps that ran to completion. */
  function CompletedSteps(steps: seq<Outcome>): (n: nat)
    ensures n <= |steps|
    ensures forall k :: 0 <= k < n ==> steps[k] == Done
    ensures n < |steps| ==> steps[n].Raised?
  {
    FirstRaised(steps, 0)
  }

  /** Independent description of the files after `n` completed steps: each
      file appears once it is opened and is complete once it is written. */
  function FilesAfter(dir: string, base: string, n: nat): seq<FileWrite> {
    (if n >= 1 then [FileWrite(ArtifactPath(dir, base, Screenshot), true)] else [])
    + (if n >= 2 then [FileWrite(ArtifactPath(dir, base, Markup), n >= 3)] else [])
    + (if n >= 4 then [FileWrite(ArtifactPath(dir, base, Text), n >= 5)] else [])
  }

  /** The completed steps of one page, spelled out call by call. */
  lemma CompletedStepsOfPage(io: PageIo)
    ensures CompletedSteps(Steps(io)) ==
      if io.screenshot.Raised? then 0
      else if io.markup.create.Raised? then 1
      else if io.markup.fill.Raised? then 2
      else if io.text.create.Raised? then 3
      else if io.text.fill.Raised? then 4
      else 5
  {
    var s := Steps(io);
    if io.screenshot.Done? {
      assert FirstRaised(s, 0) == FirstRaised(s, 1);
      if io.markup.create.Done? {
        assert FirstRaised(s, 1) == FirstRaised(s, 2);
        if io.markup.fill.Done? {
          assert FirstRaised(s, 2) == FirstRaised(s, 3);
          if io.text.create.Done? {
            assert FirstRaised(s, 3) == FirstRaised(s, 4);
          }
        }
      }
    }
  }

  /** `save_page_content` makes its calls in order and stops at the first one
      that raises: the files left are those of the steps completed before it,
      and what it raised is that step's exception. */
  lemma SaveFollowsSteps(dir: string, u: UrlParts, io: PageIo)
    ensures var r := SavePageContent(dir, Some(u), io);
            var n := CompletedSteps(Steps(io));
            && r.files == FilesAfter(dir, BaseName(u.netloc, u.path), n)
            && r.raised == (if n < 5 then Some(Steps(io)[n].kind) else None)
  {
    var n := CompletedSteps(Steps(io));
    CompletedStepsOfPage(io);
    var r := SavePageContent(dir, Some(u), io);
    var f := FilesAfter(dir, BaseName(u.netloc, u.path), n);
    if n == 0 {
      assert r.files == [] == f;
    } else if n == 1 {
      assert |r.files| == 1 == |f|;
    } else if n == 2 {
      assert |r.files| == 2 == |f|;
    } else if n == 3 {
      assert |r.files| == 2 == |f|;
    } else if n == 4 {
      assert |r.files| == 3 == |f|;
    } else {
      assert |r.files| == 3 == |f|;
    }
  }

  /** Every file of the reference description sits directly in `dir`. */
  lemma FilesAfterInDirectory(dir: string, base: string, n: nat)
    requires '/' !in base
    ensures forall f :: f in FilesAfter(dir, base, n) ==> DirectlyIn(f.path, dir)
  {
    ArtifactsAreSiblings(dir, base, Screenshot);
    ArtifactsAreSiblings(dir, base, Markup);
    ArtifactsAreSiblings(dir, base, Text);
  }

  /** Whatever fails, every file `save_page_content` leaves sits directly in
      the directory it was given. */
  lemma SaveStaysInDirectory(dir: string, url: Option<UrlParts>, io: PageIo)
    ensures forall f :: f in SavePageContent(dir, url, io).files ==> DirectlyIn(f.path, dir)
  {
    if url.Some? {
      var u := url.value;
      SaveFollowsSteps(dir, u, io);
      FilesAfterInDirectory(dir, BaseName(u.netloc, u.path), CompletedSteps(Steps(io)));
    }
  }

  /** When the URL parses and every call returns, nothing is raised and the
      three artifacts are written in full, at the sibling paths of the page's
      base name. */
  lemma SaveWritesAllThree(dir: string, u: UrlParts, io: PageIo)
    requires Steps(io) == [Done, Done, Done, Done, Done]
    ensures var base := BaseName(u.netloc, u.path);
            SavePageContent(dir, Some(u), io)
              == SaveResult([FileWrite(Folder(dir) + base + ".png", true),
                             FileWrite(Folder(dir) + base + ".html", true),
                             FileWrite(Folder(dir) + base + ".txt", true)], None)
  {
    var base := BaseName(u.netloc, u.path);
    ArtifactsAreSiblings(dir, base, Screenshot);
    ArtifactsAreSiblings(dir, base, Markup);
    ArtifactsAreSiblings(dir, base, Text);
    SaveFollowsSteps(dir, u, io);
    CompletedStepsOfPage(io);
  }
}
