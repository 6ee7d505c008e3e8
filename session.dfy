/** `run`: one browser session per domain, in the order the domains are
    listed. Nothing in `run` itself catches an exception, so one that leaves
    a session ends the whole run. */
module Session {
  import opened Outcomes
  import opened Artifacts
  import opened Triggers
  import opened Tabs

  /** The calls made before the triggers: launch, new_context, new_page,
      create_dir, goto, fill and click. */
  const SetupCalls: nat := 7

  /** The outcomes of one domain's session, in the order `run` makes the
      calls: the setup calls, the 68 `page.evaluate` calls, the pages open
      after the settle delay, and `browser.close`. */
  datatype DomainIo = DomainIo(setup: seq<Outcome>, evals: seq<Outcome>, pages: seq<Tab>, close: Outcome)

  predicate WellFormed(io: DomainIo) {
    |io.setup| == SetupCalls && |io.evals| == LastTrigger
  }

  /** What one session leaves: the scripts evaluated, the files written and
      the exception that left it, if any. */
  datatype DomainRun = DomainRun(scripts: seq<string>, files: seq<FileWrite>, escaped: Option<ErrorKind>)

  /** The exception that leaves a domain's session: the first failing setup
      call, else the first trigger failure outside the trigger clause, else
      the first tab failure outside the tab clause, else a failing close. */
  function DomainEscape(domain: string, io: DomainIo): Option<ErrorKind>
    requires WellFormed(io)
  {
    var n := CompletedSteps(io.setup);
    if n < SetupCalls then Some(io.setup[n].kind)
    else if FirstEscape(io.evals) < LastTrigger then Some(io.evals[FirstEscape(io.evals)].kind)
    else
      var t := TabsEscape(DomainDirectory(domain), io.pages, 1);
      if t.Some? then t
      else if io.close.Raised? then Some(io.close.kind)
      else None
  }

  /** What one domain's session leaves: no script and no file when setup
      fails; the scripts of the trigger loop; the files of the tab loop when
      the triggers let nothing out; and the session's exception. */
  function DomainResult(domain: string, io: DomainIo): DomainRun
    requires WellFormed(io)
  {
    if CompletedSteps(io.setup) < SetupCalls then DomainRun([], [], DomainEscape(domain, io))
    else if FirstEscape(io.evals) < LastTrigger then
      DomainRun(ScriptsUpTo(Attempted(io.evals)), [], DomainEscape(domain, io))
    else
      var rs := Results(DomainDirectory(domain), io.pages);
      DomainRun(ScriptsUpTo(Attempted(io.evals)), FilesUpTo(rs, VisitEnd(rs)), DomainEscape(domain, io))
  }

  /** A session that ends without an exception attempted all 68 scripts and
      processed every page after the base page. */
  lemma CleanSessionDidEverything(domain: string, io: DomainIo)
    requires WellFormed(io)
    ensures var r := DomainResult(domain, io);
            r.escaped.None? ==>
              && r.scripts == ScriptsUpTo(LastTrigger)
              && r.files == FilesUpTo(Results(DomainDirectory(domain), io.pages), |io.pages|)
  {
    if |io.pages| > 1 {
      TabsEscapeIsFirstEscape(DomainDirectory(domain), io.pages, 1);
    }
  }

  /** Every file a session leaves, whatever fails, sits directly in that
      domain's directory. */
  lemma DomainFilesInDirectory(domain: string, io: DomainIo)
    requires WellFormed(io)
    ensures forall f :: f in DomainResult(domain, io).files ==> DirectlyIn(f.path, DomainDirectory(domain))
  {
    var dir := DomainDirectory(domain);
    TabFilesInDirectory(dir, io.pages, VisitEnd(Results(dir, io.pages)));
  }

  /** The session of one domain, the body of `run`'s loop. */
  method RunDomain(domain: string, io: DomainIo) returns (r: DomainRun)
    requires WellFormed(io)
    ensures r.escaped == DomainEscape(domain, io)
    ensures CompletedSteps(io.setup) < SetupCalls ==> r.scripts == [] && r.files == []
    ensures CompletedSteps(io.setup) == SetupCalls ==> r.scripts == ScriptsUpTo(Attempted(io.evals))
    ensures CompletedSteps(io.setup) == SetupCalls && FirstEscape(io.evals) == LastTrigger ==>
              var rs := Results(DomainDirectory(domain), io.pages);
              r.files == FilesUpTo(rs, VisitEnd(rs))
    ensures FirstEscape(io.evals) < LastTrigger ==> r.files == []
    ensures forall f :: f in r.files ==> DirectlyIn(f.path, DomainDirectory(domain))
    ensures r == DomainResult(domain, io)
  {
    var n := CompletedSteps(io.setup);
    if n < SetupCalls {
      return DomainRun([], [], Some(io.setup[n].kind));
    }
    var directory := DomainDirectory(domain);
    var scripts, _, triggerEscaped := DispatchTriggers(io.evals);
    if triggerEscaped.Some? {
      return DomainRun(scripts, [], triggerEscaped);
    }
    var _, files, _, tabEscaped := CaptureTabs(directory, io.pages);
    if |io.pages| > 1 {
      TabsEscapeIsFirstEscape(directory, io.pages, 1);
    }
    TabFilesInDirectory(directory, io.pages, VisitEnd(Results(directory, io.pages)));
    if tabEscaped.Some? {
      return DomainRun(scripts, files, tabEscaped);
    }
    if io.close.Raised? {
      return DomainRun(scripts, files, Some(io.close.kind));
    }
    return DomainRun(scripts, files, None);
  }

  /** A session ends without an exception exactly when every setup call
      succeeds, no trigger and no tab fails outside its clause, and the
      browser closes. */
  lemma DomainCompletes(domain: string, io: DomainIo)
    requires WellFormed(io)
    ensures DomainEscape(domain, io).None? <==>
              && (forall k :: 0 <= k < SetupCalls ==> io.setup[k] == Done)
              && (forall k :: 0 <= k < LastTrigger ==> !Escapes(io.evals[k]))
              && (forall i :: 1 <= i < |io.pages| ==> Results(DomainDirectory(domain), io.pages)[i].escaped.None?)
              && io.close == Done
  {
    TabsEscapeNone(DomainDirectory(domain), io.pages, 1);
    if CompletedSteps(io.setup) < SetupCalls {
      assert io.setup[CompletedSteps(io.setup)] != Done;
    } else if FirstEscape(io.evals) < LastTrigger {
      assert Escapes(io.evals[FirstEscape(io.evals)]);
    }
  }

  /** The exceptions leaving the sessions of the first `n` domains, in order. */
  function SessionEscapes(domains: seq<string>, ios: seq<DomainIo>, n: nat): (es: seq<Option<ErrorKind>>)
    requires |ios| == |domains| && n <= |domains|
    requires forall k :: 0 <= k < |ios| ==> WellFormed(ios[k])
    ensures |es| == n
  {
    if n == 0 then [] else SessionEscapes(domains, ios, n - 1) + [DomainEscape(domains[n - 1], ios[n - 1])]
  }

  lemma {:induction false} SessionEscapesAt(domains: seq<string>, ios: seq<DomainIo>, n: nat, k: nat)
    requires |ios| == |domains| && n <= |domains|
    requires forall j :: 0 <= j < |ios| ==> WellFormed(ios[j])
    requires k < n
    ensures SessionEscapes(domains, ios, n)[k] == DomainEscape(domains[k], ios[k])
  {
    if k < n - 1 {
      SessionEscapesAt(domains, ios, n - 1, k);
    }
  }

  /** What the sessions of the first `n` domains leave, in order. */
  function SessionResults(domains: seq<string>, ios: seq<DomainIo>, n: nat): (rs: seq<DomainRun>)
    requires |ios| == |domains| && n <= |domains|
    requires forall k :: 0 <= k < |ios| ==> WellFormed(ios[k])
    ensures |rs| == n
  {
    if n == 0 then [] else SessionResults(domains, ios, n - 1) + [DomainResult(domains[n - 1], ios[n - 1])]
  }

  lemma {:induction false} SessionResultsAt(domains: seq<string>, ios: seq<DomainIo>, n: nat, k: nat)
    requires |ios| == |domains| && n <= |domains|
    requires forall j :: 0 <= j < |ios| ==> WellFormed(ios[j])
    requires k < n
    ensures SessionResults(domains, ios, n)[k] == DomainResult(domains[k], ios[k])
  {
    if k < n - 1 {
      SessionResultsAt(domains, ios, n - 1, k);
    }
  }

  /** Every file recorded for the session of domain `k` sits directly in
      that domain's directory. */
  lemma SessionFilesInDirectory(domains: seq<string>, ios: seq<DomainIo>, n: nat, k: nat)
    requires |ios| == |domains| && n <= |domains|
    requires forall j :: 0 <= j < |ios| ==> WellFormed(ios[j])
    requires k < n
    ensures forall f :: f in SessionResults(domains, ios, n)[k].files ==> DirectlyIn(f.path, DomainDirectory(domains[k]))
  {
    SessionResultsAt(domains, ios, n, k);
    DomainFilesInDirectory(domains[k], ios[k]);
  }

  /** The exceptions recorded in the sessions' results are the sessions'
      own exceptions. */
  lemma {:induction false} SessionResultsEscapes(domains: seq<string>, ios: seq<DomainIo>, n: nat)
    requires |ios| == |domains| && n <= |domains|
    requires forall j :: 0 <= j < |ios| ==> WellFormed(ios[j])
    ensures forall k :: 0 <= k < n ==> SessionResults(domains, ios, n)[k].escaped == SessionEscapes(domains, ios, n)[k]
  {
    if n > 0 {
      SessionResultsEscapes(domains, ios, n - 1);
    }
  }

  /** `run`'s loop over the domains read from the URL list. A session that
      raises ends the run: later domains get no session. */
  method Run(domains: seq<string>, ios: seq<DomainIo>) returns (runs: seq<DomainRun>, escaped: Option<ErrorKind>)
    requires |ios| == |domains|
    requires forall k :: 0 <= k < |ios| ==> WellFormed(ios[k])
    ensures |runs| <= |domains|
    ensures var es := SessionEscapes(domains, ios, |runs|);
            forall k :: 0 <= k < |runs| ==> runs[k].escaped == es[k]
    ensures forall k :: 0 <= k < |runs| - 1 ==> runs[k].escaped.None?
    ensures |runs| < |domains| ==> |runs| > 0 && runs[|runs| - 1].escaped.Some?
    ensures escaped == if |runs| > 0 then runs[|runs| - 1].escaped else None
    ensures runs == SessionResults(domains, ios, |runs|)
  {
    runs, escaped := [], None;
    var k := 0;
    while k < |domains|
      invariant k <= |domains| && |runs| == k
      invariant runs == SessionResults(domains, ios, k)
      invariant forall j :: 0 <= j < k ==> runs[j].escaped.None?
    {
      var r := RunDomain(domains[k], ios[k]);
      runs := runs + [r];
      if r.escaped.Some? {
        escaped := r.escaped;
        SessionResultsEscapes(domains, ios, k + 1);
        return;
      }
      k := k + 1;
    }
    SessionResultsEscapes(domains, ios, k);
  }
}
