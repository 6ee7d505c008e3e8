# IntelTechniques domain capture: a Dafny model

The script reads a list of domains. For each domain it opens a browser on
the IntelTechniques domain tool and fills in the domain. It then calls the
page's 68 search functions, `doSearch01()` … `doSearch68()`, and each call
opens a tab. Every tab except the base page is then saved as a full-page
screenshot, its HTML and its body text, under `results/<domain>`. This
project models the deterministic logic around that browser and file I/O:

- `Sanitize`: `sanitize_filename`.
- `Artifacts`: the domain directory, the base name derived from a page's
  URL, the three sibling artifact paths, and the order in which
  `save_page_content` creates and fills the files.
- `Triggers`: the trigger loop. It builds the names, attempts the calls in
  order, logs the failures it catches, and stops only on one it does not
  catch.
- `Tabs`: the tab loop over `context.pages[1:]`.
- `Session`: one domain's session, and the loop over the domains.
- `Outcomes`: shared result types.

Every driver call and file-system call is an input: an `Outcome`, either
`Done` or `Raised(kind)`. The URL parse is an input too: the parsed
`netloc` and `path`, or `None` when the parser raises `ValueError`. The kinds are `OSError`,
`ValueError` and `RuntimeError`, plus `OtherError` for any class that none
of the script's `except` clauses names. Each `try` site catches exactly
the classes its clause lists:

| site | classes caught |
|---|---|
| trigger loop | `RuntimeError`, `ValueError` |
| tab loop | `OSError`, `RuntimeError` |
| `save_page_content` | `OSError`, `ValueError`, `RuntimeError` |

Anything else propagates out of `run`, and that ends the run.

## Model

| member | source | states |
|---|---|---|
| Sanitize.KeepAllowed | IntelTechniques.py:25 | every character the filter keeps is alphanumeric, a space, '.' or '_', and the result is no longer than the input |
| Sanitize.RStrip | IntelTechniques.py:25 | `rstrip()` returns a prefix of its input; everything it drops is whitespace, and the result does not end in whitespace |
| Sanitize.SanitizeFilename | IntelTechniques.py:21-25 | the sanitised name has only allowed characters, has no trailing whitespace, and is no longer than the input |
| Sanitize.KeepAllowedAppend | IntelTechniques.py:25 | filtering a concatenation gives the concatenation of the filtered parts |
| Sanitize.KeepAllowedOfAllowed | IntelTechniques.py:25 | the filter leaves a string of allowed characters unchanged |
| Sanitize.KeepAllowedCounts | IntelTechniques.py:25 | the filter keeps each allowed character exactly as often as it occurs, and no other character |
| Sanitize.KeepAllowedIsSubsequence | IntelTechniques.py:25 | the filter keeps the characters in their original order |
| Sanitize.SanitizeIsSubsequence | IntelTechniques.py:25 | the sanitised name is a subsequence of the input |
| Sanitize.SanitizeIdempotent | IntelTechniques.py:25 | sanitising twice gives what sanitising once gives |
| Sanitize.SanitizeMatchesReference | IntelTechniques.py:25 | a string is the sanitised name iff it is the allowed characters in order, cut before a final run of whitespace and not ending in whitespace |
| Artifacts.JoinPath | IntelTechniques.py:38 | POSIX `os.path.join`: an absolute second part replaces the first; otherwise the result is the first part's folder prefix followed by the second part |
| Artifacts.DomainDirectory | IntelTechniques.py:11-18 | the directory of a relative domain is `results/<domain>`; an absolute domain is used as it is |
| Artifacts.DomainDirectoryInjective | IntelTechniques.py:15 | the directory path strings of two domains are equal iff the domains are |
| Artifacts.ReplaceSlash | IntelTechniques.py:35 | `replace("/", "_")` keeps the length and maps each '/' to '_', leaving every other character alone |
| Artifacts.BaseName | IntelTechniques.py:33-35 | the base name contains no '/', only allowed characters, and no trailing whitespace |
| Artifacts.BaseNameOfPlainUrl | IntelTechniques.py:33-35 | for a netloc and path made of allowed characters and '/', whose join with every '/' turned into '_' does not end in whitespace, the base name is exactly that join |
| Artifacts.BaseNameCollides | IntelTechniques.py:33-35 | the paths `/a/b` and `/a_b` on one host give the same base name, so their artifacts share paths |
| Artifacts.ArtifactPath | IntelTechniques.py:38-47 | `os.path.join(directory, f"{filename}.<ext>")`; it has no contract of its own, and ArtifactsAreSiblings and ArtifactPathInjective state its form: the folder prefix, the base name, then the kind's extension |
| Artifacts.ArtifactsAreSiblings | IntelTechniques.py:38-47 | each artifact path is the directory's folder prefix, then the base name, then `.png`, `.html` or `.txt`, and it names an entry directly in the directory |
| Artifacts.ArtifactPathInjective | IntelTechniques.py:38-47 | in one directory, two artifact paths are equal iff their base names and kinds are equal |
| Artifacts.SavePageContent | IntelTechniques.py:28-51 | `save_page_content` leaves at most three files |
| Artifacts.CompletedStepsOfPage | IntelTechniques.py:37-49 | the calls run in the order screenshot, open the HTML file, write the HTML, open the text file, write the text; the number that completed is the position of the first one that raised |
| Artifacts.SaveFollowsSteps | IntelTechniques.py:32-51 | after `n` completed calls, the files left are exactly the reference list for `n` (a file exists once opened and is complete once written), and what is raised is the exception of call `n` |
| Artifacts.SaveStaysInDirectory | IntelTechniques.py:28-51 | whatever fails, every file `save_page_content` leaves sits directly in the directory it was given |
| Artifacts.SaveWritesAllThree | IntelTechniques.py:37-49 | when every call returns, the PNG, HTML and text files are all complete at the sibling paths, and nothing is raised |
| Triggers.DecimalString | IntelTechniques.py:78 | `str(n)` is a non-empty digit string with no leading zero, and it is one digit long iff n < 10 |
| Triggers.ParseDecimalString | IntelTechniques.py:78 | reading the decimal string back gives n |
| Triggers.ZeroPad2 | IntelTechniques.py:78 | `{i:02d}` is a string of at least two digits; ZeroPad2RoundTrip shows it keeps the value |
| Triggers.ZeroPad2RoundTrip | IntelTechniques.py:78 | `{i:02d}` is at least two digits long and reads back as i |
| Triggers.ZeroPad2TwoDigits | IntelTechniques.py:78 | below 100, `{i:02d}` is exactly the tens digit followed by the units digit |
| Triggers.TriggerName | IntelTechniques.py:78 | `f"doSearch{i:02d}"` is `doSearch` followed by at least two more characters; TriggerNameRoundTrip shows the ordinal can be read back |
| Triggers.TriggerNameRoundTrip | IntelTechniques.py:78 | the ordinal can be read back out of `doSearch{i:02d}` |
| Triggers.TriggerNameInjective | IntelTechniques.py:77-78 | two trigger names are equal iff their ordinals are |
| Triggers.TriggerNameShape | IntelTechniques.py:77-78 | for i in 1..68 the name is `doSearch` followed by two characters |
| Triggers.TriggerNamesAscending | IntelTechniques.py:77-78 | for 1 <= i < j <= 68, name i is below name j in Python's string order |
| Triggers.ScriptsUpTo | IntelTechniques.py:77-83 | the first n scripts are, in order, `doSearch{k:02d}()` for k = 1..n |
| Triggers.ScriptsAscending | IntelTechniques.py:77-83 | those scripts are pairwise distinct and strictly ascending |
| Triggers.DispatchTriggers | IntelTechniques.py:77-86 | the loop evaluates the scripts in order up to and including the first call whose exception is not caught, or all 68 if there is none; it logs the caught failures, in order, and lets out exactly the first uncaught exception |
| Triggers.NothingEscapesAllAttempted | IntelTechniques.py:79-86 | when all failures are caught, all 68 triggers are attempted |
| Tabs.CaptureTab | IntelTechniques.py:93-99 | processing one tab lets out only classes outside `(OSError, RuntimeError)`; a failed load leaves no file and lets its exception out iff that is not caught; otherwise the files are those of `save_page_content` |
| Tabs.CaptureTabOutcome | IntelTechniques.py:93-99 | for a loaded page, a save failure that `save_page_content` catches is logged and the loop goes on, and any other save failure leaves the loop unlogged; a failed load is logged and swallowed iff the tab clause names it, and otherwise it leaves the loop |
| Tabs.CaptureTabs | IntelTechniques.py:92-99 | the tab loop visits indices 1, 2, … in order, stopping after the first tab that lets an exception out; its files and logged indices are those of the visited tabs, in order, and it lets out exactly that first exception |
| Tabs.BasePageNeverVisited | IntelTechniques.py:92 | the loop never visits index 0; the visited indices are valid and strictly ascending |
| Tabs.AllTabsVisitedWithoutEscape | IntelTechniques.py:92-99 | when no tab lets an exception out, the loop visits exactly 1..len(pages)-1 |
| Tabs.TabFilesInDirectory | IntelTechniques.py:92-99 | every file the tab loop leaves sits directly in the domain directory |
| Tabs.TabsEscapeIsFirstEscape | IntelTechniques.py:92-99 | the exception the loop lets out, taken page by page, is the one of the first tab that lets one out |
| Tabs.TabsEscapeNone | IntelTechniques.py:92-99 | nothing leaves the tab loop iff no tab from index 1 on lets an exception out |
| Session.RunDomain | IntelTechniques.py:62-102 | a session lets out exactly its first uncaught exception: from setup, triggers, tabs or close, in that order; a failed setup evaluates nothing and writes nothing; the scripts are those of the trigger loop; the files are those of the tab loop, and they sit in the domain's directory; the whole result is the reference result `DomainResult` of that domain |
| Session.DomainCompletes | IntelTechniques.py:62-102 | a session ends without an exception iff every setup call returns, every trigger and tab failure is caught, and the browser closes |
| Session.CleanSessionDidEverything | IntelTechniques.py:62-102 | a session that ends without an exception evaluated all 68 scripts, in order, and left the files of every page from index 1 on |
| Session.DomainFilesInDirectory | IntelTechniques.py:62-102 | whatever fails, every file a session leaves sits directly in its domain's directory |
| Session.SessionEscapesAt | IntelTechniques.py:62 | the k-th exception `Run` records is the one the k-th domain's session lets out |
| Session.SessionResultsAt | IntelTechniques.py:62 | the k-th recorded session is the reference session of the k-th domain with its own outcomes |
| Session.SessionFilesInDirectory | IntelTechniques.py:62-102 | every file recorded for the k-th session sits directly in the k-th domain's directory |
| Session.SessionResultsEscapes | IntelTechniques.py:62-102 | each recorded session's exception is the exception that session lets out |
| Session.Run | IntelTechniques.py:59-102 | domains are processed in order, and the sessions run are exactly the reference sessions of the first domains; each session's exception is that domain's own; every session before the last ends cleanly; the run stops early only after a session that raises, and it lets out that exception |

## Left out

- Playwright is not modelled. Launch, `new_context`, `new_page`, `goto`, `fill`, `click`, `evaluate`, `wait_for_load_state`, `screenshot`, `content`, `inner_text` and `close` are foreign calls driving a browser. Each is an input `Outcome`.
- File-system effects are not modelled. `os.path.exists`, `os.makedirs` and the file writes are left out; only their paths and whether each call returned are modelled. `create_dir` is one setup outcome.
- Reading `urls.txt` is left out (I/O); the domains are an input list.
- `time.sleep(10)` is left out (timing).
- The `print` calls are recorded only as which trigger names or tab indices were logged.
- `urllib.parse.urlparse` is a library whose internals are not visible here. Its `netloc` and `path` are inputs, and a `ValueError` from it is the `None` case.
- `str.isalnum` is restricted to ASCII letters and digits. Python's version is Unicode-aware, and its tables are not modelled.
- Path normalisation is not modelled. Paths are compared as strings, so `results/a` and `results/a/`, which the domains `a` and `a/` give, are different paths here, although they name one directory on disk.
- `str.isspace` is written out as a fixed character set: the ASCII whitespace and the Unicode space characters.
- `context.pages` is taken as the list open when the tab loop starts. Tabs opened or closed during the loop are not modelled, and neither is the `IndexError` they could cause.
- A failed screenshot is assumed to leave no file. The driver writes the PNG itself, and whether a failed write leaves a partial file is not modelled. The HTML and text files are opened before their content is fetched, so a failed fetch leaves an empty file (`complete` = false).
- The `with` blocks' closing of files and of the Playwright context is not modelled. An exception that leaves a session skips `browser.close()` and ends the run.
- Session.Run: does not itself state that each domain's files stay in that domain's directory; SessionFilesInDirectory states it of the sessions Run records.
- Artifacts.SavePageContent: its own contract bounds only the number of files; the file list and the exception are stated by SaveFollowsSteps, SaveStaysInDirectory and SaveWritesAllThree.
