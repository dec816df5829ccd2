# XposedOrNot breach checker and OSINT report: a Dafny model

This project models the decision and string rules at the core of two command-line
tools for breach lookups: `breachchecker.py`, a client of the XposedOrNot API, and
`detailscheck.py`, an OSINT tool that merges Hudson Rock, Have I Been Pwned and
Dehashed results into one text report. Every network reply is an input value:
an HTTP status plus a decoded or undecodable body, or a transport failure. The
model covers:

- how replies are classified (`handle`, the three OSINT sources);
- the rows each command of the CLI builds, kept as data rather than rendered text;
- the lines of the OSINT report and its outline;
- email validation;
- the name of the saved report file.

Modules, by source file:

| module | models |
|---|---|
| `BreachApi` | `handle`: status line and payload |
| `EmailScan` | `check_email`: flattening and the numbered table |
| `BreachAnalytics` | `breach_analytics`: risk colour, industry bars, password-strength panel |
| `PasswordScan` | `check_password`: hash prefix, outcome, composition parser |
| `DomainBreaches` | `list_domain_breaches`: list source, cap of 25 rows, record grouping, failures |
| `BreachBrowser` | `list_breaches`: `or` fallbacks, date before `T`, cap of 20 rows |
| `EmailFormat` | `check_email_format`, with the regular expression as a character-class predicate |
| `OsintSources` | the status handling of `hudson_rock_search`, `haveibeenpwned_search`, `dehashed_search` |
| `OsintReport` | `analyze_results`, as methods that grow the line list, each proved equal to a function |
| `OsintReportProperties` | outline, error precedence, counts, domain and DNS rules of the report |
| `ReportFile` | the file path computed in `save_report` |
| `PyJson`, `Http`, `Strings`, `Optional` | Python values and their semantics: truthiness, `dict.get`, `in`, slices, `int()`, `str.split`, `join`, `replace` |

Python's behaviour is modelled on values:
- A Python exception is `Py.Raised`. Its text is not modelled.
- The `breachchecker.py` payloads are a general JSON value (`Json`), because the
  code branches on `isinstance`, on truthiness and on `in`.
- The `detailscheck.py` source results are typed records: an optional `error` and
  optional payload fields.

Places where the code decides differently from what its documentation suggests
(the model follows the code):
- The DOMAIN ANALYSIS section needs an `@` *and* a non-empty text after the last
  `@`, because of `if domain:` (`DomainSectionPresence`).
- The email pattern ends in `$`, so a single trailing newline is also accepted
  (`EmailFormat.CheckEmailFormat`).
- The report file name is not injective: `a.b@c.de` and `a_dot_b@c.de` give the same
  path (`ReportPathCollision`). For one target, different seconds never collide
  (`NoOverwriteAcrossSeconds`).
- `check_password` reports SECURE for every status but 200, 429 and 5xx included
  (`SecureWithoutPayload`).
- A HIBP 404 reads as "no breaches", not as an error (`HibpNotFoundScenario`).
- A failed DNS lookup is shown with the characters of its error text joined by
  `, ` (`DnsErrorLineAsWritten`, and see Findings).

## Model

| member | source | states |
|---|---|---|
| BreachApi.StatusNotice | breachchecker.py:165-175 | the notice is Success, NotFound or RateLimited exactly for 200, 404 or 429, and OtherStatus exactly for every other code |
| BreachApi.Handle | breachchecker.py:165-176 | a payload exactly for a decoded 200 reply, and then it is the decoded body; an exception exactly for a transport failure or an undecodable 200 body; `None` otherwise |
| BreachApi.HandleWithoutPayload | breachchecker.py:170-176 | every status other than 200 (404, 429, 5xx, ...) gives `None` whatever the body, with a notice other than success |
| EmailScan.Flatten | breachchecker.py:190-192 | an empty list makes `breaches[0]` raise; a list whose first item is a list gives that inner list; any other list gives itself |
| EmailScan.CheckEmail | breachchecker.py:178-209 | nothing is printed exactly when `handle` gave no payload or a falsy one; a failed request is an error; a compromised result comes only from a decoded 200 dictionary |
| EmailScan.Numbered | breachchecker.py:196-199 | one row per item, in order, row k numbered k+1 and carrying item k |
| EmailScan.BuildEmailTable | breachchecker.py:196-199 | the appending loop yields exactly the numbered rows of the list it walks |
| EmailScan.FlattenedList | breachchecker.py:190-199 | for a non-empty `breaches` list the result is compromised; the table lists the inner list when the first item is a list, otherwise the whole list |
| EmailScan.CompromisedShape | breachchecker.py:186-199 | a table is shown only for a decoded 200 reply, and its rows are numbered 1..n in order |
| EmailScan.CleanWithoutBreaches | breachchecker.py:190-207 | a missing or falsy `breaches` value (null, empty list) reads as CLEAN |
| EmailScan.NonDictionaryFails | breachchecker.py:186-209 | a truthy payload that is not a dictionary makes `data.get` raise, and the command reports an error |
| BreachAnalytics.IndustryRows | breachchecker.py:247-251 | the industry rows exist exactly when every entry unpacks into a name and a count |
| BreachAnalytics.MetricsPanels | breachchecker.py:225-269 | the metrics always show something; the first panel is the risk panel coloured by its own label, and no later panel is a risk panel |
| BreachAnalytics.AfterRisk | breachchecker.py:241-269 | the industry and strength parts only add panels after those already printed, even when they fail, and none of them is a risk panel |
| BreachAnalytics.BreachAnalyticsOf | breachchecker.py:211-272 | nothing is shown exactly when `handle` gave no payload or a falsy one; a failed request shows only the error |
| BreachAnalytics.RiskColorOf | breachchecker.py:232-237 | green exactly for the label "Low", yellow exactly for "Medium", red exactly for every other label, the default "Unknown" included |
| BreachAnalytics.Bar | breachchecker.py:250 | for a positive count the bar is at most 20 and at most count div 5, and equals one of the two |
| BreachAnalytics.BuildIndustryRows | breachchecker.py:247-251 | the industry loop yields the rows of the entry list, or the exception of the first malformed entry |
| BreachAnalytics.IndustryRowsOfPairs | breachchecker.py:248-251 | for (name, count) pairs the rows are, in order, the upper-cased names of the positively counted ones, each with the bar min(count div 5, 20) |
| BreachAnalytics.IndustryRowsBounded | breachchecker.py:248-251 | every industry row shown has a positive count and a bar of min(c div 5, 20), at most 20, and there are no more rows than entries |
| BreachAnalytics.RiskPanelFirst | breachchecker.py:223-239 | whenever analytics shows something, the first panel is the risk panel, coloured by its own label, and it is the only risk panel |
| BreachAnalytics.EmptyMetrics | breachchecker.py:223-269 | empty metrics show an "Unknown" risk in red with score 0, no industry part, and four zero strength counts |
| PasswordScan.CheckPassword | breachchecker.py:274-328 | SECURE exactly when `handle` gave no payload or a falsy one; a failed request is an error; an exposed result comes only from a decoded 200 dictionary |
| PasswordScan.Composition | breachchecker.py:302-319 | parsing raises exactly when `char` is not a string or one of its `;` segments holds two or more `:` |
| PasswordScan.HashPrefix | breachchecker.py:282 | the prefix sent is the first ten characters of the digest, or the whole digest if it is shorter |
| PasswordScan.CodeOfComponentOf | breachchecker.py:312-318 | the code can be read back from every row's component; a code other than D, A, S or L is kept verbatim as its own label |
| PasswordScan.SegmentRow | breachchecker.py:309-318 | a segment raises exactly when it holds two or more `:`, gives no row exactly when it holds none, and otherwise its row reads back as the segment `code:value` |
| PasswordScan.CompositionRaises | breachchecker.py:302-319 | parsing the composition raises exactly when some segment holds two or more `:` |
| PasswordScan.CompositionRows | breachchecker.py:308-319 | never more rows than segments |
| PasswordScan.CompositionRowsCount | breachchecker.py:308-319 | a table that does not raise has exactly one row per segment holding a single `:`; segments all without `:` give an empty table |
| PasswordScan.ParseComposition | breachchecker.py:308-319 | the `tbl` loop yields exactly the specified rows, or the exception of the first bad segment |
| PasswordScan.KeyValueSegment | breachchecker.py:310-319 | a segment `k:v` with no other `:` gives the row pairing k's component with v |
| PasswordScan.TwoSegments | breachchecker.py:302-319 | `"k1:v1;k2:v2"` gives the two rows in order |
| PasswordScan.SecureWithoutPayload | breachchecker.py:288-293 | every status other than 200 (404, 429, 5xx) is reported as SECURE |
| PasswordScan.TransportFailureIsNotSecure | breachchecker.py:287-328 | a failed request is reported as an error, never as SECURE |
| DomainBreaches.ListDomainBreaches | breachchecker.py:330-396 | "Failed to retrieve" exactly when `handle` gave no payload or a falsy one; a timeout or connection error comes only from a failed request; a table comes only from a decoded 200 reply with a positive total |
| DomainBreaches.SourcePrecedence | breachchecker.py:349-355 | `metrics.Breaches_Details` wins over `domain_breaches`, which wins over the empty default |
| DomainBreaches.BreachSource | breachchecker.py:349-355 | a top-level list is its own source unless it contains one of the key strings; a dictionary with neither key gives the empty list |
| DomainBreaches.FormatRecords | breachchecker.py:368-370 | grouped exactly for a non-negative number or a digit string; any other value unchanged |
| DomainBreaches.FormatRecordsShape | breachchecker.py:368-370 | a grouped value keeps its digits and value, in comma groups of three after a head of one to three |
| DomainBreaches.DomainRowOf | breachchecker.py:364-366 | a row exactly for a dictionary entry; an exception otherwise |
| DomainBreaches.DomainRowFields | breachchecker.py:364-370 | each cell is the value of the first key present, even if falsy, and the default only when no key is present |
| DomainBreaches.FalsyNameKept | breachchecker.py:364 | an empty `breach` name is shown empty, not replaced by `name` or "Unknown" |
| DomainBreaches.DomainRows | breachchecker.py:363-377 | rows exactly when every entry is a dictionary, one per entry in order, numbered from 1 |
| DomainBreaches.BuildDomainTable | breachchecker.py:362-377 | the table loop yields exactly the specified rows, or the exception of the first non-dictionary |
| DomainBreaches.ListedTable | breachchecker.py:357-377 | a table comes only from a decoded 200 reply with a positive total, holds at most 25 rows, numbered from 1 |
| DomainBreaches.ListTruncation | breachchecker.py:360-382 | N dictionaries give the rows of the first min(25, N), and the "Showing first 25" note appears exactly when rows were left out |
| DomainBreaches.NoSourceIsClean | breachchecker.py:349-389 | a non-empty dictionary naming neither source gives DOMAIN STATUS: CLEAN |
| DomainBreaches.TransportFailures | breachchecker.py:391-396 | a timeout, a connection error and any other request error reach their own `except` clauses |
| BreachBrowser.ListBreaches | breachchecker.py:398-418 | nothing is printed exactly when `handle` gave no payload or a falsy one; a list shown has between 1 and 20 rows |
| BreachBrowser.BreachList | breachchecker.py:407 | the `or` chain raises exactly for a payload that is not a dictionary; a truthy list is `exposedBreaches` when that is truthy, and otherwise `Exposed Breaches` |
| BreachBrowser.BrowseRowOf | breachchecker.py:411-414 | a row only for a dictionary entry |
| BreachBrowser.BrowseRowFields | breachchecker.py:411-414 | a row exactly when the date value is a string; each cell is the first truthy value among its keys; the date is a `T`-free prefix of the timestamp, followed by `T` when shorter |
| BreachBrowser.DateBeforeT | breachchecker.py:413-414 | an ISO timestamp `date T time` is shown as `date` |
| BreachBrowser.FalsyIdSkipped | breachchecker.py:411 | `or` passes over a falsy `breachID` to the `Breach ID` value |
| BreachBrowser.BrowseRows | breachchecker.py:410-414 | rows exactly when every entry gives one, one per entry in order |
| BreachBrowser.BuildBrowseTable | breachchecker.py:409-414 | the loop yields exactly the specified rows, or the exception of the first bad entry |
| BreachBrowser.ListedBound | breachchecker.py:405-416 | a list is shown only for a decoded 200 reply, with between 1 and 20 rows |
| BreachBrowser.ListedPrefix | breachchecker.py:407-414 | N well-formed entries show the rows of the first min(20, N), in order |
| BreachBrowser.NoListIsEmpty | breachchecker.py:407-418 | both keys missing or falsy give the "no breaches" message |
| BreachBrowser.TransportFailureCrashes | breachchecker.py:398-418 | a failed request is not caught by the command |
| EmailFormat.CheckEmailFormat | detailscheck.py:29-32 | true exactly for a non-empty local part over `[A-Za-z0-9._%+-]`, one `@`, a domain over `[A-Za-z0-9.-]` ending in `.` and two or more letters (optionally a trailing newline) |
| EmailFormat.ShapeMatchesCorrect | detailscheck.py:31 | the scan by first `@` and last `.` accepts exactly the strings of that shape |
| EmailFormat.AcceptedHasOneAt | detailscheck.py:31 | an accepted address holds exactly one `@` |
| OsintSources.HudsonRockSearch | detailscheck.py:34-42 | a decoded 200 reply is passed on as it is; any other outcome is an error, and a non-200 status names its code |
| OsintSources.HaveIBeenPwnedSearch | detailscheck.py:44-59 | a decoded 200 is passed on; a 404 becomes an empty breach list with no error; any other outcome is an error naming the status |
| OsintSources.DehashedSearch | detailscheck.py:61-82 | a missing key gives "Dehashed API key required" whatever the reply; otherwise a decoded 200 is passed on and anything else is an error |
| OsintReport.StealerBlocksLayout | detailscheck.py:152-161 | n stealers give 7n lines, block k being lines 7k..7k+7 and numbered k+1 |
| OsintReport.HibpBullets | detailscheck.py:176-177 | one bullet per breach, in order |
| OsintReport.DehashedLines | detailscheck.py:193-194 | one line per entry, in order |
| OsintReport.BuildHudsonSection | detailscheck.py:138-163 | the appending code yields exactly the Hudson Rock section |
| OsintReport.BuildHibpSection | detailscheck.py:165-181 | the appending code yields exactly the HIBP section |
| OsintReport.BuildDehashedSection | detailscheck.py:183-196 | the appending code yields exactly the Dehashed section |
| OsintReport.BuildDomainSection | detailscheck.py:198-221 | the appending code yields exactly the domain section, a failed lookup included as written |
| OsintReport.AnalyzeResults | detailscheck.py:125-237 | the report built line by line is the specified report, joined with newlines |
| OsintReportProperties.ReportOutline | detailscheck.py:128-235 | for all inputs the section titles are, in order: Hudson Rock, HIBP, Dehashed, then domain and DNS exactly when the email yields a domain, then the recommendations |
| OsintReportProperties.ReportText | detailscheck.py:128-237 | the text opens with the `=` line, the title, the `=` line and the target, and ends with the seventh recommendation and a newline |
| OsintReportProperties.ErrorPrecedence | detailscheck.py:144-190 | a source's `error` gives one `Error:` (Hudson, HIBP) or `Note:` (Dehashed) line, and the report equals the one for the bare error, whatever else that source carries |
| OsintReportProperties.HudsonCounts | detailscheck.py:146-161 | n stealers give "Total Breaches: n" and n blocks numbered "Breach #1" to "Breach #n", in order |
| OsintReportProperties.HudsonNothingFound | detailscheck.py:162-163 | a missing or empty stealer list gives the single "No compromises" line |
| OsintReportProperties.HibpCounts | detailscheck.py:171-181 | n breaches give "Found in n breaches" and n bullets in order; an empty list gives "No breaches found"; a missing list gives "not available" |
| OsintReportProperties.HibpNotFoundScenario | detailscheck.py:54-55 | a 404 from HIBP reads as "No breaches found", never as an error |
| OsintReportProperties.HibpTwoBreachesScenario | detailscheck.py:173-177 | two breach records give the count line and their two bullets in order |
| OsintReportProperties.DehashedCounts | detailscheck.py:191-194 | at most five entry lines, the first five in order, and the count line shows `total` |
| OsintReportProperties.DehashedCountFromTotal | detailscheck.py:192 | the count line does not depend on the entries received |
| OsintReport.DomainOf | detailscheck.py:199 | there is a domain exactly when the email holds `@`, and it holds no `@` |
| OsintReport.DnsLines | detailscheck.py:219-221 | never more DNS lines than record types |
| OsintReport.JoinCharsIsJoin | detailscheck.py:221 | `', '.join` of an error string joins the one-character strings it iterates over |
| OsintReportProperties.DomainOfShape | detailscheck.py:199 | the domain ends the email right after an `@` |
| OsintReportProperties.DomainSectionPresence | detailscheck.py:199-205 | DOMAIN ANALYSIS appears exactly when there is an `@` with text after the last one, and it opens with the title, rule and domain line |
| OsintReportProperties.Answered | detailscheck.py:219-220 | `if records:` keeps only record types with a non-empty value, and never more types than given |
| OsintReportProperties.DnsLinesAnswered | detailscheck.py:219-221 | the DNS lines are exactly those of the answered types, in order: in a mixed lookup a type with an empty value (a `NoAnswer` stored as `[]`) is left out and the others keep their lines |
| OsintReportProperties.DnsLinesOmitEmpty | detailscheck.py:219-221 | the same for all lookups, and in particular no line when every value is empty and every type's line, in order, when none is |
| OsintReportProperties.DnsMixedScenario | detailscheck.py:113-221 | A and MX answered with AAAA empty give the A and MX lines only, in that order |
| OsintReportProperties.EveryDnsLine | detailscheck.py:219-221 | the reference list has one line per record type, line k being the line of type k |
| OsintReportProperties.DnsErrorTextAsWritten | detailscheck.py:221 | as written, a lookup error text of two or more characters is shown changed: its characters joined by ", ", 3n-2 long |
| OsintReportProperties.DnsErrorLineAsWritten | detailscheck.py:116-221 | as written, a record type whose lookup failed with a text of two or more characters gets one DNS line, longer than the intended one by 2n-2, which differs from the intended line |
| OsintReportProperties.DnsLineShowsError | detailscheck.py:221 | the corrected line shows a lookup error text unchanged, shows the answers joined by ", ", and on answers agrees with the line printed |
| ReportFile.CleanEmail | detailscheck.py:246 | the cleaned name contains neither `@` nor `.` |
| ReportFile.CleanEmailIsEncode | detailscheck.py:246 | the two chained `replace` calls amount to one character-wise encoding |
| ReportFile.CleanEmailRoundTrip | detailscheck.py:246 | for an address without `_` the cleaning can be undone |
| ReportFile.CleanEmailCollision | detailscheck.py:246 | `x.y` and `x_dot_y` are different addresses with the same cleaned name |
| ReportFile.Timestamp | detailscheck.py:247 | the stamp is 15 characters: eight digits, `_`, six digits |
| ReportFile.TimestampInjective | detailscheck.py:247 | different valid moments give different stamps |
| ReportFile.ReportPathShape | detailscheck.py:248 | the path is `reports/`, the cleaned name, `_`, the stamp and `.txt` |
| ReportFile.ReportPathDecodes | detailscheck.py:246-248 | equal paths mean equal moments and equal cleaned names |
| ReportFile.NoOverwriteAcrossSeconds | detailscheck.py:247-248 | one target's reports from different seconds never share a path |
| ReportFile.ReportPathCollision | detailscheck.py:246-248 | two different targets can be saved under the same path in the same second |
| Strings.GroupDigitsShape | breachchecker.py:370 | removing the commas gives back the digits; groups are three long after a head of one to three |
| Strings.SplitFirst | breachchecker.py:414 | `split("T")[0]` is a prefix of the text, followed by the separator when shorter |

## Left out

- Network: HTTP requests, `whois.whois` and `dns.resolver.resolve` are not performed. Their results are inputs: a status with a decoded or undecodable body, or a transport failure of one of three kinds. Request URLs, headers and the API key's use in them are not modelled.
- The `dns_lookup` and `domain_whois_lookup` functions are not modelled. Their results (record types with answers, or an error text) are inputs to the domain section.
- Hashing: SHA3-512 is not modelled. The hex digest is a parameter, and only the slice of its first ten characters is.
- Clock: `datetime.now()` is not modelled. The report's "Generated" text is a parameter. The file stamp is built from a moment with a year of four digits; years before 1000 are not modelled.
- Files: `os.makedirs`, the file write and `save_report`'s return values are not modelled. The model stops at the computed path.
- Environment: dependency checks and installs through `subprocess`, screen clearing through `os.system`, `sys.exit`, the interactive menus and `input` (the two `main` functions) are not modelled.
- Presentation: colours, banners, `tabulate` rendering, the spinner and printing are not modelled. Rows and panels are data.
- The placeholder `social_media_search` and `google_search`, and the unused Selenium and BeautifulSoup imports, are not modelled.
- Regular expressions: the Python regex engine is not modelled. `check_email_format` is an explicit character-class predicate with the same language.
- Numbers: JSON numbers are integers. Floats are not modelled, and `int(c/5)` becomes integer division of a positive count.
- `PyJson.ParseInt`: `int()` accepts optional signs and ASCII digits. Surrounding whitespace, underscores and non-ASCII digits are not modelled.
- `str.isdigit` and `str.upper` are ASCII-only.
- Exceptions: exception texts, and the messages printed in `except` clauses, are not modelled. An exception is `Raised`.
- OsintSources payloads: the OSINT sources' JSON is read into typed records (an `error`, optional fields, their already-rendered values). Every inner access is a `.get` with a default, and the typed records hold those values; the `AttributeError` of a stealer, breach or entry that is not a dictionary, and the `TypeError` of `', '.join` over non-strings, are not modelled. Such data crashes the program: for example `{"breaches": ["SiteA", "SiteB"]}` makes `breach.get` raise at detailscheck.py:177, and `analyze_results` is called outside any `try` (detailscheck.py:299). A HIBP 200 reply that is a bare list, which the report shows as "data not available", is outside this typed model.
- Dicts: Python dictionary order is not modelled, and is not needed. Wherever `breachchecker.py` loops over a non-empty dictionary, the loop body fails on its first key, a string, so the code raises and so does the model (`PyJson.Items`).
- PasswordScan.Composition: the `if chars:` guard in `check_password` is always true, since `split` never returns an empty list; the model has no branch for it.
- BreachAnalytics: when an industry entry fails, the header line printed before the error is modelled as an `IndustryHeader` panel. Partial table output is not modelled.
- DomainBreaches.ListDomainBreaches: when a row fails, the model records the printed total followed by the error, as `DomainListed(total, Raised)`.
- `list_breaches` has no `try`, and `main` calls it without one, so its exceptions end the program. They are `BrowseCrashed`. The domain it asks for only selects the request URL (`?domain=`), and request URLs are not modelled.

## Findings

| source | as written | input that shows it | evidently intended | confidence | as-written member | corrected member |
|---|---|---|---|---|---|---|
| detailscheck.py:221 | `', '.join(records)` is applied to each DNS value. When a lookup failed, `dns_lookup` (detailscheck.py:116) stores the error as a string, so its characters are joined | a DNS value `"Error: timeout"`, shown as `E, r, r, o, r, :,  , t, i, m, e, o, u, t` | the error text shown as it is; only answer lists joined | not executed | OsintReportProperties.DnsErrorLineAsWritten | OsintReportProperties.DnsLineShowsError |
