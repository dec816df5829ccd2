/**
 * `AdvancedOSINTTool.analyze_results`: the report that merges the six source
 * results into one list of lines, joined with `"\n"`. The "Report Generated"
 * timestamp (`datetime.now()` in the tool) is the parameter `generated`.
 *
 * ReportLines is the report as a value, section by section; AnalyzeResults
 * builds it the way the tool does, by appending to a list in loops.
 */
module OsintReport {
  import opened Optional
  import opened Strings
  import opened OsintSources

  const Rule80 := Repeat('=', 80)
  const Rule40 := Repeat('-', 40)

  const HudsonTitle := "HUDSON ROCK DATA:"
  const HibpTitle := "\nHAVE I BEEN PWNED DATA:"
  const DehashedTitle := "\nDEHASHED DATA:"
  const DomainTitle := "\nDOMAIN ANALYSIS:"
  const DnsTitle := "\nDNS Records:"
  const RecommendationsTitle := "\nSECURITY RECOMMENDATIONS:"

  const LastRecommendation := "7. Check for additional exposure at: https://haveibeenpwned.com/"

  const Recommendations: seq<string> := [
    RecommendationsTitle,
    Rule40,
    "1. Immediately change all passwords for compromised accounts",
    "2. Enable two-factor authentication on all critical accounts",
    "3. Scan all devices for malware and info-stealers",
    "4. Monitor financial accounts for suspicious activity",
    "5. Use a password manager to generate strong, unique passwords",
    "6. Consider identity theft protection services",
    LastRecommendation,
    ""
  ]

  function Header(email: string, generated: string): seq<string> {
    [Rule80, "COMPREHENSIVE OSINT REPORT", Rule80, "Target: " + email,
     "Report Generated: " + generated, Rule80, ""]
  }

  // ----- Hudson Rock -----

  function StealerBlock(number: nat, s: Stealer): seq<string> {
    ["\nBreach #" + NatToString(number) + ":",
     "  Date: " + s.dateCompromised.GetOr("Unknown"),
     "  IP: " + s.ip.GetOr("Unknown"),
     "  Computer: " + s.computerName.GetOr("Unknown"),
     "  OS: " + s.operatingSystem.GetOr("Unknown"),
     "  Top Logins: " + Join(", ", s.topLogins.GetOr([])),
     "  Top Passwords: " + Join(", ", s.topPasswords.GetOr([]))]
  }

  /** The blocks of `for i, breach in enumerate(stealers, 1)`. */
  function StealerBlocks(stealers: seq<Stealer>): seq<string>
  {
    if |stealers| == 0 then []
    else StealerBlocks(stealers[..|stealers| - 1]) + StealerBlock(|stealers|, stealers[|stealers| - 1])
  }

  /** Seven lines per stealer, the k-th block numbered k + 1. */
  lemma {:induction false} StealerBlocksLayout(stealers: seq<Stealer>)
    ensures |StealerBlocks(stealers)| == 7 * |stealers|
    ensures forall k :: 0 <= k < |stealers| ==>
              StealerBlocks(stealers)[7 * k..7 * k + 7] == StealerBlock(k + 1, stealers[k])
  {
    if |stealers| > 0 {
      var n := |stealers| - 1;
      var init := stealers[..n];
      StealerBlocksLayout(init);
      var blocks := StealerBlocks(stealers);
      assert blocks == StealerBlocks(init) + StealerBlock(n + 1, stealers[n]);
      forall k | 0 <= k < |stealers|
        ensures blocks[7 * k..7 * k + 7] == StealerBlock(k + 1, stealers[k])
      {
        if k < n {
          SliceOfFront(StealerBlocks(init), StealerBlock(n + 1, stealers[n]), 7 * k, 7 * k + 7);
          assert init[k] == stealers[k];
        } else {
          SliceOfBack(StealerBlocks(init), StealerBlock(n + 1, stealers[n]));
        }
      }
    }
  }

  lemma SliceOfFront(p: seq<string>, q: seq<string>, i: nat, j: nat)
    requires i <= j <= |p|
    ensures (p + q)[i..j] == p[i..j]
  {
  }

  lemma SliceOfBack(p: seq<string>, q: seq<string>)
    ensures (p + q)[|p|..|p| + |q|] == q
  {
  }

  function HudsonBody(h: HudsonData): seq<string> {
    if h.error.Some? then ["Error: " + h.error.value]
    else if h.stealers.Some? && |h.stealers.value| > 0 then
      ["Status: COMPROMISED",
       "Total Breaches: " + NatToString(|h.stealers.value|),
       "Corporate Services: " + h.totalCorporateServices.GetOr("0"),
       "User Services: " + h.totalUserServices.GetOr("0")]
      + StealerBlocks(h.stealers.value)
    else ["Status: No compromises found in Hudson Rock database"]
  }

  function HudsonSection(h: HudsonData): seq<string> {
    [HudsonTitle, Rule40] + HudsonBody(h)
  }

  // ----- Have I Been Pwned -----

  function HibpBullet(b: HibpBreach): string {
    "  - " + b.name.GetOr("Unknown") + " (" + b.breachDate.GetOr("Unknown date") + ")"
  }

  function HibpBullets(breaches: seq<HibpBreach>): (lines: seq<string>)
    ensures |lines| == |breaches|
    ensures forall k :: 0 <= k < |breaches| ==> lines[k] == HibpBullet(breaches[k])
  {
    if |breaches| == 0 then []
    else HibpBullets(breaches[..|breaches| - 1]) + [HibpBullet(breaches[|breaches| - 1])]
  }

  function HibpBody(b: HibpData): seq<string> {
    if b.error.Some? then ["Error: " + b.error.value]
    else if b.breaches.Some? then
      if |b.breaches.value| > 0 then
        ["Status: Found in " + NatToString(|b.breaches.value|) + " breaches"] + HibpBullets(b.breaches.value)
      else ["Status: No breaches found in HIBP database"]
    else ["Status: HIBP data not available"]
  }

  function HibpSection(b: HibpData): seq<string> {
    [HibpTitle, Rule40] + HibpBody(b)
  }

  // ----- Dehashed -----

  function DehashedLine(e: DehashedEntry): string {
    "  - " + e.email.GetOr("N/A") + " | " + e.password.GetOr("N/A") + " | " + e.source.GetOr("Unknown source")
  }

  function DehashedLines(entries: seq<DehashedEntry>): (lines: seq<string>)
    ensures |lines| == |entries|
    ensures forall k :: 0 <= k < |entries| ==> lines[k] == DehashedLine(entries[k])
  {
    if |entries| == 0 then []
    else DehashedLines(entries[..|entries| - 1]) + [DehashedLine(entries[|entries| - 1])]
  }

  /** `entries[:5]` */
  function FirstFive(entries: seq<DehashedEntry>): seq<DehashedEntry> {
    entries[..Min(5, |entries|)]
  }

  function DehashedBody(d: DehashedData): seq<string> {
    if d.error.Some? then ["Note: " + d.error.value]
    else if d.entries.Some? && |d.entries.value| > 0 then
      ["Status: Found " + d.total.GetOr("0") + " entries"] + DehashedLines(FirstFive(d.entries.value))
    else ["Status: No data found in Dehashed database"]
  }

  function DehashedSection(d: DehashedData): seq<string> {
    [DehashedTitle, Rule40] + DehashedBody(d)
  }

  // ----- Domain analysis -----

  /** `email.split('@')[-1] if '@' in email else None`: a domain exactly when there is an `@`, and without one. */
  function DomainOf(email: string): (d: Option<string>)
    ensures d.Some? <==> '@' in email
    ensures d.Some? ==> '@' !in d.value
  {
    if '@' in email then
      var parts := Split(email, '@');
      Some(parts[|parts| - 1])
    else None
  }

  /** `if domain:` — a domain is present and not empty. */
  predicate HasDomainSection(email: string) {
    DomainOf(email).Some? && DomainOf(email).value != ""
  }

  function WhoisBody(w: WhoisData): seq<string> {
    if w.error.Some? then ["WHOIS Error: " + w.error.value]
    else ["Registrar: " + w.registrar.GetOr("Unknown"),
          "Creation Date: " + w.creationDate.GetOr("Unknown"),
          "Expiration Date: " + w.expirationDate.GetOr("Unknown")]
  }

  /** `if records:` */
  predicate DnsNonEmpty(v: DnsValue) {
    match v
    case Records(answers) => |answers| > 0
    case LookupError(text) => |text| > 0
  }

  /** The characters of a string, each as a one-character string: what iterating a `str` yields. */
  function Chars(s: string): (r: seq<string>)
    ensures |r| == |s| && forall i :: 0 <= i < |s| ==> r[i] == [s[i]]
  {
    if |s| == 0 then [] else [[s[0]]] + Chars(s[1..])
  }

  /** `', '.join(text)` on a string: its characters, separated by `, `. */
  function JoinChars(text: string): string {
    if |text| <= 1 then text else [text[0]] + ", " + JoinChars(text[1..])
  }

  /** Joining a string is joining the one-character strings its iteration yields. */
  lemma {:induction false} JoinCharsIsJoin(text: string)
    ensures JoinChars(text) == Join(", ", Chars(text))
  {
    if |text| > 1 {
      JoinCharsIsJoin(text[1..]);
      assert Chars(text)[1..] == Chars(text[1..]);
    }
  }

  /** `', '.join(records)` as written: on an error text it joins the text's characters. */
  function DnsTextAsWritten(v: DnsValue): string {
    match v
    case Records(answers) => Join(", ", answers)
    case LookupError(text) => JoinChars(text)
  }

  /** What the DNS line evidently means to show: the answers joined, or the error text itself. */
  function DnsText(v: DnsValue): string {
    match v
    case Records(answers) => Join(", ", answers)
    case LookupError(text) => text
  }

  /** The DNS line as `analyze_results` prints it. */
  function DnsLine(recordType: string, v: DnsValue): string {
    "  " + recordType + ": " + DnsTextAsWritten(v)
  }

  /** The DNS line as evidently intended: a failed lookup shows its error text. */
  function DnsLineIntended(recordType: string, v: DnsValue): string {
    "  " + recordType + ": " + DnsText(v)
  }

  /** One line per record type whose value is not empty, in `dns_data` order. */
  function DnsLines(dns: DnsData): (lines: seq<string>)
    ensures |lines| <= |dns|
  {
    if |dns| == 0 then []
    else
      var last := dns[|dns| - 1];
      DnsLines(dns[..|dns| - 1]) + (if DnsNonEmpty(last.1) then [DnsLine(last.0, last.1)] else [])
  }

  function DomainSection(email: string, w: WhoisData, dns: DnsData): seq<string> {
    if HasDomainSection(email) then
      [DomainTitle, Rule40, "Domain: " + DomainOf(email).value] + WhoisBody(w) + [DnsTitle] + DnsLines(dns)
    else []
  }

  // ----- The whole report -----

  function ReportLines(email: string, generated: string, h: HudsonData, b: HibpData,
                       d: DehashedData, w: WhoisData, dns: DnsData): seq<string>
  {
    Header(email, generated) + HudsonSection(h) + HibpSection(b) + DehashedSection(d)
    + DomainSection(email, w, dns) + Recommendations
  }

  function Report(email: string, generated: string, h: HudsonData, b: HibpData,
                  d: DehashedData, w: WhoisData, dns: DnsData): string
  {
    Join("\n", ReportLines(email, generated, h, b, d, w, dns))
  }

  /** The Hudson Rock part of `analyze_results`: the `stealers` loop appends one block per entry. */
  method BuildHudsonSection(hudson: HudsonData) returns (lines: seq<string>)
    ensures lines == HudsonSection(hudson)
  {
    var body: seq<string>;
    if hudson.error.Some? {
      body := ["Error: " + hudson.error.value];
    } else if hudson.stealers.Some? && |hudson.stealers.value| > 0 {
      var stealers := hudson.stealers.value;
      var blocks: seq<string> := [];
      var i := 0;
      while i < |stealers|
        invariant 0 <= i <= |stealers|
        invariant blocks == StealerBlocks(stealers[..i])
      {
        assert stealers[..i + 1][..i] == stealers[..i];
        blocks := blocks + StealerBlock(i + 1, stealers[i]);
        i := i + 1;
      }
      assert stealers[..i] == stealers;
      body := ["Status: COMPROMISED",
               "Total Breaches: " + NatToString(|stealers|),
               "Corporate Services: " + hudson.totalCorporateServices.GetOr("0"),
               "User Services: " + hudson.totalUserServices.GetOr("0")] + blocks;
    } else {
      body := ["Status: No compromises found in Hudson Rock database"];
    }
    lines := [HudsonTitle, Rule40] + body;
  }

  /** The HIBP part of `analyze_results`: one bullet per breach. */
  method BuildHibpSection(hibp: HibpData) returns (lines: seq<string>)
    ensures lines == HibpSection(hibp)
  {
    var body: seq<string>;
    if hibp.error.Some? {
      body := ["Error: " + hibp.error.value];
    } else if hibp.breaches.Some? {
      var breaches := hibp.breaches.value;
      if |breaches| > 0 {
        var bullets: seq<string> := [];
        var i := 0;
        while i < |breaches|
          invariant 0 <= i <= |breaches|
          invariant bullets == HibpBullets(breaches[..i])
        {
          assert breaches[..i + 1][..i] == breaches[..i];
          bullets := bullets + [HibpBullet(breaches[i])];
          i := i + 1;
        }
        assert breaches[..i] == breaches;
        body := ["Status: Found in " + NatToString(|breaches|) + " breaches"] + bullets;
      } else {
        body := ["Status: No breaches found in HIBP database"];
      }
    } else {
      body := ["Status: HIBP data not available"];
    }
    lines := [HibpTitle, Rule40] + body;
  }

  /** The Dehashed part of `analyze_results`: one line for each of the first five entries. */
  method BuildDehashedSection(dehashed: DehashedData) returns (lines: seq<string>)
    ensures lines == DehashedSection(dehashed)
  {
    var body: seq<string>;
    if dehashed.error.Some? {
      body := ["Note: " + dehashed.error.value];
    } else if dehashed.entries.Some? && |dehashed.entries.value| > 0 {
      var shown := dehashed.entries.value[..Min(5, |dehashed.entries.value|)];
      var shownLines: seq<string> := [];
      var i := 0;
      while i < |shown|
        invariant 0 <= i <= |shown|
        invariant shownLines == DehashedLines(shown[..i])
      {
        assert shown[..i + 1][..i] == shown[..i];
        shownLines := shownLines + [DehashedLine(shown[i])];
        i := i + 1;
      }
      assert shown[..i] == shown == FirstFive(dehashed.entries.value);
      body := ["Status: Found " + dehashed.total.GetOr("0") + " entries"] + shownLines;
    } else {
      body := ["Status: No data found in Dehashed database"];
    }
    lines := [DehashedTitle, Rule40] + body;
  }

  /** The domain part of `analyze_results`: WHOIS lines and one line per non-empty DNS value. */
  method BuildDomainSection(email: string, whois: WhoisData, dns: DnsData) returns (lines: seq<string>)
    ensures lines == DomainSection(email, whois, dns)
  {
    lines := [];
    var domain: Option<string> := None;
    if '@' in email {
      var parts := Split(email, '@');
      domain := Some(parts[|parts| - 1]);
    }
    if domain.Some? && domain.value != "" {
      var whoisLines: seq<string>;
      if whois.error.Some? {
        whoisLines := ["WHOIS Error: " + whois.error.value];
      } else {
        whoisLines := ["Registrar: " + whois.registrar.GetOr("Unknown"),
                       "Creation Date: " + whois.creationDate.GetOr("Unknown"),
                       "Expiration Date: " + whois.expirationDate.GetOr("Unknown")];
      }
      assert whoisLines == WhoisBody(whois);
      var dnsLines: seq<string> := [];
      var k := 0;
      while k < |dns|
        invariant 0 <= k <= |dns|
        invariant dnsLines == DnsLines(dns[..k])
      {
        assert dns[..k + 1][..k] == dns[..k];
        var (recordType, records) := dns[k];
        if DnsNonEmpty(records) {
          var items := if records.Records? then records.answers else Chars(records.text);
          if records.LookupError? {
            JoinCharsIsJoin(records.text);
          }
          dnsLines := dnsLines + ["  " + recordType + ": " + Join(", ", items)];
        }
        k := k + 1;
      }
      assert dns[..k] == dns;
      lines := [DomainTitle, Rule40, "Domain: " + domain.value] + whoisLines + [DnsTitle] + dnsLines;
    }
  }

  /** `analyze_results`: header, the five parts in order, the recommendations, joined with `"\n"`. */
  method AnalyzeResults(email: string, generated: string, hudson: HudsonData, hibp: HibpData,
                        dehashed: DehashedData, whois: WhoisData, dns: DnsData)
    returns (report: string)
    ensures report == Report(email, generated, hudson, hibp, dehashed, whois, dns)
  {
    var lines := [Rule80, "COMPREHENSIVE OSINT REPORT", Rule80, "Target: " + email,
                  "Report Generated: " + generated, Rule80, ""];
    var section := BuildHudsonSection(hudson);
    lines := lines + section;
    section := BuildHibpSection(hibp);
    lines := lines + section;
    section := BuildDehashedSection(dehashed);
    lines := lines + section;
    section := BuildDomainSection(email, whois, dns);
    lines := lines + section;
    lines := lines + Recommendations;
    report := Join("\n", lines);
  }
}
