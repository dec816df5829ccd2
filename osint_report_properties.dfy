/**
 * What the report of `analyze_results` guarantees whatever the source results:
 * its fixed outline, the precedence of an `error` key, the counts and caps of
 * each section, and when the domain part appears.
 */
module OsintReportProperties {
  import opened Optional
  import opened Strings
  import opened Http
  import opened OsintSources
  import opened OsintReport

  // ----- The outline: the section titles, in order -----

  /** The six section titles. */
  const TitleSet: set<string> :=
    {HudsonTitle, HibpTitle, DehashedTitle, DomainTitle, DnsTitle, RecommendationsTitle}

  /** The lines that belong to `titles`, in order. */
  function Among(lines: seq<string>, titles: set<string>): seq<string> {
    if |lines| == 0 then []
    else (if lines[0] in titles then [lines[0]] else []) + Among(lines[1..], titles)
  }

  /** The section titles among the lines, in order. */
  function Titles(lines: seq<string>): seq<string> {
    Among(lines, TitleSet)
  }

  lemma {:induction false} AmongAppend(a: seq<string>, b: seq<string>, titles: set<string>)
    ensures Among(a + b, titles) == Among(a, titles) + Among(b, titles)
  {
    if |a| == 0 {
      assert a + b == b;
    } else {
      assert (a + b)[0] == a[0];
      assert (a + b)[1..] == a[1..] + b;
      AmongAppend(a[1..], b, titles);
    }
  }

  lemma {:induction false} AmongNone(lines: seq<string>, titles: set<string>)
    requires forall i :: 0 <= i < |lines| ==> lines[i] !in titles
    ensures Among(lines, titles) == []
  {
    if |lines| > 0 {
      AmongNone(lines[1..], titles);
    }
  }

  lemma AmongSingle(t: string, titles: set<string>)
    requires t in titles
    ensures Among([t], titles) == [t]
  {
    assert [t][1..] == [];
  }

  lemma AmongData(x: seq<string>, a: seq<string>, titles: set<string>)
    requires Among(a, titles) == []
    ensures Among(x + a, titles) == Among(x, titles)
  {
    AmongAppend(x, a, titles);
  }

  lemma AmongTitle(x: seq<string>, t: string, titles: set<string>)
    requires t in titles
    ensures Among(x + [t], titles) == Among(x, titles) + [t]
  {
    AmongSingle(t, titles);
    AmongAppend(x, [t], titles);
  }

  /** A title, a run of other lines. */
  lemma OneTitle(title: string, body: seq<string>, titles: set<string>)
    requires title in titles && Among(body, titles) == []
    ensures Among([title] + body, titles) == [title]
  {
    AmongSingle(title, titles);
    AmongData([title], body, titles);
  }

  /** A title, two runs of other lines, a title and a run of other lines. */
  lemma TwoTitles(t1: string, a: seq<string>, b: seq<string>, t2: string, c: seq<string>, titles: set<string>)
    requires t1 in titles && t2 in titles
    requires Among(a, titles) == [] && Among(b, titles) == [] && Among(c, titles) == []
    ensures Among([t1] + a + b + [t2] + c, titles) == [t1] + [t2]
  {
    var s1 := [t1] + a;
    var s2 := s1 + b;
    var s3 := s2 + [t2];
    AmongSingle(t1, titles);
    AmongData([t1], a, titles);
    AmongData(s1, b, titles);
    AmongTitle(s2, t2, titles);
    AmongData(s3, c, titles);
  }

  lemma Pair(x: string, y: string)
    ensures [x] + [y] == [x, y]
  {
  }

  lemma AmongOfParts(p0: seq<string>, p1: seq<string>, p2: seq<string>, p3: seq<string>,
                     p4: seq<string>, p5: seq<string>, titles: set<string>)
    ensures Among(p0 + p1 + p2 + p3 + p4 + p5, titles)
         == Among(p0, titles) + Among(p1, titles) + Among(p2, titles) + Among(p3, titles)
            + Among(p4, titles) + Among(p5, titles)
  {
    AmongAppend(p0, p1, titles);
    AmongAppend(p0 + p1, p2, titles);
    AmongAppend(p0 + p1 + p2, p3, titles);
    AmongAppend(p0 + p1 + p2 + p3, p4, titles);
    AmongAppend(p0 + p1 + p2 + p3 + p4, p5, titles);
  }

  /**
   * A data line: empty, longer than any title, not starting like a title, or one of
   * the `"\nBreach #"` lines. Every title has at most 26 characters and starts with `H`
   * or with a newline followed by `H`, `D` or `S`.
   */
  predicate DataLine(line: string) {
    |line| == 0 || |line| > 26 || (line[0] != 'H' && line[0] != '\n')
    || (|line| > 1 && line[0] == '\n' && line[1] == 'B')
  }

  lemma DataLineIsNoTitle(line: string)
    requires DataLine(line)
    ensures line !in TitleSet
  {
    assert HudsonTitle[0] == 'H' && HibpTitle[1] == 'H' && DehashedTitle[1] == 'D';
    assert DomainTitle[1] == 'D' && DnsTitle[1] == 'D' && RecommendationsTitle[1] == 'S';
    assert |HudsonTitle| <= 26 && |HibpTitle| <= 26 && |DehashedTitle| <= 26;
    assert |DomainTitle| <= 26 && |DnsTitle| <= 26 && |RecommendationsTitle| <= 26;
  }

  lemma NoTitles(lines: seq<string>)
    requires forall i :: 0 <= i < |lines| ==> DataLine(lines[i])
    ensures Titles(lines) == []
  {
    forall i | 0 <= i < |lines| ensures lines[i] !in TitleSet {
      DataLineIsNoTitle(lines[i]);
    }
    AmongNone(lines, TitleSet);
  }

  lemma StealerBlockLines(number: nat, s: Stealer)
    ensures forall i :: 0 <= i < 7 ==> DataLine(StealerBlock(number, s)[i])
  {
    var b := StealerBlock(number, s);
    assert b[0][0] == '\n' && b[0][1] == 'B';
    assert b[1][0] == ' ' && b[2][0] == ' ' && b[3][0] == ' ';
    assert b[4][0] == ' ' && b[5][0] == ' ' && b[6][0] == ' ';
  }

  lemma {:induction false} StealerBlocksLines(stealers: seq<Stealer>)
    ensures forall i :: 0 <= i < |StealerBlocks(stealers)| ==> DataLine(StealerBlocks(stealers)[i])
  {
    if |stealers| > 0 {
      var n := |stealers| - 1;
      StealerBlocksLines(stealers[..n]);
      StealerBlockLines(n + 1, stealers[n]);
    }
  }

  lemma HudsonBodyLines(h: HudsonData)
    ensures forall i :: 0 <= i < |HudsonBody(h)| ==> DataLine(HudsonBody(h)[i])
  {
    if h.error.None? && h.stealers.Some? && |h.stealers.value| > 0 {
      StealerBlocksLines(h.stealers.value);
      var head := ["Status: COMPROMISED",
                   "Total Breaches: " + NatToString(|h.stealers.value|),
                   "Corporate Services: " + h.totalCorporateServices.GetOr("0"),
                   "User Services: " + h.totalUserServices.GetOr("0")];
      assert head[0][0] == 'S' && head[1][0] == 'T' && head[2][0] == 'C' && head[3][0] == 'U';
      assert HudsonBody(h) == head + StealerBlocks(h.stealers.value);
    } else if h.error.Some? {
      assert HudsonBody(h)[0][0] == 'E';
    } else {
      assert |HudsonBody(h)[0]| > 26;
    }
  }

  lemma HibpBodyLines(b: HibpData)
    ensures forall i :: 0 <= i < |HibpBody(b)| ==> DataLine(HibpBody(b)[i])
  {
    if b.error.Some? {
      assert HibpBody(b)[0][0] == 'E';
    } else if b.breaches.Some? && |b.breaches.value| > 0 {
      var bs := b.breaches.value;
      forall i | 0 <= i < |bs| ensures DataLine(HibpBullets(bs)[i]) {
        assert HibpBullets(bs)[i][0] == ' ';
      }
      assert HibpBody(b) == ["Status: Found in " + NatToString(|bs|) + " breaches"] + HibpBullets(bs);
    } else {
      assert |HibpBody(b)[0]| > 26;
    }
  }

  lemma DehashedBodyLines(d: DehashedData)
    ensures forall i :: 0 <= i < |DehashedBody(d)| ==> DataLine(DehashedBody(d)[i])
  {
    if d.error.Some? {
      assert DehashedBody(d)[0][0] == 'N';
    } else if d.entries.Some? && |d.entries.value| > 0 {
      var es := FirstFive(d.entries.value);
      forall i | 0 <= i < |es| ensures DataLine(DehashedLines(es)[i]) {
        assert DehashedLines(es)[i][0] == ' ';
      }
      assert DehashedBody(d) == ["Status: Found " + d.total.GetOr("0") + " entries"] + DehashedLines(es);
    } else {
      assert |DehashedBody(d)[0]| > 26;
    }
  }

  lemma {:induction false} DnsLinesLines(dns: DnsData)
    ensures forall i :: 0 <= i < |DnsLines(dns)| ==> DataLine(DnsLines(dns)[i])
  {
    if |dns| > 0 {
      var last := dns[|dns| - 1];
      DnsLinesLines(dns[..|dns| - 1]);
      assert DnsLine(last.0, last.1)[0] == ' ';
    }
  }

  lemma WhoisBodyLines(w: WhoisData)
    ensures forall i :: 0 <= i < |WhoisBody(w)| ==> DataLine(WhoisBody(w)[i])
  {
    if w.error.Some? {
      assert WhoisBody(w)[0][0] == 'W';
    } else {
      var b := WhoisBody(w);
      assert b[0][0] == 'R' && b[1][0] == 'C' && b[2][0] == 'E';
    }
  }

  lemma RuleLines()
    ensures DataLine(Rule40) && DataLine(Rule80)
  {
    assert Rule40[0] == '-' && Rule80[0] == '=';
  }

  lemma DomainSectionTitles(email: string, w: WhoisData, dns: DnsData)
    ensures Titles(DomainSection(email, w, dns)) == if HasDomainSection(email) then [DomainTitle, DnsTitle] else []
  {
    if HasDomainSection(email) {
      var line := "Domain: " + DomainOf(email).value;
      var start := [Rule40, line];
      assert line[0] == 'D';
      DomainStartTitles(start);
      WhoisBodyTitles(w);
      DnsLinesTitles(dns);
      assert [DomainTitle, Rule40, line] == [DomainTitle] + start;
      assert DomainSection(email, w, dns) == [DomainTitle, Rule40, line] + WhoisBody(w) + [DnsTitle] + DnsLines(dns);
      TwoTitles(DomainTitle, start, WhoisBody(w), DnsTitle, DnsLines(dns), TitleSet);
      Pair(DomainTitle, DnsTitle);
    }
  }

  lemma DomainStartTitles(start: seq<string>)
    requires |start| == 2 && start[0] == Rule40 && |start[1]| > 0 && start[1][0] == 'D'
    ensures Titles(start) == []
  {
    RuleLines();
    NoTitles(start);
  }

  lemma WhoisBodyTitles(w: WhoisData)
    ensures Titles(WhoisBody(w)) == []
  {
    WhoisBodyLines(w);
    NoTitles(WhoisBody(w));
  }

  lemma DnsLinesTitles(dns: DnsData)
    ensures Titles(DnsLines(dns)) == []
  {
    DnsLinesLines(dns);
    NoTitles(DnsLines(dns));
  }

  /** A section: its title, the 40-dash rule and body lines that are no title. */
  lemma SectionTitles(title: string, body: seq<string>)
    requires title in TitleSet
    requires forall i :: 0 <= i < |body| ==> DataLine(body[i])
    ensures Titles([title] + ([Rule40] + body)) == [title]
  {
    RuleLines();
    NoTitles([Rule40] + body);
    OneTitle(title, [Rule40] + body, TitleSet);
  }

  lemma HudsonSectionTitles(h: HudsonData)
    ensures Titles(HudsonSection(h)) == [HudsonTitle]
  {
    HudsonBodyLines(h);
    SectionTitles(HudsonTitle, HudsonBody(h));
    assert HudsonSection(h) == [HudsonTitle] + ([Rule40] + HudsonBody(h));
  }

  lemma HibpSectionTitles(b: HibpData)
    ensures Titles(HibpSection(b)) == [HibpTitle]
  {
    HibpBodyLines(b);
    SectionTitles(HibpTitle, HibpBody(b));
    assert HibpSection(b) == [HibpTitle] + ([Rule40] + HibpBody(b));
  }

  lemma DehashedSectionTitles(d: DehashedData)
    ensures Titles(DehashedSection(d)) == [DehashedTitle]
  {
    DehashedBodyLines(d);
    SectionTitles(DehashedTitle, DehashedBody(d));
    assert DehashedSection(d) == [DehashedTitle] + ([Rule40] + DehashedBody(d));
  }

  lemma HeaderTitles(email: string, generated: string)
    ensures Titles(Header(email, generated)) == []
  {
    var header := Header(email, generated);
    RuleLines();
    assert header[1][0] == 'C' && header[3][0] == 'T' && header[4][0] == 'R';
    NoTitles(header);
  }

  lemma RecommendationsTitles()
    ensures Titles(Recommendations) == [RecommendationsTitle]
  {
    var advice := Recommendations[2..];
    assert forall i :: 0 <= i < |advice| ==> DataLine(advice[i]) by {
      assert |advice[0]| > 26 && |advice[1]| > 26 && |advice[2]| > 26 && |advice[3]| > 26;
      assert |advice[4]| > 26 && |advice[5]| > 26 && |advice[6]| > 26 && advice[7] == "";
    }
    SectionTitles(RecommendationsTitle, advice);
    assert Recommendations == [RecommendationsTitle] + ([Rule40] + advice);
  }

  /**
   * Whatever the six results, the report's sections come in one fixed order:
   * Hudson Rock, HIBP, Dehashed, then the domain analysis and its DNS records
   * exactly when the email yields a domain, then the recommendations; each title
   * occurs once.
   */
  lemma ReportOutline(email: string, generated: string, h: HudsonData, b: HibpData,
                      d: DehashedData, w: WhoisData, dns: DnsData)
    ensures Titles(ReportLines(email, generated, h, b, d, w, dns))
         == [HudsonTitle, HibpTitle, DehashedTitle]
            + (if HasDomainSection(email) then [DomainTitle, DnsTitle] else [])
            + [RecommendationsTitle]
  {
    var p0, p1, p2 := Header(email, generated), HudsonSection(h), HibpSection(b);
    var p3, p4, p5 := DehashedSection(d), DomainSection(email, w, dns), Recommendations;
    assert ReportLines(email, generated, h, b, d, w, dns) == p0 + p1 + p2 + p3 + p4 + p5;
    HeaderTitles(email, generated);
    HudsonSectionTitles(h);
    HibpSectionTitles(b);
    DehashedSectionTitles(d);
    DomainSectionTitles(email, w, dns);
    RecommendationsTitles();
    AmongOfParts(p0, p1, p2, p3, p4, p5, TitleSet);
    Regroup6(HudsonTitle, HibpTitle, DehashedTitle, Titles(p4), RecommendationsTitle);
  }

  lemma Regroup6(a: string, b: string, c: string, x: seq<string>, r: string)
    ensures [] + [a] + [b] + [c] + x + [r] == [a, b, c] + x + [r]
  {
  }

  // ----- The text: how it opens and how it ends -----

  lemma JoinCons(sep: string, x: string, rest: seq<string>)
    requires |rest| > 0
    ensures Join(sep, [x] + rest) == x + sep + Join(sep, rest)
  {
    assert ([x] + rest)[1..] == rest;
  }

  lemma JoinFront(sep: string, a: string, b: string, c: string, d: string, rest: seq<string>)
    requires |rest| > 0
    ensures Join(sep, [a, b, c, d] + rest) == (a + sep + b + sep + c + sep + d + sep) + Join(sep, rest)
  {
    var l3 := [d] + rest;
    var l2 := [c] + l3;
    var l1 := [b] + l2;
    var tail := Join(sep, rest);
    assert [a, b, c, d] + rest == [a] + l1;
    JoinCons(sep, d, rest);
    JoinCons(sep, c, l3);
    JoinCons(sep, b, l2);
    JoinCons(sep, a, l1);
    assert Join(sep, [a] + l1) == a + sep + (b + sep + (c + sep + (d + sep + tail)));
    Regroup(sep, a, b, c, d, tail);
  }

  lemma Regroup(sep: string, a: string, b: string, c: string, d: string, tail: string)
    ensures a + sep + (b + sep + (c + sep + (d + sep + tail))) == (a + sep + b + sep + c + sep + d + sep) + tail
  {
  }

  lemma JoinBack(sep: string, front: seq<string>, x: string)
    requires |front| > 0
    ensures Join(sep, front + [x, ""]) == Join(sep, front) + (sep + x + sep)
  {
    var head := Join(sep, front);
    JoinAppend(sep, front, [x, ""]);
    JoinPair(sep, x);
    Regroup3(head, sep, x);
  }

  lemma JoinPair(sep: string, x: string)
    ensures Join(sep, [x, ""]) == x + sep
  {
    assert [x, ""][1..] == [""];
    assert x + sep + "" == x + sep;
  }

  lemma Regroup3(head: string, sep: string, x: string)
    ensures head + sep + (x + sep) == head + (sep + x + sep)
  {
  }

  lemma PrefixSuffix(text: string, opening: string, closing: string, middle: string, front: string)
    requires text == opening + middle && text == front + closing
    ensures |opening| <= |text| && text[..|opening|] == opening
    ensures |closing| <= |text| && text[|text| - |closing|..] == closing
  {
  }

  /** A joined list that starts with four given lines and ends with `x` and an empty line. */
  lemma JoinFraming(sep: string, lines: seq<string>, a: string, b: string, c: string, d: string, x: string)
    requires |lines| > 6
    requires lines == [a, b, c, d] + lines[4..]
    requires lines == lines[..|lines| - 2] + [x, ""]
    ensures var text := Join(sep, lines);
            var opening := a + sep + b + sep + c + sep + d + sep;
            var closing := sep + x + sep;
            |opening| <= |text| && text[..|opening|] == opening &&
            |closing| <= |text| && text[|text| - |closing|..] == closing
  {
    JoinFront(sep, a, b, c, d, lines[4..]);
    JoinBack(sep, lines[..|lines| - 2], x);
    PrefixSuffix(Join(sep, lines), a + sep + b + sep + c + sep + d + sep, sep + x + sep,
                 Join(sep, lines[4..]), Join(sep, lines[..|lines| - 2]));
  }

  lemma KeepPrefix(p: seq<string>, q: seq<string>, n: nat)
    requires n <= |p|
    ensures (p + q)[..n] == p[..n]
  {
  }

  lemma CutAt(l: seq<string>, n: nat)
    requires n <= |l|
    ensures l == l[..n] + l[n..]
  {
  }

  lemma EndOfAppend(p: seq<string>, q: seq<string>, x: string)
    requires |q| >= 2 && q[|q| - 2] == x && q[|q| - 1] == ""
    ensures p + q == (p + q)[..|p + q| - 2] + [x, ""]
  {
  }

  lemma ReportLinesStart(email: string, generated: string, h: HudsonData, b: HibpData,
                         d: DehashedData, w: WhoisData, dns: DnsData)
    ensures var lines := ReportLines(email, generated, h, b, d, w, dns);
            |lines| > 6 &&
            lines == [Rule80, "COMPREHENSIVE OSINT REPORT", Rule80, "Target: " + email] + lines[4..]
  {
    var a0 := Header(email, generated);
    var a1 := a0 + HudsonSection(h);
    var a2 := a1 + HibpSection(b);
    var a3 := a2 + DehashedSection(d);
    var a4 := a3 + DomainSection(email, w, dns);
    assert a0[..4] == [Rule80, "COMPREHENSIVE OSINT REPORT", Rule80, "Target: " + email];
    KeepPrefix(a0, HudsonSection(h), 4);
    KeepPrefix(a1, HibpSection(b), 4);
    KeepPrefix(a2, DehashedSection(d), 4);
    KeepPrefix(a3, DomainSection(email, w, dns), 4);
    KeepPrefix(a4, Recommendations, 4);
    CutAt(a4 + Recommendations, 4);
  }

  lemma ReportLinesEnd(email: string, generated: string, h: HudsonData, b: HibpData,
                       d: DehashedData, w: WhoisData, dns: DnsData)
    ensures var lines := ReportLines(email, generated, h, b, d, w, dns);
            lines == lines[..|lines| - 2] + [LastRecommendation, ""]
  {
    var front := Header(email, generated) + HudsonSection(h) + HibpSection(b) + DehashedSection(d)
                 + DomainSection(email, w, dns);
    EndOfAppend(front, Recommendations, LastRecommendation);
  }

  /**
   * The report text opens with the banner, the title and the target, and ends
   * with the seventh recommendation followed by a newline (the trailing empty line).
   */
  lemma ReportText(email: string, generated: string, h: HudsonData, b: HibpData,
                   d: DehashedData, w: WhoisData, dns: DnsData)
    ensures var text := Report(email, generated, h, b, d, w, dns);
            var opening := Rule80 + "\n" + "COMPREHENSIVE OSINT REPORT" + "\n" + Rule80 + "\n" + ("Target: " + email) + "\n";
            var closing := "\n" + LastRecommendation + "\n";
            |opening| <= |text| && text[..|opening|] == opening &&
            |closing| <= |text| && text[|text| - |closing|..] == closing
  {
    ReportLinesStart(email, generated, h, b, d, w, dns);
    ReportLinesEnd(email, generated, h, b, d, w, dns);
    JoinFraming("\n", ReportLines(email, generated, h, b, d, w, dns),
                Rule80, "COMPREHENSIVE OSINT REPORT", Rule80, "Target: " + email, LastRecommendation);
  }

  // ----- Error precedence and the counts of each section -----

  /** An `error` key wins: the rest of that source's payload has no effect on the report. */
  lemma ErrorPrecedence(email: string, generated: string, h: HudsonData, b: HibpData,
                        d: DehashedData, w: WhoisData, dns: DnsData)
    ensures h.error.Some? ==>
              HudsonBody(h) == ["Error: " + h.error.value] &&
              ReportLines(email, generated, h, b, d, w, dns)
              == ReportLines(email, generated, HudsonError(h.error.value), b, d, w, dns)
    ensures b.error.Some? ==>
              HibpBody(b) == ["Error: " + b.error.value] &&
              ReportLines(email, generated, h, b, d, w, dns)
              == ReportLines(email, generated, h, HibpError(b.error.value), d, w, dns)
    ensures d.error.Some? ==>
              DehashedBody(d) == ["Note: " + d.error.value] &&
              ReportLines(email, generated, h, b, d, w, dns)
              == ReportLines(email, generated, h, b, DehashedError(d.error.value), w, dns)
  {
  }

  /**
   * Hudson Rock: n stealers give `Total Breaches: n` and n blocks numbered
   * `Breach #1` .. `Breach #n`; no or an empty list gives the "No compromises" line.
   */
  lemma HudsonCounts(h: HudsonData)
    requires h.error.None?
    ensures h.stealers.Some? && |h.stealers.value| > 0 ==>
              var n := |h.stealers.value|;
              var body := HudsonBody(h);
              |body| == 4 + 7 * n &&
              body[0] == "Status: COMPROMISED" &&
              body[1] == "Total Breaches: " + NatToString(n) &&
              forall k :: 0 <= k < n ==>
                body[4 + 7 * k] == "\nBreach #" + NatToString(k + 1) + ":" &&
                body[4 + 7 * k..4 + 7 * k + 7] == StealerBlock(k + 1, h.stealers.value[k])
  {
    if h.stealers.Some? && |h.stealers.value| > 0 {
      var s := h.stealers.value;
      StealerBlocksLayout(s);
      var blocks := StealerBlocks(s);
      var head := HudsonBody(h)[..4];
      assert HudsonBody(h) == head + blocks;
      forall k | 0 <= k < |s|
        ensures HudsonBody(h)[4 + 7 * k] == "\nBreach #" + NatToString(k + 1) + ":"
        ensures HudsonBody(h)[4 + 7 * k..4 + 7 * k + 7] == StealerBlock(k + 1, s[k])
      {
        ShiftedSlice(head, blocks, 7 * k, 7);
        assert StealerBlock(k + 1, s[k])[0] == "\nBreach #" + NatToString(k + 1) + ":";
      }
    }
  }

  lemma HudsonNothingFound(h: HudsonData)
    requires h.error.None? && (h.stealers.None? || h.stealers.value == [])
    ensures HudsonBody(h) == ["Status: No compromises found in Hudson Rock database"]
  {
  }

  lemma ShiftedSlice(head: seq<string>, tail: seq<string>, i: nat, n: nat)
    requires i + n <= |tail|
    ensures (head + tail)[|head| + i..|head| + i + n] == tail[i..i + n]
    ensures n > 0 ==> (head + tail)[|head| + i] == tail[i..i + n][0]
  {
  }

  /**
   * Have I Been Pwned: n breaches give `Found in n breaches` and n bullets in order;
   * an empty list gives "No breaches found", a missing key "not available".
   */
  lemma HibpCounts(b: HibpData)
    requires b.error.None?
    ensures b.breaches.None? ==> HibpBody(b) == ["Status: HIBP data not available"]
    ensures b.breaches == Some([]) ==> HibpBody(b) == ["Status: No breaches found in HIBP database"]
    ensures b.breaches.Some? && |b.breaches.value| > 0 ==>
              var n := |b.breaches.value|;
              |HibpBody(b)| == n + 1 &&
              HibpBody(b)[0] == "Status: Found in " + NatToString(n) + " breaches" &&
              forall k :: 0 <= k < n ==> HibpBody(b)[k + 1] == HibpBullet(b.breaches.value[k])
  {
  }

  /**
   * Dehashed: at most five entry lines, and the count shown is `total`, not the
   * number of entries received.
   */
  lemma DehashedCounts(d: DehashedData)
    requires d.error.None? && d.entries.Some? && |d.entries.value| > 0
    ensures var es := d.entries.value;
            var body := DehashedBody(d);
            |body| == 1 + Min(5, |es|) && |body| <= 6 &&
            body[0] == "Status: Found " + d.total.GetOr("0") + " entries" &&
            forall k :: 0 <= k < Min(5, |es|) ==> body[k + 1] == DehashedLine(es[k])
  {
  }

  /** The Dehashed count line does not change with the entries listed. */
  lemma DehashedCountFromTotal(d: DehashedData, entries: seq<DehashedEntry>)
    requires d.error.None? && d.entries.Some? && |d.entries.value| > 0 && |entries| > 0
    ensures DehashedBody(d)[0] == DehashedBody(d.(entries := Some(entries)))[0]
  {
  }

  // ----- The domain part -----

  /** The domain is the text after the last `@`: it ends the email, right after an `@`. */
  lemma DomainOfShape(email: string)
    ensures DomainOf(email).Some? ==> exists front :: email == front + "@" + DomainOf(email).value
  {
    if '@' in email {
      var parts := Split(email, '@');
      SplitLength(email, '@');
      CountAbsent(email, '@');
      SplitJoin(email, '@');
      var n := |parts|;
      assert parts == parts[..n - 1] + [parts[n - 1]];
      JoinAppend("@", parts[..n - 1], [parts[n - 1]]);
      assert email == Join("@", parts[..n - 1]) + "@" + parts[n - 1];
    }
  }

  /** DOMAIN ANALYSIS appears exactly when the email has an `@` with text after the last one. */
  lemma DomainSectionPresence(email: string, w: WhoisData, dns: DnsData)
    ensures DomainSection(email, w, dns) != [] <==> '@' in email && DomainOf(email).value != ""
    ensures !HasDomainSection(email) ==> DomainSection(email, w, dns) == []
    ensures HasDomainSection(email) ==>
              DomainSection(email, w, dns)[..3] == [DomainTitle, Rule40, "Domain: " + DomainOf(email).value]
  {
    DomainOfShape(email);
  }

  /** The record types whose value is not empty, in `dns_data` order. */
  function Answered(dns: DnsData): (a: DnsData)
    ensures |a| <= |dns|
    ensures forall k :: 0 <= k < |a| ==> DnsNonEmpty(a[k].1)
  {
    if |dns| == 0 then []
    else
      var last := dns[|dns| - 1];
      Answered(dns[..|dns| - 1]) + (if DnsNonEmpty(last.1) then [last] else [])
  }

  /** DNS: the lines are those of the answered types, in order; types whose value is empty are left out. */
  lemma {:induction false} DnsLinesAnswered(dns: DnsData)
    ensures DnsLines(dns) == EveryDnsLine(Answered(dns))
  {
    if |dns| > 0 {
      var init, last := dns[..|dns| - 1], dns[|dns| - 1];
      DnsLinesAnswered(init);
      var lines := EveryDnsLine(Answered(init));
      if DnsNonEmpty(last.1) {
        assert DnsLines(dns) == lines + [DnsLine(last.0, last.1)];
        assert Answered(dns) == Answered(init) + [last];
        EveryDnsLineAppend(Answered(init), last);
      } else {
        assert DnsLines(dns) == lines;
        assert Answered(dns) == Answered(init);
      }
    }
  }

  /**
   * DNS, the two extreme lookups: no line when every value is empty, and every type's
   * line, in order, when none is.
   */
  lemma DnsLinesOmitEmpty(dns: DnsData)
    ensures DnsLines(dns) == EveryDnsLine(Answered(dns))
    ensures (forall k :: 0 <= k < |dns| ==> !DnsNonEmpty(dns[k].1)) ==> DnsLines(dns) == []
    ensures (forall k :: 0 <= k < |dns| ==> DnsNonEmpty(dns[k].1)) ==> DnsLines(dns) == EveryDnsLine(dns)
  {
    DnsLinesAnswered(dns);
    if forall k :: 0 <= k < |dns| ==> DnsNonEmpty(dns[k].1) {
      AnsweredEvery(dns);
    }
    if forall k :: 0 <= k < |dns| ==> !DnsNonEmpty(dns[k].1) {
      AnsweredNone(dns);
    }
  }

  /** One more type adds its line at the end. */
  lemma EveryDnsLineAppend(a: DnsData, x: (string, DnsValue))
    ensures EveryDnsLine(a + [x]) == EveryDnsLine(a) + [DnsLine(x.0, x.1)]
  {
    assert (a + [x])[..|a|] == a;
  }

  /** With no empty value every type is answered. */
  lemma {:induction false} AnsweredEvery(dns: DnsData)
    requires forall k :: 0 <= k < |dns| ==> DnsNonEmpty(dns[k].1)
    ensures Answered(dns) == dns
  {
    if |dns| > 0 {
      var init, last := dns[..|dns| - 1], dns[|dns| - 1];
      assert forall k :: 0 <= k < |init| ==> init[k] == dns[k];
      AnsweredEvery(init);
      assert DnsNonEmpty(last.1);
      assert Answered(dns) == init + [last];
      assert init + [last] == dns;
    }
  }

  /** With only empty values no type is answered. */
  lemma {:induction false} AnsweredNone(dns: DnsData)
    requires forall k :: 0 <= k < |dns| ==> !DnsNonEmpty(dns[k].1)
    ensures Answered(dns) == []
  {
    if |dns| > 0 {
      var init := dns[..|dns| - 1];
      assert forall k :: 0 <= k < |init| ==> init[k] == dns[k];
      AnsweredNone(init);
      assert !DnsNonEmpty(dns[|dns| - 1].1);
    }
  }

  /** A usual lookup: A and MX answered, AAAA with no answer; the AAAA line is left out. */
  lemma DnsMixedScenario(a: string, mx: string)
    ensures DnsLines([("A", Records([a])), ("AAAA", Records([])), ("MX", Records([mx]))])
         == [DnsLine("A", Records([a])), DnsLine("MX", Records([mx]))]
  {
    var dns := [("A", Records([a])), ("AAAA", Records([])), ("MX", Records([mx]))];
    var two, one := dns[..2], dns[..1];
    assert two[..1] == one && one[..0] == [];
    assert DnsNonEmpty(dns[0].1) && !DnsNonEmpty(dns[1].1) && DnsNonEmpty(dns[2].1);
    assert DnsLines(one) == [DnsLine("A", Records([a]))];
    assert DnsLines(two) == DnsLines(one);
    assert DnsLines(dns) == DnsLines(two) + [DnsLine("MX", Records([mx]))];
  }

  /** One line per record type, whether or not its value is empty. */
  function EveryDnsLine(dns: DnsData): (lines: seq<string>)
    ensures |lines| == |dns|
    ensures forall k :: 0 <= k < |dns| ==> lines[k] == DnsLine(dns[k].0, dns[k].1)
  {
    if |dns| == 0 then [] else
      assert forall k :: 0 <= k < |dns| - 1 ==> dns[..|dns| - 1][k] == dns[k];
      EveryDnsLine(dns[..|dns| - 1]) + [DnsLine(dns[|dns| - 1].0, dns[|dns| - 1].1)]
  }

  // ----- The DNS line for a failed lookup (see README, Findings) -----

  lemma {:induction false} JoinCharsLength(text: string)
    requires |text| > 0
    ensures |JoinChars(text)| == 3 * |text| - 2
  {
    if |text| > 1 {
      JoinCharsLength(text[1..]);
    }
  }

  /**
   * As written, `', '.join` of an error text joins the text's characters: every error
   * text of two or more characters is shown changed, three times as long less two.
   */
  lemma DnsErrorTextAsWritten(text: string)
    requires |text| >= 2
    ensures |DnsTextAsWritten(LookupError(text))| == 3 * |text| - 2
    ensures DnsTextAsWritten(LookupError(text)) != text
    ensures DnsTextAsWritten(LookupError("Error: timeout")) != "Error: timeout"
  {
    JoinCharsLength(text);
    JoinCharsLength("Error: timeout");
  }

  /**
   * As written, the report shows a failed lookup with its error text's characters joined,
   * a line that differs from the intended one whenever the text has two or more characters.
   */
  lemma DnsErrorLineAsWritten(recordType: string, text: string)
    requires |text| >= 2
    ensures DnsLines([(recordType, LookupError(text))]) == [DnsLine(recordType, LookupError(text))]
    ensures |DnsLine(recordType, LookupError(text))| == 4 + |recordType| + 3 * |text| - 2
    ensures DnsLine(recordType, LookupError(text)) != DnsLineIntended(recordType, LookupError(text))
  {
    assert [(recordType, LookupError(text))][..0] == [];
    DnsErrorTextAsWritten(text);
  }

  /**
   * Corrected: a failed lookup shows its error text as it is; on answers the corrected
   * line is the line printed, answers joined with `, `.
   */
  lemma DnsLineShowsError(recordType: string, text: string, answers: seq<string>)
    ensures DnsLineIntended(recordType, LookupError(text)) == "  " + recordType + ": " + text
    ensures DnsLineIntended(recordType, Records(answers)) == "  " + recordType + ": " + Join(", ", answers)
    ensures DnsLineIntended(recordType, Records(answers)) == DnsLine(recordType, Records(answers))
  {
  }

  // ----- Scenarios -----

  /** HIBP answering 404 reads as "no breaches", not as an error. */
  lemma HibpNotFoundScenario(body: Body<HibpData>)
    ensures HibpBody(HaveIBeenPwnedSearch(Reply(404, body))) == ["Status: No breaches found in HIBP database"]
  {
  }

  /** Two breach records give a section listing exactly those two entries. */
  lemma HibpTwoBreachesScenario(a: HibpBreach, b: HibpBreach)
    ensures HibpBody(HibpData(None, Some([a, b])))
         == ["Status: Found in " + "2" + " breaches", HibpBullet(a), HibpBullet(b)]
  {
    assert DigitChar(2) == '2';
    assert NatToString(2) == "2";
    var breaches := [a, b];
    assert HibpBullets(breaches) == [HibpBullet(a), HibpBullet(b)];
    assert HibpBody(HibpData(None, Some(breaches)))
        == ["Status: Found in " + NatToString(|breaches|) + " breaches"] + HibpBullets(breaches);
  }
}
