/**
 * `breach_analytics`: the risk panel, the industry breakdown and the password
 * strength profile read from the payload's `BreachMetrics`. The panels are printed
 * one after the other, so an exception leaves the panels before it on screen.
 */
module BreachAnalytics {
  import opened Optional
  import opened Strings
  import opened Http
  import opened PyJson
  import opened BreachApi

  datatype RiskColor = Green | Yellow | Red

  /** `Low` is green, `Medium` yellow, anything else (the default `Unknown` too) red. */
  function RiskColorOf(riskLabel: Json): (c: RiskColor)
    ensures c == Green <==> riskLabel == JStr("Low")
    ensures c == Yellow <==> riskLabel == JStr("Medium")
    ensures c == Red <==> riskLabel != JStr("Low") && riskLabel != JStr("Medium")
  {
    if riskLabel == JStr("Low") then Green
    else if riskLabel == JStr("Medium") then Yellow
    else Red
  }

  /** An industry row: `x.upper()`, the count as received, and the bar length. */
  datatype IndustryRow = IndustryRow(industry: string, count: Json, bar: nat)

  datatype Panel =
    | RiskPanel(riskLabel: Json, score: Json, color: RiskColor)
    | IndustryHeader
    | IndustryTable(rows: seq<IndustryRow>)
    | StrengthHeader
    | StrengthTable(plainText: Json, easyToCrack: Json, strongHash: Json, unknown: Json)

  datatype AnalyticsOutcome =
    | AnalyticsNoData
    | AnalyticsShown(panels: seq<Panel>, failed: bool)

  /** The value `c > 0` compares: an integer or a boolean; anything else raises. */
  function CountValue(c: Json): Py<int> {
    match c
    case JNum(n) => Ok(n)
    case JBool(b) => Ok(if b then 1 else 0)
    case _ => Raised
  }

  /** `min(int(c/5), 20)` for a positive count. */
  function Bar(n: int): (bar: nat)
    requires n > 0
    ensures bar <= 20 && bar <= n / 5
    ensures bar == 20 || bar == n / 5
  {
    Min(n / 5, 20)
  }

  /** One `for x, c in ind` step: a row when c > 0, nothing otherwise. */
  function IndustryEntry(e: Json): Py<Option<IndustryRow>> {
    if !(e.JArr? && |e.items| == 2) then Raised
    else
      var x, c := e.items[0], e.items[1];
      match CountValue(c)
      case Raised => Raised
      case Ok(n) =>
        if n <= 0 then Ok(None)
        else if x.JStr? then Ok(Some(IndustryRow(Upper(x.s), c, Bar(n))))
        else Raised
  }

  /** The `tbl` the loop builds, or the exception that ends it: rows exactly when no entry raises. */
  function IndustryRows(entries: seq<Json>): (r: Py<seq<IndustryRow>>)
    ensures r.Ok? <==> forall i :: 0 <= i < |entries| ==> IndustryEntry(entries[i]).Ok?
  {
    if |entries| == 0 then Ok([])
    else
      assert forall i :: 0 <= i < |entries| - 1 ==> entries[..|entries| - 1][i] == entries[i];
      match IndustryRows(entries[..|entries| - 1])
      case Raised => Raised
      case Ok(rows) =>
        match IndustryEntry(entries[|entries| - 1])
        case Raised => Raised
        case Ok(None) => Ok(rows)
        case Ok(Some(row)) => Ok(rows + [row])
  }

  lemma {:induction false} IndustryRowsRaisedStays(entries: seq<Json>, i: nat)
    requires i <= |entries| && IndustryRows(entries[..i]) == Raised
    ensures IndustryRows(entries) == Raised
    decreases |entries| - i
  {
    if i < |entries| {
      assert entries[..i + 1][..i] == entries[..i];
      IndustryRowsRaisedStays(entries, i + 1);
    } else {
      assert entries[..i] == entries;
    }
  }

  /** The industry loop: rows for positive counts, stopped by the first entry that raises. */
  method BuildIndustryRows(entries: seq<Json>) returns (result: Py<seq<IndustryRow>>)
    ensures result == IndustryRows(entries)
  {
    var tbl: seq<IndustryRow> := [];
    var i := 0;
    while i < |entries|
      invariant 0 <= i <= |entries|
      invariant IndustryRows(entries[..i]) == Ok(tbl)
    {
      assert entries[..i + 1][..i] == entries[..i];
      var e := entries[i];
      if !(e.JArr? && |e.items| == 2) {
        assert IndustryRows(entries[..i + 1]) == Raised;
        IndustryRowsRaisedStays(entries, i + 1);
        return Raised;
      }
      var x, c := e.items[0], e.items[1];
      var n: int;
      if c.JNum? {
        n := c.n;
      } else if c.JBool? {
        n := if c.b then 1 else 0;
      } else {
        assert IndustryRows(entries[..i + 1]) == Raised;
        IndustryRowsRaisedStays(entries, i + 1);
        return Raised;
      }
      if n > 0 {
        if !x.JStr? {
          assert IndustryRows(entries[..i + 1]) == Raised;
          IndustryRowsRaisedStays(entries, i + 1);
          return Raised;
        }
        tbl := tbl + [IndustryRow(Upper(x.s), c, Min(n / 5, 20))];
      }
      i := i + 1;
    }
    assert entries[..i] == entries;
    result := Ok(tbl);
  }

  /** An industry entry as the service sends it: a name and a count. */
  function PairEntry(name: string, count: int): Json {
    JArr([JStr(name), JNum(count)])
  }

  /** The reference reading of well-formed entries: a row for each positive count, in order. */
  function PairRows(pairs: seq<(string, int)>): seq<IndustryRow> {
    if |pairs| == 0 then []
    else
      var p := pairs[|pairs| - 1];
      PairRows(pairs[..|pairs| - 1])
      + (if p.1 > 0 then [IndustryRow(Upper(p.0), JNum(p.1), Min(p.1 / 5, 20))] else [])
  }

  /** On name/count pairs the loop never raises and keeps exactly the positive counts. */
  lemma {:induction false} IndustryRowsOfPairs(pairs: seq<(string, int)>, entries: seq<Json>)
    requires |entries| == |pairs|
    requires forall k :: 0 <= k < |pairs| ==> entries[k] == PairEntry(pairs[k].0, pairs[k].1)
    ensures IndustryRows(entries) == Ok(PairRows(pairs))
  {
    if |pairs| > 0 {
      var n := |pairs| - 1;
      assert forall k :: 0 <= k < n ==> entries[..n][k] == PairEntry(pairs[..n][k].0, pairs[..n][k].1);
      IndustryRowsOfPairs(pairs[..n], entries[..n]);
      var p := pairs[n];
      var rows := PairRows(pairs[..n]);
      assert entries[n] == PairEntry(p.0, p.1);
      if p.1 > 0 {
        var row := IndustryRow(Upper(p.0), JNum(p.1), Min(p.1 / 5, 20));
        assert PairRows(pairs) == rows + [row];
        assert IndustryEntry(entries[n]) == Ok(Some(row));
      } else {
        assert PairRows(pairs) == rows;
        assert IndustryEntry(entries[n]) == Ok(None);
      }
    }
  }

  /** Every row shown has a positive count and a bar of at most 20. */
  lemma {:induction false} IndustryRowsBounded(entries: seq<Json>)
    requires IndustryRows(entries).Ok?
    ensures var rows := IndustryRows(entries).value;
            |rows| <= |entries| &&
            forall k :: 0 <= k < |rows| ==>
              CountValue(rows[k].count).Ok? && CountValue(rows[k].count).value > 0 &&
              rows[k].bar == Min(CountValue(rows[k].count).value / 5, 20) && rows[k].bar <= 20
  {
    if |entries| > 0 {
      IndustryRowsBounded(entries[..|entries| - 1]);
    }
  }

  /** The strength panel: `ps.get` of the four counts, defaulting to 0. */
  function StrengthPanels(ps: Json): (panels: Py<Panel>) {
    match ps
    case JObj(f) =>
      Ok(StrengthTable(
        if "PlainText" in f then f["PlainText"] else JNum(0),
        if "EasyToCrack" in f then f["EasyToCrack"] else JNum(0),
        if "StrongHash" in f then f["StrongHash"] else JNum(0),
        if "Unknown" in f then f["Unknown"] else JNum(0)))
    case _ => Raised
  }

  /**
   * Everything after the risk panel: the industry part, then the password profile. They
   * only add panels after those already shown, even when they fail, and add no risk panel.
   */
  function AfterRisk(m: Json, shown: seq<Panel>): (o: AnalyticsOutcome)
    requires m.JObj?
    ensures o.AnalyticsShown? && |o.panels| >= |shown| && o.panels[..|shown|] == shown
    ensures forall k :: |shown| <= k < |o.panels| ==> !o.panels[k].RiskPanel?
  {
    match Get(m, "industry", JArr([JArr([])]))
    case Raised => AnalyticsShown(shown, true)
    case Ok(industry) =>
      match First(industry)
      case Raised => AnalyticsShown(shown, true)
      case Ok(ind) =>
        var industryPart: Py<seq<Panel>> :=
          if !Truthy(ind) then Ok([])
          else match Items(ind)
            case Raised => Raised
            case Ok(entries) =>
              match IndustryRows(entries)
              case Raised => Raised
              case Ok(rows) => Ok([IndustryHeader] + (if |rows| > 0 then [IndustryTable(rows)] else []));
        match industryPart
        case Raised => AnalyticsShown(shown + [IndustryHeader], true)
        case Ok(part) =>
          var before := shown + part;
          match Get(m, "passwords_strength", JArr([JObj(map[])]))
          case Raised => AnalyticsShown(before, true)
          case Ok(strength) =>
            match First(strength)
            case Raised => AnalyticsShown(before, true)
            case Ok(ps) =>
              match StrengthPanels(ps)
              case Raised => AnalyticsShown(before + [StrengthHeader], true)
              case Ok(table) => AnalyticsShown(before + [StrengthHeader, table], false)
  }

  /** The panels shown for `m = data.get("BreachMetrics", {})`: the risk panel, in its label's colour, comes first. */
  function MetricsPanels(m: Json): (o: AnalyticsOutcome)
    ensures o.AnalyticsShown?
    ensures |o.panels| > 0 ==> o.panels[0].RiskPanel? && o.panels[0].color == RiskColorOf(o.panels[0].riskLabel)
    ensures forall k :: 1 <= k < |o.panels| ==> !o.panels[k].RiskPanel?
  {
    match Get(m, "risk", JArr([JObj(map[])]))
    case Raised => AnalyticsShown([], true)
    case Ok(risk) =>
      match First(risk)
      case Raised => AnalyticsShown([], true)
      case Ok(r) =>
        match r
        case JObj(f) =>
          var riskLabel := if "risk_label" in f then f["risk_label"] else JStr("Unknown");
          var score := if "risk_score" in f then f["risk_score"] else JNum(0);
          AfterRisk(m, [RiskPanel(riskLabel, score, RiskColorOf(riskLabel))])
        case _ => AnalyticsShown([], true)
  }

  /** `breach_analytics` after the request: nothing is shown exactly when `handle` gives no payload or a falsy one. */
  function BreachAnalyticsOf(r: Response<Json>): (o: AnalyticsOutcome)
    ensures o == AnalyticsNoData <==> Silent(r)
    ensures r.TransportFailure? ==> o == AnalyticsShown([], true)
  {
    match Handle(r)
    case Raised => AnalyticsShown([], true)
    case Ok(None) => AnalyticsNoData
    case Ok(Some(data)) =>
      if !Truthy(data) then AnalyticsNoData
      else match Get(data, "BreachMetrics", JObj(map[]))
        case Raised => AnalyticsShown([], true)
        case Ok(m) => MetricsPanels(m)
  }

  /** Whatever is shown starts with the risk panel, coloured by its label, and shows no other risk panel. */
  lemma RiskPanelFirst(r: Response<Json>)
    requires BreachAnalyticsOf(r).AnalyticsShown? && |BreachAnalyticsOf(r).panels| > 0
    ensures var p := BreachAnalyticsOf(r).panels[0];
            p.RiskPanel? && p.color == RiskColorOf(p.riskLabel)
    ensures forall k :: 1 <= k < |BreachAnalyticsOf(r).panels| ==> !BreachAnalyticsOf(r).panels[k].RiskPanel?
  {
  }

  /** An empty `BreachMetrics`: an `Unknown` risk in red with score 0, no industry part, zero counts. */
  lemma EmptyMetrics()
    ensures MetricsPanels(JObj(map[]))
         == AnalyticsShown([RiskPanel(JStr("Unknown"), JNum(0), Red), StrengthHeader,
                            StrengthTable(JNum(0), JNum(0), JNum(0), JNum(0))], false)
  {
    var none: map<string, Json> := map[];
    assert "risk_label" !in none && "risk_score" !in none;
    assert AfterRisk(JObj(none), [RiskPanel(JStr("Unknown"), JNum(0), Red)])
        == AnalyticsShown([RiskPanel(JStr("Unknown"), JNum(0), Red)] + [StrengthHeader,
                            StrengthTable(JNum(0), JNum(0), JNum(0), JNum(0))], false);
  }
}
