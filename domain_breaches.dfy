/**
 * `list_domain_breaches`: where the breach list is taken from, the first 25 rows of
 * its table with their defaults and number formatting, the note shown when the list
 * is longer, and the three ways the lookup can fail.
 */
module DomainBreaches {
  import opened Optional
  import opened Strings
  import opened Http
  import opened PyJson
  import opened BreachApi

  /** The longest table shown; the rest is summed up in a note. */
  const MaxRows: nat := 25

  /** The three `except` clauses. */
  datatype DomainFailure = RequestTimeout | ConnectionFailure | SystemError

  /** A record count in its comma-grouped form, or the value exactly as received. */
  datatype Records = Grouped(text: string) | AsGiven(value: Json)

  datatype DomainRow = DomainRow(number: nat, name: Json, domain: Json, records: Records)

  datatype DomainOutcome =
    | DomainNoData                                          // `Failed to retrieve domain breach data`
    | DomainClean                                           // `DOMAIN STATUS: CLEAN`
    | DomainListed(total: nat, rows: Py<seq<DomainRow>>)    // the total, then the table, or SYSTEM ERROR
    | DomainFailed(reason: DomainFailure)

  /**
   * The `if`/`elif` chain choosing the list: `metrics.Breaches_Details`, then
   * `domain_breaches`, then the payload itself when it is a list, else `[]`.
   */
  function BreachSource(data: Json): (source: Py<Json>)
    ensures data.JArr? && JStr("metrics") !in data.items && JStr("domain_breaches") !in data.items ==>
              source == Ok(data)
    ensures data.JObj? && "metrics" !in data.fields && "domain_breaches" !in data.fields ==>
              source == Ok(JArr([]))
  {
    match Contains(data, "metrics")
    case Raised => Raised
    case Ok(hasMetrics) =>
      var detailed: Py<bool> :=
        if !hasMetrics then Ok(false)
        else match Subscript(data, "metrics")
          case Raised => Raised
          case Ok(m) => Contains(m, "Breaches_Details");
      match detailed
      case Raised => Raised
      case Ok(true) =>
        (match Subscript(data, "metrics")
         case Raised => Raised
         case Ok(m) => Subscript(m, "Breaches_Details"))
      case Ok(false) =>
        match Contains(data, "domain_breaches")
        case Raised => Raised
        case Ok(true) => Subscript(data, "domain_breaches")
        case Ok(false) => Ok(if data.JArr? then data else JArr([]))
  }

  /** The precedence of the three sources for a dictionary payload. */
  lemma SourcePrecedence(fields: map<string, Json>)
    ensures var source := BreachSource(JObj(fields));
            var detailed := "metrics" in fields && fields["metrics"].JObj? && "Breaches_Details" in fields["metrics"].fields;
            var plain := "metrics" !in fields || (fields["metrics"].JObj? && "Breaches_Details" !in fields["metrics"].fields);
            (detailed ==> source == Ok(fields["metrics"].fields["Breaches_Details"])) &&
            (plain && "domain_breaches" in fields ==> source == Ok(fields["domain_breaches"])) &&
            (plain && "domain_breaches" !in fields ==> source == Ok(JArr([])))
  {
  }

  /**
   * `isinstance(records, (int, str)) and str(records).isdigit()`, then `f"{int(records):,}"`:
   * a count is grouped exactly when it is a non-negative integer or a string of digits;
   * booleans, negative numbers and any other text are shown unchanged.
   */
  function FormatRecords(records: Json): (f: Records)
    ensures f.Grouped? <==> (records.JNum? && records.n >= 0) || (records.JStr? && IsDigitString(records.s))
    ensures f.AsGiven? ==> f.value == records
  {
    match records
    case JNum(n) => if n >= 0 then Grouped(GroupDigits(NatToString(n))) else AsGiven(records)
    case JStr(s) => if IsDigitString(s) then Grouped(GroupDigits(NatToString(DigitsValue(s)))) else AsGiven(records)
    case _ => AsGiven(records)
  }

  /**
   * The grouped text is the number's decimal digits cut into groups of three by commas:
   * removing the commas gives back the digits of the number or of the digit string.
   */
  lemma FormatRecordsShape(records: Json)
    ensures records.JNum? && records.n >= 0 ==>
            Replace(FormatRecords(records).text, ',', "") == NatToString(records.n)
    ensures records.JStr? && IsDigitString(records.s) ==>
            var digits := Replace(FormatRecords(records).text, ',', "");
            IsDigitString(digits) && DigitsValue(digits) == DigitsValue(records.s)
    ensures FormatRecords(records).Grouped? ==>
            var groups := Split(FormatRecords(records).text, ',');
            1 <= |groups[0]| <= 3 && forall k :: 1 <= k < |groups| ==> |groups[k]| == 3
  {
    match records
    case JNum(n) =>
      if n >= 0 {
        GroupDigitsShape(NatToString(n));
      }
    case JStr(s) =>
      if IsDigitString(s) {
        GroupDigitsShape(NatToString(DigitsValue(s)));
        DigitsValueOfNatToString(DigitsValue(s));
      }
    case _ =>
  }

  /** One table row: the `get` chains take a present key's value even when it is falsy. */
  function DomainRowOf(breach: Json, number: nat): (r: Py<DomainRow>)
    ensures r.Ok? <==> breach.JObj?
  {
    if !breach.JObj? then Raised
    else
      var name := Get(breach, "breach", Get(breach, "name", JStr("Unknown")).value).value;
      var domain := Get(breach, "domain", Get(breach, "Domain", JStr("N/A")).value).value;
      var records := Get(breach, "xposed_records",
                       Get(breach, "records", Get(breach, "exposed_records", JStr("N/A")).value).value).value;
      Ok(DomainRow(number, name, domain, FormatRecords(records)))
  }

  /** The first key present decides each cell; only when none is present is the default shown. */
  lemma DomainRowFields(fields: map<string, Json>, number: nat)
    ensures var row := DomainRowOf(JObj(fields), number).value;
            row.number == number &&
            row.name == (if "breach" in fields then fields["breach"]
                         else if "name" in fields then fields["name"] else JStr("Unknown")) &&
            row.domain == (if "domain" in fields then fields["domain"]
                           else if "Domain" in fields then fields["Domain"] else JStr("N/A")) &&
            row.records == FormatRecords(
              if "xposed_records" in fields then fields["xposed_records"]
              else if "records" in fields then fields["records"]
              else if "exposed_records" in fields then fields["exposed_records"] else JStr("N/A"))
  {
  }

  /** An empty name is shown empty, not replaced by the fallback key or by "Unknown". */
  lemma FalsyNameKept(fields: map<string, Json>)
    requires "breach" in fields && fields["breach"] == JStr("")
    requires "name" in fields && fields["name"] == JStr("other")
    ensures DomainRowOf(JObj(fields), 1).value.name == JStr("")
  {
  }

  /** The rows of `enumerate(items, 1)`, or the exception the first non-dictionary raises. */
  function DomainRows(items: seq<Json>): (r: Py<seq<DomainRow>>)
    ensures r.Ok? <==> forall i :: 0 <= i < |items| ==> items[i].JObj?
    ensures r.Ok? ==> |r.value| == |items| &&
                      forall k :: 0 <= k < |items| ==> DomainRowOf(items[k], k + 1) == Ok(r.value[k])
  {
    if |items| == 0 then Ok([])
    else
      var front := items[..|items| - 1];
      assert forall i :: 0 <= i < |front| ==> front[i] == items[i];
      var rows := DomainRows(front);
      var row := DomainRowOf(items[|items| - 1], |items|);
      if rows.Raised? || row.Raised? then Raised
      else Ok(rows.value + [row.value])
  }

  /** The table loop of `list_domain_breaches`. */
  method BuildDomainTable(items: seq<Json>) returns (table: Py<seq<DomainRow>>)
    ensures table == DomainRows(items)
  {
    var rows: seq<DomainRow> := [];
    var i := 0;
    while i < |items|
      invariant 0 <= i <= |items|
      invariant DomainRows(items[..i]) == Ok(rows)
    {
      assert items[..i + 1][..i] == items[..i];
      var breach := items[i];
      if !breach.JObj? {
        return Raised;
      }
      var row := DomainRowOf(breach, i + 1);
      rows := rows + [row.value];
      i := i + 1;
    }
    assert items[..i] == items;
    table := Ok(rows);
  }

  function FailureOf(kind: TransportKind): DomainFailure {
    match kind
    case Timeout => RequestTimeout
    case ConnectionFailed => ConnectionFailure
    case OtherTransport => SystemError
  }

  /**
   * `list_domain_breaches` after the request: no data exactly when `handle` gives no
   * payload or a falsy one; a timeout or connection message only for those transport
   * failures; a listing only for a decoded 200 reply, with a positive total.
   */
  function ListDomainBreaches(r: Response<Json>): (o: DomainOutcome)
    ensures o == DomainNoData <==> Silent(r)
    ensures o.DomainFailed? && o.reason != SystemError ==> r.TransportFailure?
    ensures o.DomainListed? ==> r.Reply? && r.status == 200 && r.body.Decoded? && o.total > 0
  {
    match r
    case TransportFailure(kind, _) => DomainFailed(FailureOf(kind))
    case Reply(_, _) =>
      match Handle(r)
      case Raised => DomainFailed(SystemError)
      case Ok(None) => DomainNoData
      case Ok(Some(data)) =>
        if !Truthy(data) then DomainNoData
        else match BreachSource(data)
          case Raised => DomainFailed(SystemError)
          case Ok(breaches) =>
            if !Truthy(breaches) then DomainClean
            else match Len(breaches)
              case Raised => DomainFailed(SystemError)
              case Ok(total) =>
                DomainListed(total, match Take(breaches, MaxRows)
                                    case Raised => Raised
                                    case Ok(items) => DomainRows(items))
  }

  /** `if len(breaches) > 25`: the note under a table that was built without raising. */
  predicate ShowsNote(o: DomainOutcome) {
    o.DomainListed? && o.rows.Ok? && o.total > MaxRows
  }

  /**
   * A table has at most 25 rows, numbered from 1; it is shown only for a decoded 200
   * reply, and only when the chosen list is non-empty.
   */
  lemma ListedTable(r: Response<Json>)
    requires var o := ListDomainBreaches(r); o.DomainListed? && o.rows.Ok?
    ensures r.Reply? && r.status == 200 && r.body.Decoded?
    ensures var o := ListDomainBreaches(r);
            o.total > 0 && |o.rows.value| <= MaxRows &&
            forall k :: 0 <= k < |o.rows.value| ==> o.rows.value[k].number == k + 1
  {
    var o := ListDomainBreaches(r);
    var data := r.body.value;
    var breaches := BreachSource(data).value;
    var items := Take(breaches, MaxRows).value;
    assert |o.rows.value| == |items|;
    forall k | 0 <= k < |o.rows.value| ensures o.rows.value[k].number == k + 1 {
      assert DomainRowOf(items[k], k + 1) == Ok(o.rows.value[k]);
    }
  }

  /**
   * For a list of dictionaries: the table holds the first min(25, N) of the N breaches,
   * and the note appears exactly when rows were left out.
   */
  lemma ListTruncation(data: Json, items: seq<Json>)
    requires Truthy(data) && BreachSource(data) == Ok(JArr(items)) && |items| > 0
    requires forall i :: 0 <= i < |items| ==> items[i].JObj?
    ensures var o := ListDomainBreaches(Reply(200, Decoded(data)));
            o == DomainListed(|items|, DomainRows(items[..Min(MaxRows, |items|)])) &&
            |o.rows.value| == Min(MaxRows, |items|) &&
            (ShowsNote(o) <==> |o.rows.value| < o.total)
  {
    var front := items[..Min(MaxRows, |items|)];
    assert forall i :: 0 <= i < |front| ==> front[i] == items[i];
  }

  /** A list without a single entry reads as a clean domain. */
  lemma NoSourceIsClean(fields: map<string, Json>)
    requires |fields| > 0 && "metrics" !in fields && "domain_breaches" !in fields
    ensures ListDomainBreaches(Reply(200, Decoded(JObj(fields)))) == DomainClean
  {
  }

  /** Each transport exception reaches its own `except` clause. */
  lemma TransportFailures(reason: string)
    ensures ListDomainBreaches(TransportFailure(Timeout, reason)) == DomainFailed(RequestTimeout)
    ensures ListDomainBreaches(TransportFailure(ConnectionFailed, reason)) == DomainFailed(ConnectionFailure)
    ensures ListDomainBreaches(TransportFailure(OtherTransport, reason)) == DomainFailed(SystemError)
  {
  }
}
