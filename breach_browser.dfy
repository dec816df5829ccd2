/**
 * `list_breaches`: the breach browser. It shows at most 20 rows of identifier, domain
 * and date, where the date is the text before the first `T` of the timestamp. Its
 * fallbacks are `or` chains, so an empty or zero value gives way to the next key, and
 * nothing here catches an exception: one ends the program.
 */
module BreachBrowser {
  import opened Optional
  import opened Strings
  import opened Http
  import opened PyJson
  import opened BreachApi

  /** The longest list shown. */
  const MaxRows: nat := 20

  datatype BrowseRow = BrowseRow(id: Json, domain: Json, date: string)

  datatype BrowseOutcome =
    | BrowseNoData                     // `if not data: return`
    | BrowseEmpty                      // `No breaches.`
    | BrowseListed(rows: seq<BrowseRow>)  // `First N breaches:` and the table
    | BrowseCrashed                    // an uncaught exception

  /** One row: `or` fallbacks for the cells, and `dt.split("T")[0]`, which needs a string. */
  function BrowseRowOf(b: Json): (r: Py<BrowseRow>)
    ensures r.Ok? ==> b.JObj?
  {
    if !b.JObj? then Raised
    else
      var id := Or(Lookup(b, "breachID").value, Lookup(b, "Breach ID").value);
      var domain := Or(Lookup(b, "domain").value, Lookup(b, "Domain").value);
      var dt := Or(Lookup(b, "breachedDate").value, Get(b, "Breached Date", JStr("")).value);
      if dt.JStr? then Ok(BrowseRow(id, domain, Split(dt.s, 'T')[0])) else Raised
  }

  /** The value an `or` fallback shows for a dictionary: the first truthy key's value, else the last. */
  function Fallback(fields: map<string, Json>, first: string, second: string, default: Json): Json {
    if first in fields && Truthy(fields[first]) then fields[first]
    else if second in fields then fields[second] else default
  }

  /**
   * Each cell is the first truthy value among its keys; the date is a prefix of the
   * timestamp with no `T`, and the timestamp goes on with a `T` where the date stops.
   */
  lemma BrowseRowFields(fields: map<string, Json>)
    ensures var r := BrowseRowOf(JObj(fields));
            var dt := Fallback(fields, "breachedDate", "Breached Date", JStr(""));
            (r.Ok? <==> dt.JStr?) &&
            (r.Ok? ==>
              r.value.id == Fallback(fields, "breachID", "Breach ID", JNull) &&
              r.value.domain == Fallback(fields, "domain", "Domain", JNull) &&
              var date := r.value.date;
              'T' !in date && |date| <= |dt.s| && date == dt.s[..|date|] &&
              (|date| < |dt.s| ==> dt.s[|date|] == 'T'))
  {
    var dt := Fallback(fields, "breachedDate", "Breached Date", JStr(""));
    if dt.JStr? {
      SplitFirst(dt.s, 'T');
    }
  }

  /** An ISO timestamp `date + "T" + time` is shown as `date`. */
  lemma DateBeforeT(date: string, time: string)
    requires 'T' !in date
    ensures BrowseRowOf(JObj(map["breachedDate" := JStr(date + ['T'] + time)])).value.date == date
  {
    SplitAt(date, time, 'T');
    SplitAbsent(date, 'T');
  }

  /** Unlike the `get` defaults of the domain table, `or` passes over a falsy value. */
  lemma FalsyIdSkipped(other: Json)
    ensures BrowseRowOf(JObj(map["breachID" := JNum(0), "Breach ID" := other])).value.id == other
  {
  }

  /** The rows for `br[:20]`, or the exception the first bad entry raises. */
  function BrowseRows(items: seq<Json>): (r: Py<seq<BrowseRow>>)
    ensures r.Ok? <==> forall i :: 0 <= i < |items| ==> BrowseRowOf(items[i]).Ok?
    ensures r.Ok? ==> |r.value| == |items| &&
                      forall k :: 0 <= k < |items| ==> BrowseRowOf(items[k]) == Ok(r.value[k])
  {
    if |items| == 0 then Ok([])
    else
      var front := items[..|items| - 1];
      assert forall i :: 0 <= i < |front| ==> front[i] == items[i];
      match BrowseRows(front)
      case Raised => Raised
      case Ok(rows) =>
        match BrowseRowOf(items[|items| - 1])
        case Raised => Raised
        case Ok(row) => Ok(rows + [row])
  }

  /** The table loop of `list_breaches`. */
  method BuildBrowseTable(items: seq<Json>) returns (table: Py<seq<BrowseRow>>)
    ensures table == BrowseRows(items)
  {
    var tbl: seq<BrowseRow> := [];
    var i := 0;
    while i < |items|
      invariant 0 <= i <= |items|
      invariant BrowseRows(items[..i]) == Ok(tbl)
    {
      assert items[..i + 1][..i] == items[..i];
      var row := BrowseRowOf(items[i]);
      if row.Raised? {
        return Raised;
      }
      tbl := tbl + [row.value];
      i := i + 1;
    }
    assert items[..i] == items;
    table := Ok(tbl);
  }

  /** `data.get("exposedBreaches") or data.get("Exposed Breaches") or []` */
  function BreachList(data: Json): (br: Py<Json>)
    ensures br.Ok? <==> data.JObj?
    ensures br.Ok? && Truthy(br.value) ==>
              ("exposedBreaches" in data.fields && Truthy(data.fields["exposedBreaches"])
               && br.value == data.fields["exposedBreaches"]) ||
              (("exposedBreaches" !in data.fields || !Truthy(data.fields["exposedBreaches"]))
               && "Exposed Breaches" in data.fields && br.value == data.fields["Exposed Breaches"])
  {
    match Lookup(data, "exposedBreaches")
    case Raised => Raised
    case Ok(first) => Ok(Or(Or(first, Lookup(data, "Exposed Breaches").value), JArr([])))
  }

  /**
   * `list_breaches` after the request: nothing is listed exactly when `handle` gives no
   * payload or a falsy one; a listing holds between 1 and 20 rows.
   */
  function ListBreaches(r: Response<Json>): (o: BrowseOutcome)
    ensures o == BrowseNoData <==> Silent(r)
    ensures o.BrowseListed? ==> 1 <= |o.rows| <= MaxRows
  {
    match Handle(r)
    case Raised => BrowseCrashed
    case Ok(None) => BrowseNoData
    case Ok(Some(data)) =>
      if !Truthy(data) then BrowseNoData
      else match BreachList(data)
        case Raised => BrowseCrashed
        case Ok(br) =>
          if !Truthy(br) then BrowseEmpty
          else match Take(br, MaxRows)
            case Raised => BrowseCrashed
            case Ok(items) =>
              match BrowseRows(items)
              case Raised => BrowseCrashed
              case Ok(rows) => BrowseListed(rows)
  }

  /** A list is shown only for a decoded 200 reply, and holds between 1 and 20 rows. */
  lemma ListedBound(r: Response<Json>)
    requires ListBreaches(r).BrowseListed?
    ensures r.Reply? && r.status == 200 && r.body.Decoded?
    ensures 1 <= |ListBreaches(r).rows| <= MaxRows
  {
  }

  /** A list of dictionaries under `exposedBreaches` is shown as its first min(20, N) rows. */
  lemma ListedPrefix(fields: map<string, Json>, items: seq<Json>)
    requires "exposedBreaches" in fields && fields["exposedBreaches"] == JArr(items) && |items| > 0
    requires forall i :: 0 <= i < |items| ==> BrowseRowOf(items[i]).Ok?
    ensures var o := ListBreaches(Reply(200, Decoded(JObj(fields))));
            o.BrowseListed? && |o.rows| == Min(MaxRows, |items|) &&
            forall k :: 0 <= k < |o.rows| ==> Ok(o.rows[k]) == BrowseRowOf(items[k])
  {
    var front := items[..Min(MaxRows, |items|)];
    assert forall i :: 0 <= i < |front| ==> front[i] == items[i];
  }

  /** Both keys missing or falsy: nothing to list. */
  lemma NoListIsEmpty(fields: map<string, Json>)
    requires |fields| > 0
    requires "exposedBreaches" !in fields || !Truthy(fields["exposedBreaches"])
    requires "Exposed Breaches" !in fields || !Truthy(fields["Exposed Breaches"])
    ensures ListBreaches(Reply(200, Decoded(JObj(fields)))) == BrowseEmpty
  {
  }

  /** The request itself failing is not caught here. */
  lemma TransportFailureCrashes(kind: TransportKind, reason: string)
    ensures ListBreaches(TransportFailure(kind, reason)) == BrowseCrashed
  {
  }
}
