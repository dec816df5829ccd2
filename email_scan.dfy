/**
 * `check_email`: the breach table for one address. The payload's `breaches` value is
 * shown row by row, numbered from 1; when its first item is itself a list, that inner
 * list is shown instead.
 */
module EmailScan {
  import opened Optional
  import opened Http
  import opened PyJson
  import opened BreachApi

  /** One table row: its number and the breach value as received. */
  datatype EmailRow = EmailRow(number: nat, breach: Json)

  datatype EmailOutcome =
    | EmailFailed                            // an exception, reported as `ERROR`
    | EmailNoData                            // `if not data: return`
    | EmailClean                             // `SECURITY STATUS: CLEAN`
    | EmailCompromised(rows: seq<EmailRow>)  // the alert and its table

  /** The rows of `enumerate(b)`, numbered from 1. */
  function Numbered(items: seq<Json>): (rows: seq<EmailRow>)
    ensures |rows| == |items|
    ensures forall k :: 0 <= k < |items| ==> rows[k] == EmailRow(k + 1, items[k])
  {
    if |items| == 0 then []
    else Numbered(items[..|items| - 1]) + [EmailRow(|items|, items[|items| - 1])]
  }

  /**
   * `b = breaches[0] if isinstance(breaches[0], list) else breaches`, then what `for x in b`
   * visits: for a non-empty list, the first item's items when it is a list, else the list's.
   */
  function Flatten(breaches: Json): (b: Py<seq<Json>>)
    ensures breaches.JArr? && |breaches.items| == 0 ==> b.Raised?
    ensures breaches.JArr? && |breaches.items| > 0 && breaches.items[0].JArr? ==> b == Ok(breaches.items[0].items)
    ensures breaches.JArr? && |breaches.items| > 0 && !breaches.items[0].JArr? ==> b == Ok(breaches.items)
  {
    match First(breaches)
    case Raised => Raised
    case Ok(head) => if head.JArr? then Ok(head.items) else Items(breaches)
  }

  /**
   * `check_email` after the request: nothing is shown exactly when `handle` gives no
   * payload or a falsy one; a table only for a decoded 200 dictionary.
   */
  function CheckEmail(r: Response<Json>): (o: EmailOutcome)
    ensures o == EmailNoData <==> Silent(r)
    ensures r.TransportFailure? ==> o == EmailFailed
    ensures o.EmailCompromised? ==> r.Reply? && r.status == 200 && r.body.Decoded? && r.body.value.JObj?
  {
    match Handle(r)
    case Raised => EmailFailed
    case Ok(None) => EmailNoData
    case Ok(Some(data)) =>
      if !Truthy(data) then EmailNoData
      else match Get(data, "breaches", JArr([]))
        case Raised => EmailFailed
        case Ok(breaches) =>
          if !Truthy(breaches) then EmailClean
          else match Flatten(breaches)
            case Raised => EmailFailed
            case Ok(b) => EmailCompromised(Numbered(b))
  }

  /** The table loop of `check_email`. */
  method BuildEmailTable(b: seq<Json>) returns (table: seq<EmailRow>)
    ensures table == Numbered(b)
  {
    table := [];
    var i := 0;
    while i < |b|
      invariant 0 <= i <= |b|
      invariant table == Numbered(b[..i])
    {
      assert b[..i + 1][..i] == b[..i];
      table := table + [EmailRow(i + 1, b[i])];
      i := i + 1;
    }
    assert b[..i] == b;
  }

  /** A 200 reply whose `breaches` is a non-empty list: the inner list when the first item is one. */
  lemma FlattenedList(fields: map<string, Json>, items: seq<Json>)
    requires |fields| > 0 && "breaches" in fields && fields["breaches"] == JArr(items) && |items| > 0
    ensures var o := CheckEmail(Reply(200, Decoded(JObj(fields))));
            o.EmailCompromised? &&
            (items[0].JArr? ==> o.rows == Numbered(items[0].items)) &&
            (!items[0].JArr? ==> o.rows == Numbered(items))
  {
    var data := JObj(fields);
    assert Handle(Reply(200, Decoded(data))) == Ok(Some(data));
    assert Get(data, "breaches", JArr([])) == Ok(JArr(items));
  }

  /** A table is shown only for a decoded 200 reply; its rows are numbered 1 to n in order. */
  lemma CompromisedShape(r: Response<Json>)
    requires CheckEmail(r).EmailCompromised?
    ensures r.Reply? && r.status == 200 && r.body.Decoded?
    ensures var rows := CheckEmail(r).rows;
            forall k :: 0 <= k < |rows| ==> rows[k].number == k + 1
  {
  }

  /** A missing, `null` or empty `breaches` value reads as clean. */
  lemma CleanWithoutBreaches(fields: map<string, Json>)
    requires |fields| > 0
    requires "breaches" !in fields || !Truthy(fields["breaches"])
    ensures CheckEmail(Reply(200, Decoded(JObj(fields)))) == EmailClean
  {
  }

  /** A payload that is not a dictionary (a list, a string, a number) makes `data.get` raise. */
  lemma NonDictionaryFails(data: Json)
    requires Truthy(data) && !data.JObj?
    ensures CheckEmail(Reply(200, Decoded(data))) == EmailFailed
  {
  }
}
