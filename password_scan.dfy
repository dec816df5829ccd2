/**
 * `check_password`: the anonymous lookup of a password by a prefix of its SHA3-512
 * digest, the exposure count and the composition table parsed from a string such
 * as `"D:3;A:5;S:0;L:8"`. The digest itself is a parameter (hashing is not modelled).
 */
module PasswordScan {
  import opened Optional
  import opened Strings
  import opened Http
  import opened PyJson
  import opened BreachApi

  /** `hexdigest()[:10]`: the first ten characters of the digest, all of a shorter one. */
  function HashPrefix(digest: string): (h: string)
    ensures |h| == Min(10, |digest|) && h == digest[..|h|]
  {
    digest[..Min(10, |digest|)]
  }

  /** The components `name_map` knows, and any other code shown as it is. */
  datatype Component = Digits | Letters | Special | Length | Other(code: string)

  function ComponentOf(k: string): Component {
    if k == "D" then Digits
    else if k == "A" then Letters
    else if k == "S" then Special
    else if k == "L" then Length
    else Other(k)
  }

  function CodeOf(c: Component): string {
    match c
    case Digits => "D"
    case Letters => "A"
    case Special => "S"
    case Length => "L"
    case Other(k) => k
  }

  /** Every code, known or not, can be read back from its row. */
  lemma CodeOfComponentOf(k: string)
    ensures CodeOf(ComponentOf(k)) == k
    ensures ComponentOf(k).Other? <==> k != "D" && k != "A" && k != "S" && k != "L"
  {
  }

  datatype CompositionRow = CompositionRow(component: Component, value: string)

  /**
   * One segment: no row without `:`, a row for `k:v`, and `k, v = x.split(":")` raises
   * exactly when the segment holds two or more `:`. A row gives back its segment.
   */
  function SegmentRow(x: string): (r: Py<Option<CompositionRow>>)
    ensures r.Raised? <==> Count(x, ':') >= 2
    ensures r == Ok(None) <==> Count(x, ':') == 0
    ensures r.Ok? && r.value.Some? ==> CodeOf(r.value.value.component) + [':'] + r.value.value.value == x
  {
    SplitLength(x, ':');
    CountAbsent(x, ':');
    if ':' !in x then Ok(None)
    else
      var parts := Split(x, ':');
      if |parts| == 2 then
        SplitJoin(x, ':');
        CodeOfComponentOf(parts[0]);
        assert Join([':'], parts) == parts[0] + [':'] + parts[1] by {
          assert parts[1..] == [parts[1]];
        }
        Ok(Some(CompositionRow(ComponentOf(parts[0]), parts[1])))
      else Raised
  }

  /** The `tbl` of the composition loop, or the exception that ends it. */
  function CompositionRows(segments: seq<string>): (r: Py<seq<CompositionRow>>)
    ensures r.Ok? ==> |r.value| <= |segments|
  {
    if |segments| == 0 then Ok([])
    else match CompositionRows(segments[..|segments| - 1])
      case Raised => Raised
      case Ok(rows) =>
        match SegmentRow(segments[|segments| - 1])
        case Raised => Raised
        case Ok(None) => Ok(rows)
        case Ok(Some(row)) => Ok(rows + [row])
  }

  /** Some segment holds two or more `:`. */
  predicate HasBadSegment(segments: seq<string>) {
    exists i :: 0 <= i < |segments| && Count(segments[i], ':') >= 2
  }

  /** The whole table raises exactly when some segment has two or more `:`. */
  lemma {:induction false} CompositionRaises(segments: seq<string>)
    ensures CompositionRows(segments).Raised? <==> HasBadSegment(segments)
  {
    if |segments| > 0 {
      var n := |segments| - 1;
      CompositionRaises(segments[..n]);
      BadSegmentSplit(segments);
      assert CompositionRows(segments).Raised?
         <==> CompositionRows(segments[..n]).Raised? || SegmentRow(segments[n]).Raised?;
    }
  }

  /** A bad segment is one of the front or the last one. */
  lemma BadSegmentSplit(segments: seq<string>)
    requires |segments| > 0
    ensures var n := |segments| - 1;
            HasBadSegment(segments) <==> HasBadSegment(segments[..n]) || Count(segments[n], ':') >= 2
  {
    var n := |segments| - 1;
    assert forall i :: 0 <= i < n ==> segments[..n][i] == segments[i];
  }

  /** The number of segments holding exactly one `:`, the `k:v` ones. */
  function KeyValueCount(segments: seq<string>): nat {
    if |segments| == 0 then 0
    else KeyValueCount(segments[..|segments| - 1]) + (if Count(segments[|segments| - 1], ':') == 1 then 1 else 0)
  }

  /**
   * A table that does not raise has one row per `k:v` segment; segments that all lack
   * a `:` give an empty table.
   */
  lemma {:induction false} CompositionRowsCount(segments: seq<string>)
    requires CompositionRows(segments).Ok?
    ensures |CompositionRows(segments).value| == KeyValueCount(segments)
    ensures (forall i :: 0 <= i < |segments| ==> ':' !in segments[i]) ==> CompositionRows(segments) == Ok([])
  {
    if |segments| > 0 {
      var n := |segments| - 1;
      CompositionRowsCount(segments[..n]);
      assert forall i :: 0 <= i < n ==> segments[..n][i] == segments[i];
    }
  }

  lemma {:induction false} CompositionRaisedStays(segments: seq<string>, i: nat)
    requires i <= |segments| && CompositionRows(segments[..i]) == Raised
    ensures CompositionRows(segments) == Raised
    decreases |segments| - i
  {
    if i < |segments| {
      assert segments[..i + 1][..i] == segments[..i];
      CompositionRaisedStays(segments, i + 1);
    } else {
      assert segments[..i] == segments;
    }
  }

  /** The composition loop of `check_password`. */
  method ParseComposition(segments: seq<string>) returns (result: Py<seq<CompositionRow>>)
    ensures result == CompositionRows(segments)
  {
    var tbl: seq<CompositionRow> := [];
    var i := 0;
    while i < |segments|
      invariant 0 <= i <= |segments|
      invariant CompositionRows(segments[..i]) == Ok(tbl)
    {
      assert segments[..i + 1][..i] == segments[..i];
      var x := segments[i];
      if ':' in x {
        var parts := Split(x, ':');
        if |parts| != 2 {
          assert CompositionRows(segments[..i + 1]) == Raised;
          CompositionRaisedStays(segments, i + 1);
          return Raised;
        }
        var k, v := parts[0], parts[1];
        tbl := tbl + [CompositionRow(ComponentOf(k), v)];
      }
      i := i + 1;
    }
    assert segments[..i] == segments;
    result := Ok(tbl);
  }

  /**
   * `s.get("char", "").split(";")` and its table: it raises exactly when the value is not a
   * string (which has no `split`) or one of its segments holds two or more `:`.
   */
  function Composition(s: Json): (r: Py<seq<CompositionRow>>)
    requires s.JObj?
    ensures var c := Get(s, "char", JStr("")).value;
            r.Raised? <==> !c.JStr? || HasBadSegment(Split(c.s, ';'))
  {
    var c := Get(s, "char", JStr("")).value;
    if c.JStr? then
      var segments := Split(c.s, ';');
      CompositionRaises(segments);
      CompositionRows(segments)
    else Raised
  }

  datatype PasswordOutcome =
    | PasswordSecure                                                  // `PASSWORD STATUS: SECURE`
    | PasswordExposed(count: int, composition: Py<seq<CompositionRow>>)  // `Exposed N times`, then the table
    | PasswordFailed                                                  // an exception before the count

  /**
   * `check_password` after the request: SECURE exactly when `handle` gives no payload
   * or a falsy one; an exposure count only from a decoded 200 dictionary.
   */
  function CheckPassword(r: Response<Json>): (o: PasswordOutcome)
    ensures o == PasswordSecure <==> Silent(r)
    ensures r.TransportFailure? ==> o == PasswordFailed
    ensures o.PasswordExposed? ==> r.Reply? && r.status == 200 && r.body.Decoded? && r.body.value.JObj?
  {
    match Handle(r)
    case Raised => PasswordFailed
    case Ok(None) => PasswordSecure
    case Ok(Some(data)) =>
      if !Truthy(data) then PasswordSecure
      else match Get(data, "SearchPassAnon", JObj(map[]))
        case Raised => PasswordFailed
        case Ok(s) =>
          match Get(s, "count", JNum(0))
          case Raised => PasswordFailed
          case Ok(c) =>
            match PyInt(c)
            case Raised => PasswordFailed
            case Ok(cnt) => PasswordExposed(cnt, Composition(s))
  }

  /** Every reply `handle` turns into `None` (404, 429, 5xx, ...) reads as SECURE. */
  lemma SecureWithoutPayload(status: nat, body: Body<Json>)
    requires status != 200
    ensures CheckPassword(Reply(status, body)) == PasswordSecure
  {
  }

  /** A transport failure is reported as an error, never as SECURE. */
  lemma TransportFailureIsNotSecure(kind: TransportKind, reason: string)
    ensures CheckPassword(TransportFailure(kind, reason)) == PasswordFailed
  {
  }

  /** A segment `k:v` whose key and value hold no `:` gives the row (k's component, v). */
  lemma KeyValueSegment(k: string, v: string)
    requires ':' !in k && ':' !in v
    ensures SegmentRow(k + [':'] + v) == Ok(Some(CompositionRow(ComponentOf(k), v)))
  {
    SplitAt(k, v, ':');
    SplitAbsent(k, ':');
    SplitAbsent(v, ':');
    assert (k + [':'] + v)[|k|] == ':';
  }

  /** Two rows in order from two well-formed segments. */
  lemma TwoRows(a: string, b: string, r1: CompositionRow, r2: CompositionRow)
    requires SegmentRow(a) == Ok(Some(r1)) && SegmentRow(b) == Ok(Some(r2))
    ensures CompositionRows([a, b]) == Ok([r1, r2])
  {
    assert [a][..0] == [] && [a][0] == a;
    assert CompositionRows([a][..0]) == Ok([]);
    assert [] + [r1] == [r1];
    assert CompositionRows([a]) == Ok([r1]);
    assert [a, b][..1] == [a] && [a, b][1] == b;
    assert [r1] + [r2] == [r1, r2];
  }

  /** `"a;b".split(";")` with two well-formed segments gives their two rows in order. */
  lemma TwoSegments(k1: string, v1: string, k2: string, v2: string)
    requires ':' !in k1 && ':' !in v1 && ':' !in k2 && ':' !in v2
    requires ';' !in k1 && ';' !in v1 && ';' !in k2 && ';' !in v2
    ensures CompositionRows(Split((k1 + [':'] + v1) + [';'] + (k2 + [':'] + v2), ';'))
         == Ok([CompositionRow(ComponentOf(k1), v1), CompositionRow(ComponentOf(k2), v2)])
  {
    var a, b := k1 + [':'] + v1, k2 + [':'] + v2;
    assert ';' !in a && ';' !in b;
    SplitAt(a, b, ';');
    SplitAbsent(a, ';');
    SplitAbsent(b, ';');
    assert Split(a + [';'] + b, ';') == [a, b];
    KeyValueSegment(k1, v1);
    KeyValueSegment(k2, v2);
    TwoRows(a, b, CompositionRow(ComponentOf(k1), v1), CompositionRow(ComponentOf(k2), v2));
  }
}
