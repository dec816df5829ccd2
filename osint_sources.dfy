/**
 * The result dictionaries of the three breach sources of `AdvancedOSINTTool`
 * (Hudson Rock, Have I Been Pwned, Dehashed) and of the WHOIS and DNS lookups,
 * as records with optional fields, and the status mapping each connector applies
 * to its HTTP reply. A field holding `None` is a key missing from the dictionary;
 * a value is given as the text its f-string shows.
 */
module OsintSources {
  import opened Optional
  import opened Strings
  import opened Http

  /** One entry of Hudson Rock's `stealers` list. */
  datatype Stealer = Stealer(
    dateCompromised: Option<string>,
    ip: Option<string>,
    computerName: Option<string>,
    operatingSystem: Option<string>,
    topLogins: Option<seq<string>>,
    topPasswords: Option<seq<string>>)

  /** `hudson_data`: a present `error` key, and the payload keys the report reads. */
  datatype HudsonData = HudsonData(
    error: Option<string>,
    stealers: Option<seq<Stealer>>,
    totalCorporateServices: Option<string>,
    totalUserServices: Option<string>)

  datatype HibpBreach = HibpBreach(name: Option<string>, breachDate: Option<string>)

  /** `hibp_data`; `breaches == None` is a missing key (a `null` value reads like `[]`). */
  datatype HibpData = HibpData(error: Option<string>, breaches: Option<seq<HibpBreach>>)

  datatype DehashedEntry = DehashedEntry(email: Option<string>, password: Option<string>, source: Option<string>)

  /** `dehashed_data`; `total` is the count the service reports, independent of `entries`. */
  datatype DehashedData = DehashedData(
    error: Option<string>,
    entries: Option<seq<DehashedEntry>>,
    total: Option<string>)

  datatype WhoisData = WhoisData(
    error: Option<string>,
    registrar: Option<string>,
    creationDate: Option<string>,
    expirationDate: Option<string>)

  /** A value of `dns_data`: the answers for a record type, or the `"Error: ..."` text of a failed lookup. */
  datatype DnsValue = Records(answers: seq<string>) | LookupError(text: string)

  /** `dns_data.items()`, in insertion order. */
  type DnsData = seq<(string, DnsValue)>

  function HudsonError(message: string): HudsonData {
    HudsonData(Some(message), None, None, None)
  }

  function HibpError(message: string): HibpData {
    HibpData(Some(message), None)
  }

  function DehashedError(message: string): DehashedData {
    DehashedData(Some(message), None, None)
  }

  predicate DecodedOk<T>(r: Response<T>) {
    r.Reply? && r.status == 200 && r.body.Decoded?
  }

  /** `hudson_rock_search`: a decoded 200 body is passed on; everything else becomes an `error` entry. */
  function HudsonRockSearch(r: Response<HudsonData>): (d: HudsonData)
    ensures DecodedOk(r) ==> d == r.body.value
    ensures !DecodedOk(r) ==> d.error.Some?
    ensures r.Reply? && r.status != 200 ==> d == HudsonError("API returned status code " + NatToString(r.status))
  {
    match r
    case Reply(status, body) =>
      if status == 200 then
        match body
        case Decoded(v) => v
        case Undecodable(reason) => HudsonError("Hudson Rock search failed: " + reason)
      else HudsonError("API returned status code " + NatToString(status))
    case TransportFailure(_, reason) => HudsonError("Hudson Rock search failed: " + reason)
  }

  /**
   * `haveibeenpwned_search`: 404 means "no breaches" and yields `{"breaches": []}`,
   * never an error; other non-200 statuses and exceptions become an `error` entry.
   */
  function HaveIBeenPwnedSearch(r: Response<HibpData>): (d: HibpData)
    ensures DecodedOk(r) ==> d == r.body.value
    ensures r.Reply? && r.status == 404 ==> d == HibpData(None, Some([]))
    ensures !DecodedOk(r) && !(r.Reply? && r.status == 404) ==> d.error.Some?
    ensures r.Reply? && r.status != 200 && r.status != 404 ==>
              d == HibpError("HIBP API returned status code " + NatToString(r.status))
  {
    match r
    case Reply(status, body) =>
      if status == 200 then
        match body
        case Decoded(v) => v
        case Undecodable(reason) => HibpError("HIBP search failed: " + reason)
      else if status == 404 then HibpData(None, Some([]))
      else HibpError("HIBP API returned status code " + NatToString(status))
    case TransportFailure(_, reason) => HibpError("HIBP search failed: " + reason)
  }

  /** Python's `not dehashed_api_key`: no key, or the empty string. */
  predicate MissingKey(apiKey: Option<string>) {
    apiKey.None? || apiKey.value == ""
  }

  /**
   * `dehashed_search`: without an API key the error entry is returned before any
   * request is made, so the result cannot depend on the reply.
   */
  function DehashedSearch(apiKey: Option<string>, r: Response<DehashedData>): (d: DehashedData)
    ensures MissingKey(apiKey) ==> d == DehashedError("Dehashed API key required")
    ensures !MissingKey(apiKey) && DecodedOk(r) ==> d == r.body.value
    ensures !MissingKey(apiKey) && !DecodedOk(r) ==> d.error.Some?
    ensures !MissingKey(apiKey) && r.Reply? && r.status != 200 ==>
              d == DehashedError("Dehashed API returned status code " + NatToString(r.status))
  {
    if MissingKey(apiKey) then DehashedError("Dehashed API key required")
    else match r
      case Reply(status, body) =>
        if status == 200 then
          match body
          case Decoded(v) => v
          case Undecodable(reason) => DehashedError("Dehashed search failed: " + reason)
        else DehashedError("Dehashed API returned status code " + NatToString(status))
      case TransportFailure(_, reason) => DehashedError("Dehashed search failed: " + reason)
  }
}
