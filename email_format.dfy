/**
 * `AdvancedOSINTTool.check_email_format`: `re.match` of
 * `^[a-zA-Z0-9._%+-]+@[a-zA-Z0-9.-]+\.[a-zA-Z]{2,}$`, with the regular
 * expression replaced by an explicit scan.
 */
module EmailFormat {
  import opened Optional
  import opened Strings

  predicate Letter(c: char) {
    'a' <= c <= 'z' || 'A' <= c <= 'Z'
  }

  /** `[a-zA-Z0-9._%+-]` */
  predicate LocalChar(c: char) {
    Letter(c) || IsDigit(c) || c == '.' || c == '_' || c == '%' || c == '+' || c == '-'
  }

  /** `[a-zA-Z0-9.-]` */
  predicate DomainChar(c: char) {
    Letter(c) || IsDigit(c) || c == '.' || c == '-'
  }

  /**
   * The pattern read declaratively: a non-empty local part, one `@`, a non-empty
   * run of domain characters, a `.`, and at least two letters up to the end.
   */
  ghost predicate EmailShape(e: string) {
    exists at: nat, dot: nat :: ShapeAt(e, at, dot)
  }

  function IndexOf(s: string, c: char): (r: Option<nat>)
    ensures r.Some? ==> r.value < |s| && s[r.value] == c && forall i :: 0 <= i < r.value ==> s[i] != c
    ensures r.None? ==> c !in s
  {
    if |s| == 0 then None
    else if s[0] == c then Some(0)
    else match IndexOf(s[1..], c)
      case None => None
      case Some(i) => Some(i + 1)
  }

  function LastIndexOf(s: string, c: char): (r: Option<nat>)
    ensures r.Some? ==> r.value < |s| && s[r.value] == c && forall i :: r.value < i < |s| ==> s[i] != c
    ensures r.None? ==> c !in s
  {
    if |s| == 0 then None
    else if s[|s| - 1] == c then Some(|s| - 1)
    else LastIndexOf(s[..|s| - 1], c)
  }

  /** The part after `@`: domain characters up to the last `.`, then two or more letters. */
  predicate DomainMatches(d: string) {
    match LastIndexOf(d, '.')
    case None => false
    case Some(dot) =>
      0 < dot && dot + 2 < |d| &&
      (forall i :: 0 <= i < dot ==> DomainChar(d[i])) &&
      (forall i :: dot < i < |d| ==> Letter(d[i]))
  }

  /**
   * The scan: the local part runs up to the first `@` (no local character is `@`),
   * the rest must satisfy DomainMatches.
   */
  predicate ShapeMatches(e: string) {
    match IndexOf(e, '@')
    case None => false
    case Some(at) =>
      0 < at && (forall i :: 0 <= i < at ==> LocalChar(e[i])) && DomainMatches(e[at + 1..])
  }

  /** The body of EmailShape for one choice of the `@` and the final `.`. */
  ghost predicate ShapeAt(e: string, at: nat, dot: nat) {
    0 < at && at + 1 < dot && dot + 2 < |e| &&
    e[at] == '@' && e[dot] == '.' &&
    (forall i :: 0 <= i < at ==> LocalChar(e[i])) &&
    (forall i :: at < i < dot ==> DomainChar(e[i])) &&
    (forall i :: dot < i < |e| ==> Letter(e[i]))
  }

  lemma ScanFindsShape(e: string)
    requires ShapeMatches(e)
    ensures EmailShape(e)
  {
    var at := IndexOf(e, '@').value;
    var d := e[at + 1..];
    var p := LastIndexOf(d, '.').value;
    var dot := at + 1 + p;
    assert forall i :: at < i < dot ==> e[i] == d[i - at - 1];
    assert forall i :: dot < i < |e| ==> e[i] == d[i - at - 1];
    assert ShapeAt(e, at, dot);
  }

  lemma IndexOfFirst(s: string, c: char, k: nat)
    requires k < |s| && s[k] == c && forall i :: 0 <= i < k ==> s[i] != c
    ensures IndexOf(s, c) == Some(k)
  {
  }

  lemma LastIndexOfLast(s: string, c: char, k: nat)
    requires k < |s| && s[k] == c && forall i :: k < i < |s| ==> s[i] != c
    ensures LastIndexOf(s, c) == Some(k)
  {
  }

  /** The domain part of a shaped address passes the domain scan. */
  lemma ShapedDomainMatches(e: string, at: nat, dot: nat)
    requires ShapeAt(e, at, dot)
    ensures DomainMatches(e[at + 1..])
  {
    var d := e[at + 1..];
    var p := dot - at - 1;
    assert forall i :: 0 <= i < |d| ==> d[i] == e[i + at + 1];
    assert forall i :: p < i < |d| ==> d[i] != '.' by {
      forall i | p < i < |d| ensures d[i] != '.' { assert Letter(e[i + at + 1]); }
    }
    LastIndexOfLast(d, '.', p);
  }

  lemma ShapeIsScanned(e: string, at: nat, dot: nat)
    requires ShapeAt(e, at, dot)
    ensures ShapeMatches(e)
  {
    assert forall i :: 0 <= i < at ==> e[i] != '@' by {
      forall i | 0 <= i < at ensures e[i] != '@' { assert LocalChar(e[i]); }
    }
    IndexOfFirst(e, '@', at);
    ShapedDomainMatches(e, at, dot);
  }

  /** The scan decides exactly the shape of the pattern. */
  lemma ShapeMatchesCorrect(e: string)
    ensures ShapeMatches(e) <==> EmailShape(e)
  {
    if ShapeMatches(e) {
      ScanFindsShape(e);
    }
    if EmailShape(e) {
      var at: nat, dot: nat :| ShapeAt(e, at, dot);
      ShapeIsScanned(e, at, dot);
    }
  }

  /**
   * `check_email_format(email)`. Python's `$` also matches just before a final
   * newline, so the shape followed by one `\n` is accepted as well.
   */
  function CheckEmailFormat(email: string): (ok: bool)
    ensures ok <==> EmailShape(email)
                    || (|email| > 0 && email[|email| - 1] == '\n' && EmailShape(email[..|email| - 1]))
  {
    ShapeMatchesCorrect(email);
    ShapeMatchesCorrect(if |email| > 0 then email[..|email| - 1] else email);
    ShapeMatches(email) || (|email| > 0 && email[|email| - 1] == '\n' && ShapeMatches(email[..|email| - 1]))
  }

  /** An accepted address without the trailing newline contains exactly one `@`. */
  lemma AcceptedHasOneAt(e: string)
    requires EmailShape(e)
    ensures Count(e, '@') == 1
  {
    ShapeMatchesCorrect(e);
    var at := IndexOf(e, '@').value;
    var local, rest := e[..at], e[at + 1..];
    assert '@' !in local;
    assert '@' !in rest by {
      var p := LastIndexOf(rest, '.').value;
      forall i | 0 <= i < |rest| ensures rest[i] != '@' {
        if i < p { assert DomainChar(rest[i]); } else if i > p { assert Letter(rest[i]); }
      }
    }
    assert e == local + [e[at]] + rest;
    CountAppend(local + [e[at]], rest, '@');
    CountAppend(local, [e[at]], '@');
    CountAbsent(local, '@');
    CountAbsent(rest, '@');
  }
}
