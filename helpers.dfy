/**
 * Stand-ins for the collaborators the request collector calls but that are
 * not part of this model: `normalizeHeaders` and `filterHeaders` (header
 * helpers), `getAllInitiators` (initiator helper) and the protocol part of
 * the platform's URL parser. Each is a small definition with the behaviour
 * the collector relies on, ASCII only.
 */
module Helpers {
  import opened Wrappers
  import opened Cdp

  predicate IsUpper(c: char) {
    'A' <= c <= 'Z'
  }

  function ToLower(c: char): (r: char)
    ensures !IsUpper(r)
  {
    if IsUpper(c) then (c as int + 32) as char else c
  }

  predicate IsLowerCase(s: string) {
    forall i :: 0 <= i < |s| ==> !IsUpper(s[i])
  }

  /** ASCII lower-casing, standing in for `toLowerCase` and `toLocaleLowerCase`. */
  function LowerString(s: string): (r: string)
    ensures |r| == |s| && IsLowerCase(r)
  {
    seq(|s|, i requires 0 <= i < |s| => ToLower(s[i]))
  }

  lemma LowerStringKeepsLowerCase(s: string)
    requires IsLowerCase(s)
    ensures LowerString(s) == s
  {
    assert forall i :: 0 <= i < |s| ==> LowerString(s)[i] == s[i];
  }

  /** `normalizeHeaders`: the same header lines with lower-cased names. */
  function NormalizeHeaders(h: Headers): (r: Headers)
    ensures |r| == |h|
    ensures forall i :: 0 <= i < |r| ==> r[i].value == h[i].value && r[i].name == LowerString(h[i].name)
  {
    if h == [] then [] else [Header(LowerString(h[0].name), h[0].value)] + NormalizeHeaders(h[1..])
  }

  /** `filterHeaders`: the header lines whose name, lower-cased, is in the allow-list; order kept. */
  function FilterHeaders(h: Headers, allow: seq<string>): (r: Headers)
    ensures |r| <= |h|
    ensures forall x :: x in r <==> x in h && LowerString(x.name) in allow
  {
    if h == [] then []
    else if LowerString(h[0].name) in allow then [h[0]] + FilterHeaders(h[1..], allow)
    else FilterHeaders(h[1..], allow)
  }

  /** The elements of `s`, each once, in order of first occurrence (an insertion-ordered set). */
  function Dedup(s: seq<string>): (r: seq<string>)
    ensures forall x :: x in r <==> x in s
    ensures forall i, j :: 0 <= i < j < |r| ==> r[i] != r[j]
    decreases |s|
  {
    if s == [] then []
    else
      var prefix := Dedup(s[..|s| - 1]);
      if s[|s| - 1] in prefix then prefix else prefix + [s[|s| - 1]]
  }

  /** `Array.from(getAllInitiators(initiator))`: the distinct origins of the initiator chain. */
  function AllInitiators(initiator: Option<Initiator>): (r: seq<string>)
    ensures forall x :: x in r <==> initiator.Some? && x in initiator.value.origins
    ensures forall i, j :: 0 <= i < j < |r| ==> r[i] != r[j]
  {
    match initiator
    case None => []
    case Some(i) => Dedup(i.origins)
  }

  predicate IsAsciiAlpha(c: char) {
    'a' <= c <= 'z' || 'A' <= c <= 'Z'
  }

  predicate IsSchemeChar(c: char) {
    IsAsciiAlpha(c) || '0' <= c <= '9' || c == '+' || c == '-' || c == '.'
  }

  /** The index of the first `c` in `s`, or `|s|` when there is none. */
  function IndexOf(s: string, c: char): (k: nat)
    ensures k <= |s|
    ensures k < |s| ==> s[k] == c
    ensures forall i :: 0 <= i < k ==> s[i] != c
  {
    if s == [] then 0
    else if s[0] == c then 0
    else 1 + IndexOf(s[1..], c)
  }

  /**
   * `new URL(url).protocol`: the lower-cased scheme with its colon, or None
   * where the parser would throw because the text does not start with a scheme.
   */
  function ParseProtocol(url: string): (protocol: Option<string>)
    ensures protocol.Some? ==> |protocol.value| >= 2 && protocol.value[|protocol.value| - 1] == ':'
    ensures protocol.Some? ==> IsLowerCase(protocol.value)
  {
    var k := IndexOf(url, ':');
    if 0 < k < |url| && IsAsciiAlpha(url[0]) && forall i :: 1 <= i < k ==> IsSchemeChar(url[i])
    then Some(LowerString(url[..k + 1]))
    else None
  }
}
