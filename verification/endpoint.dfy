/**
  The WebSocket endpoint the dashboard connects to, derived from the page's host name: the
  local dev server talks to the local backend on port 3000; a forwarded development host
  (whose name carries the dev-server port as "-5173") talks to the same host with "-3000".
 */
module Endpoint {
  import opened Wrappers

  const LocalHost := "localhost"
  const LocalUrl := "ws://localhost:3000/ws"
  const DevPortTag := "-5173"
  const ServerPortTag := "-3000"

  /** `p` occurs in `s` starting at index `i`. */
  predicate OccursAt(s: string, p: string, i: nat) {
    i + |p| <= |s| && s[i..i + |p|] == p
  }

  /** The first index at or after `from` where `p` occurs in `s`, as `String.prototype.indexOf` finds it. */
  function IndexOfFrom(s: string, p: string, from: nat): (r: Option<nat>)
    ensures r.Some? ==> from <= r.value && OccursAt(s, p, r.value)
    ensures r.Some? ==> forall j :: from <= j < r.value ==> !OccursAt(s, p, j)
    ensures r.None? ==> forall j :: from <= j ==> !OccursAt(s, p, j)
    decreases |s| - from
  {
    if from + |p| > |s| then None
    else if s[from..from + |p|] == p then Some(from)
    else IndexOfFrom(s, p, from + 1)
  }

  function IndexOf(s: string, p: string): Option<nat> {
    IndexOfFrom(s, p, 0)
  }

  /** `p` occurs in `s` at `i` and nowhere before it. */
  predicate FirstOccurrence(s: string, p: string, i: nat) {
    OccursAt(s, p, i) && forall j :: 0 <= j < i ==> !OccursAt(s, p, j)
  }

  /**
    `s.replace(p, r)` with a string pattern: only the first occurrence of `p` is replaced;
    the text before it and everything after it, later occurrences included, are kept. A
    string without `p` comes back unchanged. The replacement is taken literally, which is
    what JavaScript does when it holds no `$`.
   */
  function ReplaceFirst(s: string, p: string, r: string): (res: string)
    requires '$' !in r
    ensures forall i: nat :: FirstOccurrence(s, p, i) ==> res == s[..i] + r + s[i + |p|..]
    ensures (forall j: nat :: !OccursAt(s, p, j)) ==> res == s
  {
    match IndexOf(s, p)
    case None =>
      assert forall k: nat :: !FirstOccurrence(s, p, k) by {
        forall k: nat ensures !FirstOccurrence(s, p, k) {
          assert !OccursAt(s, p, k);
        }
      }
      s
    case Some(i) =>
      assert forall k: nat :: FirstOccurrence(s, p, k) ==> k == i;
      s[..i] + r + s[i + |p|..]
  }

  /** `WS_URL`: the endpoint for the page's host name. */
  function WsUrl(hostname: string): (url: string)
    ensures url == LocalUrl <==> hostname == LocalHost
    ensures (|url| >= 5 && url[..5] == "ws://") || (|url| >= 6 && url[..6] == "wss://")
    ensures |url| >= 3 && url[|url| - 3..] == "/ws"
  {
    if hostname == LocalHost then LocalUrl
    else
      var url := "wss://" + ReplaceFirst(hostname, DevPortTag, ServerPortTag) + "/ws";
      assert url[2] != LocalUrl[2];
      url
  }

  /** On localhost the endpoint is the fixed local one. */
  lemma WsUrlLocal()
    ensures WsUrl(LocalHost) == "ws://localhost:3000/ws"
  {
  }

  /** Elsewhere the endpoint is "wss://" + the host name with its first "-5173" turned into "-3000" + "/ws". */
  lemma WsUrlForwarded(hostname: string, i: nat)
    requires hostname != LocalHost
    requires FirstOccurrence(hostname, DevPortTag, i)
    ensures WsUrl(hostname) == "wss://" + hostname[..i] + "-3000" + hostname[i + 5..] + "/ws"
  {
  }

  /** A host name other than localhost without "-5173" appears in the endpoint unchanged. */
  lemma WsUrlPlainHost(hostname: string)
    requires hostname != LocalHost
    requires forall j: nat :: !OccursAt(hostname, DevPortTag, j)
    ensures WsUrl(hostname) == "wss://" + hostname + "/ws"
  {
  }

  /** The tag search finds "-5173" at index 1 of "x-5173-5173", and nowhere before. */
  lemma TagFirstAtOne(h: string)
    requires h == "x-5173-5173"
    ensures FirstOccurrence(h, DevPortTag, 1)
  {
    assert h[1..6] == DevPortTag;
    assert h[0..5][0] == 'x';
  }

  /** Replacing in "x-5173-5173" rewrites the first tag only. */
  lemma ReplaceSecondTagKept()
    ensures ReplaceFirst("x-5173-5173", DevPortTag, ServerPortTag) == "x-3000-5173"
  {
    var h := "x-5173-5173";
    TagFirstAtOne(h);
    assert h[..1] == "x" && h[6..] == "-5173";
  }

  /** Only the first "-5173" is rewritten: a second one survives into the endpoint. */
  lemma WsUrlSecondTagKept()
    ensures WsUrl("x-5173-5173") == "wss://x-3000-5173/ws"
  {
    ReplaceSecondTagKept();
  }
}
