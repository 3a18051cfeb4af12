/**
 * The WebSocket Origin decision (main/ws_origin.c): no Origin, a host equal to
 * the Host header's, or an entry of the configured list. Header values are
 * strings without NUL; an absent header is the empty string.
 */
module Origin {
  import opened Basics

  function Lower(c: char): char {
    if 'A' <= c <= 'Z' then (c as int + 32) as char else c
  }

  /** Equal but for ASCII case. */
  predicate SameText(a: string, b: string) {
    |a| == |b| && forall i :: 0 <= i < |a| ==> Lower(a[i]) == Lower(b[i])
  }

  // -------------------------------------------------------------- hosts

  predicate SchemeAt(s: string, i: nat) { i + 3 <= |s| && s[i] == ':' && s[i + 1] == '/' && s[i + 2] == '/' }

  /** Where the first "://" at or after i starts, or |s|. */
  function FindScheme(s: string, i: nat): (r: nat)
    requires i <= |s|
    ensures i <= r <= |s| && (r < |s| ==> SchemeAt(s, r))
    ensures forall k :: i <= k < r ==> !SchemeAt(s, k)
    decreases |s| - i
  {
    if i == |s| || SchemeAt(s, i) then i else FindScheme(s, i + 1)
  }

  predicate HasScheme(s: string) { FindScheme(s, 0) < |s| }

  /** Where the authority starts. */
  function Authority(s: string): (r: nat)
    ensures r <= |s|
  {
    if HasScheme(s) then FindScheme(s, 0) + 3 else 0
  }

  function Find(s: string, c: char, i: nat): (r: nat)
    requires i <= |s|
    ensures i <= r <= |s| && (r < |s| ==> s[r] == c) && forall k :: i <= k < r ==> s[k] != c
    decreases |s| - i
  {
    if i == |s| || s[i] == c then i else Find(s, c, i + 1)
  }

  predicate Stops(c: char) { c == ':' || c == '/' }

  /** End of a plain host from i: a port, a path or the end; '@' makes it malformed. */
  function HostEnd(s: string, i: nat): (r: Option<nat>)
    requires i <= |s|
    ensures r.Some? ==> i <= r.value <= |s|
    decreases |s| - i
  {
    if i == |s| || Stops(s[i]) then Some(i)
    else if s[i] == '@' then None
    else HostEnd(s, i + 1)
  }

  /** One trailing dot less. */
  function Undot(h: string): string { if |h| > 1 && h[|h| - 1] == '.' then h[..|h| - 1] else h }

  /** host_part. */
  function HostPart(s: string): (r: Option<string>)
    ensures r.Some? ==> r.value != []
  {
    if s == [] then None
    else
      var from := Authority(s);
      var end := if from < |s| && s[from] == '[' then
                   var close := Find(s, ']', from);
                   if close == |s| then None else Some(close + 1)
                 else HostEnd(s, from);
      if end.None? || end.value == from then None else Some(Undot(s[from..end.value]))
  }

  predicate SameHost(url: string, host: string) {
    HostPart(url).Some? && HostPart(host).Some? && SameText(HostPart(url).value, HostPart(host).value)
  }

  // -------------------------------------------------------------- the list

  function Unslash(s: string): string { if s != [] && s[|s| - 1] == '/' then s[..|s| - 1] else s }

  /** origin_entry_matches. */
  predicate Matches(origin: string, entry: string) {
    Unslash(origin) != [] && SameText(Unslash(origin), Unslash(entry))
  }

  predicate Separator(c: char) { c == ',' || c == ' ' }

  /** A maximal stretch of the list without separators. */
  predicate IsEntry(list: string, i: nat, j: nat) {
    && i < j <= |list|
    && (i == 0 || Separator(list[i - 1])) && (j == |list| || Separator(list[j]))
    && (forall k :: i <= k < j ==> !Separator(list[k]))
  }

  ghost predicate Listed(origin: string, list: string) {
    exists i: nat, j: nat :: IsEntry(list, i, j) && Matches(origin, list[i..j])
  }

  /** ws_origin_allowed, as its policy states it. */
  ghost predicate Allowed(origin: string, host: string, extras: string) {
    origin == [] || (HasScheme(origin) && SameHost(origin, host)) || Listed(origin, extras)
  }

  // ------------------------------------------------------------ the scan

  /** No entry of the list that starts before p matches. */
  ghost predicate NoneBefore(origin: string, list: string, p: nat) {
    forall i: nat, j: nat :: i < p && IsEntry(list, i, j) ==> !Matches(origin, list[i..j])
  }

  method SkipSeparators(list: string, from: nat, ghost origin: string) returns (p: nat)
    requires from <= |list| && NoneBefore(origin, list, from)
    ensures from <= p <= |list| && (p < |list| ==> !Separator(list[p])) && NoneBefore(origin, list, p)
    ensures forall k :: from <= k < p ==> Separator(list[k])
  {
    p := from;
    while p < |list| && Separator(list[p])
      invariant from <= p <= |list| && NoneBefore(origin, list, p)
      invariant forall k :: from <= k < p ==> Separator(list[k])
    {
      p := p + 1;
    }
  }

  method EntryEnd(list: string, p: nat) returns (end: nat)
    requires p <= |list|
    ensures p <= end <= |list| && (end == |list| || Separator(list[end]))
    ensures forall k :: p <= k < end ==> !Separator(list[k])
  {
    end := p;
    while end < |list| && !Separator(list[end])
      invariant p <= end <= |list| && forall k :: p <= k < end ==> !Separator(list[k])
    {
      end := end + 1;
    }
  }

  /** Entries are disjoint: one that starts in a stretch is that stretch. */
  lemma EntryUnique(list: string, p: nat, end: nat, i: nat, j: nat)
    requires IsEntry(list, p, end) && IsEntry(list, i, j) && p <= i < end
    ensures i == p && j == end
  {
  }

  lemma PassEntry(origin: string, list: string, p: nat, end: nat)
    requires NoneBefore(origin, list, p) && p <= end <= |list| && (end == |list| || Separator(list[end]))
    requires forall k :: p <= k < end ==> !Separator(list[k])
    requires p < end ==> IsEntry(list, p, end) && !Matches(origin, list[p..end])
    ensures NoneBefore(origin, list, end)
  {
    forall i: nat, j: nat | i < end && IsEntry(list, i, j) ensures !Matches(origin, list[i..j]) {
      if p <= i { EntryUnique(list, p, end, i, j); }
    }
  }

  /** The loop over the configured list. */
  method ScanList(origin: string, list: string) returns (r: bool)
    ensures r <==> Listed(origin, list)
  {
    hide Matches;
    var p := 0;
    while p < |list|
      invariant p <= |list| && NoneBefore(origin, list, p)
      invariant p == 0 || p == |list| || Separator(list[p])
      decreases |list| - p
    {
      var from := p;
      p := SkipSeparators(list, p, origin);
      var end := EntryEnd(list, p);
      if p < end {
        assert IsEntry(list, p, end);
        if Matches(origin, list[p..end]) {
          return true;
        }
      }
      PassEntry(origin, list, p, end);
      p := end;
    }
    r := false;
  }

  /** ws_origin_allowed. */
  method OriginAllowed(origin: string, host: string, extras: string) returns (r: bool)
    ensures r <==> Allowed(origin, host, extras)
  {
    if origin == [] || (HasScheme(origin) && SameHost(origin, host)) {
      return true;
    }
    r := ScanList(origin, extras);
  }

  // ------------------------------------------------- extending the list

  /** Entries of the longer list: those of the shorter one, and the new one. */
  lemma EntriesOfExtended(list: string, sep: char, entry: string, i: nat, j: nat)
    requires Separator(sep) && entry != [] && forall k :: 0 <= k < |entry| ==> !Separator(entry[k])
    ensures var l := list + [sep] + entry;
      IsEntry(l, i, j) <==> IsEntry(list, i, j) || (i == |list| + 1 && j == |l|)
  {
    var l := list + [sep] + entry;
    var n := |list| + 1;
    assert l[|list|] == sep;
    assert forall k :: n <= k < |l| ==> l[k] == entry[k - n];
    assert forall k :: 0 <= k < |list| ==> l[k] == list[k];
    assert IsEntry(l, n, |l|);
    if IsEntry(l, i, j) {
      if i >= n { EntryUnique(l, n, |l|, i, j); } else { assert i != |list| && j <= |list|; }
    }
  }

  /** Appending an entry behind a comma or a blank grants exactly the origins it matches. */
  lemma ExtendIff(origin: string, host: string, list: string, sep: char, entry: string)
    requires sep in {',', ' '} && entry != [] && forall k :: 0 <= k < |entry| ==> entry[k] !in {',', ' '}
    ensures Allowed(origin, host, list + [sep] + entry) <==> Allowed(origin, host, list) || Matches(origin, entry)
  {
    hide Matches, SameHost, HasScheme;
    var l := list + [sep] + entry;
    var n := |list| + 1;
    assert l[n..|l|] == entry;
    EntriesOfExtended(list, sep, entry, n, |l|);
    if Listed(origin, list) {
      var i: nat, j: nat :| IsEntry(list, i, j) && Matches(origin, list[i..j]);
      EntriesOfExtended(list, sep, entry, i, j);
      EntryBounds(list, i, j);
      assert l[i..j] == list[i..j];
    }
    if Listed(origin, l) {
      var i: nat, j: nat :| IsEntry(l, i, j) && Matches(origin, l[i..j]);
      EntriesOfExtended(list, sep, entry, i, j);
      if IsEntry(list, i, j) {
        EntryBounds(list, i, j);
        assert l[i..j] == list[i..j];
      }
    }
  }

  lemma EntryBounds(list: string, i: nat, j: nat)
    requires IsEntry(list, i, j)
    ensures i < j <= |list|
  {
  }

  // ------------------------------------------------------- hosts of URLs

  /** A plain host name: nothing in it ends or spoils a host. */
  predicate PlainHost(h: string) {
    h != [] && h[0] != '[' && forall i :: 0 <= i < |h| ==> !Stops(h[i]) && h[i] != '@'
  }

  lemma {:induction false} HostEndIs(s: string, i: nat, end: nat)
    requires i <= end <= |s| && (end == |s| || Stops(s[end]))
    requires forall k :: i <= k < end ==> !Stops(s[k]) && s[k] != '@'
    ensures HostEnd(s, i) == Some(end)
    decreases end - i
  {
    if i < end { HostEndIs(s, i + 1, end); }
  }

  lemma FindSchemeIs(scheme: string, rest: string)
    requires ':' !in scheme
    ensures FindScheme(scheme + "://" + rest, 0) == |scheme|
  {
    var s := scheme + "://" + rest;
    assert SchemeAt(s, |scheme|);
    forall k | 0 <= k < |scheme| ensures !SchemeAt(s, k) { assert s[k] == scheme[k] && scheme[k] in scheme; }
  }

  /** The host of scheme://host, with or without a port or a path behind it, is
      the host; a trailing dot does not matter. */
  lemma HostOfUrl(scheme: string, h: string, rest: string)
    requires ':' !in scheme && PlainHost(h) && (rest == [] || Stops(rest[0]))
    ensures HostPart(scheme + "://" + h + rest) == Some(Undot(h))
  {
    var s := scheme + "://" + h + rest;
    assert s == scheme + "://" + (h + rest);
    FindSchemeIs(scheme, h + rest);
    var from := |scheme| + 3;
    assert s[from..from + |h|] == h;
    forall k | from <= k < from + |h| ensures !Stops(s[k]) && s[k] != '@' { assert s[k] == h[k - from]; }
    if rest != [] { assert s[from + |h|] == rest[0]; }
    HostEndIs(s, from, from + |h|);
    assert s[from] == h[0];
  }

  /** So does a bare Host header name its host. */
  lemma HostOfHeader(h: string, rest: string)
    requires PlainHost(h) && (rest == [] || Stops(rest[0])) && !HasScheme(h + rest)
    ensures HostPart(h + rest) == Some(Undot(h))
  {
    var s := h + rest;
    assert s[..|h|] == h && s[0..|h|] == h;
    forall k | 0 <= k < |h| ensures !Stops(s[k]) && s[k] != '@' { assert s[k] == h[k]; }
    if rest != [] { assert s[|h|] == rest[0]; }
    HostEndIs(s, 0, |h|);
    assert s[0] == h[0];
  }

  /** A page served by the device itself is allowed, whatever the scheme, the ports and the list. */
  lemma OwnPageAllowed(scheme: string, h: string, port: string, port': string, extras: string)
    requires ':' !in scheme && PlainHost(h)
    requires (port == [] || Stops(port[0])) && (port' == [] || Stops(port'[0])) && !HasScheme(h + port')
    ensures Allowed(scheme + "://" + h + port, h + port', extras)
  {
    HostOfUrl(scheme, h, port);
    HostOfHeader(h, port');
    assert scheme + "://" + h + port == scheme + "://" + (h + port);
    FindSchemeIs(scheme, h + port);
  }

  /** Letters compare without case, everything else as it is. */
  lemma SameLetter(c: char, d: char)
    ensures Lower(c) == Lower(d) <==>
      c == d || ('A' <= c <= 'Z' && d as int == c as int + 32) || ('A' <= d <= 'Z' && c as int == d as int + 32)
  {
  }

  /** A final dot names the same host. */
  lemma DotAside(scheme: string, h: string, rest: string)
    requires ':' !in scheme && PlainHost(h) && h[|h| - 1] != '.' && (rest == [] || Stops(rest[0]))
    ensures HostPart(scheme + "://" + (h + ".") + rest) == HostPart(scheme + "://" + h + rest) == Some(h)
  {
    HostOfUrl(scheme, h, rest);
    HostOfUrl(scheme, h + ".", rest);
    assert (h + ".")[..|h|] == h;
  }

  /** A final slash, on the origin or on the entry, makes no difference. */
  lemma SlashAside(origin: string, entry: string)
    requires origin != [] && origin[|origin| - 1] != '/' && entry != [] && entry[|entry| - 1] != '/'
    ensures Matches(origin + "/", entry) <==> Matches(origin, entry)
    ensures Matches(origin, entry + "/") <==> Matches(origin, entry)
  {
    assert (origin + "/")[..|origin|] == origin && (entry + "/")[..|entry|] == entry;
  }

  /** A request without an Origin is allowed; one without a scheme, as `null`, only if listed. */
  lemma WithoutScheme(origin: string, host: string, extras: string)
    requires !HasScheme(origin)
    ensures Allowed(origin, host, extras) <==> origin == [] || Listed(origin, extras)
  {
  }

  // --------------------------------------------------------- userinfo

  /** The first '@' of the authority, which a '/' ends. */
  predicate FirstAt(s: string, at: nat) {
    && Authority(s) <= at < |s| && s[at] == '@'
    && forall k :: Authority(s) <= k < at ==> s[k] != '/' && s[k] != '@'
  }

  /** An '@' before the host ends spoils the whole value. */
  lemma {:induction false} AtEndsScan(s: string, i: nat, at: nat)
    requires i <= at < |s| && s[at] == '@' && forall k :: i <= k < at ==> !Stops(s[k])
    ensures HostEnd(s, i) == None
    decreases at - i
  {
    if i < at && s[i] != '@' { AtEndsScan(s, i + 1, at); }
  }

  /** A value with an '@' in its authority is meant to have no host. It has none
      exactly when the authority starts with no closed bracket and nothing
      before the '@' looks like a port: it is the plain-host scan that refuses
      the '@', and a bracket or a ':' keeps the scan from reaching it. */
  lemma AtSignRefusedIff(s: string, at: nat)
    requires FirstAt(s, at)
    ensures var from := Authority(s);
      HostPart(s) == None <==> if s[from] == '[' then ']' !in s[from..] else s[from] == ':' || ':' !in s[from..at]
  {
    var from := Authority(s);
    if s[from] == '[' {
      var close := Find(s, ']', from);
      if close < |s| { assert s[from..][close - from] == ']'; }
    } else if ':' in s[from..at] {
      var colon := Find(s, ':', from);
      var k :| 0 <= k < at - from && s[from..at][k] == ':';
      assert s[from + k] == ':' && colon <= from + k;
      HostEndIs(s, from, colon);
    } else {
      forall k | from <= k < at ensures !Stops(s[k]) { assert s[k] == s[from..at][k - from]; }
      AtEndsScan(s, from, at);
    }
  }

  /** So a bracket or a port lets an '@' stand. */
  lemma AtSignStands()
    ensures FirstAt("http://[a]@e", 10) && HostPart("http://[a]@e") == Some("[a]")
    ensures FirstAt("http://a:b@e", 10) && HostPart("http://a:b@e") == Some("a")
  {
    var s, r := "http://[a]@e", "http://a:b@e";
    assert s == "http" + "://" + "[a]@e" && r == "http" + "://" + "a:b@e";
    FindSchemeIs("http", "[a]@e");
    FindSchemeIs("http", "a:b@e");
    assert Find(s, ']', 7) == 9 && s[7..10] == "[a]";
    HostEndIs(r, 7, 8);
    assert r[7..8] == "a";
  }

  // ---------------------------------------------------- configuration posts

  /** ws_config_post_allowed. */
  ghost predicate PostAllowed(origin: string, referer: string, host: string, extras: string) {
    if origin != [] then Allowed(origin, host, extras) else referer == [] || (HasScheme(referer) && SameHost(referer, host))
  }

  method ConfigPostAllowed(origin: string, referer: string, host: string, extras: string) returns (r: bool)
    ensures r <==> PostAllowed(origin, referer, host, extras)
  {
    if origin != [] {
      r := OriginAllowed(origin, host, extras);
    } else if referer == [] {
      r := true;
    } else {
      r := HasScheme(referer) && SameHost(referer, host);
    }
  }

  /** Without an Origin the page the form came from decides: a POST is accepted
      exactly when that page's host is this device's, but for case and a final
      dot, and no configured list helps a foreign one. */
  lemma RefererDecides(scheme: string, h: string, rest: string, own: string, port: string, extras: string)
    requires ':' !in scheme && PlainHost(h) && PlainHost(own)
    requires (rest == [] || Stops(rest[0])) && (port == [] || Stops(port[0])) && !HasScheme(own + port)
    ensures PostAllowed([], scheme + "://" + h + rest, own + port, extras) <==> SameText(Undot(h), Undot(own))
  {
    HostOfUrl(scheme, h, rest);
    HostOfHeader(own, port);
    assert scheme + "://" + h + rest == scheme + "://" + (h + rest);
    FindSchemeIs(scheme, h + rest);
  }
}
