/**
 * The token a WebSocket client presents (main/ws_auth_credential.c): in
 * `Authorization: Bearer <token>` (section 2.1 of RFC 6750), or as the
 * `bramble.v1.auth.<token>` entry of the offered subprotocols. Header values
 * are strings without NUL; an absent header is the empty string.
 */
module Credential {

  const BEARER: string := "Bearer "
  const AUTH: string := "bramble.v1.auth."
  const PLAIN: string := "bramble.v1"

  datatype Token = NoToken | Got(text: string)

  predicate Blank(c: char) { c == ' ' || c == '\t' }

  /** Without the blanks at its front. */
  function TrimLeft(s: string): string {
    if s != [] && Blank(s[0]) then TrimLeft(s[1..]) else s
  }

  function TrimRight(s: string): string {
    if s != [] && Blank(s[|s| - 1]) then TrimRight(s[..|s| - 1]) else s
  }

  function Trim(s: string): string { TrimRight(TrimLeft(s)) }

  /** Index of the first comma, or |s|. */
  function Comma(s: string): (r: nat)
    ensures r <= |s| && (r < |s| ==> s[r] == ',') && forall i :: 0 <= i < r ==> s[i] != ','
  {
    if s == [] || s[0] == ',' then 0 else 1 + Comma(s[1..])
  }

  predicate IsAuth(entry: string) { AUTH < entry }

  /** The first comma-separated entry that, trimmed, carries a token. */
  function FirstAuth(s: string): Token
    decreases |s|
  {
    var n := Comma(s);
    var entry := Trim(s[..n]);
    if IsAuth(entry) then Got(entry[|AUTH|..])
    else if n == |s| then NoToken
    else FirstAuth(s[n + 1..])
  }

  /** copy_token: non-empty, and with its terminator it must fit. */
  function Fits(t: string, cap: nat): Token { if t == [] || |t| + 1 > cap then NoToken else Got(t) }

  /** ws_auth_extract_token: a Bearer header decides alone, else the first auth subprotocol. */
  function Extract(authorization: string, subprotocols: string, cap: nat): Token {
    if BEARER <= authorization then Fits(Trim(authorization[|BEARER|..]), cap)
    else
      match FirstAuth(subprotocols)
      case Got(t) => Fits(t, cap)
      case NoToken => NoToken
  }

  // ------------------------------------------------------------- round trips

  /** Text with no blank at either end. */
  predicate Tight(t: string) { t != [] && !Blank(t[0]) && !Blank(t[|t| - 1]) }

  lemma TrimTight(t: string)
    requires Tight(t)
    ensures Trim(t) == t
  {
  }

  /** What a client puts after Bearer is what is extracted if it fits with its
      terminator; else nothing, whatever the subprotocols offer. */
  lemma BearerRoundTrip(t: string, subprotocols: string, cap: nat)
    requires Tight(t)
    ensures Extract(BEARER + t, subprotocols, cap) == if |t| < cap then Got(t) else NoToken
  {
    assert (BEARER + t)[..|BEARER|] == BEARER && (BEARER + t)[|BEARER|..] == t;
    TrimTight(t);
  }

  lemma CommaIs(s: string, n: nat)
    requires n <= |s| && (n < |s| ==> s[n] == ',') && forall i :: 0 <= i < n ==> s[i] != ','
    ensures Comma(s) == n
  {
  }

  /** What a browser offers among its subprotocols is what is extracted, if it fits. */
  lemma SubprotocolRoundTrip(t: string, authorization: string, cap: nat)
    requires Tight(t) && ',' !in t && !(BEARER <= authorization)
    ensures Extract(authorization, AUTH + t + ", " + PLAIN, cap) == if |t| < cap then Got(t) else NoToken
  {
    var entry := AUTH + t;
    var s := entry + ", " + PLAIN;
    forall i | 0 <= i < |entry| ensures s[i] != ',' {
      assert s[i] == entry[i];
      if i >= |AUTH| { assert entry[i] == t[i - |AUTH|]; }
    }
    assert s[|entry|] == ',';
    CommaIs(s, |entry|);
    assert s[..|entry|] == entry;
    assert entry[|entry| - 1] == t[|t| - 1] && entry[0] == AUTH[0];
    TrimTight(entry);
    assert entry[|AUTH|..] == t && entry[..|AUTH|] == AUTH;
  }

  /** Blanks around the token, spaces or tabs, are not part of it. */
  lemma BearerBlanks(before: string, t: string, after: string, subprotocols: string, cap: nat)
    requires Tight(t) && (forall c :: c in before + after ==> c == ' ' || c == '\t')
    ensures Extract(BEARER + (before + t + after), subprotocols, cap) == if |t| < cap then Got(t) else NoToken
  {
    var s := before + t + after;
    assert (BEARER + s)[..|BEARER|] == BEARER && (BEARER + s)[|BEARER|..] == s;
    TrimBlanks(before, t, after);
  }

  lemma {:induction false} TrimBlanks(before: string, t: string, after: string)
    requires Tight(t) && (forall c :: c in before + after ==> Blank(c))
    ensures Trim(before + t + after) == t
    decreases |before| + |after|
  {
    if before != [] {
      assert before[0] in before + after;
      assert (before + t + after)[1..] == before[1..] + t + after;
      assert forall c :: c in before[1..] + after ==> c in before + after;
      TrimBlanks(before[1..], t, after);
    } else {
      assert before + t + after == t + after && (t + after)[0] == t[0];
      TrimAfter(t, after);
    }
  }

  lemma {:induction false} TrimAfter(t: string, after: string)
    requires Tight(t) && (forall c :: c in after ==> Blank(c))
    ensures TrimRight(t + after) == t
    decreases |after|
  {
    if after == [] {
      assert t + after == t;
    } else {
      var s := t + after;
      assert s[|s| - 1] == after[|after| - 1] && after[|after| - 1] in after;
      assert s[..|s| - 1] == t + after[..|after| - 1];
      TrimAfter(t, after[..|after| - 1]);
    }
  }

  /** An entry that carries no token may stand before the list without changing the answer. */
  lemma OtherEntryFirst(entry: string, rest: string)
    requires ',' !in entry && !IsAuth(Trim(entry))
    ensures FirstAuth(entry + "," + rest) == FirstAuth(rest)
  {
    var s := entry + "," + rest;
    assert s[|entry|] == ',';
    forall i | 0 <= i < |entry| ensures s[i] != ',' { assert s[i] == entry[i] && entry[i] in entry; }
    CommaIs(s, |entry|);
    assert s[..|entry|] == entry && s[|entry| + 1..] == rest;
  }

  /** An entry that names no token is passed over like any other. */
  lemma BareAuthSkipped(rest: string)
    ensures FirstAuth(AUTH + "," + rest) == FirstAuth(rest)
  {
    TrimTight(AUTH);
    OtherEntryFirst(AUTH, rest);
  }

  // ------------------------------------------------------- the scan itself

  predicate Separator(c: char) { Blank(c) || c == ',' }

  lemma SkipSeparator(s: string)
    requires s != [] && Separator(s[0])
    ensures FirstAuth(s) == FirstAuth(s[1..])
  {
    if s[0] == ',' {
      assert Comma(s) == 0 && s[..0] == [] && Trim([]) == [];
    } else {
      var n := Comma(s[1..]);
      assert Comma(s) == n + 1;
      assert s[..n + 1][1..] == s[1..][..n];
      assert Trim(s[..n + 1]) == Trim(s[1..][..n]);
      if n < |s[1..]| { assert s[1..][n + 1..] == s[n + 2..]; }
    }
  }

  method SkipSeparators(s: string, from: nat) returns (p: nat)
    requires from <= |s|
    ensures from <= p <= |s| && (p < |s| ==> !Separator(s[p]))
    ensures FirstAuth(s[from..]) == FirstAuth(s[p..])
  {
    hide FirstAuth;
    p := from;
    while p < |s| && Separator(s[p])
      invariant from <= p <= |s| && FirstAuth(s[from..]) == FirstAuth(s[p..])
    {
      SkipSeparator(s[p..]);
      assert s[p..][1..] == s[p + 1..];
      p := p + 1;
    }
  }

  method EntryEnd(s: string, entry: nat) returns (p: nat)
    requires entry <= |s|
    ensures entry <= p <= |s| && p - entry == Comma(s[entry..])
  {
    p := entry;
    while p < |s| && s[p] != ','
      invariant entry <= p <= |s|
      invariant forall i :: entry <= i < p ==> s[i] != ','
    {
      p := p + 1;
    }
    CommaIs(s[entry..], p - entry);
  }

  method TrimEnd(s: string, from: nat, to: nat) returns (end: nat)
    requires from <= to <= |s|
    ensures from <= end <= to && s[from..end] == TrimRight(s[from..to])
  {
    end := to;
    while end > from && Blank(s[end - 1])
      invariant from <= end <= to && TrimRight(s[from..to]) == TrimRight(s[from..end])
    {
      assert s[from..end][..end - from - 1] == s[from..end - 1];
      end := end - 1;
    }
  }

  /** One entry: taken, or passed over to the comma behind it. */
  lemma EntryStep(s: string, entry: nat, p: nat, end: nat)
    requires entry <= end <= p <= |s| && p - entry == Comma(s[entry..])
    requires (entry < |s| ==> !Separator(s[entry])) && s[entry..end] == TrimRight(s[entry..p])
    ensures FirstAuth(s[entry..]) == if IsAuth(s[entry..end]) then Got(s[entry + |AUTH|..end]) else FirstAuth(s[p..])
  {
    var t := s[entry..];
    assert t[..p - entry] == s[entry..p];
    NoLeadingBlank(s[entry..p]);
    if IsAuth(s[entry..end]) {
      assert s[entry..end][|AUTH|..] == s[entry + |AUTH|..end];
    } else if p < |s| {
      assert t[p - entry + 1..] == s[p + 1..] == s[p..][1..];
      SkipSeparator(s[p..]);
    } else {
      assert s[p..] == [];
    }
  }

  /** The subprotocol scan, entry by entry over the string. */
  method ScanSubprotocols(s: string) returns (r: Token)
    ensures r == FirstAuth(s)
  {
    hide FirstAuth;
    var p := 0;
    assert s[0..] == s;
    while p < |s|
      invariant p <= |s|
      invariant FirstAuth(s) == FirstAuth(s[p..])
      decreases |s| - p
    {
      var start := p;
      var entry := SkipSeparators(s, p);
      p := EntryEnd(s, entry);
      var end := TrimEnd(s, entry, p);
      EntryStep(s, entry, p, end);
      if IsAuth(s[entry..end]) {
        return Got(s[entry + |AUTH|..end]);
      }
      EntryProgress(s, start, entry, p);
    }
    assert s[p..] == [];
    EmptyHasNone();
    r := NoToken;
  }

  lemma EmptyHasNone()
    ensures FirstAuth([]) == NoToken
  {
  }

  lemma EntryProgress(s: string, start: nat, entry: nat, p: nat)
    requires start < |s| && start <= entry <= p <= |s| && p - entry == Comma(s[entry..])
    requires entry < |s| ==> !Separator(s[entry])
    ensures start < p
  {
    if entry < |s| { assert s[entry..][0] == s[entry]; }
  }

  /** ws_auth_extract_token. */
  method ExtractToken(authorization: string, subprotocols: string, cap: nat) returns (r: Token)
    ensures r == Extract(authorization, subprotocols, cap)
  {
    hide FirstAuth;
    if BEARER <= authorization {
      var p := |BEARER|;
      assert authorization[p..] == authorization[|BEARER|..];
      while p < |authorization| && Blank(authorization[p])
        invariant |BEARER| <= p <= |authorization|
        invariant TrimLeft(authorization[|BEARER|..]) == TrimLeft(authorization[p..])
      {
        assert authorization[p..][1..] == authorization[p + 1..];
        p := p + 1;
      }
      var end := TrimEnd(authorization, p, |authorization|);
      assert authorization[p..|authorization|] == authorization[p..];
      r := Fits(authorization[p..end], cap);
    } else {
      r := ScanSubprotocols(subprotocols);
      if r.Got? {
        r := Fits(r.text, cap);
      }
    }
  }

  lemma NoLeadingBlank(s: string)
    requires s == [] || !Separator(s[0])
    ensures TrimLeft(s) == s
  {
  }
}
