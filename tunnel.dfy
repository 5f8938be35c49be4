/** The output scanner of `run_cloudflared` in b2listen/b2listen.py: it reads the tunnel
    process's diagnostic lines, calls the URL handler with the public URL of the first line that
    reports one, then logs the tunnel-registration lines, and on the way out kills the process and
    calls the exit handler. */
module Tunnel {
  import opened Wrappers
  import opened Text
  import opened Seqs

  /** Shape of the timestamp `\d{4}-\d{2}-\d{2}T\d{2}:\d{2}:\d{2}Z`; each 'd' stands for a digit. */
  const TimestampShape := "dddd-dd-ddTdd:dd:ddZ"
  const UrlScheme := "https://"
  const RegisteredText := "Registered tunnel connection "

  predicate IsTimestamp(s: string) {
    |s| == |TimestampShape| &&
    forall i :: 0 <= i < |s| ==>
      if TimestampShape[i] == 'd' then IsAsciiDigit(s[i]) else s[i] == TimestampShape[i]
  }

  /** `<timestamp>\sINF\s`: the 25 characters both recognised lines start with. */
  predicate IsInfoPrefix(s: string) {
    |s| == 25 && IsTimestamp(s[..20]) && IsSpace(s[20]) && s[21..24] == "INF" && IsSpace(s[24])
  }

  /** The class `[a-z0-9.\-]` of host-name characters. */
  predicate IsHostChar(c: char) {
    ('a' <= c <= 'z') || IsAsciiDigit(c) || c == '.' || c == '-'
  }

  /** Length of the longest prefix of `s` made of host-name characters. */
  function HostRun(s: string): (n: nat)
    ensures n <= |s|
    ensures forall i :: 0 <= i < n ==> IsHostChar(s[i])
    ensures n < |s| ==> !IsHostChar(s[n])
  {
    if s == [] || !IsHostChar(s[0]) then 0 else 1 + HostRun(s[1..])
  }

  /** `\s+\|$` on a line without a trailing newline. */
  predicate IsClosing(t: string) {
    |t| >= 2 && t[|t| - 1] == '|' && AllSpace(t[..|t| - 1])
  }

  /** The group captured by `url_line_regex`
      (`^<timestamp>\sINF\s\|\s+(https://[a-z0-9.\-]+)\s+\|$`), if the line matches. Lines reach it
      stripped, so `$` only matches at the very end. */
  function MatchUrlLine(line: string): Option<string> {
    if |line| < 26 || !IsInfoPrefix(line[..25]) || line[25] != '|' then None
    else MatchPaddedUrl(line[26..])
  }

  /** `\s+(https://[a-z0-9.\-]+)\s+\|$` */
  function MatchPaddedUrl(rest: string): Option<string> {
    var k := LeadingSpaces(rest);
    if k == 0 then None else MatchUrl(rest[k..])
  }

  /** `(https://[a-z0-9.\-]+)\s+\|$`: the host run is maximal, since neither whitespace nor `|`
      is a host-name character. */
  function MatchUrl(url: string): Option<string> {
    if !StartsWith(url, UrlScheme) then None
    else
      var n := HostRun(url[8..]);
      if n == 0 || !IsClosing(url[8 + n..]) then None
      else Some(url[..8 + n])
  }

  /** A line in the reported-URL format, assembled from its parts: the reference the recogniser is
      checked against. */
  function UrlLine(stamp: string, sp1: char, sp2: char, pad1: string, host: string, pad2: string): string {
    stamp + [sp1] + "INF" + [sp2] + "|" + pad1 + UrlScheme + host + pad2 + "|"
  }

  predicate IsHost(host: string) {
    |host| > 0 && forall i :: 0 <= i < |host| ==> IsHostChar(host[i])
  }

  predicate UrlLineParts(stamp: string, sp1: char, sp2: char, pad1: string, host: string, pad2: string) {
    IsTimestamp(stamp) && IsSpace(sp1) && IsSpace(sp2) &&
    |pad1| > 0 && AllSpace(pad1) && IsHost(host) && |pad2| > 0 && AllSpace(pad2)
  }

  lemma {:induction false} HostRunOf(host: string, rest: string)
    requires forall i :: 0 <= i < |host| ==> IsHostChar(host[i])
    requires rest != [] && !IsHostChar(rest[0])
    ensures HostRun(host + rest) == |host|
  {
    if host != [] {
      assert (host + rest)[1..] == host[1..] + rest;
      HostRunOf(host[1..], rest);
    } else {
      assert host + rest == rest;
    }
  }

  lemma MatchUrlOf(host: string, pad2: string)
    requires IsHost(host) && |pad2| > 0 && AllSpace(pad2)
    ensures MatchUrl(UrlScheme + host + pad2 + "|") == Some(UrlScheme + host)
  {
    var url := UrlScheme + host + pad2 + "|";
    assert url[..8] == UrlScheme;
    assert url[8..] == host + (pad2 + "|");
    HostRunOf(host, pad2 + "|");
    assert url[8 + |host|..] == pad2 + "|";
    assert (pad2 + "|")[..|pad2|] == pad2;
    assert url[..8 + |host|] == UrlScheme + host;
  }

  lemma MatchPaddedUrlOf(pad1: string, url: string)
    requires |pad1| > 0 && AllSpace(pad1) && url != [] && !IsSpace(url[0])
    ensures MatchPaddedUrl(pad1 + url) == MatchUrl(url)
  {
    LeadingOfPadded(pad1, url);
    assert (pad1 + url)[|pad1|..] == url;
  }

  lemma MatchUrlLineOf(head: string, rest: string)
    requires IsInfoPrefix(head)
    ensures MatchUrlLine(head + "|" + rest) == MatchPaddedUrl(rest)
  {
    var line := head + "|" + rest;
    assert line[..25] == head && line[25] == '|' && line[26..] == rest;
  }

  /** Every well-formed URL line is recognised, and its capture is `https://` and the host. */
  lemma MatchUrlLineComplete(stamp: string, sp1: char, sp2: char, pad1: string, host: string, pad2: string)
    requires UrlLineParts(stamp, sp1, sp2, pad1, host, pad2)
    ensures MatchUrlLine(UrlLine(stamp, sp1, sp2, pad1, host, pad2)) == Some(UrlScheme + host)
  {
    var head := stamp + [sp1] + "INF" + [sp2];
    var url := UrlScheme + host + pad2 + "|";
    assert head[..20] == stamp && head[21..24] == "INF";
    assert UrlLine(stamp, sp1, sp2, pad1, host, pad2) == head + "|" + (pad1 + url);
    MatchUrlLineOf(head, pad1 + url);
    MatchPaddedUrlOf(pad1, url);
    MatchUrlOf(host, pad2);
  }

  lemma MatchUrlSound(url: string)
    requires MatchUrl(url).Some?
    ensures var n := HostRun(url[8..]);
      IsHost(url[8..8 + n]) && |url[8 + n..|url| - 1]| > 0 && AllSpace(url[8 + n..|url| - 1]) &&
      url == UrlScheme + url[8..8 + n] + url[8 + n..|url| - 1] + "|" &&
      MatchUrl(url) == Some(UrlScheme + url[8..8 + n])
  {
    var n := HostRun(url[8..]);
    var t := url[8 + n..];
    assert t[..|t| - 1] == url[8 + n..|url| - 1];
    assert url[..8 + n] == UrlScheme + url[8..8 + n];
  }

  lemma MatchPaddedUrlSound(rest: string)
    requires MatchPaddedUrl(rest).Some?
    ensures var k := LeadingSpaces(rest);
      k > 0 && AllSpace(rest[..k]) && rest == rest[..k] + rest[k..] &&
      MatchPaddedUrl(rest) == MatchUrl(rest[k..])
  {
    var k := LeadingSpaces(rest);
    var pad := rest[..k];
    forall i | 0 <= i < |pad| ensures IsSpace(pad[i]) {
      assert pad[i] == rest[i];
    }
    assert pad + rest[k..] == rest;
  }

  lemma MatchUrlLineHead(line: string)
    requires MatchUrlLine(line).Some?
    ensures |line| >= 26 && IsTimestamp(line[..20]) && IsSpace(line[20]) && IsSpace(line[24])
    ensures line == line[..20] + [line[20]] + "INF" + [line[24]] + "|" + line[26..]
    ensures MatchUrlLine(line) == MatchPaddedUrl(line[26..])
  {
    var head := line[..25];
    assert IsInfoPrefix(head);
    assert head[..20] == line[..20] && head[21..24] == "INF";
    assert head == line[..20] + [line[20]] + "INF" + [line[24]];
    assert line == head + "|" + line[26..];
  }

  /** Every recognised line is a well-formed URL line, with the capture as its URL: the lemma
      returns the line's parts. */
  lemma MatchUrlLineSound(line: string) returns (stamp: string, sp1: char, sp2: char, pad1: string, host: string, pad2: string)
    requires MatchUrlLine(line).Some?
    ensures UrlLineParts(stamp, sp1, sp2, pad1, host, pad2)
    ensures line == UrlLine(stamp, sp1, sp2, pad1, host, pad2)
    ensures MatchUrlLine(line) == Some(UrlScheme + host)
  {
    MatchUrlLineHead(line);
    var rest := line[26..];
    MatchPaddedUrlSound(rest);
    var k := LeadingSpaces(rest);
    var url := rest[k..];
    MatchUrlSound(url);
    var n := HostRun(url[8..]);
    stamp, sp1, sp2 := line[..20], line[20], line[24];
    pad1, host, pad2 := rest[..k], url[8..8 + n], url[8 + n..|url| - 1];
    UrlLineAssembled(line, stamp, sp1, sp2, rest, pad1, url, host, pad2);
  }

  lemma UrlLineAssembled(line: string, stamp: string, sp1: char, sp2: char, rest: string,
                         pad1: string, url: string, host: string, pad2: string)
    requires line == stamp + [sp1] + "INF" + [sp2] + "|" + rest
    requires rest == pad1 + url && url == UrlScheme + host + pad2 + "|"
    ensures line == UrlLine(stamp, sp1, sp2, pad1, host, pad2)
  {
    UrlLineGrouped(stamp, sp1, sp2, pad1, host, pad2);
  }

  lemma UrlLineGrouped(stamp: string, sp1: char, sp2: char, pad1: string, host: string, pad2: string)
    ensures UrlLine(stamp, sp1, sp2, pad1, host, pad2) ==
      stamp + [sp1] + "INF" + [sp2] + "|" + (pad1 + (UrlScheme + host + pad2 + "|"))
  {
    var a := stamp + [sp1] + "INF" + [sp2] + "|";
    var u := UrlScheme + host + pad2 + "|";
    calc {
      UrlLine(stamp, sp1, sp2, pad1, host, pad2);
      a + pad1 + UrlScheme + host + pad2 + "|";
      { assert a + pad1 + UrlScheme + host + pad2 + "|" == a + pad1 + (UrlScheme + host + pad2 + "|"); }
      a + pad1 + u;
      a + (pad1 + u);
    }
  }

  /** The group captured by `reg_tunnel_regex`
      (`^<timestamp>\sINF\s(Registered tunnel connection .+)$`), if the line matches. */
  function MatchRegisteredLine(line: string): (r: Option<string>)
    ensures r.Some? ==> |line| > 25 && IsInfoPrefix(line[..25]) && line == line[..25] + r.value
    ensures r.Some? ==> StartsWith(r.value, RegisteredText) && |r.value| > |RegisteredText|
    ensures r.Some? ==> '\n' !in r.value
  {
    if |line| > 25 + |RegisteredText| && IsInfoPrefix(line[..25]) &&
       StartsWith(line[25..], RegisteredText) && '\n' !in line[25..]
    then Some(line[25..])
    else None
  }

  /** Every line of the registration shape is recognised: an INF prefix, the fixed text, and at
      least one more character, none of them a newline. The capture is everything after the
      prefix. */
  lemma MatchRegisteredLineComplete(head: string, t: string)
    requires IsInfoPrefix(head) && t != [] && '\n' !in t
    ensures MatchRegisteredLine(head + RegisteredText + t) == Some(RegisteredText + t)
  {
    var line := head + RegisteredText + t;
    assert line[..25] == head;
    assert line[25..] == RegisteredText + t;
    assert (RegisteredText + t)[..|RegisteredText|] == RegisteredText;
  }

  /** What the two patterns capture in one line as the loop reads it (stripped first). */
  datatype LineMatch = LineMatch(url: Option<string>, registered: Option<string>)

  function MatchLine(raw: string): LineMatch {
    var line := Strip(raw);
    LineMatch(MatchUrlLine(line), MatchRegisteredLine(line))
  }

  function MatchLines(lines: seq<string>): (r: seq<LineMatch>)
    ensures |r| == |lines| && forall k :: 0 <= k < |lines| ==> r[k] == MatchLine(lines[k])
  {
    seq(|lines|, k requires 0 <= k < |lines| => MatchLine(lines[k]))
  }

  /** What the scanner does that can be observed, in order. */
  datatype Event =
    | UrlFound(url: string)   // `url_handler(url)` was called
    | Ready(message: string)  // a registration line was logged, with "Ready to deliver events"
    | Killed                  // `process.kill()`
    | Exited                  // `exit_handler()` was called

  /** Position of the first line that matches the URL pattern; `|ms|` when none does. */
  function FirstUrlAt(ms: seq<LineMatch>): (r: nat)
    ensures r <= |ms|
    ensures forall j :: 0 <= j < r ==> ms[j].url.None?
    ensures r < |ms| ==> ms[r].url.Some?
  {
    if ms == [] || ms[0].url.Some? then 0 else 1 + FirstUrlAt(ms[1..])
  }

  /** The URL of the first line that matches the URL pattern, if any. */
  function FirstUrl(ms: seq<LineMatch>): Option<string> {
    var k := FirstUrlAt(ms);
    if k < |ms| then ms[k].url else None
  }

  /** The events of the reading loop over the matched lines, starting with the flag `found_url`
      as given. When the URL handler raises (`handlerRaises`), the exception ends the loop. */
  function Scan(ms: seq<LineMatch>, foundUrl: bool, handlerRaises: bool): seq<Event> {
    if ms == [] then []
    else if !foundUrl then
      match ms[0].url
      case None => Scan(ms[1..], false, handlerRaises)
      case Some(u) =>
        if handlerRaises then [UrlFound(u)] else [UrlFound(u)] + Scan(ms[1..], true, handlerRaises)
    else
      match ms[0].registered
      case None => Scan(ms[1..], true, handlerRaises)
      case Some(m) => [Ready(m)] + Scan(ms[1..], true, handlerRaises)
  }

  /** The events of one `run_cloudflared` call: when the process launched, the loop over the lines
      it printed before the run was interrupted, then the kill; in every case the exit handler. */
  function TunnelRun(launched: bool, lines: seq<string>, handlerRaises: bool): seq<Event> {
    (if launched then Scan(MatchLines(lines), false, handlerRaises) + [Killed] else []) + [Exited]
  }

  /** One step of the reading loop, unfolded at position `i`. */
  lemma ScanStep(ms: seq<LineMatch>, i: nat, foundUrl: bool, handlerRaises: bool)
    requires i < |ms|
    ensures !foundUrl && ms[i].url.None? ==>
      Scan(ms[i..], foundUrl, handlerRaises) == Scan(ms[i + 1..], false, handlerRaises)
    ensures !foundUrl && ms[i].url.Some? && handlerRaises ==>
      Scan(ms[i..], foundUrl, handlerRaises) == [UrlFound(ms[i].url.value)]
    ensures !foundUrl && ms[i].url.Some? && !handlerRaises ==>
      Scan(ms[i..], foundUrl, handlerRaises) == [UrlFound(ms[i].url.value)] + Scan(ms[i + 1..], true, handlerRaises)
    ensures foundUrl && ms[i].registered.None? ==>
      Scan(ms[i..], foundUrl, handlerRaises) == Scan(ms[i + 1..], true, handlerRaises)
    ensures foundUrl && ms[i].registered.Some? ==>
      Scan(ms[i..], foundUrl, handlerRaises) == [Ready(ms[i].registered.value)] + Scan(ms[i + 1..], true, handlerRaises)
  {
    assert ms[i..][0] == ms[i] && ms[i..][1..] == ms[i + 1..];
  }

  /** `run_cloudflared`. `launched` is false when starting the process raised; `lines` is what the
      process printed on its error stream before the run was interrupted; `handlerRaises` says
      whether the URL handler raises (for example because it exits on a rule error). */
  method RunCloudflared(launched: bool, lines: seq<string>, handlerRaises: bool) returns (events: seq<Event>)
    ensures events == TunnelRun(launched, lines, handlerRaises)
  {
    events := [];
    if launched {
      ghost var ms := MatchLines(lines);
      var foundUrl := false;
      var raised := false;
      var i := 0;
      while i < |lines| && !raised
        invariant 0 <= i <= |lines|
        invariant raised ==> events == Scan(ms, false, handlerRaises)
        invariant !raised ==> events + Scan(ms[i..], foundUrl, handlerRaises) == Scan(ms, false, handlerRaises)
      {
        ScanStep(ms, i, foundUrl, handlerRaises);
        ghost var before := events;
        ghost var rest := Scan(ms[i + 1..], true, handlerRaises);
        var line := Strip(lines[i]);
        if !foundUrl {
          var m := MatchUrlLine(line);
          assert m == ms[i].url;
          if m.Some? {
            events := events + [UrlFound(m.value)];
            if handlerRaises {
              raised := true;
            } else {
              AppendAssociates(before, [UrlFound(m.value)], rest);
              foundUrl := true;
            }
          } else {
            assert Scan(ms[i..], false, handlerRaises) == Scan(ms[i + 1..], false, handlerRaises);
          }
        } else {
          var m := MatchRegisteredLine(line);
          assert m == ms[i].registered;
          if m.Some? {
            events := events + [Ready(m.value)];
            AppendAssociates(before, [Ready(m.value)], rest);
          } else {
            assert Scan(ms[i..], true, handlerRaises) == rest;
          }
        }
        i := i + 1;
      }
      if !raised {
        assert ms[i..] == [];
      }
      events := events + [Killed];
    }
    events := events + [Exited];
  }

  lemma {:induction false} ScanAfterUrl(ms: seq<LineMatch>, handlerRaises: bool)
    ensures forall j :: 0 <= j < |Scan(ms, true, handlerRaises)| ==> Scan(ms, true, handlerRaises)[j].Ready?
  {
    if ms != [] {
      ScanAfterUrl(ms[1..], handlerRaises);
    }
  }

  lemma {:induction false} ScanBeforeUrl(ms: seq<LineMatch>, handlerRaises: bool)
    ensures var s := Scan(ms, false, handlerRaises);
      (s == [] <==> FirstUrl(ms).None?) &&
      (s != [] ==> s[0] == UrlFound(FirstUrl(ms).value) && forall j :: 1 <= j < |s| ==> s[j].Ready?)
  {
    if ms != [] {
      match ms[0].url
      case None =>
        ScanBeforeUrl(ms[1..], handlerRaises);
        assert FirstUrl(ms) == FirstUrl(ms[1..]);
      case Some(u) =>
        ScanAfterUrl(ms[1..], handlerRaises);
    }
  }

  /** The events of a launched run, stated on the matched lines. */
  lemma LaunchedRunShape(ms: seq<LineMatch>, handlerRaises: bool)
    ensures var ev := Scan(ms, false, handlerRaises) + [Killed, Exited];
      (forall u :: UrlFound(u) in ev <==> FirstUrl(ms) == Some(u)) &&
      (forall j :: 0 <= j < |ev| && ev[j].UrlFound? ==> j == 0) &&
      (forall j :: 0 <= j < |ev| && ev[j].Ready? ==> 0 < j && ev[0].UrlFound?)
  {
    var s := Scan(ms, false, handlerRaises);
    var ev := s + [Killed, Exited];
    ScanBeforeUrl(ms, handlerRaises);
    forall u ensures UrlFound(u) in ev <==> FirstUrl(ms) == Some(u) {
      if UrlFound(u) in ev {
        var j :| 0 <= j < |ev| && ev[j] == UrlFound(u);
        assert j < |s| && s[j] == UrlFound(u);
      }
    }
  }

  /** The URL handler is called at most once, and then first, with the capture of the first
      stripped line that matches the URL pattern; registration lines are acted on only after it. */
  lemma UrlHandlerCalledOnce(launched: bool, lines: seq<string>, handlerRaises: bool)
    ensures var ev := TunnelRun(launched, lines, handlerRaises);
      (forall u :: UrlFound(u) in ev <==> launched && FirstUrl(MatchLines(lines)) == Some(u)) &&
      (forall j :: 0 <= j < |ev| && ev[j].UrlFound? ==> j == 0) &&
      (forall j :: 0 <= j < |ev| && ev[j].Ready? ==> 0 < j && ev[0].UrlFound?)
  {
    if launched {
      LaunchedRunShape(MatchLines(lines), handlerRaises);
      assert TunnelRun(launched, lines, handlerRaises)
        == Scan(MatchLines(lines), false, handlerRaises) + [Killed, Exited];
    } else {
      assert TunnelRun(launched, lines, handlerRaises) == [Exited];
    }
  }

  /** The URL `FirstUrl` reports is the capture of the first line whose stripped form matches the
      URL pattern; every earlier line fails to match. */
  lemma FirstUrlIsFirstMatch(lines: seq<string>)
    ensures var k := FirstUrlAt(MatchLines(lines));
      (forall j :: 0 <= j < k ==> MatchUrlLine(Strip(lines[j])).None?) &&
      (k < |lines| ==> FirstUrl(MatchLines(lines)) == MatchUrlLine(Strip(lines[k])) &&
                       MatchUrlLine(Strip(lines[k])).Some?) &&
      (k == |lines| ==> FirstUrl(MatchLines(lines)).None?)
  {
  }

  /** The reading loop itself only reports URLs and registrations. */
  lemma {:induction false} ScanReportsOnly(ms: seq<LineMatch>, foundUrl: bool, handlerRaises: bool)
    ensures forall j :: 0 <= j < |Scan(ms, foundUrl, handlerRaises)| ==>
      Scan(ms, foundUrl, handlerRaises)[j].UrlFound? || Scan(ms, foundUrl, handlerRaises)[j].Ready?
  {
    if ms != [] {
      ScanReportsOnly(ms[1..], false, handlerRaises);
      ScanReportsOnly(ms[1..], true, handlerRaises);
    }
  }

  /** The exit handler runs exactly once, as the last event, and the process is killed exactly
      when it was launched. */
  lemma ExitHandlerRunsOnce(launched: bool, lines: seq<string>, handlerRaises: bool)
    ensures var ev := TunnelRun(launched, lines, handlerRaises);
      |ev| > 0 && ev[|ev| - 1] == Exited &&
      (forall j :: 0 <= j < |ev| - 1 ==> ev[j] != Exited) &&
      (Killed in ev <==> launched)
  {
    if launched {
      var s := Scan(MatchLines(lines), false, handlerRaises);
      ScanReportsOnly(MatchLines(lines), false, handlerRaises);
      assert TunnelRun(launched, lines, handlerRaises) == s + [Killed, Exited];
    } else {
      assert TunnelRun(launched, lines, handlerRaises) == [Exited];
    }
  }
}
