/** Configuration checks and naming from b2listen/b2listen.py: the reserved session prefix,
    `validate_signing_secret`, `parse_custom_headers` and the session label built by `listen`. */
module Config {
  import opened Wrappers
  import opened Text

  /** Reserved prefix of every rule name and tunnel label this tool creates. */
  const EventNotificationRulePrefix := "--autocreated-b2listen-"
  const SigningSecretLength := 32

  /** How an operation of the tool ends when it does not return normally: `exit_with_error`
      logs a critical message and exits; an exception nobody catches propagates. */
  datatype Error = ExitWithError(message: string) | Uncaught(message: string)

  /** One entry of a rule's `customHeaders` list. */
  datatype Header = Header(name: string, value: string)

  /** A name in the reserved namespace: a rule or label left by some session of this tool. */
  predicate IsSessionName(name: string) {
    StartsWith(name, EventNotificationRulePrefix)
  }

  /** Python's `s.isalnum()` restricted to ASCII: non-empty and every character a letter or digit. */
  predicate IsAlnum(s: string) {
    |s| > 0 && forall i :: 0 <= i < |s| ==> IsAsciiAlnum(s[i])
  }

  /** `validate_signing_secret`: the secret itself when it is 32 alphanumeric characters,
      otherwise the argument-type error. */
  function ValidateSigningSecret(s: string): (r: Result<string, string>)
    ensures r.Success? <==> |s| == 32 && forall i :: 0 <= i < |s| ==> IsAsciiAlnum(s[i])
    ensures r.Success? ==> r.value == s
    ensures r.Failure? ==> r.error == "Signing secret must be 32 alphanumeric characters"
  {
    if |s| == SigningSecretLength && IsAlnum(s) then Success(s)
    else Failure("Signing secret must be 32 alphanumeric characters")
  }

  /** One `Name:value` entry: split at the first colon, both parts stripped; `None` when the
      entry has no colon. */
  function ParseHeader(entry: string): (r: Option<Header>)
    ensures r.None? <==> ':' !in entry
    ensures r.Some? ==> Trimmed(r.value.name) && Trimmed(r.value.value) && ':' !in r.value.name
  {
    match SplitOnce(entry, ':')
    case None => None
    case Some((name, value)) =>
      assert ':' !in Strip(name) by { StripIsSlice(name); }
      Some(Header(Strip(name), Strip(value)))
  }

  /** Every character of `Strip(s)` occurs in `s`. */
  lemma StripIsSlice(s: string)
    ensures forall c :: c in Strip(s) ==> c in s
  {
    var t := s[LeadingSpaces(s)..];
    forall c | c in Strip(s) ensures c in s {
      var k :| 0 <= k < |Strip(s)| && Strip(s)[k] == c;
      assert Strip(s)[k] == t[k] == s[LeadingSpaces(s) + k];
    }
  }

  /** A header written as `name:value`, with any whitespace around either part, parses back to
      itself: the name may not contain a colon, the value may. */
  lemma ParseHeaderInverts(h: Header, pad1: string, pad2: string, pad3: string, pad4: string)
    requires ':' !in h.name && Trimmed(h.name) && Trimmed(h.value)
    requires AllSpace(pad1) && AllSpace(pad2) && AllSpace(pad3) && AllSpace(pad4)
    ensures ParseHeader(pad1 + h.name + pad2 + ":" + pad3 + h.value + pad4) == Some(h)
  {
    var before := pad1 + h.name + pad2;
    var after := pad3 + h.value + pad4;
    assert ':' !in before by {
      forall i | 0 <= i < |before| ensures before[i] != ':' {
        if i < |pad1| { assert before[i] == pad1[i]; }
        else if i < |pad1| + |h.name| { assert before[i] == h.name[i - |pad1|]; }
        else { assert before[i] == pad2[i - |pad1| - |h.name|]; }
      }
    }
    assert pad1 + h.name + pad2 + ":" + pad3 + h.value + pad4 == before + [':'] + after;
    SplitOnceJoin(before, ':', after);
    StripPadded(pad1, h.name, pad2);
    StripPadded(pad3, h.value, pad4);
  }

  /** Position of the first entry without a colon; `|args|` when every entry has one. */
  function FirstBadAt(args: seq<string>): (k: nat)
    ensures k <= |args|
    ensures forall j :: 0 <= j < k ==> ':' in args[j]
    ensures k < |args| ==> ':' !in args[k]
  {
    if args == [] || ':' !in args[0] then 0 else 1 + FirstBadAt(args[1..])
  }

  /** What `parse_custom_headers` returns or exits with: no headers for an absent or empty
      argument list; the error naming the first entry without a colon; otherwise the parsed
      header of each entry, in order. */
  function ParsedHeaders(entries: Option<seq<string>>): Result<Option<seq<Header>>, Error> {
    if entries.None? || entries.value == [] then Success(None)
    else
      var args := entries.value;
      var k := FirstBadAt(args);
      if k < |args| then Failure(ExitWithError("Bad custom header: " + args[k]))
      else Success(Some(seq(|args|, i requires 0 <= i < |args| => ParseHeader(args[i]).value)))
  }

  /** `parse_custom_headers`: no headers for an absent or empty argument list; otherwise one
      header per entry, in order, or the error for the first entry without a colon. */
  method ParseCustomHeaders(entries: Option<seq<string>>) returns (r: Result<Option<seq<Header>>, Error>)
    ensures r == ParsedHeaders(entries)
    ensures entries.None? || entries.value == [] ==> r == Success(None)
    ensures entries.Some? && entries.value != [] ==>
      (r.Success? <==> forall i :: 0 <= i < |entries.value| ==> ':' in entries.value[i])
    ensures r.Success? && entries.Some? && entries.value != [] ==>
      r.value.Some? && |r.value.value| == |entries.value| &&
      forall i :: 0 <= i < |entries.value| ==> Some(r.value.value[i]) == ParseHeader(entries.value[i])
    ensures r.Failure? ==> entries.Some?
    ensures r.Failure? ==>
      exists i :: (0 <= i < |entries.value| && ':' !in entries.value[i] &&
                   r.error == ExitWithError("Bad custom header: " + entries.value[i]) &&
                   forall j :: 0 <= j < i ==> ':' in entries.value[j])
  {
    if entries.None? || entries.value == [] {
      return Success(None);
    }
    var args := entries.value;
    var headers: seq<Header> := [];
    var i := 0;
    while i < |args|
      invariant 0 <= i <= |args| && |headers| == i
      invariant forall j :: 0 <= j < i ==> Some(headers[j]) == ParseHeader(args[j])
    {
      var header := ParseHeader(args[i]);
      if header.None? {
        return Failure(ExitWithError("Bad custom header: " + args[i]));
      }
      ghost var prev := headers;
      headers := headers + [header.value];
      forall j | 0 <= j < i + 1 ensures Some(headers[j]) == ParseHeader(args[j]) {
        if j < i {
          assert headers[j] == prev[j];
        }
      }
      i := i + 1;
    }
    assert headers == ParsedHeaders(entries).value.value;
    r := Success(Some(headers));
  }

  /** The session label of `listen`: the reserved prefix, then the ISO timestamp with every `:`,
      `T` and `.` replaced by `-`, then `--`. The clock reading is passed in. */
  function SessionLabel(isoTimestamp: string): (r: string)
    ensures IsSessionName(r)
    ensures |r| == |EventNotificationRulePrefix| + |isoTimestamp| + 2
    ensures r[|r| - 2..] == "--"
    ensures forall i :: 0 <= i < |isoTimestamp| ==>
      var c := r[|EventNotificationRulePrefix| + i];
      c != ':' && c != 'T' && c != '.' &&
      (c == isoTimestamp[i] || (c == '-' && isoTimestamp[i] in ":T."))
  {
    var stamp := ReplaceChar(ReplaceChar(ReplaceChar(isoTimestamp, ':', '-'), 'T', '-'), '.', '-');
    EventNotificationRulePrefix + stamp + "--"
  }
}
