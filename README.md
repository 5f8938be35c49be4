# b2listen, modelled in Dafny

b2listen delivers a bucket's event notifications to a web service on the local machine. It starts
a `cloudflared` tunnel and reads the tunnel's diagnostic output until it reports a public URL.
It then points a notification rule at that URL. That rule is either an existing one, whose old
URL is put back at the end, or a temporary one named with a *session label*, which is deleted at
the end. Every temporary rule name and tunnel label starts with the reserved prefix
`--autocreated-b2listen-`. A later `cleanup` command therefore removes leftovers by that prefix:
it drops rules from the bucket and kills orphan tunnel processes. A separate `Subscription`
object keeps a subscription with an event broker alive: on each wake it checks the subscription
and resubscribes when it has lapsed and the tunnel still answers.

The model covers the following:

- **Bucket** (`Rules.Bucket`): a class holding the bucket's rule list and a count of writes.
  Each write takes the store's verdict as an input: accepted, or rejected with a `BadRequest`
  message.
- **Rule operations**: `create_rule`, `modify_rule`, `delete_rule` and `cleanup_rules`. Each is
  a method that reads the list, changes it and writes it back. Each is proved against a pure
  description of the list it writes.
- **Helpers**: header parsing, secret validation, the session label, the tunnel command line and
  the orphan-process test.
- **Tunnel output scanner** of `run_cloudflared`:
  - a hand-written recogniser for the URL line pattern, proved complete and sound against a
    generator of well-formed URL lines;
  - a recogniser for the tunnel-registration pattern, proved complete and sound against that
    line's shape;
  - the reading loop, proved against a function that lists the events it causes.
- **The two session kinds of `listen`**, built from the rule operations.
- **The `Subscription` class**. HTTP responses are inputs; each request sent is recorded.
  The HMAC is a function parameter.

Modules:

- `Wrappers`: `Option` and `Result`.
- `Text`: strip, split and replace.
- `Seqs`: filtering.
- `Config`, `Rules`, `Processes` and `Tunnel` model b2listen/b2listen.py.
- `Session` models `listen`.
- `Signer` and `Subscriptions` model b2listen/subscription.py.

Where the code and its documented intent differ, the model follows the code:

- **The reading loop never ends on its own.** At end of output `readline()` keeps returning an
  empty line. The run is modelled as a finite list of lines followed by an interrupt.
- **The exit handler still runs when the tunnel process fails to start.** The `finally` clause
  calls it.
- **Orphan tunnels are matched by prefix.** An argument must *start with* the reserved prefix;
  containing it is not enough.
- **HTTP errors are statuses 400 to 599.** `raise_for_status()` raises on these and `ok` is false
  for them. This is not the same as "not 2xx".
- **A failed unsubscribe in `stop` raises.** The exception is not just logged.
- **The two write-error messages differ.** A failed write in `modify_rule` reports
  "Error setting event notification rule " followed by the message, with no colon.
  `create_rule` uses ": ".

## Model

| member | source | states |
|---|---|---|
| Config.ValidateSigningSecret | b2listen/b2listen.py:164-167 | accepts exactly the strings of 32 (ASCII) alphanumeric characters and returns them unchanged; otherwise the fixed argument-type message |
| Config.ParseHeader | b2listen/b2listen.py:378-381 | no header exactly when the entry has no `:`; otherwise name and value are stripped and the name holds no `:` (so the split is at the first colon) |
| Config.ParseHeaderInverts | b2listen/b2listen.py:378-381 | any colon-free trimmed name and trimmed value, padded with whitespace around both and joined by `:`, parse back to that header: values may contain `:` |
| Config.FirstBadAt | b2listen/b2listen.py:376-379 | the position found is that of the first entry without a colon, every earlier entry having one; the length of the list when all have one |
| Config.ParseCustomHeaders | b2listen/b2listen.py:367-382 | the loop returns what the specification of the whole parse gives; absent or empty argument gives no headers; success iff every entry has a colon, with one header per entry in input order; otherwise the "Bad custom header: " error for the first entry without one |
| Config.SessionLabel | b2listen/b2listen.py:337-341 | the label starts with the reserved prefix, ends with `--`, has the timestamp's length plus both, and each timestamp character is kept or, if it was `:`, `T` or `.`, becomes `-` |
| Text.SplitOnceJoin | b2listen/b2listen.py:378 | splitting `a + sep + b` at the first `sep`, when `a` has no `sep`, gives back `a` and `b` |
| Text.StripPadded | b2listen/b2listen.py:381 | stripping a string with no whitespace at either end, padded with whitespace, gives the string back |
| Processes.TunnelCommand | b2listen/b2listen.py:273-278 | the tunnel's argument vector has nine elements, starts with the command and ends with the label |
| Processes.OrphanTunnelIff | b2listen/b2listen.py:397-399 | the length test on the filtered list holds exactly when some argument starts with the reserved prefix (and the first element is the command) |
| Processes.TunnelCommandIsOrphan | b2listen/b2listen.py:273-278 | a tunnel started with any session label is one the orphan test matches |
| Processes.CleanupProcesses | b2listen/b2listen.py:385-404 | kills exactly the readable processes whose command line passes the orphan test, in process order, skipping unreadable ones |
| Rules.Bucket.constructor | b2listen/b2listen.py:101 | a bucket starts with the given rule list and no writes |
| Rules.Bucket.SetNotificationRules | b2listen/b2listen.py:108 | every call counts as a write; the list is replaced only when the store accepts it |
| Rules.NewRule | b2listen/b2listen.py:85-96 | the new rule is enabled, has the given name, and is a webhook to the given URL carrying the given custom headers |
| Rules.HasSessionRule | b2listen/b2listen.py:110-115 | the search finds a rule iff some rule's name starts with the reserved prefix |
| Rules.CreateRule | b2listen/b2listen.py:82-123 | a bad header exits with the error naming the first entry without a colon, before any write; otherwise one write of the old rules in order followed by the new rule, which carries the parsed headers; on rejection the list is unchanged and the error is the leaked-rule diagnosis exactly when the message starts with the overlap text and an old rule has the reserved prefix, else the raw message |
| Rules.FindRule | b2listen/b2listen.py:131 | the index found is that of the first rule with exactly that name; none only when no rule has it |
| Rules.FindRuleSameNames | b2listen/b2listen.py:131 | the search depends only on the names, so it finds the same index in a list that differs only in URLs |
| Rules.RetargetChangesOnlyUrl | b2listen/b2listen.py:131-135 | the search fails iff no rule has the name; otherwise only the first rule with that name changes, only in its URL, which becomes the new one, and its old URL is returned |
| Rules.RetargetRestores | b2listen/b2listen.py:349-355 | re-pointing the rule at the URL that `modify_rule` returned gives back the original list, and hands back the URL that was set |
| Rules.ModifyRule | b2listen/b2listen.py:126-146 | a missing rule fails with "Cannot find rule" and no write; otherwise one write of the list with only the first matching rule's URL changed, returning the previous URL, or the unchanged list and an error when rejected |
| Rules.DeleteRuleRemovesExactly | b2listen/b2listen.py:155-157 | the list without `name` holds all and only the rules not named `name`, in order; it has the original length iff no rule has the name, and then equals the original |
| Rules.DeleteRule | b2listen/b2listen.py:149-161 | when no rule matches, only a warning and no write; otherwise one write of the list without the matching rules; a rejection propagates and leaves the list |
| Rules.PartitionSessionRules | b2listen/b2listen.py:412-418 | the loop keeps exactly the rules without the reserved prefix, in order, and collects exactly the names of the rules with it, in list order |
| Rules.SessionRuleNamesExactly | b2listen/b2listen.py:414-416 | a name is among the dropped names iff it has the reserved prefix and some rule in the list bears it |
| Rules.CleanupRulesKeepsExactly | b2listen/b2listen.py:409-422 | cleanup keeps all and only the rules without the prefix; a second cleanup changes nothing; nothing is dropped iff no rule has the prefix |
| Rules.CleanupRules | b2listen/b2listen.py:409-422 | writes the kept rules only when something was dropped, and on success returns the names of the dropped rules in list order; no rule dropped means no write and an empty result; a rejected write propagates and leaves the list |
| Rules.SessionRuleIsCleanedUp | b2listen/b2listen.py:341 | a rule named with any session label is removed by cleanup |
| Seqs.FilterAppend | b2listen/b2listen.py:155 | filtering distributes over concatenation |
| Seqs.FilterKeepsAll | b2listen/b2listen.py:156 | a filter keeps the length iff it keeps every element, and then changes nothing |
| Seqs.FilterIdempotent | b2listen/b2listen.py:409-422 | filtering twice by the same test equals filtering once |
| Tunnel.MatchUrlLineComplete | b2listen/b2listen.py:290 | every well-formed URL line (timestamp, whitespace, `INF`, whitespace, `\|`, whitespace, `https://` and a host, whitespace, `\|`) is recognised, capturing `https://` and the host |
| Tunnel.MatchUrlLineSound | b2listen/b2listen.py:290 | every recognised line is such a well-formed line, and the capture is its URL |
| Tunnel.MatchRegisteredLine | b2listen/b2listen.py:291 | a recognised registration line is an INF prefix followed by the capture, which starts with "Registered tunnel connection ", is longer than it and holds no newline |
| Tunnel.MatchRegisteredLineComplete | b2listen/b2listen.py:291 | every line made of an INF prefix, "Registered tunnel connection " and at least one more character, with no newline, is recognised, and the capture is everything after the prefix |
| Tunnel.FirstUrlAt | b2listen/b2listen.py:295-298 | the position found is the first line whose URL pattern matched, with no earlier match |
| Tunnel.FirstUrlIsFirstMatch | b2listen/b2listen.py:293-298 | the URL the scanner reports is the capture of the first stripped line matching the URL pattern, or none when no line matches |
| Tunnel.RunCloudflared | b2listen/b2listen.py:279-318 | the loop's events are exactly the specified run: the matched URL once, then registration lines, then the kill when launched, then the exit handler |
| Tunnel.ScanAfterUrl | b2listen/b2listen.py:302-307 | once the URL is found, the loop only reports registration lines |
| Tunnel.ScanBeforeUrl | b2listen/b2listen.py:295-307 | the loop reports nothing iff no line matches the URL pattern; otherwise its first event is the first URL and every later one a registration line |
| Tunnel.UrlHandlerCalledOnce | b2listen/b2listen.py:292-307 | the URL handler is called at most once, first, with the first matching URL and only when launched; registration lines are acted on only after it |
| Tunnel.ExitHandlerRunsOnce | b2listen/b2listen.py:313-318 | the exit handler runs exactly once and last; the process is killed exactly when it was launched |
| Session.UrlHandlerStep | b2listen/b2listen.py:349-351 | the URL handler re-points the rule, keeping its previous URL in `old_url`, exactly when it is called, the rule exists and the write is accepted; otherwise the list is unchanged and `old_url` stays None |
| Session.AsWrittenNullsUrl | b2listen/b2listen.py:347-355 | as written, a session whose URL handler did not re-point the rule ends with that rule's URL set to null, changing any rule that had a URL |
| Session.AsWrittenNullsUrlExample | b2listen/b2listen.py:347-355 | a one-rule session with no tunnel URL leaves the rule pointing at null |
| Session.ExistingRuleSessionRestores | b2listen/b2listen.py:344-355 | with the restore guarded, the session leaves the rule list it found whenever the restoring write is accepted; otherwise the rule stays pointed at the tunnel |
| Session.GuardOnlyMattersWithoutUrl | b2listen/b2listen.py:344-355 | when the URL handler did re-point the rule, the guarded and unguarded exit handlers leave the same list |
| Session.ListenWithRuleAsWritten | b2listen/b2listen.py:344-355 | the handlers as written leave the bucket as the as-written session function says |
| Session.ListenWithRule | b2listen/b2listen.py:344-355 | the guarded handlers leave the bucket as the corrected session function says |
| Session.TemporaryRuleRemoved | b2listen/b2listen.py:358-362 | deleting by a fresh name after appending one rule with that name gives back the original list |
| Session.ListenWithTemporaryRule | b2listen/b2listen.py:356-364 | an accepted delete leaves exactly the rules not named with the label (the original list when the label is fresh); a rejected delete after a successful create leaves the new rule at the end of the list |
| Signer.HexOf | b2listen/subscription.py:40-44 | the digest's text has two lowercase hexadecimal digits per byte |
| Signer.UnHexOfHex | b2listen/subscription.py:40-44 | reading the digits back gives the digest |
| Signer.LowerOfHex | b2listen/subscription.py:44 | lowercasing the digest's text changes nothing |
| Signer.Signature | b2listen/subscription.py:36-44 | the signature is "v1=" and then twice as many characters as digest bytes, from which the digest of (secret, body) is read back; any body, including the empty one |
| Subscriptions.InstanceUrl | b2listen/subscription.py:73 | the instance URL starts with the subscribe URL and a slash |
| Subscriptions.InstanceUrlInjective | b2listen/subscription.py:73 | two ids give the same instance URL iff they render the same |
| Subscriptions.CheckAndUnsubscribeAgree | b2listen/subscription.py:70-73 | the liveness check and `unsubscribe` address the subscribe URL plus `/` plus the id, with the same signature of the empty body |
| Subscriptions.SubscribeIsNotProbe | b2listen/subscription.py:50-51 | the subscribe and probe requests differ, since their bodies differ |
| Subscriptions.SubscribeResult | b2listen/subscription.py:60-62 | a subscribe succeeds iff the status is not an error and the answer has an id, which then becomes the id; on failure the id is kept |
| Subscriptions.ResubscribesIff | b2listen/subscription.py:115-122 | a wake resubscribes iff the subscription lapsed and the probe answered, probes iff it lapsed, and otherwise keeps the id and raises nothing |
| Subscriptions.KeepsResubscribing | b2listen/subscription.py:115-122 | while every wake finds the subscription lapsed and the tunnel up, each wake resubscribes once, and the id is the last one the broker returned |
| Subscriptions.WaitsForTunnel | b2listen/subscription.py:120-122 | while the tunnel stays silent, nothing is resubscribed or raised and the id stays |
| Subscriptions.LiveSubscriptionOnlyChecked | b2listen/subscription.py:116 | while the subscription stays live, each wake sends only the liveness check |
| Subscriptions.Subscription.constructor | b2listen/subscription.py:20-30 | the fields are set, there is no id, no stop and no request yet |
| Subscriptions.Subscription.Create | b2listen/subscription.py:20-34 | construction sends exactly one subscribe; it yields an object iff that subscribe succeeds, with the broker's id |
| Subscriptions.Subscription.Subscribe | b2listen/subscription.py:46-63 | one signed post to the subscribe URL; id and raised exception as the result function says |
| Subscriptions.Subscription.CheckSubscription | b2listen/subscription.py:65-77 | one signed head request for the current id; true iff the status is not an error; nothing else changes |
| Subscriptions.Subscription.Unsubscribe | b2listen/subscription.py:79-91 | one signed delete for the current id; the id is cleared only on success, otherwise it raises and keeps the id |
| Subscriptions.Subscription.ProbeTunnelUrl | b2listen/subscription.py:93-108 | one signed post of the empty event list to the tunnel; true iff the status is not an error |
| Subscriptions.Subscription.WakeOnce | b2listen/subscription.py:116-122 | one wake sends what the wake function lists and leaves its id and exception |
| Subscriptions.Subscription.Run | b2listen/subscription.py:110-122 | once stopped, nothing happens; otherwise the id, requests and exception are those of the specified run over the wakes |
| Subscriptions.Subscription.Stop | b2listen/subscription.py:124-127 | sets the stop flag, then unsubscribes whatever the id is |

## Left out

- The B2 SDK: authorisation, bucket lookup and the check that the key may use the bucket. The
  rule list is read and written directly, and the store's verdict on each write is an input.
- `argparse` and `parse_args`, including the check that rejects `--rule-name` together with
  temporary-rule options. Also left out: environment variables and `.env` loading, `in_docker`,
  logging levels, and `warnings` filtering. Options reach the model as values.
- `exit_with_error` and its stack-trace logging. It becomes an `ExitWithError` result; an
  exception nobody catches becomes `Uncaught`.
- `datetime.now()`. The ISO timestamp is an input, and its uniqueness, which keeps a session
  label fresh, is a hypothesis of `Session.TemporaryRuleRemoved`.
- Process handling: `subprocess.Popen`, `process.kill` and `psutil`. Whether the tunnel started
  is an input, and so is each process's readable command line.
- The `KeyboardInterrupt` that ends a session. A run is the finite list of lines read before it.
- The busy loop on an empty `readline()` after the tunnel exits. It produces no events, so it is
  not represented.
- `b2listen/server.py` and `server.py`: request-logging HTTP servers running on threads.
  `--run-server` only decides the service URL, which is an input.
- Threads and `Event.wait` timing. `Subscription.Run` runs in sequence over a finite list of
  wakes. A `stop` that races with a wake in progress is not modelled. `interval_seconds` plays no
  part.
- HTTP transport. Network exceptions from `requests` are not modelled; the code does not handle
  them. Decoding the broker's JSON reply is reduced to "carries an id or not", and the id is
  taken as the text it renders to.
- HMAC-SHA256 and UTF-8 encoding. Both live in the `Mac` parameter of `Signer.Signature`.
- Config.ValidateSigningSecret: Python's `isalnum` also accepts non-ASCII letters and digits;
  the model accepts ASCII ones only.
- Tunnel.MatchUrlLine: Python's `\d` also matches non-ASCII digits; the model matches ASCII
  digits only. `\s` is modelled as the character set of `str.isspace`.
- Tunnel.MatchUrlLineComplete: covers timestamps written with ASCII digits only. A line whose
  timestamp uses other Unicode digits matches in Python but is not recognised by the model.
- Tunnel.MatchRegisteredLineComplete: covers timestamps written with ASCII digits only, for the
  same reason: it shares the timestamp prefix with the URL pattern.
- Signer.Lower: `str.lower` is modelled on ASCII letters only, which covers the hexadecimal
  digest it is applied to.
- Subscriptions.SubscribeBody: the escaping `json.dumps` applies to quotes, backslashes and
  non-ASCII characters in the tunnel URL is not modelled.

## Findings

| source | as written | input that shows it | evidently intended | confidence | as-written member | corrected member |
|---|---|---|---|---|---|---|
| b2listen/b2listen.py:347-355 | the exit handler always calls `modify_rule(b2bucket, old_url, rule_name)`, and `old_url` is still `None` when the URL handler never re-pointed the rule | an existing rule with URL `https://example.com`; the tunnel is interrupted before it prints a URL (or the URL handler's write is rejected); the exit handler's write is accepted. The rule is left with a null URL | restore the old URL only after the URL handler changed the rule, so the session leaves the rule list as it found it | not executed | Session.AsWrittenNullsUrl | Session.ExistingRuleSessionRestores |
