/** The notification-rule operations of b2listen/b2listen.py: `create_rule`, `modify_rule`,
    `delete_rule` and `cleanup_rules`. Each reads the bucket's whole rule list, transforms it in
    memory and writes the whole list back. */
module Rules {
  import opened Wrappers
  import opened Text
  import opened Seqs
  import opened Config

  /** Leading words of the rejection the store gives when two rules' prefixes overlap. */
  const OverlapRejection := "More than one event notification rule has overlapping prefixes"

  const LeakedRuleMessage :=
    "Error creating event notification rule - an overlapping rule already exists.\n\n"
    + "Either another instance of this app is running, or the app was terminated and "
    + "failed to clean up. You can run the app again with the \"cleanup\" command and "
    + "your bucket name.\n"

  /** A rule's `targetConfiguration`. `url` is `None` only when a JSON null was written there. */
  datatype Target = Target(
    targetType: string,
    url: Option<string>,
    customHeaders: Option<seq<Header>>,
    hmacSha256SigningSecret: Option<string>)

  datatype Rule = Rule(
    eventTypes: seq<string>,
    isEnabled: bool,
    name: string,
    objectNamePrefix: string,
    targetConfiguration: Target)

  /** The command-line options `create_rule` reads to build a temporary rule. */
  datatype RuleOptions = RuleOptions(
    eventTypes: seq<string>,
    prefix: string,
    customHeaders: Option<seq<string>>,
    signingSecret: Option<string>)

  /** The bucket's rule list as the store holds it, and the number of times the list was
      written (`set_notification_rules` called), accepted or not. */
  class Bucket {
    var rules: seq<Rule>
    var writes: nat

    constructor (rules: seq<Rule>)
      ensures this.rules == rules && writes == 0
    {
      this.rules := rules;
      writes := 0;
    }

    /** `set_notification_rules`: replaces the whole list unless the store rejects the write;
        `rejection` is the store's `BadRequest` message, if it sends one. */
    method SetNotificationRules(newRules: seq<Rule>, rejection: Option<string>)
      modifies this
      ensures writes == old(writes) + 1
      ensures rules == if rejection.None? then newRules else old(rules)
    {
      writes := writes + 1;
      if rejection.None? {
        rules := newRules;
      }
    }
  }

  /** The rule `create_rule` builds: enabled, a webhook to `url`, named `name`. */
  function NewRule(url: string, name: string, options: RuleOptions, headers: Option<seq<Header>>): (r: Rule)
    ensures r.isEnabled && r.name == name && r.targetConfiguration.targetType == "webhook"
    ensures r.targetConfiguration.url == Some(url) && r.targetConfiguration.customHeaders == headers
  {
    Rule(options.eventTypes, true, name, options.prefix,
         Target("webhook", Some(url), headers, options.signingSecret))
  }

  /** The diagnosis `create_rule` reports when the store rejects the new list with `message`. */
  function CreateRuleError(oldRules: seq<Rule>, message: string): string {
    if StartsWith(message, OverlapRejection) && exists i :: 0 <= i < |oldRules| && IsSessionName(oldRules[i].name)
    then LeakedRuleMessage
    else "Error setting event notification rule: " + message
  }

  /** The `found` loop of `create_rule`: whether some rule's name carries the reserved prefix. */
  method HasSessionRule(rules: seq<Rule>) returns (found: bool)
    ensures found <==> exists i :: 0 <= i < |rules| && IsSessionName(rules[i].name)
  {
    found := false;
    var i := 0;
    while i < |rules|
      invariant 0 <= i <= |rules|
      invariant forall j :: 0 <= j < i ==> !IsSessionName(rules[j].name)
    {
      if IsSessionName(rules[i].name) {
        found := true;
        break;
      }
      i := i + 1;
    }
  }

  /** `create_rule`: parse the custom headers, then write the old rules followed by the new one,
      which carries the parsed headers. A bad header exits, naming the first entry without a colon,
      before the bucket is touched; a rejected write exits with the leaked-rule
      diagnosis when the rejection is an overlap and some old rule has the reserved prefix, and with
      the store's own message otherwise. */
  method CreateRule(b: Bucket, url: string, name: string, options: RuleOptions, rejection: Option<string>)
    returns (r: Result<(), Error>)
    modifies b
    ensures ParseHeadersFails(options.customHeaders) <==> ParsedHeaders(options.customHeaders).Failure?
    ensures ParseHeadersFails(options.customHeaders) ==>
      r == Failure(ParsedHeaders(options.customHeaders).error) &&
      b.rules == old(b.rules) && b.writes == old(b.writes)
    ensures !ParseHeadersFails(options.customHeaders) ==> b.writes == old(b.writes) + 1
    ensures !ParseHeadersFails(options.customHeaders) && rejection.None? ==>
      r == Success(()) &&
      b.rules == old(b.rules) + [NewRule(url, name, options, ParsedHeaders(options.customHeaders).value)]
    ensures !ParseHeadersFails(options.customHeaders) && rejection.Some? ==>
      b.rules == old(b.rules) &&
      r == Failure(ExitWithError(CreateRuleError(old(b.rules), rejection.value)))
  {
    var headers := ParseCustomHeaders(options.customHeaders);
    if headers.Failure? {
      return Failure(headers.error);
    }
    var newRule := NewRule(url, name, options, headers.value);
    var oldRules := b.rules;
    b.SetNotificationRules(oldRules + [newRule], rejection);
    if rejection.None? {
      return Success(());
    }
    var found := false;
    if StartsWith(rejection.value, OverlapRejection) {
      found := HasSessionRule(oldRules);
    }
    if found {
      r := Failure(ExitWithError(LeakedRuleMessage));
    } else {
      r := Failure(ExitWithError("Error setting event notification rule: " + rejection.value));
    }
  }

  /** Whether `parse_custom_headers` exits on these entries: some entry has no colon. */
  predicate ParseHeadersFails(entries: Option<seq<string>>) {
    entries.Some? && exists i :: 0 <= i < |entries.value| && ':' !in entries.value[i]
  }

  /** Index of the first rule named exactly `name`: the `next(...)` search of `modify_rule`. */
  function FindRule(rules: seq<Rule>, name: string): (r: Option<nat>)
    ensures r.Some? ==> r.value < |rules| && rules[r.value].name == name
    ensures r.Some? ==> forall j :: 0 <= j < r.value ==> rules[j].name != name
    ensures r.None? ==> forall j :: 0 <= j < |rules| ==> rules[j].name != name
  {
    if rules == [] then None
    else if rules[0].name == name then Some(0)
    else match FindRule(rules[1..], name)
      case None => None
      case Some(k) => Some(k + 1)
  }

  function WithUrl(rule: Rule, url: Option<string>): Rule {
    rule.(targetConfiguration := rule.targetConfiguration.(url := url))
  }

  /** Two rules that agree on every field but the target URL. */
  predicate SameButUrl(a: Rule, b: Rule) {
    WithUrl(a, None) == WithUrl(b, None)
  }

  /** What `modify_rule` computes before it writes: the list with the first rule named `name`
      pointed at `url`, and that rule's previous URL; `None` when no rule has that name. */
  function Retarget(rules: seq<Rule>, name: string, url: Option<string>): Option<(seq<Rule>, Option<string>)> {
    match FindRule(rules, name)
    case None => None
    case Some(i) => Some((rules[i := WithUrl(rules[i], url)], rules[i].targetConfiguration.url))
  }

  /** `modify_rule` changes the target URL of the first rule named `name` and nothing else, and
      returns the URL that rule had; it fails only when no rule has that name. */
  lemma RetargetChangesOnlyUrl(rules: seq<Rule>, name: string, url: Option<string>)
    ensures Retarget(rules, name, url).None? <==> forall j :: 0 <= j < |rules| ==> rules[j].name != name
    ensures Retarget(rules, name, url).Some? ==>
      var (written, previous) := Retarget(rules, name, url).value;
      |written| == |rules| &&
      (forall j :: 0 <= j < |rules| ==> SameButUrl(written[j], rules[j])) &&
      exists i :: 0 <= i < |rules| && rules[i].name == name &&
        (forall j :: 0 <= j < i ==> rules[j].name != name) &&
        written[i].targetConfiguration.url == url && previous == rules[i].targetConfiguration.url &&
        (forall j :: 0 <= j < |rules| && j != i ==> written[j] == rules[j])
  {
  }

  /** Pointing the rule back at the URL `modify_rule` returned restores the original list and
      hands back the URL that was set: what the exit handler of `listen` relies on. */
  lemma RetargetRestores(rules: seq<Rule>, name: string, url: Option<string>)
    requires Retarget(rules, name, url).Some?
    ensures var (written, previous) := Retarget(rules, name, url).value;
      Retarget(written, name, previous) == Some((rules, url))
  {
    var i := FindRule(rules, name).value;
    var (written, previous) := Retarget(rules, name, url).value;
    FindRuleSameNames(rules, written, name);
    assert written[i := WithUrl(written[i], previous)] == rules;
  }

  /** The search only looks at names, so it finds the same index in a list with the same names. */
  lemma {:induction false} FindRuleSameNames(a: seq<Rule>, b: seq<Rule>, name: string)
    requires |a| == |b| && forall j :: 0 <= j < |a| ==> a[j].name == b[j].name
    ensures FindRule(a, name) == FindRule(b, name)
  {
    if a != [] {
      FindRuleSameNames(a[1..], b[1..], name);
    }
  }

  /** `modify_rule`: point the first rule named `name` at `url`, write the list and return the
      previous URL. No such rule exits without a write; a rejected write exits. */
  method ModifyRule(b: Bucket, url: Option<string>, name: string, rejection: Option<string>)
    returns (r: Result<Option<string>, Error>)
    modifies b
    ensures Retarget(old(b.rules), name, url).None? ==>
      r == Failure(ExitWithError("Cannot find rule \"" + name + "\"")) &&
      b.rules == old(b.rules) && b.writes == old(b.writes)
    ensures Retarget(old(b.rules), name, url).Some? ==>
      var (written, previous) := Retarget(old(b.rules), name, url).value;
      b.writes == old(b.writes) + 1 &&
      (rejection.None? ==> b.rules == written && r == Success(previous)) &&
      (rejection.Some? ==>
        b.rules == old(b.rules) &&
        r == Failure(ExitWithError("Error setting event notification rule " + rejection.value)))
  {
    var rules := b.rules;
    var i := FindRule(rules, name);
    if i.None? {
      return Failure(ExitWithError("Cannot find rule \"" + name + "\""));
    }
    var oldUrl := rules[i.value].targetConfiguration.url;
    rules := rules[i.value := WithUrl(rules[i.value], url)];
    b.SetNotificationRules(rules, rejection);
    if rejection.Some? {
      return Failure(ExitWithError("Error setting event notification rule " + rejection.value));
    }
    r := Success(oldUrl);
  }

  /** The list `delete_rule` writes: every rule not named exactly `name`, in order. */
  function WithoutRule(rules: seq<Rule>, name: string): seq<Rule> {
    Filter(rules, (rule: Rule) => rule.name != name)
  }

  /** `delete_rule` removes all and only the rules named `name`, keeps the others in order, and
      leaves the list as it was (so skips the write) exactly when no rule has that name. */
  lemma DeleteRuleRemovesExactly(rules: seq<Rule>, name: string, more: seq<Rule>)
    ensures forall rule :: rule in WithoutRule(rules, name) <==> rule in rules && rule.name != name
    ensures WithoutRule(rules + more, name) == WithoutRule(rules, name) + WithoutRule(more, name)
    ensures |WithoutRule(rules, name)| == |rules| <==> forall j :: 0 <= j < |rules| ==> rules[j].name != name
    ensures (forall j :: 0 <= j < |rules| ==> rules[j].name != name) ==> WithoutRule(rules, name) == rules
  {
    var keep := (rule: Rule) => rule.name != name;
    forall rule ensures rule in WithoutRule(rules, name) <==> rule in rules && rule.name != name {
      FilterMembership(rules, keep, rule);
    }
    FilterAppend(rules, more, keep);
    FilterKeepsAll(rules, keep);
  }

  /** `delete_rule`: write the list without the rules named `name`; when none matched, only a
      warning is logged (`Success(false)`) and nothing is written. A rejected write propagates. */
  method DeleteRule(b: Bucket, name: string, rejection: Option<string>) returns (r: Result<bool, Error>)
    modifies b
    ensures |WithoutRule(old(b.rules), name)| == |old(b.rules)| ==>
      r == Success(false) && b.rules == old(b.rules) && b.writes == old(b.writes)
    ensures |WithoutRule(old(b.rules), name)| != |old(b.rules)| ==>
      b.writes == old(b.writes) + 1 &&
      (rejection.None? ==> r == Success(true) && b.rules == WithoutRule(old(b.rules), name)) &&
      (rejection.Some? ==> r == Failure(Uncaught(rejection.value)) && b.rules == old(b.rules))
  {
    var oldRules := b.rules;
    var newRules := WithoutRule(oldRules, name);
    if |newRules| == |oldRules| {
      return Success(false);
    }
    b.SetNotificationRules(newRules, rejection);
    if rejection.Some? {
      return Failure(Uncaught(rejection.value));
    }
    r := Success(true);
  }

  function IsOwnRule(rule: Rule): bool {
    !IsSessionName(rule.name)
  }

  /** The list `cleanup_rules` writes: the rules whose names lack the reserved prefix, in order. */
  function WithoutSessionRules(rules: seq<Rule>): seq<Rule> {
    Filter(rules, IsOwnRule)
  }

  function IsSessionRule(rule: Rule): bool {
    IsSessionName(rule.name)
  }

  function Names(rules: seq<Rule>): seq<string> {
    seq(|rules|, i requires 0 <= i < |rules| => rules[i].name)
  }

  /** The names `cleanup_rules` logs as it drops rules: those of the rules with the reserved
      prefix, in list order. */
  function SessionRuleNames(rules: seq<Rule>): seq<string> {
    Names(Filter(rules, IsSessionRule))
  }

  /** The dropped names are exactly the reserved-prefix names that occur in the list. */
  lemma SessionRuleNamesExactly(rules: seq<Rule>)
    ensures forall n :: n in SessionRuleNames(rules) <==>
      IsSessionName(n) && exists j :: 0 <= j < |rules| && rules[j].name == n
  {
    var dropped := Filter(rules, IsSessionRule);
    forall n ensures n in SessionRuleNames(rules) <==>
      IsSessionName(n) && exists j :: 0 <= j < |rules| && rules[j].name == n
    {
      if n in SessionRuleNames(rules) {
        var k :| 0 <= k < |dropped| && dropped[k].name == n;
        FilterMembership(rules, IsSessionRule, dropped[k]);
      }
      if IsSessionName(n) && exists j :: 0 <= j < |rules| && rules[j].name == n {
        var j :| 0 <= j < |rules| && rules[j].name == n;
        FilterMembership(rules, IsSessionRule, rules[j]);
        var k :| 0 <= k < |dropped| && dropped[k] == rules[j];
        assert SessionRuleNames(rules)[k] == n;
      }
    }
  }

  /** One more rule extends either the kept rules or the dropped names. */
  lemma PartitionStep(done: seq<Rule>, rule: Rule)
    ensures IsSessionRule(rule) ==>
      Filter(done + [rule], IsOwnRule) == Filter(done, IsOwnRule) &&
      Names(Filter(done + [rule], IsSessionRule)) == Names(Filter(done, IsSessionRule)) + [rule.name]
    ensures !IsSessionRule(rule) ==>
      Filter(done + [rule], IsOwnRule) == Filter(done, IsOwnRule) + [rule] &&
      Names(Filter(done + [rule], IsSessionRule)) == Names(Filter(done, IsSessionRule))
  {
    FilterAppend(done, [rule], IsOwnRule);
    FilterAppend(done, [rule], IsSessionRule);
    assert [rule][1..] == [];
    var before := Filter(done, IsSessionRule);
    if IsSessionRule(rule) {
      assert Filter(done, IsOwnRule) + [] == Filter(done, IsOwnRule);
      assert Names(before + [rule]) == Names(before) + [rule.name];
    } else {
      assert before + [] == before;
    }
  }

  /** The loop of `cleanup_rules`: the rules to keep, and the names of the rules it drops (logged),
      in list order. */
  method PartitionSessionRules(rules: seq<Rule>) returns (kept: seq<Rule>, dropped: seq<string>)
    ensures kept == WithoutSessionRules(rules)
    ensures dropped == SessionRuleNames(rules)
    ensures |kept| + |dropped| == |rules|
    ensures forall n :: n in dropped ==> IsSessionName(n)
  {
    kept, dropped := [], [];
    var i := 0;
    while i < |rules|
      invariant 0 <= i <= |rules|
      invariant kept == Filter(rules[..i], IsOwnRule)
      invariant dropped == Names(Filter(rules[..i], IsSessionRule))
      invariant |kept| + |dropped| == i
      invariant forall n :: n in dropped ==> IsSessionName(n)
    {
      PartitionStep(rules[..i], rules[i]);
      assert rules[..i + 1] == rules[..i] + [rules[i]];
      if IsSessionName(rules[i].name) {
        dropped := dropped + [rules[i].name];
      } else {
        kept := kept + [rules[i]];
      }
      i := i + 1;
    }
    assert rules[..i] == rules;
  }

  /** `cleanup_rules` keeps exactly the rules without the reserved prefix, in order; a second run
      finds nothing to drop, so it does not write. */
  lemma CleanupRulesKeepsExactly(rules: seq<Rule>)
    ensures forall rule :: rule in WithoutSessionRules(rules) <==> rule in rules && !IsSessionName(rule.name)
    ensures WithoutSessionRules(WithoutSessionRules(rules)) == WithoutSessionRules(rules)
    ensures |WithoutSessionRules(rules)| == |rules| <==> forall j :: 0 <= j < |rules| ==> !IsSessionName(rules[j].name)
  {
    forall rule ensures rule in WithoutSessionRules(rules) <==> rule in rules && !IsSessionName(rule.name) {
      FilterMembership(rules, IsOwnRule, rule);
    }
    FilterIdempotent(rules, IsOwnRule);
    FilterKeepsAll(rules, IsOwnRule);
  }

  /** `cleanup_rules`: drop every rule whose name has the reserved prefix and write the list only
      if something was dropped; returns the dropped names, in list order. A rejected write propagates. */
  method CleanupRules(b: Bucket, rejection: Option<string>) returns (r: Result<seq<string>, Error>)
    modifies b
    ensures |WithoutSessionRules(old(b.rules))| == |old(b.rules)| ==>
      r == Success([]) && b.rules == old(b.rules) && b.writes == old(b.writes)
    ensures |WithoutSessionRules(old(b.rules))| != |old(b.rules)| ==>
      b.writes == old(b.writes) + 1 &&
      (rejection.None? ==> r == Success(SessionRuleNames(old(b.rules))) && b.rules == WithoutSessionRules(old(b.rules))) &&
      (rejection.Some? ==> r == Failure(Uncaught(rejection.value)) && b.rules == old(b.rules))
    ensures r.Success? ==> |r.value| + |WithoutSessionRules(old(b.rules))| == |old(b.rules)|
  {
    var oldRules := b.rules;
    var newRules, dropped := PartitionSessionRules(oldRules);
    if |newRules| == |oldRules| {
      return Success([]);
    }
    b.SetNotificationRules(newRules, rejection);
    if rejection.Some? {
      return Failure(Uncaught(rejection.value));
    }
    r := Success(dropped);
  }

  /** A temporary rule named with a session label is one `cleanup_rules` removes. */
  lemma SessionRuleIsCleanedUp(rules: seq<Rule>, isoTimestamp: string, rule: Rule)
    requires rule.name == SessionLabel(isoTimestamp)
    ensures rule !in WithoutSessionRules(rules)
  {
    CleanupRulesKeepsExactly(rules);
  }
}
