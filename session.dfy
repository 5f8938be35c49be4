/** The handler pairs `listen` (b2listen/b2listen.py) hands to `run_cloudflared`. With an existing
    rule, the URL handler points that rule at the tunnel and remembers its old URL, and the exit
    handler puts the old URL back. Without one, the URL handler creates a temporary rule named with
    the session label and the exit handler deletes it.

    The scanner calls the URL handler at most once, with the first tunnel URL it recognises, and
    calls the exit handler exactly once at the end (`Tunnel.UrlHandlerCalledOnce`,
    `Tunnel.ExitHandlerRunsOnce`). So a session is described here by `found`, the URL the URL
    handler received (`None` when it was never called), plus the store's verdict on each write. */
module Session {
  import opened Wrappers
  import opened Rules

  /** What the URL handler of an existing-rule session leaves behind: the rule list, the value of
      `old_url`, and whether it actually re-pointed the rule. */
  datatype Handled = Handled(rules: seq<Rule>, oldUrl: Option<string>, modified: bool)

  /** The URL handler of an existing-rule session. It does nothing when never called. When the
      rule is missing or the write is rejected, `modify_rule` exits before `old_url` is assigned,
      so `old_url` keeps its initial `None`. */
  function UrlHandlerStep(rules: seq<Rule>, name: string, found: Option<string>, rejection: Option<string>): (h: Handled)
    ensures !h.modified ==> h.rules == rules && h.oldUrl.None?
    ensures h.modified ==>
      found.Some? && rejection.None? && Retarget(rules, name, Some(found.value)) == Some((h.rules, h.oldUrl))
    ensures found.Some? && rejection.None? && Retarget(rules, name, Some(found.value)).Some? ==> h.modified
  {
    if found.None? then Handled(rules, None, false)
    else match Retarget(rules, name, Some(found.value))
      case None => Handled(rules, None, false)
      case Some((written, previous)) =>
        if rejection.None? then Handled(written, previous, true) else Handled(rules, None, false)
  }

  /** The list after `modify_rule(url)` succeeds or fails: the re-pointed list if the rule exists
      and the write is accepted, the list as it was otherwise. */
  function AfterModify(rules: seq<Rule>, name: string, url: Option<string>, rejection: Option<string>): seq<Rule> {
    match Retarget(rules, name, url)
    case None => rules
    case Some((written, _)) => if rejection.None? then written else rules
  }

  /** The rule list at the end of an existing-rule session as the code is written: the exit
      handler always calls `modify_rule(old_url)`, whether or not the URL handler set `old_url`. */
  function ExistingRuleSessionAsWritten(rules: seq<Rule>, name: string, found: Option<string>,
                                        urlRejection: Option<string>, exitRejection: Option<string>): seq<Rule> {
    var h := UrlHandlerStep(rules, name, found, urlRejection);
    AfterModify(h.rules, name, h.oldUrl, exitRejection)
  }

  /** The rule list at the end of an existing-rule session when the exit handler restores the old
      URL only after the URL handler re-pointed the rule. */
  function ExistingRuleSession(rules: seq<Rule>, name: string, found: Option<string>,
                               urlRejection: Option<string>, exitRejection: Option<string>): seq<Rule> {
    var h := UrlHandlerStep(rules, name, found, urlRejection);
    if h.modified then AfterModify(h.rules, name, h.oldUrl, exitRejection) else h.rules
  }

  /** As written, a session in which the URL handler never re-pointed the rule (no tunnel URL was
      seen, or its write was rejected) ends with the rule's URL overwritten by null whenever the
      exit handler's write is accepted. Any rule that had a URL is then changed. */
  lemma AsWrittenNullsUrl(rules: seq<Rule>, name: string, found: Option<string>,
                          urlRejection: Option<string>, exitRejection: Option<string>)
    requires FindRule(rules, name).Some?
    requires found.None? || urlRejection.Some?
    requires exitRejection.None?
    ensures var i := FindRule(rules, name).value;
      ExistingRuleSessionAsWritten(rules, name, found, urlRejection, exitRejection)
        == rules[i := WithUrl(rules[i], None)]
    ensures var i := FindRule(rules, name).value;
      rules[i].targetConfiguration.url.Some? ==>
        ExistingRuleSessionAsWritten(rules, name, found, urlRejection, exitRejection) != rules
  {
    var i := FindRule(rules, name).value;
    var after := ExistingRuleSessionAsWritten(rules, name, found, urlRejection, exitRejection);
    assert after == rules[i := WithUrl(rules[i], None)];
    if rules[i].targetConfiguration.url.Some? {
      assert after[i].targetConfiguration.url != rules[i].targetConfiguration.url;
    }
  }

  /** A concrete session that shows it: one rule with a URL, no tunnel URL seen, every write
      accepted. The rule is left pointing at null. */
  lemma AsWrittenNullsUrlExample()
    ensures var rule := Rule(["b2:ObjectCreated:*"], true, "r", "",
                             Target("webhook", Some("https://example.com"), None, None));
      ExistingRuleSessionAsWritten([rule], "r", None, None, None)
        == [WithUrl(rule, None)]
  {
    var rule := Rule(["b2:ObjectCreated:*"], true, "r", "",
                     Target("webhook", Some("https://example.com"), None, None));
    AsWrittenNullsUrl([rule], "r", None, None, None);
  }

  /** With the exit handler guarded, an existing-rule session gives back the rule list it found
      whenever the restoring write is accepted. Otherwise the only other outcome is the list with
      the rule still pointed at the tunnel. */
  lemma ExistingRuleSessionRestores(rules: seq<Rule>, name: string, found: Option<string>,
                                    urlRejection: Option<string>, exitRejection: Option<string>)
    ensures exitRejection.None? ==> ExistingRuleSession(rules, name, found, urlRejection, exitRejection) == rules
    ensures var after := ExistingRuleSession(rules, name, found, urlRejection, exitRejection);
      after == rules ||
      (exitRejection.Some? && found.Some? && Retarget(rules, name, Some(found.value)).Some? &&
       after == Retarget(rules, name, Some(found.value)).value.0)
  {
    var h := UrlHandlerStep(rules, name, found, urlRejection);
    if h.modified {
      RetargetRestores(rules, name, Some(found.value));
    }
  }

  /** The two exit handlers differ only in sessions where the URL handler did not re-point the
      rule; otherwise both restore the same way. */
  lemma GuardOnlyMattersWithoutUrl(rules: seq<Rule>, name: string, found: Option<string>,
                                   urlRejection: Option<string>, exitRejection: Option<string>)
    requires found.Some? && urlRejection.None? && FindRule(rules, name).Some?
    ensures ExistingRuleSessionAsWritten(rules, name, found, urlRejection, exitRejection)
      == ExistingRuleSession(rules, name, found, urlRejection, exitRejection)
  {
  }

  /** `listen` with `--rule-name`, as written: the URL handler runs if the scanner found a URL,
      then the exit handler calls `modify_rule(old_url)` unconditionally. */
  method ListenWithRuleAsWritten(b: Bucket, name: string, found: Option<string>,
                                 urlRejection: Option<string>, exitRejection: Option<string>)
    modifies b
    ensures b.rules == ExistingRuleSessionAsWritten(old(b.rules), name, found, urlRejection, exitRejection)
  {
    var oldUrl: Option<string> := None;
    if found.Some? {
      var r := ModifyRule(b, Some(found.value), name, urlRejection);
      if r.Success? {
        oldUrl := r.value;
      }
    }
    var _ := ModifyRule(b, oldUrl, name, exitRejection);
  }

  /** `listen` with `--rule-name`, with the exit handler restoring only a rule the URL handler
      re-pointed. */
  method ListenWithRule(b: Bucket, name: string, found: Option<string>,
                        urlRejection: Option<string>, exitRejection: Option<string>)
    modifies b
    ensures b.rules == ExistingRuleSession(old(b.rules), name, found, urlRejection, exitRejection)
  {
    var oldUrl: Option<string> := None;
    var modified := false;
    if found.Some? {
      var r := ModifyRule(b, Some(found.value), name, urlRejection);
      if r.Success? {
        oldUrl, modified := r.value, true;
      }
    }
    if modified {
      var _ := ModifyRule(b, oldUrl, name, exitRejection);
    }
  }

  /** Deleting by a fresh name after appending one rule with that name gives back the original
      list; deleting by a fresh name alone changes nothing. */
  lemma TemporaryRuleRemoved(rules: seq<Rule>, sessionName: string, rule: Rule)
    requires forall j :: 0 <= j < |rules| ==> rules[j].name != sessionName
    requires rule.name == sessionName
    ensures WithoutRule(rules + [rule], sessionName) == rules
    ensures WithoutRule(rules, sessionName) == rules
  {
    DeleteRuleRemovesExactly(rules, sessionName, [rule]);
    DeleteRuleRemovesExactly([rule], sessionName, []);
  }

  /** `listen` without `--rule-name`: the URL handler creates the temporary rule named `sessionName` if
      the scanner found a URL, and the exit handler deletes every rule named `sessionName`. When the
      delete is accepted the session leaves exactly the rules not named `sessionName`, so with a fresh
      name it leaves the list it found. When the rule was created but the delete is rejected, the
      rule is left behind at the end of the list (it is the kind `cleanup_rules` removes). */
  method ListenWithTemporaryRule(b: Bucket, sessionName: string, options: RuleOptions, found: Option<string>,
                                 createRejection: Option<string>, deleteRejection: Option<string>)
    modifies b
    ensures deleteRejection.None? ==> b.rules == WithoutRule(old(b.rules), sessionName)
    ensures ((forall j :: 0 <= j < |old(b.rules)| ==> old(b.rules)[j].name != sessionName) &&
             (deleteRejection.None? || found.None? || createRejection.Some? || ParseHeadersFails(options.customHeaders)))
      ==> b.rules == old(b.rules)
    ensures ((forall j :: 0 <= j < |old(b.rules)| ==> old(b.rules)[j].name != sessionName) &&
             deleteRejection.Some? && found.Some? && createRejection.None? && !ParseHeadersFails(options.customHeaders))
      ==> (|b.rules| == |old(b.rules)| + 1 && b.rules[..|old(b.rules)|] == old(b.rules) &&
           b.rules[|old(b.rules)|].name == sessionName)
  {
    ghost var start := b.rules;
    if found.Some? {
      var _ := CreateRule(b, found.value, sessionName, options, createRejection);
    }
    ghost var created := b.rules;
    assert created == start || exists rule: Rule :: rule.name == sessionName && created == start + [rule];
    if created != start {
      var rule: Rule :| rule.name == sessionName && created == start + [rule];
      DeleteRuleRemovesExactly(start, sessionName, [rule]);
      DeleteRuleRemovesExactly([rule], sessionName, []);
      assert created[|start|] == rule;
    }
    DeleteRuleRemovesExactly(created, sessionName, []);
    DeleteRuleRemovesExactly(start, sessionName, []);
    var _ := DeleteRule(b, sessionName, deleteRejection);
  }
}
