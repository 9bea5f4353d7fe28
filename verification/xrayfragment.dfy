/** The owned Xray routing fragment: rules of enabled bindings put before the foreign rules. */
module XrayFragment {
  import opened Wrappers

  const MAXIMUM_BINDINGS: nat := 256
  const MAXIMUM_RULES: nat := 4096

  /** A connection: the inbound it came by, and the class that all other rule conditions depend on. */
  datatype Connection = Connection(inbound: nat, class_: nat)

  /**
   * A rule of this program, or any other; `reserved` says that it carries the tag prefix of owned rules without
   * having their shape. A missing condition does not restrict.
   */
  datatype Rule =
    | OwnedRule(id: nat, inbound: nat, outbound: nat)
    | OtherRule(reserved: bool, inbounds: Option<set<nat>>, classes: Option<set<nat>>, outbound: nat)

  predicate Matches(r: Rule, c: Connection) {
    match r
    case OwnedRule(_, inbound, _) => inbound == c.inbound
    case OtherRule(_, inbounds, classes, _) =>
      (inbounds.Some? ==> c.inbound in inbounds.value) && (classes.Some? ==> c.class_ in classes.value)
  }

  /** First match decides; with none the default outbound is used. */
  function Outbound(rules: seq<Rule>, c: Connection): Option<nat> {
    if rules == [] then None
    else if Matches(rules[0], c) then Some(rules[0].outbound)
    else Outbound(rules[1..], c)
  }

  lemma {:induction false} OutboundAppend(a: seq<Rule>, b: seq<Rule>, c: Connection)
    ensures Outbound(a + b, c) == if Outbound(a, c).Some? then Outbound(a, c) else Outbound(b, c)
  {
    if a == [] {
      assert a + b == b;
    } else {
      assert (a + b)[1..] == a[1..] + b;
      OutboundAppend(a[1..], b, c);
    }
  }

  // ---------------------------------------------------------------- reading rules

  predicate TaggedOwned(r: Rule) {
    r.OwnedRule? || r.reserved
  }

  predicate AllOwned(rules: seq<Rule>) {
    forall i | 0 <= i < |rules| :: rules[i].OwnedRule?
  }

  predicate NoneTagged(rules: seq<Rule>) {
    forall i | 0 <= i < |rules| :: !TaggedOwned(rules[i])
  }

  predicate DistinctOwned(rules: seq<Rule>)
    requires AllOwned(rules)
  {
    forall i, j | 0 <= i < j < |rules| :: rules[i].id != rules[j].id && rules[i].inbound != rules[j].inbound
  }

  /** An owned fragment: at least one owned rule, all of them in front, no ID or inbound twice. */
  predicate OwnedFragment(rules: seq<Rule>) {
    exists k | 0 < k <= |rules| :: AllOwned(rules[..k]) && DistinctOwned(rules[..k]) && NoneTagged(rules[k..])
  }

  predicate Readable(rules: seq<Rule>, owned: bool) {
    |rules| <= MAXIMUM_RULES && if owned then OwnedFragment(rules) else NoneTagged(rules)
  }

  /** The reader walks the rules once with two flags and two sets. */
  method DecodeOwned(rules: seq<Rule>) returns (ok: bool)
    ensures ok <==> OwnedFragment(rules)
  {
    var found, foreignSeen := false, false;
    var ids: set<nat>, inbounds: set<nat> := {}, {};
    ghost var k := 0;
    for i := 0 to |rules|
      invariant k <= i && (found <==> k > 0) && (foreignSeen <==> k < i)
      invariant AllOwned(rules[..k]) && DistinctOwned(rules[..k])
      invariant forall j | k <= j < i :: !TaggedOwned(rules[j])
      invariant forall n :: n in ids <==> exists j | 0 <= j < k :: rules[j].OwnedRule? && rules[j].id == n
      invariant forall n :: n in inbounds <==> exists j | 0 <= j < k :: rules[j].OwnedRule? && rules[j].inbound == n
    {
      if TaggedOwned(rules[i]) {
        if foreignSeen || !rules[i].OwnedRule? || rules[i].id in ids || rules[i].inbound in inbounds {
          BadOwned(rules, k, i);
          return false;
        }
        assert rules[..k + 1] == rules[..k] + [rules[k]];
        ids, inbounds := ids + {rules[i].id}, inbounds + {rules[i].inbound};
        found := true;
        k := k + 1;
      } else {
        foreignSeen := true;
      }
    }
    if found {
      assert forall j | 0 <= j < |rules[k..]| :: rules[k..][j] == rules[k + j];
      assert OwnedFragment(rules);
    } else {
      NothingOwned(rules);
    }
    return found;
  }

  lemma BadOwned(rules: seq<Rule>, k: nat, i: nat)
    requires k <= i < |rules| && TaggedOwned(rules[i])
    requires AllOwned(rules[..k]) && forall j | k <= j < i :: !TaggedOwned(rules[j])
    requires k < i || !rules[i].OwnedRule?
      || exists j | 0 <= j < k :: rules[j].OwnedRule? && (rules[j].id == rules[i].id || rules[j].inbound == rules[i].inbound)
    ensures !OwnedFragment(rules)
  {
    forall n | 0 < n <= |rules| ensures !(AllOwned(rules[..n]) && DistinctOwned(rules[..n]) && NoneTagged(rules[n..])) {
      if n <= i {
        assert rules[n..][i - n] == rules[i];
      } else if k < i {
        assert rules[..n][k] == rules[k];
      } else {
        assert rules[..n][i] == rules[i];
        assert forall j | 0 <= j < k :: rules[..n][j] == rules[j];
      }
    }
  }

  lemma NothingOwned(rules: seq<Rule>)
    requires NoneTagged(rules)
    ensures !OwnedFragment(rules)
  {
    forall n | 0 < n <= |rules| ensures !AllOwned(rules[..n]) {
      assert rules[..n][0] == rules[0];
    }
  }

  method DecodeRouting(rules: seq<Rule>, owned: bool) returns (ok: bool)
    ensures ok <==> Readable(rules, owned)
  {
    if |rules| > MAXIMUM_RULES {
      return false;
    }
    if owned {
      ok := DecodeOwned(rules);
      return;
    }
    for i := 0 to |rules|
      invariant forall j | 0 <= j < i :: !TaggedOwned(rules[j])
    {
      if TaggedOwned(rules[i]) {
        return false;
      }
    }
    return true;
  }

  // ---------------------------------------------------------------- planning

  datatype Binding = Binding(id: nat, inbound: nat, outbound: nat, enabled: bool)

  function OwnedRules(bindings: seq<Binding>): seq<Rule> {
    if bindings == [] then []
    else (if bindings[0].enabled then [OwnedRule(bindings[0].id, bindings[0].inbound, bindings[0].outbound)] else []) + OwnedRules(bindings[1..])
  }

  /** Distinct IDs; enabled bindings name existing tags and different inbounds. */
  predicate Plannable(bindings: seq<Binding>, inboundTags: set<nat>, outboundTags: set<nat>) {
    && |bindings| <= MAXIMUM_BINDINGS
    && (forall i | 0 <= i < |bindings| && bindings[i].enabled :: bindings[i].inbound in inboundTags && bindings[i].outbound in outboundTags)
    && (forall i, j | 0 <= i < j < |bindings| ::
          bindings[i].id != bindings[j].id && (bindings[i].enabled && bindings[j].enabled ==> bindings[i].inbound != bindings[j].inbound))
  }

  /** `Ok(None)` means that no fragment is wanted. */
  method BuildFragmentPlan(bindings: seq<Binding>, inboundTags: set<nat>, outboundTags: set<nat>, foreign: seq<Rule>)
    returns (r: Result<Option<seq<Rule>>, ()>)
    ensures r.Ok? <==> Plannable(bindings, inboundTags, outboundTags) && Readable(foreign, false)
    ensures r.Ok? ==> r.value == if OwnedRules(bindings) == [] then None else Some(OwnedRules(bindings) + foreign)
  {
    var readable := DecodeRouting(foreign, false);
    if |bindings| > MAXIMUM_BINDINGS || !readable {
      return Err(());
    }
    var ids: set<nat>, inbounds: set<nat>, owned: seq<Rule> := {}, {}, [];
    for i := 0 to |bindings|
      invariant Plannable(bindings[..i], inboundTags, outboundTags)
      invariant forall n :: n in ids <==> exists j | 0 <= j < i :: bindings[j].id == n
      invariant forall n :: n in inbounds <==> exists j | 0 <= j < i :: bindings[j].enabled && bindings[j].inbound == n
      invariant OwnedRules(bindings) == owned + OwnedRules(bindings[i..])
    {
      var b := bindings[i];
      assert bindings[i..][0] == b && bindings[i..][1..] == bindings[i + 1..];
      assert bindings[..i + 1] == bindings[..i] + [b];
      if b.id in ids {
        return Err(());
      }
      ids := ids + {b.id};
      ghost var rest := OwnedRules(bindings[i + 1..]);
      if !b.enabled {
        assert owned + ([] + rest) == owned + rest;
        continue;
      }
      if b.inbound !in inboundTags || b.outbound !in outboundTags || b.inbound in inbounds {
        return Err(());
      }
      inbounds := inbounds + {b.inbound};
      assert owned + ([OwnedRule(b.id, b.inbound, b.outbound)] + rest) == (owned + [OwnedRule(b.id, b.inbound, b.outbound)]) + rest;
      owned := owned + [OwnedRule(b.id, b.inbound, b.outbound)];
    }
    assert bindings[..|bindings|] == bindings && owned + [] == owned;
    return Ok(if owned == [] then None else Some(owned + foreign));
  }

  lemma {:induction false} OwnedOutbound(bindings: seq<Binding>, c: Connection)
    requires forall i, j | 0 <= i < j < |bindings| && bindings[i].enabled && bindings[j].enabled :: bindings[i].inbound != bindings[j].inbound
    ensures forall i | 0 <= i < |bindings| && bindings[i].enabled && bindings[i].inbound == c.inbound ::
      Outbound(OwnedRules(bindings), c) == Some(bindings[i].outbound)
    ensures (forall i | 0 <= i < |bindings| && bindings[i].enabled :: bindings[i].inbound != c.inbound) ==> Outbound(OwnedRules(bindings), c) == None
  {
    if bindings != [] {
      OwnedOutbound(bindings[1..], c);
      assert forall i | 0 < i < |bindings| :: bindings[1..][i - 1] == bindings[i];
      var b := bindings[0];
      if b.enabled {
        var rest := OwnedRules(bindings[1..]);
        assert ([OwnedRule(b.id, b.inbound, b.outbound)] + rest)[1..] == rest;
      } else {
        assert OwnedRules(bindings) == OwnedRules(bindings[1..]);
      }
    }
  }

  /** The fragment sends each bound inbound to its outbound, and everything else where the foreign rules sent it. */
  lemma FragmentPreservesMeaning(bindings: seq<Binding>, inboundTags: set<nat>, outboundTags: set<nat>, foreign: seq<Rule>, c: Connection)
    requires Plannable(bindings, inboundTags, outboundTags)
    ensures forall i | 0 <= i < |bindings| && bindings[i].enabled && bindings[i].inbound == c.inbound ::
      Outbound(OwnedRules(bindings) + foreign, c) == Some(bindings[i].outbound)
    ensures (forall i | 0 <= i < |bindings| && bindings[i].enabled :: bindings[i].inbound != c.inbound) ==>
      Outbound(OwnedRules(bindings) + foreign, c) == Outbound(foreign, c)
  {
    OwnedOutbound(bindings, c);
    OutboundAppend(OwnedRules(bindings), foreign, c);
  }

  /** The binding that an owned rule was made for. */
  lemma {:induction false} SourceBinding(bindings: seq<Binding>, i: nat) returns (j: nat)
    requires i < |OwnedRules(bindings)|
    ensures j < |bindings| && bindings[j].enabled
    ensures OwnedRules(bindings)[i] == OwnedRule(bindings[j].id, bindings[j].inbound, bindings[j].outbound)
    decreases |bindings|
  {
    var skipped := if bindings[0].enabled then 1 else 0;
    if i < skipped {
      j := 0;
    } else {
      j := SourceBinding(bindings[1..], i - skipped);
      j := j + 1;
    }
  }

  lemma {:induction false} OwnedRulesShape(bindings: seq<Binding>)
    requires forall i, j | 0 <= i < j < |bindings| ::
      bindings[i].id != bindings[j].id && (bindings[i].enabled && bindings[j].enabled ==> bindings[i].inbound != bindings[j].inbound)
    ensures AllOwned(OwnedRules(bindings)) && DistinctOwned(OwnedRules(bindings))
  {
    if bindings != [] {
      OwnedRulesShape(bindings[1..]);
      var rest := OwnedRules(bindings[1..]);
      forall i | 0 <= i < |rest| && bindings[0].enabled ensures rest[i].id != bindings[0].id && rest[i].inbound != bindings[0].inbound {
        var j := SourceBinding(bindings[1..], i);
        assert bindings[1..][j] == bindings[j + 1];
      }
    }
  }

  /**
   * The program reads back its own fragment exactly when owned and foreign rules together stay within the reader's
   * limit; the planner itself checks only the foreign ones.
   */
  lemma FragmentReadableIff(bindings: seq<Binding>, inboundTags: set<nat>, outboundTags: set<nat>, foreign: seq<Rule>)
    requires Plannable(bindings, inboundTags, outboundTags) && Readable(foreign, false) && OwnedRules(bindings) != []
    ensures Readable(OwnedRules(bindings) + foreign, true) <==> |OwnedRules(bindings)| + |foreign| <= MAXIMUM_RULES
  {
    OwnedRulesShape(bindings);
    var owned := OwnedRules(bindings);
    var all := owned + foreign;
    assert all[..|owned|] == owned && all[|owned|..] == foreign;
  }
}
