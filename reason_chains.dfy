/**
 * The ordered rule chains behind the per-customer reason texts
 * (`explain_churn` in app.py and `generate_reason_codes` in explainability.py):
 * each rule that holds contributes its reason, in rule order, and the text is
 * the first two reasons joined by " + ", or a fixed fallback when none holds.
 */
module ReasonChains {
  import opened Text

  /** One rule of a chain: the reason it contributes and whether it holds for the row at hand. */
  datatype Rule = Rule(reason: string, fires: bool)

  /** The reason a single rule contributes: its own when it holds, none otherwise. */
  function Part(r: Rule): seq<string>
  {
    if r.fires then [r.reason] else []
  }

  /** The reasons of the rules that hold, in rule order. */
  function Fired(rules: seq<Rule>): (rs: seq<string>)
    ensures |rs| <= |rules|
  {
    if rules == [] then [] else Part(rules[0]) + Fired(rules[1..])
  }

  /** Testing one more rule appends its reason, if any, to those collected so far. */
  lemma {:induction false} FiredSnoc(rules: seq<Rule>, r: Rule)
    ensures Fired(rules + [r]) == Fired(rules) + Part(r)
  {
    if rules == [] {
      assert rules + [r] == [r];
      assert [r][1..] == [];
    } else {
      var rest := rules[1..];
      FiredSnoc(rest, r);
      assert (rules + [r])[0] == rules[0];
      assert (rules + [r])[1..] == rest + [r];
      assert Fired(rules + [r]) == Part(rules[0]) + Fired(rest + [r]);
      ConcatAssoc(Part(rules[0]), Fired(rest), Part(r));
    }
  }

  lemma ConcatAssoc(a: seq<string>, b: seq<string>, c: seq<string>)
    ensures a + (b + c) == (a + b) + c
  {
  }

  /** `" + ".join(reasons[:2])`, or `fallback` when no rule holds. */
  function ChainText(rules: seq<Rule>, fallback: string): string
  {
    var rs := Fired(rules);
    if rs == [] then fallback
    else if |rs| == 1 then Join(rs, " + ")
    else Join(rs[..2], " + ")
  }

  /** The text of a chain, in terms of the reasons collected. */
  lemma ChainOfFired(reasons: seq<string>, rules: seq<Rule>, fallback: string)
    requires reasons == Fired(rules)
    ensures ChainText(rules, fallback) ==
      if reasons == [] then fallback else if |reasons| == 1 then Join(reasons, " + ") else Join(reasons[..2], " + ")
  {
  }

  /** Rules that do not hold contribute nothing. */
  lemma {:induction false} FiredSkip(rules: seq<Rule>, i: nat)
    requires i <= |rules|
    requires forall k :: 0 <= k < i ==> !rules[k].fires
    ensures Fired(rules) == Fired(rules[i..])
  {
    if i > 0 {
      FiredSkip(rules[1..], i - 1);
      assert rules[1..][i - 1..] == rules[i..];
    }
  }

  /** The reason list is empty exactly when no rule holds. */
  lemma FiredEmpty(rules: seq<Rule>)
    ensures Fired(rules) == [] <==> forall k :: 0 <= k < |rules| ==> !rules[k].fires
  {
    if forall k :: 0 <= k < |rules| ==> !rules[k].fires {
      FiredSkip(rules, |rules|);
    } else {
      var i :| 0 <= i < |rules| && rules[i].fires;
      var j := FirstFiring(rules, i);
      FiredSkip(rules, j);
      assert Fired(rules[j..]) == [rules[j].reason] + Fired(rules[j + 1..]);
    }
  }

  /** The position of the first rule that holds, given that some rule at or before `i` holds. */
  lemma {:induction false} FirstFiring(rules: seq<Rule>, i: nat) returns (j: nat)
    requires i < |rules| && rules[i].fires
    ensures j <= i && rules[j].fires && forall k :: 0 <= k < j ==> !rules[k].fires
  {
    if exists k :: 0 <= k < i && rules[k].fires {
      var k :| 0 <= k < i && rules[k].fires;
      j := FirstFiring(rules, k);
    } else {
      j := i;
    }
  }

  /** When no rule holds the text is the fallback. */
  lemma ChainNone(rules: seq<Rule>, fallback: string)
    requires forall k :: 0 <= k < |rules| ==> !rules[k].fires
    ensures ChainText(rules, fallback) == fallback
  {
    FiredEmpty(rules);
  }

  /** When exactly one rule holds the text is its reason alone. */
  lemma ChainOne(rules: seq<Rule>, fallback: string, i: nat)
    requires i < |rules| && rules[i].fires
    requires forall k :: 0 <= k < |rules| && k != i ==> !rules[k].fires
    ensures ChainText(rules, fallback) == rules[i].reason
  {
    FiredSkip(rules, i);
    FiredSkip(rules[i + 1..], |rules| - i - 1);
    assert Fired(rules[i..]) == [rules[i].reason] + Fired(rules[i..][1..]);
    assert rules[i..][1..] == rules[i + 1..];
  }

  /**
   * When the first two rules that hold are `i` and then `j`, the text is
   * their two reasons joined by " + ", whatever later rules hold.
   */
  lemma ChainTwo(rules: seq<Rule>, fallback: string, i: nat, j: nat)
    requires i < j < |rules| && rules[i].fires && rules[j].fires
    requires forall k :: 0 <= k < j && k != i ==> !rules[k].fires
    ensures ChainText(rules, fallback) == rules[i].reason + " + " + rules[j].reason
  {
    FiredSkip(rules, i);
    var tail := rules[i + 1..];
    FiredSkip(tail, j - i - 1);
    assert Fired(rules[i..]) == [rules[i].reason] + Fired(rules[i..][1..]);
    assert rules[i..][1..] == tail;
    assert tail[j - i - 1..] == rules[j..];
    assert Fired(rules[j..]) == [rules[j].reason] + Fired(rules[j..][1..]);
    assert rules[j..][1..] == rules[j + 1..];
    var rs := Fired(rules);
    assert rs == [rules[i].reason] + ([rules[j].reason] + Fired(rules[j + 1..]));
    var two := rs[..2];
    assert two == [rules[i].reason, rules[j].reason];
    assert two[1..] == [rules[j].reason];
    assert Join(two, " + ") == rules[i].reason + " + " + Join(two[1..], " + ");
  }

  /** The first collected reason is that of some rule that holds. */
  lemma {:induction false} FirstFired(rules: seq<Rule>) returns (k: nat)
    requires Fired(rules) != []
    ensures k < |rules| && rules[k].fires && Fired(rules)[0] == rules[k].reason
  {
    if rules[0].fires {
      k := 0;
    } else {
      var k' := FirstFired(rules[1..]);
      k := k' + 1;
    }
  }

  /** The first two collected reasons are those of two rules that hold, in rule order. */
  lemma {:induction false} FirstTwoFired(rules: seq<Rule>) returns (i: nat, j: nat)
    requires |Fired(rules)| >= 2
    ensures i < j < |rules| && rules[i].fires && rules[j].fires
    ensures Fired(rules)[0] == rules[i].reason && Fired(rules)[1] == rules[j].reason
  {
    if rules[0].fires {
      var k := FirstFired(rules[1..]);
      i, j := 0, k + 1;
    } else {
      var i', j' := FirstTwoFired(rules[1..]);
      i, j := i' + 1, j' + 1;
    }
  }

  /**
   * The text holds at most two reasons: it is the fallback, the reason of one
   * rule that holds, or the reasons of two rules that hold, in rule order,
   * joined by " + ".
   */
  lemma ChainAtMostTwo(rules: seq<Rule>, fallback: string)
    ensures || ChainText(rules, fallback) == fallback
            || (exists i :: 0 <= i < |rules| && rules[i].fires && ChainText(rules, fallback) == rules[i].reason)
            || (exists i, j :: 0 <= i < j < |rules| && rules[i].fires && rules[j].fires
                 && ChainText(rules, fallback) == rules[i].reason + " + " + rules[j].reason)
  {
    var rs := Fired(rules);
    if |rs| == 1 {
      var k := FirstFired(rules);
      assert ChainText(rules, fallback) == rules[k].reason;
    } else if |rs| >= 2 {
      var i, j := FirstTwoFired(rules);
      var two := rs[..2];
      assert two[1..] == [rs[1]];
      assert Join(two, " + ") == two[0] + " + " + Join(two[1..], " + ");
      assert ChainText(rules, fallback) == rules[i].reason + " + " + rules[j].reason;
    }
  }
}
