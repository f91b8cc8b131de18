/** The declarative field rules of the antd forms, as a validator on the value
    a text field holds. Each rule is checked on its own: `required` fails on an
    absent or empty value, and a `min` length rule is skipped on an empty value
    and otherwise fails on a shorter one. */
module FormRules {
  import opened Common

  datatype Rule =
    | Required(enabled: bool, message: string)
    | MinLength(min: nat, message: string)

  predicate IsEmpty(v: Option<string>) {
    v.None? || v.value == ""
  }

  predicate Passes(rule: Rule, v: Option<string>) {
    match rule
    case Required(enabled, _) => !enabled || !IsEmpty(v)
    case MinLength(min, _) => IsEmpty(v) || |v.value| >= min
  }

  /** The messages of the failing rules, in the order the rules are declared. */
  function Errors(rules: seq<Rule>, v: Option<string>): (errs: seq<string>)
    ensures |errs| <= |rules|
    ensures forall m :: m in errs ==> exists rule :: rule in rules && !Passes(rule, v) && rule.message == m
  {
    if rules == [] then []
    else (if Passes(rules[0], v) then [] else [rules[0].message]) + Errors(rules[1..], v)
  }

  /** A value is reported clean exactly when it passes every rule. */
  lemma {:induction false} ErrorsEmptyIff(rules: seq<Rule>, v: Option<string>)
    ensures Errors(rules, v) == [] <==> forall i :: 0 <= i < |rules| ==> Passes(rules[i], v)
  {
    if rules != [] {
      ErrorsEmptyIff(rules[1..], v);
      assert forall i :: 1 <= i < |rules| ==> rules[i] == rules[1..][i - 1];
    }
  }

  /** The pair "required, at least `n` characters" that every text field of the
      console declares accepts exactly the present values of length `n` or more
      (for `n` > 0), and reports the required message first. */
  lemma RequiredMinLength(required: string, short: string, n: nat, v: Option<string>)
    requires n > 0
    ensures Errors([Required(true, required), MinLength(n, short)], v) == [] <==> v.Some? && |v.value| >= n
    ensures IsEmpty(v) ==> Errors([Required(true, required), MinLength(n, short)], v) == [required]
    ensures !IsEmpty(v) && |v.value| < n ==> Errors([Required(true, required), MinLength(n, short)], v) == [short]
  {
    var rules := [Required(true, required), MinLength(n, short)];
    assert rules[1..] == [MinLength(n, short)];
    assert rules[1..][1..] == [];
  }
}
