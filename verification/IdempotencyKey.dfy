/** The idempotency key an HTTP step sends to its provider. */
module IdempotencyKey {
  /** A missing id falls back to a fixed name. */
  function OrDefault(id: string, fallback: string): string {
    if id == "" then fallback else id
  }

  function CleanTenant(tenant: string): string { OrDefault(tenant, "default") }
  function CleanExecution(execution: string): string { OrDefault(execution, "unknown-exec") }
  function CleanStep(step: string): string { OrDefault(step, "unknown-step") }

  function StepKey(tenant: string, execution: string, step: string): string {
    "forgegate:" + (CleanTenant(tenant) + ":" + (CleanExecution(execution) + ":" + CleanStep(step)))
  }

  /** A missing id is not told apart from the one that is named like its fallback. */
  lemma MissingIdsShareFallbacks(t: string, e: string, s: string)
    ensures StepKey("", e, s) == StepKey("default", e, s)
    ensures StepKey(t, "", s) == StepKey(t, "unknown-exec", s)
    ensures StepKey(t, e, "") == StepKey(t, e, "unknown-step")
  {
  }

  predicate ColonFree(s: string) {
    ':' !in s
  }

  /** The three ids a key is made of. */
  datatype Part = TenantPart | ExecutionPart | StepPart

  predicate TwoPartsFree(free: set<Part>) {
    {TenantPart, ExecutionPart} <= free || {TenantPart, StepPart} <= free || {ExecutionPart, StepPart} <= free
  }

  /** The ids that are promised to be colon-free are. */
  predicate FreeOfColons(free: set<Part>, t: string, e: string, s: string) {
    && (TenantPart in free ==> ColonFree(t))
    && (ExecutionPart in free ==> ColonFree(e))
    && (StepPart in free ==> ColonFree(s))
  }

  /** The same step of the same execution of the same tenant, up to the fallback names. */
  predicate SameStep(t: string, e: string, s: string, t': string, e': string, s': string) {
    CleanTenant(t) == CleanTenant(t') && CleanExecution(e) == CleanExecution(e') && CleanStep(s) == CleanStep(s')
  }

  /** A separator between two parts can be found again when the parts before it, or those after it, have none. */
  lemma SeparatorSplits(sep: char, a: string, b: string, a': string, b': string)
    requires (sep !in a && sep !in a') || (sep !in b && sep !in b')
    requires a + [sep] + b == a' + [sep] + b'
    ensures a == a' && b == b'
  {
    var s, s' := a + [sep] + b, a' + [sep] + b';
    assert s[|a|] == sep && s'[|a'|] == sep;
    assert forall i :: 0 <= i < |a| ==> s[i] == a[i];
    assert forall i :: 0 <= i < |a'| ==> s'[i] == a'[i];
    assert forall i :: |a| < i < |s| ==> s[i] == b[i - |a| - 1];
    assert forall i :: |a'| < i < |s'| ==> s'[i] == b'[i - |a'| - 1];
    assert |a| == |a'|;
    assert a == s[..|a|] && a' == s'[..|a'|];
    assert b == s[|a| + 1..] && b' == s'[|a'| + 1..];
  }

  lemma ColonSplits(a: string, b: string, a': string, b': string)
    requires (ColonFree(a) && ColonFree(a')) || (ColonFree(b) && ColonFree(b'))
    requires a + ":" + b == a' + ":" + b'
    ensures a == a' && b == b'
  {
    SeparatorSplits(':', a, b, a', b');
  }

  lemma BodiesAreInjective(free: set<Part>, t: string, e: string, s: string, t': string, e': string, s': string)
    requires TwoPartsFree(free) && FreeOfColons(free, t, e, s) && FreeOfColons(free, t', e', s')
    requires t + ":" + (e + ":" + s) == t' + ":" + (e' + ":" + s')
    ensures t == t' && e == e' && s == s'
  {
    if TenantPart in free {
      ColonSplits(t, e + ":" + s, t', e' + ":" + s');
      ColonSplits(e, s, e', s');
    } else {
      assert t + ":" + e + ":" + s == t + ":" + (e + ":" + s) == t' + ":" + e' + ":" + s';
      ColonSplits(t + ":" + e, s, t' + ":" + e', s');
      ColonSplits(t, e, t', e');
    }
  }

  lemma PrefixIsInjective(p: string, a: string, b: string)
    requires p + a == p + b
    ensures a == b
  {
    assert a == (p + a)[|p|..];
  }

  lemma KeysAreInjective(free: set<Part>, t: string, e: string, s: string, t': string, e': string, s': string)
    requires TwoPartsFree(free) && FreeOfColons(free, t, e, s) && FreeOfColons(free, t', e', s')
    ensures StepKey(t, e, s) == StepKey(t', e', s') <==> SameStep(t, e, s, t', e', s')
  {
    if StepKey(t, e, s) == StepKey(t', e', s') {
      PrefixIsInjective("forgegate:", CleanTenant(t) + ":" + (CleanExecution(e) + ":" + CleanStep(s)),
                        CleanTenant(t') + ":" + (CleanExecution(e') + ":" + CleanStep(s')));
      BodiesAreInjective(free, CleanTenant(t), CleanExecution(e), CleanStep(s), CleanTenant(t'), CleanExecution(e'),
                         CleanStep(s'));
    }
  }

  ghost predicate KeysTellStepsApart(free: set<Part>) {
    forall t, e, s, t', e', s' :: FreeOfColons(free, t, e, s) && FreeOfColons(free, t', e', s') ==>
      (StepKey(t, e, s) == StepKey(t', e', s') <==> SameStep(t, e, s, t', e', s'))
  }

  /** Without colons in the ids of one kind only, two steps share a key. */
  lemma OnePartIsNotEnough(free: set<Part>)
    requires free <= {TenantPart} || free <= {ExecutionPart} || free <= {StepPart}
    ensures !KeysTellStepsApart(free)
  {
    if free <= {TenantPart} {
      assert StepKey("a", "b:c", "d") == StepKey("a", "b", "c:d");
      assert !SameStep("a", "b:c", "d", "a", "b", "c:d");
    } else if free <= {ExecutionPart} {
      assert StepKey("a:b", "b", "c") == StepKey("a", "b", "b:c");
      assert !SameStep("a:b", "b", "c", "a", "b", "b:c");
    } else {
      assert StepKey("a:b", "c", "d") == StepKey("a", "b:c", "d");
      assert !SameStep("a:b", "c", "d", "a", "b:c", "d");
    }
  }

  /**
   Keys identify steps, whatever the ids, exactly when the ids of two of the three kinds are free of
   colons. (Execution and step ids are generated and have none; a tenant's id may be anything.)
   */
  lemma KeysIdentifyStepsIff(free: set<Part>)
    ensures KeysTellStepsApart(free) <==> TwoPartsFree(free)
  {
    if TwoPartsFree(free) {
      forall t, e, s, t', e', s' | FreeOfColons(free, t, e, s) && FreeOfColons(free, t', e', s')
        ensures StepKey(t, e, s) == StepKey(t', e', s') <==> SameStep(t, e, s, t', e', s')
      {
        KeysAreInjective(free, t, e, s, t', e', s');
      }
    } else {
      assert forall part :: part in free ==> part.TenantPart? || part.ExecutionPart? || part.StepPart?;
      OnePartIsNotEnough(free);
    }
  }
}
