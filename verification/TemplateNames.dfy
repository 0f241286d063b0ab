/** The names patchResourceClaimTemplate gives to revisions of a template. */
module TemplateNames {

  const MAX_AUTOSCALER_NAME := 54
  const HASH_LENGTH := 8
  const MAX_RESOURCE_NAME := 63

  function Digit(d: nat): char
    requires d < 10
  {
    ('0' as int + d) as char
  }

  /** strconv.FormatInt for the generations of a workload. */
  function Decimal(n: nat): (s: string)
    ensures |s| >= 1
  {
    if n < 10 then [Digit(n)] else Decimal(n / 10) + [Digit(n % 10)]
  }

  /** The number a decimal string stands for. */
  function Value(s: string): int
    decreases |s|
  {
    if s == [] then 0 else 10 * Value(s[..|s| - 1]) + (s[|s| - 1] as int - '0' as int)
  }

  lemma {:induction false} DecimalValue(n: nat)
    ensures Value(Decimal(n)) == n
  {
    if n < 10 {
      assert Decimal(n)[..0] == [];
    } else {
      DecimalValue(n / 10);
      assert Decimal(n)[..|Decimal(n)| - 1] == Decimal(n / 10);
    }
  }

  lemma DecimalInjective(m: nat, n: nat)
    ensures Decimal(m) == Decimal(n) ==> m == n
  {
    DecimalValue(m);
    DecimalValue(n);
  }

  /** An autoscaler, the template it was discovered on and the first hex characters of SHA-256. */
  datatype Naming = Naming(autoscaler: string, original: string, shortHash: string -> string)
  {
    function HashInput(generation: nat): string {
      original + "-rev-" + Decimal(generation)
    }

    function TemplateName(generation: nat): string {
      var prefix := if |autoscaler| > MAX_AUTOSCALER_NAME then autoscaler[..MAX_AUTOSCALER_NAME] else autoscaler;
      prefix + "-" + shortHash(HashInput(generation))
    }

    /** Up to the last generation used, the hash tells the revisions apart and none is called like the original. */
    ghost predicate Separates(last: nat) {
      && original != ""
      && (forall s :: |shortHash(s)| == HASH_LENGTH)
      && (forall g: nat, h: nat :: g <= last && h <= last && shortHash(HashInput(g)) == shortHash(HashInput(h)) ==>
            HashInput(g) == HashInput(h))
      && (forall g: nat :: g <= last ==> TemplateName(g) != original)
    }

    lemma HashInputInjective(g: nat, h: nat)
      requires HashInput(g) == HashInput(h)
      ensures g == h
    {
      assert Decimal(g) == HashInput(g)[|original| + 5..];
      assert Decimal(h) == HashInput(h)[|original| + 5..];
      DecimalInjective(g, h);
    }

    /** Different generations get different names, none longer than Kubernetes allows. */
    lemma NamesDistinct(last: nat, g: nat, h: nat)
      requires Separates(last) && g <= last && h <= last
      ensures 0 < |TemplateName(g)| <= MAX_RESOURCE_NAME
      ensures TemplateName(g) == TemplateName(h) ==> g == h
      ensures var n := |TemplateName(g)| - HASH_LENGTH - 1;
              && 0 <= n <= |autoscaler| && (n == |autoscaler| || n == MAX_AUTOSCALER_NAME)
              && TemplateName(g)[..n] == autoscaler[..n] && TemplateName(g)[n] == '-'
    {
      var n := |TemplateName(g)| - HASH_LENGTH;
      if TemplateName(g) == TemplateName(h) {
        assert TemplateName(g)[n..] == shortHash(HashInput(g));
        assert TemplateName(h)[n..] == shortHash(HashInput(h));
        HashInputInjective(g, h);
      }
    }
  }
}
