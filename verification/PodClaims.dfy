/**
 The resource claim references of a pod template (spec.template.spec.resourceClaims): repointing the
 ones that name a template, and the two ways of putting the original back.
 */
module PodClaims {
  import opened Wrappers

  /** One entry's ResourceClaimTemplateName: None when the entry names a claim directly. */
  type Reference = Option<string>

  /** References to one template made references to another. */
  function Retargeted(refs: seq<Reference>, from: string, to: string): seq<Reference> {
    seq(|refs|, i requires 0 <= i < |refs| => if refs[i] == Some(from) then Some(to) else refs[i])
  }

  /** Every template-based reference made a reference to one template. */
  function AllPointedAt(refs: seq<Reference>, to: string): seq<Reference> {
    seq(|refs|, i requires 0 <= i < |refs| => if refs[i].Some? then Some(to) else None)
  }

  predicate OnlyTemplate(refs: seq<Reference>, name: string) {
    forall i :: 0 <= i < |refs| && refs[i].Some? ==> refs[i] == Some(name)
  }

  /** The object the scaler and the controller rewrite in place. */
  class PodTemplate {
    const claims: array<Reference>

    constructor (claims: array<Reference>)
      ensures this.claims == claims
    {
      this.claims := claims;
    }

    /** resourceclaim_handler.go:507-523. */
    method UpdateResourceClaims(from: string, to: string) returns (updated: bool)
      modifies claims
      ensures claims[..] == Retargeted(old(claims[..]), from, to)
      ensures updated <==> Some(from) in old(claims[..])
    {
      updated := false;
      for i := 0 to claims.Length
        invariant updated <==> Some(from) in old(claims[..i])
        invariant forall k :: 0 <= k < claims.Length ==>
                    claims[k] == if k < i && old(claims[k]) == Some(from) then Some(to) else old(claims[k])
      {
        if claims[i] == Some(from) {
          claims[i] := Some(to);
          updated := true;
        }
      }
    }

    /** resourceclaim_handler.go:527-550. */
    method RestoreAnyManagedTemplate(original: string) returns (updated: bool)
      modifies claims
      ensures claims[..] == AllPointedAt(old(claims[..]), original)
      ensures updated <==> !OnlyTemplate(old(claims[..]), original)
    {
      updated := false;
      for i := 0 to claims.Length
        invariant updated <==> !OnlyTemplate(old(claims[..i]), original)
        invariant forall k :: 0 <= k < claims.Length ==>
                    claims[k] == if k < i && old(claims[k]).Some? then Some(original) else old(claims[k])
      {
        if claims[i].Some? && claims[i].value != original {
          claims[i] := Some(original);
          updated := true;
        }
      }
    }

    /** resourceclaim_handler.go:639-712: by the recorded name when there is one. */
    method RestoreTemplate(current: string, original: string) returns (updated: bool)
      modifies claims
      ensures claims[..] == if current != "" then Retargeted(old(claims[..]), current, original)
                            else AllPointedAt(old(claims[..]), original)
      ensures !updated ==> claims[..] == old(claims[..])
    {
      if current != "" {
        updated := UpdateResourceClaims(current, original);
      } else {
        updated := RestoreAnyManagedTemplate(original);
      }
    }

    /** resourceclaimautoscaler_controller.go:704-748: what the finalizer does to the references. */
    method PointAllAt(original: string)
      modifies claims
      ensures claims[..] == AllPointedAt(old(claims[..]), original)
    {
      for i := 0 to claims.Length
        invariant forall k :: 0 <= k < claims.Length ==>
                    claims[k] == if k < i && old(claims[k]).Some? then Some(original) else old(claims[k])
      {
        if claims[i].Some? {
          claims[i] := Some(original);
        }
      }
    }
  }

  /** Repointing twice is repointing once, when the name in between was not already in use. */
  lemma RetargetChain(refs: seq<Reference>, original: string, current: string, next: string)
    requires current == original || Some(current) !in refs
    ensures Retargeted(Retargeted(refs, original, current), current, next) == Retargeted(refs, original, next)
  {
  }

  /** Restoring by name undoes a repointing exactly when the name was not in use before. */
  lemma RestoreByNameIff(refs: seq<Reference>, original: string, current: string)
    ensures Retargeted(Retargeted(refs, original, current), current, original) == refs
            <==> current == original || Some(current) !in refs
  {
  }

  /** Restoring without a name gives the list back exactly when every reference began on the original. */
  lemma RestoreAnyIff(refs: seq<Reference>, original: string, current: string)
    ensures AllPointedAt(Retargeted(refs, original, current), original) == refs <==> OnlyTemplate(refs, original)
  {
  }
}
