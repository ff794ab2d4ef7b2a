/** Scope arithmetic of Cross-App Access (services/authentication-service/internal/idjag.go and idjag_redemption.go). */
module Scopes {
  import opened Common
  import opened Words

  predicate Within(ws: seq<string>, allowed: seq<string>) {
    forall i :: 0 <= i < |ws| ==> ws[i] in allowed
  }

  /** At issuance an empty allow-list is no restriction, and an empty request takes the whole list. */
  function GrantedScopes(authorized: seq<string>, requested: seq<string>): Option<seq<string>> {
    if authorized == [] then Some(requested)
    else if requested == [] then Some(authorized)
    else if Within(requested, authorized) then Some(requested) else None
  }

  /** At issuance a request is refused exactly when the server has a list and the request names a scope outside it.
      Otherwise a scope is granted exactly when the list (if not empty) has it and the request (if not empty) names it,
      in the order of the request, or of the list when the request is empty. */
  lemma IssuedScopes(authorized: seq<string>, requested: seq<string>)
    ensures var r := GrantedScopes(authorized, requested);
            && (r.None? <==> authorized != [] && exists w :: w in requested && w !in authorized)
            && (r.Some? ==> r.value == (if requested == [] then authorized else requested) && forall w ::
                  w in r.value <==> (w in authorized || authorized == []) && (w in requested || (requested == [] && w in authorized)))
  {
    if authorized != [] && !Within(requested, authorized) {
      var i :| 0 <= i < |requested| && requested[i] !in authorized;
      assert requested[i] in requested;
    }
  }

  method ResolveScopes(authorized: seq<string>, requested: seq<string>) returns (granted: Option<seq<string>>)
    ensures granted == GrantedScopes(authorized, requested)
  {
    if |authorized| == 0 {
      return Some(requested);
    }
    if |requested| == 0 {
      return Some(authorized);
    }
    var allow := AllowSet(authorized);
    for i := 0 to |requested|
      invariant forall j :: 0 <= j < i ==> requested[j] in authorized
    {
      if requested[i] !in allow {
        return None;
      }
    }
    return Some(requested);
  }

  method AllowSet(ws: seq<string>) returns (allow: set<string>)
    ensures forall w :: w in allow <==> w in ws
  {
    allow := {};
    for i := 0 to |ws|
      invariant forall w :: w in allow <==> w in ws[..i]
    {
      allow := allow + {ws[i]};
      assert ws[..i + 1] == ws[..i] + [ws[i]];
    }
    assert ws[..|ws|] == ws;
  }

  /** The members of `scopes` that are also allowed, in their order. */
  function Kept(scopes: seq<string>, allowed: seq<string>): seq<string> {
    if scopes == [] then []
    else
      var last := scopes[|scopes| - 1];
      Kept(scopes[..|scopes| - 1], allowed) + (if last in allowed then [last] else [])
  }

  method IntersectScopes(scopes: seq<string>, allowed: seq<string>) returns (out: seq<string>)
    ensures out == Kept(scopes, allowed)
  {
    var allow := AllowSet(allowed);
    out := [];
    for i := 0 to |scopes|
      invariant out == Kept(scopes[..i], allowed)
    {
      assert scopes[..i + 1][..i] == scopes[..i];
      if scopes[i] in allow {
        out := out + [scopes[i]];
      }
    }
    assert scopes[..|scopes|] == scopes;
  }

  /** The intersection keeps every allowed occurrence and nothing else. */
  lemma {:induction false} KeptCounts(scopes: seq<string>, allowed: seq<string>, w: string)
    ensures multiset(Kept(scopes, allowed))[w] == if w in allowed then multiset(scopes)[w] else 0
    ensures w in Kept(scopes, allowed) <==> w in scopes && w in allowed
  {
    if scopes != [] {
      var front, last := scopes[..|scopes| - 1], scopes[|scopes| - 1];
      KeptCounts(front, allowed, w);
      assert scopes == front + [last];
      assert Kept(scopes, allowed) == Kept(front, allowed) + (if last in allowed then [last] else []);
      assert multiset(scopes)[w] == multiset(front)[w] + (if w == last then 1 else 0);
      assert multiset(Kept(scopes, allowed))[w] == multiset(Kept(front, allowed))[w] + (if w == last && last in allowed then 1 else 0);
    }
  }

  /** The scopes a redeemed assertion yields, or None for invalid_scope. */
  function RedeemScopes(claimScope: string, requestScope: string, cap: seq<string>): Option<seq<string>> {
    var carried, requested := Fields(claimScope), Fields(requestScope);
    var narrowed := if requested == [] then Some(carried) else if carried == [] then None else GrantedScopes(carried, requested);
    if narrowed.None? then None
    else Some(if cap == [] then narrowed.value else Kept(narrowed.value, cap))
  }

  method NarrowScopes(claimScope: string, requestScope: string, cap: seq<string>) returns (granted: Option<seq<string>>)
    ensures granted == RedeemScopes(claimScope, requestScope, cap)
  {
    var carried := Fields(claimScope);
    var requested := Fields(requestScope);
    var scopes := carried;
    if |requested| > 0 {
      var narrowed := ResolveScopes(carried, requested);
      if narrowed.None? || |carried| == 0 {
        return None;
      }
      scopes := narrowed.value;
    }
    if |cap| > 0 {
      scopes := IntersectScopes(scopes, cap);
    }
    return Some(scopes);
  }

  lemma KeptWords(scopes: seq<string>, allowed: seq<string>)
    requires AllWords(scopes)
    ensures AllWords(Kept(scopes, allowed))
  {
  }

  /** Redemption is refused exactly when the request names a scope the assertion does not carry. Otherwise a scope is
      granted exactly when the assertion carries it, the request (if not empty) asks for it and the cap (if not empty)
      allows it; and the scope string of the response lists just those. */
  lemma RedeemedScopes(claimScope: string, requestScope: string, cap: seq<string>)
    ensures var carried, requested := Fields(claimScope), Fields(requestScope);
            var r := RedeemScopes(claimScope, requestScope, cap);
            && (r.None? <==> !Within(requested, carried))
            && (r.Some? ==> Fields(Join(r.value)) == r.value && forall w ::
                  w in r.value <==> w in carried && (requested == [] || w in requested) && (cap == [] || w in cap))
  {
    var carried, requested := Fields(claimScope), Fields(requestScope);
    var r := RedeemScopes(claimScope, requestScope, cap);
    FieldsFromAreWords(claimScope, "");
    FieldsFromAreWords(requestScope, "");
    if requested != [] && carried == [] {
      assert requested[0] !in carried;
    }
    if r.Some? {
      var narrowed := if requested == [] then carried else requested;
      forall w ensures w in Kept(narrowed, cap) <==> w in narrowed && w in cap {
        KeptCounts(narrowed, cap, w);
      }
      KeptWords(narrowed, cap);
      FieldsOfJoin(r.value);
    }
  }

  /** Issuance then redemption: for a server with a non-empty list of words, whatever was granted stays within it. */
  lemma ScopesStayWithinTheServer(authorized: seq<string>, asked: string, requestScope: string, cap: seq<string>)
    requires authorized != [] && AllWords(authorized) && GrantedScopes(authorized, Fields(asked)).Some?
    ensures var issued := GrantedScopes(authorized, Fields(asked)).value;
            && Fields(Join(issued)) == issued && Within(issued, authorized)
            && (RedeemScopes(Join(issued), requestScope, cap).Some? ==>
                  Within(RedeemScopes(Join(issued), requestScope, cap).value, authorized))
  {
    var issued := GrantedScopes(authorized, Fields(asked)).value;
    FieldsFromAreWords(asked, "");
    FieldsOfJoin(issued);
    var redeemed := RedeemScopes(Join(issued), requestScope, cap);
    RedeemedScopes(Join(issued), requestScope, cap);
    if redeemed.Some? {
      forall i | 0 <= i < |redeemed.value| ensures redeemed.value[i] in authorized {
        assert redeemed.value[i] in redeemed.value;
      }
    }
  }
}
