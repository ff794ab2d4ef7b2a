/** Protection levels and step-up methods (services/authentication-service/internal/protection.go and otp.go). */
module Protection {
  import opened Common
  import Words

  const SMS := "sms"
  const FIDO2 := "fido2"
  const ACR_SMS_OTP := "urn:xauth:otp:sms"
  const ACR_FIDO2 := "urn:xauth:fido2"

  /** One rung of the ladder: the acr a client asks for, its strength, and the method a challenge uses. */
  datatype Level = Level(acr: string, rank: nat, kind: string)

  const LEVELS: seq<Level> := [
    Level("urn:xauth:protect:high:protected", 1, SMS),
    Level("urn:xauth:protect:high:enhanced", 2, SMS),
    Level("urn:xauth:protect:high:restricted", 3, FIDO2),
    Level("urn:xauth:protect:high:strict", 4, FIDO2),
    Level("urn:xauth:protect:ultra:protected", 5, FIDO2),
    Level("urn:xauth:protect:ultra:enhanced", 6, FIDO2),
    Level("urn:xauth:protect:ultra:restricted", 7, FIDO2),
    Level("urn:xauth:protect:ultra:strict", 8, FIDO2)]

  /** A method-specific step-up: its acr, its method, and the amr stamped when the adapter reports none. */
  datatype Spec = Spec(acr: string, kind: string, amr: seq<string>)

  const SPECS: seq<Spec> := [
    Spec(ACR_SMS_OTP, SMS, ["otp", "sms"]),
    Spec(ACR_FIDO2, FIDO2, ["user", "swk"])]

  function FirstLevel(levels: seq<Level>, acr: string): Option<Level> {
    if levels == [] then None else if levels[0].acr == acr then Some(levels[0]) else FirstLevel(levels[1..], acr)
  }

  function ProtectionByACR(acr: string): Option<Level> {
    FirstLevel(LEVELS, acr)
  }

  /** The rank an acr stands for; 0 when it is not a protection level. */
  function RankOf(acr: string): nat {
    var level := ProtectionByACR(acr);
    if level.Some? then level.value.rank else 0
  }

  /** The first requested value, in the client's order, that is a protection level. */
  function FirstRequestedLevel(wants: seq<string>): Option<Level> {
    if wants == [] then None
    else if ProtectionByACR(wants[0]).Some? then ProtectionByACR(wants[0])
    else FirstRequestedLevel(wants[1..])
  }

  function MatchProtection(acrValues: string): Option<Level> {
    FirstRequestedLevel(Words.Fields(acrValues))
  }

  function SpecByACR(acr: string): Option<Spec> {
    if acr == ACR_SMS_OTP then Some(SPECS[0]) else if acr == ACR_FIDO2 then Some(SPECS[1]) else None
  }

  function FirstRequestedSpec(wants: seq<string>): Option<Spec> {
    if wants == [] then None
    else if SpecByACR(wants[0]).Some? then SpecByACR(wants[0])
    else FirstRequestedSpec(wants[1..])
  }

  function MatchStepUp(acrValues: string): Option<Spec> {
    FirstRequestedSpec(Words.Fields(acrValues))
  }

  function SpecForMethod(kind: string): Option<Spec> {
    if kind == SMS then Some(SPECS[0]) else if kind == FIDO2 then Some(SPECS[1]) else None
  }

  /** A tenant without a registry row keeps FIDO on. */
  function FidoEnabled(tenants: map<string, bool>, tenantID: string): bool {
    tenantID == "" || tenantID !in tenants || tenants[tenantID]
  }

  /** A passkey step-up falls back to the SMS code when the tenant has turned FIDO off. */
  function EffectiveSpec(tenants: map<string, bool>, tenantID: string, spec: Spec): Spec {
    if spec.kind != FIDO2 || FidoEnabled(tenants, tenantID) then spec else SPECS[0]
  }

  /** A matched level is on the ladder under its own acr, with a rank from 1 to 8 and a method that has a spec. */
  lemma {:induction false} MatchedLevel(wants: seq<string>)
    ensures var level := FirstRequestedLevel(wants);
            level.Some? ==> ProtectionByACR(level.value.acr) == level && RankOf(level.value.acr) == level.value.rank &&
                            1 <= level.value.rank <= 8 && SpecForMethod(level.value.kind).Some?
  {
    if wants != [] {
      if ProtectionByACR(wants[0]).Some? {
        KnownLevel(LEVELS, wants[0]);
      } else {
        MatchedLevel(wants[1..]);
      }
    }
  }

  lemma {:induction false} KnownLevel(levels: seq<Level>, acr: string)
    requires forall i :: 0 <= i < |levels| ==> 1 <= levels[i].rank <= 8 && (levels[i].kind == SMS || levels[i].kind == FIDO2)
    ensures var level := FirstLevel(levels, acr);
            level.Some? ==> level.value.acr == acr && 1 <= level.value.rank <= 8 && SpecForMethod(level.value.kind).Some?
  {
    if levels != [] && levels[0].acr != acr {
      KnownLevel(levels[1..], acr);
    }
  }

  /** The ladder is strictly monotone: a higher position is a higher rank, and no acr occurs twice. */
  lemma LadderIsMonotone()
    ensures forall i, j :: 0 <= i < j < |LEVELS| ==> LEVELS[i].rank < LEVELS[j].rank && LEVELS[i].acr != LEVELS[j].acr
    ensures SpecByACR(ACR_SMS_OTP).value.kind == SMS && RankOf(ACR_SMS_OTP) == 0 && RankOf(ACR_FIDO2) == 0
  {
    PlainMethodsHaveNoRank();
  }

  lemma PlainMethodsHaveNoRank()
    ensures RankOf(ACR_SMS_OTP) == 0 && RankOf(ACR_FIDO2) == 0 && RankOf("") == 0
  {
    NotOnLadder(LEVELS, ACR_SMS_OTP);
    NotOnLadder(LEVELS, ACR_FIDO2);
    NotOnLadder(LEVELS, "");
  }

  lemma {:induction false} NotOnLadder(levels: seq<Level>, acr: string)
    requires forall i :: 0 <= i < |levels| ==> levels[i].acr != acr
    ensures FirstLevel(levels, acr) == None
  {
    if levels != [] {
      NotOnLadder(levels[1..], acr);
    }
  }
}
