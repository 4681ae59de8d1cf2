/**
 Consuming a token's jti at the backend (models/nonce_consumer.py) and what each outcome
 means in each fallback mode (`_consume_nonce_with_failure_mode`).
 */
module NonceStage {
  import opened Texts
  import opened TokenVerifier

  datatype NonceOutcome = ACCEPTED | REPLAY | INDETERMINATE

  /** The HTTP status, or no answer in time. */
  datatype Answer = Status(code: int) | NoAnswer

  /** Where and as whom the backend is called; `baseTrusted` is the SSRF guard's verdict. */
  datatype Credentials = Credentials(apiBase: Text, baseTrusted: bool, merchantId: Text,
                                     installationId: Text, hmacSecret: Text)

  /** `Uncaught`: an exception nothing on the way catches, so the caller is refused. */
  datatype Refusal = R001 | R002 | NonceUnavailable | KillSwitch | CelTimeout | Rule(code: Text) | Uncaught

  /** Attributes handed on to the rule evaluation. */
  datatype NonceFlags = NoFlags | ReplayFlags | UnavailableFlags

  datatype Stage = Through(flags: NonceFlags) | Refused(why: Refusal)

  predicate Strict(mode: Text) {
    mode == Chars("strict")
  }

  /** A request leaves the worker only past these guards. */
  predicate Contacts(c: Credentials) {
    c.apiBase != [] && c.merchantId != [] && c.installationId != [] && c.baseTrusted
  }

  /** 10000-01-01T00:00:00Z, the first second `_gmt_iso` cannot write. */
  const YEAR_10000 := 253402300800

  predicate Latin1(t: Text) {
    forall i | 0 <= i < |t| :: t[i] < 0x100
  }

  /** The request can be written: its body, its signature, and its header, which carries the
      installation id and is Latin-1. (The credentials and the expiry are what may prevent it;
      without a positive expiry the clock is written instead.) */
  predicate Writable(c: Credentials, exp: int) {
    exp < YEAR_10000 && Encodable(c.merchantId) && Encodable(c.hmacSecret) && Latin1(c.installationId)
  }

  /** `consume_nonce`; None where it raises, which is past its guards and before the request. */
  function ConsumeNonce(c: Credentials, exp: int, answer: Answer): (o: Option<NonceOutcome>)
    ensures o == Some(ACCEPTED) <==> Contacts(c) && Writable(c, exp) && answer == Status(200)
    ensures o == Some(REPLAY) <==> Contacts(c) && Writable(c, exp) && answer == Status(409)
    ensures o == None <==> Contacts(c) && !Writable(c, exp)
  {
    if c.apiBase == [] || c.merchantId == [] || c.installationId == [] then Some(INDETERMINATE)
    else if !c.baseTrusted then Some(INDETERMINATE)
    else if !Writable(c, exp) then None
    else match answer
         case NoAnswer => Some(INDETERMINATE)
         case Status(code) =>
           Some(if code == 200 then ACCEPTED else if code == 409 then REPLAY else INDETERMINATE)
  }

  /** `_consume_nonce_with_failure_mode`. */
  function ConsumeWithFailureMode(id: Identity, c: Credentials, mode: Text, answer: Answer): Stage {
    if id.jti == [] || id.agentId == [] then Through(NoFlags)
    else if c.merchantId == [] || c.installationId == [] || c.hmacSecret == [] then
      if Strict(mode) then Refused(NonceUnavailable) else Through(UnavailableFlags)
    else match ConsumeNonce(c, id.exp, answer)
         case None => Refused(Uncaught)
         case Some(ACCEPTED) => Through(NoFlags)
         case Some(REPLAY) => if Strict(mode) then Refused(R002) else Through(ReplayFlags)
         case Some(INDETERMINATE) => if Strict(mode) then Refused(NonceUnavailable) else Through(UnavailableFlags)
  }

  datatype Action = Continue | Reject | Observe

  /** `map_outcome_to_action`, which the gate does not use. */
  function MapOutcomeToAction(o: NonceOutcome, mode: Text): Action {
    if o.ACCEPTED? then Continue
    else if o.REPLAY? then Reject
    else if Strict(mode) then Reject else Observe
  }

  /** The gate follows that reduction except on a replay outside strict mode, which it
      lets through with a flag. Where there is no outcome to reduce, it refuses. */
  lemma ActionsAgreeIff(id: Identity, c: Credentials, mode: Text, answer: Answer)
    requires id.jti != [] && id.agentId != [] && c.hmacSecret != []
    ensures var stage := ConsumeWithFailureMode(id, c, mode, answer);
            match ConsumeNonce(c, id.exp, answer)
            case None => stage == Refused(Uncaught)
            case Some(outcome) =>
              (MapOutcomeToAction(outcome, mode) == (match stage
                                                     case Refused(_) => Reject
                                                     case Through(NoFlags) => Continue
                                                     case Through(_) => Observe))
              <==> !(outcome.REPLAY? && !Strict(mode))
  {
  }

  /** What becomes of a request that can be sent, answer by answer. */
  lemma StageOfAnswer(id: Identity, c: Credentials, mode: Text, answer: Answer)
    requires id.jti != [] && id.agentId != [] && id.exp < 253402300800
    requires c.apiBase != [] && c.baseTrusted && c.merchantId != [] && c.installationId != [] && c.hmacSecret != []
    requires Encodable(c.merchantId) && Encodable(c.hmacSecret) && forall i | 0 <= i < |c.installationId| :: c.installationId[i] < 256
    ensures ConsumeWithFailureMode(id, c, mode, answer) ==
            if answer == Status(200) then Through(NoFlags)
            else if answer == Status(409) then
              if mode == Chars("strict") then Refused(R002) else Through(ReplayFlags)
            else if mode == Chars("strict") then Refused(NonceUnavailable) else Through(UnavailableFlags)
  {
    hide Chars;
  }

  /** What becomes of one that cannot: without credentials, host or trust it counts as not
      answered; an unwritable one leaves the gate as an exception. */
  lemma StageWithoutRequest(id: Identity, c: Credentials, mode: Text, answer: Answer)
    requires id.jti != [] && id.agentId != []
    ensures c.apiBase == [] || !c.baseTrusted || c.merchantId == [] || c.installationId == [] || c.hmacSecret == [] ==>
              ConsumeWithFailureMode(id, c, mode, answer) ==
              if mode == Chars("strict") then Refused(NonceUnavailable) else Through(UnavailableFlags)
    ensures c.apiBase != [] && c.baseTrusted && c.merchantId != [] && c.installationId != [] && c.hmacSecret != [] &&
            (253402300800 <= id.exp || !Encodable(c.merchantId) || !Encodable(c.hmacSecret) ||
             exists i | 0 <= i < |c.installationId| :: c.installationId[i] >= 256) ==>
              ConsumeWithFailureMode(id, c, mode, answer) == Refused(Uncaught)
  {
    hide Chars;
  }
}
