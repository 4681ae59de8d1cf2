# Order enforcement layer of the Trusteed Odoo addon: a Dafny model

The addon decides whether a sale order may be confirmed, signs order events, and pulls a
signed rule snapshot. This project models that logic and proves what it guarantees:

- **Canonical JSON** (`Json`, `KeySort`, `Jcs`, `JsonReader`, `JcsTheorems`, `EcmaNumbers`, with
  `Texts` and `Decimals`). Values keep dict insertion order visible as association lists; texts are
  sequences of code points, so lone surrogates exist. The reader is written independently of
  the printer. The main result is that two values print alike exactly when they are the same
  JSON value.
- **Agent tokens** (`TokenVerifier`, `NonceHistory`, `NonceTightness`, `Base64Url`). The claim
  checks, the exceptions they can raise, and the evicting nonce cache of one worker, over
  whole runs.
- **Replay protection** (`NonceStage`, `ReplayProtocol`). Workers running both gates, delayed
  and lost messages and one consuming backend as a state machine.
- **The gate** (`IntentText`, `EnforcementGate`, `GateWitness`, `SaleOrders`, `SingleUse`). The
  record gate and the create gate, fallback modes, token binding, the three entry paths to a
  confirmed order, and what one token can confirm, by one worker and by many.
- **Snapshot pull** (`SnapshotCache`), **offline rules** (`OfflineEvaluator`), **order events**
  (`OrderEvents`).
- **References** (`TokenReference`, `GateReference`, `SnapshotReference`, `RuleReference`,
  `EventReference`). What tokens, gates, snapshots, rules and events are, said a second time
  without the model's own predicates: in terms of parts, members, library calls and literals. The
  modules above are proved to mean exactly that.

Libraries the addon calls (base64 and JSON decoding of tokens, Ed25519, SHA-256, HMAC, UUIDv5,
float and timestamp parsing) are function-valued parameters, so every statement holds for any
behaviour of theirs. No statement assumes a hash without collisions; where two texts have to be
told apart by their hashes, the hypothesis names those two, or those hashed in the run at hand.
HTTP answers, clocks, the SSRF guard's verdict, the record's lines and the merchant id of an
event are inputs. A token is what a client may put in its place: a text or any other truthy
value. Rule parameters are whatever JSON the snapshot holds. Functions and lemmas specify; the
classes `TokenVerifier.Verifier`, `SaleOrders.OrderModel` and
`SnapshotCache.SnapshotService` and the other methods follow the source statement by statement
and are proved equal to those functions.

## Where the code differs from its documentation

The model follows the code in each case.

- The module docstring (`models/sale_order_enforcement.py:9`) and the repository's `README.md:143` let the fallback
  mode decide when the kill switch is on; the code blocks in every mode
  (`EnforcementGate.KillSwitchBlocksAlways`).
- The repository's `README.md:143` lets the configured mode decide when the snapshot is unavailable; the code then
  has no mode and resolves to `balanced`, which passes (same lemma).
- A replay outside strict mode is flagged and passed by the gate, while the unused
  `map_outcome_to_action` rejects it (`NonceStage.ActionsAgreeIff`).
- An exception of the verifier is met as if the service were down: outside strict mode the
  order passes, unflagged, and no policy rule is asked (`EnforcementGate.RecordGatePassesIff`).
  Three exceptions strike whatever the nonce cache holds (`ReplayProtocol.RaisesAlwaysIff`). A token
  that is no text, which an ORM context or the values of a create can hold, has no `split`: it
  passes any order with nothing checked (`GateWitness.NoTextPassesEveryOrder`). `float()` raises
  on an integer claim of 2^1024 - 2^970 or more, after signature, audience and merchant have been
  checked and before window and intent hash: such a token passes every order of its merchant
  (`GateWitness.OneTokenPassesEveryOrder`), and among texts that is the only way past the binding
  (`EnforcementGate.OtherIntentPassesRecordIff`). And a nonce may be no UTF-8 text.
- A window of 330 s is enforced only on a finite `iat`: with nan or Infinity, which Python's JSON
  reader accepts, every finite `exp` is in order (`NonceHistory.AcceptedInTime`,
  `NonceTightness.ManyAcceptances`).
- `consume_nonce` says it never raises (`models/nonce_consumer.py:103`). It does for an `exp` in
  the year 10000 or later, for credentials that are no UTF-8 text and for an installation id
  outside Latin-1, which a header cannot carry; nothing catches that, so the order is refused in
  every mode (`NonceStage.ConsumeNonce`).
- The offline evaluator raises on rule parameters of a wrong type, a limit written as text for
  one, and nothing catches that either (`EnforcementGate.OutageAppliesOfflineRules`).
- The create gate never consumes the token at the backend. A create token is single-use only
  towards a worker that has seen it in the last 300 s, strict mode included
  (`EnforcementGate.CreatePassesAgainIff`, `ReplayProtocol.CreatePassesOnEveryWorker`).
- A write of state sale runs the gate on the token and amount it is about to replace
  (`SaleOrders.WriteCommitsUngatedAmount`).
- The tier-2 test compares whole rule codes, the offline evaluator strips the suffix, so a rule
  `R030.x` that blocks an order in the evaluator never gets there
  (`EnforcementGate.OutageBlocksIff`, `GateWitness.SuffixLetsBlockedOrderPass`).
- Both event models search the merchant in `enforcement.company.map`
  (`models/stock_picking_fulfillment.py:186`, `models/account_move_refund_proxy.py:199`), but the
  model declared is `trusteed.company.enforcement.map` (`models/enforcement_company_map.py:36`). As
  written the search fails, the error is logged and no event leaves; `OrderEvents` models what
  follows a search that finds a merchant or none.
- The printer claims RFC 8785 output. Its code point order meets section 3.2.3 of RFC 8785 exactly
  when no two keys first differ by a code point in U+E000..U+FFFF against a supplementary one
  (`KeySort.SortMeetsRfc8785`, counterexample `KeySort.SortCanMissRfc8785`). Its non-integer
  numbers meet section 3.2.2.3 exactly when the leading digit does not stand for 10^-5 to 10^-9
  (nor for 10^21 or more, which no such float reaches): 0.00001 prints as `1e-05`
  (`EcmaNumbers.FractionMeetsEcmaIff`). Integer-valued floats print their exact digits, ECMA-262
  pads their shortest digits with zeros and turns to an exponent at 10^21; the texts agree exactly
  when the shortest decimal is exact and below 10^21 (`EcmaNumbers.WholeMeetsEcmaIff`), so up to
  2^53 and no longer at 2^60 (`EcmaNumbers.LargeIntegersDeviate`).
- The nonce cache alone does not make a token single-use: entries live 300 s, tokens up to 360 s
  after `iat` and arbitrarily long before it (`NonceHistory.NthAcceptanceNeedsEarlyFirst`, attained
  for every n by `NonceTightness.ManyAcceptances`).

## Model

| member | source | states |
|---|---|---|
| JsonReader.ReadInvertsPrint | utils/jcs.py:27-91 | For every nested value that prints, a JSON reader run on the text followed by any legal rest returns the value's normal form and exactly that rest. |
| JcsTheorems.PrintAlikeIffSameValue | utils/jcs.py:27-49 | Two printable values have the same canonical text if and only if they are the same JSON value: dicts as maps at every depth, lists and tuples identified, integer-valued numbers identified. |
| Jcs.SameValueSameText | utils/jcs.py:41-48 | Values that differ only in insertion order, list or tuple, or 99 against 99.0 canonicalize to the same text, or raise the same error. |
| JcsTheorems.NoTextIsPrefixOfAnother | utils/jcs.py:27-49 | The text of a value that is no number is never a proper prefix of another value's text. |
| JcsTheorems.PrintsIffPrintable | utils/jcs.py:35-37 | The printer raises on exactly the values that contain a non-finite float or an unsupported type at some depth. |
| JcsTheorems.ReadThenPrintIsIdentity | utils/jcs.py:27-49 | Reading an output consumes all of it and yields a well-formed value, the same as the printed one, whose canonical text is that output. |
| Jcs.EscapeString | utils/jcs.py:52-77 | The appending loop computes the concatenated escapes of all characters between quotes. |
| JcsTheorems.PlainPrintsAsItself | utils/jcs.py:74-76 | A string without control characters, quote and backslash canonicalizes to exactly itself between quotes; the slash stays as it is. |
| JcsTheorems.StringsConcatenate | utils/jcs.py:55-77 | Strings print character by character. |
| JcsTheorems.EscapesAre | utils/jcs.py:57-73 | Quote, backslash, \b, \t, \n, \f and \r print as two characters; every other control character as \u00 and two lower-case hexadecimal digits. |
| JsonReader.ReadStringInverts | utils/jcs.py:52-77 | A quoted string followed by anything is read back as the string and that rest. |
| JsonReader.ReadDecimalInverts | utils/jcs.py:80-91 | The text of a non-integer float, positional or with an exponent, is read back as that number. |
| EcmaNumbers.FractionMeetsEcmaIff | utils/jcs.py:80-91 | The text of a non-integer float is the one Number::toString of ECMA-262 prescribes if and only if its leading digit stands for 10^-4 to 10^20 or for 10^-10 or less. |
| EcmaNumbers.WholeMeetsEcmaIff | utils/jcs.py:87-88 | The text of an integer-valued float is the one ECMA-262 prescribes if and only if its shortest decimal is exact and below 10^21. |
| EcmaNumbers.SafeIntegersMeetEcma | utils/jcs.py:81-86 | Integers up to 2^53 in magnitude, which are their own shortest decimals, print as ECMA-262 prescribes. |
| EcmaNumbers.LargeIntegersDeviate | utils/jcs.py:14 | The floats 2^60 and 10^22 do not. |
| KeySort.SortMeetsRfc8785 | utils/jcs.py:44 | On well-formed distinct keys, sorting by code point gives the UTF-16 order of section 3.2.3 of RFC 8785 if and only if no two keys cross. |
| KeySort.BelowPrivateUseNeverCrosses | utils/jcs.py:44 | Key sets without code points in U+E000..U+FFFF never cross, supplementary characters included. |
| KeySort.SortCanMissRfc8785 | utils/jcs.py:11 | A key set on which code point order is not the order RFC 8785 requires. |
| Texts.OrdersAgree | utils/jcs.py:44 | Code point order and UTF-16 order of two well-formed texts agree if and only if their first difference does not cross. |
| JcsTheorems.PrintedKeyOrder | utils/jcs.py:43-48 | The members of a printed dict, as a reader finds them, stand in RFC 8785 order if and only if no two keys cross. |
| Base64Url.DecodeInvertsEncode | models/enforcement_snapshot.py:35-40 | Decoding with recomputed padding inverts unpadded encoding for every byte string; encodings contain neither pad nor dot. |
| Base64Url.EncodeInvertsDecode | models/enforcement_snapshot.py:35-40 | A text of symbols decodes if and only if its length is possible, and re-encodes to itself if and only if its unused bits are zero. |
| Base64Url.CompactJwsSplits | controllers/main.py:49-60 | Splitting a built token on dots gives exactly three parts that decode to header, payload and signature, and the original signing input. |
| Base64Url.KnownAnswers | models/enforcement_snapshot.py:35-40 | Test vectors of RFC 4648 and one with both special symbols. |
| Base64Url.ThreeBytesAreFourSymbols | models/enforcement_snapshot.py:35-40 | Three bytes are four symbols whose values in base 64 are the 24 bits. |
| TokenVerifier.Verifier.VerifyAgentToken | models/enforcement_token_verifier.py:50-232 | Outcome, exceptions included, and new cache of one call, whatever stands in the place of the token, are those of the specification: checks first, then eviction, replay test, recording, issuer, jti and the conversion of `exp`. |
| TokenVerifier.Verifier.EvictExpired | models/enforcement_token_verifier.py:44-47 | The loop removes exactly the entries whose expiry is not after now. |
| TokenVerifier.CheckToken | models/enforcement_token_verifier.py:78-179 | The sequence of early returns succeeds if and only if header, key, signature and all claims hold, and raises if and only if the token is no text, or all checks up to audience and merchant hold, both time claims are numbers and one is an integer beyond the floats. |
| TokenReference.AcceptedIsGenuine | models/enforcement_token_verifier.py:78-232 | What is accepted has three parts, EdDSA header and type, a signature of its first two parts under the 32-byte key listed for the DID before `#` in `kid`, this audience, merchant and intent, times within the literal bounds, a hashable nonce of 16 to 64 characters not alive in the cache, the issuer of the key, and a `jti` of 16 to 128 letters, digits, dashes and underscores. |
| TokenReference.GenuineIsAccepted | models/enforcement_token_verifier.py:198-232 | Conversely every such call is accepted, as this identity; expired entries are dropped and the nonce is recorded for 300 s. |
| TokenReference.NotRejectedIsSigned | models/enforcement_token_verifier.py:120-146 | A text on which the verifier accepts or raises carries such a signature, for this audience and merchant. |
| TokenReference.ForgedIsRejected | models/enforcement_token_verifier.py:143-146 | If Ed25519 says no to that signature, the call is rejected and the cache left alone. |
| TokenReference.RaisesEarlyIff | models/enforcement_token_verifier.py:157-168 | A signed text raises on its claims if and only if `exp` and `iat` are both numbers and one of them is an integer beyond the floats. |
| TokenReference.FloatLimitIs | models/enforcement_token_verifier.py:167-168 | Beyond the floats means 2^1024 - 2^970 or more in magnitude. |
| NonceHistory.EvictionIsInvisible | models/enforcement_token_verifier.py:198-203 | In every run with a non-decreasing clock, and for any hash, a call is refused as a replay if and only if a log that never forgets holds a recording under the same hash less than 300 s earlier. |
| NonceHistory.ReplayMeansSameText | models/enforcement_token_verifier.py:198-203 | If no two texts hashed in that run collide, that is a recording of the same DID-and-nonce text in a log of texts. |
| NonceHistory.EntriesWithinTtl | models/enforcement_token_verifier.py:44-47 | After each call that records a nonce, all entries expire within (now, now + 300]. |
| NonceHistory.AcceptancesApart | models/enforcement_token_verifier.py:198-203 | Two acceptances of one token by one worker are at least 300 s apart. |
| NonceHistory.AcceptedInTime | models/enforcement_token_verifier.py:167-174 | What is accepted has a finite `exp` at most 30 s past, and `exp` at most 330 s after `iat` if `iat` is finite; else `iat` is nan or Infinity. |
| NonceHistory.NthAcceptanceNeedsEarlyFirst | models/enforcement_token_verifier.py:169-203 | The n-th acceptance of a token by one worker requires the first to lie 300 (n - 1) s before the end of its life, which is `exp` + 30 and at most `iat` + 360 for a finite `iat`. |
| NonceHistory.AtMostTwoAcceptances | models/enforcement_token_verifier.py:35-37 | A token with a finite `iat` that is never presented before it is accepted at most twice in any run. |
| NonceTightness.ManyAcceptances | models/enforcement_token_verifier.py:169-203 | Both bounds are attained for every n and every `exp`: a run in which one token is accepted n times, first exactly at the bound; with an `iat` of nan nothing bounds the first by `iat`. |
| NonceStage.ConsumeNonce | models/nonce_consumer.py:84-156 | ACCEPTED if and only if the request could be sent and was answered 200; REPLAY if and only if it was answered 409; an exception if and only if the guards are past and expiry, credentials or the header cannot be written. |
| NonceStage.StageOfAnswer | models/sale_order_enforcement.py:917-959 | Past the guards 200 passes unflagged; 409 is R002 in strict mode and the replay flag otherwise; anything else is unavailable in strict mode and the unavailable flag otherwise. |
| NonceStage.StageWithoutRequest | models/sale_order_enforcement.py:904-915 | Without credentials, host or trust the stage decides as without an answer; an unwritable request leaves the gate as an exception. |
| NonceStage.ActionsAgreeIff | models/nonce_consumer.py:159-173 | Gate and `map_outcome_to_action` agree if and only if the case is not a replay outside strict mode; where the client raises there is no outcome and the gate refuses. |
| ReplayProtocol.StepKeepsInvariant | models/nonce_consumer.py:10-15 | Every step of a record gate, a create gate, the backend or the network keeps the protocol invariant. |
| ReplayProtocol.CleanPassIsUnique | models/sale_order_enforcement.py:193-199 | In every reachable state at most one record-gate run per (merchant, agent, jti) passed the nonce stage unflagged; next to it every other pass of that stage carries the replay or the unavailable flag. |
| ReplayProtocol.StrictPassesOnce | models/sale_order_enforcement.py:932-959 | In strict mode a (merchant, agent, jti) passes the nonce stage of the record gate at most once, across all workers, interleavings and losses. |
| ReplayProtocol.GatePassIsProtocolPass | models/sale_order_enforcement.py:141-199 | A pass of the record gate with a token is, in the state machine, either a pass after an exception or a request that settles with the same answer and the same flags. |
| ReplayProtocol.TokenPassesRecordOnce | models/sale_order_enforcement.py:875-959 | One token passes the nonce stage of the record gate at most once in strict mode and at most once unflagged; its only other unflagged passes follow an exception of the verifier, never in strict mode, never with a token any record gate verified. |
| ReplayProtocol.RaisesAlwaysIff | models/enforcement_token_verifier.py:79-199 | The verifier raises on a call whatever its cache holds if and only if the token is no text, or the claims overflow, or all checks hold and DID plus nonce cannot be encoded as UTF-8. |
| ReplayProtocol.RaisingTokenPassesEveryTime | models/sale_order_enforcement.py:168-176 | For every n a reachable state in which one worker let such a token through the record gate n times unflagged, outside strict mode. |
| ReplayProtocol.CreatePassesOnEveryWorker | models/sale_order_enforcement.py:801-867 | For every n a reachable state in which n workers each let one token through the create gate, in any mode. |
| IntentText.SameIntentIff | models/sale_order_enforcement.py:144-151 | Two intents have the same JSON text if and only if order id, merchant and amount agree as UTF-16. |
| IntentText.PlainIntent | models/sale_order_enforcement.py:144-151 | The text of an intent of plain parts, literally: amount, merchantId and orderId in that order, with the separators of `json.dumps`. |
| IntentText.ShortCodesAre | models/sale_order_enforcement.py:144-151 | The seven units with a two-character escape of their own. |
| IntentText.LongCodesAre | models/sale_order_enforcement.py:144-151 | Every code unit without a letter of its own and outside printable ASCII is written as \u and four lower-case hexadecimal digits. |
| EnforcementGate.BuildDidResolver | models/sale_order_enforcement.py:988-1004 | The loop computes the resolver of the snapshot's usable entries. |
| EnforcementGate.ResolverEntries | models/sale_order_enforcement.py:1001-1003 | Every resolver entry is a usable entry of the snapshot. |
| GateReference.ResolverIff | models/sale_order_enforcement.py:988-1004 | The resolver holds a DID exactly with the `x` of the last usable entry of the snapshot for it. |
| EnforcementGate.StrictPassesIff | models/sale_order_enforcement.py:106-295 | On one order and one set of answers the strict gate passes if and only if the non-strict gate passes without having leaned on its mode; both leave the same cache. |
| EnforcementGate.LaxModesAgree | models/sale_order_enforcement.py:969-985 | All non-strict modes reach the same decision and cache on both gates. |
| EnforcementGate.StrictCreatePassesIff | models/sale_order_enforcement.py:801-851 | The strict create gate passes if and only if the non-strict one does, a token was there and the verifier did not raise. |
| EnforcementGate.OutageAppliesOfflineRules | models/sale_order_enforcement.py:241-286 | With the rule service out of reach the first offline rule that blocks or raises decides in every mode; when none does only strict blocks. |
| EnforcementGate.RecordGatePassesIff | models/sale_order_enforcement.py:131-295 | Given a snapshot, the record gate passes if and only if the kill switch is off and: without a token the policy rules hold; with a verified one the nonce stage lets it through and the rules hold knowing its agent; after an exception of the verifier the mode is not strict, and the rules are not asked. |
| GateReference.RuleServiceDecides | models/sale_order_enforcement.py:217-295 | With a tier-2 rule enabled the record gate obeys the rule service: asked without an agent when there is no token, else with the verified agent, its score and the flags of the nonce stage; asked exactly when merchant, installation and secret are there and the host is trusted. A block blocks with its code, no block passes; without an answer the rules in hand decide, and then the mode. |
| GateReference.RuleServiceNotAsked | models/sale_order_enforcement.py:451-460 | With a credential missing, an untrusted host or no tier-2 rule the service does not matter; for a create it never does. |
| GateReference.BackendDecides | models/sale_order_enforcement.py:183-199 | Without tier-2 rules a verified token passes or not exactly as the backend answers 200, 409 or anything else, in the snapshot's mode. |
| GateReference.CallsAre | models/sale_order_enforcement.py:141-165 | The verifier is asked with the intent hash of the record's own id, or of `pending` for a create, the snapshot's merchant and resolver, and the clock of this run. |
| GateReference.HasTier2Iff | models/sale_order_enforcement.py:218-229 | Tier 2 is R003 to R030 without R007. |
| GateReference.FieldComesFirst | models/sale_order_enforcement.py:132-135 | A token in the field, or in the values of a create, is the one that counts; the context only without it. |
| EnforcementGate.PassMeansChecked | models/sale_order_enforcement.py:131-199 | With a snapshot and a token, a pass of the record gate implies for a text signature, audience and merchant, and window and intent hash if and only if the claims do not overflow; and issuer and a non-empty identity, named in the decision, unless the token is one the verifier can raise on, a token that is no text among them, and then the mode is not strict and nobody is named. |
| EnforcementGate.ValsPassMeansChecked | models/sale_order_enforcement.py:801-851 | The same for the create gate, with the intent of order id `pending`. |
| GateReference.PassedTextIsSigned | models/sale_order_enforcement.py:141-181 | A gate that passes a text, in any mode, has found in its snapshot the last usable key for the DID in `kid`, and Ed25519 said yes to the signature of the first two parts under it. |
| GateReference.ForgedIsBlocked | models/sale_order_enforcement.py:178-181 | If Ed25519 says no, both gates block, in every mode. |
| EnforcementGate.CreatePassesAgainIff | models/sale_order_enforcement.py:801-867 | A token that passed the create gate on one cache passes it on another if and only if its nonce is not alive there; so on an empty one. |
| EnforcementGate.OtherMerchantNeverPasses | models/enforcement_token_verifier.py:152-155 | A token of another merchant passes neither gate, in any mode. |
| EnforcementGate.StrictPassIsFresh | models/sale_order_enforcement.py:917-959 | In strict mode a pass with a token was answered 200 by the backend and carries no flag. |
| EnforcementGate.OtherIntentIsRefused | models/enforcement_token_verifier.py:156-179 | Presented for an intent that differs from its own in order id, merchant or amount text, a token is refused, and raises instead if and only if its claims overflow; either way the cache stays as it was. Assumes only that these two intents do not collide. |
| EnforcementGate.EarlyExceptionPasses | models/sale_order_enforcement.py:168-176 | A token that is no text, and one whose claims overflow, passes both gates outside strict mode and without kill switch, over any order, unflagged and unnamed, and neither gate otherwise. |
| EnforcementGate.OtherIntentPassesRecordIff | models/sale_order_enforcement.py:141-181 | A token minted for another intent passes the record gate if and only if the mode is not strict, the kill switch is off and its claims overflow. |
| EnforcementGate.OtherIntentPassesCreateIff | models/sale_order_enforcement.py:815-852 | The same for the create gate: another merchant, another amount or a record's order id. |
| GateWitness.OneTokenPassesEveryOrder | models/enforcement_token_verifier.py:167-168 | The exception exists: one token minted for order 1 over 10.0 that in balanced mode passes order 1, order 2 over 99.0 and a create over 99.0, with a hash that has no collisions. |
| GateWitness.NoTextPassesEveryOrder | models/sale_order_enforcement.py:133-136 | A context token that is no text lets any record pass in balanced mode that the merchant's amount limit blocks without it, and so does one in the values of a create; whatever the libraries answer. |
| EnforcementGate.TokenBoundToRecord | models/sale_order_enforcement.py:144-181 | A token minted for one record passes the gate of another if and only if the mode is not strict, the kill switch is off and its claims overflow. |
| EnforcementGate.RecordTokenBoundAgainstCreate | models/sale_order_enforcement.py:816-826 | Under the same condition, and no other, a token minted for a record passes the create gate. |
| EnforcementGate.CreateTokenBoundAgainstRecord | models/sale_order_enforcement.py:816-826 | Under the same condition, and no other, a token minted for a create passes the record gate. |
| EnforcementGate.SuffixedCodesSkipRules | models/sale_order_enforcement.py:218-231 | A snapshot whose enabled rule codes all carry a suffix consults neither the rule service nor the offline rules. |
| EnforcementGate.OutageBlocksIff | models/sale_order_enforcement.py:218-286 | With the rule service out of reach, outside strict mode, the rules block an order if and only if some rule blocks it or raises on it and some enabled rule has a whole tier-2 code. |
| GateWitness.SuffixLetsBlockedOrderPass | models/sale_order_enforcement.py:224-229 | An order over the limit of a rule listed as R030 is blocked during an outage, and passes when the rule is listed as R030.x, although the offline evaluator blocks it under either code. |
| SaleOrders.OrderModel.Enforce | models/sale_order_enforcement.py:90-310 | Decision, noted DID and cache of the record gate, statement by statement and with every exception of verifier, nonce client and rule call, are those of the specification. |
| SaleOrders.OrderModel.EnforceVals | models/sale_order_enforcement.py:761-867 | Decision and cache of the create gate, with every exception of the verifier, are those of the specification. |
| SaleOrders.OrderModel.ActionConfirm | models/sale_order_enforcement.py:65-69 | Gates run on all orders before the commit; a block stops and commits nothing. |
| SaleOrders.OrderModel.CreateMulti | models/sale_order_enforcement.py:71-77 | Only creates arriving with state sale are gated; a block creates nothing. |
| SaleOrders.OrderModel.WriteVals | models/sale_order_enforcement.py:79-84 | Only writes of state sale are gated; the whole patch is committed after all gates passed. |
| SaleOrders.ConfirmLeaves | models/sale_order_enforcement.py:65-69 | A confirm that passes makes every order named a sale and changes no token or amount, nor any other order. |
| SaleOrders.ConfirmNotesAgent | models/sale_order_enforcement.py:305-310 | Confirming one order passes exactly when its gate does, and notes the agent named, unless that is empty or "unknown". |
| SaleOrders.WriteLeaves | models/sale_order_enforcement.py:79-84 | A write sets exactly the members it names on the orders it names, and runs gates only when it sets the state to sale. |
| SaleOrders.CreateLeaves | models/sale_order_enforcement.py:71-77 | A create that passes adds each order as asked for, a draft unless a state is given, and leaves the others alone. |
| SaleOrders.BatchPassesIff | models/sale_order_enforcement.py:65-84 | A batch passes if and only if each gate run in it, on the cache the runs before it left, passes its record over the token and amount the record holds. |
| SaleOrders.ConfirmedWasLetThrough | models/sale_order_enforcement.py:65-84 | Whatever step confirms an order had a gate run on it that passed on the very cache it met in that step. |
| SaleOrders.LetThroughWasChecked | models/sale_order_enforcement.py:65-84 | Whichever path let an order through, given a snapshot and a token its gate had made the checks of PassMeansChecked or ValsPassMeansChecked on it, with their exceptions, without kill switch; a record in strict mode also had the 200 of the backend. |
| SaleOrders.ConfirmedOnItsTerms | models/sale_order_enforcement.py:65-84 | A gate run of the step that confirms an order, on the cache it met there, passed the very token and amount the step commits, provided it is no write that changes them; confirms and creates always do. |
| SaleOrders.OtherAmountPassesIff | models/sale_order_enforcement.py:144-150 | A record passed over one amount, given a snapshot and a token, passes over another on the same cache if and only if the amounts are the same text or the verifier raises before it looks at the intent. |
| SaleOrders.WriteCommitsUngatedAmount | models/sale_order_enforcement.py:79-84 | Whenever the gate passes a record's old amount, a write of state sale with any new amount is committed; the new amount was then passed by a gate if and only if it is the same text or the verifier had raised early. |
| SaleOrders.RefusedBatchChangesNothing | models/sale_order_enforcement.py:65-84 | One refused order refuses the batch: no order is added or changes state, token or amount. |
| SaleOrders.KillSwitchConfirmsNothing | models/sale_order_enforcement.py:787-799 | No step that would meet the kill switch confirms any order. |
| SaleOrders.EverySaleWasLetThrough | models/sale_order_enforcement.py:65-84 | In every state reachable by confirms, creates and writes, each confirmed order was let through by a gate run inside the very step that confirmed it, on the cache met there, and that step met no kill switch. |
| SaleOrders.EverySaleStaysOnItsTerms | models/sale_order_enforcement.py:65-84 | As long as no write from that step on changes its token or amount, the token and amount a confirmed order holds are the ones a gate passed in that step, on the cache met there. |
| SingleUse.VerifiedPassesApart | models/enforcement_token_verifier.py:198-203 | Over any run of one worker whose clock does not go back, two gate runs that pass with one verified token, in one step or two and at either gate, lie at least 300 s apart. |
| SingleUse.ConfirmationsApart | models/sale_order_enforcement.py:65-84 | So do two confirmations with one token on which the verifier cannot raise, whichever entry paths they take. |
| SingleUse.StrictPassIsUnique | models/sale_order_enforcement.py:917-959 | Across all workers, with a backend that answers 200 only for what it newly stores, one token makes at most one gate run of records pass in strict mode. |
| SingleUse.OneTokenOneRecord | models/sale_order_enforcement.py:65-84 | Hence in strict mode one token confirms at most one record, by whichever workers and in however many turns. |
| SnapshotCache.SnapshotService.FetchJwks | models/enforcement_snapshot.py:85-112 | Keys, caches and request count are those of the specification; a malformed document changes nothing. |
| SnapshotCache.SnapshotService.VerifyJwsSnapshot | models/enforcement_snapshot.py:43-82 | Outcome, caches and request count are those of the specification. |
| SnapshotCache.SnapshotService.Pull | models/enforcement_snapshot.py:115-185 | Outcome, caches and whether the entry is written are those of the specification. |
| SnapshotCache.VerifyIsSound | models/enforcement_snapshot.py:58-82 | A returned payload is the payload of the JWS and verifies under the keys held on return; one verification makes at most two JWKS requests. |
| SnapshotReference.VerifiesIffAuthentic | models/enforcement_snapshot.py:43-82 | To verify means: three ASCII parts, EdDSA header, a payload that is not null, and a signature of the first two parts that Ed25519 accepts under the 32-byte key held under the header's `kid`. |
| SnapshotReference.AnsweredIsAuthentic | models/enforcement_snapshot.py:115-185 | Every payload a pull returns is that of an authentic text under the keys then held, and that text is the cache entry. |
| SnapshotReference.CachedWasAuthentic | models/enforcement_snapshot.py:163-184 | After any run every cached text was authentic under the keys of the time it was accepted. |
| SnapshotReference.NothingWithoutSignature | models/enforcement_snapshot.py:75-78 | If no signature verified, no run would store a snapshot or answer with one. |
| SnapshotReference.KeysIff | models/enforcement_snapshot.py:100-109 | A key document of objects yields its Ed25519 keys of 32 bytes, the last of a name winning; any other item raises. |
| SnapshotReference.FetchIs | models/enforcement_snapshot.py:85-99 | A fetch makes no request exactly while it is not forced and holds unexpired keys; a failed one leaves what is held. |
| SnapshotReference.FetchReplaces | models/enforcement_snapshot.py:100-112 | A document replaces the held keys for an hour. |
| SnapshotReference.PullIs | models/enforcement_snapshot.py:115-185 | What a pull does, case by case: untrusted host, live entry, 200, 304, other answers, with the lifetime of what it stores. |
| SnapshotReference.VerifyTriesTwice | models/enforcement_snapshot.py:58-66 | Held keys are used when they hold the name; when they do not, keys are fetched afresh once, and what they do not hold either is refused. |
| SnapshotReference.NamelessIsRefused | models/enforcement_snapshot.py:45-57 | Other than three parts, no JSON, another algorithm or no `kid` is refused without a request; a header that is no object raises. |
| SnapshotReference.FetchRaises | models/enforcement_snapshot.py:101-103 | A key document of any other shape raises and changes nothing. |
| SnapshotCache.FetchKeeps32Bytes | models/enforcement_snapshot.py:100-111 | Every stored key has 32 bytes, whatever document arrives. |
| SnapshotCache.CacheRemembersLastGood | models/enforcement_snapshot.py:132-185 | After any run the snapshot cache holds, for each merchant and company, the JWS last fetched and accepted; it verified under the keys of that time, and its expiry lies 60 to 300 s after its last write. |
| SnapshotCache.AnswersAreLastGood | models/enforcement_snapshot.py:132-185 | Every non-empty answer of any run is the payload of the JWS most recently accepted for that merchant and company, and verifies under the keys held on return. |
| SnapshotCache.OtherEntriesUntouched | models/enforcement_snapshot.py:132-184 | A pull never changes the entry of another merchant or company. |
| SnapshotCache.WritesApart | models/enforcement_snapshot.py:172-184 | Two writes of one entry are at least 60 s apart. |
| SnapshotCache.LastGoodSurvivesOutage | models/enforcement_snapshot.py:151-166 | While the cached keys are fresh and verify the cached JWS, a pull without a new snapshot answers with the cached payload. |
| OfflineEvaluator.EvaluateRules | models/offline_safety_valve_evaluator.py:219-244 | The loop returns the short code of the first enabled, known rule that is not silent, or raises if that rule does on its parameters, and nothing if and only if all are silent. |
| OfflineEvaluator.EvaluateIsFirstMatch | models/offline_safety_valve_evaluator.py:233-243 | Evaluation is the first match, characterized by index. |
| RuleReference.HighRiskBlocksIff | models/offline_safety_valve_evaluator.py:66-71 | R014 alone blocks if and only if the country is on the merchant's list, or on the default one of four. |
| RuleReference.CompositionBlocksIff | models/offline_safety_valve_evaluator.py:77-98 | R018 alone blocks if and only if the total exceeds the multiple (5 by default) of the average, the items exceed their limit, or some line exceeds its. |
| RuleReference.JurisdictionBlocksIff | models/offline_safety_valve_evaluator.py:104-114 | R019 alone blocks if and only if the country is blocked, or a list of allowed ones is without it. |
| RuleReference.HoursBlockIff | models/offline_safety_valve_evaluator.py:120-136 | R020 alone blocks if and only if the hour in the zone lies outside the bounds, wrapped around midnight or not. |
| RuleReference.AddressBlocksIff | models/offline_safety_valve_evaluator.py:142-149 | R025 alone blocks if and only if the cart is flagged for a PO box or a freight forwarder that is not switched off. |
| RuleReference.StoredValueBlocksIff | models/offline_safety_valve_evaluator.py:155-160 | R027 alone blocks if and only if the stored value exceeds the limit, 0 by default. |
| RuleReference.PurchaseOrderBlocksIff | models/offline_safety_valve_evaluator.py:166-171 | R028 alone blocks if and only if a business order has no purchase order hash and the rule is not switched off. |
| RuleReference.PresetBlocksIff | models/offline_safety_valve_evaluator.py:177-188 | R029 alone blocks if and only if the preset is the strict one, or the regulated one without evidence. |
| RuleReference.ControlsBlockIff | models/offline_safety_valve_evaluator.py:194-203 | R030 alone blocks if and only if the total exceeds the limit, or a list of allowed countries is without the order's. |
| RuleReference.NowhereBlocksIff | models/offline_safety_valve_evaluator.py:45-46 | An order without a country is stopped by no country rule. |
| RuleReference.WrongTypesRaise | models/offline_safety_valve_evaluator.py:240-241 | A limit that is text, a list that is a number, and parameters that are no object raise. |
| RuleReference.OddLimitsBlockIff | models/offline_safety_valve_evaluator.py:194-198 | A bool limit counts as 0 or 1, nothing exceeds nan or Infinity, everything exceeds -Infinity, and a float is compared exactly. |
| OfflineEvaluator.EvaluateConcat | models/offline_safety_valve_evaluator.py:233-244 | Evaluating a concatenation is trying the first list, then the second. |
| OfflineEvaluator.OnlyConsideredMatter | models/offline_safety_valve_evaluator.py:234-239 | Removing disabled, unknown or malformed rules changes nothing. |
| OfflineEvaluator.BlockedStaysBlocked | models/offline_safety_valve_evaluator.py:77-98 | Raising the total, the item count or any line quantity never lets an order through that was blocked or raised on. |
| OfflineEvaluator.WindowIsCircular | models/offline_safety_valve_evaluator.py:135 | For hours 0 to 23 the two-case window test is circular distance from the start hour. |
| OfflineEvaluator.SwapPartitions | models/offline_safety_valve_evaluator.py:135 | A window and its swap partition the day if and only if start and end differ; an empty window contains no hour. |
| OfflineEvaluator.SwapBlocksEveryHour | models/offline_safety_valve_evaluator.py:120-136 | A business-hours rule with finite bounds and its swap in one list let no order through at any hour. |
| OrderEvents.EventNameIff | models/stock_picking_fulfillment.py:37-59 | The joined name determines platform, merchant, order text, event type and minute when platform, merchant and event type contain no bar; the order text may. |
| OrderEvents.FulfillmentNameIff | models/stock_picking_fulfillment.py:139-148 | Two fulfilments share a name if and only if merchant, sale, picking and minute agree, whatever the merchant text. |
| OrderEvents.RefundNameIffJoined | models/account_move_refund_proxy.py:156-164 | Two refunds share a name if and only if days agree and merchant and order joined by a bar agree. |
| OrderEvents.RefundNameIff | models/account_move_refund_proxy.py:37-55 | For merchants without a bar that is agreement of merchant, order and day. |
| OrderEvents.BarInMerchantIsAmbiguous | models/account_move_refund_proxy.py:54 | Two different refunds with one name, when a merchant contains a bar. |
| OrderEvents.KindsNeverCollide | models/stock_picking_fulfillment.py:145-148 | A fulfilment and a refund never share a name. |
| OrderEvents.Seal | models/stock_picking_fulfillment.py:161-167 | The sealed body keeps its other keys, its signed text is unchanged by the signature, and the signature is the HMAC of that text. |
| OrderEvents.MaybeEmitFulfillment | models/stock_picking_fulfillment.py:82-167 | Given the merchant id or none, a body is sealed if and only if the picking is outgoing, done, of a sale, configured and dated; its identifier hashes the fulfilment name. |
| OrderEvents.MaybeEmitRefund | models/account_move_refund_proxy.py:78-182 | Given the merchant id or none, a body is sealed if and only if configured, dated and, for reversals, paid and at most 90 days old; its identifier hashes the refund name. |
| EventReference.BodyMembers | models/stock_picking_fulfillment.py:149-159 | The nine members of an event body, the payload hash being that of the canonical payload. |
| EventReference.FulfillmentMembers | models/stock_picking_fulfillment.py:109-128 | The members of a fulfilment payload. |
| EventReference.RefundMembers | models/account_move_refund_proxy.py:136-148 | The members of a refund payload: a reversal is the buyer's by proxy, any other credit note self-declared. |
| EventReference.RefundedOrderIs | models/account_move_refund_proxy.py:126-130 | A refund is for the sale of the reversed invoice, else the move's origin, else its name, else its id. |
| EventReference.EmissionIff | models/stock_picking_fulfillment.py:82-107 | An event is emitted if and only if the configuration is complete and the document is of the kind, state, age and date required. |
| OrderEvents.ReceiverRecomputesSignedText | models/stock_picking_fulfillment.py:161-166 | A receiver that parsed the body in any key order, drops the signature and canonicalizes, obtains exactly the signed text. |
| OrderEvents.SignedTextIff | models/account_move_refund_proxy.py:177-182 | Two bodies have the same signed text if and only if they agree everywhere but in the signature. |
| OrderEvents.AlteredBodyAltersSignedText | models/stock_picking_fulfillment.py:161-166 | A differing value under any key but the signature changes the signed text. |
| OrderEvents.PayloadTextIff | models/stock_picking_fulfillment.py:130-133 | Payloads have the same text under the payload hash if and only if they are the same value. |

## Left out

- Jcs.Canonicalize: takes a non-integer float as its shortest decimal; finding that decimal is
  Python's. -0.0 is 0. Non-string dict keys are not modelled.
- JsonReader.ReadValue: reads compact JSON, without optional white space.
- Base64Url.Decode: fails on characters outside the alphabet, which Python skips. The verifier and
  the snapshot cache take the decoder as a parameter instead and do not depend on this.
- TokenVerifier.NumericClaim: does not round claims to the nearest float; integers beyond the
  floats and non-finite floats are modelled.
- EnforcementGate.CallRules: whether the request can be written and sent is an input; an exception
  on the way to the rule service, which nothing catches, is one of its answers.
- EnforcementGate.Snapshot: takes the members of a snapshot other than resolver, rule parameters and
  fallback mode to have the types its schema gives them.
- SingleUse.OneTokenOneRecord: interleaves workers step by step; interleavings within a step are
  those of `ReplayProtocol`.
- SnapshotCache.UsableKey: does not model key ids that are no strings.
- SnapshotCache.PullSnapshot: does not model other greenlets of the worker interleaving within one
  pull.
- OrderEvents.MaybeEmitRefund: takes the merchant id as an input; the search for it names a model
  that is not declared.
- OrderEvents.MaybeEmitFulfillment: takes the merchant id as an input likewise. It does not model
  a failing UTF-8 encoding of the body, nor years before 1000, whose `%Y` is not padded.
- SaleOrders.StepResult: does not model the database transaction; a refused batch keeps the DIDs
  noted on earlier orders, which a rollback would discard. The framework's own `super()` bodies are
  one commit of the requested values, so further writes they make are not modelled.
- HTTP transport, headers, timeouts, the SSRF check itself and request signatures.
- Extraction of the cart context, reason texts, help links, logging and evaluation ids.
- Administration, setup wizard, AI tools, translations and the user interface.
