# Proof of Culture: the QR-proof lifecycle in Dafny

This project models the backend of *Proof of Culture*. The backend issues short-lived QR codes
for cultural events and verifies them once each. For every verified code it records a proof of
attendance, minted on the Monad chain.

The model covers five parts:

- **The generator** (`qr_service.dfy`) builds the code string `event_id:timestamp:nonce`. Its
  `expires_at` is 300 seconds after the captured time.
- **The verifier** (`verifier.dfy`) splits a code on `:` and parses the middle piece as an
  integer. It rejects a code whose timestamp Python cannot turn into a float, a code more than
  300 seconds old, and one whose SHA-256 is already a key of the shared `PROOFS` dictionary. Otherwise it marks the code used. The outcome is one of
  `Malformed`, `Expired`, `Replayed` or `Accepted`.
- **The in-memory database** (`database.dfy`) is a `Store` class. It holds the event list, the
  `PROOFS` dictionary (a map plus its key order, since Python dictionaries keep insertion order)
  and the user table. Each database function is a method or function over it.
- **The proof endpoints** (`proof_routes.dfy`) cover `verify_and_mint` and
  `get_user_proofs_route`, with their 400 and 500 answers.
- **The event endpoints** (`event_routes.dfy`) cover list, detail, create, update and delete,
  with their 404 answers. `update_event` is its field loop, proved against a record-level merge.

Python behaviour the model depends on is written out in `text.dfy`:

- `str.split(":")`, modelled by `Split` with its inverse `Join`;
- `int()` on the timestamp piece;
- `str()` of an integer.

The generator and the verifier are tied together in `lifecycle.dfy`:

- a generated code parses back to its fields;
- it is accepted up to and including `expires_at`;
- it is refused as a replay or as expired after that.

External services are parameters:

- SHA-256 is a function `hash: string -> string`. No property of it is assumed beyond being a
  function.
- What the minting service answers to one call is a `MintOutcome` parameter of that call, either a
  transaction hash or a failure. A ghost flag records whether the call is made at all.
- The clock reading is an integer `now`. The uuid4 nonce is a string, and the rendered QR image
  is an opaque string.
- The ISO time under which a proof or a user is recorded is a string parameter.

An exception that no handler catches is answered by the framework with 500 and
`"Internal Server Error"`. It is modelled as `ServerError(InternalErrorDetail)`.

## Model

| member | source | states |
|---|---|---|
| Text.Split | backend/app/services/verifier.py:14 | `qr.split(":")` yields one piece more than there are delimiters, and no piece holds a delimiter |
| Text.JoinSplit | backend/app/services/verifier.py:14 | joining the pieces of a split with `:` gives back the original string |
| Text.SplitJoin | backend/app/services/qr_service.py:16 | splitting the `:`-join of delimiter-free pieces gives back exactly those pieces |
| Text.NatToString | backend/app/services/qr_service.py:16 | the rendering of a non-negative integer is a non-empty run of ASCII digits that starts with `0` exactly when the value is 0, and is then `"0"` |
| Text.IntToString | backend/app/services/qr_service.py:16 | `str(i)`, as the f-string writes the timestamp: it starts with `-` exactly for a negative value, the rest is a run of ASCII digits with no leading zero unless the value is 0, and it is `"0"` exactly for 0 |
| Text.ParseInt | backend/app/services/verifier.py:19 | `int(timestamp)` succeeds exactly on an optional sign followed by one or more ASCII digits |
| Text.ParseIntToString | backend/app/services/qr_service.py:14-16 | `int(str(t)) == t` for every integer `t`, so the timestamp survives the code string |
| Text.IntToStringHasNoDelimiter | backend/app/services/qr_service.py:16 | the decimal rendering of the timestamp never contains `:` |
| QrService.CodeString | backend/app/services/qr_service.py:16 | the code string is the `:`-join of the event id, the decimal timestamp and the nonce, two characters longer than the three together |
| QrService.SplitCodeString | backend/app/services/qr_service.py:16 | a code string whose event id and nonce hold no `:` splits into exactly `[event_id, str(timestamp), nonce]` |
| QrService.GenerateQr | backend/app/services/qr_service.py:14-41 | `qr_string` is `event_id:timestamp:nonce`; the returned `event_id` and `timestamp` are the inputs; `expires_at == timestamp + 300`; `qr_image` is the rendered image; no table is read or written |
| Lifecycle.CodeStringDelimiters | backend/app/services/qr_service.py:16 | a code string has two more delimiters than its event id and nonce together |
| Lifecycle.GeneratedCodeParses | backend/app/services/verifier.py:14-19 | round trip with the generator's format: without `:` in the event id and nonce, verify_qr's parse yields `(event_id, timestamp, nonce)`; with one, the code does not parse |
| Lifecycle.DelimiterInFieldMalformed | backend/app/services/verifier.py:14-16 | a generated code whose event id or nonce holds `:` is always rejected as malformed |
| Lifecycle.GeneratedCodeWindow | backend/app/services/verifier.py:22-32 | a fresh generated code with no ledger entry is accepted exactly when `now <= expires_at`, and is expired otherwise, for every timestamp a float can hold (every `int(time.time())`); a larger one is refused |
| Lifecycle.ReplayScenario | backend/app/services/verifier.py:22-32 | a code made at 1000 is accepted at 1200 and refused at 1250 |
| Lifecycle.ExpiryScenario | backend/app/services/verifier.py:22-23 | a code made at 1000 is refused at 1400 and at 1450, and the ledger stays empty |
| Verifier.FloatOverflowBoundValue | backend/app/services/verifier.py:22 | the overflow bound is 2^1024 - 2^970, which is also the largest finite double, (2^53 - 1) * 2^971, plus half its spacing: the least magnitude whose conversion to a float rounds to infinity and raises |
| Verifier.FitsFloat | backend/app/services/verifier.py:22 | `time.time() - timestamp` converts the timestamp to a float without raising exactly when its magnitude is below 2^1024 - 2^970 |
| Verifier.ParseQr | backend/app/services/verifier.py:14-19 | parsing succeeds exactly when there are two delimiters and the middle piece is an integer; the event id and nonce hold no `:` |
| Verifier.Classify | backend/app/services/verifier.py:14-28 | accepted exactly when the code parses, its timestamp fits a float, it is at most 300 seconds old and its hash is not a key; refused without a verdict of expiry or replay exactly when parsing or the float conversion fails; replayed only when the hash is a key |
| Verifier.ParsedCodeRebuilds | backend/app/services/verifier.py:14-19 | a parsed code is its event id, the timestamp's text and its nonce joined by `:` |
| Verifier.VerifyQr | backend/app/services/verifier.py:7-36 | returns true exactly when the code is accepted (parsed, timestamp fits a float, not expired, hash not a key); on false the ledger is unchanged; on true exactly the key `hash(qr)` is added at the end, holding `now` and the parsed event id |
| Verifier.WrongPieceCountMalformed | backend/app/services/verifier.py:14-16 | anything but three pieces is malformed whatever the clock and the ledger |
| Verifier.BadTimestampMalformed | backend/app/services/verifier.py:18-36 | a middle piece that `int()` rejects is malformed (the ValueError is caught) |
| Verifier.ExpiryBoundary | backend/app/services/verifier.py:22-23 | expired exactly when the timestamp fits a float and `now > timestamp + 300`; a code exactly 300 seconds old is not expired, nor is one dated in the future; a fresh code within the window whose timestamp fits a float is accepted |
| Verifier.OverflowingTimestampRefused | backend/app/services/verifier.py:22 | a timestamp of magnitude at least 2^1024 - 2^970 makes the float conversion raise, and the code is refused whatever the clock and ledger |
| Verifier.ExpiredIgnoresLedger | backend/app/services/verifier.py:22-28 | expiry is checked before replay, so an expired code is expired against every ledger |
| Verifier.UsedCodeNeverAccepted | backend/app/services/verifier.py:26-28 | once the code's hash is a key, the code is never accepted |
| Verifier.ClassifyDependsOnHashOnly | backend/app/services/verifier.py:26-28 | the ledger affects the verdict only through whether the code's hash is a key |
| Verifier.VerifyTwice | backend/app/services/verifier.py:26-32 | single use: after one true result, a later call with the same string returns false, and the ledger holds only the first mark |
| Verifier.VerifyExpiredTwice | backend/app/services/verifier.py:22-31 | repeated expired attempts return false and leave the ledger unchanged |
| Database.InitEvents | backend/app/db/database.py:9-52 | an empty list becomes the four sample events, each with no attendees; a non-empty list is left as it is |
| Database.InitEventsIdempotent | backend/app/db/database.py:10-11 | calling init_db twice has the effect of calling it once |
| Database.Store.constructor | backend/app/db/database.py:3-5 | the tables start empty: no events, no proofs (and no key order), no users |
| Database.Store.ProofValues | backend/app/db/database.py:77 | `PROOFS.values()`: one value per key, in the dictionary's insertion order |
| Database.Store.InitDb | backend/app/db/database.py:7-52 | the event list becomes `InitEvents` of the old one |
| Database.Store.AddEvent | backend/app/db/database.py:54-57 | appends at the end, leaving earlier events unchanged, and returns its argument |
| Database.Store.IndexOfEvent | backend/app/db/database.py:61-64 | the search loop finds the position of the first event with the id, or -1 exactly when there is none |
| Database.Store.GetEvent | backend/app/db/database.py:59-64 | the first event whose id is the argument, or None exactly when no event has it |
| Database.Store.SetProof | backend/app/db/database.py:68 | dictionary assignment (also the verifier's mark): a new key goes at the end, an existing key is overwritten in place, and every other key and value is unchanged |
| Database.Store.AddProof | backend/app/db/database.py:66-73 | stores a record with the given address, event id, timestamp and transaction hash under the key, overwriting in place; all other keys are unchanged |
| Database.SelectByUser | backend/app/db/database.py:77 | the comprehension keeps exactly the values whose `user_address` is the argument, and is defined only when every value has one |
| Database.SelectByUserAppend | backend/app/db/database.py:77 | the selection keeps dictionary order (it distributes over concatenation) |
| Database.SelectByUserCounts | backend/app/db/database.py:77 | each matching value appears as often as in the dictionary, and no other value appears |
| Database.Store.GetUserProofs | backend/app/db/database.py:75-77 | exactly the stored values of that address, with their multiplicities; it requires every value to have a `user_address` |
| Database.Store.RegisterUser | backend/app/db/database.py:79-86 | (re)writes the user's record with the name, email, time and `proofs_count` 0; other users are unchanged |
| Database.Store.GetUser | backend/app/db/database.py:88-90 | the record of a registered address, and None exactly for an unregistered one |
| Database.RegisterThenGet | backend/app/db/database.py:79-90 | after `register_user(a, n, e)`, `get_user(a)` has name `n`, email `e` and `proofs_count` 0 |
| ProofRoutes.VerifyAndMint | backend/app/api/routes/proof.py:9-32 | a code that is not accepted gives 400, changes nothing and makes no mint call (the mint call is made exactly when the code is accepted); on a mint failure the answer is 500 with the reason and the usage mark stays; on success the proof is stored under the raw `qr` (not its hash) with the minted transaction hash, and the answer has `success` true, that hash and `token_id` 1 |
| ProofRoutes.VerifyAndMintTwice | backend/app/api/routes/proof.py:14-16 | a second verify_and_mint with the same code answers 400, makes no mint call and adds nothing |
| ProofRoutes.GetUserProofsRoute | backend/app/api/routes/proof.py:34-43 | answers exactly when every value has a `user_address`, and otherwise 500; `proof_count` is the length of `proofs`, each one the address's proof |
| ProofRoutes.ListingFailsOnUsageRecord | backend/app/db/database.py:77 | one usage record (as the verifier writes) in the dictionary makes the listing fail for every address |
| ProofRoutes.SelectProofsOf | backend/app/db/database.py:77 | corrected selection: only proof records of the address, every one of them, no longer than the input, skipping usage records |
| ProofRoutes.SelectProofsOfAppend | backend/app/db/database.py:77 | the corrected selection keeps dictionary order (it distributes over concatenation) |
| ProofRoutes.SelectProofsOfCounts | backend/app/db/database.py:77 | the corrected selection holds each proof record of the address as often as the dictionary does, and nothing else, usage records present or not |
| ProofRoutes.SelectProofsOfAgrees | backend/app/db/database.py:77 | where the selection as written is defined, the corrected one gives the same list |
| ProofRoutes.GetUserProofsRouteIntended | backend/app/api/routes/proof.py:34-43 | the corrected listing always answers, with `proof_count` equal to the length of its list, which holds each of the address's stored proofs as often as the dictionary does and nothing else, and agrees with the route wherever the route answers |
| ProofRoutes.SelectFromTwoMints | backend/app/db/database.py:77 | over a usage record, a proof, a usage record and a proof, the corrected selection yields the two proofs in order |
| ProofRoutes.MintFresh | backend/app/api/routes/proof.py:14-30 | a successful verify_and_mint of a code whose hash and raw string are new keys appends exactly a usage record under the hash and then the proof under the raw string |
| ProofRoutes.MintTwice | backend/app/api/routes/proof.py:14-30 | two successful verify_and_mint calls from empty tables leave, in order, a usage record and a proof for each code, each proof with its own call's transaction hash |
| ProofRoutes.TwoProofsScenario | backend/app/db/database.py:77 | after two successful mints the listing as written answers 500, and the corrected listing holds exactly the two proofs in order |
| EventRoutes.ListEvents | backend/app/api/routes/events.py:7-16 | initialises an empty list, then answers with the list and a `count` equal to its length |
| EventRoutes.GetEventDetail | backend/app/api/routes/events.py:18-27 | 404 "Event not found" exactly when no event has the id; otherwise the first event with it |
| EventRoutes.CreateEvent | backend/app/api/routes/events.py:29-38 | appends the event at the end and answers with it |
| EventRoutes.FieldValue | backend/app/models/event.py:5-13 | only the four optional keys can hold None |
| EventRoutes.FieldsDetermineEvent | backend/app/models/event.py:5-13 | two event dictionaries that agree on every key are equal |
| EventRoutes.Assign | backend/app/api/routes/events.py:51 | `event[key] = value` sets that key and leaves every other key unchanged |
| EventRoutes.MergedValue | backend/app/api/routes/events.py:50-51 | the value left under a key is the new one or the old one; the required keys and `attendees` always take the new one; it is None only when both are |
| EventRoutes.Merge | backend/app/api/routes/events.py:48-51 | under every key the merged event holds the new value unless it is None, and otherwise the old one; id, name, location and `attendees` (default 0) are always overwritten |
| EventRoutes.UpdateEvent | backend/app/api/routes/events.py:40-57 | 404 for a missing id with the list unchanged; otherwise only the first event with the id is replaced, by its merge with the new data, which is returned |
| EventRoutes.WithoutId | backend/app/api/routes/events.py:64 | the filtered list holds no event with the id, and every other event of the list |
| EventRoutes.WithoutIdNoMatch | backend/app/api/routes/events.py:64 | filtering a list that has no event with the id leaves it unchanged |
| EventRoutes.WithoutIdShrinks | backend/app/api/routes/events.py:64-66 | filtering a list that has an event with the id makes it strictly shorter |
| EventRoutes.WithoutIdKeepsLength | backend/app/api/routes/events.py:63-67 | the length is unchanged exactly when no event has the id, and then the list is unchanged |
| EventRoutes.WithoutIdAppend | backend/app/api/routes/events.py:64 | the filter keeps the surviving events in their order (it distributes over concatenation) |
| EventRoutes.DeleteEvent | backend/app/api/routes/events.py:59-72 | removes every event with the id; answers 404 exactly when there was none, and otherwise "Event deleted successfully" |

## Left out

- Minting: web3 calls, ABI loading, signing and network I/O in `backend/app/services/blockchain.py` are not part of this model. The answer of each `mint_proof` call is a parameter of that call. Its catch-all, which substitutes a random mock hash, is one of the outcomes that parameter may give.
- QR image rendering and base64 encoding rely on foreign libraries. `qr_image` is an opaque string parameter.
- SHA-256, `uuid4`, `time.time()` and `datetime.now()` are parameters.
  - `time.time()` is a float; the model takes the integer `now`, so fractional seconds are dropped. The timestamp's conversion to a float is modelled only where it raises (magnitude at least 2^1024 - 2^970). Its rounding for magnitudes above 2^53 is not modelled; it cannot change the comparison with 300 while the clock reads between 0 and 2^53 seconds.
  - In `verify_qr` the second clock reading, stored as `verified_at`, is taken equal to the first.
- Text.ParseInt: does not accept what Python's `int()` also accepts, namely surrounding whitespace, digit underscores and non-ASCII digits. It also does not reject strings of more than 4300 digits, which Python 3.11 and later refuse by default (the limit depends on the interpreter version and `PYTHONINTMAXSTRDIGITS`). Without leading zeros, every such string denotes a value beyond the float range, which the verifier refuses anyway; only a zero-padded timestamp of that length is accepted by the model and refused by those interpreters.
- The diagnostic `print` in `verify_qr`'s exception handler writes to standard output only; it is dropped.
- Concurrency: the check-then-insert in `verify_qr` is one sequential step here, so races between parallel requests are not modelled.
- Event list binding: the model has one shared event list, on which `ListEvents` and `DeleteEvent` act like the other event routes. The running process does not behave that way.
  - `backend/app/api/routes/events.py:2` binds `events.EVENTS` at import to the empty list created at `backend/app/db/database.py:3`.
  - The startup hook (`backend/app/main.py:26-28`) calls `init_db`, which rebinds only `database.EVENTS` to the samples. `add_event`, `get_event` and `update_event` use that new list.
  - `list_events` reads `events.EVENTS`, which stays empty: its own `init_db` call sees the samples and does nothing. So it always answers with `count` 0 and no events.
  - `delete_event` filters the same empty list, so it always answers 404.
- Dates and times in event dictionaries are opaque strings.
- Pydantic validation of request bodies is taken as given: events and proof requests arrive as well-typed records.
- The `direct_mint` endpoint (`backend/app/api/routes/proof.py:45-56`) and the QR route `backend/app/api/routes/qr.py` are thin wrappers and not part of this model.
- `backend/app/main.py` (application and CORS setup), `backend/app/core/config.py`, the scripts, the contracts and `backend/tests/test_api.py` are not part of this model. The tests target routes that do not exist.
- Database.Store.AddProof: does not model a failing `datetime.now()`. Recording a proof never raises here, so the 500 path of `verify_and_mint` arises only from a mint failure.

## Findings

| source | as written | input that shows it | evidently intended | confidence | as-written member | corrected member |
|---|---|---|---|---|---|---|
| backend/app/db/database.py:77 | `get_user_proofs` reads `p["user_address"]` of every `PROOFS` value. `verify_qr` (backend/app/services/verifier.py:31) stores a value without that key under the code's hash, so the read raises KeyError and the route answers 500 | one successful `verify_and_mint` of any accepted code, then `get_user_proofs_route` for any address | list the proof records of the address, skipping the verifier's usage records | not executed | ProofRoutes.GetUserProofsRoute, ProofRoutes.ListingFailsOnUsageRecord, ProofRoutes.TwoProofsScenario | ProofRoutes.SelectProofsOf, ProofRoutes.GetUserProofsRouteIntended |
