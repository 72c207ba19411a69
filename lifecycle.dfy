/** How the generator's codes fare at the verifier: the code format round trip, acceptance
    within the window, and the replay and expiry scenarios. */
module Lifecycle {
  import opened Common
  import opened Text
  import opened Database
  import opened QrService
  import opened Verifier

  /** The code string holds two delimiters beyond those of its event id and nonce. */
  lemma CodeStringDelimiters(eventId: string, timestamp: int, nonce: string)
    ensures CountOf(Delimiter, CodeString(eventId, timestamp, nonce)) ==
            CountOf(Delimiter, eventId) + CountOf(Delimiter, nonce) + 2
  {
    var ts := IntToString(timestamp);
    IntToStringHasNoDelimiter(timestamp);
    CountOfZero(Delimiter, ts);
    CountOfAppend(Delimiter, eventId, [Delimiter]);
    CountOfAppend(Delimiter, eventId + [Delimiter], ts);
    CountOfAppend(Delimiter, eventId + [Delimiter] + ts, [Delimiter]);
    CountOfAppend(Delimiter, eventId + [Delimiter] + ts + [Delimiter], nonce);
  }

  /** Round trip: the verifier's parse of a generated code gives back the event id, the
      captured time and the nonce, provided neither the event id nor the nonce holds a
      delimiter; otherwise the code does not parse at all. */
  lemma GeneratedCodeParses(eventId: string, now: int, nonce: string, image: string)
    ensures var q := GenerateQr(eventId, now, nonce, image);
            if Delimiter !in eventId && Delimiter !in nonce
            then ParseQr(q.qrString) == Some(ParsedQr(eventId, now, nonce))
            else ParseQr(q.qrString) == None
  {
    var q := GenerateQr(eventId, now, nonce, image);
    if Delimiter !in eventId && Delimiter !in nonce {
      SplitCodeString(eventId, now, nonce);
      ParseIntToString(now);
    } else {
      CodeStringDelimiters(eventId, now, nonce);
      CountOfZero(Delimiter, eventId);
      CountOfZero(Delimiter, nonce);
    }
  }

  /** A code whose event id (or nonce) holds a delimiter is always rejected as malformed. */
  lemma DelimiterInFieldMalformed(eventId: string, issuedAt: int, nonce: string, image: string,
                                  now: int, hash: string -> string, ledger: map<string, Entry>)
    requires Delimiter in eventId || Delimiter in nonce
    ensures Classify(GenerateQr(eventId, issuedAt, nonce, image).qrString, now, hash, ledger) == Malformed
  {
    GeneratedCodeParses(eventId, issuedAt, nonce, image);
  }

  /** A fresh code whose hash is not yet a key is accepted at any time up to and including
      its `expires_at`, and refused as expired after it: the generator's window and the
      verifier's agree. (A captured time is the integer part of a float, so it always fits a
      float; only a code forged with a larger timestamp is refused outright.) */
  lemma GeneratedCodeWindow(eventId: string, issuedAt: int, nonce: string, image: string,
                            now: int, hash: string -> string, ledger: map<string, Entry>)
    requires Delimiter !in eventId && Delimiter !in nonce
    requires hash(GenerateQr(eventId, issuedAt, nonce, image).qrString) !in ledger
    ensures var q := GenerateQr(eventId, issuedAt, nonce, image);
            Classify(q.qrString, now, hash, ledger) ==
              if !FitsFloat(issuedAt) then Malformed
              else if now <= q.expiresAt then Accepted
              else Expired
  {
    GeneratedCodeParses(eventId, issuedAt, nonce, image);
  }

  /** Generate a code for event "1" at t = 1000, verify it at t = 1200 (accepted), then again
      at t = 1250 (refused as a replay). */
  method ReplayScenario(nonce: string, image: string, hash: string -> string)
      returns (first: bool, second: bool)
    requires Delimiter !in nonce
    ensures first && !second
  {
    var store := new Store();
    var q := GenerateQr("1", 1000, nonce, image);
    GeneratedCodeWindow("1", 1000, nonce, image, 1200, hash, store.proofs);
    first := VerifyQr(store, q.qrString, 1200, hash);
    second := VerifyQr(store, q.qrString, 1250, hash);
  }

  /** Generate a code at t = 1000, verify it at t = 1400 and again at t = 1450: both are
      refused as expired and the ledger stays empty. */
  method ExpiryScenario(nonce: string, image: string, hash: string -> string)
      returns (first: bool, second: bool, ledger: map<string, Entry>)
    requires Delimiter !in nonce
    ensures !first && !second && ledger == map[]
  {
    var store := new Store();
    var q := GenerateQr("1", 1000, nonce, image);
    GeneratedCodeWindow("1", 1000, nonce, image, 1400, hash, store.proofs);
    first := VerifyQr(store, q.qrString, 1400, hash);
    GeneratedCodeWindow("1", 1000, nonce, image, 1450, hash, store.proofs);
    second := VerifyQr(store, q.qrString, 1450, hash);
    ledger := store.proofs;
  }
}
