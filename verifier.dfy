/** verify_qr: parse a code, reject it when malformed, expired or already used, and otherwise
    mark it used in the shared PROOFS dictionary. SHA-256 is the parameter `hash`; the clock
    reading is `now`. */
module Verifier {
  import opened Common
  import opened Text
  import opened Database

  /** QR_EXPIRY_SECONDS. */
  const QrExpirySeconds := 300

  /** 2^1024 - 2^970: the least integer whose conversion to a double overflows (it lies halfway
      between the largest finite double and 2^1024, and rounds up). */
  const FloatOverflowBound: int := 179769313486231580793728971405303415079934132710037826936173778980444968292764750946649017977587207096330286416692887910946555547851940402630657488671505820681908902000708383676273854845817711531764475730270069855571366959622842914819860834936475292719074168444365510704342711559699508093042880177904174497792

  /** 2^128, the base in which the float bounds are written. */
  const Limb: nat := 0x1_0000_0000_0000_0000_0000_0000_0000_0000

  /** `base` to the power `n`. */
  function Power(base: nat, n: nat): nat
    decreases n
  {
    if n == 0 then 1 else base * Power(base, n - 1)
  }

  /** The literal above is 2^1024 - 2^970 (2^970 = 2^(7 * 128) * 2^74), and also the largest
      finite double, (2^53 - 1) * 2^971 (2^971 = 2^(7 * 128) * 2^75), plus half its spacing. */
  lemma FloatOverflowBoundValue()
    ensures FloatOverflowBound == Power(Limb, 8) - Power(Limb, 7) * 0x400_0000_0000_0000_0000
    ensures FloatOverflowBound == 0x1F_FFFF_FFFF_FFFF * Power(Limb, 7) * 0x800_0000_0000_0000_0000
                                  + Power(Limb, 7) * 0x400_0000_0000_0000_0000
  {
    forall k: nat | 1 <= k <= 8
      ensures Power(Limb, k) == Limb * Power(Limb, k - 1)
    {
    }
  }

  /** Python can turn `t` into a float; otherwise `time.time() - t` raises OverflowError.
      A magnitude below the largest finite double plus half its spacing rounds to a finite
      double; from that point on the conversion overflows. */
  function FitsFloat(t: int): (b: bool)
    ensures b <==> -(Power(Limb, 8) - Power(Limb, 7) * 0x400_0000_0000_0000_0000) < t
                    < Power(Limb, 8) - Power(Limb, 7) * 0x400_0000_0000_0000_0000
  {
    FloatOverflowBoundValue();
    -FloatOverflowBound < t < FloatOverflowBound
  }

  datatype ParsedQr = ParsedQr(eventId: string, timestamp: int, nonce: string)

  /** The terminal state of one verification attempt. */
  datatype Verdict = Malformed | Expired | Replayed | Accepted

  /** The split/parse prefix of verify_qr: three pieces, the middle one an integer. */
  function ParseQr(qr: string): (r: Option<ParsedQr>)
    ensures r.Some? <==> CountOf(Delimiter, qr) == 2 && ParseInt(Split(qr)[1]).Some?
    ensures r.Some? ==> Delimiter !in r.value.eventId && Delimiter !in r.value.nonce
  {
    var parts := Split(qr);
    if |parts| != 3 then None
    else match ParseInt(parts[1])
      case None => None
      case Some(ts) => Some(ParsedQr(parts[0], ts, parts[2]))
  }

  /** A parsed code is its event id, a decimal rendering of its timestamp and its nonce,
      joined by the delimiter. */
  lemma ParsedCodeRebuilds(qr: string, p: ParsedQr)
    requires ParseQr(qr) == Some(p)
    ensures exists mid :: qr == p.eventId + [Delimiter] + mid + [Delimiter] + p.nonce && ParseInt(mid) == Some(p.timestamp)
  {
    var parts := Split(qr);
    JoinSplit(qr);
    assert parts == [parts[0], parts[1], parts[2]];
    JoinThree(parts[0], parts[1], parts[2]);
    assert qr == p.eventId + [Delimiter] + parts[1] + [Delimiter] + p.nonce;
  }

  /** What verify_qr decides for `qr`, at time `now`, against the current PROOFS dictionary:
      parse first, then expiry (where a timestamp beyond the range of floats raises, which the
      handler turns into a refusal like any parse failure), then replay. */
  function Classify(qr: string, now: int, hash: string -> string, ledger: map<string, Entry>): (v: Verdict)
    ensures v == Accepted <==>
              && ParseQr(qr).Some? && FitsFloat(ParseQr(qr).value.timestamp)
              && now - ParseQr(qr).value.timestamp <= QrExpirySeconds && hash(qr) !in ledger
    ensures v == Malformed <==> ParseQr(qr).None? || !FitsFloat(ParseQr(qr).value.timestamp)
    ensures v == Replayed ==> hash(qr) in ledger
  {
    match ParseQr(qr)
    case None => Malformed
    case Some(p) =>
      if !FitsFloat(p.timestamp) then Malformed
      else if now - p.timestamp > QrExpirySeconds then Expired
      else if hash(qr) in ledger then Replayed
      else Accepted
  }

  /** verify_qr(qr). */
  method VerifyQr(store: Store, qr: string, now: int, hash: string -> string) returns (ok: bool)
    requires store.Valid()
    modifies store`proofs, store`proofKeys
    ensures store.Valid()
    ensures ok <==> Classify(qr, now, hash, old(store.proofs)) == Accepted
    ensures !ok ==> store.proofs == old(store.proofs) && store.proofKeys == old(store.proofKeys)
    ensures ok ==> && store.proofs == old(store.proofs)[hash(qr) := UsageRecord(now, ParseQr(qr).value.eventId)]
                   && store.proofKeys == old(store.proofKeys) + [hash(qr)]
  {
    var parts := Split(qr);
    if |parts| != 3 {
      return false;
    }
    var eventId, timestamp, nonce := parts[0], parts[1], parts[2];
    var ts := ParseInt(timestamp);
    if ts.None? {
      // int() raised ValueError, caught by the catch-all handler
      return false;
    }
    if !FitsFloat(ts.value) {
      // float(timestamp) raised OverflowError, caught by the catch-all handler
      return false;
    }
    if now - ts.value > QrExpirySeconds {
      return false;
    }
    var qrHash := hash(qr);
    if qrHash in store.proofs {
      return false;
    }
    store.SetProof(qrHash, UsageRecord(now, eventId));
    return true;
  }

  /** A code that does not split into exactly three pieces is malformed whatever the clock and
      the ledger say. */
  lemma WrongPieceCountMalformed(qr: string, now: int, hash: string -> string, ledger: map<string, Entry>)
    requires |Split(qr)| != 3
    ensures Classify(qr, now, hash, ledger) == Malformed
  {
  }

  /** A middle piece that int() rejects makes the code malformed. */
  lemma BadTimestampMalformed(qr: string, now: int, hash: string -> string, ledger: map<string, Entry>)
    requires |Split(qr)| == 3 && ParseInt(Split(qr)[1]).None?
    ensures Classify(qr, now, hash, ledger) == Malformed
  {
  }

  /** The expiry test rejects exactly the codes more than 300 seconds old: one exactly 300
      seconds old passes, and so does a fresh one dated in the future, as long as its timestamp
      can be turned into a float. */
  lemma ExpiryBoundary(qr: string, p: ParsedQr, now: int, hash: string -> string, ledger: map<string, Entry>)
    requires ParseQr(qr) == Some(p)
    ensures Classify(qr, now, hash, ledger) == Expired <==> FitsFloat(p.timestamp) && now > p.timestamp + 300
    ensures now == p.timestamp + 300 ==> Classify(qr, now, hash, ledger) != Expired
    ensures now < p.timestamp ==> Classify(qr, now, hash, ledger) != Expired
    ensures now <= p.timestamp + 300 && FitsFloat(p.timestamp) && hash(qr) !in ledger ==>
              Classify(qr, now, hash, ledger) == Accepted
  {
  }

  /** A timestamp beyond the range of floats makes `time.time() - timestamp` raise; the handler
      refuses the code, whatever the clock and the ledger say. */
  lemma OverflowingTimestampRefused(qr: string, p: ParsedQr, now: int, hash: string -> string, ledger: map<string, Entry>)
    requires ParseQr(qr) == Some(p) && !FitsFloat(p.timestamp)
    ensures Classify(qr, now, hash, ledger) == Malformed
  {
  }

  /** Expiry is decided before the ledger is consulted: an expired code is expired against
      every ledger, including one that already holds its hash. */
  lemma ExpiredIgnoresLedger(qr: string, now: int, hash: string -> string, l1: map<string, Entry>, l2: map<string, Entry>)
    requires Classify(qr, now, hash, l1) == Expired
    ensures Classify(qr, now, hash, l2) == Expired
  {
  }

  /** Once the hash of a code is a key, the code is never accepted again. */
  lemma UsedCodeNeverAccepted(qr: string, now: int, hash: string -> string, ledger: map<string, Entry>)
    requires hash(qr) in ledger
    ensures Classify(qr, now, hash, ledger) != Accepted
  {
  }

  /** Whether a code is accepted depends on the ledger only through the presence of its hash. */
  lemma ClassifyDependsOnHashOnly(qr: string, now: int, hash: string -> string, l1: map<string, Entry>, l2: map<string, Entry>)
    requires hash(qr) in l1 <==> hash(qr) in l2
    ensures Classify(qr, now, hash, l1) == Classify(qr, now, hash, l2)
  {
  }

  /** Single use: after one accepted verification, every later call with the same string is
      refused and leaves the ledger as it is. */
  method VerifyTwice(store: Store, qr: string, now1: int, now2: int, hash: string -> string)
      returns (first: bool, second: bool)
    requires store.Valid()
    modifies store`proofs, store`proofKeys
    ensures store.Valid()
    ensures first ==> !second
    ensures first ==> ParseQr(qr).Some? && store.proofs == old(store.proofs)[hash(qr) := UsageRecord(now1, ParseQr(qr).value.eventId)]
  {
    first := VerifyQr(store, qr, now1, hash);
    second := VerifyQr(store, qr, now2, hash);
  }

  /** Expired attempts never insert, so a repeated expired attempt is refused too and the
      ledger stays unchanged throughout. */
  method VerifyExpiredTwice(store: Store, qr: string, now1: int, now2: int, hash: string -> string)
      returns (first: bool, second: bool)
    requires store.Valid()
    requires Classify(qr, now1, hash, store.proofs) == Expired
    requires now2 >= now1
    modifies store`proofs, store`proofKeys
    ensures store.Valid()
    ensures !first && !second
    ensures store.proofs == old(store.proofs) && store.proofKeys == old(store.proofKeys)
  {
    first := VerifyQr(store, qr, now1, hash);
    second := VerifyQr(store, qr, now2, hash);
  }
}
