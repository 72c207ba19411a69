/** The QR code generator. The clock reading, the uuid4 nonce and the rendered image are
    parameters; generation touches no table of the database. */
module QrService {
  import opened Text

  /** The expiry window the generator writes into `expires_at` (a literal in the generator,
      separate from the verifier's constant). */
  const GeneratorExpirySeconds := 300

  /** The dictionary generate_qr returns. */
  datatype QrData = QrData(
    qrString: string,
    qrImage: string,
    eventId: string,
    timestamp: int,
    expiresAt: int)

  /** The code string `event_id:timestamp:nonce`. */
  function CodeString(eventId: string, timestamp: int, nonce: string): (s: string)
    ensures s == Join([eventId, IntToString(timestamp), nonce])
    ensures |s| == |eventId| + |IntToString(timestamp)| + |nonce| + 2
  {
    JoinThree(eventId, IntToString(timestamp), nonce);
    eventId + [Delimiter] + IntToString(timestamp) + [Delimiter] + nonce
  }

  /** Python's split recovers the three fields of a code string whose event id and nonce hold
      no delimiter. */
  lemma SplitCodeString(eventId: string, timestamp: int, nonce: string)
    requires Delimiter !in eventId && Delimiter !in nonce
    ensures Split(CodeString(eventId, timestamp, nonce)) == [eventId, IntToString(timestamp), nonce]
  {
    IntToStringHasNoDelimiter(timestamp);
    JoinThree(eventId, IntToString(timestamp), nonce);
    SplitJoin([eventId, IntToString(timestamp), nonce]);
  }

  /** generate_qr(event_id) with `int(time.time()) == now`, `uuid4() == nonce` and the
      rendered data URI `image`. */
  function GenerateQr(eventId: string, now: int, nonce: string, image: string): (r: QrData)
    ensures r.eventId == eventId && r.timestamp == now
    ensures r.expiresAt == r.timestamp + GeneratorExpirySeconds
    ensures r.qrString == CodeString(eventId, now, nonce)
    ensures r.qrImage == image
  {
    QrData(CodeString(eventId, now, nonce), image, eventId, now, now + GeneratorExpirySeconds)
  }
}
