/** The proof endpoints: verify a code and mint, and list a user's proofs. What the minting
    service answers to one call, a transaction hash or a failure, is a parameter of that call. */
module ProofRoutes {
  import opened Common
  import opened Database
  import opened Verifier

  datatype ProofRequest = ProofRequest(qr: string, userAddress: string, eventId: string)

  datatype ProofResponse = ProofResponse(success: bool, message: string, txHash: Option<string>, tokenId: Option<int>)

  /** What one call of mint_proof does: return a transaction hash, or raise. */
  datatype MintOutcome = Minted(txHash: string) | MintFailed(reason: string)

  datatype UserProofsBody = UserProofsBody(success: bool, userAddress: string, proofCount: int, proofs: seq<Entry>)

  const InvalidQrDetail := "Invalid or expired QR code"
  const MintErrorPrefix := "Error minting proof: "
  /** The framework's answer to an exception no handler caught. */
  const InternalErrorDetail := "Internal Server Error"

  /** verify_and_mint: verify (marking the code used), mint, then record the proof under the
      raw code string. The mark survives a failed mint. `outcome` is what
      `mint_proof(wallet_address=data.user_address)` gives if this call makes it; `mintCalled`
      records whether it does. */
  method VerifyAndMint(store: Store, data: ProofRequest, now: int, hash: string -> string,
                       outcome: MintOutcome, recordedAt: string)
      returns (r: Response<ProofResponse>, ghost mintCalled: bool)
    requires store.Valid()
    modifies store`proofs, store`proofKeys
    ensures store.Valid()
    ensures mintCalled <==> Classify(data.qr, now, hash, old(store.proofs)) == Accepted
    ensures !mintCalled ==>
              && r == BadRequest(InvalidQrDetail)
              && store.proofs == old(store.proofs) && store.proofKeys == old(store.proofKeys)
    ensures mintCalled && outcome.MintFailed? ==>
              && r == ServerError(MintErrorPrefix + outcome.reason)
              && store.proofs == old(store.proofs)[hash(data.qr) := UsageRecord(now, ParseQr(data.qr).value.eventId)]
              && store.proofKeys == old(store.proofKeys) + [hash(data.qr)]
    ensures mintCalled && outcome.Minted? ==>
              && r == Ok(ProofResponse(true, "Proof minted successfully on Monad", Some(outcome.txHash), Some(1)))
              && store.proofs == old(store.proofs)[hash(data.qr) := UsageRecord(now, ParseQr(data.qr).value.eventId)]
                                                  [data.qr := ProofRecord(data.userAddress, data.eventId, recordedAt, outcome.txHash)]
              && store.proofKeys == old(store.proofKeys) + [hash(data.qr)] +
                                    (if data.qr == hash(data.qr) || data.qr in old(store.proofs) then [] else [data.qr])
  {
    mintCalled := false;
    var valid := VerifyQr(store, data.qr, now, hash);
    if !valid {
      return BadRequest(InvalidQrDetail), mintCalled;
    }
    mintCalled := true;
    match outcome
    case MintFailed(reason) =>
      r := ServerError(MintErrorPrefix + reason);
    case Minted(txHash) =>
      store.AddProof(data.qr, data.userAddress, data.eventId, txHash, recordedAt);
      r := Ok(ProofResponse(true, "Proof minted successfully on Monad", Some(txHash), Some(1)));
  }

  /** A second verify_and_mint with the same code is refused with 400, does not mint and
      records nothing. */
  method VerifyAndMintTwice(store: Store, data: ProofRequest, now1: int, now2: int, hash: string -> string,
                            o1: MintOutcome, o2: MintOutcome, t1: string, t2: string)
      returns (r1: Response<ProofResponse>, r2: Response<ProofResponse>, afterFirst: map<string, Entry>,
               ghost secondMinted: bool)
    requires store.Valid()
    modifies store`proofs, store`proofKeys
    ensures store.Valid()
    ensures !r1.BadRequest? ==> r2 == BadRequest(InvalidQrDetail) && !secondMinted && store.proofs == afterFirst
  {
    ghost var firstMinted: bool;
    r1, firstMinted := VerifyAndMint(store, data, now1, hash, o1, t1);
    afterFirst := store.proofs;
    r2, secondMinted := VerifyAndMint(store, data, now2, hash, o2, t2);
  }

  /** get_user_proofs_route. Reading "user_address" of a usage record raises KeyError, which
      the framework turns into a 500. */
  function GetUserProofsRoute(store: Store, addr: string): (r: Response<UserProofsBody>)
    reads store
    requires store.Valid()
    ensures r.Ok? <==> store.AllHaveUserAddress()
    ensures !r.Ok? ==> r == ServerError(InternalErrorDetail)
    ensures r.Ok? ==> r.body.proofCount == |r.body.proofs| &&
                      forall i :: 0 <= i < |r.body.proofs| ==> r.body.proofs[i].ProofRecord? && r.body.proofs[i].userAddress == addr
  {
    if store.AllHaveUserAddress() then
      var proofs := store.GetUserProofs(addr);
      Ok(UserProofsBody(true, addr, |proofs|, proofs))
    else
      ServerError(InternalErrorDetail)
  }

  /** A usage record in the dictionary makes get_user_proofs_route fail for every address. */
  lemma ListingFailsOnUsageRecord(store: Store, key: string, addr: string)
    requires store.Valid()
    requires key in store.proofs && store.proofs[key].UsageRecord?
    ensures GetUserProofsRoute(store, addr) == ServerError(InternalErrorDetail)
  {
  }

  /** The selection get_user_proofs evidently intends: proof records of `addr`, in order,
      passing over the verifier's usage records instead of failing on them. */
  function SelectProofsOf(values: seq<Entry>, addr: string): (r: seq<Entry>)
    ensures |r| <= |values|
    ensures forall i :: 0 <= i < |r| ==> r[i].ProofRecord? && r[i].userAddress == addr && r[i] in values
    ensures forall i :: 0 <= i < |values| && values[i].ProofRecord? && values[i].userAddress == addr ==> values[i] in r
    decreases |values|
  {
    if values == [] then []
    else
      var rest := SelectProofsOf(values[1..], addr);
      if values[0].ProofRecord? && values[0].userAddress == addr then [values[0]] + rest else rest
  }

  /** The corrected selection keeps dictionary order: it distributes over concatenation. */
  lemma {:induction false} SelectProofsOfAppend(a: seq<Entry>, b: seq<Entry>, addr: string)
    ensures SelectProofsOf(a + b, addr) == SelectProofsOf(a, addr) + SelectProofsOf(b, addr)
    decreases |a|
  {
    if a == [] {
      assert a + b == b;
    } else {
      assert (a + b)[1..] == a[1..] + b;
      SelectProofsOfAppend(a[1..], b, addr);
    }
  }

  /** The corrected selection holds each proof record of the address as often as the
      dictionary does, and nothing else. */
  lemma {:induction false} SelectProofsOfCounts(values: seq<Entry>, addr: string, e: Entry)
    ensures multiset(SelectProofsOf(values, addr))[e] ==
            if e.ProofRecord? && e.userAddress == addr then multiset(values)[e] else 0
    decreases |values|
  {
    if values != [] {
      var x, rest := values[0], values[1..];
      SelectProofsOfCounts(rest, addr, e);
      assert values == [x] + rest;
      var sel := SelectProofsOf(rest, addr);
      if x.ProofRecord? && x.userAddress == addr {
        assert SelectProofsOf(values, addr) == [x] + sel;
        assert multiset([x] + sel) == multiset{x} + multiset(sel);
      } else {
        assert SelectProofsOf(values, addr) == sel;
      }
      assert multiset(values) == multiset{x} + multiset(rest);
    }
  }

  /** Where get_user_proofs does not fail, the intended selection gives the same list. */
  lemma {:induction false} SelectProofsOfAgrees(values: seq<Entry>, addr: string)
    ensures (forall i :: 0 <= i < |values| ==> values[i].ProofRecord?) ==>
              SelectProofsOf(values, addr) == SelectByUser(values, addr)
    decreases |values|
  {
    if values != [] {
      SelectProofsOfAgrees(values[1..], addr);
    }
  }

  /** get_user_proofs_route as evidently intended: it always answers. */
  function GetUserProofsRouteIntended(store: Store, addr: string): (r: UserProofsBody)
    reads store
    requires store.Valid()
    ensures r.proofCount == |r.proofs|
    ensures forall i :: 0 <= i < |r.proofs| ==> r.proofs[i].ProofRecord? && r.proofs[i].userAddress == addr
    ensures forall e :: multiset(r.proofs)[e] ==
              if e.ProofRecord? && e.userAddress == addr then multiset(store.ProofValues())[e] else 0
    ensures GetUserProofsRoute(store, addr).Ok? ==> GetUserProofsRoute(store, addr).body == r
  {
    var vs := store.ProofValues();
    var proofs := SelectProofsOf(vs, addr);
    forall e ensures multiset(proofs)[e] == if e.ProofRecord? && e.userAddress == addr then multiset(vs)[e] else 0 {
      SelectProofsOfCounts(vs, addr, e);
    }
    SelectProofsOfAgrees(vs, addr);
    UserProofsBody(true, addr, |proofs|, proofs)
  }

  /** The selection over the entries two successful verify_and_mint calls leave behind. */
  lemma SelectFromTwoMints(u1: Entry, p1: Entry, u2: Entry, p2: Entry, addr: string)
    requires u1.UsageRecord? && u2.UsageRecord?
    requires p1.ProofRecord? && p1.userAddress == addr && p2.ProofRecord? && p2.userAddress == addr
    ensures SelectProofsOf([u1, p1, u2, p2], addr) == [p1, p2]
  {
    assert SelectProofsOf([p2], addr) == [p2] by {
      assert [p2][1..] == [];
    }
    assert SelectProofsOf([u2, p2], addr) == [p2] by {
      assert [u2, p2][1..] == [p2];
    }
    assert SelectProofsOf([p1, u2, p2], addr) == [p1, p2] by {
      assert [p1, u2, p2][1..] == [u2, p2];
    }
    assert [u1, p1, u2, p2][1..] == [p1, u2, p2];
  }

  /** One successful verify_and_mint of a fresh code: a usage record under its hash, then the
      proof under the raw code, both appended. */
  method MintFresh(store: Store, c: string, addr: string, eventId: string, now: int, hash: string -> string,
                   outcome: MintOutcome, t: string)
      returns (r: Response<ProofResponse>)
    requires store.Valid()
    requires Classify(c, now, hash, map[]) == Accepted
    requires hash(c) !in store.proofs && c !in store.proofs && c != hash(c)
    requires outcome.Minted?
    modifies store`proofs, store`proofKeys
    ensures store.Valid()
    ensures r.Ok?
    ensures store.proofs == old(store.proofs)[hash(c) := UsageRecord(now, ParseQr(c).value.eventId)]
                                            [c := ProofRecord(addr, eventId, t, outcome.txHash)]
    ensures store.proofKeys == old(store.proofKeys) + [hash(c), c]
  {
    ClassifyDependsOnHashOnly(c, now, hash, map[], store.proofs);
    ghost var minted: bool;
    r, minted := VerifyAndMint(store, ProofRequest(c, addr, eventId), now, hash, outcome, t);
  }

  /** Two successful verify_and_mint calls for one address on empty tables: each marks its
      code and then records its proof under the raw code. The four keys written (two hashes,
      two raw codes) are assumed distinct. */
  method MintTwice(store: Store, c1: string, c2: string, addr: string, now: int, hash: string -> string,
                   o1: MintOutcome, o2: MintOutcome, t1: string, t2: string)
      returns (r1: Response<ProofResponse>, r2: Response<ProofResponse>)
    requires store.Valid() && store.proofs == map[] && store.proofKeys == []
    requires Classify(c1, now, hash, map[]) == Accepted && Classify(c2, now, hash, map[]) == Accepted
    requires NoDuplicates([hash(c1), c1, hash(c2), c2])
    requires o1.Minted? && o2.Minted?
    modifies store`proofs, store`proofKeys
    ensures store.Valid()
    ensures r1.Ok? && r2.Ok?
    ensures store.proofKeys == [hash(c1), c1, hash(c2), c2]
    ensures store.ProofValues() == [UsageRecord(now, ParseQr(c1).value.eventId),
                                    ProofRecord(addr, "1", t1, o1.txHash),
                                    UsageRecord(now, ParseQr(c2).value.eventId),
                                    ProofRecord(addr, "2", t2, o2.txHash)]
  {
    var keys := [hash(c1), c1, hash(c2), c2];
    assert keys[0] != keys[1] && keys[0] != keys[2] && keys[0] != keys[3];
    assert keys[1] != keys[2] && keys[1] != keys[3] && keys[2] != keys[3];
    r1 := MintFresh(store, c1, addr, "1", now, hash, o1, t1);
    r2 := MintFresh(store, c2, addr, "2", now, hash, o2, t2);
  }

  /** Listing an address after two successful verify_and_mint calls for it, from empty
      tables: as written the listing fails with 500; as intended it holds exactly the two
      proofs, in the order they were recorded. */
  method TwoProofsScenario(c1: string, c2: string, addr: string, now: int, hash: string -> string,
                           o1: MintOutcome, o2: MintOutcome, t1: string, t2: string)
      returns (asWritten: Response<UserProofsBody>, intended: UserProofsBody)
    requires Classify(c1, now, hash, map[]) == Accepted && Classify(c2, now, hash, map[]) == Accepted
    requires NoDuplicates([hash(c1), c1, hash(c2), c2])
    requires o1.Minted? && o2.Minted?
    ensures asWritten == ServerError(InternalErrorDetail)
    ensures intended.proofs == [ProofRecord(addr, "1", t1, o1.txHash),
                                ProofRecord(addr, "2", t2, o2.txHash)]
    ensures intended.proofCount == 2
  {
    var store := new Store();
    var r1, r2 := MintTwice(store, c1, c2, addr, now, hash, o1, o2, t1, t2);
    var vs := store.ProofValues();
    assert store.proofs[hash(c1)] == vs[0];
    ListingFailsOnUsageRecord(store, hash(c1), addr);
    asWritten := GetUserProofsRoute(store, addr);
    SelectFromTwoMints(vs[0], vs[1], vs[2], vs[3], addr);
    intended := GetUserProofsRouteIntended(store, addr);
  }
}
