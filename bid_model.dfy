/** The bid model: the bid table can be appended to and read, nothing
    else. It performs no validation of its own; the store's foreign keys
    are the only thing that can make an insert fail. */
module BidModel {
  import opened Common
  import opened Ledger

  datatype PlaceBidArgs = PlaceBidArgs(amount: int, bidderId: int, auctionId: int)

  /** getBidById: the bid carrying `id`, or none when no bid does. */
  function GetBidById(bids: seq<Bid>, id: int): (r: Option<Bid>)
    ensures r.None? <==> forall i :: 0 <= i < |bids| ==> bids[i].id != id
    ensures r.Some? ==> r.value in bids && r.value.id == id
  {
    if bids == [] then None
    else if bids[0].id == id then Some(bids[0])
    else GetBidById(bids[1..], id)
  }

  /** In a consistent store the ids are the positions plus one, so a
      lookup finds exactly the bid at position `id - 1`. */
  lemma {:induction false} GetBidByIdIsPosition(t: Tables, id: int)
    requires Consistent(t)
    ensures GetBidById(t.bids, id).Some? <==> 1 <= id <= |t.bids|
    ensures 1 <= id <= |t.bids| ==> GetBidById(t.bids, id) == Some(t.bids[id - 1])
  {
    if 1 <= id <= |t.bids| {
      assert t.bids[id - 1].id == id;
      var r := GetBidById(t.bids, id);
      assert r.value in t.bids;
      var k :| 0 <= k < |t.bids| && t.bids[k] == r.value;
      assert t.bids[k].id == k + 1;
    } else {
      forall i | 0 <= i < |t.bids| ensures t.bids[i].id != id {
        assert t.bids[i].id == i + 1;
      }
    }
  }

  /** placeBid: stores a bid with exactly the given amount, bidder and
      auction, whatever the amount is. The insert fails only when the
      auction or the bidder row does not exist. */
  method PlaceBid(db: Db, data: PlaceBidArgs) returns (r: Result<Bid>)
    requires db.Valid()
    modifies db
    ensures db.Valid()
    ensures r.Ok? <==> data.auctionId in old(db.auctions) && data.bidderId in old(db.users)
    ensures r.Ok? ==>
      && r.value == Bid(|old(db.bids)| + 1, data.auctionId, data.bidderId, data.amount)
      && db.Snapshot() == old(db.Snapshot()).(bids := old(db.bids) + [r.value])
    ensures r.Err? ==> r.error.code == StoreError && db.Snapshot() == old(db.Snapshot())
    ensures db.nextUserId == old(db.nextUserId) && db.nextNftId == old(db.nextNftId)
    ensures db.nextAuctionId == old(db.nextAuctionId)
  {
    if data.auctionId !in db.auctions || data.bidderId !in db.users {
      return Err(Error(StoreError, "Foreign key constraint violated"));
    }
    var bid := Bid(|db.bids| + 1, data.auctionId, data.bidderId, data.amount);
    db.bids := db.bids + [bid];
    return Ok(bid);
  }
}
