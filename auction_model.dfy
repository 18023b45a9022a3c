/** The auction model: creating and updating auction rows, the highest
    bid of an auction, and the periodic sweep that closes expired
    auctions and settles them. */
module AuctionModel {
  import opened Common
  import opened Ledger

  /** A time as a request carries it, a string: one the store reads as a
      date, `ms` milliseconds after the epoch, or one it rejects, the
      empty string among them. */
  datatype TimeText = Parsed(ms: int) | Unparsable(text: string)

  /** JavaScript truthiness of the string: a string the store reads as a
      date is never empty. */
  predicate TruthyTime(t: TimeText)
  {
    t.Parsed? || t.text != []
  }

  datatype CreateAuctionArgs = CreateAuctionArgs(
    nftId: int,
    startPrice: int,
    startTime: TimeText,
    endTime: TimeText,
    isActive: Option<bool>)

  /** The fields `updateAuction` may write. The row's own id, which the
      source also writes back, is the key passed beside it. */
  datatype UpdateAuctionInput = UpdateAuctionInput(
    currentPrice: Field<int>,
    endTime: Field<TimeText>,
    isActive: Field<bool>)

  /** Both times of a new auction are dates the store accepts. */
  predicate CreateTimesParse(data: CreateAuctionArgs)
  {
    data.startTime.Parsed? && data.endTime.Parsed?
  }

  /** A given end time is a date the store accepts. */
  predicate UpdateTimeParses(data: UpdateAuctionInput)
  {
    data.endTime.Given? ==> data.endTime.value.Parsed?
  }

  // ---------------------------------------------------------------- rows

  /** The row createAuction inserts. */
  function NewAuction(data: CreateAuctionArgs): (r: Auction)
    requires CreateTimesParse(data)
    ensures r.currentPrice == r.startPrice == data.startPrice
    ensures r.isActive <==> data.isActive != Some(false)
    ensures r.nftId == data.nftId && r.startTime == data.startTime.ms && r.endTime == data.endTime.ms
  {
    Auction(data.nftId, data.startPrice, data.startPrice, data.startTime.ms, data.endTime.ms,
            if data.isActive.Some? then data.isActive.value else true)
  }

  /** Inserting an auction for an existing NFT that no auction sells yet,
      under a fresh positive id, keeps the store consistent. */
  lemma InsertAuctionKeepsConsistent(t: Tables, id: int, row: Auction)
    requires Consistent(t) && id >= 1 && id !in t.auctions && row.nftId in t.nfts
    requires forall a :: a in t.auctions ==> t.auctions[a].nftId != row.nftId
    ensures Consistent(t.(auctions := t.auctions[id := row]))
  {
    OneAuctionPerNftInsert(t.auctions, id, row);
  }

  /** createAuction: inserts `NewAuction(data)` under the next id. The
      store refuses a time that is not a date, an NFT that does not exist,
      and an NFT that already has an auction. */
  method CreateAuction(db: Db, data: CreateAuctionArgs) returns (r: Result<int>)
    requires db.Valid()
    modifies db
    ensures db.Valid()
    ensures r.Ok? <==>
      && CreateTimesParse(data) && data.nftId in old(db.nfts)
      && forall a :: a in old(db.auctions) ==> old(db.auctions)[a].nftId != data.nftId
    ensures r.Ok? ==>
      && r.value == old(db.nextAuctionId) && r.value !in old(db.auctions)
      && db.Snapshot() == old(db.Snapshot()).(auctions := old(db.auctions)[r.value := NewAuction(data)])
    ensures r.Err? ==> r.error.code == StoreError && db.Snapshot() == old(db.Snapshot())
    ensures db.nextUserId == old(db.nextUserId) && db.nextNftId == old(db.nextNftId)
  {
    if !CreateTimesParse(data) {
      return Err(Error(StoreError, "Invalid value provided for a DateTime field"));
    }
    if data.nftId !in db.nfts {
      return Err(Error(StoreError, "Foreign key constraint violated"));
    }
    if exists a :: a in db.auctions && db.auctions[a].nftId == data.nftId {
      return Err(Error(StoreError, "Unique constraint failed on nftId"));
    }
    var id := db.nextAuctionId;
    InsertAuctionKeepsConsistent(db.Snapshot(), id, NewAuction(data));
    db.auctions := db.auctions[id := NewAuction(data)];
    db.nextAuctionId := db.nextAuctionId + 1;
    return Ok(id);
  }

  /** The row after `updateAuction`: each given field overwrites the stored
      one, an absent or null field keeps it, and nothing else changes. */
  function ApplyAuctionUpdate(a: Auction, data: UpdateAuctionInput): (r: Auction)
    requires UpdateTimeParses(data)
    ensures data.currentPrice.Given? ==> r.currentPrice == data.currentPrice.value
    ensures !data.currentPrice.Given? ==> r.currentPrice == a.currentPrice
    ensures data.endTime.Given? ==> r.endTime == data.endTime.value.ms
    ensures !data.endTime.Given? ==> r.endTime == a.endTime
    ensures data.isActive.Given? ==> r.isActive == data.isActive.value
    ensures !data.isActive.Given? ==> r.isActive == a.isActive
    ensures r.nftId == a.nftId && r.startPrice == a.startPrice && r.startTime == a.startTime
  {
    a.(currentPrice := KeepIfAbsent(data.currentPrice, a.currentPrice),
       endTime := if data.endTime.Given? then data.endTime.value.ms else a.endTime,
       isActive := KeepIfAbsent(data.isActive, a.isActive))
  }

  /** Applying the same update twice is the same as applying it once. */
  lemma ApplyAuctionUpdateIdempotent(a: Auction, data: UpdateAuctionInput)
    requires UpdateTimeParses(data)
    ensures ApplyAuctionUpdate(ApplyAuctionUpdate(a, data), data) == ApplyAuctionUpdate(a, data)
  {
  }

  /** updateAuction: rewrites the row under `id`; the store refuses an end
      time that is not a date and an id that has no row. */
  method UpdateAuction(db: Db, id: int, data: UpdateAuctionInput) returns (r: Result<Auction>)
    requires db.Valid()
    modifies db
    ensures db.Valid()
    ensures r.Ok? <==> UpdateTimeParses(data) && id in old(db.auctions)
    ensures r.Ok? ==>
      && r.value == ApplyAuctionUpdate(old(db.auctions)[id], data)
      && db.Snapshot() == old(db.Snapshot()).(auctions := old(db.auctions)[id := r.value])
    ensures r.Err? ==> r.error.code == StoreError && db.Snapshot() == old(db.Snapshot())
    ensures db.nextUserId == old(db.nextUserId) && db.nextNftId == old(db.nextNftId)
    ensures db.nextAuctionId == old(db.nextAuctionId)
  {
    if !UpdateTimeParses(data) {
      return Err(Error(StoreError, "Invalid value provided for a DateTime field"));
    }
    if id !in db.auctions {
      return Err(Error(StoreError, "Record to update not found"));
    }
    var updated := ApplyAuctionUpdate(db.auctions[id], data);
    OneAuctionPerNftReplace(db.auctions, id, updated);
    db.auctions := db.auctions[id := updated];
    return Ok(updated);
  }

  /** getAuctionById: the row under `id`, or none. */
  function GetAuctionById(auctions: map<int, Auction>, id: int): (r: Option<Auction>)
    ensures r.None? <==> id !in auctions
    ensures r.Some? ==> r.value == auctions[id]
  {
    Get(auctions, id)
  }

  // --------------------------------------------------------- highest bid

  /** The position of a highest bid on `auctionId` among the first `n`
      bids, keeping the earliest among equal amounts. */
  function HighestBidIndex(bids: seq<Bid>, n: nat, auctionId: int): (r: Option<nat>)
    requires n <= |bids|
    ensures r.None? <==> forall i :: 0 <= i < n ==> bids[i].auctionId != auctionId
    ensures r.Some? ==> r.value < n && bids[r.value].auctionId == auctionId
    ensures r.Some? ==> forall i :: 0 <= i < n && bids[i].auctionId == auctionId ==> bids[i].amount <= bids[r.value].amount
  {
    if n == 0 then None
    else
      var rest := HighestBidIndex(bids, n - 1, auctionId);
      if bids[n - 1].auctionId != auctionId then rest
      else if rest.None? || bids[n - 1].amount > bids[rest.value].amount then Some(n - 1)
      else rest
  }

  /** getHighestBid: none exactly when the auction has no bid; otherwise
      one of its bids whose amount no other bid of it exceeds. Among equal
      amounts the earliest is chosen here; the store's choice is its own. */
  function HighestBid(bids: seq<Bid>, auctionId: int): (r: Option<Bid>)
    ensures r.None? <==> forall i :: 0 <= i < |bids| ==> bids[i].auctionId != auctionId
    ensures r.Some? ==> r.value.auctionId == auctionId
    ensures r.Some? ==> forall i :: 0 <= i < |bids| && bids[i].auctionId == auctionId ==> bids[i].amount <= r.value.amount
  {
    var k := HighestBidIndex(bids, |bids|, auctionId);
    if k.None? then None else Some(bids[k.value])
  }

  /** The highest bid is one of the stored bids. */
  lemma HighestBidIsStored(bids: seq<Bid>, auctionId: int)
    ensures HighestBid(bids, auctionId).Some? ==> HighestBid(bids, auctionId).value in bids
  {
    var k := HighestBidIndex(bids, |bids|, auctionId);
    if k.Some? {
      assert bids[k.value] in bids;
    }
  }

  // --------------------------------------------------------------- sweep

  /** The sweep's selection: active and ended at or before `now`. */
  predicate SelectedAt(a: Auction, now: int)
  {
    a.isActive && a.endTime <= now
  }

  /** The rows the sweep's query returns, in the store's order. */
  function ExpiredIds(auctions: map<int, Auction>, rows: seq<int>, now: int): (r: seq<int>)
    ensures forall a :: a in r <==> a in rows && a in auctions && SelectedAt(auctions[a], now)
    ensures forall i :: 0 <= i < |r| ==> r[i] in auctions
    ensures NoDuplicates(rows) ==> NoDuplicates(r)
  {
    if rows == [] then []
    else
      var rest := ExpiredIds(auctions, rows[1..], now);
      if rows[0] in auctions && SelectedAt(auctions[rows[0]], now) then
        assert NoDuplicates(rows) ==> rows[0] !in rows[1..];
        [rows[0]] + rest
      else rest
  }

  /** Moves `amount` from `from`'s wallet to `to`'s, as the decrement and
      the increment the sweep issues one after the other. */
  function Pay(users: map<int, User>, from: int, to: int, amount: int): (r: map<int, User>)
    requires from in users && to in users
    ensures r.Keys == users.Keys
  {
    var debited := users[from := users[from].(walletBalance := users[from].walletBalance - amount)];
    debited[to := debited[to].(walletBalance := debited[to].walletBalance + amount)]
  }

  /** A payment lowers the payer's balance and raises the payee's by the
      amount (both, when they are the same user, cancelling out) and
      changes nothing else. */
  lemma PayEffect(users: map<int, User>, from: int, to: int, amount: int)
    requires from in users && to in users
    ensures var r := Pay(users, from, to, amount);
      && (forall u :: u in users ==> r[u] == users[u].(walletBalance := r[u].walletBalance))
      && (forall u :: u in users ==>
            r[u].walletBalance == users[u].walletBalance - (if u == from then amount else 0) + (if u == to then amount else 0))
  {
  }

  /** One pass of the settlement loop for auction `id`, in the source's
      order: read the NFT's creator, mark the auction inactive, then, when
      it has a highest bid, debit the bidder, credit the creator by the
      same amount and hand the NFT to the bidder. The flag is false where
      the pass ends the whole sweep: the loop body's `return` when there is
      no winner, or an exception from a missing row, which the sweep's
      catch-all turns into the same early exit. */
  function SettleStep(t: Tables, id: int): (r: (Tables, bool))
    ensures r.0.bids == t.bids
    ensures r.0.auctions.Keys == t.auctions.Keys
    ensures r.0.users.Keys == t.users.Keys && r.0.nfts.Keys == t.nfts.Keys
  {
    if id !in t.auctions || t.auctions[id].nftId !in t.nfts then (t, false)
    else
      var auction := t.auctions[id];
      var closed := t.(auctions := t.auctions[id := auction.(isActive := false)]);
      var highestBid := HighestBid(t.bids, id);
      var winnerId := if highestBid.Some? then highestBid.value.bidderId else 0;
      var sellerId := t.nfts[auction.nftId].creatorId;
      if winnerId == 0 || sellerId == 0 || winnerId !in t.users then (closed, false)
      else
        var amount := highestBid.value.amount;
        if sellerId !in t.users then
          (closed.(users := t.users[winnerId := t.users[winnerId].(walletBalance := t.users[winnerId].walletBalance - amount)]), false)
        else
          var nft := t.nfts[auction.nftId];
          (closed.(users := Pay(t.users, winnerId, sellerId, amount), nfts := t.nfts[auction.nftId := nft.(ownerId := winnerId)]), true)
  }

  /** The part of the store's constraints the sweep relies on: every
      auction's NFT exists, every NFT's creator and every bidder is an
      existing user with a non-zero id, and no NFT has two auctions. */
  ghost predicate SweepReady(t: Tables)
  {
    && (forall a :: a in t.auctions ==> t.auctions[a].nftId in t.nfts)
    && (forall n :: n in t.nfts ==> t.nfts[n].creatorId in t.users && t.nfts[n].creatorId != 0)
    && (forall i :: 0 <= i < |t.bids| ==> t.bids[i].bidderId in t.users && t.bids[i].bidderId != 0)
    && OneAuctionPerNft(t.auctions)
  }

  lemma ConsistentIsSweepReady(t: Tables)
    requires Consistent(t)
    ensures SweepReady(t)
  {
  }

  /** The highest bid of an auction was placed by an existing user, whose
      id is therefore not 0. */
  lemma HighestBidderExists(t: Tables, id: int)
    requires SweepReady(t)
    ensures HighestBid(t.bids, id).Some? ==> HighestBid(t.bids, id).value.bidderId in t.users
    ensures HighestBid(t.bids, id).Some? ==> HighestBid(t.bids, id).value.bidderId != 0
  {
    var k := HighestBidIndex(t.bids, |t.bids|, id);
    if k.Some? {
      assert t.bids[k.value].bidderId in t.users;
    }
  }

  /** When no row is missing, a pass closes the auction and goes on
      exactly when the auction has a bid; without a bid no wallet and no
      NFT changes. */
  lemma SettleStepCloses(t: Tables, id: int)
    requires SweepReady(t) && id in t.auctions
    ensures var r := SettleStep(t, id);
      && r.0.auctions == t.auctions[id := t.auctions[id].(isActive := false)]
      && (r.1 <==> HighestBid(t.bids, id).Some?)
      && (!r.1 ==> r.0.users == t.users && r.0.nfts == t.nfts)
  {
    HighestBidderExists(t, id);
  }

  /** With a bid, the highest bidder pays the NFT's creator the bid amount
      and receives the NFT. */
  lemma SettleStepSettles(t: Tables, id: int)
    requires SweepReady(t) && id in t.auctions && HighestBid(t.bids, id).Some?
    ensures var r := SettleStep(t, id);
      var b := HighestBid(t.bids, id).value;
      var nftId := t.auctions[id].nftId;
      && r.1
      && r.0.users == Pay(t.users, b.bidderId, t.nfts[nftId].creatorId, b.amount)
      && r.0.nfts == t.nfts[nftId := t.nfts[nftId].(ownerId := b.bidderId)]
  {
    HighestBidderExists(t, id);
  }

  /** A pass keeps what the sweep relies on. */
  lemma SettleStepKeepsSweepReady(t: Tables, id: int)
    requires SweepReady(t)
    ensures SweepReady(SettleStep(t, id).0)
  {
    if id in t.auctions {
      SettleStepCloses(t, id);
      OneAuctionPerNftReplace(t.auctions, id, t.auctions[id].(isActive := false));
      if HighestBid(t.bids, id).Some? {
        SettleStepSettles(t, id);
      }
    }
  }

  /** Rewriting fields other than the e-mail keeps e-mails unique. */
  lemma SameEmailsStayUnique(users: map<int, User>, users': map<int, User>)
    requires UniqueEmails(users)
    requires users'.Keys == users.Keys
    requires forall u :: u in users ==> users'[u].email == users[u].email
    ensures UniqueEmails(users')
  {
    forall a, b | a in users' && b in users' && EmailOf(users', a) == EmailOf(users', b)
      ensures a == b
    {
      assert EmailOf(users, a) == EmailOf(users', a) && EmailOf(users, b) == EmailOf(users', b);
    }
  }

  /** Marking an auction inactive keeps the store consistent. */
  lemma CloseKeepsConsistent(t: Tables, id: int)
    requires Consistent(t) && id in t.auctions
    ensures Consistent(t.(auctions := t.auctions[id := t.auctions[id].(isActive := false)]))
  {
    OneAuctionPerNftReplace(t.auctions, id, t.auctions[id].(isActive := false));
  }

  /** A payment between existing users together with a change of an
      NFT's owner to an existing user keeps the store consistent. */
  lemma SettlementKeepsConsistent(t: Tables, w: int, s: int, amount: int, n: int)
    requires Consistent(t) && w in t.users && s in t.users && n in t.nfts
    ensures Consistent(t.(users := Pay(t.users, w, s, amount), nfts := t.nfts[n := t.nfts[n].(ownerId := w)]))
  {
    PayEffect(t.users, w, s, amount);
    SameEmailsStayUnique(t.users, Pay(t.users, w, s, amount));
  }

  /** A pass keeps the store consistent. */
  lemma SettleStepPreservesConsistent(t: Tables, id: int)
    requires Consistent(t)
    ensures Consistent(SettleStep(t, id).0)
  {
    ConsistentIsSweepReady(t);
    if id in t.auctions {
      SettleStepCloses(t, id);
      var closed := t.(auctions := t.auctions[id := t.auctions[id].(isActive := false)]);
      CloseKeepsConsistent(t, id);
      var h := HighestBid(t.bids, id);
      if h.Some? {
        SettleStepSettles(t, id);
        HighestBidderExists(t, id);
        var n := t.auctions[id].nftId;
        SettlementKeepsConsistent(closed, h.value.bidderId, t.nfts[n].creatorId, h.value.amount, n);
      }
    }
  }

  /** The settlement loop over `ids`, stopping where a pass says so. */
  function SweepFrom(t: Tables, ids: seq<int>): (r: Tables)
    ensures r.bids == t.bids
    ensures r.auctions.Keys == t.auctions.Keys
    ensures r.users.Keys == t.users.Keys && r.nfts.Keys == t.nfts.Keys
    decreases |ids|
  {
    if ids == [] then t
    else
      var step := SettleStep(t, ids[0]);
      if step.1 then SweepFrom(step.0, ids[1..]) else step.0
  }

  /** closeExpiredAuctions at time `now`, given the store's row order. */
  function Sweep(t: Tables, rows: seq<int>, now: int): (r: Tables)
  {
    SweepFrom(t, ExpiredIds(t.auctions, rows, now))
  }

  /** A sweep keeps the store consistent. */
  lemma {:induction false} SweepFromPreservesConsistent(t: Tables, ids: seq<int>)
    requires Consistent(t)
    ensures Consistent(SweepFrom(t, ids))
    decreases |ids|
  {
    if ids != [] {
      SettleStepPreservesConsistent(t, ids[0]);
      SweepFromPreservesConsistent(SettleStep(t, ids[0]).0, ids[1..]);
    }
  }

  /** The body of the sweep's loop for auction `id`, as the source's own
      sequence of reads and updates. Returns false where the source
      returns. */
  method SettleOne(db: Db, id: int) returns (proceed: bool)
    requires SweepReady(db.Snapshot()) && id in db.auctions
    modifies db
    ensures (db.Snapshot(), proceed) == SettleStep(old(db.Snapshot()), id)
    ensures db.nextUserId == old(db.nextUserId) && db.nextNftId == old(db.nextNftId)
    ensures db.nextAuctionId == old(db.nextAuctionId)
  {
    ghost var before := db.Snapshot();
    var auction := db.auctions[id];
    var highestBid := HighestBid(db.bids, id);
    HighestBidderExists(before, id);
    var winnerId := if highestBid.Some? then highestBid.value.bidderId else 0;
    var sellerId := db.nfts[auction.nftId].creatorId;

    db.auctions := db.auctions[id := auction.(isActive := false)];

    if winnerId == 0 || sellerId == 0 {
      SettleStepCloses(before, id);
      return false;
    }
    var amount := highestBid.value.amount;
    ghost var users0 := db.users;
    db.users := db.users[winnerId := db.users[winnerId].(walletBalance := db.users[winnerId].walletBalance - amount)];
    ghost var users1 := db.users;
    assert users1 == users0[winnerId := users0[winnerId].(walletBalance := users0[winnerId].walletBalance - amount)];
    db.users := db.users[sellerId := db.users[sellerId].(walletBalance := db.users[sellerId].walletBalance + amount)];
    assert db.users == users1[sellerId := users1[sellerId].(walletBalance := users1[sellerId].walletBalance + amount)];
    assert db.users == Pay(users0, winnerId, sellerId, amount);
    db.nfts := db.nfts[auction.nftId := db.nfts[auction.nftId].(ownerId := winnerId)];
    SettleStepSettles(before, id);
    return true;
  }

  /** The loop of closeExpiredAuctions over the selected ids: settles
      them one at a time and stops after the first auction without a
      bid. */
  method SettleInOrder(db: Db, ids: seq<int>)
    requires SweepReady(db.Snapshot())
    requires forall j :: 0 <= j < |ids| ==> ids[j] in db.auctions
    modifies db
    ensures db.Snapshot() == SweepFrom(old(db.Snapshot()), ids)
    ensures db.nextUserId == old(db.nextUserId) && db.nextNftId == old(db.nextNftId)
    ensures db.nextAuctionId == old(db.nextAuctionId)
  {
    ghost var target := SweepFrom(db.Snapshot(), ids);
    var i := 0;
    while i < |ids|
      invariant 0 <= i <= |ids|
      invariant SweepReady(db.Snapshot())
      invariant forall j :: i <= j < |ids| ==> ids[j] in db.auctions
      invariant SweepFrom(db.Snapshot(), ids[i..]) == target
      invariant db.nextUserId == old(db.nextUserId) && db.nextNftId == old(db.nextNftId)
      invariant db.nextAuctionId == old(db.nextAuctionId)
    {
      assert ids[i..][0] == ids[i] && ids[i..][1..] == ids[i + 1..];
      SettleStepKeepsSweepReady(db.Snapshot(), ids[i]);
      var proceed := SettleOne(db, ids[i]);
      if !proceed {
        return;
      }
      i := i + 1;
    }
  }

  /** closeExpiredAuctions: queries the active auctions whose end time is
      not after `now`, then settles them one at a time in row order. The
      first one without any bid is closed and the method returns, leaving
      the rest of the list for a later call. */
  method CloseExpiredAuctions(db: Db, rows: seq<int>, now: int)
    requires db.Valid() && RowOrder(rows, db.auctions)
    modifies db
    ensures db.Valid()
    ensures db.Snapshot() == Sweep(old(db.Snapshot()), rows, now)
    ensures db.nextUserId == old(db.nextUserId) && db.nextNftId == old(db.nextNftId)
    ensures db.nextAuctionId == old(db.nextAuctionId)
  {
    var expired := ExpiredIds(db.auctions, rows, now);
    if |expired| == 0 {
      return;
    }
    SweepFromPreservesConsistent(db.Snapshot(), expired);
    ConsistentIsSweepReady(db.Snapshot());
    SettleInOrder(db, expired);
  }
}
