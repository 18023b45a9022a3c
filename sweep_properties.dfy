/** What the auction sweep guarantees over a whole run: money is
    conserved, only balances and owners change, the settled auctions are
    closed and their NFTs handed to the highest bidders, and the run
    stops at the first expired auction nobody bid on. */
module AuctionSweep {
  import opened Common
  import opened Ledger
  import opened AuctionModel

  /** A payment moves money between two wallets and leaves the total as
      it was. */
  lemma PayPreservesTotalBalance(users: map<int, User>, from: int, to: int, amount: int)
    requires from in users && to in users
    ensures TotalBalance(Pay(users, from, to, amount)) == TotalBalance(users)
  {
    var debited := users[from := users[from].(walletBalance := users[from].walletBalance - amount)];
    TotalBalanceUpdate(users, from, debited[from]);
    TotalBalanceUpdate(debited, to, debited[to].(walletBalance := debited[to].walletBalance + amount));
  }

  /** A pass neither creates nor destroys money. */
  lemma SettleStepPreservesTotalBalance(t: Tables, id: int)
    requires SweepReady(t)
    ensures TotalBalance(SettleStep(t, id).0.users) == TotalBalance(t.users)
  {
    if id in t.auctions {
      SettleStepCloses(t, id);
      if HighestBid(t.bids, id).Some? {
        SettleStepSettles(t, id);
        HighestBidderExists(t, id);
        var b := HighestBid(t.bids, id).value;
        PayPreservesTotalBalance(t.users, b.bidderId, t.nfts[t.auctions[id].nftId].creatorId, b.amount);
      }
    }
  }

  /** A sweep neither creates nor destroys money: the wallet balances add
      up to the same total before and after. */
  lemma {:induction false} SweepFromPreservesTotalBalance(t: Tables, ids: seq<int>)
    requires SweepReady(t)
    ensures TotalBalance(SweepFrom(t, ids).users) == TotalBalance(t.users)
    decreases |ids|
  {
    if ids != [] {
      SettleStepKeepsSweepReady(t, ids[0]);
      SettleStepPreservesTotalBalance(t, ids[0]);
      SweepFromPreservesTotalBalance(SettleStep(t, ids[0]).0, ids[1..]);
    }
  }

  /** `r` differs from `t` at most in wallet balances and NFT owners. */
  ghost predicate OnlyBalancesAndOwnersChanged(t: Tables, r: Tables)
  {
    && r.users.Keys == t.users.Keys && r.nfts.Keys == t.nfts.Keys
    && (forall u :: u in t.users ==> r.users[u] == t.users[u].(walletBalance := r.users[u].walletBalance))
    && (forall n :: n in t.nfts ==> r.nfts[n] == t.nfts[n].(ownerId := r.nfts[n].ownerId))
  }

  /** Whatever the store holds, a pass writes no user field other than
      the wallet balance and no NFT field other than the owner. */
  lemma SettleStepChangesOnlyBalancesAndOwners(t: Tables, id: int)
    ensures OnlyBalancesAndOwnersChanged(t, SettleStep(t, id).0)
  {
    if id in t.auctions && t.auctions[id].nftId in t.nfts {
      var highestBid := HighestBid(t.bids, id);
      var sellerId := t.nfts[t.auctions[id].nftId].creatorId;
      if highestBid.Some? && highestBid.value.bidderId in t.users && sellerId in t.users {
        PayEffect(t.users, highestBid.value.bidderId, sellerId, highestBid.value.amount);
      }
    }
  }

  /** A sweep changes only wallet balances and NFT owners: every other
      field of every user and NFT row is what it was. */
  lemma {:induction false} SweepFromChangesOnlyBalancesAndOwners(t: Tables, ids: seq<int>)
    ensures OnlyBalancesAndOwnersChanged(t, SweepFrom(t, ids))
    decreases |ids|
  {
    if ids != [] {
      SettleStepChangesOnlyBalancesAndOwners(t, ids[0]);
      SweepFromChangesOnlyBalancesAndOwners(SettleStep(t, ids[0]).0, ids[1..]);
    }
  }

  /** The auctions a sweep over `ids` settles: the longest prefix whose
      auctions all have a bid, plus the first one without a bid. */
  function Processed(bids: seq<Bid>, ids: seq<int>): (r: seq<int>)
    ensures |r| <= |ids| && r == ids[..|r|]
    ensures forall i :: 0 <= i < |r| - 1 ==> HighestBid(bids, r[i]).Some?
    ensures |r| == |ids| || (|r| > 0 && HighestBid(bids, r[|r| - 1]).None?)
  {
    if ids == [] then []
    else if HighestBid(bids, ids[0]).None? then [ids[0]]
    else [ids[0]] + Processed(bids, ids[1..])
  }

  /** Exactly the processed auctions end up inactive; every other auction
      row is untouched. */
  lemma {:induction false} SweepFromClosesProcessed(t: Tables, ids: seq<int>)
    requires SweepReady(t)
    requires forall i :: 0 <= i < |ids| ==> ids[i] in t.auctions
    ensures var r := SweepFrom(t, ids);
      forall a :: a in t.auctions ==>
        r.auctions[a] == if a in Processed(t.bids, ids) then t.auctions[a].(isActive := false) else t.auctions[a]
    decreases |ids|
  {
    if ids != [] {
      var id := ids[0];
      SettleStepCloses(t, id);
      var step := SettleStep(t, id);
      var r := SweepFrom(t, ids);
      if step.1 {
        SettleStepKeepsSweepReady(t, id);
        assert r == SweepFrom(step.0, ids[1..]);
        SweepFromClosesProcessed(step.0, ids[1..]);
        var rest := Processed(t.bids, ids[1..]);
        assert Processed(t.bids, ids) == [id] + rest;
        forall a | a in t.auctions
          ensures r.auctions[a] == if a in Processed(t.bids, ids) then t.auctions[a].(isActive := false) else t.auctions[a]
        {
          assert a in step.0.auctions;
          if a != id {
            assert step.0.auctions[a] == t.auctions[a];
            assert a in Processed(t.bids, ids) <==> a in rest;
          }
        }
      } else {
        assert r == step.0;
        assert Processed(t.bids, ids) == [id];
      }
    }
  }

  /** Position `i` of `ids` holds an auction the sweep settles with a
      winner. */
  predicate SettledAt(bids: seq<Bid>, ids: seq<int>, i: int)
  {
    0 <= i < |ids| && i < |Processed(bids, ids)| && HighestBid(bids, ids[i]).Some?
  }

  /** Dropping a first auction that has a bid shifts the settled
      positions by one. */
  lemma SettledAtShift(bids: seq<Bid>, ids: seq<int>, i: int)
    requires ids != [] && HighestBid(bids, ids[0]).Some? && i >= 0
    ensures SettledAt(bids, ids, i + 1) <==> SettledAt(bids, ids[1..], i)
    ensures i + 1 < |ids| ==> ids[i + 1] == ids[1..][i]
  {
    assert Processed(bids, ids) == [ids[0]] + Processed(bids, ids[1..]);
  }

  /** What the sweep's later passes see after a first pass that settles
      an auction with a bid: the same bids, the same NFT for every
      auction, the NFT sold owned by the bidder, and the rest of the
      sweep still to run. */
  lemma SettledFirst(t: Tables, ids: seq<int>)
    requires SweepReady(t) && ids != [] && ids[0] in t.auctions
    requires HighestBid(t.bids, ids[0]).Some?
    ensures var st := SettleStep(t, ids[0]).0;
      && SweepReady(st)
      && st.bids == t.bids
      && (forall a :: a in t.auctions ==> st.auctions[a].nftId == t.auctions[a].nftId)
      && st.nfts[t.auctions[ids[0]].nftId].ownerId == HighestBid(t.bids, ids[0]).value.bidderId
      && SweepFrom(t, ids) == SweepFrom(st, ids[1..])
  {
    SettleStepCloses(t, ids[0]);
    SettleStepSettles(t, ids[0]);
    SettleStepKeepsSweepReady(t, ids[0]);
  }

  /** An NFT that no auction the sweep settles with a winner sells keeps
      its row. */
  lemma {:induction false} SweepFromKeepsUnsoldNft(t: Tables, ids: seq<int>, n: int)
    requires SweepReady(t) && n in t.nfts
    requires forall i :: 0 <= i < |ids| ==> ids[i] in t.auctions
    requires forall i :: SettledAt(t.bids, ids, i) ==> t.auctions[ids[i]].nftId != n
    ensures SweepFrom(t, ids).nfts[n] == t.nfts[n]
    decreases |ids|
  {
    if ids != [] {
      var id := ids[0];
      SettleStepCloses(t, id);
      if HighestBid(t.bids, id).Some? {
        SettleStepSettles(t, id);
        SettleStepKeepsSweepReady(t, id);
        var st := SettleStep(t, id).0;
        assert SettledAt(t.bids, ids, 0);
        forall j | SettledAt(st.bids, ids[1..], j) ensures st.auctions[ids[1..][j]].nftId != n {
          SettledAtShift(t.bids, ids, j);
        }
        SweepFromKeepsUnsoldNft(st, ids[1..], n);
      }
    }
  }

  /** NFT `n` is owned by `b`, and every auction selling it has a highest
      bid placed by `b`. */
  ghost predicate WinnerOwns(t: Tables, n: int, b: int)
  {
    && n in t.nfts && t.nfts[n].ownerId == b
    && forall a :: a in t.auctions && t.auctions[a].nftId == n ==>
         HighestBid(t.bids, a).Some? && HighestBid(t.bids, a).value.bidderId == b
  }

  /** A pass can only hand an NFT to the highest bidder of an auction
      selling it, so an NFT already with that bidder stays there. */
  lemma SettleStepKeepsWinner(t: Tables, id: int, n: int, b: int)
    requires SweepReady(t) && WinnerOwns(t, n, b)
    ensures WinnerOwns(SettleStep(t, id).0, n, b)
  {
    if id in t.auctions {
      SettleStepCloses(t, id);
      if HighestBid(t.bids, id).Some? {
        SettleStepSettles(t, id);
      }
    }
  }

  lemma {:induction false} SweepFromKeepsWinner(t: Tables, ids: seq<int>, n: int, b: int)
    requires SweepReady(t) && WinnerOwns(t, n, b)
    ensures WinnerOwns(SweepFrom(t, ids), n, b)
    decreases |ids|
  {
    if ids != [] {
      SettleStepKeepsWinner(t, ids[0], n, b);
      SettleStepKeepsSweepReady(t, ids[0]);
      SweepFromKeepsWinner(SettleStep(t, ids[0]).0, ids[1..], n, b);
    }
  }

  /** A sweep whose first auction has a bid is that pass followed by a
      sweep over the remaining ids. */
  lemma SweepFromGoesOn(t: Tables, ids: seq<int>)
    requires SweepReady(t) && ids != [] && ids[0] in t.auctions && HighestBid(t.bids, ids[0]).Some?
    ensures SweepReady(SettleStep(t, ids[0]).0)
    ensures SweepFrom(t, ids) == SweepFrom(SettleStep(t, ids[0]).0, ids[1..])
  {
    SettleStepCloses(t, ids[0]);
    SettleStepKeepsSweepReady(t, ids[0]);
  }

  /** While every pass goes on, a sweep over `ids` is a sweep over its
      first `k` ids followed by a sweep over the rest. */
  lemma {:induction false} SweepFromSplit(t: Tables, ids: seq<int>, k: nat)
    requires SweepReady(t) && k <= |ids|
    requires forall j :: 0 <= j < k ==> ids[j] in t.auctions && HighestBid(t.bids, ids[j]).Some?
    ensures SweepFrom(t, ids) == SweepFrom(SweepFrom(t, ids[..k]), ids[k..])
    decreases k
  {
    if k == 0 {
      assert ids[..0] == [] && ids[0..] == ids;
    } else {
      var st := SettleStep(t, ids[0]).0;
      var front, back := ids[1..][..k - 1], ids[1..][k - 1..];
      assert ids[..k][0] == ids[0] && ids[..k][1..] == front;
      assert back == ids[k..];
      SweepFromGoesOn(t, ids);
      SweepFromGoesOn(t, ids[..k]);
      SweepFromSplit(st, ids[1..], k - 1);
    }
  }

  /** A sweep keeps what it relies on. */
  lemma {:induction false} SweepFromKeepsSweepReady(t: Tables, ids: seq<int>)
    requires SweepReady(t)
    ensures SweepReady(SweepFrom(t, ids))
    decreases |ids|
  {
    if ids != [] {
      SettleStepKeepsSweepReady(t, ids[0]);
      SweepFromKeepsSweepReady(SettleStep(t, ids[0]).0, ids[1..]);
    }
  }

  /** A sweep never changes which NFT an auction sells. */
  lemma {:induction false} SweepFromKeepsAuctionNfts(t: Tables, ids: seq<int>)
    ensures var r := SweepFrom(t, ids);
      forall a :: a in t.auctions ==> r.auctions[a].nftId == t.auctions[a].nftId
    decreases |ids|
  {
    if ids != [] {
      var st := SettleStep(t, ids[0]).0;
      assert forall a :: a in t.auctions ==> st.auctions[a].nftId == t.auctions[a].nftId;
      SweepFromKeepsAuctionNfts(st, ids[1..]);
    }
  }

  /** Every auction the sweep settles with a winner hands its NFT to its
      highest bidder: no later pass takes it away again. */
  lemma SweepFromTransfersNft(t: Tables, ids: seq<int>, i: int)
    requires SweepReady(t)
    requires forall j :: 0 <= j < |ids| ==> ids[j] in t.auctions
    requires SettledAt(t.bids, ids, i)
    ensures SweepFrom(t, ids).nfts[t.auctions[ids[i]].nftId].ownerId == HighestBid(t.bids, ids[i]).value.bidderId
  {
    var p := Processed(t.bids, ids);
    forall j | 0 <= j < i ensures HighestBid(t.bids, ids[j]).Some? {
      assert p[j] == ids[j];
    }
    SweepFromSplit(t, ids, i);
    SweepFromKeepsSweepReady(t, ids[..i]);
    SweepFromKeepsAuctionNfts(t, ids[..i]);
    var mid := SweepFrom(t, ids[..i]);
    assert ids[i..][0] == ids[i];
    FirstSettledNftStays(mid, ids[i..]);
  }

  /** The NFT of a first auction settled with a winner stays with its
      bidder through the rest of the sweep. */
  lemma FirstSettledNftStays(t: Tables, ids: seq<int>)
    requires SweepReady(t) && ids != [] && ids[0] in t.auctions
    requires HighestBid(t.bids, ids[0]).Some?
    ensures SweepFrom(t, ids).nfts[t.auctions[ids[0]].nftId].ownerId == HighestBid(t.bids, ids[0]).value.bidderId
  {
    SettledFirst(t, ids);
    var st := SettleStep(t, ids[0]).0;
    var n0 := t.auctions[ids[0]].nftId;
    var b := HighestBid(t.bids, ids[0]).value.bidderId;
    forall a | a in st.auctions && st.auctions[a].nftId == n0
      ensures HighestBid(st.bids, a).Some? && HighestBid(st.bids, a).value.bidderId == b
    {
      // Only one auction sells n0: the one just settled.
      assert NftOf(t.auctions, a) == NftOf(t.auctions, ids[0]);
    }
    SweepFromKeepsWinner(st, ids[1..], n0, b);
  }

  /** When every auction in `ids` has a bid, the sweep processes all of
      them. */
  lemma {:induction false} ProcessedAllWhenAllBid(bids: seq<Bid>, ids: seq<int>)
    requires forall i :: 0 <= i < |ids| ==> HighestBid(bids, ids[i]).Some?
    ensures Processed(bids, ids) == ids
    decreases |ids|
  {
    if ids != [] {
      ProcessedAllWhenAllBid(bids, ids[1..]);
    }
  }

  /** A sweep in which every expired auction has a bid leaves no active
      auction whose end time has passed. */
  lemma SweepClosesAllExpiredWhenAllBid(t: Tables, rows: seq<int>, now: int)
    requires SweepReady(t) && RowOrder(rows, t.auctions)
    requires forall a :: a in t.auctions && SelectedAt(t.auctions[a], now) ==> HighestBid(t.bids, a).Some?
    ensures var r := Sweep(t, rows, now);
      forall a :: a in r.auctions ==> !SelectedAt(r.auctions[a], now)
  {
    var ids := ExpiredIds(t.auctions, rows, now);
    ProcessedAllWhenAllBid(t.bids, ids);
    SweepFromClosesProcessed(t, ids);
  }

  /** With no active expired auction the sweep's query returns no row. */
  lemma {:induction false} NothingExpiredSelectsNothing(auctions: map<int, Auction>, rows: seq<int>, now: int)
    requires forall a :: a in auctions ==> !SelectedAt(auctions[a], now)
    ensures ExpiredIds(auctions, rows, now) == []
    decreases |rows|
  {
    if rows != [] {
      NothingExpiredSelectsNothing(auctions, rows[1..], now);
    }
  }

  /** Under the same condition a second sweep at the same time changes
      nothing. */
  lemma SweepIdempotentWhenAllBid(t: Tables, rows: seq<int>, now: int)
    requires SweepReady(t) && RowOrder(rows, t.auctions)
    requires forall a :: a in t.auctions && SelectedAt(t.auctions[a], now) ==> HighestBid(t.bids, a).Some?
    ensures Sweep(Sweep(t, rows, now), rows, now) == Sweep(t, rows, now)
  {
    SweepClosesAllExpiredWhenAllBid(t, rows, now);
    NothingExpiredSelectsNothing(Sweep(t, rows, now).auctions, rows, now);
  }

  /** The processed prefix ends at the first auction without a bid. */
  lemma {:induction false} PrefixProcessed(bids: seq<Bid>, ids: seq<int>, k: nat)
    requires k < |ids| && HighestBid(bids, ids[k]).None?
    requires forall j :: 0 <= j < k ==> HighestBid(bids, ids[j]).Some?
    ensures Processed(bids, ids) == ids[..k + 1]
    decreases k
  {
    if k > 0 {
      PrefixProcessed(bids, ids[1..], k - 1);
      assert ids[1..][..k] == ids[1..k + 1];
      assert ids[..k + 1] == [ids[0]] + ids[1..k + 1];
    }
  }

  /** For any list of distinct auctions: the first one without a bid, at
      `k`, is closed and the ones after it are untouched. */
  lemma SweepFromStopsAtFirstUnbid(t: Tables, ids: seq<int>, k: nat)
    requires SweepReady(t) && NoDuplicates(ids)
    requires forall i :: 0 <= i < |ids| ==> ids[i] in t.auctions
    requires k < |ids| && HighestBid(t.bids, ids[k]).None?
    requires forall j :: 0 <= j < k ==> HighestBid(t.bids, ids[j]).Some?
    ensures var r := SweepFrom(t, ids);
      && !r.auctions[ids[k]].isActive
      && forall j :: k < j < |ids| ==> r.auctions[ids[j]] == t.auctions[ids[j]]
  {
    var p := Processed(t.bids, ids);
    PrefixProcessed(t.bids, ids, k);
    SweepFromClosesProcessed(t, ids);
    assert ids[k] in p by { assert p[k] == ids[k]; }
    forall j | k < j < |ids| ensures ids[j] !in p {
      forall i | 0 <= i < |p| ensures p[i] != ids[j] {
        assert p[i] == ids[i];
      }
    }
  }

  /** The sweep stops at the first expired auction without a bid: that
      auction is closed, and every expired auction after it in row order
      keeps its row, active, for a later sweep. */
  lemma SweepStopsAtFirstUnbidAuction(t: Tables, rows: seq<int>, now: int, k: nat)
    requires SweepReady(t) && RowOrder(rows, t.auctions)
    requires var ids := ExpiredIds(t.auctions, rows, now);
      && k < |ids|
      && HighestBid(t.bids, ids[k]).None?
      && forall j :: 0 <= j < k ==> HighestBid(t.bids, ids[j]).Some?
    ensures var ids := ExpiredIds(t.auctions, rows, now);
      var r := Sweep(t, rows, now);
      && !r.auctions[ids[k]].isActive
      && forall j :: k < j < |ids| ==> r.auctions[ids[j]] == t.auctions[ids[j]] && r.auctions[ids[j]].isActive
  {
    var ids := ExpiredIds(t.auctions, rows, now);
    SweepFromStopsAtFirstUnbid(t, ids, k);
    forall j | k < j < |ids| ensures t.auctions[ids[j]].isActive {
      assert ids[j] in ids;
    }
  }
}
