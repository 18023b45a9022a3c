/** The user model: creating users, partial updates, wallet increments
    and decrements, and the three NFT lists of a user's profile. */
module UserModel {
  import opened Common
  import opened Ledger

  datatype CreateUserArgs = CreateUserArgs(
    name: string,
    email: string,
    password: string,
    role: Option<Role>)

  /** The fields a partial update may carry. */
  datatype UpdateUserInput = UpdateUserInput(
    name: Field<string>,
    email: Field<string>,
    password: Field<string>,
    walletBalance: Field<int>,
    bidsTotal: Field<int>,
    avatarPicture: Field<string>,
    bannerPicture: Field<string>,
    description: Field<string>)

  // --------------------------------------------------------------- lookup

  /** getUserByEmail: the user holding `email`, if any. */
  ghost function GetUserByEmail(users: map<int, User>, email: string): (r: Option<int>)
    ensures r.None? <==> forall u :: u in users ==> users[u].email != email
    ensures r.Some? ==> r.value in users && users[r.value].email == email
  {
    if exists u :: u in users && users[u].email == email then
      var u :| u in users && users[u].email == email;
      Some(u)
    else None
  }

  /** With unique addresses the lookup finds exactly the holder. */
  lemma GetUserByEmailFindsHolder(users: map<int, User>, u: int)
    requires UniqueEmails(users) && u in users
    ensures GetUserByEmail(users, users[u].email) == Some(u)
  {
    var r := GetUserByEmail(users, users[u].email);
    assert EmailOf(users, r.value) == EmailOf(users, u);
  }

  // ------------------------------------------------------------- creation

  /** The row createUser inserts: the given name, address and password,
      the given role or COLLECTOR when none is given. The wallet and the
      committed bids are taken to start at 0, the store's default. */
  function NewUser(data: CreateUserArgs): (r: User)
    ensures data.role.None? ==> r.role == Collector
    ensures data.role.Some? ==> r.role == data.role.value
    ensures r.name == data.name && r.email == data.email && r.password == data.password
    ensures r.walletBalance == 0 && r.bidsTotal == 0
  {
    User(data.name, data.email, data.password,
         if data.role.Some? then data.role.value else Collector,
         0, 0, None, None, None)
  }

  /** A new user under a fresh positive id with an address nobody holds
      keeps the store consistent. */
  lemma InsertUserKeepsConsistent(t: Tables, id: int, row: User)
    requires Consistent(t) && id >= 1 && id !in t.users
    requires forall u :: u in t.users ==> t.users[u].email != row.email
    ensures Consistent(t.(users := t.users[id := row]))
  {
    var m := t.users[id := row];
    forall a, b | a in m && b in m && EmailOf(m, a) == EmailOf(m, b) ensures a == b {
      if a != id && b != id {
        assert EmailOf(t.users, a) == EmailOf(m, a) && EmailOf(t.users, b) == EmailOf(m, b);
      }
    }
  }

  /** createUser: inserts `NewUser(data)` under the next id; the store
      refuses an address another user already holds. */
  method CreateUser(db: Db, data: CreateUserArgs) returns (r: Result<int>)
    requires db.Valid()
    modifies db
    ensures db.Valid()
    ensures r.Ok? <==> forall u :: u in old(db.users) ==> old(db.users)[u].email != data.email
    ensures r.Ok? ==>
      && r.value == old(db.nextUserId) && r.value !in old(db.users)
      && db.Snapshot() == old(db.Snapshot()).(users := old(db.users)[r.value := NewUser(data)])
    ensures r.Err? ==> r.error.code == StoreError && db.Snapshot() == old(db.Snapshot())
    ensures db.nextNftId == old(db.nextNftId) && db.nextAuctionId == old(db.nextAuctionId)
  {
    if exists u :: u in db.users && db.users[u].email == data.email {
      return Err(Error(StoreError, "Unique constraint failed on email"));
    }
    var id := db.nextUserId;
    InsertUserKeepsConsistent(db.Snapshot(), id, NewUser(data));
    db.users := db.users[id := NewUser(data)];
    db.nextUserId := db.nextUserId + 1;
    return Ok(id);
  }

  // -------------------------------------------------------------- updates

  /** The row after updateUser: each given field overwrites the stored
      one, an absent or null field keeps it. */
  function ApplyUserUpdate(u: User, data: UpdateUserInput): (r: User)
    ensures r.role == u.role
    ensures r.name == KeepIfAbsent(data.name, u.name)
    ensures r.email == KeepIfAbsent(data.email, u.email)
    ensures r.password == KeepIfAbsent(data.password, u.password)
    ensures r.walletBalance == KeepIfAbsent(data.walletBalance, u.walletBalance)
    ensures r.bidsTotal == KeepIfAbsent(data.bidsTotal, u.bidsTotal)
    ensures data.avatarPicture.Given? ==> r.avatarPicture == Some(data.avatarPicture.value)
    ensures !data.avatarPicture.Given? ==> r.avatarPicture == u.avatarPicture
    ensures data.bannerPicture.Given? ==> r.bannerPicture == Some(data.bannerPicture.value)
    ensures !data.bannerPicture.Given? ==> r.bannerPicture == u.bannerPicture
    ensures data.description.Given? ==> r.description == Some(data.description.value)
    ensures !data.description.Given? ==> r.description == u.description
  {
    u.(name := KeepIfAbsent(data.name, u.name),
       email := KeepIfAbsent(data.email, u.email),
       password := KeepIfAbsent(data.password, u.password),
       walletBalance := KeepIfAbsent(data.walletBalance, u.walletBalance),
       bidsTotal := KeepIfAbsent(data.bidsTotal, u.bidsTotal),
       avatarPicture := if data.avatarPicture.Given? then Some(data.avatarPicture.value) else u.avatarPicture,
       bannerPicture := if data.bannerPicture.Given? then Some(data.bannerPicture.value) else u.bannerPicture,
       description := if data.description.Given? then Some(data.description.value) else u.description)
  }

  /** An update with no field given leaves the row as it was. */
  lemma EmptyUserUpdateKeepsRow(u: User)
    ensures ApplyUserUpdate(u, UpdateUserInput(Absent, Null, Absent, Null, Absent, Null, Absent, Null)) == u
  {
  }

  /** Rewriting user `id` with an address no other user holds keeps the
      store consistent. */
  lemma ReplaceUserKeepsConsistent(t: Tables, id: int, row: User)
    requires Consistent(t) && id in t.users
    requires forall u :: u in t.users && u != id ==> t.users[u].email != row.email
    ensures Consistent(t.(users := t.users[id := row]))
  {
    var m := t.users[id := row];
    assert m.Keys == t.users.Keys;
    forall a, b | a in m && b in m && EmailOf(m, a) == EmailOf(m, b) ensures a == b {
      if a != id && b != id {
        assert EmailOf(t.users, a) == EmailOf(m, a) && EmailOf(t.users, b) == EmailOf(m, b);
      }
    }
  }

  /** updateUser: rewrites the row under `id`. The store refuses an id
      without a row and an address another user holds. */
  method UpdateUser(db: Db, id: int, data: UpdateUserInput) returns (r: Result<User>)
    requires db.Valid()
    modifies db
    ensures db.Valid()
    ensures r.Ok? <==>
      && id in old(db.users)
      && forall u :: u in old(db.users) && u != id ==>
           old(db.users)[u].email != ApplyUserUpdate(old(db.users)[id], data).email
    ensures r.Ok? ==>
      && r.value == ApplyUserUpdate(old(db.users)[id], data)
      && db.Snapshot() == old(db.Snapshot()).(users := old(db.users)[id := r.value])
    ensures r.Err? ==> r.error.code == StoreError && db.Snapshot() == old(db.Snapshot())
    ensures db.nextUserId == old(db.nextUserId) && db.nextNftId == old(db.nextNftId)
    ensures db.nextAuctionId == old(db.nextAuctionId)
  {
    if id !in db.users {
      return Err(Error(StoreError, "Record to update not found"));
    }
    var updated := ApplyUserUpdate(db.users[id], data);
    if exists u :: u in db.users && u != id && db.users[u].email == updated.email {
      return Err(Error(StoreError, "Unique constraint failed on email"));
    }
    ReplaceUserKeepsConsistent(db.Snapshot(), id, updated);
    db.users := db.users[id := updated];
    return Ok(updated);
  }

  /** Under unique addresses, no other user holds `id`'s address. */
  lemma OthersHoldOtherEmails(users: map<int, User>, id: int)
    requires UniqueEmails(users) && id in users
    ensures forall u :: u in users && u != id ==> users[u].email != users[id].email
  {
    forall u | u in users && u != id ensures users[u].email != users[id].email {
      assert EmailOf(users, u) == users[u].email && EmailOf(users, id) == users[id].email;
    }
  }

  /** The balance change of addFunds and deductFunds: an atomic increment
      by `delta`, with no sign or floor check. */
  method ChangeBalance(db: Db, id: int, delta: int) returns (r: Result<()>)
    requires db.Valid()
    modifies db
    ensures db.Valid()
    ensures r.Ok? <==> id in old(db.users)
    ensures r.Ok? ==>
      db.Snapshot() == old(db.Snapshot()).(users := WithBalanceChange(old(db.users), id, delta))
    ensures r.Err? ==> r.error.code == StoreError && db.Snapshot() == old(db.Snapshot())
    ensures db.nextUserId == old(db.nextUserId) && db.nextNftId == old(db.nextNftId)
    ensures db.nextAuctionId == old(db.nextAuctionId)
  {
    if id !in db.users {
      return Err(Error(StoreError, "Record to update not found"));
    }
    var updated := db.users[id].(walletBalance := db.users[id].walletBalance + delta);
    OthersHoldOtherEmails(db.users, id);
    ReplaceUserKeepsConsistent(db.Snapshot(), id, updated);
    db.users := db.users[id := updated];
    return Ok(());
  }

  /** addFunds: raises user `id`'s balance by exactly `amount`. */
  method AddFunds(db: Db, id: int, amount: int) returns (r: Result<()>)
    requires db.Valid()
    modifies db
    ensures db.Valid()
    ensures r.Ok? <==> id in old(db.users)
    ensures r.Ok? ==>
      db.Snapshot() == old(db.Snapshot()).(users := WithBalanceChange(old(db.users), id, amount))
    ensures r.Err? ==> r.error.code == StoreError && db.Snapshot() == old(db.Snapshot())
    ensures db.nextUserId == old(db.nextUserId) && db.nextNftId == old(db.nextNftId)
    ensures db.nextAuctionId == old(db.nextAuctionId)
  {
    r := ChangeBalance(db, id, amount);
  }

  /** deductFunds: lowers user `id`'s balance by exactly `amount`, which
      may leave it negative. */
  method DeductFunds(db: Db, id: int, amount: int) returns (r: Result<()>)
    requires db.Valid()
    modifies db
    ensures db.Valid()
    ensures r.Ok? <==> id in old(db.users)
    ensures r.Ok? ==>
      db.Snapshot() == old(db.Snapshot()).(users := WithBalanceChange(old(db.users), id, -amount))
    ensures r.Err? ==> r.error.code == StoreError && db.Snapshot() == old(db.Snapshot())
    ensures db.nextUserId == old(db.nextUserId) && db.nextNftId == old(db.nextNftId)
    ensures db.nextAuctionId == old(db.nextAuctionId)
  {
    r := ChangeBalance(db, id, -amount);
  }

  /** The user table after user `id`'s balance moves by `delta`. */
  function WithBalanceChange(users: map<int, User>, id: int, delta: int): (r: map<int, User>)
    requires id in users
    ensures r.Keys == users.Keys
    ensures r[id].walletBalance == users[id].walletBalance + delta
  {
    users[id := users[id].(walletBalance := users[id].walletBalance + delta)]
  }

  /** A deduction undoes an addition of the same amount. */
  lemma DeductUndoesAdd(users: map<int, User>, id: int, amount: int)
    requires id in users
    ensures WithBalanceChange(WithBalanceChange(users, id, amount), id, -amount) == users
  {
    assert WithBalanceChange(WithBalanceChange(users, id, amount), id, -amount)[id] == users[id];
  }

  /** A balance change moves the sum of all balances by exactly the
      change: nothing is created or lost elsewhere. */
  lemma BalanceChangeMovesTotal(users: map<int, User>, id: int, delta: int)
    requires id in users
    ensures TotalBalance(WithBalanceChange(users, id, delta)) == TotalBalance(users) + delta
  {
    TotalBalanceUpdate(users, id, users[id].(walletBalance := users[id].walletBalance + delta));
  }

  // ------------------------------------------------------------ NFT lists

  /** getOwnedNFTs: the NFTs whose owner is `userId`, in row order. */
  function GetOwnedNfts(nfts: map<int, Nft>, rows: seq<int>, userId: int): (r: seq<int>)
    ensures forall n :: n in r <==> n in rows && n in nfts && nfts[n].ownerId == userId
    ensures IsSubsequence(r, rows)
  {
    Filter(rows, n => n in nfts && nfts[n].ownerId == userId)
  }

  /** getCreatedNFTs: the NFTs whose creator is `userId`, in row order. */
  function GetCreatedNfts(nfts: map<int, Nft>, rows: seq<int>, userId: int): (r: seq<int>)
    ensures forall n :: n in r <==> n in rows && n in nfts && nfts[n].creatorId == userId
    ensures IsSubsequence(r, rows)
  {
    Filter(rows, n => n in nfts && nfts[n].creatorId == userId)
  }

  /** The store's order of the bid table: every position of `bids` once. */
  ghost predicate BidRowOrder(rows: seq<int>, bids: seq<Bid>)
  {
    && NoDuplicates(rows)
    && (forall k :: k in rows ==> 0 <= k < |bids|)
    && (forall k :: 0 <= k < |bids| ==> k in rows)
  }

  /** The bid query of getBidNfts, which names no order: the user's bids,
      in the order `rows` lists the positions of the table. */
  function BidsBy(bids: seq<Bid>, rows: seq<int>, userId: int): (r: seq<Bid>)
    ensures forall b :: b in r <==> exists k :: k in rows && 0 <= k < |bids| && bids[k] == b && b.bidderId == userId
  {
    var picked := Filter(rows, k => 0 <= k < |bids| && bids[k].bidderId == userId);
    assert forall i :: 0 <= i < |picked| ==> picked[i] in picked;
    var r := seq(|picked|, i requires 0 <= i < |picked| => bids[picked[i]]);
    assert forall b :: b in r ==> exists k :: k in rows && 0 <= k < |bids| && bids[k] == b && b.bidderId == userId by {
      forall b | b in r ensures exists k :: k in rows && 0 <= k < |bids| && bids[k] == b && b.bidderId == userId {
        var i :| 0 <= i < |r| && r[i] == b;
        assert picked[i] in picked;
      }
    }
    assert forall k :: k in rows && 0 <= k < |bids| && bids[k].bidderId == userId ==> bids[k] in r by {
      forall k | k in rows && 0 <= k < |bids| && bids[k].bidderId == userId ensures bids[k] in r {
        assert k in picked;
        var i :| 0 <= i < |picked| && picked[i] == k;
        assert r[i] == bids[k];
      }
    }
    r
  }

  /** The NFT each bid of `bids` reaches through its auction, in bid
      order, one entry per bid whose auction and NFT exist. */
  function NftRefs(bids: seq<Bid>, auctions: map<int, Auction>, nfts: map<int, Nft>): (r: seq<int>)
    ensures |r| <= |bids|
    ensures forall n :: n in r ==> n in nfts
    decreases |bids|
  {
    if bids == [] then []
    else
      var init, b := bids[..|bids| - 1], bids[|bids| - 1];
      var refs := NftRefs(init, auctions, nfts);
      if b.auctionId in auctions && auctions[b.auctionId].nftId in nfts then refs + [auctions[b.auctionId].nftId]
      else refs
  }

  /** `n` is referenced exactly when some bid's auction sells it. */
  lemma {:induction false} NftRefsContents(bids: seq<Bid>, auctions: map<int, Auction>, nfts: map<int, Nft>, n: int)
    ensures n in NftRefs(bids, auctions, nfts) <==>
      n in nfts && exists b :: b in bids && b.auctionId in auctions && auctions[b.auctionId].nftId == n
    decreases |bids|
  {
    if bids != [] {
      var init, b := bids[..|bids| - 1], bids[|bids| - 1];
      assert bids == init + [b];
      NftRefsContents(init, auctions, nfts, n);
    }
  }

  /** The values of a Map filled by `set` only when the key is new: each
      element of `s` once, at its first occurrence. */
  function FirstOccurrences(s: seq<int>): (r: seq<int>)
    ensures forall x :: x in r <==> x in s
    ensures NoDuplicates(r)
    decreases |s|
  {
    if s == [] then []
    else
      var init, x := s[..|s| - 1], s[|s| - 1];
      assert forall y :: y in s <==> y in init || y == x;
      var r := FirstOccurrences(init);
      if x in r then r else r + [x]
  }

  /** Every element of `FirstOccurrences(s)` occurs in `s` before any
      element listed after it first occurs. */
  lemma {:induction false} FirstOccurrencesInOrder(s: seq<int>, i: int, j: int)
    requires 0 <= i < j < |FirstOccurrences(s)|
    ensures var r := FirstOccurrences(s);
      exists k :: 0 <= k < |s| && s[k] == r[i] && r[j] !in s[..k + 1]
    decreases |s|
  {
    var r := FirstOccurrences(s);
    var init, x := s[..|s| - 1], s[|s| - 1];
    var r' := FirstOccurrences(init);
    if j < |r'| {
      assert r[i] == r'[i] && r[j] == r'[j];
      FirstOccurrencesInOrder(init, i, j);
      var k :| 0 <= k < |init| && init[k] == r'[i] && r'[j] !in init[..k + 1];
      assert s[..k + 1] == init[..k + 1];
      assert s[k] == r[i] && r[j] !in s[..k + 1];
    } else {
      assert r == r' + [x] && x !in init && r[j] == x;
      assert r'[i] in init;
      var k :| 0 <= k < |init| && init[k] == r'[i];
      assert s[..k + 1] == init[..k + 1];
      assert x !in s[..k + 1];
      assert s[k] == r[i] && r[j] !in s[..k + 1];
    }
  }

  /** getBidNfts: walks the user's bids, in the order the store returns
      them, and keeps each bid's NFT the first time it is seen. */
  method GetBidNfts(db: Db, rows: seq<int>, userId: int) returns (r: seq<int>)
    ensures r == FirstOccurrences(NftRefs(BidsBy(db.bids, rows, userId), db.auctions, db.nfts))
  {
    var bids := BidsBy(db.bids, rows, userId);
    r := [];
    var i := 0;
    while i < |bids|
      invariant 0 <= i <= |bids|
      invariant r == FirstOccurrences(NftRefs(bids[..i], db.auctions, db.nfts))
    {
      var bid := bids[i];
      assert bids[..i + 1][..i] == bids[..i] && bids[..i + 1][i] == bid;
      if bid.auctionId in db.auctions && db.auctions[bid.auctionId].nftId in db.nfts {
        var nftId := db.auctions[bid.auctionId].nftId;
        if nftId !in r {
          r := r + [nftId];
        }
      }
      i := i + 1;
    }
    assert bids[..|bids|] == bids;
  }

  /** Whatever order the store returns the bid table in, an NFT is listed
      exactly when the user has a bid on an auction of it, and no NFT is
      listed twice. */
  lemma GetBidNftsContents(t: Tables, rows: seq<int>, userId: int, n: int)
    requires BidRowOrder(rows, t.bids)
    ensures var r := FirstOccurrences(NftRefs(BidsBy(t.bids, rows, userId), t.auctions, t.nfts));
      && NoDuplicates(r)
      && (n in r <==>
            n in t.nfts &&
            exists b :: b in t.bids && b.bidderId == userId && b.auctionId in t.auctions && t.auctions[b.auctionId].nftId == n)
  {
    var mine := BidsBy(t.bids, rows, userId);
    NftRefsContents(mine, t.auctions, t.nfts, n);
    forall b | b in t.bids && b.bidderId == userId ensures b in mine {
      var k :| 0 <= k < |t.bids| && t.bids[k] == b;
      assert k in rows;
    }
  }
}
