/** The relational store behind the server models: four tables keyed by
    id, the constraints the schema enforces on them, and the mutable
    store object the model operations update. */
module Ledger {
  import opened Common

  datatype Role = Collector | Artist | Admin

  datatype Category = Art | Gaming | Music | Photography | Video | Sport

  /** A category's name in the store's enum column and in the API. */
  function CategoryName(c: Category): (r: string)
    ensures r != []
  {
    match c
    case Art => "ART"
    case Gaming => "GAMING"
    case Music => "MUSIC"
    case Photography => "PHOTOGRAPHY"
    case Video => "VIDEO"
    case Sport => "SPORT"
  }

  /** The category a string names in the enum column, if any. The match
      is exact: "art" or "Art" names none. */
  function ParseCategory(s: string): (r: Option<Category>)
    ensures r.Some? ==> CategoryName(r.value) == s
  {
    if s == "ART" then Some(Art)
    else if s == "GAMING" then Some(Gaming)
    else if s == "MUSIC" then Some(Music)
    else if s == "PHOTOGRAPHY" then Some(Photography)
    else if s == "VIDEO" then Some(Video)
    else if s == "SPORT" then Some(Sport)
    else None
  }

  /** Each category's name reads back as that category. */
  lemma ParseCategoryName(c: Category)
    ensures ParseCategory(CategoryName(c)) == Some(c)
  {
    match c
    case Art =>
    case Gaming =>
    case Music =>
    case Photography =>
    case Video =>
    case Sport =>
  }

  /** A user row. Money is in smallest units. */
  datatype User = User(
    name: string,
    email: string,
    password: string,
    role: Role,
    walletBalance: int,
    bidsTotal: int,
    avatarPicture: Option<string>,
    bannerPicture: Option<string>,
    description: Option<string>)

  datatype Nft = Nft(
    title: string,
    description: Option<string>,
    imageUrl: string,
    creatorId: int,
    ownerId: int,
    tags: seq<Category>)

  /** An auction row; times are milliseconds since the epoch. */
  datatype Auction = Auction(
    nftId: int,
    startPrice: int,
    currentPrice: int,
    startTime: int,
    endTime: int,
    isActive: bool)

  datatype Bid = Bid(id: int, auctionId: int, bidderId: int, amount: int)

  /** The contents of the store at one moment. */
  datatype Tables = Tables(
    users: map<int, User>,
    nfts: map<int, Nft>,
    auctions: map<int, Auction>,
    bids: seq<Bid>)

  /** The e-mail address of user `u`, or the empty string when there is
      no such user. */
  function EmailOf(users: map<int, User>, u: int): string
  {
    if u in users then users[u].email else ""
  }

  /** No two users share an e-mail address. */
  ghost predicate UniqueEmails(users: map<int, User>)
  {
    forall a, b {:trigger EmailOf(users, a), EmailOf(users, b)} ::
      a in users && b in users && EmailOf(users, a) == EmailOf(users, b) ==> a == b
  }

  /** The NFT auction `a` sells, or 0 when there is no such auction. */
  function NftOf(auctions: map<int, Auction>, a: int): int
  {
    if a in auctions then auctions[a].nftId else 0
  }

  /** No NFT is sold by two auctions. */
  ghost predicate OneAuctionPerNft(auctions: map<int, Auction>)
  {
    forall a, b {:trigger NftOf(auctions, a), NftOf(auctions, b)} ::
      a in auctions && b in auctions && NftOf(auctions, a) == NftOf(auctions, b) ==> a == b
  }

  /** Adding an auction for an NFT no other auction sells keeps one
      auction per NFT. */
  lemma OneAuctionPerNftInsert(auctions: map<int, Auction>, id: int, row: Auction)
    requires OneAuctionPerNft(auctions) && id !in auctions
    requires forall a :: a in auctions ==> auctions[a].nftId != row.nftId
    ensures OneAuctionPerNft(auctions[id := row])
  {
    var m := auctions[id := row];
    forall a, b | a in m && b in m && NftOf(m, a) == NftOf(m, b) ensures a == b {
      if a != id && b != id {
        assert NftOf(auctions, a) == NftOf(m, a) && NftOf(auctions, b) == NftOf(m, b);
      }
    }
  }

  /** Rewriting an auction without changing its NFT keeps one auction per
      NFT. */
  lemma OneAuctionPerNftReplace(auctions: map<int, Auction>, id: int, row: Auction)
    requires OneAuctionPerNft(auctions) && id in auctions && row.nftId == auctions[id].nftId
    ensures OneAuctionPerNft(auctions[id := row])
  {
    var m := auctions[id := row];
    forall a, b | a in m && b in m && NftOf(m, a) == NftOf(m, b) ensures a == b {
      assert NftOf(auctions, a) == NftOf(m, a) && NftOf(auctions, b) == NftOf(m, b);
    }
  }

  /** The constraints the store keeps: auto-incremented ids start at 1,
      a bid's id is its position in the bid table plus one, e-mail
      addresses are unique, an NFT has at most one auction, and every
      foreign key names an existing row. */
  ghost predicate Consistent(t: Tables)
  {
    && (forall u :: u in t.users ==> u >= 1)
    && UniqueEmails(t.users)
    && (forall n :: n in t.nfts ==>
          n >= 1 && t.nfts[n].creatorId in t.users && t.nfts[n].ownerId in t.users)
    && (forall a :: a in t.auctions ==> a >= 1 && t.auctions[a].nftId in t.nfts)
    && OneAuctionPerNft(t.auctions)
    && (forall i :: 0 <= i < |t.bids| ==>
          t.bids[i].id == i + 1 && t.bids[i].auctionId in t.auctions && t.bids[i].bidderId in t.users)
  }

  /** The store. Each model operation reads and writes these fields; the
      `next…` counters are the auto-increment sequences of the three
      keyed tables. */
  class Db {
    var users: map<int, User>
    var nfts: map<int, Nft>
    var auctions: map<int, Auction>
    var bids: seq<Bid>
    var nextUserId: int
    var nextNftId: int
    var nextAuctionId: int

    function Snapshot(): Tables
      reads this
    {
      Tables(users, nfts, auctions, bids)
    }

    ghost predicate Valid()
      reads this
    {
      && Consistent(Snapshot())
      && nextUserId >= 1 && (forall u :: u in users ==> u < nextUserId)
      && nextNftId >= 1 && (forall n :: n in nfts ==> n < nextNftId)
      && nextAuctionId >= 1 && (forall a :: a in auctions ==> a < nextAuctionId)
    }

    constructor ()
      ensures Valid()
      ensures Snapshot() == Tables(map[], map[], map[], [])
    {
      users, nfts, auctions, bids := map[], map[], map[], [];
      nextUserId, nextNftId, nextAuctionId := 1, 1, 1;
    }
  }

  /** The sum of every user's wallet balance. */
  ghost function TotalBalance(users: map<int, User>): int
    decreases |users|
  {
    if |users| == 0 then 0
    else
      var u := SomeKey(users);
      assert |users - {u}| < |users| by {
        assert (users - {u}).Keys == users.Keys - {u};
      }
      users[u].walletBalance + TotalBalance(users - {u})
  }

  ghost function SomeKey(m: map<int, User>): (k: int)
    requires |m| > 0
    ensures k in m
  {
    HasKey(m);
    var k :| k in m; k
  }

  lemma HasKey(m: map<int, User>)
    requires |m| > 0
    ensures exists k :: k in m
  {
    if forall k :: k !in m {
      assert false;
    }
  }

  /** The total can be split at any user, whichever one the definition
      happens to pick first. */
  lemma {:induction false} TotalBalanceSplit(users: map<int, User>, u: int)
    requires u in users
    ensures TotalBalance(users) == users[u].walletBalance + TotalBalance(users - {u})
    decreases |users|
  {
    var v := SomeKey(users);
    assert TotalBalance(users) == users[v].walletBalance + TotalBalance(users - {v});
    if v != u {
      var rest := users - {v};
      assert (rest - {u}).Keys == users.Keys - {u, v};
      assert |rest| < |users| by { assert rest.Keys == users.Keys - {v}; }
      TotalBalanceSplit(rest, u);
      var others := users - {u};
      assert |others| < |users| by { assert others.Keys == users.Keys - {u}; }
      TotalBalanceSplit(others, v);
      assert rest - {u} == others - {v};
    }
  }

  /** Replacing one user's row changes the total by exactly the change
      of that user's balance. */
  lemma TotalBalanceUpdate(users: map<int, User>, u: int, row: User)
    requires u in users
    ensures TotalBalance(users[u := row]) == TotalBalance(users) - users[u].walletBalance + row.walletBalance
  {
    TotalBalanceSplit(users, u);
    TotalBalanceSplit(users[u := row], u);
    assert users[u := row] - {u} == users - {u};
  }
}
