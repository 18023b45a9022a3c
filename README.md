# BitChain auctions in Dafny

A model of the BitChain NFT auction system: its GraphQL server and the
client logic that feeds it.

**The server.** The server keeps four tables:

- users, with a wallet balance, an amount committed to bids, a role, an
  e-mail address and a password;
- NFTs, with a creator, an owner and category tags;
- auctions, each selling one NFT, with a start price, a current price, an
  end time and an active flag;
- an append-only list of bids.

It offers the following operations, and the model states what each one
does to the store:

- placing a bid, with its ordered checks;
- creating and partially updating auctions;
- finding an auction's highest bid;
- a periodic sweep that closes expired auctions and settles them. Settling
  debits the highest bidder, credits the NFT's creator and hands the NFT to
  the bidder;
- registering, logging in, partially updating users and topping up wallets;
- the NFT queries (by id, by creator, by shared category, all) and NFT
  creation.

**The client.** Alongside the server, the project models the pure decisions
in the React client:

- the auction countdown;
- the add-funds form checks;
- the marketplace filter;
- the create-NFT form (tag list, durations, the two requests it sends);
- the sign-up form and where it redirects;
- the profile editor's partial update;
- the NFT page's bid pre-check, price merge and countdown boxes;
- the route guard.

Several lemmas connect a client request to the server check that receives
it.

**Module layout.**

- `Common` holds the shared types: `Option`, `Result`, and `Field`, which is
  a GraphQL input field that is absent, null or given. It also holds error
  codes and generic sequence helpers.
- `Text` holds ASCII string helpers.
- `Ledger` holds the entities, the consistency constraints the schema keeps,
  and the class `Db`. `Db` holds the tables as `map` and `seq` fields, which
  the model operations update in place.
- Every other module follows one source file. Its operations are methods on
  `Db` where the source writes to the store, and functions where it only
  decides or reads.

Money is an integer in the smallest unit. Stored times are integer
milliseconds. A time in a request is a string: either one the store reads
as a date, or one it rejects, the empty string among them. The row order in which the store returns a query's rows is a parameter
(`rows`). The sweep's clock is a parameter (`now`).

## Behaviour of the code worth knowing

The model follows the code in each of these places:

- **Settlement is not atomic.**
  - The sweep writes `isActive = false` first, then the debit, then the
    credit, then the new owner, each as a separate write
    (server/src/models/auctionModel.ts:105-133).
  - An expired auction without a bid does not just skip to the next one. The
    `return` at line 112 ends the whole sweep, so later expired auctions stay
    active until the next sweep.
  - `SettleStep` and `Sweep` model this. `AuctionSweep.SweepStopsAtFirstUnbidAuction`
    proves it.
- **The minimum bid ignores `currentPrice`.** It is the highest stored bid on
  the auction, or the start price when there is none. `currentPrice` is
  never consulted, and `endTime` is never checked, so an expired auction
  that has not been swept yet still takes bids.
- **Nothing keeps `currentPrice` monotone.**
  - `updateAuction` accepts any price.
  - `updateAuction` can also set `isActive` from false back to true.
  - `createAuction` does not check that the end comes after the start. The
    model's createAuction also accepts `isActive: false`, but no request
    can pass it: the API's createAuction input has no such field.
- **Balances may go negative.**
  - Settlement debits the winner without a funds check.
  - `deductFunds` has no floor.
  - The model's balances are unconstrained integers.
- **Bidding and settlement never change `bidsTotal`.** The only code that
  raises it, `addBidAmount`, is not exported. The model keeps
  `addBidAmount` as a method that no resolver calls.
- **An updateUser request can set `bidsTotal` and `walletBalance` to any
  value.** Those are the two numbers placeBid's funds check reads.
  `UserResolvers.UpdateUserSetsBidsTotal` proves it.
- **Validation errors become server errors.** Every validation error raised
  inside `placeBid`'s `try` reaches the client as `SERVER_ERROR`, with the
  prefix "Failed to create bid. ".
- **The store validates what the resolvers let through.** A time string
  that is not empty but is no date passes the checks of createAuction and
  updateAuction, and the store then refuses it. So does a tag string that
  is no category name (`"art"`) in createNFT. Each such request ends in
  SERVER_ERROR with no change.

## Model

| member | source | states |
|---|---|---|
| Ledger.Db.constructor | server/src/db/dbClient.ts:5-11 | The model starts from an empty store, which is consistent; every operation is stated for any consistent store |
| Ledger.ParseCategory | server/src/graphql/gqlSchema.ts:8-15 | A string is read as a category only when it is that category's enum name, spelled exactly |
| Ledger.ParseCategoryName | server/src/graphql/gqlSchema.ts:8-15 | Every category's enum name is read back as that category |
| BidModel.GetBidById | server/src/models/bidModel.ts:10-17 | None exactly when no stored bid has the id; otherwise a stored bid with that id |
| BidModel.GetBidByIdIsPosition | server/src/models/bidModel.ts:10-17 | In a consistent store, the bid with id k is found exactly for 1 ≤ k ≤ number of bids, and it is the k-th bid appended |
| BidModel.PlaceBid | server/src/models/bidModel.ts:19-28 | Appends exactly one bid with the given amount, bidder and auction, with the next id, and performs no validation of its own; the only failures are the store's foreign-key errors, which change nothing |
| BidResolver.Failed | server/src/resolvers/bidResolver.ts:82-89 | An error caught in the `try` becomes SERVER_ERROR, with "Failed to create bid. " in front of the original message |
| BidResolver.MinBidAmount | server/src/resolvers/bidResolver.ts:57-58 | The start price when the auction has no bid; otherwise exactly the highest bid's amount, which is at least every bid on the auction |
| BidResolver.CheckBid | server/src/resolvers/bidResolver.ts:25-67 | A falsy amount, auction id or bidder id gives BAD_REQUEST "Missing bid fields." before any read; every later rejection is SERVER_ERROR with the prefix |
| BidResolver.CheckBidAccepts | server/src/resolvers/bidResolver.ts:27-67 | The checks pass exactly when the auction exists and is active, the bidder exists, walletBalance − bidsTotal ≥ amount (equality passes), and the amount is above every bid on the auction, or above the start price when it has no bid |
| BidResolver.CheckBidIgnoresPriceAndEnd | server/src/resolvers/bidResolver.ts:34-67 | Changing an auction's currentPrice or endTime never changes the outcome of the checks |
| BidResolver.MissingFieldIgnoresStore | server/src/resolvers/bidResolver.ts:27-31 | With a falsy field the result is the same BAD_REQUEST whatever the store holds |
| BidResolver.AcceptedBidIsHighest | server/src/resolvers/bidResolver.ts:57-71 | Once stored, an accepted bid is the auction's highest bid |
| BidResolver.PlaceBid | server/src/resolvers/bidResolver.ts:21-90 | Fails exactly when the checks fail, with their error, and changes nothing. Otherwise appends one bid with the given fields and sets the auction's currentPrice to the amount. Users, NFTs and every other auction field stay as they were |
| AuctionModel.NewAuction | server/src/models/auctionModel.ts:39-51 | For two readable times: currentPrice = startPrice; isActive is the given flag, true when none is given; the times are the dates read; the other fields are as given |
| AuctionModel.InsertAuctionKeepsConsistent | server/src/models/auctionModel.ts:39-51 | A new auction for an existing NFT with no auction keeps the store consistent |
| AuctionModel.CreateAuction | server/src/models/auctionModel.ts:39-51 | Succeeds exactly when both times are dates, the NFT exists and it has no auction, inserting NewAuction under the next id; otherwise a store error and no change |
| AuctionModel.ApplyAuctionUpdate | server/src/models/auctionModel.ts:53-64 | Each given currentPrice, endTime (as the date read) and isActive overwrites the row's; an absent or null one keeps it; nftId, startPrice and startTime never change |
| AuctionModel.ApplyAuctionUpdateIdempotent | server/src/models/auctionModel.ts:53-64 | Applying the same update twice equals applying it once |
| AuctionModel.UpdateAuction | server/src/models/auctionModel.ts:53-64 | Succeeds exactly when a given end time is a date and the row exists, storing ApplyAuctionUpdate of it; otherwise a store error with no change |
| AuctionModel.GetAuctionById | server/src/models/auctionModel.ts:22-29 | None exactly when no auction has the id; otherwise that row |
| AuctionModel.HighestBidIndex | server/src/models/auctionModel.ts:66-73 | The position of a bid on the auction among the first n bids whose amount no other such bid exceeds; none exactly when there is none |
| AuctionModel.HighestBid | server/src/models/auctionModel.ts:66-73 | None exactly when the auction has no bid; otherwise one of its bids with an amount ≥ every other bid on it |
| AuctionModel.HighestBidIsStored | server/src/models/auctionModel.ts:66-73 | The highest bid returned is one of the stored bids |
| AuctionModel.ExpiredIds | server/src/models/auctionModel.ts:79-90 | Exactly the rows that are active and whose endTime ≤ now, in row order, without repeats |
| AuctionModel.Pay | server/src/models/auctionModel.ts:114-126 | Debit then credit keeps the set of users |
| AuctionModel.PayEffect | server/src/models/auctionModel.ts:114-126 | The payer's balance drops by the amount and the payee's rises by it (both when they are the same user); no other field or user changes |
| AuctionModel.SettleStep | server/src/models/auctionModel.ts:94-133 | A pass keeps the bid list and the key sets of every table |
| AuctionModel.ConsistentIsSweepReady | server/src/models/auctionModel.ts:94-133 | A consistent store meets everything a pass relies on |
| AuctionModel.HighestBidderExists | server/src/models/auctionModel.ts:96-98 | The highest bidder of an auction is an existing user with a non-zero id |
| AuctionModel.SettleStepCloses | server/src/models/auctionModel.ts:105-112 | A pass marks the auction inactive. It goes on exactly when the auction has a bid. Without a bid no wallet and no NFT changes |
| AuctionModel.SettleStepSettles | server/src/models/auctionModel.ts:96-133 | With a highest bid b: the bidder pays b.amount to the NFT's creator (not its owner), and the NFT's owner becomes the bidder |
| AuctionModel.SettleStepKeepsSweepReady | server/src/models/auctionModel.ts:94-133 | A pass keeps what later passes rely on |
| AuctionModel.SettleStepPreservesConsistent | server/src/models/auctionModel.ts:94-133 | A pass keeps the store consistent |
| AuctionModel.SweepFromPreservesConsistent | server/src/models/auctionModel.ts:94-138 | A sweep keeps the store consistent |
| AuctionModel.SweepFrom | server/src/models/auctionModel.ts:94-138 | A sweep of a list of auctions keeps the bid list and the key sets of every table |
| AuctionModel.SettleOne | server/src/models/auctionModel.ts:96-133 | The store writes of one loop iteration leave the store in SettleStep's state, and return whether the loop goes on |
| AuctionModel.SettleInOrder | server/src/models/auctionModel.ts:94-138 | The loop leaves the store in SweepFrom's state: each auction settled in order, stopping after the first one without a bid |
| AuctionModel.CloseExpiredAuctions | server/src/models/auctionModel.ts:75-142 | The sweep at `now` leaves the store valid and in the state Sweep describes |
| AuctionSweep.PayPreservesTotalBalance | server/src/models/auctionModel.ts:114-126 | Moving money between two wallets keeps the sum of all balances |
| AuctionSweep.SettleStepPreservesTotalBalance | server/src/models/auctionModel.ts:105-133 | A pass keeps the sum of all balances |
| AuctionSweep.SweepFromPreservesTotalBalance | server/src/models/auctionModel.ts:94-138 | A sweep neither creates nor destroys money |
| AuctionSweep.SettleStepChangesOnlyBalancesAndOwners | server/src/models/auctionModel.ts:105-133 | A pass writes no user field but walletBalance (so bidsTotal never moves) and no NFT field but ownerId |
| AuctionSweep.SweepFromChangesOnlyBalancesAndOwners | server/src/models/auctionModel.ts:94-138 | Likewise for a whole sweep |
| AuctionSweep.Processed | server/src/models/auctionModel.ts:94-112 | The auctions a sweep reaches: a prefix of the list that runs through the first auction without a bid, if there is one |
| AuctionSweep.SweepFromClosesProcessed | server/src/models/auctionModel.ts:105-112 | Exactly the processed auctions become inactive; every other auction row is untouched |
| AuctionSweep.SettledAtShift | server/src/models/auctionModel.ts:94-138 | Dropping a first auction that has a bid shifts the settled positions by one |
| AuctionSweep.SettledFirst | server/src/models/auctionModel.ts:94-133 | After a first pass that settles, the rest of the sweep sees the settled state |
| AuctionSweep.SweepFromKeepsUnsoldNft | server/src/models/auctionModel.ts:128-133 | An NFT that no settled auction sells keeps its row |
| AuctionSweep.SettleStepKeepsWinner | server/src/models/auctionModel.ts:128-133 | An NFT already with the highest bidder of every auction selling it stays with that bidder after a pass |
| AuctionSweep.SweepFromKeepsWinner | server/src/models/auctionModel.ts:128-133 | Likewise after a sweep |
| AuctionSweep.SweepFromGoesOn | server/src/models/auctionModel.ts:94-138 | A sweep whose first auction has a bid is that pass followed by the sweep of the rest |
| AuctionSweep.SweepFromSplit | server/src/models/auctionModel.ts:94-138 | While every pass goes on, a sweep splits into a sweep of a prefix followed by a sweep of the rest |
| AuctionSweep.SweepFromKeepsSweepReady | server/src/models/auctionModel.ts:94-138 | A sweep keeps what it relies on |
| AuctionSweep.SweepFromKeepsAuctionNfts | server/src/models/auctionModel.ts:105-110 | A sweep never changes which NFT an auction sells |
| AuctionSweep.SweepFromTransfersNft | server/src/models/auctionModel.ts:128-133 | Every auction settled with a winner leaves its NFT with its highest bidder at the end of the sweep |
| AuctionSweep.FirstSettledNftStays | server/src/models/auctionModel.ts:128-133 | The NFT of a first auction settled with a winner stays with its bidder through the rest of the sweep |
| AuctionSweep.ProcessedAllWhenAllBid | server/src/models/auctionModel.ts:94-138 | When every auction has a bid, the sweep reaches all of them |
| AuctionSweep.SweepClosesAllExpiredWhenAllBid | server/src/models/auctionModel.ts:79-138 | If every expired active auction has a bid, no active auction past its end remains |
| AuctionSweep.NothingExpiredSelectsNothing | server/src/models/auctionModel.ts:79-92 | With no active expired auction, the query returns nothing |
| AuctionSweep.SweepIdempotentWhenAllBid | server/src/models/auctionModel.ts:79-110 | Under that condition, a second sweep with the same `now` changes nothing, since only active auctions are selected |
| AuctionSweep.PrefixProcessed | server/src/models/auctionModel.ts:105-112 | The processed auctions run exactly through the first auction without a bid |
| AuctionSweep.SweepFromStopsAtFirstUnbid | server/src/models/auctionModel.ts:105-112 | The first auction without a bid is closed, and every auction after it keeps its row |
| AuctionSweep.SweepStopsAtFirstUnbidAuction | server/src/models/auctionModel.ts:92-112 | The first expired auction without a bid is closed; later expired auctions in the same sweep stay active |
| AuctionResolver.CreateAuction | server/src/resolvers/auctionResolver.ts:23-47 | A falsy nftId or startPrice, or an empty startTime or endTime, gives BAD_REQUEST "Missing required auction fields." with no change (a negative price passes). Otherwise the model's outcome, with its errors, an unreadable time among them, as SERVER_ERROR with the prefix "Failed to create Auction. " |
| AuctionResolver.CreateAuctionAcceptsAnyTimes | server/src/resolvers/auctionResolver.ts:29-36 | Any pair of dates passes the checks, an end before the start or in the past included, and so does a non-empty string that is no date; an empty end time does not |
| AuctionResolver.UpdateOf | server/src/resolvers/auctionResolver.ts:78-81 | The request's three fields are passed on to the model unchanged |
| AuctionResolver.CheckAuctionUpdate | server/src/resolvers/auctionResolver.ts:53-76 | A zero id gives BAD_REQUEST outside the `try`; an unknown auction or a request with nothing to update gives SERVER_ERROR with the prefix "Failed to update auction. " |
| AuctionResolver.CheckAuctionUpdateAccepts | server/src/resolvers/auctionResolver.ts:55-76 | The checks pass exactly when the id is non-zero, the auction exists, and currentPrice or endTime is truthy or isActive is not undefined |
| AuctionResolver.EmptyEndTimePassesCheck | server/src/resolvers/auctionResolver.ts:69-81 | An empty end time beside a truthy price passes the check, yet it is no date the store reads |
| AuctionResolver.UpdateAuctionHasNoGuard | server/src/resolvers/auctionResolver.ts:69-81 | Any truthy price, lower than the current one included, and either isActive value (false→true included) passes the checks and is stored |
| AuctionResolver.NullIsActiveChangesNothing | server/src/resolvers/auctionResolver.ts:69-81 | An update whose only field is isActive = null passes the checks and stores the row unchanged |
| AuctionResolver.UpdateAuction | server/src/resolvers/auctionResolver.ts:49-92 | Fails exactly when the checks fail, with their error, or when the end time is no date, as SERVER_ERROR with the prefix; either way no change. Otherwise stores the model update of the row |
| UserModel.GetUserByEmail | server/src/models/userModel.ts:29-36 | None exactly when no user holds the address; otherwise a user who holds it |
| UserModel.GetUserByEmailFindsHolder | server/src/models/userModel.ts:29-36 | With unique addresses, the lookup by a user's address finds that user |
| UserModel.NewUser | server/src/models/userModel.ts:38-48 | The given name, address and password; the given role, or COLLECTOR when none is given; walletBalance and bidsTotal start at 0, taken as the store's default |
| UserModel.InsertUserKeepsConsistent | server/src/models/userModel.ts:38-48 | A new user with an address nobody holds keeps the store consistent |
| UserModel.CreateUser | server/src/models/userModel.ts:38-48 | Succeeds exactly when nobody holds the address, inserting NewUser under the next id; otherwise the unique-constraint error and no change |
| UserModel.ApplyUserUpdate | server/src/models/userModel.ts:50-65 | Every given field overwrites the row's; an absent or null one keeps it; the role never changes |
| UserModel.EmptyUserUpdateKeepsRow | server/src/models/userModel.ts:50-65 | An update with only absent or null fields leaves the row as it was |
| UserModel.ReplaceUserKeepsConsistent | server/src/models/userModel.ts:50-65 | Replacing a user with a row whose address no other user holds keeps the store consistent |
| UserModel.UpdateUser | server/src/models/userModel.ts:50-65 | Succeeds exactly when the user exists and the new address is held by nobody else; stores ApplyUserUpdate of the row; otherwise a store error and no change |
| UserModel.OthersHoldOtherEmails | server/src/models/userModel.ts:50-65 | With unique addresses, no other user holds a user's own address, so keeping it never violates uniqueness |
| UserModel.ChangeBalance | server/src/models/userModel.ts:67-83 | An existing user's walletBalance moves by exactly the delta and nothing else changes, with no value returned; an unknown user is a store error with no change |
| UserModel.AddFunds | server/src/models/userModel.ts:67-74 | walletBalance rises by exactly the amount, with no sign check; nothing else changes and no value is returned |
| UserModel.DeductFunds | server/src/models/userModel.ts:76-83 | walletBalance drops by exactly the amount, with no floor; nothing else changes and no value is returned |
| UserModel.WithBalanceChange | server/src/models/userModel.ts:67-83 | The users table with one wallet moved by delta and the same keys |
| UserModel.DeductUndoesAdd | server/src/models/userModel.ts:67-83 | Deducting an amount just added restores the table |
| UserModel.BalanceChangeMovesTotal | server/src/models/userModel.ts:67-83 | A balance change moves the total of all balances by exactly delta |
| UserModel.GetOwnedNfts | server/src/models/userModel.ts:85-96 | Exactly the NFTs whose owner is the user, in row order |
| UserModel.GetCreatedNfts | server/src/models/userModel.ts:99-108 | Exactly the NFTs whose creator is the user, in row order |
| UserModel.BidsBy | server/src/models/userModel.ts:112-126 | Exactly the user's bids, in the order the store returns the rows (a parameter, as the query names none) |
| UserModel.NftRefs | server/src/models/userModel.ts:130-135 | The NFTs of the bids' auctions, one per bid at most, all existing |
| UserModel.NftRefsContents | server/src/models/userModel.ts:130-135 | An NFT is referenced exactly when one of the bids is on an existing auction that sells it |
| UserModel.FirstOccurrences | server/src/models/userModel.ts:128-137 | The same elements without repeats |
| UserModel.FirstOccurrencesInOrder | server/src/models/userModel.ts:128-137 | Elements keep the order of their first occurrence |
| UserModel.GetBidNfts | server/src/models/userModel.ts:111-138 | The loop filling the map returns each NFT the user bid on once, in the order of the first bid that referenced it, in the store's row order |
| UserModel.GetBidNftsContents | server/src/models/userModel.ts:111-138 | Whatever order the store returns every bid in, the result contains NFT n exactly when the user has a bid on an auction selling n, and has no duplicates |
| UserResolvers.Login | server/src/resolvers/userResolvers.ts:27-48 | Success returns a stored user with the given address and password; failure is NOT_FOUND or UNAUTHORIZED |
| UserResolvers.LoginOutcome | server/src/resolvers/userResolvers.ts:33-47 | With unique addresses: NOT_FOUND exactly when nobody holds the address; success exactly when its holder's password is the given one; UNAUTHORIZED exactly when it is not |
| UserResolvers.CheckRegister | server/src/resolvers/userResolvers.ts:54-67 | An empty name, address or password gives BAD_REQUEST "Input Parameters are missing"; accepted exactly when all are non-empty and nobody holds the address |
| UserResolvers.Register | server/src/resolvers/userResolvers.ts:50-76 | Fails exactly when the checks fail, with their error and no change; otherwise inserts exactly one user, NewUser of the request |
| UserResolvers.RegisteredUserCanLogIn | server/src/resolvers/userResolvers.ts:27-76 | After a successful register, login with the same address and password returns the new user |
| UserResolvers.UpdateUser | server/src/resolvers/userResolvers.ts:78-104 | An id whose Number is 0 or NaN gives NOT_FOUND with no change; otherwise the model update, with any model failure turned into SERVER_ERROR "Failed to update user." |
| UserResolvers.UpdateUserSetsBidsTotal | server/src/models/userModel.ts:50-65 | On an existing user, an update with only bidsTotal, or only walletBalance, passes every store check and stores exactly that value |
| UserResolvers.OnlyWalletBalance | server/src/resolvers/userResolvers.ts:122-125 | The update addFunds sends: walletBalance only |
| UserResolvers.OnlyBidsTotal | server/src/resolvers/userResolvers.ts:139-142 | The update addBidAmount sends: bidsTotal only |
| UserResolvers.AddFunds | server/src/resolvers/userResolvers.ts:106-126 | amount ≤ 0 gives BAD_REQUEST before any read; an unknown user gives NOT_FOUND; otherwise walletBalance becomes old + amount and nothing else changes |
| UserResolvers.AddBidAmount | server/src/resolvers/userResolvers.ts:128-143 | An unknown user gives NOT_FOUND; otherwise bidsTotal becomes old + amount. No resolver calls it |
| NftModel.GetNftById | server/src/models/nftModel.ts:14-21 | None exactly when no NFT has the id; otherwise that row |
| NftModel.GetNftsByCreatorId | server/src/models/nftModel.ts:23-33 | Exactly the NFTs whose creator is the id, in row order |
| NftModel.GetNftCategories | server/src/models/nftModel.ts:50-58 | Exactly the NFTs whose tags share at least one category with the list, in row order |
| NftModel.MoreCategoriesKeepNfts | server/src/models/nftModel.ts:50-58 | Asking for more categories never loses an NFT |
| NftModel.GetNfts | server/src/models/nftModel.ts:60-67 | Exactly the stored NFTs, in row order |
| NftModel.GetNftsListsEveryNft | server/src/models/nftModel.ts:60-67 | Over the table's own row order, every NFT is returned, each once |
| NftModel.FilterKeepsAll | server/src/models/nftModel.ts:60-67 | A filter that keeps every row returns the rows unchanged |
| NftModel.NewNft | server/src/models/nftModel.ts:35-48 | Title, description, image URL and creator exactly as given; the tags are the categories the strings name, in order; the owner as the store assigns it |
| NftModel.ParseTags | server/src/models/nftModel.ts:43 | The store reads a tag list exactly when every string names a category, and then gives those categories, in order |
| NftModel.TagNames | client/src/pages/CreateNFTPage.tsx:24-31 | Each category's enum name, in order |
| NftModel.ParseTagNames | client/src/pages/CreateNFTPage.tsx:24-31 | A list of category names is read back as the categories themselves |
| NftModel.InsertNftKeepsConsistent | server/src/models/nftModel.ts:35-48 | A new NFT whose creator and owner exist keeps the store consistent |
| NftModel.CreateNft | server/src/models/nftModel.ts:35-48 | Succeeds exactly when every tag names a category and creator and owner exist, inserting NewNft under the next id; otherwise a store error and no change |
| NftResolvers.CreateNft | server/src/resolvers/nftResolvers.ts:12-33 | A falsy title, image URL or creator, or missing or empty tags, gives BAD_REQUEST "Missing required NFT fields." with no change; otherwise the data goes to the model unchanged, and its errors, a tag that names no category among them, become SERVER_ERROR with the prefix "Failed to create NFT. " |
| NftResolvers.CreatedNftHasTags | server/src/resolvers/nftResolvers.ts:18-25 | An NFT created through the resolver has a non-empty tag list whose names are the requested strings |
| NftResolvers.LowerCaseTagPassesCheckOnly | server/src/resolvers/nftResolvers.ts:18-31 | A request tagged "art" passes the resolver's check, but the store reads no category from it |
| NftResolvers.GetNftByCategories | server/src/resolvers/nftResolvers.ts:35-53 | BAD_REQUEST "At least one category must be provided." exactly when the list is null or empty; otherwise exactly the NFTs sharing a category, in row order |
| Countdown.EndMillis | client/src/hooks/useCountdown.ts:19-22 | An all-digit string is read as decimal epoch milliseconds; anything else is what date parsing yields |
| Countdown.CalculateTimeRemaining | client/src/hooks/useCountdown.ts:57-83 | Expired (all zeros) exactly when the end is invalid or not in the future; otherwise hours < 24, minutes < 60, seconds < 60, days ≥ 0 |
| Countdown.Remaining | client/src/hooks/useCountdown.ts:12-55 | A missing or empty end time gives all zeros and expired |
| Countdown.CountdownAddsUp | client/src/hooks/useCountdown.ts:35-42 | d·86400000 + h·3600000 + m·60000 + s·1000 ≤ difference < that + 1000 |
| Countdown.LastSecondIsNotExpired | client/src/hooks/useCountdown.ts:28-42 | A difference of 1..999 ms gives all zeros with isExpired false |
| Countdown.Ticks | client/src/hooks/useCountdown.ts:85-92 | Each tick shows Remaining at its instant; only the last shown tick may be expired, and the ticks stop right after the first expired one |
| Countdown.TicksStopAtEnd | client/src/hooks/useCountdown.ts:85-92 | While every instant is before the end, every tick is shown |
| AddFundsPage.CardCheck | client/src/pages/AddFundsPage.tsx:72-87 | Passes exactly when the number without white space has 8..16 characters, the expiry is two digits, '/', two digits, and the CVC has 3 or 4 characters; otherwise the message of the first check that fails, in the order card number, expiry, CVC |
| AddFundsPage.HandleSubmit | client/src/pages/AddFundsPage.tsx:59-93 | No signed-in user gives "User not logged in"; then an amount that is NaN or not positive gives "Enter a valid amount."; then a card payment failing the card checks gives that check's message; a request goes only for that user and a positive amount |
| AddFundsPage.HandleSubmitSends | client/src/pages/AddFundsPage.tsx:62-88 | The request is sent exactly when a user is signed in, the amount is a positive number, and, for card payment only, the card checks pass |
| AddFundsPage.OtherMethodsSkipCardChecks | client/src/pages/AddFundsPage.tsx:71-88 | For a method other than card, the card fields do not affect the outcome |
| AddFundsPage.CardContentsNotChecked | client/src/pages/AddFundsPage.tsx:72-82 | Eight letters as card number and month 13 pass: neither digits nor the month range are checked |
| MarketplacePage.FilteredNfts | client/src/pages/MarketplacePage.tsx:41-47 | An NFT is kept exactly when its name contains the search text ignoring case, its category matches, and the live condition holds; each kept NFT appears as often as in the fetched list, and the result keeps the fetched order |
| MarketplacePage.EmptySearchMatchesEveryName | client/src/pages/MarketplacePage.tsx:42 | Empty search text matches every name |
| MarketplacePage.NoFilterShowsAll | client/src/pages/MarketplacePage.tsx:41-47 | No search text, no category and the toggle off show the whole list |
| MarketplacePage.LiveToggleOnlyHides | client/src/pages/MarketplacePage.tsx:44 | With the toggle on, only active NFTs that the toggle-off list shows are shown |
| MarketplacePage.CategoryIgnoresCase | client/src/pages/MarketplacePage.tsx:43 | For any tag list, a tag that differs from the category only in ASCII case makes the NFT match that category |
| CreateNftPage.SelectCategory | client/src/pages/CreateNFTPage.tsx:60-64 | Appends the category only when absent: the list keeps its prefix, gains the category and stays duplicate-free |
| CreateNftPage.DeleteTag | client/src/pages/CreateNFTPage.tsx:66-68 | Removes the tag and keeps the others in order |
| CreateNftPage.DeleteUndoesSelect | client/src/pages/CreateNFTPage.tsx:60-68 | Deleting a newly selected category restores the list |
| CreateNftPage.DurationHours | client/src/pages/CreateNFTPage.tsx:105-112 | "1 hour", "4 hours", "8 hours" and "12 hours" give 1, 4, 8 and 12; any other label gives 1 |
| CreateNftPage.NftRequest | client/src/pages/CreateNFTPage.tsx:94-100 | The form's name and description, the category names of its tags, the uploaded image and the user as creator |
| CreateNftPage.AuctionRequest | client/src/pages/CreateNFTPage.tsx:110-122 | Starts now at the price and ends the chosen number of hours later (≥ one hour), both as dates the store reads |
| CreateNftPage.NftRequestPassesServerChecks | client/src/pages/CreateNFTPage.tsx:74-100 | A form that may be created yields a request the server's createNFT checks accept, and the store reads its tags back as the categories chosen on the form |
| CreateNftPage.AuctionRequestPassesServerChecks | client/src/pages/CreateNFTPage.tsx:110-122 | With a non-zero NFT id and price, the auction request passes createAuction's checks, the store reads its times, and it opens an active auction |
| CreateNftPage.Cancel | client/src/pages/CreateNFTPage.tsx:136-144 | The name, price, description, image, preview and tags are cleared, and the duration is set to "1 day" |
| CreateNftPage.CancelledDurationIsOneHour | client/src/pages/CreateNFTPage.tsx:74-85 | After cancel the duration is "1 day", which falls back to one hour, and create is refused |
| CreateAccountPage.Validate | client/src/pages/CreateAccountPage.tsx:38-46 | Passes exactly when all five fields are non-empty and the passwords match; an empty field gives "All fields are required" whether or not the passwords match; "Passwords do not match" exactly when every field is filled and the passwords differ |
| CreateAccountPage.RoleFor | client/src/pages/CreateAccountPage.tsx:63-66 | COLLECTOR exactly when the type uppercased is "COLLECTOR", ARTIST otherwise, never ADMIN |
| CreateAccountPage.RegisterRequest | client/src/pages/CreateAccountPage.tsx:57-69 | Name, address and password from the form, with the mapped role |
| CreateAccountPage.LandingPage | client/src/pages/CreateAccountPage.tsx:101-105 | The role's own page, none for an administrator |
| CreateAccountPage.HandleCreate | client/src/pages/CreateAccountPage.tsx:33-111 | A failed check shows its message and sends nothing. A server error shows its message, or the fallback, with no login and no navigation. A created user is signed in, the form is cleared, and the user is sent to their page |
| CreateAccountPage.ValidatedRequestReachesEmailCheck | client/src/pages/CreateAccountPage.tsx:38-69 | A request that passed the page's checks is refused by the server exactly when the address is in use |
| CreateAccountPage.SignUpLandsOnOwnPage | client/src/pages/CreateAccountPage.tsx:63-106 | The server stores the chosen role, and the page redirects to a page the route guard admits |
| EditProfilePage.InitialState | client/src/pages/EditProfilePage.tsx:43-56 | The form opens with the session's values, '' for a missing biography, and no pending file |
| EditProfilePage.NewUrl | client/src/pages/EditProfilePage.tsx:131-156 | A picture URL changes only when a pending file was uploaded |
| EditProfilePage.Diff | client/src/pages/EditProfilePage.tsx:158-160 | The value exactly when it differs from the session's, otherwise left out |
| EditProfilePage.DiffNullable | client/src/pages/EditProfilePage.tsx:161-168 | Likewise; a missing URL that differs is sent as null |
| EditProfilePage.UpdatePayload | client/src/pages/EditProfilePage.tsx:158-171 | Only the five profile fields, each exactly when it differs; password and wallet never sent |
| EditProfilePage.PayloadStoresForm | client/src/pages/EditProfilePage.tsx:158-172 | Applied by the server to a row that matches the session, the payload stores the form's values and leaves password, wallet and role alone |
| EditProfilePage.UnchangedEditorWritesEmptyBiography | client/src/pages/EditProfilePage.tsx:47-170 | Saving an unchanged form for a user without a biography writes an empty biography |
| EditProfilePage.HandleSave | client/src/pages/EditProfilePage.tsx:124-188 | Nobody signed in: no change. Success: the answered row with the previous role is signed in, pending files and previews are cleared, editing ends. Failure: they are kept and the message is shown. saving is reset on both paths |
| EditProfilePage.SavedSessionMirrorsRow | client/src/pages/EditProfilePage.tsx:172-174 | After a successful save the session matches the stored row and keeps its role |
| EditProfilePage.SecondSaveSendsNothing | client/src/pages/EditProfilePage.tsx:158-182 | Saving again right after a successful save sends an empty update (unless a cleared picture could not be cleared) |
| NftPage.OtherNfts | client/src/pages/NFTPage.tsx:72 | The creator's NFTs other than the one shown, in order |
| NftPage.MergePrice | client/src/pages/NFTPage.tsx:92-96 | A price update replaces only currentPrice and keeps every other auction field |
| NftPage.MergePriceIdempotent | client/src/pages/NFTPage.tsx:92-96 | Merging the same price twice is merging it once |
| NftPage.TooLow | client/src/pages/NFTPage.tsx:106-110 | The message is the fixed text, then the current price's text, then " ETH"; for a non-negative price that text is digits that read back as the price |
| NftPage.HandlePlaceBid | client/src/pages/NFTPage.tsx:99-122 | Sends exactly when an auction, a user and input exist and the parsed amount is a number above the shown price, with the auction id, user id and amount; otherwise one of the two messages |
| NftPage.SentBidHasFields | client/src/pages/NFTPage.tsx:116-120 | A sent bid has every field the server's placeBid requires |
| NftPage.SentBidClearsServerMinimum | client/src/pages/NFTPage.tsx:104-120 | While the shown price is the server's minimum, a sent bid is above every stored bid on the auction |
| NftPage.BidFieldAfter | client/src/pages/NFTPage.tsx:116-122 | The input is cleared exactly when a bid was placed |
| NftPage.TimeUnits | client/src/pages/NFTPage.tsx:161-165 | Hours, minutes and seconds, in that order |
| NftPage.DaysAreNotShown | client/src/pages/NFTPage.tsx:161-165 | A whole day left shows the same boxes as under a second left |
| ProtectedRoute.HomeOf | client/src/components/ProtectedRoute.tsx:28 | /artist exactly for an artist, /collector otherwise |
| ProtectedRoute.Guard | client/src/components/ProtectedRoute.tsx:10-33 | Loading exactly while auth loads; /login exactly when nobody is signed in; the page exactly when no role is required or it matches; otherwise the user's home |
| ProtectedRoute.RedirectAdmits | client/src/components/ProtectedRoute.tsx:26-30 | An artist or a collector turned away lands on a page that admits them |
| ProtectedRoute.AdminRedirectsToItself | client/src/components/ProtectedRoute.tsx:26-30 | An administrator is sent to /collector, which sends them to /collector again |

## Left out

- Transport and scheduling are not modelled: the HTTP and GraphQL server, Socket.IO, and the five-second timer that runs the sweep. The sweep takes its clock reading as the parameter `now`.
- The notification emits (`io.emit`, `io.to(...).emit`) are not modelled, and neither are the `console.log` and `console.error` calls (server/src/models/auctionModel.ts:95-103 and 134-140, server/src/resolvers/nftResolvers.ts:28, server/src/resolvers/auctionResolver.ts:42 and 87). They are output only.
- Concurrency is not modelled. Bid placement and settlement are modelled as sequential steps with no interleaving, because the source uses no transaction.
- Floating point is not modelled. Amounts are integers, so `parseFloat`, `toFixed` and GraphQL `Float` rounding are not captured.
- The store's internals are not modelled. The database client is four maps and a list.
- AuctionModel.HighestBid: among equal amounts it takes the earliest bid. The store's own choice of tie-breaker is not specified.
- AuctionModel.CreateAuction: the dates a time string names, and which strings the store accepts as dates, are not modelled. A request carries each time already read as a date, or marked as one the store rejects.
- AuctionModel.UpdateAuction: it does not model the `id: data.id` write-back. The model keys the update by the id passed beside it.
- AuctionModel.SettleStep: a store exception part-way through a pass, caught by the sweep's outer `catch`, is modelled as the same early exit as the `return`. The one such exception the model produces is a missing seller row, after the winner was already debited.
- Ledger.Db.constructor: the model starts from an empty store, while `createDbClient` attaches to whatever the database at its URL holds, seeded rows included. Every operation is stated for any consistent store instead.
- NftModel.CreateNft: the initial owner of a new NFT comes from a database schema that is not part of this model, so it is a parameter.
- UserModel.NewUser: the pictures and description of a new user are none. Their database defaults are not part of this model. walletBalance and bidsTotal are assumed to default to 0: createUser does not set them, and the database schema that supplies their defaults is not part of this model.
- The server's `highestBid` query is not modelled separately. It forwards to `getHighestBid`, which `AuctionModel.HighestBid` models.
- NftResolvers.GetNftByCategories: does not model the SERVER_ERROR for a failed store read, because reads never fail in the model.
- Error messages built from `${error}` are approximated. The model keeps the original message after the resolver's prefix.
- Countdown.EndMillis: does not model how `Date` parses a string that is not all digits, or reads a date; that result is a parameter. It also does not model the loss of precision when `parseInt` reads a very long digit string.
- Countdown.Falsy: the empty string counts as falsy. On the server, the empty string is one of the time strings the store rejects.
- Case folding and white space are ASCII only: `toLowerCase`, `toUpperCase` and the `\s` class are not modelled for other characters.
- EditProfilePage.SessionUser: a picture or description that is `undefined` and one that is `null` are both "none". This changes only whether `null` is sent for a picture, which the server ignores either way.
- EditProfilePage.HandleSave: a failed image upload is not modelled separately. The uploads always yield a URL here, and the only failure is the update's answer.
- The requests after the client checks are not modelled beyond what the lemmas state. This covers the add-funds request and its toast, the image upload on the create-NFT page, and page navigation.
- `server/prisma/seed.ts` is not part of this model. Its data has a currentPrice below stored bids, so no lemma relies on currentPrice being equal to the highest bid.
- UI-only code is not part of this model: cards, layout, routes, the login and home pages, and the auth context's storage.
