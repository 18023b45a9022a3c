/** The user resolvers: login and register, the resolver-level updateUser
    and addFunds, and the unexported addBidAmount. */
module UserResolvers {
  import opened Common
  import opened Ledger
  import opened UserModel

  // ---------------------------------------------------------------- login

  /** login: the user holding `email` when the stored password equals the
      given one; NOT_FOUND when nobody holds the address, UNAUTHORIZED
      otherwise. */
  ghost function Login(users: map<int, User>, email: string, password: string): (r: Result<User>)
    ensures r.Ok? ==> r.value in users.Values && r.value.email == email && r.value.password == password
    ensures r.Err? ==> r.error.code == NotFound || r.error.code == Unauthorized
  {
    var emailSearch := GetUserByEmail(users, email);
    if emailSearch.None? then Err(Error(NotFound, "User not found."))
    else if password == users[emailSearch.value].password then Ok(users[emailSearch.value])
    else Err(Error(Unauthorized, "Password is Incorrect."))
  }

  /** With unique addresses, login fails with NOT_FOUND exactly when no
      user holds the address, and succeeds exactly when the holder's
      password is the given one. */
  lemma LoginOutcome(users: map<int, User>, email: string, password: string)
    requires UniqueEmails(users)
    ensures Login(users, email, password) == Err(Error(NotFound, "User not found.")) <==>
      forall u :: u in users ==> users[u].email != email
    ensures Login(users, email, password).Ok? <==>
      exists u :: u in users && users[u].email == email && users[u].password == password
    ensures Login(users, email, password) == Err(Error(Unauthorized, "Password is Incorrect.")) <==>
      exists u :: u in users && users[u].email == email && users[u].password != password
  {
    var emailSearch := GetUserByEmail(users, email);
    if emailSearch.Some? {
      var h := emailSearch.value;
      forall u | u in users && users[u].email == email ensures u == h {
        assert EmailOf(users, u) == EmailOf(users, h);
      }
    }
  }

  // ------------------------------------------------------------- register

  /** register's checks: an empty name, address or password, then an
      address already in use. */
  ghost function CheckRegister(users: map<int, User>, data: CreateUserArgs): (r: Option<Error>)
    ensures (data.name == [] || data.email == [] || data.password == []) ==>
      r == Some(Error(BadRequest, "Input Parameters are missing"))
    ensures r.None? <==>
      && data.name != [] && data.email != [] && data.password != []
      && forall u :: u in users ==> users[u].email != data.email
  {
    if |data.name| == 0 || |data.email| == 0 || |data.password| == 0 then
      Some(Error(BadRequest, "Input Parameters are missing"))
    else if GetUserByEmail(users, data.email).Some? then
      Some(Error(Unauthorized, "Email already in use."))
    else None
  }

  /** register: refuses the request with the error `CheckRegister` names,
      or creates exactly one user with the given fields. */
  method Register(db: Db, data: CreateUserArgs) returns (r: Result<int>)
    requires db.Valid()
    modifies db
    ensures db.Valid()
    ensures r.Err? <==> CheckRegister(old(db.users), data).Some?
    ensures r.Err? ==> r.error == CheckRegister(old(db.users), data).value && db.Snapshot() == old(db.Snapshot())
    ensures r.Ok? ==>
      && r.value !in old(db.users)
      && db.Snapshot() == old(db.Snapshot()).(users := old(db.users)[r.value := NewUser(data)])
    ensures db.nextNftId == old(db.nextNftId) && db.nextAuctionId == old(db.nextAuctionId)
  {
    if |data.name| == 0 || |data.email| == 0 || |data.password| == 0 {
      return Err(Error(BadRequest, "Input Parameters are missing"));
    }
    if exists u :: u in db.users && db.users[u].email == data.email {
      return Err(Error(Unauthorized, "Email already in use."));
    }
    r := CreateUser(db, data);
  }

  /** A user that register has just created can log in with the address
      and password it registered. */
  lemma RegisteredUserCanLogIn(t: Tables, id: int, data: CreateUserArgs)
    requires Consistent(t) && id >= 1 && id !in t.users
    requires CheckRegister(t.users, data).None?
    ensures Login(t.users[id := NewUser(data)], data.email, data.password) == Ok(NewUser(data))
  {
    InsertUserKeepsConsistent(t, id, NewUser(data));
    var users := t.users[id := NewUser(data)];
    GetUserByEmailFindsHolder(users, id);
  }

  // ----------------------------------------------------------- updateUser

  /** updateUser: `Number(id)` must be truthy, so `0` and `NaN` are
      refused with NOT_FOUND; any failure of the store's update becomes
      a SERVER_ERROR with a fixed message. */
  method UpdateUser(db: Db, id: JsNumber, data: UpdateUserInput) returns (r: Result<User>)
    requires db.Valid()
    modifies db
    ensures db.Valid()
    ensures !TruthyNumber(id) ==>
      r == Err(Error(NotFound, "User not found.")) && db.Snapshot() == old(db.Snapshot())
    ensures TruthyNumber(id) ==> (r.Ok? <==>
      && id.value in old(db.users)
      && forall u :: u in old(db.users) && u != id.value ==>
           old(db.users)[u].email != ApplyUserUpdate(old(db.users)[id.value], data).email)
    ensures r.Ok? ==>
      && r.value == ApplyUserUpdate(old(db.users)[id.value], data)
      && db.Snapshot() == old(db.Snapshot()).(users := old(db.users)[id.value := r.value])
    ensures TruthyNumber(id) && r.Err? ==>
      r.error == Error(ServerError, "Failed to update user.") && db.Snapshot() == old(db.Snapshot())
    ensures db.nextUserId == old(db.nextUserId) && db.nextNftId == old(db.nextNftId)
    ensures db.nextAuctionId == old(db.nextAuctionId)
  {
    if !TruthyNumber(id) {
      return Err(Error(NotFound, "User not found."));
    }
    var updated := UserModel.UpdateUser(db, id.value, data);
    if updated.Err? {
      return Err(Error(ServerError, "Failed to update user."));
    }
    return Ok(updated.value);
  }

  /** updateUser accepts `bidsTotal` and `walletBalance`, so a request
      can set the two numbers placeBid's funds check reads: on an existing
      user of a consistent store, an update with only one of them passes
      every store check and writes exactly that value. */
  lemma UpdateUserSetsBidsTotal(t: Tables, id: int, bidsTotal: int, walletBalance: int)
    requires Consistent(t) && id in t.users
    ensures var data := UpdateUserInput(Absent, Absent, Absent, Absent, Given(bidsTotal), Absent, Absent, Absent);
      && (forall u :: u in t.users && u != id ==> t.users[u].email != ApplyUserUpdate(t.users[id], data).email)
      && ApplyUserUpdate(t.users[id], data) == t.users[id].(bidsTotal := bidsTotal)
    ensures var data := UpdateUserInput(Absent, Absent, Absent, Given(walletBalance), Absent, Absent, Absent, Absent);
      && (forall u :: u in t.users && u != id ==> t.users[u].email != ApplyUserUpdate(t.users[id], data).email)
      && ApplyUserUpdate(t.users[id], data) == t.users[id].(walletBalance := walletBalance)
  {
    OthersHoldOtherEmails(t.users, id);
  }

  // ------------------------------------------------------------- addFunds

  /** The update addFunds and addBidAmount send: one field, the others
      left out. */
  function OnlyWalletBalance(value: int): (r: UpdateUserInput)
    ensures r.walletBalance == Given(value) && r.bidsTotal == Absent
    ensures r.name == r.email == r.password == r.avatarPicture == r.bannerPicture == r.description == Absent
  {
    UpdateUserInput(Absent, Absent, Absent, Given(value), Absent, Absent, Absent, Absent)
  }

  function OnlyBidsTotal(value: int): (r: UpdateUserInput)
    ensures r.bidsTotal == Given(value) && r.walletBalance == Absent
    ensures r.name == r.email == r.password == r.avatarPicture == r.bannerPicture == r.description == Absent
  {
    UpdateUserInput(Absent, Absent, Absent, Absent, Given(value), Absent, Absent, Absent)
  }

  /** addFunds: refuses a non-positive amount before any store access and
      an unknown user with NOT_FOUND; otherwise writes the balance read
      plus the amount, so the balance rises by exactly the amount and no
      other field of any row changes. */
  method AddFunds(db: Db, userId: int, amount: int) returns (r: Result<User>)
    requires db.Valid()
    modifies db
    ensures db.Valid()
    ensures amount <= 0 ==> r == Err(Error(BadRequest, "Amount must be positive.")) && db.Snapshot() == old(db.Snapshot())
    ensures amount > 0 && userId !in old(db.users) ==>
      r == Err(Error(NotFound, "User not found.")) && db.Snapshot() == old(db.Snapshot())
    ensures r.Ok? <==> amount > 0 && userId in old(db.users)
    ensures r.Ok? ==>
      && r.value == old(db.users)[userId].(walletBalance := old(db.users)[userId].walletBalance + amount)
      && db.Snapshot() == old(db.Snapshot()).(users := WithBalanceChange(old(db.users), userId, amount))
    ensures db.nextUserId == old(db.nextUserId) && db.nextNftId == old(db.nextNftId)
    ensures db.nextAuctionId == old(db.nextAuctionId)
  {
    if amount <= 0 {
      return Err(Error(BadRequest, "Amount must be positive."));
    }
    var user := Get(db.users, userId);
    if user.None? {
      return Err(Error(NotFound, "User not found."));
    }
    OthersHoldOtherEmails(db.users, userId);
    r := UserModel.UpdateUser(db, userId, OnlyWalletBalance(user.value.walletBalance + amount));
  }

  /** addBidAmount, which the resolver set does not export: raises the
      user's committed total by the amount. Nothing reachable from a
      request calls it, so no bid ever raises `bidsTotal`. */
  method AddBidAmount(db: Db, userId: int, amount: int) returns (r: Result<User>)
    requires db.Valid()
    modifies db
    ensures db.Valid()
    ensures r.Ok? <==> userId in old(db.users)
    ensures r.Err? ==> r == Err(Error(NotFound, "User not found.")) && db.Snapshot() == old(db.Snapshot())
    ensures r.Ok? ==>
      && r.value == old(db.users)[userId].(bidsTotal := old(db.users)[userId].bidsTotal + amount)
      && db.Snapshot() == old(db.Snapshot()).(users := old(db.users)[userId := r.value])
    ensures db.nextUserId == old(db.nextUserId) && db.nextNftId == old(db.nextNftId)
    ensures db.nextAuctionId == old(db.nextAuctionId)
  {
    var user := Get(db.users, userId);
    if user.None? {
      return Err(Error(NotFound, "User not found."));
    }
    OthersHoldOtherEmails(db.users, userId);
    r := UserModel.UpdateUser(db, userId, OnlyBidsTotal(user.value.bidsTotal + amount));
  }
}
