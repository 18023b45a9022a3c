/** The profile editor of the client: the partial update its save button
    sends, and the page and session after the answer. */
module EditProfilePage {
  import opened Common
  import opened Ledger
  import UserModel

  /** The signed-in user as the client holds it. */
  datatype SessionUser = SessionUser(
    id: int,
    name: string,
    email: string,
    role: Option<Role>,
    avatarPicture: Option<string>,
    bannerPicture: Option<string>,
    description: Option<string>)

  /** The editor's state. `pendingAvatar` is the URL the upload of the
      chosen avatar file yields, when a file is chosen; likewise for the
      banner. */
  datatype EditState = EditState(
    username: string,
    email: string,
    biography: string,
    avatarUrl: Option<string>,
    bannerUrl: Option<string>,
    pendingAvatar: Option<string>,
    pendingBanner: Option<string>,
    hasAvatarPreview: bool,
    hasBannerPreview: bool,
    isEditing: bool,
    saving: bool)

  /** The editor as it opens for `user`. */
  function InitialState(user: SessionUser): (r: EditState)
    ensures r.username == user.name && r.email == user.email
    ensures r.biography == (if user.description.Some? then user.description.value else "")
    ensures r.pendingAvatar.None? && r.pendingBanner.None? && !r.saving
  {
    EditState(user.name, user.email,
              if user.description.Some? then user.description.value else "",
              user.avatarPicture, user.bannerPicture, None, None, false, false, false, false)
  }

  /** What the update request answers: the stored row's profile fields, or
      an error's message. */
  datatype SaveResponse = Saved(name: string, email: string, avatarPicture: Option<string>, bannerPicture: Option<string>, description: Option<string>)
                        | Failed(message: string)

  /** The URL a picture has after the uploads: the upload's when a file
      is pending, the current one otherwise. */
  function NewUrl(current: Option<string>, pending: Option<string>): (r: Option<string>)
    ensures pending.Some? ==> r == pending
    ensures pending.None? ==> r == current
  {
    if pending.Some? then pending else current
  }

  /** One payload field: the value when it differs from the session's,
      left out (`undefined`) when equal. */
  function Diff(value: string, stored: string): (r: Field<string>)
    ensures r.Absent? <==> value == stored
    ensures r.Given? <==> value != stored
    ensures r.Given? ==> r.value == value
  {
    if value != stored then Given(value) else Absent
  }

  /** A nullable payload field: a missing value that differs is sent as
      `null`. */
  function DiffNullable(value: Option<string>, stored: Option<string>): (r: Field<string>)
    ensures r.Absent? <==> value == stored
    ensures r.Given? <==> value.Some? && value != stored
    ensures r.Given? ==> r.value == value.value
    ensures r.Null? ==> value.None?
  {
    if value == stored then Absent
    else if value.None? then Null
    else Given(value.value)
  }

  /** updatePayload: only the profile fields, each only when it differs
      from the signed-in user's. */
  function UpdatePayload(s: EditState, user: SessionUser): (r: UserModel.UpdateUserInput)
    ensures r.password.Absent? && r.walletBalance.Absent? && r.bidsTotal.Absent?
    ensures r.name == Diff(s.username, user.name) && r.email == Diff(s.email, user.email)
    ensures r.avatarPicture == DiffNullable(NewUrl(s.avatarUrl, s.pendingAvatar), user.avatarPicture)
    ensures r.bannerPicture == DiffNullable(NewUrl(s.bannerUrl, s.pendingBanner), user.bannerPicture)
    ensures r.description.Absent? <==> user.description == Some(s.biography)
    ensures r.description.Given? <==> user.description != Some(s.biography)
    ensures r.description.Given? ==> r.description.value == s.biography
  {
    UserModel.UpdateUserInput(
      Diff(s.username, user.name),
      Diff(s.email, user.email),
      Absent, Absent, Absent,
      DiffNullable(NewUrl(s.avatarUrl, s.pendingAvatar), user.avatarPicture),
      DiffNullable(NewUrl(s.bannerUrl, s.pendingBanner), user.bannerPicture),
      if Some(s.biography) != user.description then Given(s.biography) else Absent)
  }

  /** The server row holds what the session shows. */
  predicate Mirrors(row: User, user: SessionUser)
  {
    && row.name == user.name && row.email == user.email
    && row.avatarPicture == user.avatarPicture && row.bannerPicture == user.bannerPicture
    && row.description == user.description
  }

  /** Applied to a row that mirrors the session, the payload stores what
      the form shows: the name, address and biography, each new picture,
      and leaves the password, the wallet and the role alone. */
  lemma PayloadStoresForm(row: User, s: EditState, user: SessionUser)
    requires Mirrors(row, user)
    ensures var r := UserModel.ApplyUserUpdate(row, UpdatePayload(s, user));
      && r.name == s.username && r.email == s.email && r.description == Some(s.biography)
      && (NewUrl(s.avatarUrl, s.pendingAvatar).Some? ==> r.avatarPicture == NewUrl(s.avatarUrl, s.pendingAvatar))
      && (NewUrl(s.bannerUrl, s.pendingBanner).Some? ==> r.bannerPicture == NewUrl(s.bannerUrl, s.pendingBanner))
      && r.password == row.password && r.walletBalance == row.walletBalance
      && r.bidsTotal == row.bidsTotal && r.role == row.role
  {
  }

  /** A user without a biography who saves the unchanged editor writes an
      empty biography: the editor shows `''` for a missing one, which
      differs from it. */
  lemma UnchangedEditorWritesEmptyBiography(user: SessionUser)
    requires user.description.None?
    ensures UpdatePayload(InitialState(user), user).description == Given("")
  {
  }

  /** handleSave: with nobody signed in nothing happens. Otherwise the
      uploads' URLs become the stored ones; on success the answered row,
      with the role the session had, becomes the signed-in user, the
      pending files and previews are dropped and editing ends; on failure
      they are kept. `saving` is reset on both paths. Returns the new
      state, the user to sign in, and the toast's message. */
  function HandleSave(s: EditState, user: Option<SessionUser>, response: SaveResponse): (r: (EditState, Option<SessionUser>, string))
    ensures user.None? ==> r == (s, None, "")
    ensures user.Some? ==>
      && !r.0.saving
      && r.0.avatarUrl == NewUrl(s.avatarUrl, s.pendingAvatar)
      && r.0.bannerUrl == NewUrl(s.bannerUrl, s.pendingBanner)
    ensures user.Some? && response.Saved? ==>
      && r.1 == Some(SessionUser(user.value.id, response.name, response.email, user.value.role,
                                 response.avatarPicture, response.bannerPicture, response.description))
      && r.0.pendingAvatar.None? && r.0.pendingBanner.None?
      && !r.0.hasAvatarPreview && !r.0.hasBannerPreview && !r.0.isEditing
      && r.2 == "Profile updated!"
    ensures user.Some? && response.Failed? ==>
      && r.1.None?
      && r.0 == s.(avatarUrl := NewUrl(s.avatarUrl, s.pendingAvatar), bannerUrl := NewUrl(s.bannerUrl, s.pendingBanner), saving := false)
      && r.2 == (if response.message == [] then "Failed to update profile." else response.message)
  {
    if user.None? then (s, None, "")
    else
      var uploaded := s.(avatarUrl := NewUrl(s.avatarUrl, s.pendingAvatar), bannerUrl := NewUrl(s.bannerUrl, s.pendingBanner));
      match response
      case Saved(name, email, avatar, banner, description) =>
        var signedIn := SessionUser(user.value.id, name, email, user.value.role, avatar, banner, description);
        (uploaded.(pendingAvatar := None, pendingBanner := None, hasAvatarPreview := false,
                   hasBannerPreview := false, isEditing := false, saving := false),
         Some(signedIn), "Profile updated!")
      case Failed(message) =>
        (uploaded.(saving := false), None, if message == [] then "Failed to update profile." else message)
  }

  /** After a successful save the session mirrors the stored row, and the
      saved role survives although the answer does not carry it. */
  lemma SavedSessionMirrorsRow(s: EditState, user: SessionUser, row: User)
    requires HandleSave(s, Some(user), Saved(row.name, row.email, row.avatarPicture, row.bannerPicture, row.description)).1.Some?
    ensures var signedIn := HandleSave(s, Some(user), Saved(row.name, row.email, row.avatarPicture, row.bannerPicture, row.description)).1.value;
      Mirrors(row, signedIn) && signedIn.role == user.role && signedIn.id == user.id
  {
  }

  /** Saving again straight after a successful save sends an empty
      update: the form, the new session and the stored row agree. The
      exception is a picture cleared on the form while the session still
      has one, which `null` cannot clear on the server. */
  lemma SecondSaveSendsNothing(s: EditState, user: SessionUser, row: User)
    requires Mirrors(row, user)
    requires NewUrl(s.avatarUrl, s.pendingAvatar).Some? || user.avatarPicture.None?
    requires NewUrl(s.bannerUrl, s.pendingBanner).Some? || user.bannerPicture.None?
    ensures var stored := UserModel.ApplyUserUpdate(row, UpdatePayload(s, user));
      var after := HandleSave(s, Some(user), Saved(stored.name, stored.email, stored.avatarPicture, stored.bannerPicture, stored.description));
      after.1.Some? && UpdatePayload(after.0, after.1.value) == UserModel.UpdateUserInput(Absent, Absent, Absent, Absent, Absent, Absent, Absent, Absent)
  {
    PayloadStoresForm(row, s, user);
  }
}
