/** The Okta SDK as the Okta provider uses it (`directory/dirokta/dirokta.go`
    builds the client): users, their factors and groups, and the SDK's API
    error. The model runs every operation against `Client`, a stub whose calls
    are answered by fixed functions and which records every mutation. */
module OktaClient {
  import opened Wrappers
  import opened Api
  import opened Directory

  /** A JSON value from a profile or an error cause: a string, or anything
      else. */
  datatype Json = JString(s: string) | JOther

  /** `okta.UserProfile` and an error cause: JSON objects. */
  type JsonObject = map<string, Json>

  /** `obj[key].(string)` with the `ok` ignored: the string, or "" when the key
      is absent or holds another kind of value. */
  function StringField(obj: JsonObject, key: string): (s: string)
    ensures key in obj && obj[key].JString? ==> s == obj[key].s
    ensures !(key in obj && obj[key].JString?) ==> s == ""
  {
    if key in obj && obj[key].JString? then obj[key].s else ""
  }

  /** `okta.User`: a nil profile is `None`. */
  datatype User = User(id: string, status: string, profile: Option<JsonObject>, lastUpdated: Option<Time>)

  /** `okta.Group`, with its profile's name (nil profile: `None`). */
  datatype OktaGroup = OktaGroup(id: string, profileName: Option<string>)

  /** `okta.Error`: the summary and the causes of an API error. */
  datatype ApiError = ApiError(summary: string, causes: seq<JsonObject>)

  /** What an SDK call fails with: an API error, or any other error. */
  datatype Failure = SdkError(api: ApiError) | OtherFailure(err: Error)

  /** A failure as a Go `error`: an API error prints as `sdkText` says (the
      SDK's own `Error()`, which is not part of this model). */
  function Raw(f: Failure, sdkText: ApiError -> string): (e: Error)
    ensures f.OtherFailure? ==> e == f.err
    ensures f.SdkError? ==> e == Plain(sdkText(f.api))
  {
    match f
    case SdkError(api) => Plain(sdkText(api))
    case OtherFailure(err) => err
  }

  /** The URL of a next page. The SDK reports "no next page" as an empty
      `NextPage`, which is `None` here, so a present link is never empty. */
  type NextLink = u: string | u != "" witness "/"

  /** One page of a user listing, with the URL of the next page if any. */
  datatype UserPage = UserPage(users: seq<User>, nextPage: Option<NextLink>)

  /** The query of a user listing: the page size, and the `filter`, `search`
      and `after` parameters that are set. */
  datatype UsersQuery = UsersQuery(limit: int, filter: Option<string>, search: Option<string>, after: Option<string>)

  /** The calls that change something in Okta. */
  datatype Mutation = Unlocked(userID: string) | FactorsReset(userID: string) | PasswordReset(userID: string, sendEmail: bool)

  /** The Okta client, as a stub: each call is answered by its function, and
      `mutations` records the unlocks, factor resets and password resets, in
      order. */
  class Client {
    const sdkText: ApiError -> string
    const getUser: string -> Result<User, Failure>
    const unlockResult: string -> Option<Failure>
    const listFactors: string -> Result<nat, Failure>
    const resetFactorsResult: string -> Option<Failure>
    const resetPassword: string -> Result<string, Failure>
    const listUsers: UsersQuery -> Result<UserPage, Failure>
    const nextPage: string -> Result<UserPage, Failure>
    const userGroups: string -> Result<seq<OktaGroup>, Failure>
    var mutations: seq<Mutation>

    constructor (sdkText: ApiError -> string, getUser: string -> Result<User, Failure>,
                 unlockResult: string -> Option<Failure>, listFactors: string -> Result<nat, Failure>,
                 resetFactorsResult: string -> Option<Failure>, resetPassword: string -> Result<string, Failure>,
                 listUsers: UsersQuery -> Result<UserPage, Failure>, nextPage: string -> Result<UserPage, Failure>,
                 userGroups: string -> Result<seq<OktaGroup>, Failure>)
      ensures this.sdkText == sdkText && this.getUser == getUser && this.unlockResult == unlockResult
      ensures this.listFactors == listFactors && this.resetFactorsResult == resetFactorsResult
      ensures this.resetPassword == resetPassword && this.listUsers == listUsers
      ensures this.nextPage == nextPage && this.userGroups == userGroups
      ensures mutations == []
    {
      this.sdkText := sdkText;
      this.getUser := getUser;
      this.unlockResult := unlockResult;
      this.listFactors := listFactors;
      this.resetFactorsResult := resetFactorsResult;
      this.resetPassword := resetPassword;
      this.listUsers := listUsers;
      this.nextPage := nextPage;
      this.userGroups := userGroups;
      mutations := [];
    }

    /** `User.UnlockUser`. */
    method UnlockUser(id: string) returns (err: Option<Failure>)
      modifies this
      ensures err == unlockResult(id) && mutations == old(mutations) + [Unlocked(id)]
    {
      mutations := mutations + [Unlocked(id)];
      err := unlockResult(id);
    }

    /** `User.ResetFactors`. */
    method ResetFactors(id: string) returns (err: Option<Failure>)
      modifies this
      ensures err == resetFactorsResult(id) && mutations == old(mutations) + [FactorsReset(id)]
    {
      mutations := mutations + [FactorsReset(id)];
      err := resetFactorsResult(id);
    }

    /** `User.ResetPassword`: the reset URL. */
    method ResetPassword(id: string, sendEmail: bool) returns (r: Result<string, Failure>)
      modifies this
      ensures r == resetPassword(id) && mutations == old(mutations) + [PasswordReset(id, sendEmail)]
    {
      mutations := mutations + [PasswordReset(id, sendEmail)];
      r := resetPassword(id);
    }
  }
}
