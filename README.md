# Directory agent relay, modelled in Dafny

This project models the core of the Nametag command-line tool's **directory
agent**. The agent connects an organisation's identity directory to the
Nametag service. A parent process (`internal/diragent/diragent.go`) holds a
websocket to the service. For each request it receives, it writes a typed
JSON request to a worker subprocess and relays the worker's response back.
The worker (`internal/diragent/worker.go`) dispatches the request to a
directory *provider*. Each provider answers the same five requests:
Configure, ListAccounts, GetAccount, ListGroups and PerformOperation.
PerformOperation carries a recovery operation: unlock, remove all MFA,
temporary password or password link, each with an optional dry run.

What the model covers:

- **Wire types and errors**: the request and response records
  (`api.dfy`), and the coded error that travels to the service
  (`directory.dfy`). A Go error chain is `Error`, and `errors.As` is
  `Error.AsCoded`.
- **Relay and worker** (`relay.dfy`, `worker.dfy`): response validation,
  the configure handshake, token redaction, the reconnect backoff, and the
  worker's dispatch.
- **Small libraries**: `lox.Elide`, `lox.Index` and `lox.Chunk`
  (`lox_elide.dfy`, `lox_iter.dfy`); the choice of server URL for
  `nametag auth` (`cli_auth.dfy`).
- **Active Directory** (`adclient_*.dfy`, `dirad_*.dfy`): the PowerShell
  command client, users and groups sorted by GUID and paged by cursor,
  password policy and assignment, and unlock.
- **Authentik** (`authentik*.dfy`): URL and token settings, the HTTP
  request log, paged user fetching, accounts, groups and MFA device removal.
- **LDAP** (`ldap_*.dfy`): base64 paging cookies, accounts, groups,
  temporary passwords under the password policy, and unlock.
- **Okta** (`okta_*.dfy`): API-error filtering, the three operations,
  account listing with the `after` cursor, and account lookup.
- **Beyond Identity** (`byid_*.dfy`): conversion of identities and
  groups, and account lookup.

Every foreign system is a stub: the websocket, the worker's pipes, HTTP
servers, the LDAP server, PowerShell and the Okta SDK. Some stubs are
classes whose fields log what was sent or changed. The others are function
parameters that fix the answers. Each operation is a method proved against
a specification function of the stub's answers, and the lemmas state what
the source promises about that function.

Go's library code the core calls is passed in as parameters. This covers
`%q` quoting, time parsing and formatting, `url.Parse`, JSON decoding and
`password.Generate`.

Where the code cannot do what it evidently means to, the model keeps two
definitions. One follows the code as written. The other is the corrected
definition that the rest of the model uses. Each such pair is listed under
"## Findings".

## Model

| member | source | states |
|---|---|---|
| Directory.CodedError.Text | directory/provider.go:54-56 | a coded error prints as its code's text, one space, then the message, with the code and message recoverable at the stated offsets |
| Directory.WireRoundTrip | directory/provider.go:48-52 | converting a coded error to the wire error record and back gives the same error (the Go type is an alias of the record) |
| Directory.CodedTextRoundTrip | directory/provider.go:54-56 | the printed form of a coded error can be parsed back into the same code and message, since no code's text holds a space |
| Directory.ParseCodedTextFromText | directory/provider.go:54-56 | scanning a list of codes that contains the error's code finds that code and the message in its printed text |
| Directory.Error.AsCoded | internal/diragent/worker.go:56-59 | `errors.As` finds a coded error exactly when one lies on the unwrap chain, and then it is the first one |
| Directory.AsCodedThroughWraps | internal/diragent/worker.go:56-59 | wrapping a coded error with any number of `%w` prefixes never hides it from `errors.As` |
| Directory.UnsupportedOperation | directory/dirad/op.go:32 | the error for an unsupported operation carries no code and prints the operation's name after the fixed text |
| Directory.CodedErr | directory/dirad/op_unlock.go:41-44 | an error built as a coded error is found by `errors.As` with exactly that code and message |
| Directory.AsReply | directory/provider.go:26-46 | a backend's own result becomes a provider reply that succeeds exactly when it does, with a non-nil response |
| Api.CodeTextInjective | directory/provider.go:54-56 | different error codes print as different texts |
| Api.CodeTextNoSpace | directory/provider.go:54-56 | no error code's text contains a space, so the first space of a printed coded error ends the code |
| Worker.FirstTag | internal/diragent/worker.go:63-101 | the request field that is dispatched is the first populated one in the order ping, configure, get account, list accounts, list groups, perform operation; none exactly when the request is empty |
| Worker.OnlyFirst | internal/diragent/worker.go:63-101 | clearing every field but the dispatched one keeps the dispatch decision |
| Worker.HandleError | internal/diragent/worker.go:49-61 | a failed call answers with an error and no data: the first coded error on the chain keeps its code and message, any other error becomes an internal error carrying its text |
| Worker.DoRequestShape | internal/diragent/worker.go:48-109 | every response holds at most one data field, and none when it holds an error |
| Worker.PingAnswer | internal/diragent/worker.go:64-65 | a ping is answered with an empty response, whatever else the request holds |
| Worker.UnknownOperation | internal/diragent/worker.go:101-107 | a request with no field set is answered with the internal error `unknown operation` |
| Worker.FirstTagWins | internal/diragent/worker.go:63-101 | the answer depends only on the first populated request field |
| Worker.SuccessSetsOwnField | internal/diragent/worker.go:67-100 | a provider call that succeeds gives a response with exactly its own field set to the provider's response and no error |
| Worker.ErrorClassification | internal/diragent/worker.go:68-100 | a provider call that fails gives the error `handleError` builds from the provider's error, and no data |
| Worker.RunWorker | internal/diragent/worker.go:32-46 | the worker answers the decoded requests one by one, in order, each with `workerDoRequest`'s answer, and stops with the first decode or write error |
| Directory.CodedError.ToWire | internal/diragent/worker.go:58 | converting a coded error to the wire record keeps its code and its message |
| Directory.FromWire | directory/provider.go:48-52 | a wire error record read as a coded error converts back to the same record |
| Directory.Error.Chain | internal/diragent/worker.go:56-58 | the errors `errors.As` visits start with the error itself and are never empty |
| Directory.WrapAll | internal/diragent/worker.go:56-58 | each wrapping adds exactly one error to the chain `errors.As` visits |
| Relay.Validate | internal/diragent/diragent.go:220-259 | validation changes only the error field: a response that already has an error is kept, and otherwise an internal error naming the missing field is set exactly when the first requested data field is absent from the response |
| Relay.PingNeverOverridden | internal/diragent/diragent.go:220-259 | a request with none of the five data fields is never overridden |
| Relay.ValidateIdempotent | internal/diragent/diragent.go:220-259 | validating a validated response changes nothing |
| Relay.ValidatedHasFieldOrError | internal/diragent/diragent.go:220-259 | after validation, a response to a data request carries the requested field or an error |
| Relay.RelayKeepsWorkerResponse | internal/diragent/diragent.go:220-259 | for a request without ping whose provider never returns a nil response, the relay forwards the worker's answer unchanged |
| Relay.RelayCatchesNilConfigure | internal/diragent/diragent.go:223-229 | a provider that answers configure with a nil response reaches the server as the internal error naming `configure` |
| Relay.PingWithConfigure | internal/diragent/diragent.go:223-229 | a request with both ping and configure is answered by the worker as a ping, and the relay turns that into the internal error naming `configure` |
| Relay.RunOnce | internal/diragent/diragent.go:178-269 | the session forwards each request read from the server to the worker, in order, and sends back the validated answer, until the first read, encode, decode or write error, which it returns |
| Relay.RedactToken | internal/diragent/diragent.go:165 | the decoded `auth` value of the logged URL is two asterisks per byte of the token and nothing else; the log shows it percent-encoded |
| Relay.RedactionHidesToken | internal/diragent/diragent.go:164-167 | a token holding any character other than `*` does not appear anywhere in its mask |
| Relay.CheckHandshake | internal/diragent/diragent.go:115-117 | the handshake lets Run go on exactly when the worker's reply has no error; otherwise Run stops with `error: `, the code's text, a space and the message |
| Relay.HandshakeShowsCodedText | internal/diragent/diragent.go:105-117 | when the provider fails configure with a coded error, the handshake message is `error: ` followed by that error's own text |
| Relay.Backoff.constructor | internal/diragent/diragent.go:119-122 | the backoff starts at attempt 0 with a minimum of one second and a maximum of one minute |
| Relay.Backoff.Reset | internal/diragent/diragent.go:142-144 | resetting sets the attempt counter to 0 and nothing else |
| Relay.Backoff.Duration | internal/diragent/diragent.go:145 | each delay is computed for the current attempt and advances the counter by one |
| Relay.AttemptsReset | internal/diragent/diragent.go:142-145 | the attempt used for a sleep is 0 exactly after the first session or after a session longer than a minute, and otherwise one more than the previous attempt |
| Relay.Retry | internal/diragent/diragent.go:123-148 | sessions run until one returns nil (Run returns nil) or fails after the outer context is done (nil when canceled, the deadline error otherwise); every earlier session failed and is followed by one sleep whose attempt number is the backoff's, reset after sessions longer than a minute |
| Relay.Run | internal/diragent/diragent.go:105-148 | a failed handshake write or read ends Run with that error and no session; an error reply ends it with the handshake error; otherwise Run continues as the retry loop |
| Relay.Attempts | internal/diragent/diragent.go:142-145 | one backoff attempt number per failed session |
| Relay.Durations | internal/diragent/diragent.go:124-127 | one duration per session, each that session's own |
| Relay.AttemptsStep | internal/diragent/diragent.go:142-145 | after one more session the attempt numbers gain one entry: 0 after a session longer than a minute, else one more than the last |
| LoxElide.Room | internal/pkg/lox/elide.go:22-24 | the length a shortened string gets is the limit, raised to the ellipsis' one rune when smaller |
| LoxElide.Elide | internal/pkg/lox/elide.go:16-26 | a string of at most `maxLen` runes is returned unchanged; a longer one keeps its first `Room(maxLen) - 1` runes followed by the ellipsis |
| LoxElide.ElideBounds | internal/pkg/lox/elide.go:16-26 | the result is never longer than the room the limit leaves, never longer than a positive limit, and never longer than the input except for the empty string under a negative limit |
| LoxElide.ElideToNothing | internal/pkg/lox/elide.go:22-25 | a non-empty string elided to a limit of at most zero becomes the ellipsis alone |
| LoxElide.ElideIdempotent | internal/pkg/lox/elide.go:16-26 | eliding twice with the same limit is eliding once |
| LoxIter.DeliverPrefix | internal/pkg/lox/iter.go:16-24 | a consumer receives a prefix of the values; it accepted every value but the last one it received, and it refused that one when values remain |
| LoxIter.DeliverAll | internal/pkg/lox/iter.go:16-24 | a consumer that never refuses receives every value |
| LoxIter.IndexPairs | internal/pkg/lox/iter.go:14-25 | the indexed sequence pairs each element with its position 0, 1, 2, … |
| LoxIter.Index | internal/pkg/lox/iter.go:15-25 | `Index` yields the elements with their positions, in order, and stops after the first pair the consumer refuses |
| LoxIter.ChunksConcat | internal/pkg/lox/iter.go:29-45 | the chunks, put back together, are the input |
| LoxIter.ChunksSizes | internal/pkg/lox/iter.go:29-45 | with a positive size every chunk is non-empty, every chunk but the last has exactly `size` elements and the last at most `size` |
| LoxIter.NoItemsNoChunks | internal/pkg/lox/iter.go:41-43 | the input gives no chunk exactly when it is empty |
| LoxIter.Chunk | internal/pkg/lox/iter.go:29-45 | `Chunk` yields the chunks in order and stops after the first chunk the consumer refuses |
| CliAuth.ChosenServer | internal/cli/auth.go:32-41 | the server asked for is the flag, else the environment variable, else `https://nametag.co` |
| CliAuth.ServerURL | internal/cli/auth.go:31-63 | a flag read error or a parse error is returned wrapped as the source wraps it; a host other than `nametag.co`, `nametagstaging.com` or one ending in `.nametagdev.com` is refused; an accepted server becomes `https://` followed by its host alone, written through the host escaping of `url.URL.String` (`EscapeHost`) |
| CliAuth.DefaultIsProduction | internal/cli/auth.go:36-62 | with neither flag nor environment variable the result is the production server |
| CliAuth.ServerURLIdempotent | internal/cli/auth.go:47-62 | an accepted result, fed back in as the flag, is accepted again unchanged whatever the environment, given only that the parser reads back from the escaped `https://` URL an allowed host it produced itself |
| CliAuth.EscapeHostSafe | internal/cli/auth.go:58-62 | a host made only of ASCII letters, digits and the punctuation Go's host encoding lets through is written unchanged |
| CliAuth.EscapeHostNonASCII | internal/cli/auth.go:58-62 | a non-ASCII character of the host is written as its UTF-8 bytes percent-encoded in upper-case hex (`é` as `%C3%A9`) |
| CliAuth.EscapePercent | internal/cli/auth.go:58-62 | a `%` in the host is itself escaped, as `%25` |
| CliAuth.ProductionHostUnescaped | internal/cli/auth.go:40-62 | the production host `nametag.co` needs no escaping |
| Text.Utf8Bytes | internal/cli/auth.go:58-62 | a character's UTF-8 encoding has as many bytes as its UTF-8 length, each a byte, one byte equal to the code below 0x80 and only bytes of 0x80 and above otherwise |
| AdClient.Lookup | directory/dirad/adclient/client.go:78-94 | a nil response map fails with "no mock responses defined", an unmapped command fails naming the command, a mapped error is returned as is, and otherwise the mapped standard output is the answer |
| AdClient.LookupOkMeansMapped | directory/dirad/adclient/client.go:78-94 | a command succeeds exactly when the map exists, holds the command and its response carries no error |
| AdClient.MockClient.constructor | directory/dirad/adclient/client.go:67-69 | a new stub holds the given response map and has run no command |
| AdClient.MockClient.Execute | directory/dirad/adclient/client.go:78-94 | the answer is the canned one for the command, the map is left unchanged, and the command is appended to the record of commands run |
| AdUser.SortBy | directory/dirad/adclient/user.go:114-116 | sorting in place leaves the array in ascending key order and a permutation of what it held |
| AdUser.InsertLast | directory/dirad/adclient/user.go:114-116 | one round of insertion extends the sorted prefix by one element and only permutes the array |
| AdUser.SwapDown | directory/dirad/adclient/user.go:114-116 | exchanging two neighbours changes only those two cells and keeps the multiset of elements |
| AdUser.IndexOfKey | directory/dirad/adclient/user.go:118-123 | the cursor search answers -1 or an index of the list |
| AdUser.IndexOfKeyFirst | directory/dirad/adclient/user.go:118-123 | the index found holds the cursor's key and no earlier item does; -1 means no item holds it |
| AdUser.Start | directory/dirad/adclient/user.go:118-125 | a page starts within the list, and at 0 without a cursor |
| AdUser.StartAfterCursor | directory/dirad/adclient/user.go:118-129 | an unknown cursor restarts the listing at 0; a page that starts later starts right after the item whose GUID is the cursor |
| AdUser.PageOfShape | directory/dirad/adclient/user.go:125-133 | a page is the contiguous slice after the cursor with at most the page size of items, cut short only by the end of the list; a next cursor is handed out exactly when the page is non-empty and items remain, and it is the GUID of the page's last item |
| AdUser.NextStart | directory/dirad/adclient/user.go:118-133 | with distinct GUIDs, the page selected by a handed-out cursor starts right after the page that handed it out, which was non-empty |
| AdUser.FollowEnd | directory/dirad/adclient/user.go:125-133 | a page that hands out no cursor holds the whole rest of the list |
| AdUser.FollowFrom | directory/dirad/adclient/user.go:114-135 | following the cursors from any page start yields the rest of the list, each item once, in order |
| AdUser.FollowAll | directory/dirad/adclient/user.go:114-135 | over a list with distinct GUIDs, following the cursors from no cursor yields the whole sorted list exactly once and then stops |
| AdUser.UserFilter | directory/dirad/adclient/user.go:90-101 | the whenChanged LDAP filter is used exactly when UpdatedAfter is given, else `-Filter *` |
| AdUser.ListADUsers | directory/dirad/adclient/user.go:89-136 | the threshold command runs only with UpdatedAfter and a failure there stops before the listing; any command or decoding failure is returned; otherwise the answer is the page, by the cursor and the default size of 250, of a GUID-sorted permutation of the listed users |
| AdUser.SortAndPage | directory/dirad/adclient/user.go:114-135 | the page answered is cut from a sorted permutation of the users |
| AdUser.UserGroupCommands | directory/dirad/adclient/user.go:141-146 | at most one lookup command runs per memberOf entry |
| AdUser.UserGroupsAppend | directory/dirad/adclient/user.go:141-165 | the groups of a memberOf list split in two are the groups of the first part followed by those of the second, so lookups concatenate in memberOf order |
| AdUser.UserGroupCommandsAll | directory/dirad/adclient/user.go:141-146 | when the lookup succeeds, every memberOf entry was looked up exactly once, in order |
| AdUser.UserGroupsStop | directory/dirad/adclient/user.go:143-160 | a failure at entry i ends the lookups: no later entry is looked up and the result is that failure |
| AdUser.GetADUserGroups | directory/dirad/adclient/user.go:139-166 | the answer is the memberOf groups in order (a single object or a list per lookup) or the first failure, and the commands run are exactly the lookups up to that failure |
| AdGroup.PrefixOf | directory/dirad/adclient/group.go:45-48 | the prefix is the given NamePrefix, or empty without one |
| AdGroup.CommandKeepsPrefix | directory/dirad/adclient/group.go:50-51 | the command holds the prefix with every single quote doubled, and undoubling gives the prefix back, so a single quote in the prefix cannot end the filter's single-quoted literal |
| AdGroup.PageSize | directory/dirad/adclient/group.go:82-85 | the page size is MaxCount when given, else the default of 250 |
| AdGroup.SortAndPage | directory/dirad/adclient/group.go:71-95 | the computed page is cut, by the cursor and the page size, from a GUID-sorted permutation of the decoded groups |
| AdGroup.AsWrittenGroups | directory/dirad/adclient/group.go:87-97 | as written, the list returned is the whole sorted list while the cursor is the computed page's |
| AdGroup.GetADGroupsAsWritten | directory/dirad/adclient/group.go:44-98 | as written: one command with the escaped prefix; its error or the decoding error is returned; a single object comes back as a one-element list with no cursor; a list comes back whole and sorted, with the page's cursor |
| AdGroup.GetADGroups | directory/dirad/adclient/group.go:44-98 | as intended: the same command and error cases, a single object as a one-element list with no cursor, and for a list the page itself with its cursor |
| AdGroup.AsWrittenRepeatsGroups | directory/dirad/adclient/group.go:97 | with three groups and pages of one, the as-written answer hands out a cursor yet holds all three groups, and the page after the cursor holds them all again; the intended first page is the first group alone |
| AdPassword.PolicyOutcome | directory/dirad/adclient/password.go:63-91 | a failing fine-grained query is returned as is; non-empty output is decoded and returned without a second query; empty output falls back to the default-policy query, whose failure or decoding is the answer |
| AdPassword.PolicyCommands | directory/dirad/adclient/password.go:63-91 | the default-policy query runs, once, exactly when the fine-grained query succeeds with empty output |
| AdPassword.GetPasswordPolicy | directory/dirad/adclient/password.go:63-91 | the answer is the policy outcome above, the commands run are those above, and the response map is unchanged |
| AdPassword.PolicyCommandEscapes | directory/dirad/adclient/password.go:64-65 | the immutable ID enters the query with its single quotes doubled, and undoubling gives it back |
| AdPassword.AssignOutcome | directory/dirad/adclient/password.go:40-58 | a policy failure is wrapped with "could not get password policy"; a generation failure or a reset failure is returned unwrapped; success means the policy was found, a password of its minimum length was generated and the reset command carrying that password succeeded, and the password returned is the one sent; each of those steps succeeding gives success |
| AdPassword.AssignCommands | directory/dirad/adclient/password.go:40-58 | the policy queries run first; the reset command runs at most once, after them, exactly when the policy and the generation succeed, and it carries the generated password |
| AdPassword.AssignTemporaryPassword | directory/dirad/adclient/password.go:40-58 | the answer and the commands run are those above, and the response map is unchanged |
| AdUnlock.LockedOutcome | directory/dirad/adclient/unlock.go:28-41 | the lockout flag is the decoded answer of the query, or the query's error |
| AdUnlock.IsAccountLocked | directory/dirad/adclient/unlock.go:28-41 | one lockout query runs, the answer is the outcome above and the map is unchanged |
| AdUnlock.UnlockAccount | directory/dirad/adclient/unlock.go:44-52 | one unlock command runs and its error, if any, is the answer |
| DirAdListAccounts.ExternalIDs | directory/dirad/list_accounts.go:67-78 | the external IDs are the e-mail address then the SAM account name, each present exactly when it is non-empty, and nothing else |
| DirAdListAccounts.AccountsOf | directory/dirad/list_accounts.go:45-60 | the accounts are the page's users one for one, in order, each with the GUID as immutable ID, its external IDs, its name and its parsed change time, exactly when every change time parses; otherwise the error is that of a user whose change time fails first |
| DirAdListAccounts.AccountsOfFailsAt | directory/dirad/list_accounts.go:47-50 | the listing fails with the error of the first user whose change time does not parse, prefixed with that user's GUID |
| DirAdListAccounts.FirstBadTimeUnique | directory/dirad/list_accounts.go:45-50 | there is only one first user whose change time does not parse |
| DirAdListAccounts.ToAccounts | directory/dirad/list_accounts.go:45-60 | the conversion loop computes exactly the accounts, or the first failure, above |
| DirAdListAccounts.ListAccounts | directory/dirad/list_accounts.go:30-65 | a client failure is returned before any command; a listing failure is wrapped with "failed to list AD users"; otherwise the accounts are those of the page of a GUID-sorted permutation of the users, and the next cursor is that page's |
| DirAdListGroups.GroupOf | directory/dirad/list_groups.go:40-45 | a listed group carries the GUID as immutable ID and the AD name, and no kind |
| DirAdListGroups.ArgsOf | directory/dirad/list_groups.go:32-35 | the name prefix and cursor are passed on and MaxCount is not, so the page size is the default 250 |
| DirAdListGroups.MaxCountIgnored | directory/dirad/list_groups.go:32-35 | a request's MaxCount has no effect on what is asked of AD |
| DirAdListGroups.ToGroups | directory/dirad/list_groups.go:40-45 | every returned group is mapped, one for one, in order |
| DirAdListGroups.ListGroups | directory/dirad/list_groups.go:25-49 | a client failure is returned before any command; one listing command runs and its error or decoding error is returned as is; otherwise every group of the page is returned in order with the cursor unchanged; the page comes from the corrected `AdGroup.GetADGroups`, not from the whole sorted list that the source returns (see Findings) |
| DirAdOp.PerformOperation | directory/dirad/op.go:25-34 | GetTemporaryPassword and Unlock go to their handlers with the request unchanged; any other operation fails as unsupported and runs no command |
| DirAdOpPassword.PasswordOutcome | directory/dirad/op_password.go:27-45 | a client failure is returned; a dry run succeeds with an empty response; otherwise the response carries exactly the password assigned, and an assignment error is returned as is |
| DirAdOpPassword.PasswordCommands | directory/dirad/op_password.go:27-45 | a dry run or a client failure runs no command; otherwise the commands are exactly the assignment's |
| DirAdOpPassword.PerformGetTemporaryPassword | directory/dirad/op_password.go:27-45 | the answer and the commands run are those above and the response map is unchanged |
| DirAdOpUnlock.UnlockOutcome | directory/dirad/op_unlock.go:28-55 | client and lock-state failures are returned first; an unlocked account is refused with UnsupportedAccountState and "account is not locked", dry run or not; a dry run on a locked account succeeds empty; otherwise the answer is the unlock command's |
| DirAdOpUnlock.UnlockCommands | directory/dirad/op_unlock.go:28-55 | the lock-state query always runs first; the unlock command runs, once, exactly for a locked account outside a dry run |
| DirAdOpUnlock.PerformUnlock | directory/dirad/op_unlock.go:28-55 | the answer and the commands run are those above and the response map is unchanged |
| Authentik.Rendered | directory/dirauthentik/dirauthentik.go:237 | the query string holds exactly the keys set, numbers in their decimal form and strings as given |
| Authentik.NormalizePath | directory/dirauthentik/dirauthentik.go:101-105 | the API path always ends in `/api/v3/`; a path already ending in `/api/v3` (after one trailing slash is dropped) only gets its slash back, any other path gets `/api/v3/` appended |
| Authentik.NormalizePathIdempotent | directory/dirauthentik/dirauthentik.go:101-105 | normalising an already normalised path returns it unchanged |
| Authentik.ApiBaseURL | directory/dirauthentik/dirauthentik.go:88-109 | a blank URL is refused as required; a URL that does not parse, or lacks a scheme or a host, is refused as invalid; a usable URL keeps its scheme and host, gets the normalised API path and loses its query and fragment |
| Authentik.ApiBaseURLIdempotent | directory/dirauthentik/dirauthentik.go:88-109 | configuring the printed API base URL again gives the same base URL |
| Authentik.Validate | directory/dirauthentik/dirauthentik.go:65-86 | the checks run in order (blank URL, blank token, unusable base URL), each failure is a ConfigurationError with its message, and the configuration passes exactly when all three pass |
| Authentik.Configure | directory/dirauthentik/dirauthentik.go:49-63 | an invalid configuration fails with its ConfigurationError; a valid one reports the display name, the password-link, remove-all-MFA and account-list capabilities and no others, and the ID `urn:agent:authentik:` followed by the URL |
| Authentik.LastIndexOf | directory/dirauthentik/dirauthentik.go:116 | the index found holds the character and no later one does; -1 means it does not occur |
| Authentik.Hostname | directory/dirauthentik/dirauthentik.go:116 | the host name is never longer than the host with its port |
| Authentik.HostnameDropsPort | directory/dirauthentik/dirauthentik.go:116 | a plain host name followed by a numeric port gives back the host name alone |
| Authentik.DisplayName | directory/dirauthentik/dirauthentik.go:111-121 | the name is `authentik` when the base URL is unusable or has no host name, else `authentik (<host>)` |
| Authentik.DisplayNameDropsPort | directory/dirauthentik/dirauthentik.go:111-121 | a base URL whose host carries a port is named by the host without the port |
| Authentik.BearerToken | directory/dirauthentik/dirauthentik.go:163-166 | the token sent is trimmed; one leading `bearer ` in any case is removed and what follows trimmed again; a token without it is only trimmed |
| Authentik.AuthorizationHeader | directory/dirauthentik/dirauthentik.go:167 | the header is `Bearer ` followed by the token as sent |
| Authentik.BearerTokenKeeps | directory/dirauthentik/dirauthentik.go:163-166 | a trimmed token without the scheme is sent unchanged |
| Authentik.BearerTokenStrips | directory/dirauthentik/dirauthentik.go:163-166 | `Bearer ` in front of a trimmed token is removed |
| Authentik.HeaderIgnoresScheme | directory/dirauthentik/dirauthentik.go:163-167 | configuring the token with or without `Bearer ` in front gives the same header |
| Authentik.ErrorMessageChoice | directory/dirauthentik/dirauthentik.go:195-210 | the message of an error answer is the JSON detail when there is one, else the trimmed body, else the status text |
| Authentik.ParseErrorClassifies | directory/dirauthentik/dirauthentik.go:212-230 | 401, 403 and 404 become ServiceAuthenticationFailed, PermissionDenied and AccountNotFound coded errors carrying the message, and only they are coded; any other status is a plain error reading `authentik: ` and the message |
| Authentik.DoJSONOrder | directory/dirauthentik/dirauthentik.go:133-192 | an invalid configuration fails every request with its configuration error; a valid one passes answers through, classifies error statuses and keeps the code, if any, of a decoding failure |
| Authentik.Deletes | directory/dirauthentik/dirauthentik.go:133-192 | a log never holds more DELETE requests than requests |
| Authentik.DeletesAppend | directory/dirauthentik/dirauthentik.go:133-192 | the DELETE count of two logs one after the other is the sum of their counts |
| Authentik.Server.constructor | directory/dirauthentik/dirauthentik.go:133-192 | every answer of the stub is what `doJSON` makes of the server's raw answer under the configuration, and the log starts empty |
| Authentik.Server.GetUsers | directory/dirauthentik/dirauthentik.go:233-242 | the answer is the server's, and the request is logged only when the configuration is valid |
| Authentik.Server.GetGroups | directory/dirauthentik/dirauthentik.go:253-259 | the answer is the server's, and the request is logged only when the configuration is valid |
| Authentik.Server.GetUserByPK | directory/dirauthentik/dirauthentik.go:261-267 | the answer is the server's for `core/users/<pk>/`, and the request is logged only when the configuration is valid |
| Authentik.Server.GetDevices | directory/dirauthentik/op_mfa.go:30-37 | the answer is the server's device list, and the request is logged only when the configuration is valid |
| Authentik.Server.Delete | directory/dirauthentik/op_mfa.go:50-58 | the answer is the server's for the DELETE, and the request is logged only when the configuration is valid |
| Authentik.ContinueContinue | directory/dirauthentik/dirauthentik.go:233-251 | reading two stretches of pages one after the other is reading their users and page numbers joined |
| Authentik.ContinueNothing | directory/dirauthentik/dirauthentik.go:233-251 | a fetch seen after nothing was read is the fetch itself |
| Authentik.FetchUsersFrom | directory/dirauthentik/dirauthentik.go:233-251 | no more pages are asked for than the fuel allows |
| Authentik.PageRequestsOnlyGet | directory/dirauthentik/dirauthentik.go:233-251 | listing users sends no DELETE, one GET per page asked for when the configuration is valid, and nothing otherwise |
| Authentik.PageRequestsAppend | directory/dirauthentik/dirauthentik.go:237-240 | asking for one more page adds its request at the end of the log |
| Authentik.PageRequestsSent | directory/dirauthentik/dirauthentik.go:237-240 | a log that held the requests for some pages holds, after the next request, those for the pages with the new one added |
| Authentik.FetchUsers | directory/dirauthentik/dirauthentik.go:233-251 | the loop starting at page 1 answers what following the pages answers (the users of every page in order, or the first failure) and logs exactly one request per page asked for |
| Authentik.FetchUsersStep | directory/dirauthentik/dirauthentik.go:243-248 | a page that points at another adds its users and its number, and the fetch goes on from the page it points at |
| Authentik.FetchUsersFails | directory/dirauthentik/dirauthentik.go:240-242 | a failing page ends the fetch with its error, after asking for it |
| Authentik.FetchUsersEnds | directory/dirauthentik/dirauthentik.go:243-247 | a page without a positive next pointer ends the fetch with every user read, its own last |
| Authentik.FetchUsersReadsAllPages | directory/dirauthentik/dirauthentik.go:233-251 | a server whose pages each point at the next, the last pointing nowhere, is read to the end: the users of every page in page order, one request per page |
| AuthentikHelpers.BaseUserQuery | directory/dirauthentik/helpers.go:24-30 | a user listing asks for pages of 250, never for roles, and for groups exactly when asked to, and sets nothing else |
| AuthentikHelpers.BaseGroupQuery | directory/dirauthentik/helpers.go:32-39 | a group listing asks for pages of 250 and sets users, parents and children to false, and nothing else |
| AuthentikHelpers.ParseAPITime | directory/dirauthentik/helpers.go:41-52 | an empty value has no time; otherwise the RFC 3339 layout with nanoseconds is tried first and plain RFC 3339 second, and no time comes back only when both fail |
| AuthentikHelpers.UserImmutableID | directory/dirauthentik/helpers.go:54-62 | the ID is the UUID when set, else the decimal primary key (which reads back as that key) when non-zero, and empty exactly when both are missing |
| AuthentikHelpers.UserDisplayName | directory/dirauthentik/helpers.go:64-75 | the first non-empty of Name, Username, Email and the immutable ID, in that order; empty exactly when all four are |
| AuthentikHelpers.IsNumericItoa | directory/dirauthentik/helpers.go:102-108 | the empty string is not numeric, and the immutable ID of a user without UUID but with a primary key is |
| AuthentikHelpers.IsNumericShape | directory/dirauthentik/helpers.go:102-108 | a numeric string is an optional sign followed by at least one digit |
| AuthentikHelpers.AppendUniqueKeepsDistinct | directory/dirauthentik/helpers.go:77-87 | appending keeps a list free of empty entries and of entries equal up to case, keeps every entry already there, adds a non-empty entry unless present up to case, and adds nothing else |
| AuthentikHelpers.AppendUniqueScan | directory/dirauthentik/helpers.go:77-87 | the loop leaves the list unchanged for an empty entry or one already present up to case, else appends the entry at the end |
| AuthentikHelpers.UserExternalIDs | directory/dirauthentik/helpers.go:89-100 | the external IDs hold no empty entry and no two equal up to case, at most three, the e-mail address first when set; every one of e-mail, username and UID that is set is present up to case and nothing else is; a user with none of them has the immutable ID alone, if it is not empty |
| AuthentikHelpers.ExternalIDsClean | directory/dirauthentik/helpers.go:89-100 | the steps of the external-ID list keep it free of empty and case-duplicate entries, with the e-mail address first |
| AuthentikHelpers.ExternalIDsCover | directory/dirauthentik/helpers.go:91-95 | the UID, skipped when it equals the e-mail address or username up to case, is still present up to case |
| AuthentikHelpers.ExternalIDsFrom | directory/dirauthentik/helpers.go:96-98 | the immutable ID is used only when e-mail, username and UID contribute nothing |
| AuthentikGetAccount.Queries | directory/dirauthentik/get_account.go:30-45 | the listings are by UUID when the reference has an immutable ID, then by e-mail and by username when it has an ID; only the UUID listing of a numeric immutable ID may fall back to a primary-key lookup |
| AuthentikGetAccount.GroupsOfShape | directory/dirauthentik/get_account.go:95-109 | each kept group has a non-empty immutable ID and the kind `group` |
| AuthentikGetAccount.GroupsOfExactly | directory/dirauthentik/get_account.go:95-109 | exactly the groups with a primary key or a name are kept, each named by its primary key, falling back to its name |
| AuthentikGetAccount.GroupsOfKeepOrder | directory/dirauthentik/get_account.go:96-109 | the groups keep the user's order |
| AuthentikGetAccount.CollectGroups | directory/dirauthentik/get_account.go:95-109 | the loop computes exactly those groups |
| AuthentikGetAccount.AccountFromUser | directory/dirauthentik/get_account.go:94-119 | the account carries the user's immutable ID, external IDs, display name and parsed time, and its group list is always present |
| AuthentikGetAccount.AccountsFrom | directory/dirauthentik/get_account.go:59-60 | the candidate accounts are the users' accounts, one for one, in order |
| AuthentikGetAccount.IDsOfAppend | directory/dirauthentik/get_account.go:64-68 | the seen set after adding an account is the old set with its immutable ID |
| AuthentikGetAccount.AddAccountKeeps | directory/dirauthentik/get_account.go:60-68 | one merge step appends the account or leaves the list unchanged, keeps the list free of repeated and empty immutable IDs, and records a non-empty ID as seen |
| AuthentikGetAccount.AddAllKeeps | directory/dirauthentik/get_account.go:59-69 | merging keeps the accounts already held in front, never repeats an immutable ID or keeps an empty one, and ends with every non-empty immutable ID found |
| AuthentikGetAccount.NonEmptyIDsCons | directory/dirauthentik/get_account.go:59-69 | the non-empty IDs of a list are those of its tail and of its head when non-empty |
| AuthentikGetAccount.AddAllKeepsFirst | directory/dirauthentik/get_account.go:59-69 | every account merged in is the first candidate carrying its immutable ID: the first occurrence wins |
| AuthentikGetAccount.MergeUsers | directory/dirauthentik/get_account.go:59-69 | the inner loop merges the listing's accounts as above, and `seen` stays the set of immutable IDs held |
| AuthentikGetAccount.GetAccount | directory/dirauthentik/get_account.go:29-87 | the answer and the requests sent are those of running the listings in order: each listing's pages followed, its users merged, a primary-key lookup after an empty fallback-allowed listing, and the first failure returned |
| AuthentikGetAccount.EmptyRefSendsNothing | directory/dirauthentik/get_account.go:47-49 | a reference with neither immutable ID nor ID answers an empty list and sends nothing |
| AuthentikGetAccount.RunQueriesDistinct | directory/dirauthentik/get_account.go:51-84 | the accounts returned never share an immutable ID, never have an empty one, and start with those held before |
| AuthentikGetAccount.PageRequestsList | directory/dirauthentik/dirauthentik.go:233-251 | every request a listing sends is a GET of `core/users/` |
| AuthentikGetAccount.OnlyListings | directory/dirauthentik/get_account.go:71-83 | without a listing that may fall back, every request sent is a GET of `core/users/`: no primary-key lookup |
| AuthentikGetAccount.NoLookupWithoutNumericID | directory/dirauthentik/get_account.go:35-83 | a reference whose immutable ID is absent or not numeric is never looked up by primary key |
| AuthentikListAccounts.PageCursor | directory/dirauthentik/list_accounts.go:30-40 | no cursor selects page 1; a cursor is accepted exactly when it parses as an integer of at least 1, and selects that page; one that does not parse fails wrapping the parse error, one below 1 fails quoting the cursor |
| AuthentikListAccounts.NextCursor | directory/dirauthentik/list_accounts.go:72-75 | a next cursor is handed out exactly when the server points at a positive next page |
| AuthentikListAccounts.NextCursorRoundTrip | directory/dirauthentik/list_accounts.go:30-40 | every cursor handed out is accepted back and selects the page it names |
| AuthentikListAccounts.ListQuery | directory/dirauthentik/list_accounts.go:42-48 | the listing asks for the page, ordered by last update, without groups, and changed strictly after UpdatedAfter exactly when that is given |
| AuthentikListAccounts.ListedAccountsShape | directory/dirauthentik/list_accounts.go:55-69 | every listed account has an immutable ID and no groups |
| AuthentikListAccounts.ListedAccountsExactly | directory/dirauthentik/list_accounts.go:56-60 | every user with an immutable ID is listed and nothing else is |
| AuthentikListAccounts.ListedAccountsKeepOrder | directory/dirauthentik/list_accounts.go:56-69 | the accounts keep the order of the users |
| AuthentikListAccounts.CollectAccounts | directory/dirauthentik/list_accounts.go:55-69 | the loop computes exactly those accounts |
| AuthentikListAccounts.ListAccounts | directory/dirauthentik/list_accounts.go:29-78 | a bad cursor fails before anything is sent; otherwise one listing is sent, its failure returned, and the answer is the listed accounts and the next cursor |
| AuthentikListGroups.GroupQuery | directory/dirauthentik/list_groups.go:40-48 | the listing asks for the page ordered by name, and searches exactly when a prefix is given |
| AuthentikListGroups.ListedGroupsExactly | directory/dirauthentik/list_groups.go:56-73 | exactly the groups whose name matches the prefix ignoring case and which carry a primary key or a name are listed, each with a non-empty immutable ID and the kind `group` |
| AuthentikListGroups.NameMatchesIgnoresCase | directory/dirauthentik/list_groups.go:56-60 | names or prefixes equal up to case are kept or dropped together |
| AuthentikListGroups.NoPrefixListsAll | directory/dirauthentik/list_groups.go:58 | without a prefix every group with a primary key or a name is listed |
| AuthentikListGroups.ListedGroupsKeepOrder | directory/dirauthentik/list_groups.go:57-73 | the groups keep the server's order |
| AuthentikListGroups.CollectListedGroups | directory/dirauthentik/list_groups.go:55-73 | the loop computes exactly those groups |
| AuthentikListGroups.ListGroups | directory/dirauthentik/list_groups.go:27-82 | a bad cursor fails before anything is sent; otherwise one listing is sent, its failure returned, and the answer is the filtered groups and the next cursor; MaxCount plays no part |
| AuthentikOpMfa.SegmentOf | directory/dirauthentik/op_mfa.go:91-122 | a type selects an endpoint exactly when it is one of the known device types, and the endpoint is one of totp, webauthn, sms, email, static, duo or endpoint |
| AuthentikOpMfa.DeviceTypeSegment | directory/dirauthentik/op_mfa.go:85-90 | the type read is Type lower-cased and trimmed, or MetaModelName the same way when Type is blank, and any endpoint found is one of the seven |
| AuthentikOpMfa.DeviceTypeSegmentIgnoresCase | directory/dirauthentik/op_mfa.go:85-90 | devices whose types and model names agree up to case and surrounding white space get the same endpoint |
| AuthentikOpMfa.DeviceDeletePath | directory/dirauthentik/op_mfa.go:74-83 | a device without primary key fails as missing its identifier; an unsupported type fails quoting it; otherwise the path is `authenticators/admin/<segment>/<pk>/` |
| AuthentikOpMfa.DevicePaths | directory/dirauthentik/op_mfa.go:50-54 | each device's delete path, in device order |
| AuthentikOpMfa.RemoveAllSendsAtMostOnePerDevice | directory/dirauthentik/op_mfa.go:50-58 | deleting sends only DELETEs, at most one per device |
| AuthentikOpMfa.RemoveAllDeletesEachDevice | directory/dirauthentik/op_mfa.go:50-58 | when every deletion succeeds, every device had a path and exactly one DELETE went to each, in device order |
| AuthentikOpMfa.RemoveAllStep | directory/dirauthentik/op_mfa.go:50-58 | a failing device or DELETE ends the deletions with its error; otherwise the DELETE is sent and the rest follow |
| AuthentikOpMfa.DeleteDevices | directory/dirauthentik/op_mfa.go:50-58 | the loop answers the first failure, and its requests are one DELETE per device up to it, earlier deletions standing |
| AuthentikOpMfa.RemoveAllMfa | directory/dirauthentik/op_mfa.go:29-61 | a lookup or device-listing failure is returned; no device fails with UnsupportedAccountState and "no MFA factors to remove", even in a dry run; a dry run then succeeds, and in every dry run the number of DELETEs sent is unchanged; otherwise the devices are deleted in order and the first failure is returned |
| ByidConv.AccountOf | directory/dirbyid/conv.go:8-14 | an identity's account carries its ID and display name, and its user name then e-mail address as external IDs even when empty; no groups and no times |
| ByidConv.GroupOf | directory/dirbyid/conv.go:16-22 | a group keeps its ID and display name, and its type becomes its kind |
| ByidConv.GroupsOf | directory/dirbyid/get_account.go:84-87 | the groups of a page are converted one for one, in order |
| ByidConv.GroupsOfAppend | directory/dirbyid/get_account.go:84-87 | converting pages one after the other is converting their concatenation |
| ByidGetAccount.IdentityFilter | directory/dirbyid/get_account.go:49-54 | the search by user name uses `username eq` on API version v0 and `traits.username eq` otherwise, followed by the quoted ID |
| ByidGetAccount.IdentitiesKeepOrder | directory/dirbyid/get_account.go:56-69 | the identities of the pages come in page order, after those already read |
| ByidGetAccount.GroupsKeepOrder | directory/dirbyid/get_account.go:77-100 | an identity's groups come in page order, after those already read |
| ByidGetAccount.WithGroups | directory/dirbyid/get_account.go:75-89 | the account of an identity with groups is its converted account carrying exactly those groups |
| ByidGetAccount.EntryGroupsAppend | directory/dirbyid/get_account.go:89-91 | the groups carried by a list of accounts with one more are those of the list followed by its groups |
| ByidGetAccount.EntriesSplitGroups | directory/dirbyid/get_account.go:77-100 | as written, an identity yields at least one account, every one describing the identity, and together they carry exactly the identity's groups; the written and the corrected loops fail alike |
| ByidGetAccount.EntriesOnePerPage | directory/dirbyid/get_account.go:77-100 | as written, an identity yields exactly one account per page of its groups, the k-th carrying only the k-th page's groups, after the accounts already collected; it fails or runs out exactly when reading the pages does |
| ByidGetAccount.MergedOnePerIdentity | directory/dirbyid/get_account.go:72-101 | as intended, one account per identity, in order, each with all of the identity's groups |
| ByidGetAccount.AsWrittenSplitsGroups | directory/dirbyid/get_account.go:89-91 | an identity with two pages of one group each gets two accounts with one group each as written, and one account with both groups as intended |
| ByidGetAccount.GetAccountResult | directory/dirbyid/get_account.go:31-106 | a reference with neither ID panics, and only it; with an immutable ID the identity is fetched, its failure returned, and its account answered with all its groups; with only an ID the identities named by the user-name search are answered, one account each |
| ByidGetAccount.AsWrittenNeverSearches | directory/dirbyid/get_account.go:34-35 | as written, a reference with only an ID panics in the logging before any search, while the corrected code answers it |
| ByidGetAccount.GetAccount | directory/dirbyid/get_account.go:31-106 | the loops compute exactly the corrected answer above, changing nothing |
| LdapClient.AttributeValue | directory/dirldap/list_accounts.go:87-97 | an attribute's value is its first value, and "" when the entry has none |
| LdapClient.EntryCount | directory/dirldap/op_unlock.go:55-56 | a nil entry list counts as zero entries, any other as its length |
| LdapClient.SingleEntry | directory/dirldap/op_unlock.go:55-59 | the user entry is found exactly when the search gave one entry; otherwise the error names the count, zero for a nil result |
| LdapClient.SingleEntryAsWrittenPanicsOnNil | directory/dirldap/op_password.go:61-65 | the check as written lets a nil result through to the indexing, which panics on exactly that result; on every other result it agrees with the corrected check |
| LdapClient.Client.constructor | directory/dirldap/dirldap.go:39-44 | a fresh client has answered no search and no modification |
| LdapClient.Client.Search | directory/dirldap/dirldap.go:56-59 | a search gets the server's answer and is recorded after the earlier ones; no modification is made |
| LdapClient.Client.Modify | directory/dirldap/dirldap.go:61-64 | a modification gets the server's answer and is recorded after the earlier ones; no search is made |
| LdapListAccounts.FilterTime | directory/dirldap/list_accounts.go:45-51 | a time read out of a filter is exactly what sits between the modified-since filter's fixed prefix and suffix |
| LdapListAccounts.UserFilterRoundTrip | directory/dirldap/list_accounts.go:45-51 | the filter asks for changes since exactly the formatted `UpdatedAfter` time, and for no time without one |
| LdapListAccounts.CursorCookie | directory/dirldap/list_accounts.go:56-64 | no cursor starts from the empty cookie; a cursor is accepted exactly when it is valid base64, and then carries its decoding; a bad one fails with "invalid cursor" |
| LdapListAccounts.FirstPaging | directory/dirldap/list_accounts.go:105-111 | the cookie comes from a paged-results control among the response's controls, and there is none exactly when no control is one |
| LdapListAccounts.FirstPagingSkips | directory/dirldap/list_accounts.go:105-111 | controls before the first paged-results control do not change which cookie is used |
| LdapListAccounts.NextCursorOf | directory/dirldap/list_accounts.go:105-112 | there is a next cursor exactly when the first paging control carries a non-empty cookie |
| LdapListAccounts.NextCursorRoundTrip | directory/dirldap/list_accounts.go:57-64 | every next cursor handed out is accepted back and gives the server's cookie unchanged |
| LdapListAccounts.FindNextCursor | directory/dirldap/list_accounts.go:104-112 | the loop over the controls, stopping at the first paging control, yields the next cursor defined above |
| LdapListAccounts.ExternalIDs | directory/dirldap/list_accounts.go:86-92 | the external IDs are the e-mail address then the user name, each only when not empty |
| LdapListAccounts.AccountOf | directory/dirldap/list_accounts.go:93-99 | an account takes its immutable ID from `entryUUID`, its name from `cn`, its update time from the parsed `modifyTimestamp`, and has no groups |
| LdapListAccounts.CollectAccounts | directory/dirldap/list_accounts.go:84-102 | one account per entry, in the entries' order |
| LdapListAccounts.ListAccounts | directory/dirldap/list_accounts.go:31-115 | a client or cursor failure answers before any search; otherwise exactly one search with the page size, the filter and the cookie; a search error is wrapped as "error fetching users"; nothing is ever modified |
| LdapListGroups.PrefixOf | directory/dirldap/list_groups.go:35-38 | the name prefix is the request's, or "" without one |
| LdapListGroups.FilterPrefix | directory/dirldap/list_groups.go:59 | a prefix read out of a filter is exactly what sits between the group filter's fixed parts |
| LdapListGroups.GroupFilterRoundTrip | directory/dirldap/list_groups.go:59 | the group filter carries the name prefix unchanged |
| LdapListGroups.GroupOf | directory/dirldap/list_groups.go:72-76 | a group takes its immutable ID from `entryUUID`, its name from the `dn` attribute, and has kind `group` |
| LdapListGroups.ListGroupsResult | directory/dirldap/list_groups.go:29-92 | the client's or the cursor's error first; a search error names the prefix searched for; otherwise one group per entry, in order, with the next cursor of the response controls |
| LdapListGroups.AsWrittenPanicsOnlyWithoutPrefix | directory/dirldap/list_groups.go:64-67 | as written, the listing panics exactly when a search made without a prefix fails, and otherwise answers what the corrected listing answers |
| LdapListGroups.AsWrittenPanicsOnFailedSearch | directory/dirldap/list_groups.go:64-67 | a concrete request that panics as written: no prefix, no cursor, and a failing search |
| LdapListGroups.CollectGroups | directory/dirldap/list_groups.go:69-78 | one group per entry, in the entries' order |
| LdapListGroups.ListGroups | directory/dirldap/list_groups.go:29-92 | the corrected listing answers `ListGroupsResult`, searches once unless the client or cursor fails first, and never modifies |
| LdapOpPassword.PolicyDN | directory/dirldap/op_password.go:68-76 | the policy is the user's own when it has one, else the configured default; there is none exactly when both are empty |
| LdapOpPassword.MinLengthOf | directory/dirldap/op_password.go:102-115 | a policy search gives a minimum length only from exactly one entry with a decimal `pwdMinLength`; each other case has its own error |
| LdapOpPassword.MinLength | directory/dirldap/op_password.go:66-116 | the minimum length is 6 without a policy; otherwise the policy entry's, and a failed policy search is wrapped as "failed to fetch password policy" |
| LdapOpPassword.PolicySearches | directory/dirldap/op_password.go:71-97 | at most one policy search is made for a user entry |
| LdapOpPassword.UserEntry | directory/dirldap/op_password.go:56-65 | a failed user search is wrapped as "failed to fetch user"; otherwise the single-entry check decides |
| LdapOpPassword.PasswordResult | directory/dirldap/op_password.go:56-148 | a password is handed out only when the entry was found, its minimum length read, a password of that length generated and the modification accepted, and it is the generated password |
| LdapOpPassword.PasswordModifications | directory/dirldap/op_password.go:118-140 | at most one modification is sent |
| LdapOpPassword.PasswordMatchesModification | directory/dirldap/op_password.go:119-147 | the password handed out is the one the single modification set on the user's entry, together with the reset flag |
| LdapOpPassword.BadPolicyModifiesNothing | directory/dirldap/op_password.go:97-115 | a policy that cannot be read stops the operation before anything is modified |
| LdapOpPassword.NoPolicyDefaultLength | directory/dirldap/op_password.go:71-72 | without any policy the length is six and no policy search is made |
| LdapOpPassword.PerformTemporaryPassword | directory/dirldap/op_password.go:32-149 | a client failure or a dry run answers without searching or modifying; otherwise the answer is `PasswordResult`, after the user search, the policy search when a policy applies, and at most one modification |
| LdapOpUnlock.LockedEntry | directory/dirldap/op_unlock.go:30-66 | the entry to unlock, or the client's error, the wrapped search error, the count error, or "account is not locked" with the unsupported-state code; an entry found always carries a lock time |
| LdapOpUnlock.UnlockResult | directory/dirldap/op_unlock.go:68-90 | a dry run stops once the entry is known to be locked; otherwise the modification's error is wrapped as "failed to unlock account"; success is the empty response |
| LdapOpUnlock.UnlockModifications | directory/dirldap/op_unlock.go:72-85 | exactly one modification, deleting the lock time under the password policy control, when the entry is locked and this is no dry run; none otherwise |
| LdapOpUnlock.NotLockedIgnoresDryRun | directory/dirldap/op_unlock.go:61-70 | an account that is not locked is refused the same way with or without a dry run, and nothing is modified |
| LdapOpUnlock.SuccessModifiedOnce | directory/dirldap/op_unlock.go:85-90 | a successful unlock that was no dry run sent exactly one modification |
| LdapOpUnlock.PerformUnlock | directory/dirldap/op_unlock.go:29-91 | the operation answers `UnlockResult`, searches once unless the client fails, and sends exactly the modifications above |
| OktaClient.StringField | directory/dirokta/list_accounts.go:112-113 | a profile field read as a string is its string value, and "" when the field is absent or holds anything else |
| OktaClient.Raw | directory/dirokta/op_unlock.go:31-34 | an SDK failure passed on unfiltered: another error stays itself, an API error is the SDK's own text |
| OktaClient.Client.constructor | directory/dirokta/dirokta.go:57-60 | a fresh client has made no change in Okta |
| OktaClient.Client.UnlockUser | directory/dirokta/op_unlock.go:45 | an unlock gets the server's answer and is recorded after the earlier changes |
| OktaClient.Client.ResetFactors | directory/dirokta/op_mfa.go:47 | a factor reset gets the server's answer and is recorded after the earlier changes |
| OktaClient.Client.ResetPassword | directory/dirokta/op_password.go:35-36 | a password reset gets the server's URL and is recorded, with its e-mail flag, after the earlier changes |
| OktaFilter.CauseSummariesExactly | directory/dirokta/op.go:47-51 | a cause contributes exactly when it holds a string summary, and never more than one summary |
| OktaFilter.CauseSummariesKeepOrder | directory/dirokta/op.go:47-51 | the summaries of two runs of causes are those of the first run followed by those of the second |
| OktaFilter.Filtered | directory/dirokta/op.go:42-58 | an API error with a summary becomes a plain error; every other error is returned unchanged; filtering never adds or removes an error code |
| OktaFilter.JoinSuffixes | directory/dirokta/op.go:54 | joining with ": " is the first part followed by ": " and each later part |
| OktaFilter.FilteredText | directory/dirokta/op.go:43-54 | a filtered API error reads as its summary, then ": " and each cause's string summary, in order |
| OktaFilter.AsWrittenAgreesOnStrings | directory/dirokta/op.go:48-50 | the cause loop as written completes exactly when every `errorSummary` present is a string, and then yields what the corrected loop yields |
| OktaFilter.AsWrittenPanicsOnNumericSummary | directory/dirokta/op.go:49 | a concrete API error whose only cause has a numeric summary panics as written and filters to its bare summary when corrected |
| OktaFilter.FilterAPIError | directory/dirokta/op.go:42-58 | the loop over the causes yields the filtered error defined above |
| OktaOp.OperationResult | directory/dirokta/op.go:29-40 | GetPasswordLink, RemoveAllMFA and Unlock are answered by their handlers; any other operation is unsupported, without a code |
| OktaOp.OperationMutations | directory/dirokta/op.go:29-40 | an operation changes Okta at most once, and only for the requested user |
| OktaOp.DryRunChangesNothing | directory/dirokta/op_unlock.go:41-43 | a dry run changes nothing in Okta, whatever the operation |
| OktaOp.SuccessChangesOnce | directory/dirokta/op.go:30-36 | a successful request that is no dry run changed the requested user exactly once |
| OktaOp.PerformOperation | directory/dirokta/op.go:29-40 | the dispatch answers `OperationResult` and makes exactly the handler's changes |
| OktaOpUnlock.LockedUser | directory/dirokta/op_unlock.go:27-40 | the user to unlock, or the client's error, the unfiltered lookup error, or "account is not locked" with the unsupported-state code; a user found is always locked out |
| OktaOpUnlock.UnlockResult | directory/dirokta/op_unlock.go:41-48 | a dry run stops once the user is known to be locked out; otherwise the unlock's error is filtered; success is the empty response |
| OktaOpUnlock.UnlockMutations | directory/dirokta/op_unlock.go:41-45 | exactly one unlock of the requested user when that user is locked out and this is no dry run; none otherwise |
| OktaOpUnlock.NotLockedIgnoresDryRun | directory/dirokta/op_unlock.go:35-43 | a user that is not locked out is refused the same way with or without a dry run, and nothing is changed |
| OktaOpUnlock.PerformUnlock | directory/dirokta/op_unlock.go:26-49 | the operation answers `UnlockResult` and makes exactly the changes above |
| OktaOpMfa.MfaResult | directory/dirokta/op_mfa.go:26-52 | a dry run refuses a user without factors and passes listing errors unfiltered; a real run resets without listing, its error filtered; success is the empty response |
| OktaOpMfa.MfaMutations | directory/dirokta/op_mfa.go:32-47 | exactly one factor reset of the requested user when a client is at hand and this is no dry run |
| OktaOpMfa.DryRunOnlyLists | directory/dirokta/op_mfa.go:32-48 | a dry run's answer depends only on the factor listing, a real run's only on the reset |
| OktaOpMfa.PerformRemoveAllMfa | directory/dirokta/op_mfa.go:26-52 | the operation answers `MfaResult` and makes exactly the changes above |
| OktaOpPassword.PasswordLinkResult | directory/dirokta/op_password.go:26-44 | a client failure comes before the dry-run check; a dry run answers empty; otherwise the reset URL is the password link, or the reset's error filtered; no temporary password is ever given |
| OktaOpPassword.PasswordMutations | directory/dirokta/op_password.go:31-36 | exactly one password reset of the requested user, never e-mailed, when a client is at hand and this is no dry run |
| OktaOpPassword.LinkOnlyFromReset | directory/dirokta/op_password.go:35-43 | a link is answered exactly when a reset was made and succeeded, and it is the URL that reset returned |
| OktaOpPassword.PerformGetPasswordLink | directory/dirokta/op_password.go:26-44 | the operation answers `PasswordLinkResult` and makes exactly the changes above |
| OktaListAccounts.FieldValues | directory/dirokta/list_accounts.go:97-98 | one value per field, each the field's string value or "" |
| OktaListAccounts.ExternalIDsExactly | directory/dirokta/list_accounts.go:93-105 | at most three external IDs, none empty, exactly the non-empty string values of login, e-mail and second e-mail; none without a profile |
| OktaListAccounts.ExternalIDsInOrder | directory/dirokta/list_accounts.go:97 | with all three fields set the IDs are login, e-mail, second e-mail, in that order |
| OktaListAccounts.CollectExternalIDs | directory/dirokta/list_accounts.go:93-105 | the loop over the three fields yields the external IDs defined above |
| OktaListAccounts.FieldValuesSnoc | directory/dirokta/list_accounts.go:97-98 | reading one more field appends its value |
| OktaListAccounts.DisplayName | directory/dirokta/list_accounts.go:107-115 | the display name is "" without a profile and never starts or ends with white space |
| OktaListAccounts.NoNamesNoDisplayName | directory/dirokta/list_accounts.go:112-114 | a profile with neither name has the empty display name |
| OktaListAccounts.BirthDate | directory/dirokta/list_accounts.go:66-72 | the birth date is set exactly when the profile's `birthdate` is a string, and is that string |
| OktaListAccounts.ListedAccount | directory/dirokta/list_accounts.go:60-72 | a listed account has the user's ID, external IDs, display name, update time and birth date, and no groups |
| OktaListAccounts.CollectAccounts | directory/dirokta/list_accounts.go:59-75 | one account per user, in the users' order |
| OktaListAccounts.ListQuery | directory/dirokta/list_accounts.go:42-52 | 250 users a page, a `lastUpdated gt` filter exactly when `UpdatedAfter` is given, and the request cursor as `after` |
| OktaListAccounts.NextCursor | directory/dirokta/list_accounts.go:77-88 | no next page gives no cursor; a next page gives a non-empty cursor that is its `after` parameter, or an error for a bad URL or a missing `after` |
| OktaListAccounts.NextCursorRoundTrip | directory/dirokta/list_accounts.go:82-87 | a cursor handed out is sent back as the `after` of the next page's URL |
| OktaListAccounts.ListAccountsResult | directory/dirokta/list_accounts.go:34-91 | the client's error unwrapped, a listing error wrapped as "okta: failed to list users"; after a successful listing, the next-page URL's error as it is, or else success with one account per user, in order, and the next cursor |
| OktaListAccounts.ListAccounts | directory/dirokta/list_accounts.go:34-91 | the listing answers `ListAccountsResult` |
| OktaGetAccount.SearchClauses | directory/dirokta/get_account.go:40-48 | the immutable ID gives an `id` clause placed first; the ID gives login, e-mail and second e-mail clauses, in that order |
| OktaGetAccount.SearchQuery | directory/dirokta/get_account.go:50-57 | 250 users a page, searched for by the clauses joined with " or " |
| OktaGetAccount.SearchByImmutableIDOnly | directory/dirokta/get_account.go:41-43 | a reference with only an immutable ID searches for that ID alone |
| OktaGetAccount.SearchByIDOnly | directory/dirokta/get_account.go:44-50 | a reference with only an ID matches it against the three profile fields, joined with " or " |
| OktaGetAccount.UsersFromReadsEveryPage | directory/dirokta/get_account.go:61-69 | the corrected paging loop yields the first page's users followed by those of every later page, in page order, and fails exactly when a page fails |
| OktaGetAccount.AsWrittenKeepsLastPage | directory/dirokta/get_account.go:62-69 | the loop as written keeps only the users of the last page read |
| OktaGetAccount.AsWrittenDropsFirstPage | directory/dirokta/get_account.go:62-69 | two pages of one user each: as written only the second user is kept, where both are meant |
| OktaGetAccount.GroupOf | directory/dirokta/get_account.go:79-85 | a group has the Okta group's ID, its profile's name ("" without a profile) and kind `group` |
| OktaGetAccount.AccountWithGroups | directory/dirokta/get_account.go:86-91 | an account has the user's ID, external IDs and display name, and one group per listed group, in order; no update time or birth date |
| OktaGetAccount.AccountsOfExactly | directory/dirokta/get_account.go:73-92 | the accounts are found exactly when every user's groups are listed, and then there is one account per user, in order |
| OktaGetAccount.AccountsOfFirstFailure | directory/dirokta/get_account.go:74-77 | a failing group listing stops at the first user whose groups cannot be listed, wrapped as "okta: failed to list groups for user" |
| OktaGetAccount.CollectAccounts | directory/dirokta/get_account.go:71-92 | the loop over the users answers the accounts defined above |
| OktaGetAccount.AfterNothing | directory/dirokta/get_account.go:71 | nothing collected before leaves the answer unchanged |
| OktaGetAccount.AfterAfter | directory/dirokta/get_account.go:86 | collecting in two steps is collecting the two runs together |
| OktaGetAccount.AccountsOfFrom | directory/dirokta/get_account.go:73-77 | from any user on, that user either fails the listing or gives its account in front of the rest |
| OktaGetAccount.GetAccountResult | directory/dirokta/get_account.go:34-94 | the client's error; a failed search wrapped as "okta: failed to list users"; otherwise the accounts of the users of every page |
| OktaGetAccount.AsWrittenAgreesOnOnePage | directory/dirokta/get_account.go:53-69 | when the search fits on one page the code as written and the corrected one agree |
| OktaGetAccount.GetAccount | directory/dirokta/get_account.go:34-94 | the method answers `GetAccountResult` and changes nothing in Okta |
| Text.TrimLeft | directory/dirauthentik/dirauthentik.go:66 | the result is a suffix of the input, everything dropped is white space, and it does not start with white space |
| Text.TrimRight | directory/dirauthentik/dirauthentik.go:66 | the result is a prefix of the input, everything dropped is white space, and it does not end with white space |
| Text.TrimSpace | directory/dirauthentik/dirauthentik.go:66 | `strings.TrimSpace`: the result neither starts nor ends with white space and is no longer than the input |
| Text.TrimSpaceEmpty | directory/dirauthentik/dirauthentik.go:66-72 | a text trims to nothing exactly when it is all white space, which is what the blank-setting checks test |
| Text.TrimSpaceNoop | directory/dirauthentik/dirauthentik.go:163 | a text that neither starts nor ends with white space is its own trim |
| Text.TrimSpaceIdempotent | directory/dirauthentik/dirauthentik.go:163-165 | trimming twice trims nothing more |
| Text.ToLower | directory/dirauthentik/list_groups.go:56-58 | lower-casing keeps the length and lowers each character on its own |
| Text.ToLowerConcat | directory/dirauthentik/dirauthentik.go:164 | lower-casing a concatenation lowers each part |
| Text.TrimSuffix | directory/dirauthentik/dirauthentik.go:101 | `strings.TrimSuffix`: with the suffix present the result followed by it is the input; without it the input is unchanged |
| Text.Repeat | internal/diragent/diragent.go:165 | `strings.Repeat`: n copies make n times the length and hold only characters of the repeated text |
| Text.Join | directory/dirokta/op.go:54 | `strings.Join`: no parts join to the empty text, one part to itself |
| Text.JoinAppend | directory/dirokta/op.go:54 | one more part is joined by appending the separator and the part, so the parts appear in order, each pair separated by the separator |
| Text.DoubleQuotes | directory/dirad/adclient/group.go:50 | doubling the single quotes never shortens a text |
| Text.DoubleQuotesKeepsOthers | directory/dirad/adclient/group.go:50-51 | the escaping changes single quotes only: a double quote or a `$` is in the escaped prefix exactly when it is in the prefix, so it reaches the double-quoted `-Filter` argument as is |
| Text.UndoubleDoubleQuotes | directory/dirad/adclient/password.go:64 | quote doubling loses nothing: the original text is read back from the escaped one |
| Text.NatDigits | directory/dirauthentik/helpers.go:59 | the decimal digits of a number are a non-empty run of digits |
| Text.Atoi | directory/dirldap/op_password.go:112 | `strconv.Atoi` refuses the empty text, and every number it reads fits in Go's 64-bit `int` |
| Text.AtoiRefusesOnlyOutOfRange | directory/dirauthentik/list_accounts.go:32 | a text Atoi reads has the syntax of a number, and a refused text with that syntax is out of range |
| Text.NatDigitsValue | directory/dirauthentik/helpers.go:59 | the digits printed for a number have that number as their value |
| Text.AtoiItoa | directory/dirauthentik/list_accounts.go:32-36 | every number `strconv.Itoa` prints is read back by `strconv.Atoi` as the same number |
| Text.Utf8Len | internal/diragent/diragent.go:165 | Go's byte length of a text is between one and four bytes per character |
| Text.LessIrreflexive | directory/dirad/adclient/user.go:114-116 | no key sorts before itself |
| Text.LessTransitive | directory/dirad/adclient/group.go:71-73 | the string order is transitive |
| Text.LessTotal | directory/dirad/adclient/user.go:114-116 | any two different keys are ordered one way or the other |
| Text.NonEmpty | directory/dirokta/list_accounts.go:97-101 | exactly the non-empty texts are kept, and no more of them than there were |
| Text.NonEmptyAppend | directory/dirldap/list_accounts.go:86-92 | appending one text appends it to the kept texts exactly when it is not empty |
| Base64.Char | directory/dirldap/list_accounts.go:108 | an alphabet character is never the padding character or a line break |
| Base64.ValueChar | directory/dirldap/list_accounts.go:58 | each of the 64 values is read back from its character |
| Base64.Encode | directory/dirldap/list_accounts.go:108 | the encoding has a length that is a multiple of four, is empty exactly for no bytes, and holds no line breaks |
| Base64.StripNewlines | directory/dirldap/list_accounts.go:58 | the text the decoder reads holds no line breaks |
| Base64.GroupArithmetic | directory/dirldap/list_accounts.go:58 | the four sextets of three bytes give back the three bytes |
| Base64.GroupRoundTrip | directory/dirldap/list_accounts.go:58 | a full group of three bytes is decoded back to those bytes, whether it is the last group or not |
| Base64.StripNewlinesNone | directory/dirldap/list_accounts.go:58 | a text without line breaks is read as it is |
| Base64.OneByteRoundTrip | directory/dirldap/list_groups.go:44 | one trailing byte, written with `==` padding, is decoded back |
| Base64.TwoBytesRoundTrip | directory/dirldap/list_groups.go:44 | two trailing bytes, written with `=` padding, are decoded back |
| Base64.DecodeGroupsSingle | directory/dirldap/list_groups.go:44 | a text of one group decodes as that group read as the last one |
| Base64.DecodeGroupsCons | directory/dirldap/list_groups.go:44 | a full group followed by more groups decodes group by group |
| Base64.EncodeOneRoundTrip | directory/dirldap/list_groups.go:44 | the encoding of a single byte decodes back to it |
| Base64.EncodeTwoRoundTrip | directory/dirldap/list_groups.go:44 | the encoding of two bytes decodes back to them |
| Base64.SplitThree | directory/dirldap/list_groups.go:85 | bytes are their first three followed by the rest |
| Base64.DecodeGroupsEncode | directory/dirldap/list_accounts.go:58 | the groups of every encoding decode back to the encoded bytes |
| Base64.DecodeEncode | directory/dirldap/list_accounts.go:105-112 | every paging cookie put into a cursor comes back out of it unchanged |
| Api.CodeText | directory/provider.go:54-56 | every error code prints as a non-empty text |
| Api.OperationText | directory/dirokta/op.go:38 | an unknown operation prints as its own name, a known one as a non-empty text |
| Api.ErrorOnly | internal/diragent/worker.go:49-55 | an error response carries the given code and message and no data field |
| Api.DataCount | internal/diragent/worker.go:63-108 | at most five data fields, and none exactly when the response carries no data |

## Left out

- `directory/dirauthentik/op.go` (the Authentik operation dispatch and `lookupUserByImmutableID`) is not part of this model. The MFA removal it calls is modelled.
- `GetADUser` (`directory/dirad/adclient/user.go`) and `directory/dirad/get_account.go` are not part of this model.
- Input and output are left out: the websocket, the worker's stdin and stdout, starting the subprocess, log lines and sleeps. Each relay session is its outcome (an error or none, its duration, and whether the outer context ended), and the consumer of an iterator is a function of what it has received so far.
- Concurrency is left out. The relay's goroutines and context cancellation become one session outcome.
- Library code is a parameter of the members that use it: `password.Generate`, `time.Parse` and `Time.Format`, `url.Parse`, Go's `%q`, JSON decoding, and the Okta SDK's `Error()` text (`sdkText`).
- The error-code and operation constants are generated code. The model prints them by their constant names.
- `strings.ToLower` and `strings.EqualFold` are modelled on the ASCII letters only. A string is a sequence of Unicode scalar values, as Go's `[]rune` sees it.
- Query values in the Authentik request log are typed (number or text), not rendered through `strconv.Itoa`.
- The Beyond Identity client is modelled read-only, because the core only reads from it.
- Okta's `ListFactors` is modelled by the number of factors it returns, which is all the dry run looks at.
- The Go documentation of `lox.Elide` promises "..." and a minimum of three characters. The code appends the one-rune "…" and raises the limit to one rune. The model follows the code.
- CliAuth.EscapeHost: a host is a sequence of characters, so a Go host string holding bytes that are not valid UTF-8 is not modelled. The parser `url.Parse` is a parameter; `ServerURLIdempotent` assumes only that it reads back a host it produced itself once that host is escaped, which Go's parser does because it unescapes `%XX` in a host.
- `internal/cli/auth.go` also builds the API configuration and client. That part is outside the model; only the server URL choice is modelled.
- Authentik.FetchUsers: following the `next` pages is bounded by a `fuel` parameter. `None` stands for a server that keeps announcing pages beyond the bound, where the source would keep asking.
- AuthentikGetAccount.GetAccount: the same `fuel` bound applies to each paged fetch.
- ByidGetAccount.GetAccount: the identity and group page loops are bounded by `fuel`, with `None` when it runs out.
- OktaGetAccount.GetAccount: the following of next-page links is bounded by `fuel`, with `None` when it runs out.
- AuthentikListAccounts.NextCursorRoundTrip: requires the next page number to fit in Go's 64-bit `int`, which the decoded pagination field always does in the source.
- The AD group listing escapes single quotes only. A `"` in the name prefix ends the double-quoted `-Filter` argument, and `$(…)` in it is expanded by PowerShell. The model builds the same command and states this limit in `Text.DoubleQuotesKeepsOthers`; it does not model how PowerShell parses the command.
- AdGroup.GetADGroups: requires a non-negative page size. A negative `MaxCount` makes the source's slice expression panic, and the model does not model that panic. Page bounds are unbounded integers, so the 64-bit wrap of `index + 1 + pageSize` for a `MaxCount` near the largest `int64` (which also panics in the source) is not modelled either: the model returns the rest of the list.
- AdGroup.GetADGroupsAsWritten: requires a non-negative page size, and leaves out the 64-bit wrap of the page end, for the same reasons.
- AdGroup.SortAndPage: requires a non-negative page size, and leaves out the 64-bit wrap of the page end, for the same reasons.
- Go slices are Dafny sequences, so a nil slice and an empty non-nil slice are both `[]`. On the wire a nil list is JSON `null` and an empty one `[]`; the model does not tell them apart. The members that answer `[]` where the source answers nil follow.
- LdapListAccounts.ListAccounts: a search with no entries answers the accounts `[]`; the source leaves `Accounts` nil (directory/dirldap/list_accounts.go:84-101), while the external IDs of an entry are a non-nil empty list there.
- OktaListAccounts.ExternalIDsExactly: a user with none of the three profile fields set has external IDs `[]`; the source returns a nil slice (directory/dirokta/list_accounts.go:93-105).
- OktaListAccounts.ExternalIDs: the specification of that list answers `[]` for the same nil slice.
- OktaListAccounts.CollectExternalIDs: the same `[]` for nil, as the loop yields `ExternalIDs`.
- OktaGetAccount.GetAccountResult: a search that matches no user answers the accounts `[]`; the source leaves them nil (directory/dirokta/get_account.go:71).
- AdPassword.AssignOutcome: requires the policy decoder to always report a minimum length. The source dereferences `MinPasswordLength` without a nil check.
- AdPassword.AssignCommands: requires the same of the policy decoder.
- AdPassword.AssignTemporaryPassword: requires the same of the policy decoder.
- DirAdOpPassword.PasswordOutcome: requires the same of the policy decoder.
- DirAdOpPassword.PasswordCommands: requires the same of the policy decoder.
- DirAdOpPassword.PerformGetTemporaryPassword: requires the same of the policy decoder.
- DirAdOp.PerformOperation: requires the same of the policy decoder.
- LoxIter.Chunk: the size is a natural number. A negative size makes the source's `make` panic, and the model does not model that panic.

## Findings

| source | as written | input that shows it | evidently intended | confidence | as-written member | corrected member |
|---|---|---|---|---|---|---|
| directory/dirad/adclient/group.go:97 | `GetADGroups` returns the whole sorted list `rv` with the cursor of the computed page | three groups, `MaxCount` 1: a cursor is handed out, but all three groups come back, and again on the next page | return the page `response` | high, not executed | AdGroup.AsWrittenRepeatsGroups | AdGroup.GetADGroups |
| directory/dirldap/op_unlock.go:55-59 | the check `Entries != nil && len(Entries) != 1` lets a nil `Entries` through to `Entries[0]`; op_password.go:61-65 does the same | a `Client` whose search returns a nil `Entries` slice: the indexing panics; the `Client` interface allows it, though the library may never return one | refuse any result without exactly one entry | low, not executed | LdapClient.SingleEntryAsWrittenPanicsOnNil | LdapClient.SingleEntry |
| directory/dirokta/op.go:49 | `es := es.(string)` is a single-value type assertion, so it panics where the two-value form would skip | an API error with a summary and one cause whose `errorSummary` is a number | skip causes whose summary is not a string | high, not executed | OktaFilter.AsWrittenPanicsOnNumericSummary | OktaFilter.FilterAPIError |
| directory/dirldap/list_groups.go:64-67 | the search error message dereferences `*req.NamePrefix`, which is nil when no prefix was given | no prefix, no cursor, and a search that fails | name the prefix searched for ("" without one) | high, not executed | LdapListGroups.AsWrittenPanicsOnFailedSearch | LdapListGroups.ListGroups |
| directory/dirokta/get_account.go:62-69 | `resp.Next(ctx, &users)` decodes each later page into `users`, replacing the users read before, and then appends the empty local `usersPage` | a search with two pages of one user each: only the second user is kept | append every page's users | high, not executed | OktaGetAccount.AsWrittenDropsFirstPage | OktaGetAccount.UsersFromReadsEveryPage |
| directory/dirbyid/get_account.go:89-91 | the account is appended once per page of its groups, each copy holding only that page's groups | an identity with two pages of one group each: two accounts with one group each | one account per identity holding all its groups | high, not executed | ByidGetAccount.AsWrittenSplitsGroups | ByidGetAccount.MergedOnePerIdentity |
| directory/dirbyid/get_account.go:34-35 | the log lines dereference both `*req.Ref.ImmutableID` and `*req.Ref.ID` before any lookup | a reference with only an ID: the first log line panics, so the search by ID is never reached | log without dereferencing nil pointers | high, not executed | ByidGetAccount.AsWrittenNeverSearches | ByidGetAccount.GetAccountResult |
