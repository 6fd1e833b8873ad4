/** `directory/dirauthentik/op_mfa.go`: removing every MFA device of an
    Authentik user, one DELETE per device, after finding the right admin
    endpoint for each device's type. */
module AuthentikOpMfa {
  import opened Wrappers
  import opened Text
  import opened Api
  import opened Directory
  import opened Authentik

  const NoFactors: string := "no MFA factors to remove"
  const MissingIdentifier: string := "authentik: device missing identifier"
  const UnsupportedType: string := "authentik: unsupported device type "
  const AdminPrefix: string := "authenticators/admin/"
  const UserKey: string := "user"

  // ---------------------------------------------------------------------
  // Device types

  const Totp: string := "totp"
  const Webauthn: string := "webauthn"
  const Sms: string := "sms"
  const Email: string := "email"
  const Static: string := "static"
  const Duo: string := "duo"
  const Endpoint: string := "endpoint"

  /** The admin endpoints a device can be deleted through. */
  const Segments: set<string> := {Totp, Webauthn, Sms, Email, Static, Duo, Endpoint}

  /** The device types that select an endpoint, compared after lower-casing
      and trimming: the bare name, the name followed by `device`, and the
      model name of each authenticator stage. */
  const SegmentTable: map<string, string> := map[
    "totp" := Totp, "totpdevice" := Totp,
    "webauthn" := Webauthn, "webauthndevice" := Webauthn,
    "sms" := Sms, "smsdevice" := Sms,
    "email" := Email, "emaildevice" := Email,
    "static" := Static, "staticdevice" := Static,
    "duo" := Duo, "duodevice" := Duo,
    "endpoint" := Endpoint, "endpointdevice" := Endpoint, "googleendpointdevice" := Endpoint,
    "authentik_stages_authenticator_totp.totpdevice" := Totp,
    "authentik_stages_authenticator_webauthn.webauthndevice" := Webauthn,
    "authentik_stages_authenticator_sms.smsdevice" := Sms,
    "authentik_stages_authenticator_email.emaildevice" := Email,
    "authentik_stages_authenticator_static.staticdevice" := Static,
    "authentik_stages_authenticator_duo.duodevice" := Duo,
    "authentik_stages_authenticator_endpoint.googleendpointdevice" := Endpoint
  ]

  /** The endpoint for a lower-cased, trimmed device type. */
  function SegmentOf(raw: string): (seg: Option<string>)
    ensures seg.Some? ==> seg.value in Segments
    ensures seg.Some? <==> raw in SegmentTable
  {
    if raw in SegmentTable then Some(SegmentTable[raw]) else None
  }

  /** The type the provider reads from a device: `Type`, lower-cased and
      trimmed, or `MetaModelName` the same way when `Type` is blank. */
  function RawType(d: ApiDevice): string {
    var t := ToLower(TrimSpace(d.deviceType));
    if t == "" then ToLower(TrimSpace(d.metaModelName)) else t
  }

  /** `deviceTypeSegment`. */
  function DeviceTypeSegment(d: ApiDevice): (seg: Option<string>)
    ensures seg.Some? ==> seg.value in Segments
    ensures TrimSpace(d.deviceType) != "" ==> seg == SegmentOf(ToLower(TrimSpace(d.deviceType)))
    ensures TrimSpace(d.deviceType) == "" ==> seg == SegmentOf(ToLower(TrimSpace(d.metaModelName)))
  {
    SegmentOf(RawType(d))
  }

  /** The type is read ignoring case and surrounding white space: two devices
      whose types (and model names) agree that way get the same endpoint. */
  lemma DeviceTypeSegmentIgnoresCase(d: ApiDevice, d': ApiDevice)
    requires EqualFold(TrimSpace(d.deviceType), TrimSpace(d'.deviceType))
    requires EqualFold(TrimSpace(d.metaModelName), TrimSpace(d'.metaModelName))
    ensures DeviceTypeSegment(d) == DeviceTypeSegment(d')
  {
  }

  /** `deviceDeletePath`: a device without a primary key, or of a type no
      endpoint serves, has no path. `quote` is Go's `%q`. */
  function DeviceDeletePath(d: ApiDevice, quote: string -> string): (r: Result<string, Error>)
    ensures d.pk == "" ==> r == Err(Plain(MissingIdentifier))
    ensures d.pk != "" && DeviceTypeSegment(d).None? ==> r == Err(Plain(UnsupportedType + quote(d.deviceType)))
    ensures r.Ok? <==> d.pk != "" && DeviceTypeSegment(d).Some?
    ensures r.Ok? ==> r.value == AdminPrefix + DeviceTypeSegment(d).value + "/" + d.pk + "/"
  {
    if d.pk == "" then Err(Plain(MissingIdentifier))
    else
      match DeviceTypeSegment(d)
      case None => Err(Plain(UnsupportedType + quote(d.deviceType)))
      case Some(seg) => Ok(AdminPrefix + seg + "/" + d.pk + "/")
  }

  // ---------------------------------------------------------------------
  // performOperationRemoveAllMfa

  /** The query of `fetchUserDevices`. */
  function DevicesQuery(pk: int): Query {
    map[UserKey := Number(pk)]
  }

  /** The delete path of each device, in device order. */
  function DevicePaths(devices: seq<ApiDevice>, quote: string -> string): (paths: seq<Result<string, Error>>)
    ensures |paths| == |devices|
    ensures forall k :: 0 <= k < |devices| ==> paths[k] == DeviceDeletePath(devices[k], quote)
  {
    seq(|devices|, k requires 0 <= k < |devices| => DeviceDeletePath(devices[k], quote))
  }

  /** What deleting a list of devices does, given each device's delete path:
      the first device without a path, or the first DELETE that fails, ends
      it with that error; the DELETEs it sent, in device order. */
  datatype Removal = Removal(err: Option<Error>, sent: seq<HttpRequest>)

  function RemoveAll(configErr: Option<CodedError>, deleteResult: string -> Option<Error>,
                     paths: seq<Result<string, Error>>): Removal
  {
    if paths == [] then Removal(None, [])
    else if paths[0].Err? then Removal(Some(paths[0].error), [])
    else
      var sent := Sent(configErr, HttpRequest.Delete(paths[0].value));
      if deleteResult(paths[0].value).Some? then Removal(deleteResult(paths[0].value), sent)
      else
        var rest := RemoveAll(configErr, deleteResult, paths[1..]);
        Removal(rest.err, sent + rest.sent)
  }

  /** Deleting sends at most one request per device, and only DELETEs. */
  lemma {:induction false} RemoveAllSendsAtMostOnePerDevice(configErr: Option<CodedError>, deleteResult: string -> Option<Error>,
                                                            paths: seq<Result<string, Error>>)
    ensures var r := RemoveAll(configErr, deleteResult, paths);
      |r.sent| <= |paths| && Deletes(r.sent) == |r.sent|
  {
    if paths != [] && paths[0].Ok? {
      var sent := Sent(configErr, HttpRequest.Delete(paths[0].value));
      assert Deletes(sent) == |sent| by {
        if configErr.None? {
          assert sent[..0] == [];
        }
      }
      if deleteResult(paths[0].value).None? {
        RemoveAllSendsAtMostOnePerDevice(configErr, deleteResult, paths[1..]);
        DeletesAppend(sent, RemoveAll(configErr, deleteResult, paths[1..]).sent);
      }
    }
  }

  /** When every deletion succeeds on a valid configuration, every device had
      a path and exactly one DELETE went to each, in device order. */
  lemma {:induction false} RemoveAllDeletesEachDevice(configErr: Option<CodedError>, deleteResult: string -> Option<Error>,
                                                      paths: seq<Result<string, Error>>)
    requires configErr.None? && RemoveAll(configErr, deleteResult, paths).err.None?
    ensures var r := RemoveAll(configErr, deleteResult, paths);
      |r.sent| == |paths|
      && forall k :: 0 <= k < |paths| ==> paths[k].Ok? && r.sent[k] == HttpRequest.Delete(paths[k].value)
  {
    if paths != [] {
      assert paths[0].Ok? && deleteResult(paths[0].value).None?;
      RemoveAllDeletesEachDevice(configErr, deleteResult, paths[1..]);
      var rest := RemoveAll(configErr, deleteResult, paths[1..]);
      var sent := [HttpRequest.Delete(paths[0].value)];
      assert RemoveAll(configErr, deleteResult, paths).sent == sent + rest.sent;
      forall k | 0 <= k < |paths|
        ensures paths[k].Ok? && (sent + rest.sent)[k] == HttpRequest.Delete(paths[k].value)
      {
        if k > 0 {
          assert paths[k] == paths[1..][k - 1];
        }
      }
    }
  }

  /** One step of `RemoveAll`, from the `i`-th device on. */
  lemma RemoveAllStep(configErr: Option<CodedError>, deleteResult: string -> Option<Error>,
                      paths: seq<Result<string, Error>>, i: nat)
    requires i < |paths|
    ensures var rest := RemoveAll(configErr, deleteResult, paths[i..]);
      if paths[i].Err? then rest == Removal(Some(paths[i].error), [])
      else if deleteResult(paths[i].value).Some? then
        rest == Removal(deleteResult(paths[i].value), Sent(configErr, HttpRequest.Delete(paths[i].value)))
      else
        var next := RemoveAll(configErr, deleteResult, paths[i + 1..]);
        rest == Removal(next.err, Sent(configErr, HttpRequest.Delete(paths[i].value)) + next.sent)
  {
    assert paths[i..][0] == paths[i] && paths[i..][1..] == paths[i + 1..];
  }

  /** The DELETE loop of `performOperationRemoveAllMfa`. */
  method DeleteDevices(s: Server, devices: seq<ApiDevice>, quote: string -> string) returns (err: Option<Error>)
    modifies s
    ensures var want := RemoveAll(s.configErr, s.deleteResult, DevicePaths(devices, quote));
      err == want.err && s.log == old(s.log) + want.sent
  {
    ghost var paths := DevicePaths(devices, quote);
    ghost var want := RemoveAll(s.configErr, s.deleteResult, paths);
    var i := 0;
    ghost var done: seq<HttpRequest> := [];
    while i < |devices|
      invariant 0 <= i <= |devices|
      invariant s.log == old(s.log) + done
      invariant want.err == RemoveAll(s.configErr, s.deleteResult, paths[i..]).err
      invariant want.sent == done + RemoveAll(s.configErr, s.deleteResult, paths[i..]).sent
    {
      var path := DeviceDeletePath(devices[i], quote);
      RemoveAllStep(s.configErr, s.deleteResult, paths, i);
      if path.Err? {
        assert done + [] == done;
        return Some(path.error);
      }
      ghost var sent := Sent(s.configErr, HttpRequest.Delete(path.value));
      var failed := s.Delete(path.value);
      Assoc(old(s.log), done, sent);
      if failed.Some? {
        return failed;
      }
      Assoc(done, sent, RemoveAll(s.configErr, s.deleteResult, paths[i + 1..]).sent);
      done := done + sent;
      i := i + 1;
    }
    assert paths[i..] == [];
    assert done + [] == done;
    err := None;
  }

  /** `performOperationRemoveAllMfa`. `lookup` is what `lookupUserByImmutableID`
      (in `op.go`, which is not part of this model) gives for the account. */
  method RemoveAllMfa(s: Server, req: PerformOperationRequest, lookup: Result<ApiUser, Error>, quote: string -> string)
    returns (r: Result<PerformOperationResponse, Error>)
    modifies s
    ensures lookup.Err? ==> r == Err(lookup.error) && s.log == old(s.log)
    ensures lookup.Ok? ==>
      var q := DevicesQuery(lookup.value.pk);
      var listed := old(s.log) + Sent(s.configErr, Get(DevicesPath, q));
      match s.devices(q)
      case Err(e) => r == Err(e) && s.log == listed
      case Ok(devices) =>
        if devices == [] then r == Err(CodedErr(UnsupportedAccountState, NoFactors)) && s.log == listed
        else if IsDryRun(req) then r == Ok(EmptyOperationResponse) && s.log == listed
        else
          var removal := RemoveAll(s.configErr, s.deleteResult, DevicePaths(devices, quote));
          s.log == listed + removal.sent
          && r == (if removal.err.Some? then Err(removal.err.value) else Ok(EmptyOperationResponse))
    ensures IsDryRun(req) ==> Deletes(s.log) == Deletes(old(s.log))
  {
    if lookup.Err? {
      return Err(lookup.error);
    }
    var user := lookup.value;
    var devices := s.GetDevices(DevicesQuery(user.pk));
    DeletesAppend(old(s.log), Sent(s.configErr, Get(DevicesPath, DevicesQuery(user.pk))));
    ListingDeletesNothing(s.configErr, user.pk);
    if devices.Err? {
      return Err(devices.error);
    }
    if |devices.value| == 0 {
      return Err(CodedErr(UnsupportedAccountState, NoFactors));
    }
    if IsDryRun(req) {
      return Ok(EmptyOperationResponse);
    }
    var err := DeleteDevices(s, devices.value, quote);
    if err.Some? {
      return Err(err.value);
    }
    r := Ok(EmptyOperationResponse);
  }

  /** Listing a user's devices sends no DELETE; so a failed lookup, a failed
      listing, a user without devices and a dry run all leave the number of
      DELETEs sent unchanged (the dry-run case is an ensures of `RemoveAllMfa`). */
  lemma ListingDeletesNothing(configErr: Option<CodedError>, pk: int)
    ensures Deletes(Sent(configErr, Get(DevicesPath, DevicesQuery(pk)))) == 0
  {
    if configErr.None? {
      assert Sent(configErr, Get(DevicesPath, DevicesQuery(pk)))[..0] == [];
    }
  }
}
