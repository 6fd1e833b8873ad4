/** `directory/dirad/adclient/password.go`: finding the password policy that
    applies to a user and resetting the user's password to a fresh temporary one
    that satisfies it. */
module AdPassword {
  import opened Wrappers
  import opened Text
  import opened Directory
  import opened AdClient

  /** `PasswordPolicy`; the minimum length is a pointer, absent when the JSON lacks it. */
  datatype PasswordPolicy = PasswordPolicy(minPasswordLength: Option<int>)

  /** The pipeline that picks the fine-grained policy of lowest precedence. */
  const PolicyTail: string :=
    "$appliesToList=$groupDNs+$userDN;Get-ADFineGrainedPasswordPolicy -Filter * | Where-Object "
    + "{$_.AppliesTo -match ($appliesToList -join '|')} | Sort-Object Precedence | Select-Object -First 1 "
    + "| Select-Object MinPasswordLength | ConvertTo-Json"

  /** The fine-grained policy query; the immutable ID appears twice, quotes doubled. */
  function PolicyCommand(immutableID: string): string {
    var e := DoubleQuotes(immutableID);
    PolicyHead + e + PolicyGroups + e + PolicyMemberOf + PolicyTail
  }

  const PolicyHead: string := "$userDN=(Get-ADUser -Identity '"
  const PolicyGroups: string := "').DistinguishedName;$groupDNs=(Get-ADUser -Identity '"
  const PolicyMemberOf: string := "' -Properties MemberOf).MemberOf;"

  const DefaultPolicyCommand: string :=
    "Get-ADDefaultDomainPasswordPolicy | Select-Object -Property MinPasswordLength | ConvertTo-Json"

  /** The policy `GetPasswordPolicy` finds, or the error it stops with. */
  function PolicyOutcome(m: ResponseMap, immutableID: string,
                         parse: string -> Result<PasswordPolicy, Error>): (r: Result<PasswordPolicy, Error>)
    // an error of the fine-grained query is returned as it is
    ensures Lookup(m, PolicyCommand(immutableID)).Err? ==> r == Err(Lookup(m, PolicyCommand(immutableID)).error)
    // non-empty fine-grained output is the answer, parsed
    ensures Lookup(m, PolicyCommand(immutableID)).Ok? && Lookup(m, PolicyCommand(immutableID)).value != []
            ==> r == parse(Lookup(m, PolicyCommand(immutableID)).value)
    // empty output falls back to the domain default policy
    ensures Lookup(m, PolicyCommand(immutableID)) == Ok([]) && Lookup(m, DefaultPolicyCommand).Err?
            ==> r == Err(Lookup(m, DefaultPolicyCommand).error)
    ensures Lookup(m, PolicyCommand(immutableID)) == Ok([]) && Lookup(m, DefaultPolicyCommand).Ok?
            ==> r == parse(Lookup(m, DefaultPolicyCommand).value)
  {
    var fine := Lookup(m, PolicyCommand(immutableID));
    if fine.Err? then Err(fine.error)
    else if fine.value != [] then parse(fine.value)
    else
      var dflt := Lookup(m, DefaultPolicyCommand);
      if dflt.Err? then Err(dflt.error) else parse(dflt.value)
  }

  /** The queries `GetPasswordPolicy` runs. */
  function PolicyCommands(m: ResponseMap, immutableID: string): (cmds: seq<string>)
    ensures Lookup(m, PolicyCommand(immutableID)) == Ok([]) ==> cmds == [PolicyCommand(immutableID), DefaultPolicyCommand]
    ensures Lookup(m, PolicyCommand(immutableID)) != Ok([]) ==> cmds == [PolicyCommand(immutableID)]
  {
    if Lookup(m, PolicyCommand(immutableID)) == Ok([]) then [PolicyCommand(immutableID), DefaultPolicyCommand]
    else [PolicyCommand(immutableID)]
  }

  /** `GetPasswordPolicy`; `parse` is the JSON decoding of a policy. */
  method GetPasswordPolicy(s: MockClient, immutableID: string, parse: string -> Result<PasswordPolicy, Error>)
    returns (r: Result<PasswordPolicy, Error>)
    modifies s
    ensures s.responseMap == old(s.responseMap)
    ensures r == PolicyOutcome(s.responseMap, immutableID, parse)
    ensures s.executed == old(s.executed) + PolicyCommands(s.responseMap, immutableID)
  {
    var stdout := s.Execute(PolicyCommand(immutableID));
    if stdout.Err? {
      return Err(stdout.error);
    }
    if |stdout.value| != 0 {
      r := parse(stdout.value);
      return;
    }
    stdout := s.Execute(DefaultPolicyCommand);
    if stdout.Err? {
      return Err(stdout.error);
    }
    r := parse(stdout.value);
  }

  /** Every single quote of the ID is doubled in the query, so the ID can be read back. */
  lemma PolicyCommandEscapes(immutableID: string)
    ensures var e := DoubleQuotes(immutableID);
      PolicyCommand(immutableID)[..|PolicyHead| + |e|] == PolicyHead + e
      && UndoubleQuotes(e) == Some(immutableID)
  {
    UndoubleDoubleQuotes(immutableID);
    var e := DoubleQuotes(immutableID);
    var head := PolicyHead + e;
    var n := |head|;
    TakeConcat(head + PolicyGroups + e + PolicyMemberOf, PolicyTail, n);
    TakeConcat(head + PolicyGroups + e, PolicyMemberOf, n);
    TakeConcat(head + PolicyGroups, e, n);
    TakeConcat(head, PolicyGroups, n);
    PrefixAll(head);
  }

  /** The reset command: the new password, and a forced change at next logon. */
  function ResetCommand(immutableID: string, password: string): string {
    ResetHead + immutableID + ResetNewPassword + password + ResetForce + immutableID + ResetTail
  }

  const ResetHead: string := "Set-ADAccountPassword -Identity "
  const ResetNewPassword: string := " -Reset -NewPassword (ConvertTo-SecureString '"
  const ResetForce: string := "' -AsPlainText -Force); Set-ADUser -Identity '"
  const ResetTail: string := "' -ChangePasswordAtLogon $true"

  const PolicyErrorPrefix: string := "could not get password policy: "

  /** The decoder gives every policy a minimum length (the source dereferences it). */
  ghost predicate AlwaysHasLength(parse: string -> Result<PasswordPolicy, Error>) {
    forall out :: parse(out).Ok? ==> parse(out).value.minPasswordLength.Some?
  }

  /** What `AssignTemporaryPassword` answers. `generate(n)` is
      `password.Generate(n, 1, 1, false, false)`. */
  function AssignOutcome(m: ResponseMap, immutableID: string,
                         parse: string -> Result<PasswordPolicy, Error>, generate: int -> Result<string, Error>)
    : (r: Result<string, Error>)
    requires AlwaysHasLength(parse)
    // a policy lookup failure is reported with context
    ensures var policy := PolicyOutcome(m, immutableID, parse);
      policy.Err? ==> r == Err(Wrapped(PolicyErrorPrefix, policy.error))
    // a generation failure and a reset failure are returned as they are
    ensures var policy := PolicyOutcome(m, immutableID, parse);
      policy.Ok? && generate(policy.value.minPasswordLength.value).Err? ==>
        r == Err(generate(policy.value.minPasswordLength.value).error)
    ensures var policy := PolicyOutcome(m, immutableID, parse);
      policy.Ok? && generate(policy.value.minPasswordLength.value).Ok?
      && Lookup(m, ResetCommand(immutableID, generate(policy.value.minPasswordLength.value).value)).Err? ==>
        r == Err(Lookup(m, ResetCommand(immutableID, generate(policy.value.minPasswordLength.value).value)).error)
    // a password is answered only when it was generated for the policy's length and the reset took it
    ensures r.Ok? ==>
      var policy := PolicyOutcome(m, immutableID, parse);
      policy.Ok? && generate(policy.value.minPasswordLength.value) == Ok(r.value)
      && Lookup(m, ResetCommand(immutableID, r.value)).Ok?
    // and then it is answered
    ensures var policy := PolicyOutcome(m, immutableID, parse);
      policy.Ok? && generate(policy.value.minPasswordLength.value).Ok?
      && Lookup(m, ResetCommand(immutableID, generate(policy.value.minPasswordLength.value).value)).Ok?
      ==> r.Ok?
  {
    var policy := PolicyOutcome(m, immutableID, parse);
    if policy.Err? then Err(Wrapped(PolicyErrorPrefix, policy.error))
    else
      var pw := generate(policy.value.minPasswordLength.value);
      if pw.Err? then Err(pw.error)
      else
        var out := Lookup(m, ResetCommand(immutableID, pw.value));
        if out.Err? then Err(out.error) else Ok(pw.value)
  }

  /** The commands `AssignTemporaryPassword` runs. */
  function AssignCommands(m: ResponseMap, immutableID: string,
                          parse: string -> Result<PasswordPolicy, Error>, generate: int -> Result<string, Error>)
    : (cmds: seq<string>)
    requires AlwaysHasLength(parse)
    // the policy queries come first
    ensures |PolicyCommands(m, immutableID)| <= |cmds|
    ensures cmds[..|PolicyCommands(m, immutableID)|] == PolicyCommands(m, immutableID)
    // at most one reset follows, and only once a policy was found and a password generated
    ensures |cmds| <= |PolicyCommands(m, immutableID)| + 1
    ensures |cmds| > |PolicyCommands(m, immutableID)| <==>
      var policy := PolicyOutcome(m, immutableID, parse);
      policy.Ok? && generate(policy.value.minPasswordLength.value).Ok?
    // the reset carries the generated password
    ensures |cmds| > |PolicyCommands(m, immutableID)| ==>
      var policy := PolicyOutcome(m, immutableID, parse);
      cmds[|cmds| - 1] == ResetCommand(immutableID, generate(policy.value.minPasswordLength.value).value)
  {
    var policy := PolicyOutcome(m, immutableID, parse);
    if policy.Err? then PolicyCommands(m, immutableID)
    else
      var pw := generate(policy.value.minPasswordLength.value);
      if pw.Err? then PolicyCommands(m, immutableID)
      else PolicyCommands(m, immutableID) + [ResetCommand(immutableID, pw.value)]
  }

  /** `AssignTemporaryPassword`. */
  method AssignTemporaryPassword(s: MockClient, immutableID: string, parse: string -> Result<PasswordPolicy, Error>,
                                 generate: int -> Result<string, Error>)
    returns (r: Result<string, Error>)
    requires AlwaysHasLength(parse)
    modifies s
    ensures s.responseMap == old(s.responseMap)
    ensures r == AssignOutcome(s.responseMap, immutableID, parse, generate)
    ensures s.executed == old(s.executed) + AssignCommands(s.responseMap, immutableID, parse, generate)
  {
    var policy := GetPasswordPolicy(s, immutableID, parse);
    if policy.Err? {
      return Err(Wrapped(PolicyErrorPrefix, policy.error));
    }
    var pw := generate(policy.value.minPasswordLength.value);
    if pw.Err? {
      return Err(pw.error);
    }
    var out := s.Execute(ResetCommand(immutableID, pw.value));
    if out.Err? {
      return Err(out.error);
    }
    r := Ok(pw.value);
  }
}
