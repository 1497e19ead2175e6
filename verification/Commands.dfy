/** The bot commands of the main module that edit the accounts document:
    `delete_setup`, `start_all` and `stop_all`. Neither bulk command starts
    or stops a loop; they only set flags. */
module Commands {
  import opened Common
  import opened Store

  /** `delete_setup` (and the confirm button of the delete dialog, which
      does the same): an unknown user or setup is reported and nothing is
      written; otherwise exactly that setup is removed. */
  function DeleteSetup(accounts: Accounts, user: UserId, name: SetupName): (r: Result<Accounts, Refusal>)
    ensures r.Ok? <==> user in accounts && name in accounts[user].setups
    ensures r.Err? ==> r.error == NotFound
    ensures r.Ok? ==> user in r.value && name !in r.value[user].setups
    ensures r.Ok? ==> |r.value[user].setups| == |accounts[user].setups| - 1
    ensures r.Ok? ==> SameExcept(accounts[user].setups, r.value[user].setups, name)
    ensures r.Ok? ==> r.value[user].token == accounts[user].token && r.value[user].subscriptionId == accounts[user].subscriptionId
    ensures r.Ok? ==> SameExcept(accounts, r.value, user)
  {
    if user !in accounts || name !in accounts[user].setups then Err(NotFound)
    else
      var account := accounts[user];
      Ok(accounts[user := account.(setups := account.setups - {name})])
  }

  /** Every setup of a map with its flag set to `running`. */
  function WithRunning(setups: map<SetupName, Setup>, running: bool): (r: map<SetupName, Setup>)
    ensures r.Keys == setups.Keys
    ensures forall n :: n in r ==> r[n] == setups[n].(running := running)
  {
    map n | n in setups :: setups[n].(running := running)
  }

  /** `start_all`: refused when the user has no setups, or no token, an empty
      one or one that fails validation (`tokenOk`); otherwise every setup of
      the user is flagged running, and nothing else changes. */
  function StartAll(accounts: Accounts, user: UserId, tokenOk: bool): (r: Result<Accounts, Refusal>)
    ensures user !in accounts || accounts[user].setups == map[] ==> r == Err(NoSetups)
    ensures r.Ok? <==>
      user in accounts && accounts[user].setups != map[] &&
      accounts[user].token.Some? && accounts[user].token.value != "" && tokenOk
    ensures r.Ok? ==> user in r.value && r.value[user].setups.Keys == accounts[user].setups.Keys
    ensures r.Ok? ==> forall n :: n in accounts[user].setups ==> IsRunning(r.value, user, n)
    ensures r.Ok? ==> forall n :: n in accounts[user].setups ==> r.value[user].setups[n].(running := false) == accounts[user].setups[n].(running := false)
    ensures r.Ok? ==> r.value[user].token == accounts[user].token && r.value[user].subscriptionId == accounts[user].subscriptionId
    ensures r.Ok? ==> SameExcept(accounts, r.value, user)
  {
    if user !in accounts || accounts[user].setups == map[] then Err(NoSetups)
    else if accounts[user].token.None? || accounts[user].token.value == "" || !tokenOk then Err(InvalidToken)
    else
      var account := accounts[user];
      Ok(accounts[user := account.(setups := WithRunning(account.setups, true))])
  }

  /** `stop_all`: refused when the user has no setups; otherwise every setup
      of the user is flagged stopped. There is no token check. */
  function StopAll(accounts: Accounts, user: UserId): (r: Result<Accounts, Refusal>)
    ensures r.Ok? <==> user in accounts && accounts[user].setups != map[]
    ensures r.Err? ==> r.error == NoSetups
    ensures r.Ok? ==> user in r.value && r.value[user].setups.Keys == accounts[user].setups.Keys
    ensures r.Ok? ==> forall n :: !IsRunning(r.value, user, n)
    ensures r.Ok? ==> forall n :: n in accounts[user].setups ==> r.value[user].setups[n].(running := true) == accounts[user].setups[n].(running := true)
    ensures r.Ok? ==> r.value[user].token == accounts[user].token && r.value[user].subscriptionId == accounts[user].subscriptionId
    ensures r.Ok? ==> SameExcept(accounts, r.value, user)
  {
    if user !in accounts || accounts[user].setups == map[] then Err(NoSetups)
    else
      var account := accounts[user];
      Ok(accounts[user := account.(setups := WithRunning(account.setups, false))])
  }

  /** Applying a bulk command a second time changes nothing more. */
  lemma BulkIdempotent(accounts: Accounts, user: UserId, tokenOk: bool)
    ensures StartAll(accounts, user, tokenOk).Ok? ==>
      StartAll(StartAll(accounts, user, tokenOk).value, user, tokenOk) == StartAll(accounts, user, tokenOk)
    ensures StopAll(accounts, user).Ok? ==> StopAll(StopAll(accounts, user).value, user) == StopAll(accounts, user)
  {
    if StartAll(accounts, user, tokenOk).Ok? {
      var a := StartAll(accounts, user, tokenOk).value;
      assert WithRunning(a[user].setups, true) == a[user].setups;
      assert a[user].(setups := a[user].setups) == a[user];
      assert a[user := a[user]] == a;
    }
    if StopAll(accounts, user).Ok? {
      var a := StopAll(accounts, user).value;
      assert WithRunning(a[user].setups, false) == a[user].setups;
      assert a[user].(setups := a[user].setups) == a[user];
      assert a[user := a[user]] == a;
    }
  }
}
