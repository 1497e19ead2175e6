/** User login and logout against a subscription, as transitions of the
    accounts document and the subscriptions document together. */
module Auth {
  import opened Common
  import opened Store
  import opened Subscriptions

  /** The returned flag and both documents after the call. */
  datatype Outcome = Outcome(ok: bool, accounts: Accounts, subs: Subs)

  /** `login_with_subscription(token, subscription_id)` for `user`: the
      subscription check runs first and may expire or claim the record
      whatever happens next; a failed check, or a token that fails
      validation (`tokenOk`), leaves the accounts untouched. On success a new
      user gets an account with no setups; an existing one has its token and
      subscription id overwritten and keeps its setups. */
  function Login(accounts: Accounts, subs: Subs, user: UserId, token: string, subId: string, now: int, tokenOk: bool): (r: Outcome)
    ensures r.subs == Validate(subs, subId, user, now).subs
    ensures r.ok <==> Validate(subs, subId, user, now).valid && tokenOk
    ensures !r.ok ==> r.accounts == accounts
    ensures r.ok ==> user in r.accounts && r.accounts[user].token == Some(token) && r.accounts[user].subscriptionId == Some(subId)
    ensures r.ok ==> r.accounts[user].setups == (if user in accounts then accounts[user].setups else map[])
    ensures SameExcept(accounts, r.accounts, user)
  {
    var check := Validate(subs, subId, user, now);
    if !check.valid || !tokenOk then Outcome(false, accounts, check.subs)
    else
      var account := if user in accounts then accounts[user].(token := Some(token), subscriptionId := Some(subId))
                     else Account(Some(token), Some(subId), map[]);
      Outcome(true, accounts[user := account], check.subs)
  }

  /** `logout_user`: the token and subscription id are removed, and the
      whole account goes when it has no setups. An unknown user writes
      nothing. The call reports success either way. */
  function Logout(accounts: Accounts, user: UserId): (r: (bool, Accounts))
    ensures r.0
    ensures user !in accounts ==> r.1 == accounts
    ensures user in accounts ==> (user in r.1 <==> accounts[user].setups != map[])
    ensures user in r.1 ==> r.1[user] == Account(None, None, accounts[user].setups)
    ensures SameExcept(accounts, r.1, user)
  {
    if user !in accounts then (true, accounts)
    else if accounts[user].setups == map[] then (true, accounts - {user})
    else (true, accounts[user := Account(None, None, accounts[user].setups)])
  }

  /** Logging out twice is logging out once. */
  lemma LogoutIdempotent(accounts: Accounts, user: UserId)
    ensures Logout(Logout(accounts, user).1, user).1 == Logout(accounts, user).1
  {
  }

  /** After a login, a logout keeps exactly the setups the user had. */
  lemma LoginLogout(accounts: Accounts, subs: Subs, user: UserId, token: string, subId: string, now: int)
    requires Login(accounts, subs, user, token, subId, now, true).ok
    ensures var after := Logout(Login(accounts, subs, user, token, subId, now, true).accounts, user).1;
      && SameExcept(accounts, after, user)
      && (user in after <==> user in accounts && accounts[user].setups != map[])
      && (user in after ==> after[user].setups == accounts[user].setups && after[user].token == None)
  {
  }

  /** `is_logged_in(user)`: false without both a token and a subscription id
      (and the subscriptions are then not touched); otherwise the answer and
      the side effects of validating that subscription for `user`. */
  function IsLoggedIn(accounts: Accounts, subs: Subs, user: UserId, now: int): (r: Check)
    ensures (user !in accounts || accounts[user].token.None? || accounts[user].subscriptionId.None?) ==> r == Check(false, subs)
    ensures user in accounts && accounts[user].token.Some? && accounts[user].subscriptionId.Some? ==>
      r == Validate(subs, accounts[user].subscriptionId.value, user, now)
  {
    if user !in accounts || accounts[user].token.None? || accounts[user].subscriptionId.None? then Check(false, subs)
    else Validate(subs, accounts[user].subscriptionId.value, user, now)
  }

  /** A successful login makes the user logged in, as long as the
      subscription has not expired meanwhile. */
  lemma LoginThenLoggedIn(accounts: Accounts, subs: Subs, user: UserId, token: string, subId: string, now: int)
    requires user != ""
    requires Login(accounts, subs, user, token, subId, now, true).ok
    ensures var o := Login(accounts, subs, user, token, subId, now, true);
      IsLoggedIn(o.accounts, o.subs, user, now).valid
  {
  }

  /** `auth.get_subscription_info(user)`: nothing without a subscription id
      on the account; otherwise the record it names, if any. */
  function SubscriptionOf(accounts: Accounts, subs: Subs, user: UserId): (r: Option<Subscription>)
    ensures (user !in accounts || accounts[user].subscriptionId.None?) ==> r == None
    ensures r.Some? ==>
      && user in accounts && accounts[user].subscriptionId.Some?
      && accounts[user].subscriptionId.value in subs && r.value == subs[accounts[user].subscriptionId.value]
    ensures user in accounts && accounts[user].subscriptionId.Some? ==>
      (r.Some? <==> accounts[user].subscriptionId.value in subs)
  {
    if user !in accounts || accounts[user].subscriptionId.None? then None
    else Lookup(subs, accounts[user].subscriptionId.value)
  }
}
