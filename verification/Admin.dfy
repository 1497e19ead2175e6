/** The store logic behind the admin panel: resetting a user's token,
    banning a user, deleting and re-packaging a subscription, and the counts
    and listings the panel shows. The two documents are kept apart so that a
    write to the wrong one shows. */
module Admin {
  import opened Common
  import opened Strings
  import opened Store
  import opened Subscriptions
  import opened Commands

  /** `ResetUserModal.callback`: an unknown (stripped) user id is reported and
      nothing is written; otherwise only that user's token is removed. */
  function ResetToken(accounts: Accounts, input: string): (r: Result<Accounts, Refusal>)
    ensures r.Ok? <==> Strip(input) in accounts
    ensures r.Err? ==> r.error == NotFound
    ensures r.Ok? ==> var u := Strip(input);
      && u in r.value && r.value[u].token == None
      && r.value[u].subscriptionId == accounts[u].subscriptionId && r.value[u].setups == accounts[u].setups
      && SameExcept(accounts, r.value, u)
  {
    var user := Strip(input);
    if user !in accounts then Err(NotFound)
    else Ok(accounts[user := accounts[user].(token := None)])
  }

  /** `BanUserModal.callback`: an unknown user id is reported; otherwise that
      account is removed and every other one kept. */
  function Ban(accounts: Accounts, input: string): (r: Result<Accounts, Refusal>)
    ensures r.Ok? <==> Strip(input) in accounts
    ensures r.Err? ==> r.error == NotFound
    ensures r.Ok? ==> Strip(input) !in r.value && |r.value| == |accounts| - 1
    ensures r.Ok? ==> SameExcept(accounts, r.value, Strip(input))
  {
    var user := Strip(input);
    if user !in accounts then Err(NotFound)
    else Ok(accounts - {user})
  }

  /** What `config.json` holds: the accounts and admins document, or, after
      `save_config` has been handed the subscriptions map, a copy of that
      map. */
  datatype ConfigDoc = Config(accounts: Accounts, admins: Admins) | Dump(records: Subs)

  /** The two files the bot keeps. */
  datatype Files = Files(config: ConfigDoc, subs: Subs)

  /** A dumped map as `load_config` sees it: one object per record, under
      its id (the fields of a record play no part in loading). */
  function DumpJson(records: Subs): (r: Json)
    ensures r.JObject? && r.fields.Keys == records.Keys
  {
    JObject(map id | id in records :: JObject(map[]))
  }

  /** Subscription ids are eight upper-case hexadecimal digits, so neither
      section name is among them, and `load_config` of a dump keeps both
      sections missing: every later `config["accounts"][…]` (login, the
      token dialog, the setup loop) raises `KeyError`, and
      `config.get("admins", {})` finds no admin. */
  lemma DumpHidesSections(records: Subs)
    requires "accounts" !in records && "admins" !in records
    ensures LoadConfig(Contents(DumpJson(records))).Ok?
    ensures "accounts" !in LoadConfig(Contents(DumpJson(records))).value
    ensures "admins" !in LoadConfig(Contents(DumpJson(records))).value
  {
  }

  /** The accounts the bot can still reach through `config.json`: after a
      dump there are none, because the section is missing and reading it
      raises (`DumpHidesSections`). */
  function AccountsOf(doc: ConfigDoc): Accounts {
    match doc
    case Config(accounts, _) => accounts
    case Dump(_) => map[]
  }

  /** Likewise for the admins. */
  function AdminsOf(doc: ConfigDoc): Admins {
    match doc
    case Config(_, admins) => admins
    case Dump(_) => map[]
  }

  /** `DeleteSubscriptionModal.callback` as written: an unknown id is
      reported; otherwise the map without that record is saved with
      `save_config`, that is, over `config.json`. */
  function DeleteSubscriptionAsWritten(files: Files, input: string): (r: Result<Files, Refusal>)
    ensures r.Ok? <==> Strip(input) in files.subs
    ensures r.Err? ==> r.error == NotFound
    ensures r.Ok? ==> r.value.subs == files.subs
    ensures r.Ok? ==> r.value.config == Dump(files.subs - {Strip(input)})
  {
    var id := Strip(input);
    if id !in files.subs then Err(NotFound)
    else Ok(Files(Dump(files.subs - {id}), files.subs))
  }

  /** As written, a "successful" delete keeps the record and discards every
      account and admin. */
  lemma DeleteSubscriptionLosesAccounts(files: Files, input: string)
    requires Strip(input) in files.subs
    ensures var after := DeleteSubscriptionAsWritten(files, input).value;
      && Lookup(after.subs, Strip(input)) == Lookup(files.subs, Strip(input)) != None
      && AccountsOf(after.config) == map[] && AdminsOf(after.config) == map[]
  {
  }

  /** The delete the handler evidently intends: the record is removed from
      `subscriptions.json` and `config.json` is left alone. */
  function DeleteSubscription(files: Files, input: string): (r: Result<Files, Refusal>)
    ensures r.Ok? <==> Strip(input) in files.subs
    ensures r.Err? ==> r.error == NotFound
    ensures r.Ok? ==> r.value.config == files.config
    ensures r.Ok? ==> Lookup(r.value.subs, Strip(input)) == None && |r.value.subs| == |files.subs| - 1
    ensures r.Ok? ==> SameExcept(files.subs, r.value.subs, Strip(input))
  {
    var id := Strip(input);
    if id !in files.subs then Err(NotFound)
    else Ok(files.(subs := files.subs - {id}))
  }

  /** The record `UpdateSubscriptionModal` writes: the new package and its
      day count; dates, owner, claim and flag are kept. */
  function Repackaged(s: Subscription, package: string): Subscription
    requires package in Packages
  {
    s.(packageType := package, days := Some(Packages[package].days))
  }

  /** `UpdateSubscriptionModal.callback` as written: an unknown id is
      reported, then an unknown package; otherwise the updated map is saved
      with `save_config`, over `config.json`. */
  function UpdateSubscriptionAsWritten(files: Files, idInput: string, packageInput: string): (r: Result<Files, Refusal>)
    ensures Strip(idInput) !in files.subs ==> r == Err(NotFound)
    ensures Strip(idInput) in files.subs && Strip(packageInput) !in Packages ==> r == Err(UnknownPackage)
    ensures r.Ok? <==> Strip(idInput) in files.subs && Strip(packageInput) in Packages
    ensures r.Ok? ==> r.value.subs == files.subs
    ensures r.Ok? ==> r.value.config == Dump(files.subs[Strip(idInput) := Repackaged(files.subs[Strip(idInput)], Strip(packageInput))])
  {
    var id := Strip(idInput);
    var package := Strip(packageInput);
    if id !in files.subs then Err(NotFound)
    else if package !in Packages then Err(UnknownPackage)
    else Ok(Files(Dump(files.subs[id := Repackaged(files.subs[id], package)]), files.subs))
  }

  /** As written, a "successful" update leaves the record's package as it
      was and discards every account and admin. */
  lemma UpdateSubscriptionLosesAccounts(files: Files, idInput: string, packageInput: string)
    requires Strip(idInput) in files.subs && Strip(packageInput) in Packages
    requires files.subs[Strip(idInput)].packageType != Strip(packageInput)
    ensures var after := UpdateSubscriptionAsWritten(files, idInput, packageInput).value;
      && after.subs[Strip(idInput)].packageType != Strip(packageInput)
      && AccountsOf(after.config) == map[] && AdminsOf(after.config) == map[]
  {
  }

  /** The update the handler evidently intends: the record in
      `subscriptions.json` gets the package and its day count. */
  function UpdateSubscription(files: Files, idInput: string, packageInput: string): (r: Result<Files, Refusal>)
    ensures Strip(idInput) !in files.subs ==> r == Err(NotFound)
    ensures Strip(idInput) in files.subs && Strip(packageInput) !in Packages ==> r == Err(UnknownPackage)
    ensures r.Ok? <==> Strip(idInput) in files.subs && Strip(packageInput) in Packages
    ensures r.Ok? ==> r.value.config == files.config
    ensures r.Ok? ==> var id := Strip(idInput); var s := files.subs[id];
      && id in r.value.subs
      && r.value.subs[id].packageType == Strip(packageInput)
      && r.value.subs[id].days == Some(Packages[Strip(packageInput)].days)
      && r.value.subs[id].(packageType := s.packageType, days := s.days) == s
    ensures r.Ok? ==> SameExcept(files.subs, r.value.subs, Strip(idInput))
  {
    var id := Strip(idInput);
    var package := Strip(packageInput);
    if id !in files.subs then Err(NotFound)
    else if package !in Packages then Err(UnknownPackage)
    else Ok(files.(subs := files.subs[id := Repackaged(files.subs[id], package)]))
  }

  /** The names of the running setups. */
  function RunningNames(setups: map<SetupName, Setup>): (r: set<SetupName>)
    ensures r <= setups.Keys
    ensures forall n :: n in r <==> n in setups && setups[n].running
  {
    set n | n in setups && setups[n].running
  }

  /** "Active" in the user listings: the number of running setups. */
  function ActiveSetups(setups: map<SetupName, Setup>): (r: nat)
    ensures r == |RunningNames(setups)|
    ensures r <= |setups|
    ensures r == |setups| <==> forall n :: n in setups ==> setups[n].running
    ensures r == 0 <==> forall n :: n in setups ==> !setups[n].running
  {
    RunningCount(setups);
    |RunningNames(setups)|
  }

  /** The bounds on the number of running setups. */
  lemma RunningCount(setups: map<SetupName, Setup>)
    ensures |RunningNames(setups)| <= |setups|
    ensures |RunningNames(setups)| == |setups| <==> forall n :: n in setups ==> setups[n].running
    ensures |RunningNames(setups)| == 0 <==> forall n :: n in setups ==> !setups[n].running
  {
    var running := RunningNames(setups);
    SubsetCard(running, setups.Keys);
    assert |setups.Keys| == |setups|;
    if forall n :: n in setups ==> !setups[n].running {
      assert running == {};
    } else {
      var n :| n in setups && setups[n].running;
      assert n in running;
    }
  }

  /** A subset is no larger, and is as large only when it is the whole set. */
  lemma {:induction false} SubsetCard<T>(a: set<T>, b: set<T>)
    requires a <= b
    ensures |a| <= |b|
    ensures |a| == |b| <==> a == b
    decreases |b|
  {
    if b != {} {
      var x :| x in b;
      SubsetCard(a - {x}, b - {x});
      if x in a {
        assert a == (a - {x}) + {x} && b == (b - {x}) + {x};
        assert |a - {x}| == |a| - 1 && |b - {x}| == |b| - 1;
      } else {
        assert a - {x} == a;
      }
    }
  }

  /** After `start_all` succeeds the listing counts every setup of the user
      as active; after `stop_all` succeeds it counts none. */
  lemma BulkCounts(accounts: Accounts, user: UserId, tokenOk: bool)
    ensures StartAll(accounts, user, tokenOk).Ok? ==>
      ActiveSetups(StartAll(accounts, user, tokenOk).value[user].setups) == |accounts[user].setups|
    ensures StopAll(accounts, user).Ok? ==> ActiveSetups(StopAll(accounts, user).value[user].setups) == 0
  {
  }

  /** The dashboard's "Active Subscriptions": records whose `active` flag is
      set. */
  function ActiveSubscriptions(subs: Subs): (r: nat)
    ensures r == |ActiveIds(subs)|
    ensures r <= |subs|
    ensures r == |subs| <==> forall id :: id in subs ==> subs[id].active
  {
    ActiveCount(subs);
    |ActiveIds(subs)|
  }

  /** The ids of the active records. */
  function ActiveIds(subs: Subs): (r: set<string>)
    ensures r <= subs.Keys
    ensures forall id :: id in r <==> id in subs && subs[id].active
  {
    set id | id in subs && subs[id].active
  }

  /** The bounds on the number of active records. */
  lemma ActiveCount(subs: Subs)
    ensures |ActiveIds(subs)| <= |subs|
    ensures |ActiveIds(subs)| == |subs| <==> forall id :: id in subs ==> subs[id].active
  {
    var active := ActiveIds(subs);
    SubsetCard(active, subs.Keys);
    assert |subs.Keys| == |subs|;
    if !forall id :: id in subs ==> subs[id].active {
      var id :| id in subs && !subs[id].active;
      assert id !in active;
    }
  }

  /** The dashboard's statistics: active subscriptions, users, admins and
      packages. */
  datatype Stats = Stats(activeSubs: nat, users: nat, admins: nat, packages: nat)

  function Dashboard(accounts: Accounts, admins: Admins, subs: Subs): (r: Stats)
    ensures r.activeSubs == ActiveSubscriptions(subs) == |ActiveIds(subs)|
    ensures r.activeSubs <= |subs|
    ensures r.users == |accounts| && r.admins == |admins|
    ensures r.packages == 3
  {
    assert Packages.Keys == {"1minggu", "1bulan", "3bulan"};
    Stats(ActiveSubscriptions(subs), |accounts|, |admins|, |Packages|)
  }

  /** One line of a user listing: the id, the number of setups and the number
      running. */
  datatype Row = Row(user: UserId, setups: nat, active: nat)

  function RowOf(accounts: Accounts, user: UserId): (r: Row)
    requires user in accounts
    ensures r.user == user && r.active <= r.setups == |accounts[user].setups|
    ensures r.active == ActiveSetups(accounts[user].setups) == |RunningNames(accounts[user].setups)|
  {
    Row(user, |accounts[user].setups|, ActiveSetups(accounts[user].setups))
  }

  /** Rows for the users of `order`, in that order. */
  function Rows(accounts: Accounts, order: seq<UserId>): (r: seq<Row>)
    requires forall i :: 0 <= i < |order| ==> order[i] in accounts
    ensures |r| == |order|
    ensures forall i :: 0 <= i < |r| ==> r[i] == RowOf(accounts, order[i])
  {
    if order == [] then [] else [RowOf(accounts, order[0])] + Rows(accounts, order[1..])
  }

  /** `list_users`: nothing when there are no accounts; otherwise the first
      ten accounts in dictionary order (`order`), each with its counts. */
  function ListUsers(accounts: Accounts, order: seq<UserId>): (r: Option<seq<Row>>)
    requires ListsKeys(order, accounts)
    ensures r.None? <==> accounts == map[]
    ensures r.Some? ==> |r.value| == if |accounts| < 10 then |accounts| else 10
    ensures r.Some? ==> |r.value| <= |order| && forall i :: 0 <= i < |r.value| ==> r.value[i] == RowOf(accounts, order[i])
    ensures r.Some? ==> forall i, j :: 0 <= i < j < |r.value| ==> r.value[i].user != r.value[j].user
  {
    KeysCount(order, accounts);
    if accounts == map[] then None
    else Some(Rows(accounts, order[..if |order| < 10 then |order| else 10]))
  }

  /** A listing of every key is as long as the map. */
  lemma {:induction false} KeysCount<K(!new), V>(order: seq<K>, m: map<K, V>)
    requires ListsKeys(order, m)
    ensures |order| == |m|
    decreases |order|
  {
    if order == [] {
      assert forall k :: k !in m;
      assert m == map[];
    } else {
      var k := order[0];
      var rest := order[1..];
      var m' := m - {k};
      forall i | 0 <= i < |rest| ensures rest[i] in m' {
        assert rest[i] == order[i + 1] != order[0];
      }
      forall x | x in m' ensures x in rest {
        var i :| 0 <= i < |order| && order[i] == x;
        assert i != 0;
        assert rest[i - 1] == x;
      }
      KeysCount(rest, m');
      assert |m'| == |m| - 1;
    }
  }

  /** What `FindUserModal` shows about a user. */
  datatype UserInfo = UserInfo(setups: nat, active: nat, hasToken: bool, subscriptions: seq<(string, string)>)

  /** The ids and package names of the records claimed by `user`, in the
      order of `order`. */
  function ClaimedBy(subs: Subs, order: seq<string>, user: string): (r: seq<(string, string)>)
    requires forall i :: 0 <= i < |order| ==> order[i] in subs
    ensures |r| <= |order|
    ensures forall x :: x in r ==> x.0 in order && subs[x.0].claimedBy == Some(user) && x.1 == subs[x.0].packageType
    ensures forall i :: 0 <= i < |order| && subs[order[i]].claimedBy == Some(user) ==> (order[i], subs[order[i]].packageType) in r
    ensures (forall i, j :: 0 <= i < j < |order| ==> order[i] != order[j]) ==> forall i, j :: 0 <= i < j < |r| ==> r[i].0 != r[j].0
  {
    if order == [] then []
    else
      var rest := ClaimedBy(subs, order[1..], user);
      assert forall i :: 1 <= i < |order| ==> order[i] == order[1..][i - 1];
      if subs[order[0]].claimedBy == Some(user) then [(order[0], subs[order[0]].packageType)] + rest else rest
  }

  /** The listing keeps document order: the claimed records of a split
      listing are those of its first part, then those of its second. */
  lemma {:induction false} ClaimedByAppend(subs: Subs, a: seq<string>, b: seq<string>, user: string)
    requires forall i :: 0 <= i < |a| ==> a[i] in subs
    requires forall i :: 0 <= i < |b| ==> b[i] in subs
    ensures forall i :: 0 <= i < |a + b| ==> (a + b)[i] in subs
    ensures ClaimedBy(subs, a + b, user) == ClaimedBy(subs, a, user) + ClaimedBy(subs, b, user)
    decreases |a|
  {
    assert forall i :: 0 <= i < |a + b| ==> (a + b)[i] in subs by {
      forall i | 0 <= i < |a + b| ensures (a + b)[i] in subs {
        if i < |a| { assert (a + b)[i] == a[i]; } else { assert (a + b)[i] == b[i - |a|]; }
      }
    }
    if a == [] {
      assert a + b == b;
    } else {
      assert (a + b)[1..] == a[1..] + b;
      assert (a + b)[0] == a[0];
      ClaimedByAppend(subs, a[1..], b, user);
    }
  }

  /** `FindUserModal.callback`: nothing for an unknown (stripped) user id;
      otherwise the setup counts, whether a token is stored (an empty one
      counts) and exactly the subscriptions claimed by that id. */
  function FindUser(accounts: Accounts, subs: Subs, order: seq<string>, input: string): (r: Option<UserInfo>)
    requires ListsKeys(order, subs)
    ensures r.None? <==> Strip(input) !in accounts
    ensures r.Some? ==> var a := accounts[Strip(input)];
      && r.value.setups == |a.setups| && r.value.active == ActiveSetups(a.setups)
      && r.value.hasToken == a.token.Some?
    ensures r.Some? ==> forall id :: (exists p :: (id, p) in r.value.subscriptions) <==> id in subs && subs[id].claimedBy == Some(Strip(input))
    ensures r.Some? ==> r.value.subscriptions == ClaimedBy(subs, order, Strip(input))
  {
    var user := Strip(input);
    if user !in accounts then None
    else
      var a := accounts[user];
      var found := ClaimedBy(subs, order, user);
      assert forall id :: id in subs && subs[id].claimedBy == Some(user) ==> (id, subs[id].packageType) in found by {
        forall id | id in subs && subs[id].claimedBy == Some(user) ensures (id, subs[id].packageType) in found {
          var i :| 0 <= i < |order| && order[i] == id;
        }
      }
      Some(UserInfo(|a.setups|, ActiveSetups(a.setups), a.token.Some?, found))
  }
}
