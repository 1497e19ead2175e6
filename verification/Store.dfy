/** The accounts document (`config.json`): its entities, the normalisation
    `load_config` applies when reading it, and the admin records it holds. */
module Store {
  import opened Common

  type UserId = string
  type SetupName = string

  /** A named recurring post. Intervals are in minutes; the timestamp is an
      integer number of seconds. */
  datatype Setup = Setup(
    channel: string,
    message: string,
    interval: real,
    randomInterval: real,
    running: bool,
    lastUpdated: int)

  /** A user's entry: an optional token, an optional subscription id and the
      user's setups by name. A document without a `setups` key is read as an
      empty map. */
  datatype Account = Account(token: Option<string>, subscriptionId: Option<string>, setups: map<SetupName, Setup>)

  type Accounts = map<UserId, Account>

  /** An entry of the `admins` section. */
  datatype Admin = Admin(isAdmin: bool, password: string, createdAt: int)

  type Admins = map<UserId, Admin>

  /** Why a store command is refused. `Crash` stands for an exception the
      handler does not anticipate (for instance a `KeyError`); it writes
      nothing either. */
  datatype Refusal =
    | EmptyToken | InvalidToken | EmptyName | NoToken | DuplicateName | NotFound | NoSetups
    | EmptyChannel | EmptyMessage | IntervalNotNumber | IntervalNotPositive
    | JitterNotNumber | JitterNegative | UnknownPackage | Crash

  /** `running` as the setup loop reads it from a fresh document: a missing
      user, setup or flag reads as false. */
  predicate IsRunning(accounts: Accounts, user: UserId, name: SetupName) {
    user in accounts && name in accounts[user].setups && accounts[user].setups[name].running
  }

  /** A JSON value, only as precisely as `load_config` looks at it: an
      object, or anything else. */
  datatype Json = JObject(fields: map<string, Json>) | JOther

  /** The state of `config.json` when it is read. */
  datatype ConfigFile = Missing | Unreadable | Contents(doc: Json)

  /** `ConfigError` wraps a decode or I/O error; `NotAnObject` is the
      `AttributeError` raised by `data.get` when the top level is not an
      object, which `load_config` does not catch. */
  datatype LoadError = ConfigError | NotAnObject

  /** The two sections `load_config` checks. */
  const Sections: set<string> := {"accounts", "admins"}

  /** A section that is present but not an object is replaced by `{}`;
      anything else is kept as it is. */
  function NormaliseSection(fields: map<string, Json>, key: string): map<string, Json> {
    if key in fields && !fields[key].JObject? then fields[key := JObject(map[])] else fields
  }

  /** `load_config`: a missing file reads as two empty sections; an
      unreadable one raises; otherwise every key is kept, and the two
      sections, where present, are objects afterwards. A missing section
      stays missing. */
  function LoadConfig(file: ConfigFile): (r: Result<map<string, Json>, LoadError>)
    ensures file.Missing? ==> r == Ok(map["accounts" := JObject(map[]), "admins" := JObject(map[])])
    ensures file.Unreadable? ==> r == Err(ConfigError)
    ensures file.Contents? && !file.doc.JObject? ==> r == Err(NotAnObject)
    ensures file.Contents? && file.doc.JObject? ==>
      && r.Ok?
      && r.value.Keys == file.doc.fields.Keys
      && (forall k :: k in r.value && k !in Sections ==> r.value[k] == file.doc.fields[k])
      && (forall k :: k in r.value && k in Sections ==> r.value[k].JObject?)
      && (forall k :: k in r.value && file.doc.fields[k].JObject? ==> r.value[k] == file.doc.fields[k])
      && (forall k :: k in Sections && k in file.doc.fields && !file.doc.fields[k].JObject? ==> r.value[k] == JObject(map[]))
  {
    match file
    case Missing => Ok(map["accounts" := JObject(map[]), "admins" := JObject(map[])])
    case Unreadable => Err(ConfigError)
    case Contents(doc) =>
      if doc.JObject? then Ok(NormaliseSection(NormaliseSection(doc.fields, "accounts"), "admins"))
      else Err(NotAnObject)
  }

  /** Loading a document that `load_config` produced changes nothing more. */
  lemma LoadConfigIdempotent(file: ConfigFile)
    requires LoadConfig(file).Ok?
    ensures LoadConfig(Contents(JObject(LoadConfig(file).value))) == LoadConfig(file)
  {
    var m := LoadConfig(file).value;
    var again := LoadConfig(Contents(JObject(m))).value;
    assert again.Keys == m.Keys;
    forall k | k in m ensures again[k] == m[k] {
      if k in Sections { assert m[k].JObject?; }
    }
  }

  /** `add_admin`: an existing id is refused and nothing is written; a new id
      gets an enabled admin record with the given password, and no other
      admin changes. */
  function AddAdmin(admins: Admins, user: UserId, password: string, now: int): (r: (bool, Admins))
    ensures r.0 <==> user !in admins
    ensures !r.0 ==> r.1 == admins
    ensures r.0 ==> user in r.1 && r.1[user] == Admin(true, password, now)
    ensures SameExcept(admins, r.1, user)
  {
    if user in admins then (false, admins) else (true, admins[user := Admin(true, password, now)])
  }

  /** `is_admin`, given the admins section that was read (`None` when reading
      raised, which yields false): present with its flag set. */
  function IsAdmin(admins: Option<Admins>, user: UserId): (r: bool)
    ensures admins.None? || user !in admins.value ==> !r
    ensures admins.Some? && user in admins.value ==> (r <==> admins.value[user].isAdmin)
  {
    admins.Some? && user in admins.value && admins.value[user].isAdmin
  }

  /** `verify_admin`: password equality for a known id; the `is_admin` flag
      plays no part. */
  function VerifyAdmin(admins: Admins, user: UserId, password: string): (r: bool)
    ensures user !in admins ==> !r
    ensures user in admins ==> (r <==> admins[user].password == password)
  {
    user in admins && admins[user].password == password
  }

  /** After a successful `add_admin(u, p)`, `u` is an admin and `p` is its
      password. */
  lemma AddAdminGrants(admins: Admins, user: UserId, password: string, now: int)
    requires AddAdmin(admins, user, password, now).0
    ensures var after := AddAdmin(admins, user, password, now).1;
      IsAdmin(Some(after), user) && VerifyAdmin(after, user, password)
  {
  }

  /** Password checks ignore the admin flag: clearing or setting it does not
      change the answer. */
  lemma VerifyIgnoresFlag(admins: Admins, user: UserId, password: string, flag: bool)
    requires user in admins
    ensures VerifyAdmin(admins[user := admins[user].(isAdmin := flag)], user, password) == VerifyAdmin(admins, user, password)
  {
  }
}
