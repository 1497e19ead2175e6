/** The store transitions behind the user control panel: set token, create
    a setup, edit a setup, the start/stop choices of the setup selector and
    the checks the menu buttons make before opening a dialog. The dialogs
    themselves are not modelled. */
module Panel {
  import opened Common
  import opened Strings
  import opened Store

  /** `TokenModal.callback`: the stripped input must be non-blank and must
      pass token validation (`tokenOk`, asked of the stripped token); then
      the account is created empty if needed and only its token is set. */
  function SetToken(accounts: Accounts, user: UserId, input: string, tokenOk: bool): (r: Result<Accounts, Refusal>)
    ensures Strip(input) == [] ==> r == Err(EmptyToken)
    ensures Strip(input) != [] && !tokenOk ==> r == Err(InvalidToken)
    ensures r.Ok? <==> Strip(input) != [] && tokenOk
    ensures r.Ok? && user in accounts ==> user in r.value && r.value[user] == accounts[user].(token := Some(Strip(input)))
    ensures r.Ok? && user !in accounts ==> user in r.value && r.value[user] == Account(Some(Strip(input)), None, map[])
    ensures r.Ok? ==> SameExcept(accounts, r.value, user)
  {
    var token := Strip(input);
    if token == [] then Err(EmptyToken)
    else if !tokenOk then Err(InvalidToken)
    else
      var account := if user in accounts then accounts[user] else Account(None, None, map[]);
      Ok(accounts[user := account.(token := Some(token))])
  }

  /** The setup `CreateSetupModal` writes: no channel, placeholder message,
      one-minute interval, five minutes of jitter, not running. */
  function DefaultSetup(now: int): Setup {
    Setup("", "example", 1.0, 5.0, false, now)
  }

  /** `CreateSetupModal.callback`: a blank name is refused before anything
      else is looked at; then the user must have an account with a token
      (an empty token counts: only the key's presence is checked) and the
      name must be new. Success adds exactly one setup, with the defaults,
      and touches nothing else. */
  function CreateSetup(accounts: Accounts, user: UserId, input: string, now: int): (r: Result<Accounts, Refusal>)
    ensures Strip(input) == [] ==> r == Err(EmptyName)
    ensures Strip(input) != [] && (user !in accounts || accounts[user].token.None?) ==> r == Err(NoToken)
    ensures Strip(input) != [] && user in accounts && accounts[user].token.Some? && Strip(input) in accounts[user].setups ==>
      r == Err(DuplicateName)
    ensures r.Ok? ==> user in accounts && user in r.value && Strip(input) !in accounts[user].setups
    ensures r.Ok? ==> var before := accounts[user].setups; var after := r.value[user].setups;
      && after.Keys == before.Keys + {Strip(input)}
      && |after| == |before| + 1
      && after[Strip(input)] == DefaultSetup(now)
      && (forall n :: n in before ==> after[n] == before[n])
    ensures r.Ok? ==> r.value[user].token == accounts[user].token && r.value[user].subscriptionId == accounts[user].subscriptionId
    ensures r.Ok? ==> SameExcept(accounts, r.value, user)
  {
    var name := Strip(input);
    if name == [] then Err(EmptyName)
    else if user !in accounts || accounts[user].token.None? then Err(NoToken)
    else if name in accounts[user].setups then Err(DuplicateName)
    else
      var account := accounts[user];
      Ok(accounts[user := account.(setups := account.setups[name := DefaultSetup(now)])])
  }

  /** The four fields of the edit dialog after validation. */
  datatype Form = Form(channel: string, message: string, interval: real, randomInterval: real)

  /** The checks of `SetupModal.callback`, in their order, on the stripped
      fields: channel and message must be non-blank; the interval must
      parse (`parse` stands for `float()`, `None` for a `ValueError`) and be
      positive; a blank random interval means 0, otherwise it must parse and
      be non-negative. */
  function ReadForm(channel: string, message: string, interval: string, randomInterval: string, parse: string -> Option<real>): (r: Result<Form, Refusal>)
    ensures r.Ok? ==> r.value.channel == channel != [] && r.value.message == message != []
    ensures r.Ok? ==> r.value.interval > 0.0 && r.value.randomInterval >= 0.0
    ensures r.Ok? ==> parse(interval) == Some(r.value.interval)
    ensures r.Ok? && randomInterval == [] ==> r.value.randomInterval == 0.0
    ensures r.Ok? && randomInterval != [] ==> parse(randomInterval) == Some(r.value.randomInterval)
    ensures r.Ok? <==>
      && channel != [] && message != []
      && parse(interval).Some? && parse(interval).value > 0.0
      && (randomInterval == [] || (parse(randomInterval).Some? && parse(randomInterval).value >= 0.0))
    ensures channel == [] ==> r == Err(EmptyChannel)
    ensures channel != [] && message == [] ==> r == Err(EmptyMessage)
    ensures channel != [] && message != [] && parse(interval).None? ==> r == Err(IntervalNotNumber)
    ensures channel != [] && message != [] && parse(interval).Some? && parse(interval).value <= 0.0 ==> r == Err(IntervalNotPositive)
    ensures (channel != [] && message != [] && parse(interval).Some? && parse(interval).value > 0.0 &&
             randomInterval != [] && parse(randomInterval).None?) ==> r == Err(JitterNotNumber)
    ensures (channel != [] && message != [] && parse(interval).Some? && parse(interval).value > 0.0 &&
             randomInterval != [] && parse(randomInterval).Some? && parse(randomInterval).value < 0.0) ==> r == Err(JitterNegative)
    ensures r.Err? ==> r.error in {EmptyChannel, EmptyMessage, IntervalNotNumber, IntervalNotPositive, JitterNotNumber, JitterNegative}
  {
    if channel == [] then Err(EmptyChannel)
    else if message == [] then Err(EmptyMessage)
    else if parse(interval).None? then Err(IntervalNotNumber)
    else if parse(interval).value <= 0.0 then Err(IntervalNotPositive)
    else if randomInterval == [] then Ok(Form(channel, message, parse(interval).value, 0.0))
    else if parse(randomInterval).None? then Err(JitterNotNumber)
    else if parse(randomInterval).value < 0.0 then Err(JitterNegative)
    else Ok(Form(channel, message, parse(interval).value, parse(randomInterval).value))
  }

  /** The dialog's raw fields, stripped and checked. */
  function Submitted(channel: string, message: string, interval: string, randomInterval: string, parse: string -> Option<real>): Result<Form, Refusal> {
    ReadForm(Strip(channel), Strip(message), Strip(interval), Strip(randomInterval), parse)
  }

  /** `SetupModal.callback`: a valid form replaces the setup's channel,
      message, interval and random interval, takes `running` from the
      snapshot the dialog was opened with, and stamps the time. The write is
      `accounts[user]["setups"][name] = …`, so a setup deleted since the
      dialog opened is written back, and a user without an account raises
      (`Crash`). Nothing else changes. */
  function EditSetup(
    accounts: Accounts, user: UserId, name: SetupName, snapshotRunning: bool,
    channel: string, message: string, interval: string, randomInterval: string,
    parse: string -> Option<real>, now: int): (r: Result<Accounts, Refusal>)
    ensures Submitted(channel, message, interval, randomInterval, parse).Err? ==>
      r == Err(Submitted(channel, message, interval, randomInterval, parse).error)
    ensures Submitted(channel, message, interval, randomInterval, parse).Ok? && user !in accounts ==> r == Err(Crash)
    ensures r.Ok? <==> Submitted(channel, message, interval, randomInterval, parse).Ok? && user in accounts
    ensures r.Ok? ==> user in accounts && user in r.value && name in r.value[user].setups
    ensures r.Ok? ==> var f := Submitted(channel, message, interval, randomInterval, parse).value;
      r.value[user].setups[name] == Setup(f.channel, f.message, f.interval, f.randomInterval, snapshotRunning, now)
    ensures r.Ok? ==> r.value[user].setups[name].interval > 0.0 && r.value[user].setups[name].randomInterval >= 0.0
    ensures r.Ok? ==> SameExcept(accounts[user].setups, r.value[user].setups, name)
    ensures r.Ok? ==> r.value[user].token == accounts[user].token && r.value[user].subscriptionId == accounts[user].subscriptionId
    ensures r.Ok? ==> SameExcept(accounts, r.value, user)
  {
    match Submitted(channel, message, interval, randomInterval, parse)
    case Err(e) => Err(e)
    case Ok(f) =>
      if user !in accounts then Err(Crash)
      else
        var account := accounts[user];
        var setup := Setup(f.channel, f.message, f.interval, f.randomInterval, snapshotRunning, now);
        Ok(accounts[user := account.(setups := account.setups[name := setup])])
  }

  /** The form with channel "123", message "hi", interval 2 and random
      interval 5 is accepted as those values. */
  lemma SubmittedExample(parse: string -> Option<real>)
    requires parse("2") == Some(2.0) && parse("5") == Some(5.0)
    ensures Submitted("123", "hi", "2", "5", parse) == Ok(Form("123", "hi", 2.0, 5.0))
  {
    StripUnchanged("123");
    StripUnchanged("hi");
    StripUnchanged("2");
    StripUnchanged("5");
    assert ReadForm("123", "hi", "2", "5", parse) == Ok(Form("123", "hi", 2.0, 5.0));
  }

  /** Editing a setup with that form reads back those values, the
      snapshot's flag and the new time. */
  lemma EditReadBack(accounts: Accounts, user: UserId, name: SetupName, running: bool, parse: string -> Option<real>, now: int)
    requires user in accounts
    requires parse("2") == Some(2.0) && parse("5") == Some(5.0)
    ensures var r := EditSetup(accounts, user, name, running, "123", "hi", "2", "5", parse, now);
      r.Ok? && r.value[user].setups[name] == Setup("123", "hi", 2.0, 5.0, running, now)
  {
    SubmittedExample(parse);
  }

  /** The `start` and `stop` choices of `SetupSelectView.select_callback`:
      only the chosen setup's `running` flag changes. No loop is started or
      stopped here; a loop notices the flag on its next iteration. A setup
      that has gone is reported and nothing is written; a user without an
      account raises (`Crash`). */
  function SetRunning(accounts: Accounts, user: UserId, name: SetupName, running: bool): (r: Result<Accounts, Refusal>)
    ensures user !in accounts ==> r == Err(Crash)
    ensures user in accounts && name !in accounts[user].setups ==> r == Err(NotFound)
    ensures r.Ok? <==> user in accounts && name in accounts[user].setups
    ensures r.Ok? ==> user in r.value && name in r.value[user].setups
    ensures r.Ok? ==> IsRunning(r.value, user, name) == running
    ensures r.Ok? ==> r.value[user].setups[name] == accounts[user].setups[name].(running := running)
    ensures r.Ok? ==> SameExcept(accounts[user].setups, r.value[user].setups, name)
    ensures r.Ok? ==> r.value[user].token == accounts[user].token && r.value[user].subscriptionId == accounts[user].subscriptionId
    ensures r.Ok? ==> SameExcept(accounts, r.value, user)
  {
    if user !in accounts then Err(Crash)
    else if name !in accounts[user].setups then Err(NotFound)
    else
      var account := accounts[user];
      Ok(accounts[user := account.(setups := account.setups[name := account.setups[name].(running := running)])])
  }

  /** Stopping a started setup gives back its original record when it was
      not running before. */
  lemma StartThenStop(accounts: Accounts, user: UserId, name: SetupName)
    requires user in accounts && name in accounts[user].setups && !accounts[user].setups[name].running
    ensures SetRunning(SetRunning(accounts, user, name, true).value, user, name, false) == Ok(accounts)
  {
    var a := SetRunning(accounts, user, name, true).value;
    var b := SetRunning(a, user, name, false).value;
    assert b[user].setups[name] == accounts[user].setups[name];
    assert b[user].setups == accounts[user].setups;
    assert b[user] == accounts[user];
    assert b == accounts;
  }

  /** The "Buat Setup" button opens its dialog only for a user whose menu
      snapshot has an account with a token. */
  predicate MayCreate(snapshot: Accounts, user: UserId) {
    user in snapshot && snapshot[user].token.Some?
  }

  /** The edit, start, stop and status buttons additionally need at least
      one setup. */
  predicate MayManage(snapshot: Accounts, user: UserId) {
    MayCreate(snapshot, user) && snapshot[user].setups != map[]
  }

  /** What the menu's checks guarantee when the document has not changed
      since the menu was drawn: creating under any new non-blank name
      succeeds, and managing offers a non-empty list of setups each of which
      can be started or stopped. */
  lemma MenuGates(accounts: Accounts, user: UserId, input: string, now: int, running: bool)
    ensures MayCreate(accounts, user) && Strip(input) != [] && Strip(input) !in accounts[user].setups ==>
      CreateSetup(accounts, user, input, now).Ok?
    ensures MayManage(accounts, user) ==>
      && (exists name :: name in accounts[user].setups)
      && (forall name :: name in accounts[user].setups ==> SetRunning(accounts, user, name, running).Ok?)
  {
    if MayManage(accounts, user) {
      var name :| name in accounts[user].setups;
    }
  }
}
