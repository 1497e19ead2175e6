/** The log filter installed by the bot's logger: it rewrites three emoji in
    string log messages to bracketed ASCII tags and never drops a record. */
module Utils {
  import opened Strings

  /** U+274C CROSS MARK. */
  const Cross: string := ['\U{274C}']
  /** U+2705 WHITE HEAVY CHECK MARK. */
  const Check: string := ['\U{2705}']
  /** U+26A0 WARNING SIGN followed by U+FE0F VARIATION SELECTOR-16. */
  const Warn: string := ['\U{26A0}', '\U{FE0F}']

  /** The `msg` of a log record: a string, or any other object, which the
      filter leaves alone (identified here only by an opaque number). */
  datatype LogMessage = Text(text: string) | NonText(id: int)

  /** The three replacements, in the order the filter applies them. */
  function Rewrite(s: string): string {
    Replace(Replace(Replace(s, Cross, "[ERROR]"), Check, "[SUCCESS]"), Warn, "[WARNING]")
  }

  /** After the rewrite none of the three emoji patterns is left. */
  lemma RewriteRemovesEmoji(s: string)
    ensures Cross[0] !in Rewrite(s) && !Occurs(Rewrite(s), Cross)
    ensures Check[0] !in Rewrite(s) && !Occurs(Rewrite(s), Check)
    ensures !Occurs(Rewrite(s), Warn)
  {
    var a := Replace(s, Cross, "[ERROR]");
    var b := Replace(a, Check, "[SUCCESS]");
    var c := Replace(b, Warn, "[WARNING]");
    ReplaceRemovesChar(s, Cross, "[ERROR]");
    ReplaceKeepsOut(a, Check, "[SUCCESS]", Cross[0]);
    ReplaceRemovesChar(a, Check, "[SUCCESS]");
    ReplaceKeepsOut(b, Warn, "[WARNING]", Cross[0]);
    ReplaceKeepsOut(b, Warn, "[WARNING]", Check[0]);
    ReplaceRemovesPair(b, Warn, "[WARNING]");
    SingleOccurs(c, Cross);
    SingleOccurs(c, Check);
  }

  /** A one-code-point pattern occurs exactly when its code point does. */
  lemma SingleOccurs(s: string, pat: string)
    requires |pat| == 1
    ensures Occurs(s, pat) <==> pat[0] in s
  {
    if pat[0] in s {
      var i :| 0 <= i < |s| && s[i] == pat[0];
      assert s[i..i + 1] == pat;
      assert OccursAt(s, pat, i);
    }
  }

  /** None of the three emoji's leading code points. */
  predicate EmojiFree(a: string) {
    Cross[0] !in a && Check[0] !in a && Warn[0] !in a
  }

  /** A cross mark after an emoji-free prefix becomes "[ERROR]", and the
      rest of the message is rewritten in turn. */
  lemma RewriteCross(a: string, b: string)
    requires EmojiFree(a)
    ensures Rewrite(a + Cross + b) == a + "[ERROR]" + Rewrite(b)
  {
    var b1 := Replace(b, Cross, "[ERROR]");
    var b2 := Replace(b1, Check, "[SUCCESS]");
    assert a + Cross + b == a + (Cross + b);
    ReplaceSkip(a, Cross + b, Cross, "[ERROR]");
    ReplaceMatch(b, Cross, "[ERROR]");
    assert a + ("[ERROR]" + b1) == (a + "[ERROR]") + b1;
    ReplaceSkip(a + "[ERROR]", b1, Check, "[SUCCESS]");
    ReplaceSkip(a + "[ERROR]", b2, Warn, "[WARNING]");
  }

  /** A check mark after an emoji-free prefix becomes "[SUCCESS]", and the
      rest of the message is rewritten in turn. */
  lemma RewriteCheck(a: string, b: string)
    requires EmojiFree(a)
    ensures Rewrite(a + Check + b) == a + "[SUCCESS]" + Rewrite(b)
  {
    var b1 := Replace(b, Cross, "[ERROR]");
    var b2 := Replace(b1, Check, "[SUCCESS]");
    assert a + Check + b == (a + Check) + b;
    ReplaceSkip(a + Check, b, Cross, "[ERROR]");
    assert (a + Check) + b1 == a + (Check + b1);
    ReplaceSkip(a, Check + b1, Check, "[SUCCESS]");
    ReplaceMatch(b1, Check, "[SUCCESS]");
    assert a + ("[SUCCESS]" + b2) == (a + "[SUCCESS]") + b2;
    ReplaceSkip(a + "[SUCCESS]", b2, Warn, "[WARNING]");
  }

  /** The warning sign with its variation selector, after an emoji-free
      prefix, becomes "[WARNING]", and the rest of the message is rewritten
      in turn. */
  lemma RewriteWarn(a: string, b: string)
    requires EmojiFree(a)
    ensures Rewrite(a + Warn + b) == a + "[WARNING]" + Rewrite(b)
  {
    var b1 := Replace(b, Cross, "[ERROR]");
    var b2 := Replace(b1, Check, "[SUCCESS]");
    assert a + Warn + b == (a + Warn) + b;
    ReplaceSkip(a + Warn, b, Cross, "[ERROR]");
    ReplaceSkip(a + Warn, b1, Check, "[SUCCESS]");
    assert (a + Warn) + b2 == a + (Warn + b2);
    ReplaceSkip(a, Warn + b2, Warn, "[WARNING]");
    ReplaceMatch(b2, Warn, "[WARNING]");
    assert a + ("[WARNING]" + Replace(b2, Warn, "[WARNING]")) == a + "[WARNING]" + Replace(b2, Warn, "[WARNING]");
  }

  /** A message containing none of the three patterns is left as it is. */
  lemma RewriteIdentity(s: string)
    ensures !Occurs(s, Cross) && !Occurs(s, Check) && !Occurs(s, Warn) ==> Rewrite(s) == s
  {
    if !Occurs(s, Cross) && !Occurs(s, Check) && !Occurs(s, Warn) {
      ReplaceAbsent(s, Cross, "[ERROR]");
      ReplaceAbsent(s, Check, "[SUCCESS]");
      ReplaceAbsent(s, Warn, "[WARNING]");
    }
  }

  /** `UnicodeFilter.filter`: the record always passes; a string message is
      rewritten, any other message is untouched. */
  function Filter(msg: LogMessage): (r: (bool, LogMessage))
    ensures r.0
    ensures !msg.Text? ==> r.1 == msg
    ensures msg.Text? ==> r.1 == Text(Rewrite(msg.text))
    ensures msg.Text? ==> r.1.Text? && !Occurs(r.1.text, Cross) && !Occurs(r.1.text, Check) && !Occurs(r.1.text, Warn)
    ensures msg.Text? && !Occurs(msg.text, Cross) && !Occurs(msg.text, Check) && !Occurs(msg.text, Warn) ==> r.1 == msg
  {
    match msg
    case Text(s) =>
      RewriteRemovesEmoji(s);
      RewriteIdentity(s);
      (true, Text(Rewrite(s)))
    case NonText(_) => (true, msg)
  }

  /** How the token probe (`GET /users/@me` with the token) ended: with an
      HTTP status, or with an exception (timeout, connection failure). */
  datatype Probe = Answered(status: int) | Raised

  /** `validate_token`: only a 200 answer makes a token valid. The `tokenOk`
      parameters of the other modules stand for this verdict. */
  function ValidateToken(p: Probe): (r: bool)
    ensures r <==> p.Answered? && p.status == 200
    ensures p.Raised? ==> !r
  {
    match p
    case Answered(status) => status == 200
    case Raised => false
  }
}
